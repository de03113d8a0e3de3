/**
 * The few Python `str` operations the worker and the webhook rely on:
 * `\s` / `str.isspace`, `\w`, `strip`, `upper`, the `in` substring test,
 * `startswith`, `split` on one separator character and decimal `str(int)`.
 */
module Text {

  /** Python's `str.isspace()`, which is also what `\s` matches in a `str` pattern. */
  predicate IsSpace(c: char) {
    || c == ' '
    || '\t' <= c <= '\r'          // \t \n \v \f \r
    || '\U{1C}' <= c <= '\U{1F}'  // file, group, record and unit separators
    || c == '\U{85}' || c == '\U{A0}' || c == '\U{1680}'
    || '\U{2000}' <= c <= '\U{200A}'
    || c == '\U{2028}' || c == '\U{2029}' || c == '\U{202F}' || c == '\U{205F}' || c == '\U{3000}'
  }

  predicate IsDigit(c: char) {
    '0' <= c <= '9'
  }

  predicate IsLatinLetter(c: char) {
    'a' <= c <= 'z' || 'A' <= c <= 'Z'
  }

  /** The basic Russian alphabet, U+0410..U+044F, together with Ё and ё. */
  predicate IsCyrillicLetter(c: char) {
    'А' <= c <= 'я' || c == 'Ё' || c == 'ё'
  }

  /** A word character (`\w`) of the alphabets the assistant speaks. */
  predicate IsWordChar(c: char) {
    IsLatinLetter(c) || IsCyrillicLetter(c) || IsDigit(c) || c == '_'
  }

  /** The characters of `s` that satisfy `keep`, in their original order. */
  function Filter(s: string, keep: char -> bool): (r: string)
    ensures |r| <= |s|
    ensures forall i :: 0 <= i < |r| ==> keep(r[i])
  {
    if s == [] then []
    else if keep(s[|s| - 1]) then Filter(s[..|s| - 1], keep) + [s[|s| - 1]]
    else Filter(s[..|s| - 1], keep)
  }

  /** A string all of whose characters pass is kept whole. */
  lemma {:induction false} FilterAllKept(s: string, keep: char -> bool)
    requires forall i :: 0 <= i < |s| ==> keep(s[i])
    ensures Filter(s, keep) == s
  {
    if s != [] {
      FilterAllKept(s[..|s| - 1], keep);
      assert s[..|s| - 1] + [s[|s| - 1]] == s;
    }
  }

  /** A string none of whose characters pass filters to nothing. */
  lemma {:induction false} FilterNoneKept(s: string, keep: char -> bool)
    requires forall i :: 0 <= i < |s| ==> !keep(s[i])
    ensures Filter(s, keep) == []
  {
    if s != [] {
      FilterNoneKept(s[..|s| - 1], keep);
    }
  }

  /** Nothing `keep` accepts is lost. */
  lemma {:induction false} FilterKeeps(s: string, keep: char -> bool, i: nat)
    requires i < |s| && keep(s[i])
    ensures s[i] in Filter(s, keep)
  {
    if i < |s| - 1 {
      FilterKeeps(s[..|s| - 1], keep, i);
    }
  }

  /** `Filter` distributes over concatenation, so it keeps the order of what it keeps. */
  lemma {:induction false} FilterAppend(s: string, t: string, keep: char -> bool)
    ensures Filter(s + t, keep) == Filter(s, keep) + Filter(t, keep)
  {
    if t == [] {
      assert s + t == s;
    } else {
      assert (s + t)[..|s + t| - 1] == s + t[..|t| - 1];
      FilterAppend(s, t[..|t| - 1], keep);
    }
  }

  /** Cutting away ends that `keep` rejects entirely changes nothing about what is kept. */
  lemma FilterSlice(s: string, a: nat, b: nat, keep: char -> bool)
    requires a <= b <= |s|
    requires forall i :: 0 <= i < a ==> !keep(s[i])
    requires forall i :: b <= i < |s| ==> !keep(s[i])
    ensures Filter(s[a..b], keep) == Filter(s, keep)
  {
    FilterDropBack(s, b, keep);
    assert s[a..b] == s[..b][a..];
    FilterDropFront(s[..b], a, keep);
  }

  lemma FilterDropFront(s: string, a: nat, keep: char -> bool)
    requires a <= |s|
    requires forall i :: 0 <= i < a ==> !keep(s[i])
    ensures Filter(s[a..], keep) == Filter(s, keep)
  {
    var front := s[..a];
    assert s == front + s[a..];
    FilterAppend(front, s[a..], keep);
    FilterNoneKept(front, keep);
  }

  lemma FilterDropBack(s: string, b: nat, keep: char -> bool)
    requires b <= |s|
    requires forall i :: b <= i < |s| ==> !keep(s[i])
    ensures Filter(s[..b], keep) == Filter(s, keep)
  {
    var back := s[b..];
    assert s == s[..b] + back;
    FilterAppend(s[..b], back, keep);
    assert forall i :: 0 <= i < |back| ==> back[i] == s[b + i];
    FilterNoneKept(back, keep);
  }

  /** Filtering twice is filtering once with both tests. */
  lemma {:induction false} FilterFilter(s: string, p: char -> bool, q: char -> bool, pq: char -> bool)
    requires forall c :: pq(c) == (p(c) && q(c))
    ensures Filter(Filter(s, p), q) == Filter(s, pq)
  {
    if s != [] {
      var init := s[..|s| - 1];
      FilterFilter(init, p, q, pq);
      if p(s[|s| - 1]) {
        assert Filter(s, p)[..|Filter(s, p)| - 1] == Filter(init, p);
      }
    }
  }

  /** `lstrip()`: drops the leading whitespace. */
  function TrimLeft(s: string): string {
    if s != [] && IsSpace(s[0]) then TrimLeft(s[1..]) else s
  }

  /** `lstrip()` drops the leading whitespace and nothing else. */
  lemma {:induction false} TrimLeftShape(s: string)
    ensures |TrimLeft(s)| <= |s| && TrimLeft(s) == s[|s| - |TrimLeft(s)|..]
    ensures forall i :: 0 <= i < |s| - |TrimLeft(s)| ==> IsSpace(s[i])
    ensures TrimLeft(s) != [] ==> !IsSpace(TrimLeft(s)[0])
  {
    if s != [] && IsSpace(s[0]) {
      var t := s[1..];
      TrimLeftShape(t);
      var r := TrimLeft(t);
      assert TrimLeft(s) == r;
      assert r == s[|s| - |r|..] by {
        assert t[|t| - |r|..] == s[|s| - |r|..];
      }
      forall i | 0 <= i < |s| - |r|
        ensures IsSpace(s[i])
      {
        if i > 0 {
          assert s[i] == t[i - 1];
        }
      }
    }
  }

  /** `rstrip()`: drops the trailing whitespace. */
  function TrimRight(s: string): string {
    if s != [] && IsSpace(s[|s| - 1]) then TrimRight(s[..|s| - 1]) else s
  }

  /** `rstrip()` drops the trailing whitespace and nothing else. */
  lemma {:induction false} TrimRightShape(s: string)
    ensures |TrimRight(s)| <= |s| && TrimRight(s) == s[..|TrimRight(s)|]
    ensures forall i :: |TrimRight(s)| <= i < |s| ==> IsSpace(s[i])
    ensures TrimRight(s) != [] ==> !IsSpace(TrimRight(s)[|TrimRight(s)| - 1])
  {
    if s != [] && IsSpace(s[|s| - 1]) {
      TrimRightShape(s[..|s| - 1]);
    }
  }

  /** Where `strip()` starts cutting: the length of the leading whitespace. */
  function StripStart(s: string): nat {
    TrimLeftShape(s);
    |s| - |TrimLeft(s)|
  }

  /** `strip()`. */
  function Strip(s: string): string {
    TrimRight(TrimLeft(s))
  }

  /** `strip()` is the slice of `s` between its leading and its trailing whitespace. */
  lemma StripShape(s: string)
    ensures StripStart(s) + |Strip(s)| <= |s| && Strip(s) == s[StripStart(s)..StripStart(s) + |Strip(s)|]
    ensures forall i :: 0 <= i < StripStart(s) ==> IsSpace(s[i])
    ensures forall i :: StripStart(s) + |Strip(s)| <= i < |s| ==> IsSpace(s[i])
    ensures Strip(s) != [] ==> !IsSpace(Strip(s)[0]) && !IsSpace(Strip(s)[|Strip(s)| - 1])
  {
    var t := TrimLeft(s);
    TrimLeftShape(s);
    TrimRightShape(t);
    var a := |s| - |t|;
    var r := TrimRight(t);
    assert r == t[..|r|];
    assert forall i :: a + |r| <= i < |s| ==> s[i] == t[i - a];
    if r != [] {
      assert r[0] == t[0];
    }
  }

  /** `t` stands in `s` at offset `k`. */
  predicate OccursAt(s: string, t: string, k: nat) {
    k + |t| <= |s| && s[k..k + |t|] == t
  }

  /** Python's `t in s` on strings. */
  predicate Contains(s: string, t: string) {
    exists k: nat | k <= |s| :: OccursAt(s, t, k)
  }

  /** `str.upper()` on one character, for the Latin and the basic Cyrillic alphabets. */
  function UpperChar(c: char): char {
    if 'a' <= c <= 'z' || 'а' <= c <= 'я' then (c as int - 32) as char
    else if c == 'ё' then 'Ё'
    else c
  }

  function Upper(s: string): (r: string)
    ensures |r| == |s| && forall i :: 0 <= i < |s| ==> r[i] == UpperChar(s[i])
  {
    seq(|s|, i requires 0 <= i < |s| => UpperChar(s[i]))
  }

  predicate StartsWith(s: string, prefix: string) {
    |prefix| <= |s| && s[..|prefix|] == prefix
  }

  predicate EndsWith(s: string, suffix: string) {
    |suffix| <= |s| && s[|s| - |suffix|..] == suffix
  }

  /**
   * Python's `s.split(sep)` with an explicit one-character separator: the
   * fields between separators, empty fields included, so never an empty list.
   */
  function Split(s: string, sep: char): (parts: seq<string>)
    ensures |parts| >= 1
    ensures forall i :: 0 <= i < |parts| ==> sep !in parts[i]
  {
    if s == [] then [[]]
    else
      var rest := Split(s[1..], sep);
      if s[0] == sep then [[]] + rest else [[s[0]] + rest[0]] + rest[1..]
  }

  /** A first field without the separator is split off as it stands. */
  lemma {:induction false} SplitFirstField(field: string, sep: char, rest: string)
    requires sep !in field
    ensures Split(field + [sep] + rest, sep) == [field] + Split(rest, sep)
  {
    if field != [] {
      assert (field + [sep] + rest)[1..] == field[1..] + [sep] + rest;
      SplitFirstField(field[1..], sep, rest);
      assert [field[0]] + field[1..] == field;
    } else {
      assert field + [sep] + rest == [sep] + rest;
    }
  }

  function DigitChar(d: nat): (c: char)
    requires d < 10
    ensures IsDigit(c)
  {
    ('0' as int + d) as char
  }

  /** Python's `str(n)` for a non-negative integer. */
  function NatToString(n: nat): (r: string)
    ensures |r| >= 1 && (n >= 10 <==> |r| >= 2)
    ensures forall i :: 0 <= i < |r| ==> IsDigit(r[i])
  {
    if n < 10 then [DigitChar(n)] else NatToString(n / 10) + [DigitChar(n % 10)]
  }

  /** Python's `str(i)` for any integer. */
  function IntToString(i: int): (r: string)
    ensures r == "1" <==> i == 1
    ensures forall k :: 0 <= k < |r| ==> IsDigit(r[k]) || r[k] == '-'
  {
    if i < 0 then "-" + NatToString(-i) else NatToString(i)
  }
}
