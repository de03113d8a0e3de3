/**
 * The voice synthesiser adapter of the message worker: the three-stage
 * sanitiser `clean_text_for_audio` and the empty and failure paths of
 * `generate_voice`.
 */
module Audio {
  import opened Wrappers
  import opened Text

  /** Markdown emphasis, heading and code markers, deleted by the first stage. */
  predicate IsMarker(c: char) {
    c == '*' || c == '#' || c == '`'
  }

  predicate IsNotMarker(c: char) {
    !IsMarker(c)
  }

  /** The punctuation the second stage keeps: `,` `!` `.` `?` `:` `-`. */
  predicate IsKeptPunctuation(c: char) {
    c == ',' || c == '!' || c == '.' || c == '?' || c == ':' || c == '-'
  }

  /** What the class `[^\w\s,!.?:\-а-яА-ЯёЁa-zA-Z0-9]` does not match, so the second stage keeps. */
  predicate IsAllowed(c: char) {
    IsWordChar(c) || IsSpace(c) || IsKeptPunctuation(c)
  }

  /** A character the sanitiser never removes: a word character or kept punctuation. */
  predicate IsVisible(c: char) {
    IsWordChar(c) || IsKeptPunctuation(c)
  }

  predicate IsNotSpace(c: char) {
    !IsSpace(c)
  }

  predicate IsAllowedNonMarker(c: char) {
    IsNotMarker(c) && IsAllowed(c)
  }

  /** Every whitespace character is a plain space and no two whitespace characters are adjacent. */
  predicate SingleSpaced(s: string) {
    && (forall i :: 0 <= i < |s| && IsSpace(s[i]) ==> s[i] == ' ')
    && (forall i :: 0 <= i < |s| - 1 ==> !(IsSpace(s[i]) && IsSpace(s[i + 1])))
  }

  /** Stage one: `.replace('*', '').replace('#', '').replace('`', '')`. */
  function RemoveMarkers(s: string): string {
    Filter(s, IsNotMarker)
  }

  /** Stage two: deleting every character the class above matches. */
  function KeepAllowed(s: string): string {
    Filter(s, IsAllowed)
  }

  /** Stage three, first half: `re.sub(r'\s+', ' ', s)`, each maximal run of whitespace becomes one space. */
  function CollapseWhitespace(s: string): (r: string)
    ensures |r| <= |s|
    ensures r == [] <==> s == []
    ensures s != [] ==> (IsSpace(r[0]) <==> IsSpace(s[0]))
    decreases |s|
  {
    if s == [] then []
    else if IsSpace(s[0]) then
      TrimLeftShape(s[1..]);
      [' '] + CollapseWhitespace(TrimLeft(s[1..]))
    else [s[0]] + CollapseWhitespace(s[1..])
  }

  /** The collapsed text is single-spaced, and it adds no character that was not allowed already. */
  lemma {:induction false} CollapseShape(s: string)
    ensures SingleSpaced(CollapseWhitespace(s))
    ensures (forall i :: 0 <= i < |s| ==> IsAllowedNonMarker(s[i]))
            ==> forall i :: 0 <= i < |CollapseWhitespace(s)| ==> IsAllowedNonMarker(CollapseWhitespace(s)[i])
    decreases |s|
  {
    if s != [] && IsSpace(s[0]) {
      var t := TrimLeft(s[1..]);
      TrimLeftShape(s[1..]);
      SuffixAllowed(s, t);
      CollapseShape(t);
      SpacedCons(' ', CollapseWhitespace(t));
    } else if s != [] {
      var t := s[1..];
      SuffixAllowed(s, t);
      CollapseShape(t);
      SpacedCons(s[0], CollapseWhitespace(t));
    }
  }

  lemma SuffixAllowed(s: string, t: string)
    requires |t| <= |s| && t == s[|s| - |t|..]
    ensures (forall i :: 0 <= i < |s| ==> IsAllowedNonMarker(s[i]))
            ==> forall i :: 0 <= i < |t| ==> IsAllowedNonMarker(t[i])
  {
    assert forall i :: 0 <= i < |t| ==> t[i] == s[|s| - |t| + i];
  }

  /** Putting one character in front keeps a text single-spaced and allowed, if the character fits. */
  lemma SpacedCons(c: char, t: string)
    requires SingleSpaced(t)
    requires IsSpace(c) ==> c == ' ' && (t != [] ==> !IsSpace(t[0]))
    ensures SingleSpaced([c] + t)
    ensures IsAllowedNonMarker(c) && (forall i :: 0 <= i < |t| ==> IsAllowedNonMarker(t[i]))
            ==> forall i :: 0 <= i < |t| + 1 ==> IsAllowedNonMarker(([c] + t)[i])
  {
    assert forall i :: 0 < i < |t| + 1 ==> ([c] + t)[i] == t[i - 1];
  }

  /** `clean_text_for_audio`: the three stages, then `strip()`. */
  function CleanTextForAudio(text: string): string {
    Strip(CollapseWhitespace(KeepAllowed(RemoveMarkers(text))))
  }

  /**
   * The sanitiser's output invariants: no marker, only word characters, kept
   * punctuation and plain spaces, never two spaces in a row, none at either end.
   */
  lemma CleanShape(text: string)
    ensures var r := CleanTextForAudio(text);
      && (forall i :: 0 <= i < |r| ==> IsNotMarker(r[i]) && (IsVisible(r[i]) || r[i] == ' '))
      && SingleSpaced(r)
      && (r != [] ==> r[0] != ' ' && r[|r| - 1] != ' ')
  {
    var kept := KeepAllowed(RemoveMarkers(text));
    FilterFilter(text, IsNotMarker, IsAllowed, IsAllowedNonMarker);
    CollapseShape(kept);
    StripSanitised(CollapseWhitespace(kept));
  }

  /** `strip()` keeps a single-spaced text of allowed characters single-spaced. */
  lemma StripSanitised(s: string)
    requires SingleSpaced(s)
    requires forall i :: 0 <= i < |s| ==> IsAllowedNonMarker(s[i])
    ensures forall i :: 0 <= i < |Strip(s)| ==> IsNotMarker(Strip(s)[i]) && (IsVisible(Strip(s)[i]) || Strip(s)[i] == ' ')
    ensures SingleSpaced(Strip(s))
    ensures Strip(s) != [] ==> Strip(s)[0] != ' ' && Strip(s)[|Strip(s)| - 1] != ' '
  {
    var a := StripStart(s);
    StripShape(s);
    SliceSingleSpaced(s, a, a + |Strip(s)|);
    SliceAllowed(s, a, a + |Strip(s)|);
  }

  lemma SliceAllowed(s: string, a: nat, b: nat)
    requires SingleSpaced(s) && a <= b <= |s|
    requires forall i :: 0 <= i < |s| ==> IsAllowedNonMarker(s[i])
    ensures forall i :: 0 <= i < b - a ==> IsNotMarker(s[a..b][i]) && (IsVisible(s[a..b][i]) || s[a..b][i] == ' ')
  {
    var t := s[a..b];
    assert forall i :: 0 <= i < |t| ==> t[i] == s[a + i];
  }

  lemma SliceSingleSpaced(s: string, a: nat, b: nat)
    requires SingleSpaced(s) && a <= b <= |s|
    ensures SingleSpaced(s[a..b])
  {
    var t := s[a..b];
    assert forall i :: 0 <= i < |t| ==> t[i] == s[a + i];
  }

  /** A single-spaced string is left as it is by the collapsing stage. */
  lemma {:induction false} CollapseSingleSpaced(s: string)
    requires SingleSpaced(s)
    ensures CollapseWhitespace(s) == s
    decreases |s|
  {
    if s != [] {
      SpacedTail(s);
      CollapseSingleSpaced(s[1..]);
      assert [s[0]] + s[1..] == s;
    }
  }

  /** The tail of a single-spaced text is single-spaced, and after a space it starts with no whitespace. */
  lemma SpacedTail(s: string)
    requires SingleSpaced(s) && s != []
    ensures SingleSpaced(s[1..])
    ensures IsSpace(s[0]) ==> s[0] == ' ' && TrimLeft(s[1..]) == s[1..]
  {
    SliceSingleSpaced(s, 1, |s|);
    if IsSpace(s[0]) && |s| > 1 {
      assert s[1..][0] == s[1];
    }
  }

  /** A string with no whitespace at either end is left as it is by `strip()`. */
  lemma StripUntrimmed(s: string)
    requires s != [] ==> !IsSpace(s[0]) && !IsSpace(s[|s| - 1])
    ensures Strip(s) == s
  {
  }

  /** Idempotence: sanitising an already sanitised text changes nothing. */
  lemma CleanIdempotent(text: string)
    ensures CleanTextForAudio(CleanTextForAudio(text)) == CleanTextForAudio(text)
  {
    var r := CleanTextForAudio(text);
    CleanShape(text);
    FilterAllKept(r, IsNotMarker);
    FilterAllKept(r, IsAllowed);
    CollapseSingleSpaced(r);
    StripUntrimmed(r);
  }

  lemma TrimLeftKeepsContent(s: string)
    ensures Filter(TrimLeft(s), IsNotSpace) == Filter(s, IsNotSpace)
  {
    TrimLeftShape(s);
    var k := |s| - |TrimLeft(s)|;
    assert s[k..|s|] == TrimLeft(s);
    FilterSlice(s, k, |s|, IsNotSpace);
  }

  lemma StripKeepsContent(s: string)
    ensures Filter(Strip(s), IsNotSpace) == Filter(s, IsNotSpace)
  {
    var a := StripStart(s);
    StripShape(s);
    FilterSlice(s, a, a + |Strip(s)|, IsNotSpace);
  }

  /** The collapsing stage keeps every non-whitespace character, in order. */
  lemma {:induction false} CollapseKeepsContent(s: string)
    ensures Filter(CollapseWhitespace(s), IsNotSpace) == Filter(s, IsNotSpace)
    decreases |s|
  {
    if s != [] {
      assert s == [s[0]] + s[1..];
      FilterCons(s[0], s[1..], IsNotSpace);
      if IsSpace(s[0]) {
        var rest := TrimLeft(s[1..]);
        TrimLeftShape(s[1..]);
        CollapseKeepsContent(rest);
        FilterCons(' ', CollapseWhitespace(rest), IsNotSpace);
        TrimLeftKeepsContent(s[1..]);
      } else {
        CollapseKeepsContent(s[1..]);
        FilterCons(s[0], CollapseWhitespace(s[1..]), IsNotSpace);
      }
    }
  }

  lemma FilterCons(c: char, s: string, keep: char -> bool)
    ensures Filter([c] + s, keep) == (if keep(c) then [c] else []) + Filter(s, keep)
  {
    FilterAppend([c], s, keep);
    assert Filter([c], keep) == Filter([], keep) + (if keep(c) then [c] else []);
  }

  /**
   * What the sanitiser keeps: once whitespace is set aside, the output is
   * exactly the input's word characters and kept punctuation, in order.
   */
  lemma CleanKeepsVisible(text: string)
    ensures Filter(CleanTextForAudio(text), IsNotSpace) == Filter(text, IsVisible)
  {
    var kept := KeepAllowed(RemoveMarkers(text));
    var collapsed := CollapseWhitespace(kept);
    assert CleanTextForAudio(text) == Strip(collapsed);
    StripKeepsContent(collapsed);
    CollapseKeepsContent(kept);
    FilterFilter(text, IsNotMarker, IsAllowed, IsAllowedNonMarker);
    FilterFilter(text, IsAllowedNonMarker, IsNotSpace, IsVisible);
  }

  /** The sanitised text is empty exactly when the input has no word character and no kept punctuation. */
  lemma CleanEmptyIff(text: string)
    ensures CleanTextForAudio(text) == [] <==> forall i :: 0 <= i < |text| ==> !IsVisible(text[i])
  {
    var r := CleanTextForAudio(text);
    CleanKeepsVisible(text);
    CleanShape(text);
    if r != [] {
      FilterKeeps(r, IsNotSpace, 0);
    }
    if forall i :: 0 <= i < |text| ==> !IsVisible(text[i]) {
      FilterNoneKept(text, IsVisible);
    }
    if r == [] {
      forall i | 0 <= i < |text| ensures !IsVisible(text[i]) {
        if IsVisible(text[i]) {
          FilterKeeps(text, IsVisible, i);
        }
      }
    }
  }

  lemma FilterPieces(a: string, b: string, c: string, d: string, e: string, keep: char -> bool)
    ensures Filter(a + b + c + d + e, keep)
         == Filter(a, keep) + Filter(b, keep) + Filter(c, keep) + Filter(d, keep) + Filter(e, keep)
  {
    FilterAppend(a, b, keep);
    FilterAppend(a + b, c, keep);
    FilterAppend(a + b + c, d, keep);
    FilterAppend(a + b + c + d, e, keep);
  }

  /** The worked example: markers, the backtick and the double space disappear. */
  lemma CleanExample()
    ensures CleanTextForAudio("Hello* #world` 123!") == "Hello world 123!"
  {
    ExampleMarkersRemoved();
    ExampleAllowed();
    ExampleSingleSpaced();
    ExampleStripped();
    CleanStages("Hello* #world` 123!", "Hello world 123!");
  }

  /** A text whose markers leave `t`, where `t` passes the other stages unchanged, is sanitised to `t`. */
  lemma CleanStages(text: string, t: string)
    requires RemoveMarkers(text) == t && KeepAllowed(t) == t
    requires CollapseWhitespace(t) == t && Strip(t) == t
    ensures CleanTextForAudio(text) == t
  {
  }

  lemma ExampleStripped()
    ensures Strip("Hello world 123!") == "Hello world 123!"
  {
    StripUntrimmed("Hello world 123!");
  }

  lemma ExampleMarkersRemoved()
    ensures RemoveMarkers("Hello* #world` 123!") == "Hello world 123!"
  {
    ExampleSplit();
    FilterPieces("Hello", "* #", "world", "` ", "123!", IsNotMarker);
    ExampleMarkerPiece();
    ExampleBacktickPiece();
    FilterAllKept("Hello", IsNotMarker);
    FilterAllKept("world", IsNotMarker);
    FilterAllKept("123!", IsNotMarker);
    ExampleJoin();
  }

  lemma ExampleSplit()
    ensures "Hello* #world` 123!" == "Hello" + "* #" + "world" + "` " + "123!"
  {
  }

  lemma ExampleMarkerPiece()
    ensures Filter("* #", IsNotMarker) == " "
  {
  }

  lemma ExampleBacktickPiece()
    ensures Filter("` ", IsNotMarker) == " "
  {
  }

  lemma ExampleJoin()
    ensures "Hello" + " " + "world" + " " + "123!" == "Hello world 123!"
  {
  }

  lemma ExampleAllowed()
    ensures KeepAllowed("Hello world 123!") == "Hello world 123!"
  {
    FilterAllKept("Hello world 123!", IsAllowed);
  }

  lemma ExampleSingleSpaced()
    ensures CollapseWhitespace("Hello world 123!") == "Hello world 123!"
  {
    CollapseSingleSpaced("Hello world 123!");
  }

  type FileId = string

  /**
   * `generate_voice`. `synthesis` is what speech synthesis of the sanitised
   * text followed by the storage upload gives back: the new file's id, or
   * None when either raised.
   */
  function GenerateVoice(text: string, synthesis: Option<FileId>): (audio: Option<FileId>)
    ensures audio.Some? <==> CleanTextForAudio(text) != [] && synthesis.Some?
    ensures audio.Some? ==> audio == synthesis
  {
    var spoken := CleanTextForAudio(text);
    if spoken == [] then None else synthesis
  }

  /** A reply gets an audio file exactly when it has something to say and synthesis and upload succeed. */
  lemma VoiceIffVisible(text: string, synthesis: Option<FileId>)
    ensures GenerateVoice(text, synthesis).Some?
            <==> synthesis.Some? && exists i :: 0 <= i < |text| && IsVisible(text[i])
  {
    CleanEmptyIff(text);
  }
}
