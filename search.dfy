/**
 * The search side of `ask_ollama`: the classifier's token test
 * (`ai_decide_search`), the formatting of search hits (`search_web`) and the
 * tier-gated context block that is put in front of the user's message.
 */
module Search {
  import opened Wrappers
  import opened Text

  const SearchToken := "SEARCH"

  /**
   * `ai_decide_search`. `response` is the `response` field of the
   * classifier's reply, or None when the request, the JSON decoding or the
   * field lookup raised.
   */
  function DecideSearch(response: Option<string>): bool {
    response.Some? && Contains(Upper(Strip(response.value)), SearchToken)
  }

  /** Whitespace is its own upper case. */
  lemma UpperSpace(c: char)
    requires IsSpace(c)
    ensures UpperChar(c) == c
  {
  }

  lemma UpperSlice(s: string, a: nat, b: nat)
    requires a <= b <= |s|
    ensures Upper(s[a..b]) == Upper(s)[a..b]
  {
  }

  /** An occurrence inside a slice is an occurrence in the whole. */
  lemma ContainsInSlice(s: string, a: nat, b: nat, t: string)
    requires a <= b <= |s| && Contains(s[a..b], t)
    ensures Contains(s, t)
  {
    var k: nat :| k <= b - a && OccursAt(s[a..b], t, k);
    forall i | a + k <= i < a + k + |t|
      ensures s[i] == t[i - a - k]
    {
      assert s[a..b][k..k + |t|][i - a - k] == t[i - a - k];
    }
    assert s[a + k..a + k + |t|] == t;
    assert OccursAt(s, t, a + k);
  }

  /**
   * A token without whitespace that occurs in `u` lies inside any slice of
   * `u` outside of which there is only whitespace.
   */
  lemma OccurrenceInSlice(u: string, a: nat, b: nat, t: string, k: nat)
    requires a <= b <= |u| && OccursAt(u, t, k)
    requires t != [] && forall j :: 0 <= j < |t| ==> !IsSpace(t[j])
    requires forall i :: 0 <= i < a ==> IsSpace(u[i])
    requires forall i :: b <= i < |u| ==> IsSpace(u[i])
    ensures a <= k && OccursAt(u[a..b], t, k - a)
  {
    assert u[k] == t[0];
    assert u[k + |t| - 1] == t[|t| - 1];
    forall j | 0 <= j < |t|
      ensures u[a..b][k - a..k - a + |t|][j] == t[j]
    {
      assert u[k..k + |t|][j] == t[j];
    }
    assert u[a..b][k - a..k - a + |t|] == t;
  }

  /** Surrounding whitespace does not change whether a token without whitespace occurs. */
  lemma ContainsTokenSlice(u: string, a: nat, b: nat, t: string)
    requires a <= b <= |u|
    requires t != [] && forall j :: 0 <= j < |t| ==> !IsSpace(t[j])
    requires forall i :: 0 <= i < a ==> IsSpace(u[i])
    requires forall i :: b <= i < |u| ==> IsSpace(u[i])
    ensures Contains(u[a..b], t) <==> Contains(u, t)
  {
    if Contains(u[a..b], t) {
      ContainsInSlice(u, a, b, t);
    }
    if Contains(u, t) {
      var k: nat :| k <= |u| && OccursAt(u, t, k);
      OccurrenceInSlice(u, a, b, t, k);
    }
  }

  /** Upper-casing commutes with `strip()`, and leaves only whitespace on either side. */
  lemma UpperStrip(s: string)
    ensures var a := StripStart(s); var u := Upper(s);
      && a + |Strip(s)| <= |u|
      && Upper(Strip(s)) == u[a..a + |Strip(s)|]
      && (forall i :: 0 <= i < a ==> IsSpace(u[i]))
      && (forall i :: a + |Strip(s)| <= i < |u| ==> IsSpace(u[i]))
  {
    var a := StripStart(s);
    var r := Strip(s);
    StripShape(s);
    UpperSlice(s, a, a + |r|);
    forall i | 0 <= i < |s| && IsSpace(s[i]) ensures IsSpace(Upper(s)[i]) {
      UpperSpace(s[i]);
    }
  }

  /** `strip()` does not change the outcome of the token test. */
  lemma StripIrrelevant(s: string)
    ensures Contains(Upper(Strip(s)), SearchToken) <==> Contains(Upper(s), SearchToken)
  {
    UpperStrip(s);
    TokenHasNoSpace();
    ContainsTokenSlice(Upper(s), StripStart(s), StripStart(s) + |Strip(s)|, SearchToken);
  }

  lemma TokenHasNoSpace()
    ensures SearchToken != [] && forall j :: 0 <= j < |SearchToken| ==> !IsSpace(SearchToken[j])
  {
  }

  /**
   * The classifier asks for a search exactly when its reply, upper-cased,
   * contains SEARCH anywhere; a failed request counts as no.
   */
  lemma DecideSearchIff(response: Option<string>)
    ensures DecideSearch(response) <==> response.Some? && Contains(Upper(response.value), SearchToken)
  {
    if response.Some? {
      StripIrrelevant(response.value);
    }
  }

  /** A reply with no S in it never asks for a search. */
  lemma NoLetterNoSearch(response: string)
    requires forall i :: 0 <= i < |response| ==> UpperChar(response[i]) != 'S'
    ensures !DecideSearch(Some(response))
  {
    DecideSearchIff(Some(response));
    forall k: nat | k <= |Upper(response)|
      ensures !OccursAt(Upper(response), SearchToken, k)
    {
      if k < |response| {
        assert Upper(response)[k] != SearchToken[0];
      }
    }
  }

  /** Upper-casing `s` puts `t` at offset `k` when its characters there upper-case to `t`. */
  lemma UpperOccurs(s: string, t: string, k: nat)
    requires k + |t| <= |s| && forall j :: 0 <= j < |t| ==> UpperChar(s[k + j]) == t[j]
    ensures Contains(Upper(s), t)
  {
    assert Upper(s)[k..k + |t|] == t;
    assert OccursAt(Upper(s), t, k);
  }

  /** The test is a substring test, so a lower-case reply that merely contains the word counts. */
  lemma ResearchCounts()
    ensures DecideSearch(Some("research"))
  {
    DecideSearchIff(Some("research"));
    UpperOccurs("research", SearchToken, 2);
  }

  lemma TalkDoesNotCount()
    ensures !DecideSearch(Some("TALK"))
  {
    NoLetterNoSearch("TALK");
  }

  /** One hit of `search_web`: `- {body}` and a line break. */
  function Bullet(body: string): string {
    "- " + body + "\n"
  }

  /** The text `search_web` accumulates for the given hit bodies. */
  function FormatResults(bodies: seq<string>): (text: string)
    ensures |text| >= 3 * |bodies|
  {
    if bodies == [] then ""
    else FormatResults(bodies[..|bodies| - 1]) + Bullet(bodies[|bodies| - 1])
  }

  /** Every hit's bullet is in the text, at the place given by the hits before it. */
  lemma {:induction false} FormatResultsHolds(bodies: seq<string>, i: nat)
    requires i < |bodies|
    ensures Contains(FormatResults(bodies), Bullet(bodies[i]))
  {
    var init := bodies[..|bodies| - 1];
    var text := FormatResults(bodies);
    if i == |bodies| - 1 {
      var k := |FormatResults(init)|;
      assert text[k..k + |Bullet(bodies[i])|] == Bullet(bodies[i]);
      assert OccursAt(text, Bullet(bodies[i]), k);
    } else {
      assert bodies[i] == init[i];
      FormatResultsHolds(init, i);
      ContainsInSlice(text, 0, |FormatResults(init)|, Bullet(bodies[i]));
    }
  }

  /** The text for a list of hits is their bullets, one after another. */
  lemma {:induction false} FormatResultsAppend(bodies: seq<string>, more: seq<string>)
    ensures FormatResults(bodies + more) == FormatResults(bodies) + FormatResults(more)
  {
    if more == [] {
      assert bodies + more == bodies;
    } else {
      var init, last := more[..|more| - 1], more[|more| - 1];
      assert more == init + [last];
      assert bodies + more == (bodies + init) + [last];
      FormatResultsAppend(bodies, init);
      FormatResultsSnoc(bodies + init, last);
      FormatResultsSnoc(init, last);
    }
  }

  /**
   * One search hit. `body` is None when the hit has no `body` key, which
   * raises inside `search_web` and so fails the whole search.
   */
  datatype Hit = Hit(body: Option<string>)

  predicate AllHaveBodies(hits: seq<Hit>) {
    forall i :: 0 <= i < |hits| ==> hits[i].body.Some?
  }

  function Bodies(hits: seq<Hit>): (bodies: seq<string>)
    requires AllHaveBodies(hits)
    ensures |bodies| == |hits| && forall i :: 0 <= i < |hits| ==> bodies[i] == hits[i].body.value
  {
    seq(|hits|, i requires 0 <= i < |hits| => hits[i].body.value)
  }

  /**
   * What `search_web` returns: None when the engine raised (`results` is
   * None), found nothing, or a hit lacked its body; otherwise the bullets.
   */
  function SearchOutcome(results: Option<seq<Hit>>): Option<string> {
    if results.None? || results.value == [] || !AllHaveBodies(results.value) then None
    else Some(FormatResults(Bodies(results.value)))
  }

  /** A search that yields something yields non-empty text, holding every hit. */
  lemma SearchOutcomeFound(results: Option<seq<Hit>>)
    requires SearchOutcome(results).Some?
    ensures SearchOutcome(results).value != ""
    ensures forall i :: 0 <= i < |results.value| ==>
              Contains(SearchOutcome(results).value, Bullet(results.value[i].body.value))
  {
    forall i | 0 <= i < |results.value|
      ensures Contains(SearchOutcome(results).value, Bullet(results.value[i].body.value))
    {
      FormatResultsHolds(Bodies(results.value), i);
    }
  }

  lemma BodiesSnoc(hits: seq<Hit>, i: nat)
    requires i < |hits| && AllHaveBodies(hits[..i]) && hits[i].body.Some?
    ensures AllHaveBodies(hits[..i + 1])
    ensures Bodies(hits[..i + 1]) == Bodies(hits[..i]) + [hits[i].body.value]
  {
    assert forall j :: 0 <= j < i ==> hits[..i + 1][j] == hits[..i][j];
  }

  lemma FormatResultsSnoc(bodies: seq<string>, body: string)
    ensures FormatResults(bodies + [body]) == FormatResults(bodies) + Bullet(body)
  {
    assert (bodies + [body])[..|bodies|] == bodies;
  }

  /** `search_web`, accumulating the bullets hit by hit. */
  method SearchWeb(results: Option<seq<Hit>>) returns (text: Option<string>)
    ensures text == SearchOutcome(results)
  {
    if results.None? || results.value == [] {
      return None;
    }
    var hits := results.value;
    var acc := "";
    var i := 0;
    while i < |hits|
      invariant 0 <= i <= |hits|
      invariant AllHaveBodies(hits[..i])
      invariant acc == FormatResults(Bodies(hits[..i]))
    {
      if hits[i].body.None? {
        return None;
      }
      BodiesSnoc(hits, i);
      FormatResultsSnoc(Bodies(hits[..i]), hits[i].body.value);
      acc := acc + Bullet(hits[i].body.value);
      i := i + 1;
    }
    assert hits[..i] == hits;
    return Some(acc);
  }

  const SearchHeader := "ДАННЫЕ ИЗ ПОИСКА:\n"
  const Refusal := "(Пользователь запросил поиск, но подписка отсутствует. Вежливо откажи в поиске актуальных данных.)"

  /**
   * `context_data` of `ask_ollama`: for a pro user who wants a search, the
   * results under a header when the search found something; for any other
   * user who wants a search, the refusal; otherwise nothing. `found` is the
   * search outcome, consulted only in the first case.
   */
  function ContextData(isPro: bool, wantsSearch: bool, found: Option<string>): string {
    if isPro then
      if wantsSearch && found.Some? && found.value != "" then SearchHeader + found.value + "\n" else ""
    else if wantsSearch then Refusal
    else ""
  }

  /** A lite user's context never depends on any search, and is the refusal exactly when a search was wanted. */
  lemma LiteContext(wantsSearch: bool, found: Option<string>, other: Option<string>)
    ensures ContextData(false, wantsSearch, found) == ContextData(false, wantsSearch, other)
    ensures ContextData(false, wantsSearch, found) == Refusal <==> wantsSearch
    ensures ContextData(false, wantsSearch, found) == [] <==> !wantsSearch
  {
  }

  /** A pro user's context carries the search text under the header, or is empty when nothing was found. */
  lemma ProContext(wantsSearch: bool, found: Option<string>)
    ensures ContextData(true, wantsSearch, found) == []
            <==> !wantsSearch || found.None? || found.value == []
    ensures ContextData(true, wantsSearch, found) != [] ==>
              StartsWith(ContextData(true, wantsSearch, found), SearchHeader)
              && Contains(ContextData(true, wantsSearch, found), found.value)
  {
    var ctx := ContextData(true, wantsSearch, found);
    if ctx != [] {
      assert ctx[|SearchHeader|..|SearchHeader| + |found.value|] == found.value;
      assert OccursAt(ctx, found.value, |SearchHeader|);
    }
  }
}
