/**
 * `update_prompts_cache`: the two tier prompts and the time of their last
 * refresh, re-read from the settings collection at most once a minute.
 */
module PromptCache {
  import opened Wrappers

  /** One document of the settings collection. */
  datatype Setting = Setting(key: string, value: string)

  const LiteKey := "prompt_lite"
  const ProKey := "prompt_pro"
  const DefaultLite := "Ты веселый друг. Шути"
  const DefaultPro := "Ты профессионал. Отвечай кратко"

  /** Seconds a refresh stays fresh. */
  const Interval: real := 60.0

  /** The three globals `PROMPT_LITE`, `PROMPT_PRO` and `LAST_PROMPT_UPDATE`. */
  datatype Prompts = Prompts(lite: string, pro: string, lastUpdate: real)

  /** The value a prompt holds after the documents are read in order: the last one with its key wins. */
  function Latest(docs: seq<Setting>, key: string, current: string): string {
    if docs == [] then current
    else if docs[|docs| - 1].key == key then docs[|docs| - 1].value
    else Latest(docs[..|docs| - 1], key, current)
  }

  /** Document `i` is the last one with the key. */
  predicate LastMatchAt(docs: seq<Setting>, key: string, i: nat) {
    i < |docs| && docs[i].key == key && forall j :: i < j < |docs| ==> docs[j].key != key
  }

  predicate NoMatch(docs: seq<Setting>, key: string) {
    forall j :: 0 <= j < |docs| ==> docs[j].key != key
  }

  /** The last document with the key decides, whatever came before it. */
  lemma {:induction false} LatestIsLastMatch(docs: seq<Setting>, key: string, current: string, i: nat)
    requires LastMatchAt(docs, key, i)
    ensures Latest(docs, key, current) == docs[i].value
  {
    if i < |docs| - 1 {
      LatestIsLastMatch(docs[..|docs| - 1], key, current, i);
    }
  }

  /** Documents with other keys leave the prompt as it was. */
  lemma {:induction false} LatestNoMatch(docs: seq<Setting>, key: string, current: string)
    requires NoMatch(docs, key)
    ensures Latest(docs, key, current) == current
  {
    if docs != [] {
      LatestNoMatch(docs[..|docs| - 1], key, current);
    }
  }

  /**
   * The globals after one call at clock reading `now`: untouched within a
   * minute of the last refresh or when listing the settings raised
   * (`settings` is None); otherwise both prompts re-read and the refresh
   * time set to `finished`, the clock reading after the listing.
   */
  function Refreshed(p: Prompts, now: real, settings: Option<seq<Setting>>, finished: real): Prompts {
    if now - p.lastUpdate < Interval || settings.None? then p
    else Prompts(Latest(settings.value, LiteKey, p.lite), Latest(settings.value, ProKey, p.pro), finished)
  }

  /** Within a minute of the last refresh nothing is read and nothing changes. */
  lemma RefreshedWithinInterval(p: Prompts, now: real, settings: Option<seq<Setting>>, finished: real)
    requires now - p.lastUpdate < Interval
    ensures Refreshed(p, now, settings, finished) == p
  {
  }

  /** A failed listing changes neither prompt nor the refresh time, so the next call tries again. */
  lemma RefreshedOnFailure(p: Prompts, now: real, finished: real)
    ensures Refreshed(p, now, None, finished) == p
  {
  }

  /**
   * A successful refresh records `finished`, and sets each prompt to the last
   * document with its key, leaving it as it was when there is none.
   */
  lemma RefreshedOnSuccess(p: Prompts, now: real, docs: seq<Setting>, finished: real)
    requires now - p.lastUpdate >= Interval
    ensures var q := Refreshed(p, now, Some(docs), finished);
      && q.lastUpdate == finished
      && (forall i: nat :: LastMatchAt(docs, LiteKey, i) ==> q.lite == docs[i].value)
      && (NoMatch(docs, LiteKey) ==> q.lite == p.lite)
      && (forall i: nat :: LastMatchAt(docs, ProKey, i) ==> q.pro == docs[i].value)
      && (NoMatch(docs, ProKey) ==> q.pro == p.pro)
  {
    forall i: nat | LastMatchAt(docs, LiteKey, i)
      ensures Latest(docs, LiteKey, p.lite) == docs[i].value
    {
      LatestIsLastMatch(docs, LiteKey, p.lite, i);
    }
    forall i: nat | LastMatchAt(docs, ProKey, i)
      ensures Latest(docs, ProKey, p.pro) == docs[i].value
    {
      LatestIsLastMatch(docs, ProKey, p.pro, i);
    }
    if NoMatch(docs, LiteKey) {
      LatestNoMatch(docs, LiteKey, p.lite);
    }
    if NoMatch(docs, ProKey) {
      LatestNoMatch(docs, ProKey, p.pro);
    }
  }

  /** Right after a successful refresh, a call within the next minute is a no-op. */
  lemma RefreshedSettles(p: Prompts, now: real, docs: seq<Setting>, finished: real,
                         later: real, again: Option<seq<Setting>>, laterFinished: real)
    requires now - p.lastUpdate >= Interval && later - finished < Interval
    ensures var q := Refreshed(p, now, Some(docs), finished);
      Refreshed(q, later, again, laterFinished) == q
  {
  }

  /** The cache as the worker process holds it, in three module-level variables. */
  class Cache {
    var lite: string
    var pro: string
    var lastUpdate: real

    function State(): Prompts
      reads this
    {
      Prompts(lite, pro, lastUpdate)
    }

    /** The values the module starts with: the built-in prompts, never refreshed. */
    constructor()
      ensures State() == Prompts(DefaultLite, DefaultPro, 0.0)
    {
      lite := DefaultLite;
      pro := DefaultPro;
      lastUpdate := 0.0;
    }

    /**
     * `update_prompts_cache`. `fetched` says whether the settings collection
     * is read at all; `settings` is what that read returns.
     */
    method Refresh(now: real, settings: Option<seq<Setting>>, finished: real) returns (fetched: bool)
      modifies this
      ensures fetched <==> now - old(lastUpdate) >= Interval
      ensures State() == Refreshed(old(State()), now, settings, finished)
    {
      if now - lastUpdate < Interval {
        return false;
      }
      fetched := true;
      if settings.None? {
        return;
      }
      var docs := settings.value;
      ghost var lite0, pro0 := lite, pro;
      var i := 0;
      while i < |docs|
        invariant 0 <= i <= |docs|
        invariant lite == Latest(docs[..i], LiteKey, lite0)
        invariant pro == Latest(docs[..i], ProKey, pro0)
      {
        assert docs[..i + 1][..i] == docs[..i];
        if docs[i].key == LiteKey {
          lite := docs[i].value;
        } else if docs[i].key == ProKey {
          pro := docs[i].value;
        }
        i := i + 1;
      }
      assert docs[..i] == docs;
      lastUpdate := finished;
    }
  }
}
