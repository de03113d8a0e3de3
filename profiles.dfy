/**
 * The profiles collection both services share, and the one query both make
 * of it: the first profile with a given `user_id`.
 */
module Profiles {
  import opened Wrappers

  /** A profile document; an `is_pro` field the document lacks reads as false. */
  datatype Profile = Profile(userId: string, isPro: bool, username: string)

  /**
   * `Query.equal('user_id', …)` followed by `documents[0]`: the position of
   * the user's first profile in the order the store lists them, if any.
   */
  function FirstMatch(profiles: seq<Profile>, userId: string): (r: Option<nat>)
    ensures r.Some? ==> r.value < |profiles| && profiles[r.value].userId == userId
    ensures r.Some? ==> forall j :: 0 <= j < r.value ==> profiles[j].userId != userId
    ensures r.None? <==> forall j :: 0 <= j < |profiles| ==> profiles[j].userId != userId
  {
    if profiles == [] then None
    else if profiles[0].userId == userId then Some(0)
    else match FirstMatch(profiles[1..], userId)
      case None => None
      case Some(i) => Some(i + 1)
  }

  /** A profile at `i` with no earlier profile of the same user is the first match. */
  lemma FirstMatchAt(profiles: seq<Profile>, userId: string, i: nat)
    requires i < |profiles| && profiles[i].userId == userId
    requires forall j :: 0 <= j < i ==> profiles[j].userId != userId
    ensures FirstMatch(profiles, userId) == Some(i)
  {
  }

  /** Two profile lists that agree on every user id have the same first matches. */
  lemma FirstMatchSameIds(a: seq<Profile>, b: seq<Profile>, userId: string)
    requires |a| == |b| && forall j :: 0 <= j < |a| ==> a[j].userId == b[j].userId
    ensures FirstMatch(a, userId) == FirstMatch(b, userId)
  {
    var r := FirstMatch(a, userId);
    if r.Some? {
      FirstMatchAt(b, userId, r.value);
    }
  }
}
