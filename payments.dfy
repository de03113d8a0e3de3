/**
 * The decision logic of the payment service: the order id handed to the
 * payment provider, and the webhook that reads it back and upgrades the
 * paying user's profile to pro.
 */
module Payments {
  import opened Wrappers
  import opened Text
  import opened Profiles
  import opened Tier

  /** A scalar field of the webhook payload; a missing field is `JNull`, since `dict.get` gives None. */
  datatype Json = JNull | JBool(b: bool) | JInt(i: int) | JStr(s: string)

  /** Python's `str()` of the value. */
  function StrOf(v: Json): string {
    match v
    case JNull => "None"
    case JBool(b) => if b then "True" else "False"
    case JInt(i) => IntToString(i)
    case JStr(s) => s
  }

  /** Python's truth value of the value. */
  predicate Truthy(v: Json) {
    match v
    case JNull => false
    case JBool(b) => b
    case JInt(i) => i != 0
    case JStr(s) => s != ""
  }

  /** The status test of `vepay_webhook`: `str(status)` is one of the three success words. */
  predicate StatusAccepted(status: Json) {
    StrOf(status) in {"1", "success", "paid"}
  }

  /**
   * Exactly three strings and the integer 1 are accepted; `true`, `null`
   * and every other number are not.
   */
  lemma StatusAcceptedIff(status: Json)
    ensures StatusAccepted(status) <==>
      status == JInt(1) || status == JStr("1") || status == JStr("success") || status == JStr("paid")
  {
    if status.JInt? {
      var r := IntToString(status.i);
      assert r != [] ==> IsDigit(r[0]) || r[0] == '-';
    }
  }

  const OrderPrefix := "SUB-"

  /** `create_payment_link`'s `extid` for user `userId` at clock reading `ts` (whole seconds). */
  function ExtId(userId: string, ts: nat): string {
    OrderPrefix + userId + "-" + NatToString(ts)
  }

  /** `data.get('extid') or data.get('order_id')`. */
  function SelectOrderId(extid: Json, orderId: Json): (order: Json)
    ensures Truthy(extid) ==> order == extid
    ensures !Truthy(extid) ==> order == orderId
    ensures Truthy(order) <==> Truthy(extid) || Truthy(orderId)
  {
    if Truthy(extid) then extid else orderId
  }

  /** What the webhook makes of the order id: no user, a user id, or an exception. */
  datatype Parsed = NoUser | UserId(id: string) | Raises

  /**
   * The order-id parsing of `vepay_webhook`: a truthy string starting with
   * `SUB-` yields its second `-`-separated field unless that is empty. A
   * truthy value that is not a string has no `startswith` and raises.
   */
  function ParseOrderId(order: Json): Parsed {
    if !Truthy(order) then NoUser
    else if !order.JStr? then Raises
    else if !StartsWith(order.s, OrderPrefix) then NoUser
    else
      var parts := Split(order.s, '-');
      if |parts| >= 2 && parts[1] != "" then UserId(parts[1]) else NoUser
  }

  lemma PrefixShape(s: string)
    requires StartsWith(s, OrderPrefix)
    ensures s == "SUB" + ['-'] + s[4..]
  {
    assert s[..4] == OrderPrefix;
  }

  /** The length test is always passed: a string starting with `SUB-` splits into at least two fields. */
  lemma PrefixedHasSecondField(s: string)
    requires StartsWith(s, OrderPrefix)
    ensures |Split(s, '-')| >= 2 && Split(s, '-')[0] == "SUB"
  {
    PrefixShape(s);
    SplitFirstField("SUB", '-', s[4..]);
  }

  /** A parsed user id is never empty and never holds a `-`. */
  lemma ParsedUserIdShape(order: Json)
    requires ParseOrderId(order).UserId?
    ensures ParseOrderId(order).id != "" && '-' !in ParseOrderId(order).id
  {
  }

  /** An id `SUB-<user>-<more>` whose user field has no `-` parses to that user. */
  lemma ParseFields(user: string, more: string)
    requires user != "" && '-' !in user
    ensures ParseOrderId(JStr(OrderPrefix + user + "-" + more)) == UserId(user)
  {
    var s := OrderPrefix + user + "-" + more;
    assert s == "SUB" + ['-'] + (user + ['-'] + more);
    assert s[..4] == OrderPrefix;
    SplitFirstField("SUB", '-', user + ['-'] + more);
    SplitFirstField(user, '-', more);
  }

  /** The round trip: the webhook reads back the user id the payment link was made for. */
  lemma ParseRoundTrip(userId: string, ts: nat)
    requires userId != "" && '-' !in userId
    ensures ParseOrderId(JStr(ExtId(userId, ts))) == UserId(userId)
  {
    ParseFields(userId, NatToString(ts));
  }

  /** A user id holding a `-` is cut at its first `-`: the webhook reads back only the part before it. */
  lemma ParseTruncatesHyphenated(head: string, rest: string, ts: nat)
    requires head != "" && '-' !in head
    ensures ParseOrderId(JStr(ExtId(head + "-" + rest, ts))) == UserId(head)
  {
    var more := rest + "-" + NatToString(ts);
    assert ExtId(head + "-" + rest, ts) == OrderPrefix + head + "-" + more;
    ParseFields(head, more);
  }

  /** No user id from a missing or falsy id, an id without the prefix, or an empty user field. */
  lemma ParseRejects(s: string, t: string)
    ensures ParseOrderId(JNull) == NoUser && ParseOrderId(JStr("")) == NoUser
    ensures !StartsWith(s, OrderPrefix) ==> ParseOrderId(JStr(s)) == NoUser
    ensures ParseOrderId(JStr("SUB--" + t)) == NoUser
  {
    var u := "SUB--" + t;
    assert u == "SUB" + ['-'] + ([] + ['-'] + t);
    assert u[..4] == OrderPrefix;
    SplitFirstField("SUB", '-', [] + ['-'] + t);
    SplitFirstField([], '-', t);
  }

  const UnknownName := "Неизвестный"

  /**
   * The upgrade-or-create step: set `is_pro` on the user's first profile
   * unless it already is; add a pro profile when the user has none.
   */
  function Upgrade(profiles: seq<Profile>, userId: string): seq<Profile> {
    match FirstMatch(profiles, userId)
    case None => profiles + [Profile(userId, true, UnknownName)]
    case Some(i) => if profiles[i].isPro then profiles else profiles[i := profiles[i].(isPro := true)]
  }

  /**
   * The three outcomes: an existing first profile that is not pro gets
   * `is_pro` and nothing else changes; one that is pro is left alone; a user
   * without a profile gets exactly one new pro profile at the end.
   */
  lemma UpgradeTransition(profiles: seq<Profile>, userId: string)
    ensures var r := Upgrade(profiles, userId);
      match FirstMatch(profiles, userId)
      case None =>
        && |r| == |profiles| + 1 && r[..|profiles|] == profiles
        && r[|profiles|] == Profile(userId, true, UnknownName)
      case Some(i) =>
        && |r| == |profiles|
        && (forall j :: 0 <= j < |r| && j != i ==> r[j] == profiles[j])
        && r[i].isPro && r[i].userId == profiles[i].userId && r[i].username == profiles[i].username
  {
  }

  /** Afterwards the user's first profile is pro. */
  lemma UpgradeGrantsPro(profiles: seq<Profile>, userId: string)
    ensures var r := Upgrade(profiles, userId);
      FirstMatch(r, userId).Some? && r[FirstMatch(r, userId).value].isPro
  {
    var r := Upgrade(profiles, userId);
    match FirstMatch(profiles, userId)
    case None =>
      FirstMatchAt(r, userId, |profiles|);
    case Some(i) =>
      FirstMatchSameIds(profiles, r, userId);
  }

  /** No profile of another user changes, and neither does where any other user's first profile is. */
  lemma UpgradeLeavesOthers(profiles: seq<Profile>, userId: string, other: string)
    requires other != userId
    ensures var r := Upgrade(profiles, userId);
      && (forall j :: 0 <= j < |profiles| && profiles[j].userId != userId ==> r[j] == profiles[j])
      && FirstMatch(r, other) == FirstMatch(profiles, other)
      && (FirstMatch(r, other).Some? ==> r[FirstMatch(r, other).value] == profiles[FirstMatch(r, other).value])
  {
    var r := Upgrade(profiles, userId);
    match FirstMatch(profiles, userId)
    case None =>
      var m := FirstMatch(profiles, other);
      if m.Some? {
        FirstMatchAt(r, other, m.value);
      }
    case Some(i) =>
      FirstMatchSameIds(profiles, r, other);
  }

  /** Upgrading twice is upgrading once. */
  lemma UpgradeIdempotent(profiles: seq<Profile>, userId: string)
    ensures Upgrade(Upgrade(profiles, userId), userId) == Upgrade(profiles, userId)
  {
    UpgradeGrantsPro(profiles, userId);
  }

  /** The webhook payload: the three fields it reads. */
  datatype Payload = Payload(extid: Json, orderId: Json, status: Json)

  /** What the webhook does after its status test. */
  function Target(data: Payload): Parsed {
    if StatusAccepted(data.status) then ParseOrderId(SelectOrderId(data.extid, data.orderId)) else NoUser
  }

  /** The webhook's answer: "OK", the database error, or the error an uncaught exception produces. */
  datatype Response = Ok | DatabaseError | InternalError

  /** `dbUp` says whether the profile lookup and the write succeed. */
  function WebhookResponse(data: Payload, dbUp: bool): Response {
    match Target(data)
    case NoUser => Ok
    case Raises => InternalError
    case UserId(_) => if dbUp then Ok else DatabaseError
  }

  function WebhookEffect(profiles: seq<Profile>, data: Payload, dbUp: bool): seq<Profile> {
    if Target(data).UserId? && dbUp then Upgrade(profiles, Target(data).id) else profiles
  }

  /** An unaccepted status is answered "OK" and changes nothing, whatever the order id. */
  lemma RejectedStatus(profiles: seq<Profile>, data: Payload, dbUp: bool)
    requires !StatusAccepted(data.status)
    ensures WebhookResponse(data, dbUp) == Ok && WebhookEffect(profiles, data, dbUp) == profiles
  {
  }

  /** A paid link's webhook upgrades the user the link was made for. */
  lemma PaidLinkUpgrades(profiles: seq<Profile>, userId: string, ts: nat, orderId: Json, status: Json)
    requires userId != "" && '-' !in userId && StatusAccepted(status)
    ensures WebhookResponse(Payload(JStr(ExtId(userId, ts)), orderId, status), true) == Ok
    ensures WebhookEffect(profiles, Payload(JStr(ExtId(userId, ts)), orderId, status), true)
            == Upgrade(profiles, userId)
  {
    ParseRoundTrip(userId, ts);
  }

  /** Delivering the same webhook again changes nothing more, whether or not the store is up then. */
  lemma WebhookIdempotent(profiles: seq<Profile>, data: Payload, dbUp: bool)
    ensures WebhookEffect(WebhookEffect(profiles, data, true), data, dbUp) == WebhookEffect(profiles, data, true)
  {
    if Target(data).UserId? {
      UpgradeIdempotent(profiles, Target(data).id);
    }
  }

  /** Once the webhook went through, every chat of the paying user is served at the pro tier. */
  lemma UpgradedChatsArePro(profiles: seq<Profile>, userId: string, chats: map<string, Chat>, chatId: string)
    requires chatId in chats && chats[chatId].userId == Some(userId)
    ensures GetUserStatus(Some(StoreView(chats, Upgrade(profiles, userId))), chatId)
  {
    UpgradeGrantsPro(profiles, userId);
  }

  /** The profiles collection as the webhook sees it. */
  class ProfileStore {
    var profiles: seq<Profile>

    constructor(initial: seq<Profile>)
      ensures profiles == initial
    {
      profiles := initial;
    }

    /** `vepay_webhook`, from the decoded payload on. */
    method Webhook(data: Payload, dbUp: bool) returns (response: Response)
      modifies this
      ensures response == WebhookResponse(data, dbUp)
      ensures profiles == WebhookEffect(old(profiles), data, dbUp)
    {
      var order := SelectOrderId(data.extid, data.orderId);
      if !StatusAccepted(data.status) {
        return Ok;
      }
      var parsed := ParseOrderId(order);
      if parsed.Raises? {
        return InternalError;
      }
      if parsed.NoUser? {
        return Ok;
      }
      if !dbUp {
        return DatabaseError;
      }
      var userId := parsed.id;
      var first := FirstMatch(profiles, userId);
      if first.Some? {
        if !profiles[first.value].isPro {
          profiles := profiles[first.value := profiles[first.value].(isPro := true)];
        }
      } else {
        profiles := profiles + [Profile(userId, true, UnknownName)];
      }
      return Ok;
    }
  }
}
