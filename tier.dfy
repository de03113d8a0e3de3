/** `get_user_status`: whether the owner of a chat has a pro subscription. */
module Tier {
  import opened Wrappers
  import opened Profiles

  /** A chat document; `userId` is None when the document lacks the field. */
  datatype Chat = Chat(userId: Option<string>)

  /** What the store holds for the two lookups: the chats by id and the profiles in listing order. */
  datatype StoreView = StoreView(chats: map<string, Chat>, profiles: seq<Profile>)

  /** The user a chat belongs to, when the chat exists and names one. */
  function Owner(store: StoreView, chatId: string): Option<string> {
    if chatId in store.chats then store.chats[chatId].userId else None
  }

  /**
   * `get_user_status`. `store` is None when a lookup raised. Any failure,
   * a missing chat, a chat without `user_id` or a user without a profile
   * counts as the lite tier.
   */
  function GetUserStatus(store: Option<StoreView>, chatId: string): bool {
    if store.None? then false
    else match Owner(store.value, chatId)
      case None => false
      case Some(userId) =>
        match FirstMatch(store.value.profiles, userId)
          case None => false
          case Some(i) => store.value.profiles[i].isPro
  }

  /**
   * The status fails closed: pro exactly when the store answered, the chat
   * names its owner and the owner's first profile is pro.
   */
  lemma GetUserStatusIff(store: Option<StoreView>, chatId: string)
    ensures GetUserStatus(store, chatId) <==>
      && store.Some?
      && Owner(store.value, chatId).Some?
      && exists i :: 0 <= i < |store.value.profiles|
           && store.value.profiles[i].userId == Owner(store.value, chatId).value
           && store.value.profiles[i].isPro
           && forall j :: 0 <= j < i ==> store.value.profiles[j].userId != Owner(store.value, chatId).value
  {
    if store.Some? && Owner(store.value, chatId).Some? {
      var ps := store.value.profiles;
      var u := Owner(store.value, chatId).value;
      var r := FirstMatch(ps, u);
      if r.Some? && ps[r.value].isPro {
        assert ps[r.value].userId == u;
      }
      forall i | 0 <= i < |ps| && ps[i].userId == u && ps[i].isPro
                 && (forall j :: 0 <= j < i ==> ps[j].userId != u)
        ensures GetUserStatus(store, chatId)
      {
        FirstMatchAt(ps, u, i);
      }
    }
  }
}
