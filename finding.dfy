/**
 * The settings write of livechat:mergeRooms as written: an update filtered
 * on the room id alone, without the multi-document option, changes only the
 * first matching subscription the store yields. RoomMerge.SetSettingsByRoom
 * is the intended, all-subscriptions version the rest of the model uses.
 */
module SettingsFinding {
  import opened LivechatTypes
  import opened RoomMerge

  /**
   * `Subscriptions.update({rid: rid}, {$set: settings})` with single-document
   * semantics. `first` is the user of the subscription the store happens to
   * match first; only that subscription is written. When the room has any
   * subscription, the one matched first is one of them.
   */
  function SetSettingsOnFirstMatch(
    subs: map<SubKey, Subscription>,
    rid: RoomId,
    st: Settings,
    first: UserId
  ): (r: map<SubKey, Subscription>)
    requires (exists k :: k in subs && k.rid == rid) ==> SubKey(rid, first) in subs
    ensures r.Keys == subs.Keys
    ensures forall k :: k in subs && k != SubKey(rid, first) ==> r[k] == subs[k]
    ensures SubKey(rid, first) in subs ==> r[SubKey(rid, first)].answered == st.answered
  {
    var k := SubKey(rid, first);
    if k in subs then subs[k := ApplySettings(subs[k], st)] else subs
  }

  /** A target room "B" served by two agents, both of whom had answered. */
  function TwoAgentSubscriptions(): map<SubKey, Subscription>
  {
    var sub := Subscription(true, None, None, None, true);
    map[SubKey("B", "agent1") := sub, SubKey("B", "agent2") := sub]
  }

  /**
   * Whichever subscription the store matches first, the other agent's
   * subscription on "B" keeps `answered == true` although the settings say
   * false, while the intended version writes it onto both.
   */
  lemma SingleUpdateLeavesSecondAgentStale(first: UserId)
    requires SubKey("B", first) in TwoAgentSubscriptions()
    ensures var subs := TwoAgentSubscriptions();
      var st := Settings(false, None, None, None);
      && (exists k :: k in subs && k.rid == "B" &&
            SetSettingsOnFirstMatch(subs, "B", st, first)[k].answered != st.answered)
      && (forall k :: k in subs && k.rid == "B" ==> SetSettingsByRoom(subs, "B", st)[k].answered == st.answered)
  {
  }

  /**
   * The two writes differ only for rooms with two or more subscriptions:
   * when the matched subscription is the room's only one, the single-document
   * update gives the same collection as the all-subscriptions write.
   */
  lemma FirstMatchAgreesForSingleSubscriber(subs: map<SubKey, Subscription>, rid: RoomId, st: Settings, first: UserId)
    requires SubKey(rid, first) in subs
    requires forall k :: k in subs && k.rid == rid ==> k == SubKey(rid, first)
    ensures SetSettingsOnFirstMatch(subs, rid, st, first) == SetSettingsByRoom(subs, rid, st)
  {
  }
}
