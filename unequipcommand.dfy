/**
 * `/unequip slot`: empties one of the caller's slots.
 */
module UnequipCommand {
  import opened Wrappers
  import opened Text
  import opened RoleLists
  import opened Config
  import opened SlotMaps
  import opened Schema
  import opened Discord
  import opened EmojiManager

  datatype UnequipReply = NotVerified | NoSuchSlot | EmptySlot | UnequippedSlot

  /** The guards `/unequip` applies on the synced slots. */
  function Decision(s: Slots, slot: int): UnequipReply
  {
    var name := SlotName(s, slot);
    if !(name.Some? && Truthy(name.value)) then NoSuchSlot
    else
      var shown := EmojiInSlot(s, name.value);
      if !(shown.Some? && Truthy(shown.value)) then EmptySlot
      else UnequippedSlot
  }

  /** The reply to `/unequip`, given the collection before the command. */
  function Reply(users: map<string, UserRecord>, callerId: string, roles: seq<RoleId>, cfg: BotConfig, slot: int): UnequipReply
  {
    if callerId !in users then NotVerified
    else Decision(UpdatedSlots(users[callerId], cfg, roles), slot)
  }

  /**
   * A caller with no record leaves the collection untouched; otherwise the
   * record is synced, and on success the named slot is unequipped.
   */
  method Execute(store: UserStore, callerId: string, roles: seq<RoleId>, cfg: BotConfig, slot: int) returns (r: UnequipReply)
    requires FiledById(store.users)
    modifies store
    ensures r == Reply(old(store.users), callerId, roles, cfg, slot)
    ensures r == NotVerified ==> store.users == old(store.users)
    ensures r != NotVerified ==>
      var u := UpdatedRecord(old(store.users)[callerId], cfg, roles);
      store.users == old(store.users)[callerId :=
        if r == UnequippedSlot then u.(emotes := u.emotes.(slots := Unequipped(u.emotes.slots, SlotName(u.emotes.slots, slot).value)))
        else u]
  {
    if callerId !in store.users {
      return NotVerified;
    }
    var manager := new Manager(callerId, roles);
    ghost var u := UpdatedRecord(store.users[callerId], cfg, roles);
    manager.Update(Find(store.users, callerId), cfg);
    assert manager.user == Some(u) && u.id == callerId;
    manager.Sync(store);
    assert store.users == old(store.users)[callerId := u];
    var name := SlotName(manager.slots, slot);
    if !(name.Some? && Truthy(name.value)) {
      return NoSuchSlot;
    }
    var shown := EmojiInSlot(manager.slots, name.value);
    if !(shown.Some? && Truthy(shown.value)) {
      return EmptySlot;
    }
    ghost var s := manager.slots;
    manager.Unequip(name.value);
    ghost var v := u.(emotes := u.emotes.(slots := Unequipped(s, name.value)));
    assert manager.user == Some(v) && v.id == callerId;
    ghost var mid := store.users;
    manager.Sync(store);
    assert store.users == mid[callerId := v];
    UpdateTwice(old(store.users), callerId, u, v);
    return UnequippedSlot;
  }

  /**
   * On success exactly the numbered slot, which showed an emote, becomes "none";
   * every other slot and the keys stay as the sync left them.
   */
  lemma UnequipEmptiesNamedSlot(users: map<string, UserRecord>, callerId: string, roles: seq<RoleId>, cfg: BotConfig, slot: int, k: string)
    requires FiledById(users)
    requires Reply(users, callerId, roles, cfg, slot) == UnequippedSlot
    ensures var s := UpdatedSlots(users[callerId], cfg, roles);
      var name := SlotName(s, slot).value;
      var t := Unequipped(s, name);
      && Get(s, name).value != "none"
      && Get(t, name) == Some("none")
      && Keys(t) == Keys(s)
      && (k != name ==> Get(t, k) == Get(s, k))
  {
    var s := UpdatedSlots(users[callerId], cfg, roles);
    UpdatedSlotsSpec(users[callerId], cfg, roles, k);
    UnequippedSpec(s, SlotName(s, slot).value, k);
  }
}
