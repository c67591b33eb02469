/**
 * `/equip emote slot`: puts one of the caller's owned emotes into one of their slots.
 */
module EquipCommand {
  import opened Wrappers
  import opened Text
  import opened RoleLists
  import opened Config
  import opened SlotMaps
  import opened Schema
  import opened Discord
  import opened EmojiManager
  import Functions

  datatype EquipReply =
    | InvalidEmoji
    | NotVerified
    | ExclusiveEmotes
    | NotOwned
    /** The emote already sits in the slot with this 1-based number. */
    | AlreadyEquipped(slotNumber: int)
    | SlotLocked
    | EquippedIn(slotNumber: int)

  /** `getSlotFromEmote(emote)` gives a key, and a truthy one. */
  predicate EquippedSomewhere(s: Slots, emote: string)
  {
    SlotHolding(s, emote).Some? && Truthy(SlotHolding(s, emote).value)
  }

  /**
   * The Top Player + and Speedrunner emotes exclude each other. `topPlus` and
   * `speedrunner` are what `getEmoteByName` gives for the two names.
   */
  predicate Conflict(s: Slots, emote: string, topPlus: Option<string>, speedrunner: Option<string>)
  {
    || (topPlus == Some(emote) && speedrunner.Some? && Truthy(speedrunner.value) && EquippedSomewhere(s, speedrunner.value))
    || (speedrunner == Some(emote) && topPlus.Some? && Truthy(topPlus.value) && EquippedSomewhere(s, topPlus.value))
  }

  /** The guards `/equip` applies once the record is synced, on its slots `s` and owned emotes. */
  function Decision(s: Slots, owned: seq<string>, emote: string, slot: int,
                    topPlus: Option<string>, speedrunner: Option<string>): EquipReply
  {
    if Conflict(s, emote, topPlus, speedrunner) then ExclusiveEmotes
    else if emote !in owned then NotOwned
    else if EquippedSomewhere(s, emote) then AlreadyEquipped(SlotIndex(s, SlotHolding(s, emote).value))
    else if !(SlotName(s, slot).Some? && Truthy(SlotName(s, slot).value)) then SlotLocked
    else EquippedIn(slot)
  }

  /** The reply to `/equip`, given the collection before the command. */
  function Reply(users: map<string, UserRecord>, callerId: string, roles: seq<RoleId>, cfg: BotConfig,
                 emote: string, slot: int, topPlus: Option<string>, speedrunner: Option<string>): EquipReply
  {
    if !Functions.ValidUnicode(emote) then InvalidEmoji
    else if callerId !in users then NotVerified
    else Decision(UpdatedSlots(users[callerId], cfg, roles), OwnedEmotes(users[callerId], cfg, roles), emote, slot, topPlus, speedrunner)
  }

  /** The guards, applied through the manager's lookups. */
  method Decide(manager: Manager, emote: string, slot: int, topPlus: Option<string>, speedrunner: Option<string>)
    returns (r: EquipReply)
    ensures r == Decision(manager.slots, manager.emotes, emote, slot, topPlus, speedrunner)
  {
    if topPlus == Some(emote) && speedrunner.Some? && Truthy(speedrunner.value) {
      var held := manager.GetSlotFromEmote(speedrunner.value);
      if held.Some? && Truthy(held.value) {
        return ExclusiveEmotes;
      }
    }
    if speedrunner == Some(emote) && topPlus.Some? && Truthy(topPlus.value) {
      var held := manager.GetSlotFromEmote(topPlus.value);
      if held.Some? && Truthy(held.value) {
        return ExclusiveEmotes;
      }
    }
    if !(emote in manager.emotes) {
      return NotOwned;
    }
    var current := manager.GetSlotFromEmote(emote);
    if current.Some? && Truthy(current.value) {
      return AlreadyEquipped(SlotIndex(manager.slots, current.value));
    }
    var name := SlotName(manager.slots, slot);
    if !(name.Some? && Truthy(name.value)) {
      return SlotLocked;
    }
    return EquippedIn(slot);
  }

  /**
   * The caller is the member with id `callerId` and role ids `roles`; `topPlus`
   * and `speedrunner` are the emotes `getEmoteByName` resolves. A rejected emote
   * or caller leaves the collection untouched; after that the record is synced,
   * and it changes further only when the emote is equipped.
   */
  method Execute(store: UserStore, callerId: string, roles: seq<RoleId>, cfg: BotConfig, emote: string, slot: int,
                 topPlus: Option<string>, speedrunner: Option<string>) returns (r: EquipReply)
    requires FiledById(store.users)
    modifies store
    ensures r == Reply(old(store.users), callerId, roles, cfg, emote, slot, topPlus, speedrunner)
    ensures r == InvalidEmoji || r == NotVerified ==> store.users == old(store.users)
    ensures r != InvalidEmoji && r != NotVerified ==>
      var u := UpdatedRecord(old(store.users)[callerId], cfg, roles);
      store.users == old(store.users)[callerId :=
        if r.EquippedIn? then u.(emotes := u.emotes.(slots := Equipped(u.emotes.slots, SlotName(u.emotes.slots, slot).value, emote)))
        else u]
  {
    if !Functions.ValidUnicode(emote) {
      return InvalidEmoji;
    }
    if callerId !in store.users {
      return NotVerified;
    }
    var manager := new Manager(callerId, roles);
    ghost var u := UpdatedRecord(store.users[callerId], cfg, roles);
    manager.Update(Find(store.users, callerId), cfg);
    assert manager.user == Some(u) && u.id == callerId;
    manager.Sync(store);
    assert store.users == old(store.users)[callerId := u];
    r := Decide(manager, emote, slot, topPlus, speedrunner);
    if !r.EquippedIn? {
      return;
    }
    ghost var s := manager.slots;
    var name := SlotName(manager.slots, slot).value;
    manager.Equip(name, emote);
    ghost var v := u.(emotes := u.emotes.(slots := Equipped(s, name, emote)));
    assert manager.user == Some(v) && v.id == callerId;
    ghost var mid := store.users;
    manager.Sync(store);
    assert store.users == mid[callerId := v];
    UpdateTwice(old(store.users), callerId, u, v);
  }

  /**
   * A successful `/equip` puts the emote into the slot with the given number and
   * changes no other slot; the caller's slots keep their keys. (An owned emote
   * that is the empty string would be falsy and make `equip` a no-op.)
   */
  lemma EquipChangesNamedSlotOnly(users: map<string, UserRecord>, callerId: string, roles: seq<RoleId>, cfg: BotConfig,
                                  emote: string, slot: int, topPlus: Option<string>, speedrunner: Option<string>, k: string)
    requires FiledById(users)
    requires Reply(users, callerId, roles, cfg, emote, slot, topPlus, speedrunner).EquippedIn?
    requires "" !in OwnedEmotes(users[callerId], cfg, roles)
    ensures var s := UpdatedSlots(users[callerId], cfg, roles);
      var name := SlotName(s, slot).value;
      var t := Equipped(s, name, emote);
      && Keys(t) == Keys(s)
      && Get(t, name) == Some(emote)
      && (k != name ==> Get(t, k) == Get(s, k))
  {
    var u := users[callerId];
    var s := UpdatedSlots(u, cfg, roles);
    UpdatedSlotsSpec(u, cfg, roles, k);
    var name := SlotName(s, slot).value;
    assert HasKey(s, name) by {
      assert s[slot - 1].key == name;
    }
    var i :| 0 <= i < |s| && s[i].key == name;
    assert s[i].value == "none" || s[i].value in OwnedEmotes(u, cfg, roles);
    GetAt(s, i);
    EquippedSpec(s, name, emote, k);
  }

  /**
   * An emote already in a slot is refused, and the number the reply reports is
   * the 1-based position of the slot holding it.
   */
  lemma AlreadyEquippedNamesHoldingSlot(users: map<string, UserRecord>, callerId: string, roles: seq<RoleId>, cfg: BotConfig,
                                        emote: string, slot: int, topPlus: Option<string>, speedrunner: Option<string>)
    requires FiledById(users)
    requires Reply(users, callerId, roles, cfg, emote, slot, topPlus, speedrunner).AlreadyEquipped?
    ensures var s := UpdatedSlots(users[callerId], cfg, roles);
      var n := Reply(users, callerId, roles, cfg, emote, slot, topPlus, speedrunner).slotNumber;
      && SlotName(s, n).Some?
      && Get(s, SlotName(s, n).value) == Some(emote)
  {
    var u := users[callerId];
    var s := UpdatedSlots(u, cfg, roles);
    UpdatedSlotsSpec(u, cfg, roles, "");
    var key := SlotHolding(s, emote).value;
    SlotHoldingSpec(s, emote);
    SlotIndexOfName(s, 0, key);
  }
}
