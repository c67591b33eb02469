/**
 * `/take user emote`: a staff command that removes an emote from a member's
 * `given` list and empties the first slot that still shows it.
 */
module TakeCommand {
  import opened Wrappers
  import opened Text
  import opened RoleLists
  import opened Config
  import opened SlotMaps
  import opened Schema
  import opened Discord
  import opened EmojiManager
  import Functions

  datatype TakeReply = InvalidEmoji | NotInServer | NotVerified | NotOwned | Took

  /** The reply to `/take`, given the collection before the command. */
  function Reply(users: map<string, UserRecord>, targetId: string, inGuild: bool, emote: string): TakeReply
  {
    if !Functions.ValidUnicode(emote) then InvalidEmoji
    else if !inGuild then NotInServer
    else if targetId !in users then NotVerified
    else if emote !in users[targetId].emotes.given then NotOwned
    else Took
  }

  /** The slots after a take: the first slot holding the emote, when its key is truthy, is unequipped. */
  function TakenSlots(s: Slots, emote: string): Slots
  {
    var held := SlotHolding(s, emote);
    if held.Some? && Truthy(held.value) then Unequipped(s, held.value) else s
  }

  /** The record after a successful take. */
  function TookRecord(u: UserRecord, cfg: BotConfig, roles: seq<RoleId>, emote: string): UserRecord
  {
    var w := UpdatedRecord(u, cfg, roles);
    w.(emotes := w.emotes.(given := Taken(w.emotes.given, emote), slots := TakenSlots(w.emotes.slots, emote)))
  }

  /**
   * A rejection before the lookup leaves the collection untouched; a rejection
   * after it leaves the synced record; a take writes `TookRecord`.
   */
  method Execute(store: UserStore, guild: map<string, Member>, targetId: string, cfg: BotConfig, emote: string)
    returns (r: TakeReply)
    requires FiledById(store.users) && GuildIds(guild)
    modifies store
    ensures r == Reply(old(store.users), targetId, targetId in guild, emote)
    ensures r == InvalidEmoji || r == NotInServer || r == NotVerified ==> store.users == old(store.users)
    ensures r == NotOwned ==> store.users == old(store.users)[targetId := UpdatedRecord(old(store.users)[targetId], cfg, guild[targetId].roles)]
    ensures r == Took ==> store.users == old(store.users)[targetId := TookRecord(old(store.users)[targetId], cfg, guild[targetId].roles, emote)]
  {
    if !Functions.ValidUnicode(emote) {
      return InvalidEmoji;
    }
    var member := Find(guild, targetId);
    if member.None? {
      return NotInServer;
    }
    var target := member.value;
    if targetId !in store.users {
      return NotVerified;
    }
    var manager := new Manager(target.id, target.roles);
    ghost var u := UpdatedRecord(store.users[targetId], cfg, target.roles);
    manager.Update(Find(store.users, target.id), cfg);
    assert manager.user == Some(u) && u.id == targetId;
    manager.Sync(store);
    assert store.users == old(store.users)[targetId := u];
    if !(emote in manager.user.value.emotes.given) {
      return NotOwned;
    }
    manager.TakeEmote(emote);
    var equipped := manager.GetSlotFromEmote(emote);
    if equipped.Some? && Truthy(equipped.value) {
      manager.Unequip(equipped.value);
    }
    ghost var v := TookRecord(old(store.users)[targetId], cfg, target.roles, emote);
    assert manager.user == Some(v);
    ghost var mid := store.users;
    manager.Sync(store);
    assert store.users == mid[targetId := v];
    UpdateTwice(old(store.users), targetId, u, v);
    return Took;
  }

  /** A valid emote is never the empty string, so a slot holding it is truthy. */
  lemma ValidIsTruthy(emote: string)
    requires Functions.ValidUnicode(emote)
    ensures Truthy(emote)
  {
    var i :| 0 <= i < |emote| && emote[i] as int > 0x7F;
  }

  /**
   * On slots with unique keys, a take's slot step empties the first slot
   * holding a valid emote and keeps every other slot and all keys.
   */
  lemma TakenSlotsSpec(s: Slots, emote: string, k: string)
    requires UniqueKeys(s) && Functions.ValidUnicode(emote)
    ensures Keys(TakenSlots(s, emote)) == Keys(s)
    ensures var held := SlotHolding(s, emote);
      && (held.Some? && Truthy(held.value) ==> Get(TakenSlots(s, emote), held.value) == Some("none"))
      && (held.None? || k != held.value ==> Get(TakenSlots(s, emote), k) == Get(s, k))
  {
    var held := SlotHolding(s, emote);
    if held.Some? && Truthy(held.value) {
      SlotHoldingSpec(s, emote);
      ValidIsTruthy(emote);
      UnequippedSpec(s, held.value, k);
    }
  }

  /**
   * After a take from a duplicate-free `given` list the emote is no longer
   * given; the first slot that showed it now holds "none", every other slot is
   * as the sync left it, and the keys are unchanged.
   */
  lemma TookRemoves(users: map<string, UserRecord>, targetId: string, roles: seq<RoleId>, cfg: BotConfig, emote: string, k: string)
    requires FiledById(users)
    requires Reply(users, targetId, true, emote) == Took
    requires Distinct(users[targetId].emotes.given)
    ensures var t := TookRecord(users[targetId], cfg, roles, emote);
      var s := UpdatedSlots(users[targetId], cfg, roles);
      var held := SlotHolding(s, emote);
      && emote !in t.emotes.given
      && Keys(t.emotes.slots) == Keys(s)
      && (held.Some? && Truthy(held.value) ==> Get(t.emotes.slots, held.value) == Some("none"))
      && (held.None? || k != held.value ==> Get(t.emotes.slots, k) == Get(s, k))
  {
    var u := users[targetId];
    TakenSpec(u.emotes.given, emote);
    assert emote !in FilterOut(u.emotes.given, {emote});
    UpdatedSlotsSpec(u, cfg, roles, k);
    TakenSlotsSpec(UpdatedSlots(u, cfg, roles), emote, k);
  }
}
