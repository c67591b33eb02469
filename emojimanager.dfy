/**
 * `EmojiManager`: one member's emote slots and owned emotes. `update` reads the
 * member's record and the configured milestones and slot unlocks, `sync`
 * writes the slots back, and the commands equip, unequip, give and take emotes.
 */
module EmojiManager {
  import opened Wrappers
  import opened Text
  import opened RoleLists
  import opened Config
  import opened SlotMaps
  import opened Schema
  import opened Discord
  import Functions

  // ------------------------------------------------------------ specification

  /** The member earns milestone `m`: holds its role, and its required role when one is set. */
  predicate Qualifies(m: Milestone, roles: seq<RoleId>)
  {
    m.role in roles && (Truthy(m.requiredRole) ==> m.requiredRole in roles)
  }

  /** The emotes `getAvailableEmotes` collects, in milestone order. */
  function MilestoneEmotes(ms: seq<Milestone>, roles: seq<RoleId>): seq<string>
  {
    if ms == [] then []
    else
      var init := MilestoneEmotes(ms[..|ms| - 1], roles);
      if Qualifies(ms[|ms| - 1], roles) then init + [ms[|ms| - 1].emote] else init
  }

  /** An emote is available exactly when some milestone the member earns carries it. */
  lemma {:induction false} MilestoneEmotesMembers(ms: seq<Milestone>, roles: seq<RoleId>, e: string)
    ensures e in MilestoneEmotes(ms, roles) <==> exists k :: 0 <= k < |ms| && Qualifies(ms[k], roles) && ms[k].emote == e
  {
    if ms != [] {
      var init := ms[..|ms| - 1];
      MilestoneEmotesMembers(init, roles, e);
      if exists k :: 0 <= k < |ms| && Qualifies(ms[k], roles) && ms[k].emote == e {
        var k :| 0 <= k < |ms| && Qualifies(ms[k], roles) && ms[k].emote == e;
        if k < |ms| - 1 {
          assert init[k] == ms[k];
        }
      }
      if exists k :: 0 <= k < |init| && Qualifies(init[k], roles) && init[k].emote == e {
        var k :| 0 <= k < |init| && Qualifies(init[k], roles) && init[k].emote == e;
        assert ms[k] == init[k];
      }
    }
  }

  /** The slots `getAvailableSlots` builds: `default`, then each unlocked slot, all empty. */
  function SlotsFor(unlocks: seq<SlotUnlock>, roles: seq<RoleId>): Slots
  {
    if unlocks == [] then [Entry("default", "none")]
    else
      var init := SlotsFor(unlocks[..|unlocks| - 1], roles);
      var u := unlocks[|unlocks| - 1];
      if u.role in roles then Put(init, u.name, "none") else init
  }

  /**
   * The available slots have unique keys, `default` first; a key is present
   * exactly when it is `default` or an unlock the member holds the role of; every value is "none".
   */
  lemma {:induction false} SlotsForShape(unlocks: seq<SlotUnlock>, roles: seq<RoleId>, k: string)
    ensures var s := SlotsFor(unlocks, roles);
      && UniqueKeys(s) && |s| >= 1 && s[0].key == "default"
      && (forall i :: 0 <= i < |s| ==> s[i].value == "none")
      && (HasKey(s, k) <==> k == "default" || exists j :: 0 <= j < |unlocks| && unlocks[j].role in roles && unlocks[j].name == k)
  {
    var s := SlotsFor(unlocks, roles);
    if unlocks == [] {
      assert HasKey(s, k) <==> k == "default" by {
        if k == "default" {
          assert s[0].key == k;
        }
      }
    } else {
      var init := unlocks[..|unlocks| - 1];
      var u := unlocks[|unlocks| - 1];
      var prev := SlotsFor(init, roles);
      SlotsForShape(init, roles, k);
      HeldUnlockSplit(unlocks, roles, k);
      if u.role in roles {
        assert HasKey(s, k) <==> HasKey(prev, k) || k == u.name by {
          PutHasKey(prev, u.name, "none", k);
        }
      }
    }
  }

  /** A held unlock of the whole list is one of the first ones or the last. */
  lemma HeldUnlockSplit(unlocks: seq<SlotUnlock>, roles: seq<RoleId>, k: string)
    requires unlocks != []
    ensures var init := unlocks[..|unlocks| - 1]; var u := unlocks[|unlocks| - 1];
      (exists j :: 0 <= j < |unlocks| && unlocks[j].role in roles && unlocks[j].name == k)
      <==> (exists j :: 0 <= j < |init| && init[j].role in roles && init[j].name == k) || (u.role in roles && u.name == k)
  {
    var init := unlocks[..|unlocks| - 1];
    if exists j :: 0 <= j < |init| && init[j].role in roles && init[j].name == k {
      var j :| 0 <= j < |init| && init[j].role in roles && init[j].name == k;
      assert unlocks[j] == init[j];
    }
    if exists j :: 0 <= j < |unlocks| && unlocks[j].role in roles && unlocks[j].name == k {
      var j :| 0 <= j < |unlocks| && unlocks[j].role in roles && unlocks[j].name == k;
      if j < |init| {
        assert init[j] == unlocks[j];
      }
    }
  }

  /** After writing `key`, exactly the old keys and `key` are present. */
  lemma PutHasKey(s: Slots, key: string, v: string, k: string)
    ensures HasKey(Put(s, key, v), k) <==> HasKey(s, k) || k == key
  {
    var r := Put(s, key, v);
    if HasKey(s, k) {
      var i :| 0 <= i < |s| && s[i].key == k;
      assert r[i].key == k;
    }
    if k == key && !HasKey(s, k) {
      assert r[|s|].key == k;
    }
    if HasKey(r, k) {
      var i :| 0 <= i < |r| && r[i].key == k;
      if i < |s| {
        assert s[i].key == k;
      }
    }
  }

  /** The slots `mergeSlots(stored, available)` returns: each stored value copied onto an available key. */
  function MergedSlots(stored: Slots, available: Slots): Slots
  {
    if stored == [] then available
    else MergeOne(MergedSlots(stored[..|stored| - 1], available), stored[|stored| - 1])
  }

  /** One step of `mergeSlots`: a stored entry overwrites its key when that key holds a truthy value. */
  function MergeOne(prev: Slots, e: Entry): Slots
  {
    match Get(prev, e.key)
    case Some(v) => if Truthy(v) then Put(prev, e.key, e.value) else prev
    case None => prev
  }

  /** A merge step changes at most the entry's own key. */
  lemma MergeOneGet(prev: Slots, e: Entry, k: string)
    requires UniqueKeys(prev)
    ensures Get(MergeOne(prev, e), k) ==
      if k == e.key && Get(prev, k).Some? && Truthy(Get(prev, k).value) then Some(e.value) else Get(prev, k)
  {
    if Get(prev, e.key).Some? && Truthy(Get(prev, e.key).value) {
      PutGet(prev, e.key, e.value, k);
    }
  }

  /**
   * `mergeSlots` reads each key as the stored value when the key is both stored
   * and available, as the available value otherwise (and an unavailable key stays
   * absent, so a slot whose unlock role was lost disappears).
   */
  lemma {:induction false} MergedSlotsSpec(stored: Slots, available: Slots, k: string)
    requires UniqueKeys(stored) && UniqueKeys(available)
    requires forall i :: 0 <= i < |available| ==> Truthy(available[i].value)
    ensures Get(MergedSlots(stored, available), k) == if HasKey(stored, k) && HasKey(available, k) then Get(stored, k) else Get(available, k)
  {
    if stored != [] {
      var init := stored[..|stored| - 1];
      var e := stored[|stored| - 1];
      var prev := MergedSlots(init, available);
      assert UniqueKeys(init);
      MergedKeysUnique(init, available);
      MergedSlotsSpec(init, available, k);
      MergeOneGet(prev, e, k);
      if k == e.key {
        LastStoredKey(stored, available, k);
      } else {
        StoredSplit(stored, k);
      }
    }
  }

  /** The last stored key is absent from the others and reads as the last value. */
  lemma LastStoredKey(stored: Slots, available: Slots, k: string)
    requires stored != [] && UniqueKeys(stored) && stored[|stored| - 1].key == k
    requires forall i :: 0 <= i < |available| ==> Truthy(available[i].value)
    ensures !HasKey(stored[..|stored| - 1], k)
    ensures HasKey(stored, k) && Get(stored, k) == Some(stored[|stored| - 1].value)
    ensures Get(available, k).Some? ==> Truthy(Get(available, k).value)
  {
    var init := stored[..|stored| - 1];
    forall i | 0 <= i < |init| ensures init[i].key != k {
      assert init[i] == stored[i];
    }
    GetAt(stored, |stored| - 1);
    var g := Get(available, k);
    if g.Some? {
      var j :| 0 <= j < |available| && available[j].key == k && available[j].value == g.value;
      assert Truthy(available[j].value);
    }
  }

  /** A key of the stored slots is one of the first ones or the last. */
  lemma StoredSplit(stored: Slots, k: string)
    requires stored != [] && UniqueKeys(stored)
    ensures var init := stored[..|stored| - 1]; var e := stored[|stored| - 1];
      && (HasKey(stored, k) <==> HasKey(init, k) || e.key == k)
      && (k != e.key ==> Get(stored, k) == Get(init, k))
  {
    var init := stored[..|stored| - 1];
    var e := stored[|stored| - 1];
    if HasKey(stored, k) {
      var i :| 0 <= i < |stored| && stored[i].key == k;
      if i < |init| {
        assert init[i].key == k;
      }
    }
    if HasKey(init, k) {
      var i :| 0 <= i < |init| && init[i].key == k;
      assert stored[i].key == k;
    }
    if k != e.key {
      if HasKey(init, k) {
        var i :| 0 <= i < |init| && init[i].key == k;
        assert stored[i] == init[i];
        GetAt(stored, i);
        GetAt(init, i);
      }
    }
  }

  /** A slot whose emote is no longer owned, emptied as `removeLockedEmotes` does. */
  function Unlock(e: Entry, emotes: seq<string>): Entry
  {
    if e.value != "none" && e.value !in emotes then Entry(e.key, "none") else e
  }

  /** The slots after `removeLockedEmotes`. */
  function WithoutLocked(s: Slots, emotes: seq<string>): (r: Slots)
    ensures |r| == |s|
    ensures forall i :: 0 <= i < |s| ==> r[i] == Unlock(s[i], emotes)
  {
    seq(|s|, i requires 0 <= i < |s| => Unlock(s[i], emotes))
  }

  /** `removeLockedEmotes` keeps the keys and leaves every slot empty or holding an owned emote. */
  lemma WithoutLockedSpec(s: Slots, emotes: seq<string>)
    ensures Keys(WithoutLocked(s, emotes)) == Keys(s)
    ensures UniqueKeys(s) ==> UniqueKeys(WithoutLocked(s, emotes))
    ensures forall i :: 0 <= i < |s| ==> WithoutLocked(s, emotes)[i].value == "none" || WithoutLocked(s, emotes)[i].value in emotes
  {
  }

  /** The owned emotes `update` computes from a record. */
  function OwnedEmotes(u: UserRecord, cfg: BotConfig, roles: seq<RoleId>): seq<string>
  {
    Dedup(u.emotes.given + MilestoneEmotes(cfg.milestones, roles))
  }

  /** The slots `update` computes from a record. */
  function UpdatedSlots(u: UserRecord, cfg: BotConfig, roles: seq<RoleId>): Slots
  {
    WithoutLocked(MergedSlots(u.emotes.slots, SlotsFor(cfg.slotUnlocks, roles)), OwnedEmotes(u, cfg, roles))
  }

  /** The owned emotes are the given ones, then the earned milestone emotes, each once, given ones first. */
  lemma OwnedEmotesSpec(u: UserRecord, cfg: BotConfig, roles: seq<RoleId>, e: string)
    requires Distinct(u.emotes.given)
    ensures Distinct(OwnedEmotes(u, cfg, roles))
    ensures u.emotes.given <= OwnedEmotes(u, cfg, roles)
    ensures e in OwnedEmotes(u, cfg, roles) <==>
      e in u.emotes.given || exists k :: 0 <= k < |cfg.milestones| && Qualifies(cfg.milestones[k], roles) && cfg.milestones[k].emote == e
  {
    var all := u.emotes.given + MilestoneEmotes(cfg.milestones, roles);
    DedupKeepsPrefix(u.emotes.given, MilestoneEmotes(cfg.milestones, roles));
    MilestoneEmotesMembers(cfg.milestones, roles, e);
    assert e in ToSet(all) <==> e in all;
    assert e in ToSet(OwnedEmotes(u, cfg, roles)) <==> e in OwnedEmotes(u, cfg, roles);
  }

  /**
   * After `update` the slots are exactly the available ones, in their order;
   * each holds "none" or an owned emote; a slot the stored record had keeps its
   * emote when that emote is still owned.
   */
  lemma UpdatedSlotsSpec(u: UserRecord, cfg: BotConfig, roles: seq<RoleId>, k: string)
    requires UniqueKeys(u.emotes.slots)
    ensures var s := UpdatedSlots(u, cfg, roles); var avail := SlotsFor(cfg.slotUnlocks, roles);
      && Keys(s) == Keys(avail) && UniqueKeys(s)
      && (forall i :: 0 <= i < |s| ==> s[i].value == "none" || s[i].value in OwnedEmotes(u, cfg, roles))
      && (HasKey(u.emotes.slots, k) && HasKey(avail, k) && Get(u.emotes.slots, k).value in OwnedEmotes(u, cfg, roles)
          ==> Get(s, k) == Get(u.emotes.slots, k))
  {
    var avail := SlotsFor(cfg.slotUnlocks, roles);
    var owned := OwnedEmotes(u, cfg, roles);
    var merged := MergedSlots(u.emotes.slots, avail);
    SlotsForShape(cfg.slotUnlocks, roles, k);
    MergedKeysUnique(u.emotes.slots, avail);
    MergedSlotsSpec(u.emotes.slots, avail, k);
    WithoutLockedSpec(merged, owned);
    var s := WithoutLocked(merged, owned);
    if HasKey(u.emotes.slots, k) && HasKey(avail, k) && Get(u.emotes.slots, k).value in owned {
      var i :| 0 <= i < |merged| && merged[i].key == k && merged[i].value == Get(merged, k).value;
      assert s[i] == merged[i];
      assert Keys(s)[i] == s[i].key;
      GetAt(s, i);
    }
  }

  /** A record just written by `userSchema` comes out of `update` with the `default` slot only, empty. */
  lemma FreshRecordSlots(id: string, uuid: string, cfg: BotConfig, roles: seq<RoleId>)
    requires forall j :: 0 <= j < |cfg.slotUnlocks| ==> cfg.slotUnlocks[j].role !in roles
    ensures UpdatedSlots(UserSchema(id, uuid), cfg, roles) == [Entry("default", "none")]
  {
    var u := UserSchema(id, uuid);
    var avail := SlotsFor(cfg.slotUnlocks, roles);
    SlotsForNone(cfg.slotUnlocks, roles);
    var e := u.emotes.slots[0];
    assert u.emotes.slots[..0] == [];
    assert MergedSlots(u.emotes.slots, avail) == Put(avail, "default", "none");
  }

  lemma {:induction false} SlotsForNone(unlocks: seq<SlotUnlock>, roles: seq<RoleId>)
    requires forall j :: 0 <= j < |unlocks| ==> unlocks[j].role !in roles
    ensures SlotsFor(unlocks, roles) == [Entry("default", "none")]
  {
    if unlocks != [] {
      SlotsForNone(unlocks[..|unlocks| - 1], roles);
    }
  }

  // ------------------------------------------------------------ pure readers

  /** `getEmojiInSlot(slot)`: the emote in the slot; undefined for "none" and for a missing slot. */
  function EmojiInSlot(s: Slots, slot: string): (r: Option<string>)
    ensures r.Some? <==> HasKey(s, slot) && Get(s, slot).value != "none"
    ensures r.Some? ==> Get(s, slot) == r
  {
    match Get(s, slot)
    case None => None
    case Some(v) => if v != "none" then Some(v) else None
  }

  /** `getSlotName(index)`: the index-th key, counting from 1. */
  function SlotName(s: Slots, index: int): (r: Option<string>)
    ensures r.Some? <==> 1 <= index <= |s|
    ensures r.Some? ==> r.value == Keys(s)[index - 1]
  {
    if 1 <= index <= |s| then Some(s[index - 1].key) else None
  }

  /** `indexOf` on a list of strings: the first position, or -1. */
  function IndexOf(ks: seq<string>, k: string): (i: int)
    ensures -1 <= i < |ks|
    ensures i == -1 <==> k !in ks
    ensures i >= 0 ==> ks[i] == k && forall j :: 0 <= j < i ==> ks[j] != k
  {
    if ks == [] then -1
    else if ks[0] == k then 0
    else
      var j := IndexOf(ks[1..], k);
      if j == -1 then -1 else j + 1
  }

  /** `getSlotIndex(slot)`: the 1-based position of the key, or 0 when it is missing. */
  function SlotIndex(s: Slots, slot: string): int
  {
    IndexOf(Keys(s), slot) + 1
  }

  /** `getSlotIndex(getSlotName(i)) == i` for every slot number, and 0 reports a missing slot. */
  lemma SlotIndexOfName(s: Slots, index: int, slot: string)
    requires UniqueKeys(s)
    ensures SlotName(s, index).Some? ==> SlotIndex(s, SlotName(s, index).value) == index
    ensures SlotIndex(s, slot) == 0 <==> !HasKey(s, slot)
    ensures SlotIndex(s, slot) > 0 ==> SlotName(s, SlotIndex(s, slot)) == Some(slot)
  {
    var ks := Keys(s);
    if SlotName(s, index).Some? {
      var j := IndexOf(ks, ks[index - 1]);
      assert ks[j] == ks[index - 1];
      assert s[j].key == s[index - 1].key;
    }
    assert HasKey(s, slot) <==> slot in ks by {
      if slot in ks {
        var i :| 0 <= i < |ks| && ks[i] == slot;
        assert s[i].key == slot;
      }
    }
  }

  /** `toString()`: the equipped emotes, in slot order, joined. */
  function Rendered(s: Slots): (r: string)
    ensures s == [] ==> r == ""
  {
    if s == [] then ""
    else (if s[0].value != "none" then s[0].value else "") + Rendered(s[1..])
  }

  /** Only equipped slots contribute, so an all-empty slot map renders as "". */
  lemma {:induction false} RenderedEmpty(s: Slots)
    requires forall i :: 0 <= i < |s| ==> s[i].value == "none"
    ensures Rendered(s) == ""
  {
    if s != [] {
      RenderedEmpty(s[1..]);
    }
  }

  // ------------------------------------------------------------ edits

  /** The record `update` leaves behind, which `sync` writes back. */
  function UpdatedRecord(u: UserRecord, cfg: BotConfig, roles: seq<RoleId>): UserRecord
  {
    u.(emotes := u.emotes.(slots := UpdatedSlots(u, cfg, roles)))
  }

  /** The slots after `equip(slot, emote)`. */
  function Equipped(s: Slots, slot: string, emote: string): Slots
  {
    if Functions.ValidUnicode(emote) && Get(s, slot).Some? && Truthy(Get(s, slot).value) then Put(s, slot, emote) else s
  }

  /** The slots after `unequip(slot)`. */
  function Unequipped(s: Slots, slot: string): Slots
  {
    if Get(s, slot).Some? && Truthy(Get(s, slot).value) then Put(s, slot, "none") else s
  }

  /**
   * `equip` adds and removes no key and changes no slot but the named one, which
   * takes the emote exactly when the emote is valid and the slot exists with a truthy value.
   */
  lemma EquippedSpec(s: Slots, slot: string, emote: string, k: string)
    requires UniqueKeys(s)
    ensures Keys(Equipped(s, slot, emote)) == Keys(s) && UniqueKeys(Equipped(s, slot, emote))
    ensures k != slot ==> Get(Equipped(s, slot, emote), k) == Get(s, k)
    ensures Get(Equipped(s, slot, emote), slot) ==
      if Functions.ValidUnicode(emote) && Get(s, slot).Some? && Truthy(Get(s, slot).value) then Some(emote) else Get(s, slot)
  {
    if Functions.ValidUnicode(emote) && Get(s, slot).Some? && Truthy(Get(s, slot).value) {
      PutGet(s, slot, emote, k);
    }
  }

  /**
   * `unequip` adds and removes no key, empties only the named slot, when it exists
   * with a truthy value, and a second `unequip` of the same slot changes nothing.
   */
  lemma UnequippedSpec(s: Slots, slot: string, k: string)
    requires UniqueKeys(s)
    ensures Keys(Unequipped(s, slot)) == Keys(s) && UniqueKeys(Unequipped(s, slot))
    ensures k != slot ==> Get(Unequipped(s, slot), k) == Get(s, k)
    ensures Get(Unequipped(s, slot), slot) == if Get(s, slot).Some? && Truthy(Get(s, slot).value) then Some("none") else Get(s, slot)
    ensures Unequipped(Unequipped(s, slot), slot) == Unequipped(s, slot)
  {
    if Get(s, slot).Some? && Truthy(Get(s, slot).value) {
      PutGet(s, slot, "none", k);
      PutTwice(s, slot, "none");
    }
  }

  /** The `given` list after `giveEmote(emote)`. */
  function Given(given: seq<string>, emote: string): seq<string>
  {
    if Functions.ValidUnicode(emote) && emote !in given then given + [emote] else given
  }

  /** The `given` list after `takeEmote(emote)`. */
  function Taken(given: seq<string>, emote: string): seq<string>
  {
    if Functions.ValidUnicode(emote) && emote in given then RemoveFirst(given, emote) else given
  }

  /** `giveEmote` keeps `given` duplicate-free, lists a valid emote afterwards and touches no other entry. */
  lemma GivenSpec(given: seq<string>, emote: string)
    requires Distinct(given)
    ensures Distinct(Given(given, emote))
    ensures given <= Given(given, emote)
    ensures emote in Given(given, emote) <==> Functions.ValidUnicode(emote) || emote in given
  {
    if Functions.ValidUnicode(emote) && emote !in given {
      AppendDistinct(given, [emote]);
    }
  }

  /** `takeEmote` on a duplicate-free list removes exactly the emote, when it is valid, and keeps the order of the rest. */
  lemma TakenSpec(given: seq<string>, emote: string)
    requires Distinct(given)
    ensures Distinct(Taken(given, emote))
    ensures Taken(given, emote) == if Functions.ValidUnicode(emote) then FilterOut(given, {emote}) else given
    ensures IsSubsequence(Taken(given, emote), given)
  {
    if Functions.ValidUnicode(emote) {
      if emote in given {
        RemoveFirstDistinct(given, emote);
        RemoveFirstSubsequence(given, emote);
      } else {
        FilterOutAbsent(given, {emote});
        SubsequenceReflexive(given);
      }
    } else {
      SubsequenceReflexive(given);
    }
  }

  /** The position of the first slot holding `emote`, or -1. */
  function FirstHolding(s: Slots, emote: string): (i: int)
    ensures -1 <= i < |s|
    ensures i == -1 <==> forall j :: 0 <= j < |s| ==> s[j].value != emote
    ensures i >= 0 ==> s[i].value == emote && forall j :: 0 <= j < i ==> s[j].value != emote
  {
    if s == [] then -1
    else if s[0].value == emote then 0
    else
      var j := FirstHolding(s[1..], emote);
      assert forall k :: 1 <= k < |s| ==> s[k] == s[1..][k - 1];
      if j == -1 then -1 else j + 1
  }

  /** The key `getSlotFromEmote(emote)` returns. */
  function SlotHolding(s: Slots, emote: string): Option<string>
  {
    var i := FirstHolding(s, emote);
    if i < 0 then None else Some(s[i].key)
  }

  // ------------------------------------------------------------ the manager

  class Manager {
    /** The member's id and the ids of their roles. */
    const memberId: string
    const memberRoles: seq<RoleId>
    var emotes: seq<string>
    var slots: Slots
    /** The record read by `update`; its slots are the same object as `slots`. */
    var user: Option<UserRecord>

    /** The record's slots and the manager's are one object. */
    predicate Aliased()
      reads this
    {
      user.Some? ==> user.value.emotes.slots == slots
    }

    constructor(memberId: string, memberRoles: seq<RoleId>)
      ensures this.memberId == memberId && this.memberRoles == memberRoles
      ensures emotes == [] && slots == [] && user == None
    {
      this.memberId := memberId;
      this.memberRoles := memberRoles;
      emotes := [];
      slots := [];
      user := None;
    }

    /** `getAvailableEmotes()`. */
    method AvailableEmotes(milestones: seq<Milestone>) returns (r: seq<string>)
      ensures r == MilestoneEmotes(milestones, memberRoles)
    {
      r := [];
      var i := 0;
      while i < |milestones|
        invariant 0 <= i <= |milestones|
        invariant r == MilestoneEmotes(milestones[..i], memberRoles)
      {
        assert milestones[..i + 1][..i] == milestones[..i];
        var m := milestones[i];
        if m.role in memberRoles {
          if Truthy(m.requiredRole) {
            if m.requiredRole in memberRoles {
              r := r + [m.emote];
            }
          } else {
            r := r + [m.emote];
          }
        }
        i := i + 1;
      }
      assert milestones[..i] == milestones;
    }

    /** `getAvailableSlots()`. */
    method AvailableSlots(unlocks: seq<SlotUnlock>) returns (r: Slots)
      ensures r == SlotsFor(unlocks, memberRoles)
    {
      r := [Entry("default", "none")];
      var i := 0;
      while i < |unlocks|
        invariant 0 <= i <= |unlocks|
        invariant r == SlotsFor(unlocks[..i], memberRoles)
      {
        assert unlocks[..i + 1][..i] == unlocks[..i];
        if unlocks[i].role in memberRoles {
          r := Put(r, unlocks[i].name, "none");
        }
        i := i + 1;
      }
      assert unlocks[..i] == unlocks;
    }

    /** `mergeSlots(stored, available)`: walks the stored entries and writes into `available`. */
    static method MergeSlots(stored: Slots, available: Slots) returns (r: Slots)
      ensures r == MergedSlots(stored, available)
    {
      r := available;
      var i := 0;
      while i < |stored|
        invariant 0 <= i <= |stored|
        invariant r == MergedSlots(stored[..i], available)
      {
        assert stored[..i + 1][..i] == stored[..i];
        var e := stored[i];
        match Get(r, e.key) {
          case Some(v) =>
            if Truthy(v) {
              r := Put(r, e.key, e.value);
            }
          case None =>
        }
        i := i + 1;
      }
      assert stored[..i] == stored;
    }

    /** `removeLockedEmotes()`: empties every slot whose emote is not owned. */
    method RemoveLockedEmotes()
      requires UniqueKeys(slots)
      modifies this
      ensures slots == WithoutLocked(old(slots), emotes)
      ensures emotes == old(emotes) && user == old(user)
    {
      var entries := slots;
      var i := 0;
      while i < |entries|
        invariant 0 <= i <= |entries|
        invariant |slots| == |entries|
        invariant forall j :: 0 <= j < i ==> slots[j] == Unlock(entries[j], emotes)
        invariant forall j :: i <= j < |entries| ==> slots[j] == entries[j]
        invariant UniqueKeys(slots)
        invariant emotes == old(emotes) && user == old(user)
      {
        var e := entries[i];
        if e.value != "none" && !(e.value in emotes) {
          PutOnly(slots, i, "none");
          slots := Put(slots, e.key, "none");
        }
        i := i + 1;
      }
    }

    /** `update()` with `stored` the record the lookup by the member's id found. */
    method Update(stored: Option<UserRecord>, cfg: BotConfig)
      modifies this
      ensures stored.None? ==> emotes == old(emotes) && slots == old(slots) && user == old(user)
      ensures stored.Some? ==>
        && emotes == OwnedEmotes(stored.value, cfg, memberRoles)
        && slots == UpdatedSlots(stored.value, cfg, memberRoles)
        && user == Some(UpdatedRecord(stored.value, cfg, memberRoles))
      ensures stored.Some? ==> Aliased() && UniqueKeys(slots)
    {
      if stored.None? {
        return;
      }
      var u := stored.value;
      var available := AvailableEmotes(cfg.milestones);
      emotes := Dedup(u.emotes.given + available);
      var availableSlots := AvailableSlots(cfg.slotUnlocks);
      SlotsForShape(cfg.slotUnlocks, memberRoles, "default");
      slots := MergeSlots(u.emotes.slots, availableSlots);
      MergedKeysUnique(u.emotes.slots, availableSlots);
      RemoveLockedEmotes();
      WithoutLockedSpec(MergedSlots(u.emotes.slots, availableSlots), emotes);
      user := Some(u.(emotes := u.emotes.(slots := slots)));
    }

    /**
     * `sync()`: writes the record back, filed under its `_id` (a `replaceOne`,
     * so a record that has gone is not re-created). Setting the record's slots
     * to `slots` first changes nothing, as they are one object.
     */
    method Sync(store: UserStore)
      requires Aliased()
      modifies this, store
      ensures user == old(user) && emotes == old(emotes) && slots == old(slots)
      ensures store.users == if user.Some? && user.value.id in old(store.users)
        then old(store.users)[user.value.id := user.value] else old(store.users)
    {
      if user.None? {
        return;
      }
      var u := user.value;
      user := Some(u.(emotes := u.emotes.(slots := slots)));
      if u.id in store.users {
        store.users := store.users[u.id := user.value];
      }
    }

    /** `giveEmote(emote)`: appends a valid emote the record does not list yet. */
    method GiveEmote(emote: string)
      modifies this
      ensures user == if old(user).Some?
        then Some(old(user).value.(emotes := old(user).value.emotes.(given := Given(old(user).value.emotes.given, emote))))
        else None
      ensures emotes == old(emotes) && slots == old(slots)
    {
      if Functions.ValidUnicode(emote) && user.Some? && !(emote in user.value.emotes.given) {
        var u := user.value;
        user := Some(u.(emotes := u.emotes.(given := u.emotes.given + [emote])));
      }
    }

    /** `takeEmote(emote)`: removes the first occurrence of a valid emote the record lists. */
    method TakeEmote(emote: string)
      modifies this
      ensures user == if old(user).Some?
        then Some(old(user).value.(emotes := old(user).value.emotes.(given := Taken(old(user).value.emotes.given, emote))))
        else None
      ensures emotes == old(emotes) && slots == old(slots)
    {
      if Functions.ValidUnicode(emote) && user.Some? && emote in user.value.emotes.given {
        var u := user.value;
        user := Some(u.(emotes := u.emotes.(given := RemoveFirst(u.emotes.given, emote))));
      }
    }

    /** `equip(slot, emote)`: a valid emote goes into an existing slot whose value is truthy. */
    method Equip(slot: string, emote: string)
      requires Aliased()
      modifies this
      ensures slots == Equipped(old(slots), slot, emote)
      ensures Aliased() && emotes == old(emotes)
      ensures user.Some? <==> old(user).Some?
      ensures user.Some? ==> user.value == old(user).value.(emotes := old(user).value.emotes.(slots := slots))
    {
      if Functions.ValidUnicode(emote) {
        match Get(slots, slot) {
          case Some(v) =>
            if Truthy(v) {
              SetSlots(Put(slots, slot, emote));
            }
          case None =>
        }
      }
    }

    /** `unequip(slot)`: an existing slot whose value is truthy becomes "none". */
    method Unequip(slot: string)
      requires Aliased()
      modifies this
      ensures slots == Unequipped(old(slots), slot)
      ensures Aliased() && emotes == old(emotes)
      ensures user.Some? <==> old(user).Some?
      ensures user.Some? ==> user.value == old(user).value.(emotes := old(user).value.emotes.(slots := slots))
    {
      match Get(slots, slot) {
        case Some(v) =>
          if Truthy(v) {
            SetSlots(Put(slots, slot, "none"));
          }
        case None =>
      }
    }

    /** A write into `slots`, seen through the record too, since both hold the same object. */
    method SetSlots(s: Slots)
      requires Aliased()
      modifies this
      ensures slots == s && Aliased() && emotes == old(emotes)
      ensures user.Some? <==> old(user).Some?
      ensures user.Some? ==> user.value == old(user).value.(emotes := old(user).value.emotes.(slots := s))
    {
      slots := s;
      if user.Some? {
        var u := user.value;
        user := Some(u.(emotes := u.emotes.(slots := s)));
      }
    }

    /** `getSlotFromEmote(emote)`: a `for ... in` over the slots, returning the first key holding the emote. */
    method GetSlotFromEmote(emote: string) returns (r: Option<string>)
      ensures r == SlotHolding(slots, emote)
    {
      var i := 0;
      while i < |slots|
        invariant 0 <= i <= |slots|
        invariant forall j :: 0 <= j < i ==> slots[j].value != emote
      {
        if slots[i].value == emote {
          assert FirstHolding(slots, emote) == i;
          return Some(slots[i].key);
        }
        i := i + 1;
      }
      return None;
    }
  }

  /** `getSlotFromEmote` names a slot holding the emote, with no earlier slot holding it, or none when no slot does. */
  lemma SlotHoldingSpec(s: Slots, emote: string)
    ensures SlotHolding(s, emote).None? <==> forall j :: 0 <= j < |s| ==> s[j].value != emote
    ensures SlotHolding(s, emote).Some? ==> (exists i :: 0 <= i < |s| && s[i].key == SlotHolding(s, emote).value && s[i].value == emote)
    ensures UniqueKeys(s) && SlotHolding(s, emote).Some? ==> Get(s, SlotHolding(s, emote).value) == Some(emote)
  {
    var i := FirstHolding(s, emote);
    if i >= 0 && UniqueKeys(s) {
      GetAt(s, i);
    }
  }

  /** With unique keys, writing the key at position `i` changes that entry only. */
  lemma PutOnly(s: Slots, i: int, v: string)
    requires UniqueKeys(s) && 0 <= i < |s|
    ensures Put(s, s[i].key, v) == s[i := Entry(s[i].key, v)]
  {
    var r := Put(s, s[i].key, v);
    assert HasKey(s, s[i].key);
    forall j | 0 <= j < |s| ensures r[j] == s[i := Entry(s[i].key, v)][j] {
      if j == i {
        assert r[j].key == s[i].key;
      }
    }
  }

  /** `mergeSlots` only ever writes keys that are already available. */
  lemma {:induction false} MergedKeysUnique(stored: Slots, available: Slots)
    requires UniqueKeys(available)
    ensures Keys(MergedSlots(stored, available)) == Keys(available)
    ensures UniqueKeys(MergedSlots(stored, available))
  {
    if stored != [] {
      var prev := MergedSlots(stored[..|stored| - 1], available);
      MergedKeysUnique(stored[..|stored| - 1], available);
      var e := stored[|stored| - 1];
      if Get(prev, e.key).Some? {
        var r := Put(prev, e.key, e.value);
        assert Keys(r) == Keys(prev);
      }
      assert MergedSlots(stored, available) == MergeOne(prev, e);
    }
  }
}
