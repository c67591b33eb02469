/**
 * `/give user emote`: a staff command that adds an emote to a member's `given` list.
 */
module GiveCommand {
  import opened Wrappers
  import opened RoleLists
  import opened Config
  import opened Schema
  import opened Discord
  import opened EmojiManager
  import Functions

  datatype GiveReply = InvalidEmoji | NotInServer | NotVerified | AlreadyOwned | Gave

  /**
   * The reply to `/give`, given the collection before the command; `inGuild`
   * says whether the target's member fetch succeeds.
   */
  function Reply(users: map<string, UserRecord>, targetId: string, inGuild: bool, emote: string): GiveReply
  {
    if !Functions.ValidUnicode(emote) then InvalidEmoji
    else if !inGuild then NotInServer
    else if targetId !in users then NotVerified
    else if emote in users[targetId].emotes.given then AlreadyOwned
    else Gave
  }

  /** The record after a successful give: the synced record with the emote appended to `given`. */
  function GaveRecord(u: UserRecord, cfg: BotConfig, roles: seq<RoleId>, emote: string): UserRecord
  {
    var w := UpdatedRecord(u, cfg, roles);
    w.(emotes := w.emotes.(given := Given(w.emotes.given, emote)))
  }

  /**
   * `guild` holds the members a fetch finds. A rejection before the lookup
   * leaves the collection untouched; a rejection after it leaves the synced
   * record; a give adds the emote to `given` and nothing else.
   */
  method Execute(store: UserStore, guild: map<string, Member>, targetId: string, cfg: BotConfig, emote: string)
    returns (r: GiveReply)
    requires FiledById(store.users) && GuildIds(guild)
    modifies store
    ensures r == Reply(old(store.users), targetId, targetId in guild, emote)
    ensures r == InvalidEmoji || r == NotInServer || r == NotVerified ==> store.users == old(store.users)
    ensures r == AlreadyOwned ==> store.users == old(store.users)[targetId := UpdatedRecord(old(store.users)[targetId], cfg, guild[targetId].roles)]
    ensures r == Gave ==> store.users == old(store.users)[targetId := GaveRecord(old(store.users)[targetId], cfg, guild[targetId].roles, emote)]
  {
    if !Functions.ValidUnicode(emote) {
      return InvalidEmoji;
    }
    var member := Find(guild, targetId);
    if member.None? {
      return NotInServer;
    }
    var target := member.value;
    if targetId !in store.users {
      return NotVerified;
    }
    var manager := new Manager(target.id, target.roles);
    ghost var u := UpdatedRecord(store.users[targetId], cfg, target.roles);
    manager.Update(Find(store.users, target.id), cfg);
    assert manager.user == Some(u) && u.id == targetId;
    manager.Sync(store);
    assert store.users == old(store.users)[targetId := u];
    if emote in manager.user.value.emotes.given {
      return AlreadyOwned;
    }
    manager.GiveEmote(emote);
    ghost var v := GaveRecord(old(store.users)[targetId], cfg, target.roles, emote);
    assert manager.user == Some(v);
    ghost var mid := store.users;
    manager.Sync(store);
    assert store.users == mid[targetId := v];
    UpdateTwice(old(store.users), targetId, u, v);
    return Gave;
  }

  /**
   * A give appends the emote to a duplicate-free `given` list, which stays
   * duplicate-free, and leaves the synced slots as they were.
   */
  lemma GaveAppends(users: map<string, UserRecord>, targetId: string, roles: seq<RoleId>, cfg: BotConfig, emote: string)
    requires Reply(users, targetId, true, emote) == Gave
    requires Distinct(users[targetId].emotes.given)
    ensures GaveRecord(users[targetId], cfg, roles, emote).emotes.given == users[targetId].emotes.given + [emote]
    ensures Distinct(GaveRecord(users[targetId], cfg, roles, emote).emotes.given)
    ensures GaveRecord(users[targetId], cfg, roles, emote).emotes.slots == UpdatedSlots(users[targetId], cfg, roles)
  {
    GivenSpec(users[targetId].emotes.given, emote);
  }
}
