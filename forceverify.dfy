/**
 * `/forceverify user username [cata_level] [api_check] [bypass_discord]`: a
 * staff copy of `/verify`. With `api_check` false it takes the level from the
 * caller and only adds roles; otherwise it runs the same tiers and role steps
 * as `/verify`, with the Discord checks optional and the level overridable.
 */
module ForceVerifyCommand {
  import opened Wrappers
  import opened RoleLists
  import opened Config
  import opened Schema
  import opened Discord
  import Functions
  import VM = VerificationManager
  import VC = VerifyCommand

  datatype ForceReply =
    | UnknownUser            // the Mojang lookup failed
    | NotInServer            // the target cannot be fetched
    | MissingLevel           // manual mode without a non-zero level
    | BadLevel               // manual mode with a level outside 0..60
    | ManualVerified
    | ApiError               // the player or the profiles request threw
    | NoLinkedDiscord
    | TagMismatch
    | Verified(d: VM.Dungeons)
    | Crashed                // computing the level of the chosen profile threw

  /**
   * The stats with `cata_level ?? computed`: a given level replaces the
   * profile's, and the profile's level is then not computed at all.
   */
  function ForcedDungeons(choice: Option<Functions.Profile>, uuid: string, secrets: int, level: Option<int>): Option<VM.Dungeons>
    requires choice.Some? ==> uuid in choice.value.members
  {
    if level.None? then VC.ProfileDungeons(choice, uuid, secrets)
    else if choice.None? then Some(VM.Dungeons(level.value, secrets, 0, 0, 0, 0))
    else
      var m := choice.value.members[uuid];
      Some(VM.Dungeons(level.value, secrets, m.killsUndead + m.killsSkeleton + m.killsMasterUndead,
        m.floorSevenSPlus, m.masterFiveSPlus, m.masterSixSPlus))
  }

  /**
   * A given level is used as it is, with no range check, and nothing throws;
   * the other stats are those `/verify` computes, which are used unchanged
   * when no level is given.
   */
  lemma OverrideUsed(choice: Option<Functions.Profile>, uuid: string, secrets: int, level: Option<int>)
    requires choice.Some? ==> uuid in choice.value.members
    ensures level.Some? ==> ForcedDungeons(choice, uuid, secrets, level).Some? && ForcedDungeons(choice, uuid, secrets, level).value.cataLevel == level.value
    ensures level.Some? && VC.ProfileDungeons(choice, uuid, secrets).Some? ==>
      ForcedDungeons(choice, uuid, secrets, level) == Some(VC.ProfileDungeons(choice, uuid, secrets).value.(cataLevel := level.value))
    ensures level.None? ==> ForcedDungeons(choice, uuid, secrets, level) == VC.ProfileDungeons(choice, uuid, secrets)
  {
  }

  /**
   * An overriding level outside 30..60 (the range check is missing) leaves
   * the member with no cata role at all.
   */
  lemma OverrideOutOfBand(roles: seq<RoleId>, d: VM.Dungeons, cfg: BotConfig)
    requires ValidConfig(cfg) && Distinct(roles)
    requires d.cataLevel < 30 || d.cataLevel > 60
    ensures forall r :: r in VC.CommandRolesFor(roles, d, cfg) ==> r !in CataRoleSet(cfg)
  {
    var t := VC.CommandTiers(d, cfg.votedOut in roles, cfg.plusReq in roles);
    VC.CommandCata(roles, t, d.cataLevel, cfg);
  }

  /** Manual mode's nickname: "❮L❯ name", the symbol chosen on the final list. */
  function ManualNickname(roles: seq<RoleId>, level: int, name: string, cfg: BotConfig): string
    requires CataKeys(cfg.cata)
  {
    VC.PlainNickname(level, name, VM.LastSymbol(cfg.symbols, VM.ManualRoles(roles, level, cfg)))
  }

  /**
   * The command. A failed Mojang lookup or a target outside the guild changes
   * nothing. Manual mode (only when `api_check` is given as false) refuses a
   * missing or zero level and a level outside 0..60 before any write. Every
   * other path first inserts the target's record when missing, even when a
   * Discord check then refuses; `bypass_discord` skips both checks.
   */
  method Execute(store: UserStore, guild: map<string, Member>, targetId: string, cfg: BotConfig,
    account: Option<VM.Account>, level: Option<int>, apiCheck: Option<bool>, bypassDiscord: bool,
    player: Option<VM.Player>, profiles: VC.ProfilesFetch)
    returns (r: ForceReply)
    requires ValidConfig(cfg) && GuildIds(guild)
    requires targetId in guild ==> Distinct(guild[targetId].roles)
    modifies store, guild.Values
    ensures account.None? ==> r == UnknownUser
    ensures account.Some? && targetId !in guild ==> r == NotInServer
    ensures r == UnknownUser || r == NotInServer || r == MissingLevel || r == BadLevel ==> store.users == old(store.users)
    ensures forall id :: id in guild && id != targetId ==> guild[id].roles == old(guild[id].roles) && guild[id].nick == old(guild[id].nick)
    ensures account.Some? && targetId in guild && apiCheck == Some(false) ==>
      var m := guild[targetId];
      && (level.None? || level == Some(0) ==> r == MissingLevel)
      && (level.Some? && level.value != 0 && (level.value < 0 || level.value > 60) ==> r == BadLevel)
      && (level.Some? && 1 <= level.value <= 60 ==>
        && r == ManualVerified
        && store.users == VC.Registered(old(store.users), targetId, account.value.id)
        && m.roles == VM.ManualRoles(old(m.roles), level.value, cfg)
        && m.nick == if m.manageable then Some(ManualNickname(old(m.roles), level.value, account.value.name, cfg)) else old(m.nick))
    ensures account.Some? && targetId in guild && apiCheck != Some(false) ==>
      var m := guild[targetId];
      && store.users == VC.Registered(old(store.users), targetId, account.value.id)
      && (VC.CommandTag(player).None? ==> r == ApiError)
      && (!bypassDiscord && VC.CommandTag(player) == Some("") ==> r == NoLinkedDiscord)
      && (!bypassDiscord && VC.CommandTag(player).Some? && VC.CommandTag(player).value != "" && VC.CommandTag(player).value != m.tag ==> r == TagMismatch)
      && (VC.TagPasses(VC.CommandTag(player), m.tag, bypassDiscord) && profiles.FetchFailed? ==> r == ApiError)
      && (VC.TagPasses(VC.CommandTag(player), m.tag, bypassDiscord) && profiles.Fetched? ==> r.Verified? || r == Crashed)
      && (r.Verified? || r == Crashed ==>
        && VC.TagPasses(VC.CommandTag(player), m.tag, bypassDiscord) && profiles.Fetched?
        && (exists choice ::
          && VC.LatestChoice(profiles.list, account.value.id, choice)
          && (choice.Some? ==> account.value.id in choice.value.members)
          && ForcedDungeons(choice, account.value.id, player.value.secrets, level) == (if r.Verified? then Some(r.d) else None)))
      && (r.Verified? ==>
        && m.roles == VC.CommandRolesFor(old(m.roles), r.d, cfg)
        && m.nick == if m.manageable then Some(VC.CommandNicknameFor(old(m.roles), r.d, account.value.name, cfg)) else old(m.nick))
    ensures !r.Verified? && r != ManualVerified ==>
      targetId in guild ==> guild[targetId].roles == old(guild[targetId].roles) && guild[targetId].nick == old(guild[targetId].nick)
  {
    if account.None? {
      return UnknownUser;
    }
    var fetched := Find(guild, targetId);
    if fetched.None? {
      return NotInServer;
    }
    var member := fetched.value;
    if apiCheck == Some(false) {
      r := Manual(store, member, cfg, account.value, level);
    } else {
      r := Full(store, member, cfg, account.value, level, bypassDiscord, player, profiles);
    }
  }

  /** Manual mode: the level checks, the record write, the added roles and the nickname. */
  method Manual(store: UserStore, member: Member, cfg: BotConfig, account: VM.Account, level: Option<int>)
    returns (r: ForceReply)
    requires ValidConfig(cfg) && Distinct(member.roles)
    modifies store, member
    ensures level.None? || level == Some(0) ==> r == MissingLevel
    ensures level.Some? && level.value != 0 && (level.value < 0 || level.value > 60) ==> r == BadLevel
    ensures r == MissingLevel || r == BadLevel ==>
      store.users == old(store.users) && member.roles == old(member.roles) && member.nick == old(member.nick)
    ensures level.Some? && 1 <= level.value <= 60 ==>
      && r == ManualVerified
      && store.users == VC.Registered(old(store.users), member.id, account.id)
      && member.roles == VM.ManualRoles(old(member.roles), level.value, cfg)
      && member.nick == if member.manageable then Some(ManualNickname(old(member.roles), level.value, account.name, cfg)) else old(member.nick)
  {
    if level.None? || level.value == 0 {
      return MissingLevel;
    }
    var l := level.value;
    if l < 0 || l > 60 {
      return BadLevel;
    }
    VC.Register(store, member.id, account.id);
    var roles := member.roles;
    var finalRoles := VM.AddManualRoles(roles, l, cfg);
    var symbol := VM.ChooseSymbol(cfg.symbols, finalRoles);
    var nickname := VC.PlainNickname(l, account.name, symbol);
    VM.ManualOnlyAdds(roles, l, cfg);
    DedupDistinct(finalRoles);
    member.Edit(finalRoles, if member.manageable then SetNick(nickname) else KeepNick);
    return ManualVerified;
  }

  /** The full path: the record write, the Discord guards, then `FullFinish`. */
  method Full(store: UserStore, member: Member, cfg: BotConfig, account: VM.Account, level: Option<int>, bypassDiscord: bool,
    player: Option<VM.Player>, profiles: VC.ProfilesFetch)
    returns (r: ForceReply)
    requires ValidConfig(cfg) && Distinct(member.roles)
    modifies store, member
    ensures store.users == VC.Registered(old(store.users), member.id, account.id)
    ensures VC.CommandTag(player).None? ==> r == ApiError
    ensures !bypassDiscord && VC.CommandTag(player) == Some("") ==> r == NoLinkedDiscord
    ensures !bypassDiscord && VC.CommandTag(player).Some? && VC.CommandTag(player).value != "" && VC.CommandTag(player).value != member.tag ==> r == TagMismatch
    ensures VC.TagPasses(VC.CommandTag(player), member.tag, bypassDiscord) && profiles.FetchFailed? ==> r == ApiError
    ensures VC.TagPasses(VC.CommandTag(player), member.tag, bypassDiscord) && profiles.Fetched? ==> r.Verified? || r == Crashed
    ensures r.Verified? || r == Crashed ==>
      && VC.TagPasses(VC.CommandTag(player), member.tag, bypassDiscord) && profiles.Fetched?
      && (exists choice ::
        && VC.LatestChoice(profiles.list, account.id, choice)
        && (choice.Some? ==> account.id in choice.value.members)
        && ForcedDungeons(choice, account.id, player.value.secrets, level) == (if r.Verified? then Some(r.d) else None))
    ensures r.Verified? ==>
      && member.roles == VC.CommandRolesFor(old(member.roles), r.d, cfg)
      && member.nick == if member.manageable then Some(VC.CommandNicknameFor(old(member.roles), r.d, account.name, cfg)) else old(member.nick)
    ensures !r.Verified? ==> member.roles == old(member.roles) && member.nick == old(member.nick)
    ensures r != ManualVerified
  {
    VC.Register(store, member.id, account.id);
    var discord := VC.CommandTag(player);
    if discord.None? {
      return ApiError;
    }
    if discord.value == "" && !bypassDiscord {
      return NoLinkedDiscord;
    }
    if discord.value != member.tag && !bypassDiscord {
      return TagMismatch;
    }
    r := FullFinish(member, cfg, account, player.value.secrets, level, profiles);
  }

  /** The profiles request, the stats with the level override, and the same edit as `/verify`. */
  method FullFinish(member: Member, cfg: BotConfig, account: VM.Account, secrets: int, level: Option<int>, profiles: VC.ProfilesFetch)
    returns (r: ForceReply)
    requires ValidConfig(cfg) && Distinct(member.roles)
    modifies member
    ensures profiles.FetchFailed? ==> r == ApiError
    ensures profiles.Fetched? ==> r.Verified? || r == Crashed
    ensures r.Verified? || r == Crashed ==>
      && profiles.Fetched?
      && (exists choice ::
        && VC.LatestChoice(profiles.list, account.id, choice)
        && (choice.Some? ==> account.id in choice.value.members)
        && ForcedDungeons(choice, account.id, secrets, level) == (if r.Verified? then Some(r.d) else None))
    ensures r.Verified? ==>
      && member.roles == VC.CommandRolesFor(old(member.roles), r.d, cfg)
      && member.nick == if member.manageable then Some(VC.CommandNicknameFor(old(member.roles), r.d, account.name, cfg)) else old(member.nick)
    ensures !r.Verified? ==> member.roles == old(member.roles) && member.nick == old(member.nick)
  {
    if profiles.FetchFailed? {
      return ApiError;
    }
    var choice := Functions.HighestCataProfile(profiles.list, account.id);
    if choice.Some? {
      var k :| Functions.IsLatestAt(profiles.list.value, account.id, k) && profiles.list.value[k] == choice.value;
    }
    var d := ForcedDungeons(choice, account.id, secrets, level);
    assert VC.LatestChoice(profiles.list, account.id, choice);
    if d.None? {
      return Crashed;
    }
    VC.EditMember(member, cfg, d.value, account.name);
    return Verified(d.value);
  }
}
