/**
 * `/verify username`, which `/update` forwards to: the command's own copy of
 * the verification steps. Its thresholds differ from the engine's, plus
 * excludes normal and minus instead of forcing normal, and the role list
 * pushes the top role earned and then removes the first top role present,
 * which takes back what was just pushed.
 */
module VerifyCommand {
  import opened Wrappers
  import opened Text
  import opened RoleLists
  import opened Config
  import opened Schema
  import opened Discord
  import Functions
  import VM = VerificationManager

  // ---------------------------------------------------------------- tiers

  /** The flags `tpp`, `tp` and `tpm`. */
  datatype Tiers = Tiers(plus: bool, normal: bool, minus: bool)

  /** The stats part of the Top Player + check: 20000 secrets here, not the engine's 50000. */
  predicate PlusStats(d: VM.Dungeons)
  {
    (d.secrets >= 20000 || d.bloodMobs >= 45000) && d.cataLevel >= 48 && VM.Within(d.masterSix, 195000)
  }

  /** The Top Player check: strictly more than 30000 secrets. */
  predicate NormalStats(d: VM.Dungeons)
  {
    d.cataLevel >= 45 && d.secrets > 30000
    && (VM.Within(d.floorSeven, 225000) || VM.Within(d.masterFive, 150000) || VM.Within(d.masterSix, 225000))
  }

  /** The Top Player - check: strictly more than 20000 secrets. */
  predicate MinusStats(d: VM.Dungeons)
  {
    d.cataLevel >= 42 && d.secrets > 20000 && (VM.Within(d.floorSeven, 260000) || VM.Within(d.masterFive, 165000))
  }

  /** The command's tiers: normal only without plus, minus only without both, and no cascade afterwards. */
  function CommandTiers(d: VM.Dungeons, votedOut: bool, plusReq: bool): Tiers
  {
    var plus := (PlusStats(d) && !votedOut) || plusReq;
    var normal := !plus && NormalStats(d);
    Tiers(plus, normal, !plus && !normal && MinusStats(d))
  }

  /** The tier computation as the command writes it. */
  method ComputeTiers(d: VM.Dungeons, votedOut: bool, plusReq: bool) returns (t: Tiers)
    ensures t == CommandTiers(d, votedOut, plusReq)
  {
    var tpp, tp, tpm := false, false, false;
    if (d.secrets >= 20000 || d.bloodMobs >= 45000) && d.cataLevel >= 48 && d.masterSix != 0 {
      if d.masterSix <= 195000 && !votedOut {
        tpp := true;
      }
    }
    if plusReq {
      tpp := true;
    }
    if !tpp && d.cataLevel >= 45 && d.secrets > 30000 && (d.floorSeven != 0 || d.masterFive != 0 || d.masterSix != 0) {
      if d.floorSeven != 0 && d.floorSeven <= 225000 {
        tp := true;
      }
      if d.masterFive != 0 && d.masterFive <= 150000 {
        tp := true;
      }
      if d.masterSix != 0 && d.masterSix <= 225000 {
        tp := true;
      }
    }
    if (!tp && !tpp) && d.cataLevel >= 42 && d.secrets > 20000 && (d.floorSeven != 0 || d.masterFive != 0) {
      if d.floorSeven != 0 && d.floorSeven <= 260000 {
        tpm := true;
      }
      if d.masterFive != 0 && d.masterFive <= 165000 {
        tpm := true;
      }
    }
    t := Tiers(tpp, tp, tpm);
  }

  /** At most one tier holds; plusReq grants plus and votedOut blocks it otherwise. */
  lemma TiersExclusive(d: VM.Dungeons, votedOut: bool, plusReq: bool)
    ensures var t := CommandTiers(d, votedOut, plusReq);
      && !(t.plus && t.normal) && !(t.plus && t.minus) && !(t.normal && t.minus)
      && (plusReq ==> t.plus)
      && (votedOut && !plusReq ==> !t.plus)
  {
  }

  /**
   * The command and the engine disagree: 20000 secrets earn plus here but not
   * in the engine, which also forces normal with plus; exactly 30000 secrets
   * earn normal in the engine but not here.
   */
  lemma ThresholdsDiffer()
    ensures var d := VM.Dungeons(48, 20000, 0, 0, 0, 195000);
      && CommandTiers(d, false, false).plus && !CommandTiers(d, false, false).normal
      && !VM.EngineFlags(d, false, false).plus
    ensures var d := VM.Dungeons(48, 60000, 0, 0, 0, 195000);
      VM.EngineFlags(d, false, false).plus && VM.EngineFlags(d, false, false).normal && !CommandTiers(d, false, false).normal
    ensures var d := VM.Dungeons(45, 30000, 0, 225000, 0, 0);
      VM.EngineFlags(d, false, false).normal && !CommandTiers(d, false, false).normal
  {
  }

  // ---------------------------------------------------------------- roles

  /** `if (c && !roles.includes(x)) roles.push(x)`. */
  function Push(roles: seq<RoleId>, c: bool, x: RoleId): seq<RoleId>
  {
    if c then AddIfAbsent(roles, x) else roles
  }

  /** The three tier pushes, made before anything is removed. */
  function Pushes(roles: seq<RoleId>, t: Tiers, cfg: BotConfig): seq<RoleId>
  {
    Push(Push(Push(roles, t.plus, cfg.topPlus), t.normal, cfg.topNormal), t.minus, cfg.topMinus)
  }

  /**
   * The else-if chain after the cata removal: the first of plus, normal and
   * minus that is present is removed, whichever tier was just pushed.
   */
  function TopDropped(a: seq<RoleId>, cfg: BotConfig): seq<RoleId>
  {
    if cfg.topPlus in a then RemoveFirst(a, cfg.topPlus)
    else if cfg.topNormal in a then RemoveFirst(a, cfg.topNormal)
    else if cfg.topMinus in a then RemoveFirst(a, cfg.topMinus)
    else a
  }

  /** Which top role the chain removes: none, or the first present. */
  function DroppedSet(a: seq<RoleId>, cfg: BotConfig): set<RoleId>
  {
    if cfg.topPlus in a then {cfg.topPlus}
    else if cfg.topNormal in a then {cfg.topNormal}
    else if cfg.topMinus in a then {cfg.topMinus}
    else {}
  }

  /** Whether any tier holds: it picks the exact-level cata role for levels 40..60. */
  predicate AnyTier(t: Tiers)
  {
    t.plus || t.normal || t.minus
  }

  /** The list before the member role: pushed, cata roles removed, first top role removed, level role pushed. */
  function CommandBase(roles: seq<RoleId>, t: Tiers, level: int, cfg: BotConfig): seq<RoleId>
    requires CataKeys(cfg.cata)
  {
    TopDropped(FilterOut(Pushes(roles, t, cfg), CataRoleSet(cfg)), cfg) + VM.LevelRoles(cfg, level, AnyTier(t))
  }

  /** The role list the command edits in. */
  function CommandRoles(roles: seq<RoleId>, t: Tiers, level: int, cfg: BotConfig): seq<RoleId>
    requires CataKeys(cfg.cata)
  {
    AddIfAbsent(CommandBase(roles, t, level, cfg), cfg.memberRole)
  }

  /** The command's role list for these stats, reading the votedOut and plusReq roles before. */
  function CommandRolesFor(roles: seq<RoleId>, d: VM.Dungeons, cfg: BotConfig): seq<RoleId>
    requires CataKeys(cfg.cata)
  {
    CommandRoles(roles, CommandTiers(d, cfg.votedOut in roles, cfg.plusReq in roles), d.cataLevel, cfg)
  }

  /** "❮L❯ name" with no emote suffix; a truthy symbol replaces every bracket. */
  function PlainNickname(level: int, name: string, symbol: Option<string>): string
  {
    var plain := "❮" + IntToString(level) + "❯ " + name;
    if symbol.Some? && Truthy(symbol.value) then ReplaceBrackets(plain, symbol.value) else plain
  }

  /** The nickname: the symbol is chosen before the member role is added. */
  function CommandNicknameFor(roles: seq<RoleId>, d: VM.Dungeons, name: string, cfg: BotConfig): string
    requires CataKeys(cfg.cata)
  {
    var t := CommandTiers(d, cfg.votedOut in roles, cfg.plusReq in roles);
    PlainNickname(d.cataLevel, name, VM.LastSymbol(cfg.symbols, CommandBase(roles, t, d.cataLevel, cfg)))
  }

  /** The three pushes, written out. */
  method PushTiers(roles: seq<RoleId>, t: Tiers, cfg: BotConfig) returns (a: seq<RoleId>)
    ensures a == Pushes(roles, t, cfg)
  {
    a := roles;
    if t.plus && !(cfg.topPlus in a) {
      a := a + [cfg.topPlus];
    }
    if t.normal && !(cfg.topNormal in a) {
      a := a + [cfg.topNormal];
    }
    if t.minus && !(cfg.topMinus in a) {
      a := a + [cfg.topMinus];
    }
  }

  /** The else-if chain of splices. */
  method RemoveTop(a: seq<RoleId>, cfg: BotConfig) returns (b: seq<RoleId>)
    ensures b == TopDropped(a, cfg)
  {
    if cfg.topPlus in a {
      b := RemoveFirst(a, cfg.topPlus);
    } else if cfg.topNormal in a {
      b := RemoveFirst(a, cfg.topNormal);
    } else if cfg.topMinus in a {
      b := RemoveFirst(a, cfg.topMinus);
    } else {
      b := a;
    }
  }

  /** The pushes add exactly the flagged top roles and keep a list duplicate-free. */
  lemma PushesMembers(roles: seq<RoleId>, t: Tiers, cfg: BotConfig)
    requires Distinct(roles)
    ensures Distinct(Pushes(roles, t, cfg))
    ensures forall y :: y in Pushes(roles, t, cfg) <==>
      (|| y in roles
       || (t.plus && y == cfg.topPlus) || (t.normal && y == cfg.topNormal) || (t.minus && y == cfg.topMinus))
  {
    var a := Push(roles, t.plus, cfg.topPlus);
    var b := Push(a, t.normal, cfg.topNormal);
    var c := Push(b, t.minus, cfg.topMinus);
    PushStep(roles, t.plus, cfg.topPlus);
    PushStep(a, t.normal, cfg.topNormal);
    PushStep(b, t.minus, cfg.topMinus);
  }

  /** One guarded push: membership and distinctness. */
  lemma PushStep(s: seq<RoleId>, c: bool, x: RoleId)
    requires Distinct(s)
    ensures Distinct(Push(s, c, x))
    ensures forall y :: y in Push(s, c, x) <==> y in s || (c && y == x)
  {
    if c {
      VM.AddIfAbsentDistinct(s, x);
      forall y ensures y in AddIfAbsent(s, x) <==> y in s || y == x {
        assert y in AddIfAbsent(s, x) <==> y in ToSet(AddIfAbsent(s, x));
        assert y in s <==> y in ToSet(s);
      }
    }
  }

  /** On a duplicate-free list the chain removes exactly `DroppedSet`. */
  lemma TopDroppedFilter(a: seq<RoleId>, cfg: BotConfig)
    requires Distinct(a)
    ensures TopDropped(a, cfg) == FilterOut(a, DroppedSet(a, cfg))
    ensures Distinct(TopDropped(a, cfg))
  {
    if cfg.topPlus in a {
      RemoveFirstDistinct(a, cfg.topPlus);
    } else if cfg.topNormal in a {
      RemoveFirstDistinct(a, cfg.topNormal);
    } else if cfg.topMinus in a {
      RemoveFirstDistinct(a, cfg.topMinus);
    } else {
      FilterOutAbsent(a, {});
    }
  }

  /**
   * Membership in the command's list: the member role, the level role, or a
   * role of the pushed list that is not a cata role and not the top role the
   * chain removes.
   */
  lemma CommandMembers(roles: seq<RoleId>, t: Tiers, level: int, cfg: BotConfig, y: RoleId)
    requires ValidConfig(cfg) && Distinct(roles)
    ensures var f := FilterOut(Pushes(roles, t, cfg), CataRoleSet(cfg));
      y in CommandRoles(roles, t, level, cfg) <==>
        (|| y == cfg.memberRole || y in VM.LevelRoles(cfg, level, AnyTier(t))
         || (y in f && y !in DroppedSet(f, cfg)))
  {
    var p := Pushes(roles, t, cfg);
    var f := FilterOut(p, CataRoleSet(cfg));
    PushesMembers(roles, t, cfg);
    FilterOutDistinct(p, CataRoleSet(cfg));
    TopDroppedFilter(f, cfg);
    var base := CommandBase(roles, t, level, cfg);
    assert y in CommandRoles(roles, t, level, cfg) <==> y in ToSet(CommandRoles(roles, t, level, cfg));
    assert y in base <==> y in ToSet(base);
  }

  /** No top role is a cata role, and the level role is none of them. */
  lemma TopNotCata(cfg: BotConfig, level: int, exact: bool)
    requires ValidConfig(cfg)
    ensures cfg.topPlus !in CataRoleSet(cfg) && cfg.topNormal !in CataRoleSet(cfg) && cfg.topMinus !in CataRoleSet(cfg)
    ensures cfg.topPlus !in VM.LevelRoles(cfg, level, exact) && cfg.topNormal !in VM.LevelRoles(cfg, level, exact)
    ensures cfg.topMinus !in VM.LevelRoles(cfg, level, exact)
  {
    forall e | e in cfg.cata ensures e.role !in TopRoles(cfg) {
      var k :| 0 <= k < |cfg.cata| && cfg.cata[k] == e;
    }
    VM.LevelRolesCata(cfg, level, exact);
  }

  /**
   * The remove-after-add step: plus never survives; normal survives only when
   * plus was also in the pushed list; minus only when plus or normal was.
   * (A role is in the pushed list when the member had it or its tier holds.)
   */
  lemma CommandTopRoles(roles: seq<RoleId>, t: Tiers, level: int, cfg: BotConfig)
    requires ValidConfig(cfg) && Distinct(roles)
    ensures var out := CommandRoles(roles, t, level, cfg);
      var plusIn := cfg.topPlus in roles || t.plus;
      var normalIn := cfg.topNormal in roles || t.normal;
      var minusIn := cfg.topMinus in roles || t.minus;
      && cfg.topPlus !in out
      && (cfg.topNormal in out <==> plusIn && normalIn)
      && (cfg.topMinus in out <==> minusIn && (plusIn || normalIn))
  {
    var p := Pushes(roles, t, cfg);
    var f := FilterOut(p, CataRoleSet(cfg));
    PushesMembers(roles, t, cfg);
    TopNotCata(cfg, level, AnyTier(t));
    assert cfg.topPlus in f <==> cfg.topPlus in roles || t.plus;
    assert cfg.topNormal in f <==> cfg.topNormal in roles || t.normal;
    assert cfg.topMinus in f <==> cfg.topMinus in roles || t.minus;
    CommandMembers(roles, t, level, cfg, cfg.topPlus);
    CommandMembers(roles, t, level, cfg, cfg.topNormal);
    CommandMembers(roles, t, level, cfg, cfg.topMinus);
  }

  /**
   * A member who has no top role ends with none, whatever the stats: the one
   * tier that can hold is pushed and then removed by the chain.
   */
  lemma TopRoleCancelled(roles: seq<RoleId>, d: VM.Dungeons, cfg: BotConfig)
    requires ValidConfig(cfg) && Distinct(roles)
    requires cfg.topPlus !in roles && cfg.topNormal !in roles && cfg.topMinus !in roles
    ensures var out := CommandRolesFor(roles, d, cfg);
      cfg.topPlus !in out && cfg.topNormal !in out && cfg.topMinus !in out
  {
    var t := CommandTiers(d, cfg.votedOut in roles, cfg.plusReq in roles);
    TiersExclusive(d, cfg.votedOut in roles, cfg.plusReq in roles);
    CommandTopRoles(roles, t, d.cataLevel, cfg);
  }

  /**
   * Every role outside the cata, top and member roles is kept or left out as
   * it was; in particular speedRunner and secretDuper are never added or removed.
   */
  lemma CommandKeeps(roles: seq<RoleId>, t: Tiers, level: int, cfg: BotConfig, x: RoleId)
    requires ValidConfig(cfg) && Distinct(roles)
    requires x !in CataRoleSet(cfg) + TopRoles(cfg) + {cfg.memberRole}
    ensures x in CommandRoles(roles, t, level, cfg) <==> x in roles
  {
    PushesMembers(roles, t, cfg);
    VM.LevelRolesCata(cfg, level, AnyTier(t));
    CommandMembers(roles, t, level, cfg, x);
  }

  /** The badge roles are not touched. */
  lemma BadgesUntouched(roles: seq<RoleId>, t: Tiers, level: int, cfg: BotConfig)
    requires ValidConfig(cfg) && Distinct(roles)
    ensures cfg.speedRunner in CommandRoles(roles, t, level, cfg) <==> cfg.speedRunner in roles
    ensures cfg.secretDuper in CommandRoles(roles, t, level, cfg) <==> cfg.secretDuper in roles
  {
    CataNotBadge(cfg);
    CommandKeeps(roles, t, level, cfg, cfg.speedRunner);
    CommandKeeps(roles, t, level, cfg, cfg.secretDuper);
  }

  /** The badge roles are not cata roles. */
  lemma CataNotBadge(cfg: BotConfig)
    requires ValidConfig(cfg)
    ensures cfg.speedRunner !in CataRoleSet(cfg) && cfg.secretDuper !in CataRoleSet(cfg)
  {
    forall e | e in cfg.cata ensures e.role != cfg.speedRunner && e.role != cfg.secretDuper {
      var k :| 0 <= k < |cfg.cata| && cfg.cata[k] == e;
    }
  }

  /**
   * The member role is always present, and the cata roles in the output are
   * exactly the level role: none below 30 or above 60, cata30 for 30..34,
   * cata35 for 35..39, and for 40..60 cata35 when no tier holds, else the
   * exact-level role.
   */
  lemma CommandCata(roles: seq<RoleId>, t: Tiers, level: int, cfg: BotConfig)
    requires ValidConfig(cfg) && Distinct(roles)
    ensures var out := CommandRoles(roles, t, level, cfg);
      && cfg.memberRole in out
      && (forall r :: r in out && r in CataRoleSet(cfg) ==> r in VM.LevelRoles(cfg, level, AnyTier(t)))
      && (forall r :: r in VM.LevelRoles(cfg, level, AnyTier(t)) ==> r in out)
  {
    var out := CommandRoles(roles, t, level, cfg);
    CommandMembers(roles, t, level, cfg, cfg.memberRole);
    forall r | r in out && r in CataRoleSet(cfg) ensures r in VM.LevelRoles(cfg, level, AnyTier(t)) {
      CommandMembers(roles, t, level, cfg, r);
      MemberNotManaged(cfg);
    }
    forall r | r in VM.LevelRoles(cfg, level, AnyTier(t)) ensures r in out {
      CommandMembers(roles, t, level, cfg, r);
    }
  }

  /** The command's list holds every role once. */
  lemma CommandRolesDistinct(roles: seq<RoleId>, t: Tiers, level: int, cfg: BotConfig)
    requires ValidConfig(cfg) && Distinct(roles)
    ensures Distinct(CommandRoles(roles, t, level, cfg))
  {
    var p := Pushes(roles, t, cfg);
    var f := FilterOut(p, CataRoleSet(cfg));
    PushesMembers(roles, t, cfg);
    FilterOutDistinct(p, CataRoleSet(cfg));
    TopDroppedFilter(f, cfg);
    var lr := VM.LevelRoles(cfg, level, AnyTier(t));
    VM.LevelRolesCata(cfg, level, AnyTier(t));
    forall r | r in lr ensures r !in TopDropped(f, cfg) {
    }
    AppendDistinct(TopDropped(f, cfg), lr);
    VM.AddIfAbsentDistinct(CommandBase(roles, t, level, cfg), cfg.memberRole);
  }

  /** Without a symbol the nickname is "❮L❯ name"; a symbol with no brackets and no `$` removes them all. */
  lemma PlainNicknameShape(level: int, name: string, symbol: Option<string>)
    ensures !(symbol.Some? && Truthy(symbol.value)) ==> PlainNickname(level, name, symbol) == "❮" + IntToString(level) + "❯ " + name
    ensures symbol.Some? && Truthy(symbol.value) && '❮' !in symbol.value && '❯' !in symbol.value && '$' !in symbol.value ==>
      '❮' !in PlainNickname(level, name, symbol) && '❯' !in PlainNickname(level, name, symbol)
  {
    if symbol.Some? && Truthy(symbol.value) && '❮' !in symbol.value && '❯' !in symbol.value && '$' !in symbol.value {
      VM.ReplaceBracketsRemovesAll("❮" + IntToString(level) + "❯ " + name, symbol.value);
    }
  }

  /** The roles and nickname, computed step by step, then `member.edit`. */
  method EditMember(member: Member, cfg: BotConfig, d: VM.Dungeons, name: string)
    requires ValidConfig(cfg) && Distinct(member.roles)
    modifies member
    ensures member.roles == CommandRolesFor(old(member.roles), d, cfg)
    ensures member.nick == if member.manageable then Some(CommandNicknameFor(old(member.roles), d, name, cfg)) else old(member.nick)
  {
    var roles := member.roles;
    var t := ComputeTiers(d, cfg.votedOut in roles, cfg.plusReq in roles);
    var a := PushTiers(roles, t, cfg);
    PushesMembers(roles, t, cfg);
    a := VM.RemoveCata(a, cfg);
    a := RemoveTop(a, cfg);
    a := VM.PushLevelRole(a, d.cataLevel, t.plus || t.normal || t.minus, cfg);
    var symbol := VM.ChooseSymbol(cfg.symbols, a);
    var nickname := PlainNickname(d.cataLevel, name, symbol);
    if !(cfg.memberRole in a) {
      a := a + [cfg.memberRole];
    }
    CommandRolesDistinct(roles, t, d.cataLevel, cfg);
    DedupDistinct(a);
    member.Edit(a, if member.manageable then SetNick(nickname) else KeepNick);
  }

  // ---------------------------------------------------------------- the command

  /** The profiles request: it throws, or answers with a list (`None` for null). */
  datatype ProfilesFetch = FetchFailed | Fetched(list: Option<seq<Functions.Profile>>)

  /** The command's replies. */
  datatype VerifyReply =
    | UnknownUser            // the Mojang lookup failed
    | ApiError               // the player or the profiles request threw
    | NoLinkedDiscord        // the player links no Discord
    | TagMismatch            // it links another tag
    | Verified(d: VM.Dungeons)
    | Crashed                // computing the level of the chosen profile threw, outside any try

  /** The records after the write: a fresh record under the member's id, or the old ones unchanged. */
  function Registered(users: map<string, UserRecord>, id: string, uuid: string): (r: map<string, UserRecord>)
    ensures id in r
    ensures id in users ==> r == users
    ensures id !in users ==> r == users[id := UserSchema(id, uuid)]
  {
    if id in users then users else users[id := UserSchema(id, uuid)]
  }

  /** `getUserByDiscord`, then `addUser(userSchema(...))` when missing or `updateUser` of the same record. */
  method Register(store: UserStore, id: string, uuid: string)
    modifies store
    ensures store.users == Registered(old(store.users), id, uuid)
  {
    var user := Find(store.users, id);
    if user.None? {
      store.users := store.users[id := UserSchema(id, uuid)];
    }
  }

  /** The outcome of `highestCataProfile` on a fetched list, as its contract states it. */
  ghost predicate LatestChoice(list: Option<seq<Functions.Profile>>, uuid: string, choice: Option<Functions.Profile>)
  {
    && (list.None? ==> choice.None?)
    && (list.Some? && !Functions.AllHaveMember(list.value, uuid) ==> choice.None?)
    && (list.Some? && Functions.AllHaveMember(list.value, uuid) ==>
      (choice.Some? <==> exists k :: 0 <= k < |list.value| && list.value[k].members[uuid].lastSave != 0))
    && (choice.Some? ==> (list.Some? && Functions.AllHaveMember(list.value, uuid)
      && exists k :: Functions.IsLatestAt(list.value, uuid, k) && list.value[k] == choice.value))
  }

  /** The stats of the chosen profile, or of no profile; `None` when the level computation throws. */
  function ProfileDungeons(choice: Option<Functions.Profile>, uuid: string, secrets: int): Option<VM.Dungeons>
    requires choice.Some? ==> uuid in choice.value.members
  {
    if choice.None? then Some(VM.NoProfileDungeons(secrets))
    else VM.MemberDungeons(choice.value.members[uuid], secrets)
  }

  /**
   * The commands' reading `player.socialMedia?.links.DISCORD ?? player.socialMedia?.DISCORD`
   * inside the request's `try`, with "" for an absent tag. It is `None` when the
   * request fails, and also when `socialMedia` has no `links`: `.DISCORD` then
   * throws and the `catch` replies with the API error. The engine reads `links?.DISCORD`.
   */
  function CommandTag(player: Option<VM.Player>): (r: Option<string>)
    ensures r.Some? ==> player.Some?
    ensures r.None? <==> player.None? || (player.value.social.SocialMedia? && player.value.social.links.NoLinks?)
  {
    if player.None? then None
    else match player.value.social
      case NoSocialMedia => Some("")
      case SocialMedia(links, direct) =>
        if links.NoLinks? then None
        else Some(if links.linked.Some? then links.linked.value else if direct.Some? then direct.value else "")
  }

  /** Whenever the commands' reading does not throw, it is the engine's. */
  lemma CommandTagAgrees(player: VM.Player)
    requires !(player.social.SocialMedia? && player.social.links.NoLinks?)
    ensures CommandTag(Some(player)) == Some(player.discord)
  {
  }

  /** `socialMedia = {DISCORD: tag}` links the tag for the engine, but the commands throw on it. */
  lemma CommandTagThrowsWithoutLinks(tag: string)
    ensures var p := VM.Player(VM.SocialMedia(VM.NoLinks, Some(tag)), 0);
      p.discord == tag && CommandTag(Some(p)).None?
  {
  }

  /** The read succeeded and, unless bypassed, names `tag`. */
  predicate TagPasses(read: Option<string>, tag: string, bypass: bool)
  {
    read.Some? && (bypass || (read.value != "" && read.value == tag))
  }

  /** The account exists, the player's tag reads without throwing, and it is the member's tag. */
  predicate PassesChecks(account: Option<VM.Account>, player: Option<VM.Player>, tag: string)
  {
    account.Some? && TagPasses(CommandTag(player), tag, false)
  }

  /**
   * The command. The Mojang, player and Discord checks come before any write
   * and have no bypass; then the record filed under the member's id is
   * inserted when missing; a failed profiles request replies with an error
   * after that write; otherwise the member is edited.
   */
  method Execute(store: UserStore, member: Member, cfg: BotConfig,
    account: Option<VM.Account>, player: Option<VM.Player>, profiles: ProfilesFetch)
    returns (r: VerifyReply)
    requires ValidConfig(cfg) && Distinct(member.roles)
    modifies store, member
    ensures account.None? ==> r == UnknownUser
    ensures account.Some? && CommandTag(player).None? ==> r == ApiError
    ensures account.Some? && CommandTag(player) == Some("") ==> r == NoLinkedDiscord
    ensures account.Some? && CommandTag(player).Some? && CommandTag(player).value != "" && CommandTag(player).value != member.tag ==> r == TagMismatch
    ensures !PassesChecks(account, player, member.tag) ==> store.users == old(store.users)
    ensures PassesChecks(account, player, member.tag) ==> store.users == Registered(old(store.users), member.id, account.value.id)
    ensures PassesChecks(account, player, member.tag) && profiles.FetchFailed? ==> r == ApiError
    ensures PassesChecks(account, player, member.tag) && profiles.Fetched? ==> r.Verified? || r == Crashed
    ensures r.Verified? || r == Crashed ==>
      && PassesChecks(account, player, member.tag) && profiles.Fetched?
      && (exists choice ::
        && LatestChoice(profiles.list, account.value.id, choice)
        && (choice.Some? ==> account.value.id in choice.value.members)
        && ProfileDungeons(choice, account.value.id, player.value.secrets) == (if r.Verified? then Some(r.d) else None))
    ensures r.Verified? ==>
      && member.roles == CommandRolesFor(old(member.roles), r.d, cfg)
      && member.nick == if member.manageable then Some(CommandNicknameFor(old(member.roles), r.d, account.value.name, cfg)) else old(member.nick)
    ensures !r.Verified? ==> member.roles == old(member.roles) && member.nick == old(member.nick)
  {
    if account.None? {
      return UnknownUser;
    }
    var discord := CommandTag(player);
    if discord.None? {
      return ApiError;
    }
    if discord.value == "" {
      return NoLinkedDiscord;
    }
    if discord.value != member.tag {
      return TagMismatch;
    }
    Register(store, member.id, account.value.id);
    r := Finish(member, cfg, account.value, player.value.secrets, profiles);
  }

  /** After the record write: the profiles request, the chosen profile's stats, and the edit. */
  method Finish(member: Member, cfg: BotConfig, account: VM.Account, secrets: int, profiles: ProfilesFetch)
    returns (r: VerifyReply)
    requires ValidConfig(cfg) && Distinct(member.roles)
    modifies member
    ensures profiles.FetchFailed? ==> r == ApiError
    ensures profiles.Fetched? ==> r.Verified? || r == Crashed
    ensures r.Verified? || r == Crashed ==>
      && profiles.Fetched?
      && (exists choice ::
        && LatestChoice(profiles.list, account.id, choice)
        && (choice.Some? ==> account.id in choice.value.members)
        && ProfileDungeons(choice, account.id, secrets) == (if r.Verified? then Some(r.d) else None))
    ensures r.Verified? ==>
      && member.roles == CommandRolesFor(old(member.roles), r.d, cfg)
      && member.nick == if member.manageable then Some(CommandNicknameFor(old(member.roles), r.d, account.name, cfg)) else old(member.nick)
    ensures !r.Verified? ==> member.roles == old(member.roles) && member.nick == old(member.nick)
  {
    if profiles.FetchFailed? {
      return ApiError;
    }
    var choice := Functions.HighestCataProfile(profiles.list, account.id);
    if choice.Some? {
      var k :| Functions.IsLatestAt(profiles.list.value, account.id, k) && profiles.list.value[k] == choice.value;
    }
    var d := ProfileDungeons(choice, account.id, secrets);
    assert LatestChoice(profiles.list, account.id, choice);
    if d.None? {
      return Crashed;
    }
    EditMember(member, cfg, d.value, account.name);
    return Verified(d.value);
  }
}
