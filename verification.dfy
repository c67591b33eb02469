/**
 * `VerificationManager.verify`: links a Minecraft account to a Discord member,
 * derives the member's dungeon stats, decides the top-player and badge flags,
 * rewrites the member's role list and sets the nickname. A manual mode takes
 * the catacombs level from the caller instead of the Hypixel API.
 */
module VerificationManager {
  import opened Wrappers
  import opened Text
  import opened RoleLists
  import opened Config
  import opened Schema
  import opened Discord
  import Functions

  // ---------------------------------------------------------------- stats and flags

  /** The `dungeons` snapshot; 0 stands for an absent personal best. */
  datatype Dungeons = Dungeons(cataLevel: int, secrets: int, bloodMobs: int, floorSeven: int, masterFive: int, masterSix: int)

  /** The flags `tpp`, `tp`, `tpm`, `speedrunner` and `secretDuper`. */
  datatype Flags = Flags(plus: bool, normal: bool, minus: bool, speedRunner: bool, secretDuper: bool)

  /** A personal best that is set (truthy) and at most `limit` milliseconds. */
  predicate Within(time: int, limit: int)
  {
    time != 0 && time <= limit
  }

  /** The stats part of the Top Player + requirement. */
  predicate PlusStats(d: Dungeons)
  {
    (d.secrets >= 50000 || d.bloodMobs >= 45000) && d.cataLevel >= 48 && Within(d.masterSix, 195000)
  }

  /** The Top Player requirement, which the engine checks only when plus does not hold. */
  predicate NormalStats(d: Dungeons)
  {
    d.cataLevel >= 45 && d.secrets >= 30000
    && (Within(d.floorSeven, 225000) || Within(d.masterFive, 150000) || Within(d.masterSix, 225000))
  }

  /** The Top Player - requirement, checked only when neither plus nor normal holds. */
  predicate MinusStats(d: Dungeons)
  {
    d.cataLevel >= 42 && d.secrets >= 20000 && (Within(d.floorSeven, 260000) || Within(d.masterFive, 165000))
  }

  /**
   * The engine's flags: plus from the stats unless voted out, or from the plusReq
   * role; normal when plus holds or its own stats do; minus only when the first
   * two stat checks both fail; the badges from their own thresholds.
   */
  function EngineFlags(d: Dungeons, votedOut: bool, plusReq: bool): Flags
  {
    var plus := (PlusStats(d) && !votedOut) || plusReq;
    var normal := !plus && NormalStats(d);
    Flags(plus, plus || normal, !plus && !normal && MinusStats(d), Within(d.masterSix, 170000), d.secrets >= 100000)
  }

  /** The flag computation as the engine writes it, one assignment at a time. */
  method ComputeFlags(d: Dungeons, votedOut: bool, plusReq: bool) returns (f: Flags)
    ensures f == EngineFlags(d, votedOut, plusReq)
  {
    var tpp, tp, tpm, speedrunner, secretDuper := false, false, false, false, false;
    if (d.secrets >= 50000 || d.bloodMobs >= 45000) && d.cataLevel >= 48 && d.masterSix != 0 {
      if d.masterSix <= 195000 && !votedOut {
        tpp := true;
      }
    }
    if plusReq {
      tpp := true;
    }
    if !tpp && d.cataLevel >= 45 && d.secrets >= 30000 && (d.floorSeven != 0 || d.masterFive != 0 || d.masterSix != 0) {
      if d.floorSeven != 0 && d.floorSeven <= 225000 {
        tp := true;
      }
      if d.masterFive != 0 && d.masterFive <= 150000 {
        tp := true;
      }
      if d.masterSix != 0 && d.masterSix <= 225000 {
        tp := true;
      }
    }
    if (!tp && !tpp) && d.cataLevel >= 42 && d.secrets >= 20000 && (d.floorSeven != 0 || d.masterFive != 0) {
      if d.floorSeven != 0 && d.floorSeven <= 260000 {
        tpm := true;
      }
      if d.masterFive != 0 && d.masterFive <= 165000 {
        tpm := true;
      }
    }
    if tpp {
      tp := true;
    }
    if d.masterSix != 0 {
      if d.masterSix <= 170000 {
        speedrunner := true;
      }
    }
    if d.secrets >= 100000 {
      secretDuper := true;
    }
    f := Flags(tpp, tp, tpm, speedrunner, secretDuper);
  }

  /**
   * Plus forces normal; minus excludes both; the plusReq role always grants
   * plus, and the votedOut role blocks it otherwise.
   */
  lemma EngineFlagsCascade(d: Dungeons, votedOut: bool, plusReq: bool)
    ensures var f := EngineFlags(d, votedOut, plusReq);
      && (f.plus ==> f.normal)
      && (f.minus ==> !f.plus && !f.normal)
      && (plusReq ==> f.plus)
      && (votedOut && !plusReq ==> !f.plus)
  {
  }

  // ---------------------------------------------------------------- roles

  /** The member's roles without any role the full path manages. */
  function Kept(roles: seq<RoleId>, cfg: BotConfig): seq<RoleId>
  {
    FilterOut(roles, ManagedRoles(cfg))
  }

  /** The top and badge roles the flags grant, in the order they are pushed. */
  function Earned(f: Flags, cfg: BotConfig): seq<RoleId>
  {
    Pushed(f.plus, cfg.topPlus) + Pushed(f.normal, cfg.topNormal) + Pushed(f.minus, cfg.topMinus)
    + Pushed(f.speedRunner, cfg.speedRunner) + Pushed(f.secretDuper, cfg.secretDuper)
  }

  /** `[x]` when `c` holds, nothing otherwise. */
  function Pushed(c: bool, x: RoleId): (r: seq<RoleId>)
    ensures forall y :: y in r <==> c && y == x
    ensures Distinct(r)
  {
    if c then [x] else []
  }

  /**
   * The level role: none outside 30..60, cata30 for 30..34, cata35 for 35..39,
   * and for 40..60 the exact-level role when `exact` holds, cata35 otherwise.
   */
  function LevelRoles(cfg: BotConfig, level: int, exact: bool): seq<RoleId>
    requires CataKeys(cfg.cata)
  {
    if level < 30 || level > 60 then []
    else if level <= 34 then [CataRole(cfg, 30)]
    else if level <= 39 || !exact then [CataRole(cfg, 35)]
    else [CataRole(cfg, level)]
  }

  /** The full path's list before the member role: kept roles, earned roles, level role. */
  function FullBase(roles: seq<RoleId>, f: Flags, level: int, cfg: BotConfig): seq<RoleId>
    requires CataKeys(cfg.cata)
  {
    Kept(roles, cfg) + Earned(f, cfg) + LevelRoles(cfg, level, f.plus || f.normal)
  }

  /** The full path's role list: the base with the member role appended when missing. */
  function FullRoles(roles: seq<RoleId>, f: Flags, level: int, cfg: BotConfig): seq<RoleId>
    requires CataKeys(cfg.cata)
  {
    AddIfAbsent(FullBase(roles, f, level, cfg), cfg.memberRole)
  }

  /** The roles of the first `k` cata entries. */
  function CataPrefix(cata: seq<CataEntry>, k: nat): set<RoleId>
    requires k <= |cata|
  {
    set e | e in cata[..k] :: e.role
  }

  /** The prefix sets start empty and end with every cata role. */
  lemma CataPrefixEnds(cata: seq<CataEntry>)
    ensures CataPrefix(cata, 0) == {}
    ensures CataPrefix(cata, |cata|) == set e | e in cata :: e.role
  {
    assert cata[..0] == [] && cata[..|cata|] == cata;
  }

  /** One more entry adds its role. */
  lemma CataPrefixStep(cata: seq<CataEntry>, k: nat)
    requires k < |cata|
    ensures CataPrefix(cata, k + 1) == CataPrefix(cata, k) + {cata[k].role}
  {
    assert cata[..k + 1] == cata[..k] + [cata[k]];
  }

  /** `if (a.includes(x)) a.splice(a.indexOf(x), 1)` on a repeat-free list, seen as a filter. */
  lemma SpliceStep(roles: seq<RoleId>, a: seq<RoleId>, m: set<RoleId>, x: RoleId)
    requires a == FilterOut(roles, m) && Distinct(a)
    ensures RemoveFirst(a, x) == FilterOut(roles, m + {x}) && Distinct(RemoveFirst(a, x))
  {
    RemoveFirstDistinct(a, x);
    FilterOutTwice(roles, m, {x});
  }

  /** The loop over `Object.values(cata)`: each cata role is spliced out when present. */
  method RemoveCata(roles: seq<RoleId>, cfg: BotConfig) returns (a: seq<RoleId>)
    requires Distinct(roles)
    ensures a == FilterOut(roles, CataRoleSet(cfg)) && Distinct(a)
  {
    a := roles;
    CataPrefixEnds(cfg.cata);
    FilterOutAbsent(roles, {});
    var k := 0;
    while k < |cfg.cata|
      invariant 0 <= k <= |cfg.cata|
      invariant a == FilterOut(roles, CataPrefix(cfg.cata, k)) && Distinct(a)
    {
      var value := cfg.cata[k].role;
      SpliceStep(roles, a, CataPrefix(cfg.cata, k), value);
      CataPrefixStep(cfg.cata, k);
      if value in a {
        a := RemoveFirst(a, value);
      }
      k := k + 1;
    }
  }

  /**
   * The removal half: every cata value, then plus, normal, minus, speedRunner
   * and secretDuper, each spliced out when present.
   */
  method RemoveManaged(roles: seq<RoleId>, cfg: BotConfig) returns (a: seq<RoleId>)
    requires Distinct(roles)
    ensures a == Kept(roles, cfg) && Distinct(a)
  {
    a := RemoveCata(roles, cfg);
    ghost var removed := CataRoleSet(cfg);
    SpliceStep(roles, a, removed, cfg.topPlus);
    a, removed := RemoveFirst(a, cfg.topPlus), removed + {cfg.topPlus};
    SpliceStep(roles, a, removed, cfg.topNormal);
    a, removed := RemoveFirst(a, cfg.topNormal), removed + {cfg.topNormal};
    SpliceStep(roles, a, removed, cfg.topMinus);
    a, removed := RemoveFirst(a, cfg.topMinus), removed + {cfg.topMinus};
    SpliceStep(roles, a, removed, cfg.speedRunner);
    a, removed := RemoveFirst(a, cfg.speedRunner), removed + {cfg.speedRunner};
    SpliceStep(roles, a, removed, cfg.secretDuper);
    a, removed := RemoveFirst(a, cfg.secretDuper), removed + {cfg.secretDuper};
    assert removed == ManagedRoles(cfg);
  }

  /** No cata role is a top, badge or member role. */
  lemma CataRolesApart(cfg: BotConfig)
    requires ValidConfig(cfg)
    ensures forall r :: r in CataRoleSet(cfg) ==> r !in TopRoles(cfg) + {cfg.speedRunner, cfg.secretDuper, cfg.memberRole}
  {
    forall r | r in CataRoleSet(cfg) ensures r !in TopRoles(cfg) + {cfg.speedRunner, cfg.secretDuper, cfg.memberRole} {
      var e :| e in cfg.cata && e.role == r;
      var k :| 0 <= k < |cfg.cata| && cfg.cata[k] == e;
    }
  }

  /** The five top and badge roles are pairwise different. */
  predicate EarnableApart(cfg: BotConfig)
  {
    && cfg.topPlus != cfg.topNormal && cfg.topPlus != cfg.topMinus && cfg.topNormal != cfg.topMinus
    && cfg.speedRunner !in TopRoles(cfg) && cfg.secretDuper !in TopRoles(cfg) && cfg.speedRunner != cfg.secretDuper
  }

  /** None of the five top and badge roles is in `a`. */
  predicate NoEarnable(a: seq<RoleId>, cfg: BotConfig)
  {
    forall r :: r in a ==> r !in TopRoles(cfg) && r != cfg.speedRunner && r != cfg.secretDuper
  }

  /** One guarded push appends `Pushed(c, x)` when `x` is missing. */
  lemma PushStep(kept: seq<RoleId>, pushed: seq<RoleId>, c: bool, x: RoleId)
    requires x !in kept && x !in pushed
    ensures x !in kept + pushed
    ensures (if c then (kept + pushed) + [x] else kept + pushed) == kept + (pushed + Pushed(c, x))
  {
  }

  /** `if (c && !a.includes(x)) a.push(x)`. */
  method PushMissing(a: seq<RoleId>, c: bool, x: RoleId) returns (b: seq<RoleId>)
    ensures b == if c && x !in a then a + [x] else a
  {
    b := a;
    if c && !(x in b) {
      b := b + [x];
    }
  }

  /** The pushes of the earned roles; none of them is already present after the removal. */
  method PushEarned(kept: seq<RoleId>, f: Flags, cfg: BotConfig) returns (a: seq<RoleId>)
    requires EarnableApart(cfg) && NoEarnable(kept, cfg)
    ensures a == kept + Earned(f, cfg)
  {
    a := kept;
    assert kept + [] == kept;
    PushStep(kept, [], f.plus, cfg.topPlus);
    a := PushMissing(a, f.plus, cfg.topPlus);
    ghost var pushed := Pushed(f.plus, cfg.topPlus);
    assert a == kept + pushed;
    PushStep(kept, pushed, f.normal, cfg.topNormal);
    a := PushMissing(a, f.normal, cfg.topNormal);
    pushed := pushed + Pushed(f.normal, cfg.topNormal);
    PushStep(kept, pushed, f.minus, cfg.topMinus);
    a := PushMissing(a, f.minus, cfg.topMinus);
    pushed := pushed + Pushed(f.minus, cfg.topMinus);
    PushStep(kept, pushed, f.speedRunner, cfg.speedRunner);
    a := PushMissing(a, f.speedRunner, cfg.speedRunner);
    pushed := pushed + Pushed(f.speedRunner, cfg.speedRunner);
    PushStep(kept, pushed, f.secretDuper, cfg.secretDuper);
    a := PushMissing(a, f.secretDuper, cfg.secretDuper);
    pushed := pushed + Pushed(f.secretDuper, cfg.secretDuper);
  }

  /** The level role push, which has no `includes` check. */
  method PushLevelRole(a: seq<RoleId>, level: int, exact: bool, cfg: BotConfig) returns (b: seq<RoleId>)
    requires CataKeys(cfg.cata)
    ensures b == a + LevelRoles(cfg, level, exact)
  {
    if level < 30 || level > 60 {
      b := a;
    } else if level >= 30 && level <= 34 {
      b := a + [CataRole(cfg, 30)];
    } else if level >= 35 && level <= 39 {
      b := a + [CataRole(cfg, 35)];
    } else if !exact {
      b := a + [CataRole(cfg, 35)];
    } else {
      b := a + [CataRole(cfg, level)];
    }
  }

  /** The full path's list before the member role, built by removal and pushes. */
  method ReconcileRoles(roles: seq<RoleId>, f: Flags, level: int, cfg: BotConfig) returns (a: seq<RoleId>)
    requires ValidConfig(cfg) && Distinct(roles)
    ensures a == FullBase(roles, f, level, cfg)
  {
    a := RemoveManaged(roles, cfg);
    assert NoEarnable(a, cfg);
    a := PushEarned(a, f, cfg);
    a := PushLevelRole(a, level, f.plus || f.normal, cfg);
  }

  // ---------------------------------------------------------------- what the full path leaves

  /** The earned roles are exactly the flagged ones. */
  lemma EarnedMembers(f: Flags, cfg: BotConfig, r: RoleId)
    ensures r in Earned(f, cfg) <==>
      (r == cfg.topPlus && f.plus) || (r == cfg.topNormal && f.normal) || (r == cfg.topMinus && f.minus)
      || (r == cfg.speedRunner && f.speedRunner) || (r == cfg.secretDuper && f.secretDuper)
  {
  }

  /** The level role, when there is one, is a cata role. */
  lemma LevelRolesCata(cfg: BotConfig, level: int, exact: bool)
    requires ValidConfig(cfg)
    ensures |LevelRoles(cfg, level, exact)| == (if 30 <= level <= 60 then 1 else 0)
    ensures forall r :: r in LevelRoles(cfg, level, exact) ==> r in CataRoleSet(cfg)
    ensures forall r :: r in LevelRoles(cfg, level, exact) ==> r !in TopRoles(cfg) + {cfg.speedRunner, cfg.secretDuper, cfg.memberRole}
  {
    if 30 <= level <= 60 {
      var l := if level <= 39 || !exact then (if level <= 34 then 30 else 35) else level;
      CataRoleFacts(cfg, l);
    }
  }

  /** A top or badge role is in the full list exactly when the flags earn it. */
  lemma FullRolesEarnable(roles: seq<RoleId>, f: Flags, level: int, cfg: BotConfig, x: RoleId)
    requires ValidConfig(cfg)
    requires x in TopRoles(cfg) + {cfg.speedRunner, cfg.secretDuper}
    ensures x in FullRoles(roles, f, level, cfg) <==> x in Earned(f, cfg)
  {
    var kept, earned, lr := Kept(roles, cfg), Earned(f, cfg), LevelRoles(cfg, level, f.plus || f.normal);
    assert x in ManagedRoles(cfg) && x != cfg.memberRole;
    assert x !in kept;
    LevelRolesCata(cfg, level, f.plus || f.normal);
    assert x !in lr;
    assert x in kept + earned + lr <==> x in earned;
  }

  /** Every role of the full list comes from the old list, the managed roles or the member role. */
  lemma FullRolesOrigin(roles: seq<RoleId>, f: Flags, level: int, cfg: BotConfig, r: RoleId)
    requires ValidConfig(cfg) && r in FullRoles(roles, f, level, cfg)
    ensures r in roles || r in ManagedRoles(cfg) || r == cfg.memberRole
  {
    var kept, earned, lr := Kept(roles, cfg), Earned(f, cfg), LevelRoles(cfg, level, f.plus || f.normal);
    assert ToSet(FullRoles(roles, f, level, cfg)) == ToSet(kept + earned + lr) + {cfg.memberRole};
    if r != cfg.memberRole {
      assert r in kept + earned + lr;
      if r in earned {
        EarnedMembers(f, cfg, r);
      } else if r in lr {
        LevelRolesCata(cfg, level, f.plus || f.normal);
      }
    }
  }

  /**
   * A role the full path does not manage survives; every role of the result
   * comes from the old list, the managed roles or the member role; a top or
   * badge role is there exactly when its flag is set; the member role is always there.
   */
  lemma FullRolesMembers(roles: seq<RoleId>, f: Flags, level: int, cfg: BotConfig)
    requires ValidConfig(cfg)
    ensures var out := FullRoles(roles, f, level, cfg);
      && (forall r :: r in roles && r !in ManagedRoles(cfg) ==> r in out)
      && (forall r :: r in out ==> r in roles || r in ManagedRoles(cfg) || r == cfg.memberRole)
      && (cfg.topPlus in out <==> f.plus)
      && (cfg.topNormal in out <==> f.normal)
      && (cfg.topMinus in out <==> f.minus)
      && (cfg.speedRunner in out <==> f.speedRunner)
      && (cfg.secretDuper in out <==> f.secretDuper)
      && cfg.memberRole in out
  {
    var out := FullRoles(roles, f, level, cfg);
    assert ToSet(out) == ToSet(FullBase(roles, f, level, cfg)) + {cfg.memberRole};
    forall r | r in out
      ensures r in roles || r in ManagedRoles(cfg) || r == cfg.memberRole
    {
      FullRolesOrigin(roles, f, level, cfg, r);
    }
    FullRolesEarnable(roles, f, level, cfg, cfg.topPlus);
    FullRolesEarnable(roles, f, level, cfg, cfg.topNormal);
    FullRolesEarnable(roles, f, level, cfg, cfg.topMinus);
    FullRolesEarnable(roles, f, level, cfg, cfg.speedRunner);
    FullRolesEarnable(roles, f, level, cfg, cfg.secretDuper);
    EarnedMembers(f, cfg, cfg.topPlus);
    EarnedMembers(f, cfg, cfg.topNormal);
    EarnedMembers(f, cfg, cfg.topMinus);
    EarnedMembers(f, cfg, cfg.speedRunner);
    EarnedMembers(f, cfg, cfg.secretDuper);
  }

  /**
   * The level role is cata30 for 30..34, cata35 for 35..39, and for 40..60 the
   * exact-level role when `exact` holds, cata35 otherwise; none outside 30..60.
   */
  lemma LevelRolesChoice(cfg: BotConfig, level: int, exact: bool)
    requires CataKeys(cfg.cata)
    ensures var lr := LevelRoles(cfg, level, exact);
      && (30 <= level <= 34 ==> lr == [CataRole(cfg, 30)])
      && (35 <= level <= 39 ==> lr == [CataRole(cfg, 35)])
      && (40 <= level <= 60 && !exact ==> lr == [CataRole(cfg, 35)])
      && (40 <= level <= 60 && exact ==> lr == [CataRole(cfg, level)])
      && (level < 30 || level > 60 ==> lr == [])
  {
  }

  /**
   * The only cata role of the full list is the level role (exact-level with
   * plus or normal), which is always there.
   */
  lemma FullRolesCata(roles: seq<RoleId>, f: Flags, level: int, cfg: BotConfig)
    requires ValidConfig(cfg)
    ensures var out := FullRoles(roles, f, level, cfg);
      var lr := LevelRoles(cfg, level, f.plus || f.normal);
      && (forall r :: r in out && r in CataRoleSet(cfg) ==> [r] == lr)
      && (forall r :: r in lr ==> r in out)
  {
    var out := FullRoles(roles, f, level, cfg);
    var kept, earned, lr := Kept(roles, cfg), Earned(f, cfg), LevelRoles(cfg, level, f.plus || f.normal);
    assert ToSet(out) == ToSet(kept + earned + lr) + {cfg.memberRole};
    LevelRolesCata(cfg, level, f.plus || f.normal);
    forall r | r in out && r in CataRoleSet(cfg) ensures [r] == lr {
      CataFromLevel(roles, f, level, cfg, r);
    }
  }

  /** A cata role of the full list is not kept, not earned, so it is the level role. */
  lemma CataFromLevel(roles: seq<RoleId>, f: Flags, level: int, cfg: BotConfig, r: RoleId)
    requires ValidConfig(cfg) && r in FullRoles(roles, f, level, cfg) && r in CataRoleSet(cfg)
    ensures [r] == LevelRoles(cfg, level, f.plus || f.normal)
  {
    var kept, earned, lr := Kept(roles, cfg), Earned(f, cfg), LevelRoles(cfg, level, f.plus || f.normal);
    assert ToSet(FullRoles(roles, f, level, cfg)) == ToSet(kept + earned + lr) + {cfg.memberRole};
    CataRolesApart(cfg);
    LevelRolesCata(cfg, level, f.plus || f.normal);
    assert r != cfg.memberRole;
    assert r !in kept;
    EarnedMembers(f, cfg, r);
    assert r in lr;
  }

  /** `Pushed` pieces over the five different earnable roles fit together without repeats. */
  lemma EarnedDistinct(f: Flags, cfg: BotConfig)
    requires EarnableApart(cfg)
    ensures Distinct(Earned(f, cfg))
  {
    var p1 := Pushed(f.plus, cfg.topPlus);
    var p2 := Pushed(f.normal, cfg.topNormal);
    var p3 := Pushed(f.minus, cfg.topMinus);
    var p4 := Pushed(f.speedRunner, cfg.speedRunner);
    var p5 := Pushed(f.secretDuper, cfg.secretDuper);
    AppendDistinct(p1, p2);
    AppendDistinct(p1 + p2, p3);
    AppendDistinct(p1 + p2 + p3, p4);
    AppendDistinct(p1 + p2 + p3 + p4, p5);
  }

  /** Appending a role that is new keeps a list duplicate-free. */
  lemma AddIfAbsentDistinct(s: seq<RoleId>, x: RoleId)
    requires Distinct(s)
    ensures Distinct(AddIfAbsent(s, x))
  {
    if x !in s {
      AppendDistinct(s, [x]);
    }
  }

  /** A duplicate-free list gives a duplicate-free full list. */
  lemma FullRolesDistinct(roles: seq<RoleId>, f: Flags, level: int, cfg: BotConfig)
    requires ValidConfig(cfg) && Distinct(roles)
    ensures Distinct(FullRoles(roles, f, level, cfg))
  {
    var kept, earned, lr := Kept(roles, cfg), Earned(f, cfg), LevelRoles(cfg, level, f.plus || f.normal);
    FilterOutDistinct(roles, ManagedRoles(cfg));
    EarnedDistinct(f, cfg);
    LevelRolesCata(cfg, level, f.plus || f.normal);
    CataRolesApart(cfg);
    forall r | r in kept ensures r !in earned {
      EarnedMembers(f, cfg, r);
    }
    AppendDistinct(kept, earned);
    forall r | r in kept + earned ensures r !in lr {
      EarnedMembers(f, cfg, r);
    }
    AppendDistinct(kept + earned, lr);
    AddIfAbsentDistinct(kept + earned + lr, cfg.memberRole);
  }

  /** `rolesBefore.filter(role => !rolesAfter.includes(role))`, as logged. */
  function RolesRemoved(before: seq<RoleId>, after: seq<RoleId>): seq<RoleId>
  {
    FilterOut(before, ToSet(after))
  }

  /** `rolesAfter.filter(role => !rolesBefore.includes(role))`, as logged. */
  function RolesAdded(before: seq<RoleId>, after: seq<RoleId>): seq<RoleId>
  {
    FilterOut(after, ToSet(before))
  }

  /** The full path removes only roles it manages. */
  lemma FullRemovesOnlyManaged(roles: seq<RoleId>, f: Flags, level: int, cfg: BotConfig)
    requires ValidConfig(cfg)
    ensures forall r :: r in RolesRemoved(roles, FullRoles(roles, f, level, cfg)) ==> r in ManagedRoles(cfg)
  {
    FullRolesMembers(roles, f, level, cfg);
  }

  /** Two lists with the same members: one role is in the first exactly when it is in the second. */
  lemma SameMembers(a: seq<RoleId>, b: seq<RoleId>, r: RoleId)
    requires ToSet(a) == ToSet(b)
    ensures r in a <==> r in b
  {
    assert r in a <==> r in ToSet(a);
    assert r in b <==> r in ToSet(b);
  }

  /** A role the full path does not manage survives it. */
  lemma FullRolesKeeps(roles: seq<RoleId>, f: Flags, level: int, cfg: BotConfig, r: RoleId)
    requires CataKeys(cfg.cata) && r in roles && r !in ManagedRoles(cfg)
    ensures r in FullRoles(roles, f, level, cfg)
  {
    assert r in Kept(roles, cfg);
  }

  /** One role is in the twice-reconciled list exactly when it is in the once-reconciled one. */
  lemma FullRolesStableAt(roles: seq<RoleId>, f: Flags, level: int, cfg: BotConfig, r: RoleId)
    requires ValidConfig(cfg)
    ensures var once := FullRoles(roles, f, level, cfg);
      r in FullRoles(once, f, level, cfg) <==> r in once
  {
    var once := FullRoles(roles, f, level, cfg);
    var twice := FullRoles(once, f, level, cfg);
    if r == cfg.memberRole {
      assert ToSet(twice) == ToSet(FullBase(once, f, level, cfg)) + {r};
      assert ToSet(once) == ToSet(FullBase(roles, f, level, cfg)) + {r};
    } else if r in TopRoles(cfg) + {cfg.speedRunner, cfg.secretDuper} {
      FullRolesEarnable(roles, f, level, cfg, r);
      FullRolesEarnable(once, f, level, cfg, r);
    } else if r in CataRoleSet(cfg) {
      FullRolesCata(roles, f, level, cfg);
      FullRolesCata(once, f, level, cfg);
    } else {
      if r in twice {
        FullRolesOrigin(once, f, level, cfg, r);
      }
      if r in once {
        FullRolesKeeps(once, f, level, cfg, r);
      }
    }
  }

  /**
   * Running the full path again with the same stats gives the same roles, up to
   * order, so the second verification logs nothing added and nothing removed.
   */
  lemma FullRolesStable(roles: seq<RoleId>, f: Flags, level: int, cfg: BotConfig)
    requires ValidConfig(cfg)
    ensures var once := FullRoles(roles, f, level, cfg);
      var twice := FullRoles(once, f, level, cfg);
      && ToSet(twice) == ToSet(once)
      && RolesAdded(once, twice) == [] && RolesRemoved(once, twice) == []
  {
    var once := FullRoles(roles, f, level, cfg);
    var twice := FullRoles(once, f, level, cfg);
    forall r ensures r in twice <==> r in once {
      FullRolesStableAt(roles, f, level, cfg, r);
    }
    assert ToSet(twice) == ToSet(once);
    FilterOutAll(twice, ToSet(once));
    FilterOutAll(once, ToSet(twice));
  }

  /** Filtering out a set that holds every element leaves nothing. */
  lemma {:induction false} FilterOutAll(s: seq<RoleId>, m: set<RoleId>)
    requires forall x :: x in s ==> x in m
    ensures FilterOut(s, m) == []
  {
    if s != [] {
      assert s[0] in m;
      FilterOutAll(s[1..], m);
    }
  }

  /**
   * With the engine's flags the top roles cascade: plus brings normal, minus
   * comes alone, the plusReq role always brings plus.
   */
  lemma EngineRolesCascade(roles: seq<RoleId>, d: Dungeons, votedOut: bool, plusReq: bool, cfg: BotConfig)
    requires ValidConfig(cfg)
    ensures var out := FullRoles(roles, EngineFlags(d, votedOut, plusReq), d.cataLevel, cfg);
      && (cfg.topPlus in out ==> cfg.topNormal in out)
      && (cfg.topMinus in out ==> cfg.topPlus !in out && cfg.topNormal !in out)
      && (plusReq ==> cfg.topPlus in out)
  {
    EngineFlagsCascade(d, votedOut, plusReq);
    FullRolesMembers(roles, EngineFlags(d, votedOut, plusReq), d.cataLevel, cfg);
  }

  // ---------------------------------------------------------------- symbol and nickname

  /** The symbol of the last `symbols` entry whose role the member has, if any. */
  function LastSymbol(symbols: seq<SymbolEntry>, roles: seq<RoleId>): Option<string>
  {
    if symbols == [] then None
    else if symbols[|symbols| - 1].role in roles then Some(symbols[|symbols| - 1].symbol)
    else LastSymbol(symbols[..|symbols| - 1], roles)
  }

  /** The loop over `Object.entries(symbols)`: each matching entry overwrites the symbol. */
  method ChooseSymbol(symbols: seq<SymbolEntry>, roles: seq<RoleId>) returns (symbol: Option<string>)
    ensures symbol == LastSymbol(symbols, roles)
  {
    symbol := None;
    var i := 0;
    while i < |symbols|
      invariant 0 <= i <= |symbols|
      invariant symbol == LastSymbol(symbols[..i], roles)
    {
      assert symbols[..i + 1][..i] == symbols[..i];
      if symbols[i].role in roles {
        symbol := Some(symbols[i].symbol);
      }
      i := i + 1;
    }
    assert symbols[..i] == symbols;
  }

  /**
   * The chosen symbol belongs to an entry whose role the member has and after
   * which no entry matches; there is none only when no entry matches.
   */
  lemma {:induction false} LastSymbolSpec(symbols: seq<SymbolEntry>, roles: seq<RoleId>)
    ensures LastSymbol(symbols, roles).None? <==> forall k :: 0 <= k < |symbols| ==> symbols[k].role !in roles
    ensures LastSymbol(symbols, roles).Some? ==> exists k :: (0 <= k < |symbols| && symbols[k].role in roles
      && LastSymbol(symbols, roles).value == symbols[k].symbol
      && forall j :: k < j < |symbols| ==> symbols[j].role !in roles)
  {
    if symbols != [] {
      var n := |symbols| - 1;
      var init := symbols[..n];
      if symbols[n].role !in roles {
        LastSymbolSpec(init, roles);
        assert forall k :: 0 <= k < n ==> init[k] == symbols[k];
        if LastSymbol(init, roles).Some? {
          var k :| 0 <= k < |init| && init[k].role in roles && LastSymbol(init, roles).value == init[k].symbol
            && forall j :: k < j < |init| ==> init[j].role !in roles;
          assert symbols[k] == init[k];
        }
      }
    }
  }

  /** The nickname `❮level❯ name emojis`, with both brackets replaced by a truthy symbol. */
  function Nickname(level: int, name: string, emojis: string, symbol: Option<string>): string
  {
    var plain := "❮" + IntToString(level) + "❯ " + name + " " + emojis;
    if symbol.Some? && Truthy(symbol.value) then ReplaceBrackets(plain, symbol.value) else plain
  }

  /**
   * Every bracket of `s` is replaced, so none is left when the symbol has none
   * and no `$`: a `$&`, `` $` `` or `$'` in it would bring brackets of `s` back.
   */
  lemma ReplaceBracketsRemovesAll(s: string, symbol: string)
    requires '❮' !in symbol && '❯' !in symbol && '$' !in symbol
    ensures '❮' !in ReplaceBrackets(s, symbol) && '❯' !in ReplaceBrackets(s, symbol)
  {
    RemovesAllFrom(s, 0, symbol);
  }

  lemma {:induction false} RemovesAllFrom(s: string, i: nat, symbol: string)
    requires i <= |s| && '❮' !in symbol && '❯' !in symbol && '$' !in symbol
    ensures '❮' !in ReplaceBracketsFrom(s, i, symbol) && '❯' !in ReplaceBracketsFrom(s, i, symbol)
    decreases |s| - i
  {
    if i < |s| {
      SubstitutionLiteral(symbol, [s[i]], s[..i], s[i + 1..]);
      RemovesAllFrom(s, i + 1, symbol);
    }
  }

  /**
   * Without a symbol the nickname opens with the bracketed level; with a truthy
   * symbol free of brackets, no bracket is left.
   */
  lemma NicknameShape(level: int, name: string, emojis: string, symbol: Option<string>)
    ensures symbol.None? ==> Nickname(level, name, emojis, symbol)[..|IntToString(level)| + 3] == "❮" + IntToString(level) + "❯ "
    ensures symbol.Some? && Truthy(symbol.value) && '❮' !in symbol.value && '❯' !in symbol.value && '$' !in symbol.value ==>
      '❮' !in Nickname(level, name, emojis, symbol) && '❯' !in Nickname(level, name, emojis, symbol)
  {
    var plain := "❮" + IntToString(level) + "❯ " + name + " " + emojis;
    if symbol.None? {
      var head := "❮" + IntToString(level) + "❯ ";
      assert plain == head + (name + " " + emojis);
    } else if Truthy(symbol.value) && '❮' !in symbol.value && '❯' !in symbol.value && '$' !in symbol.value {
      ReplaceBracketsRemovesAll(plain, symbol.value);
    }
  }

  // ---------------------------------------------------------------- manual mode

  /** The cata role manual mode adds: cata30 for 30..34, cata35 from 35 up. */
  function ManualLevelRole(cfg: BotConfig, level: int): seq<RoleId>
    requires CataKeys(cfg.cata)
  {
    if 30 <= level <= 34 then [CataRole(cfg, 30)]
    else if level >= 35 then [CataRole(cfg, 35)]
    else []
  }

  /** Manual mode's role list: the old roles, then the cata role and the member role when missing. */
  function ManualRoles(roles: seq<RoleId>, level: int, cfg: BotConfig): seq<RoleId>
    requires CataKeys(cfg.cata)
  {
    var withCata := if ManualLevelRole(cfg, level) == [] then roles else AddIfAbsent(roles, ManualLevelRole(cfg, level)[0]);
    AddIfAbsent(withCata, cfg.memberRole)
  }

  /** Manual mode's pushes. */
  method AddManualRoles(roles: seq<RoleId>, level: int, cfg: BotConfig) returns (a: seq<RoleId>)
    requires CataKeys(cfg.cata)
    ensures a == ManualRoles(roles, level, cfg)
  {
    a := roles;
    if level >= 30 && level <= 34 {
      if !(CataRole(cfg, 30) in a) {
        a := a + [CataRole(cfg, 30)];
      }
    } else if level >= 35 {
      if !(CataRole(cfg, 35) in a) {
        a := a + [CataRole(cfg, 35)];
      }
    }
    if !(cfg.memberRole in a) {
      a := a + [cfg.memberRole];
    }
  }

  /**
   * Manual mode only adds: the old list is a prefix of the new one, the roles
   * are the old ones plus the cata role and the member role, nothing is logged as
   * removed, and a duplicate-free list stays duplicate-free. So a stale cata
   * role from an earlier verification is kept.
   */
  lemma ManualOnlyAdds(roles: seq<RoleId>, level: int, cfg: BotConfig)
    requires CataKeys(cfg.cata)
    ensures var out := ManualRoles(roles, level, cfg);
      && roles <= out
      && ToSet(out) == ToSet(roles) + ToSet(ManualLevelRole(cfg, level)) + {cfg.memberRole}
      && RolesRemoved(roles, out) == []
      && (Distinct(roles) ==> Distinct(out))
  {
    var lr := ManualLevelRole(cfg, level);
    var withCata := if lr == [] then roles else AddIfAbsent(roles, lr[0]);
    var out := AddIfAbsent(withCata, cfg.memberRole);
    if lr != [] {
      assert lr == [lr[0]];
      assert ToSet(lr) == {lr[0]};
    }
    assert ToSet(out) == ToSet(roles) + ToSet(lr) + {cfg.memberRole};
    forall x | x in roles ensures x in ToSet(out) {
      assert x in out;
    }
    FilterOutAll(roles, ToSet(out));
    if Distinct(roles) {
      if lr != [] {
        AddIfAbsentDistinct(roles, lr[0]);
      }
      AddIfAbsentDistinct(withCata, cfg.memberRole);
    }
  }

  // ---------------------------------------------------------------- linking the record

  /** How the record filed under the player's uuid is linked to the member. */
  datatype Linking =
    | Inserted                   // no record: a fresh one is inserted
    | Claimed                    // the record names no other Discord id
    | Conflict(other: string)    // it names another member still in the guild, and there is no override
    | Overridden(other: string)  // the same with the override: the other member is reset
    | Unclaimed(other: string)   // it names an id that is no longer a member

  /** The linking decision on the records and members before the call. */
  function Linkage(users: map<string, UserRecord>, guild: map<string, Member>, memberId: string, uuid: string, override: bool): (r: Linking)
    ensures r.Inserted? <==> uuid !in users
    ensures r.Conflict? || r.Overridden? || r.Unclaimed? ==>
      && users[uuid].discordId == Some(r.other) && r.other != "" && r.other != memberId
      && (r.other in guild <==> !r.Unclaimed?)
    ensures r.Conflict? ==> !override
    ensures r.Overridden? ==> override
  {
    if uuid !in users then Inserted
    else
      var d := users[uuid].discordId;
      if !(d.Some? && Truthy(d.value) && d.value != memberId) then Claimed
      else if d.value in guild then (if override then Overridden(d.value) else Conflict(d.value))
      else Unclaimed(d.value)
  }

  /** The record after linking: a fresh record, or the old one naming the member. */
  function LinkedUser(users: map<string, UserRecord>, memberId: string, uuid: string, link: Linking): UserRecord
    requires link != Inserted ==> uuid in users
  {
    if link.Inserted? then UserSchema(memberId, uuid)
    else users[uuid].(discordId := Some(memberId))
  }

  /**
   * Looks up the record by uuid, inserts a fresh one when there is none, and
   * refuses a record that another current member holds unless overriding.
   * Only the insert is written here.
   */
  method Link(store: UserStore, guild: map<string, Member>, memberId: string, uuid: string, override: bool)
    returns (link: Linking, user: Option<UserRecord>)
    modifies store
    ensures link == Linkage(old(store.users), guild, memberId, uuid, override)
    ensures user.None? <==> link.Conflict?
    ensures user.Some? ==> user.value == LinkedUser(old(store.users), memberId, uuid, link)
    ensures store.users == LinkedStore(old(store.users), memberId, uuid, link)
  {
    var found := Find(store.users, uuid);
    if found.None? {
      store.users := store.users[uuid := UserSchema(memberId, uuid)];
      return Inserted, Some(store.users[uuid]);
    }
    var u := found.value;
    if u.discordId.Some? && Truthy(u.discordId.value) && u.discordId.value != memberId {
      var other := Find(guild, u.discordId.value);
      if other.Some? {
        if !override {
          return Conflict(u.discordId.value), None;
        }
        return Overridden(u.discordId.value), Some(u.(discordId := Some(memberId)));
      }
      return Unclaimed(u.discordId.value), Some(u.(discordId := Some(memberId)));
    }
    return Claimed, Some(u.(discordId := Some(memberId)));
  }

  /** On an override, the member who held the record is reset to the baseline roles with no nickname, when the bot may edit it. */
  method ResetMember(other: Member, cfg: BotConfig)
    modifies other
    ensures other.manageable ==> other.roles == Dedup(cfg.fixRoles) && other.nick.None?
    ensures !other.manageable ==> other.roles == old(other.roles) && other.nick == old(other.nick)
  {
    if other.manageable {
      other.Edit(cfg.fixRoles, ClearNick);
    }
  }

  /**
   * A fresh record names no Discord id, so while it stays that way any other
   * member verifying with the same account claims it without a conflict.
   */
  lemma InsertedRecordIsOpen(users: map<string, UserRecord>, guild: map<string, Member>, memberId: string, otherId: string, uuid: string)
    ensures Linkage(users[uuid := UserSchema(memberId, uuid)], guild, otherId, uuid, false) == Claimed
  {
  }

  /** A linked existing record names the member; everything else of it is kept. */
  lemma LinkedUserNamesMember(users: map<string, UserRecord>, guild: map<string, Member>, memberId: string, uuid: string, override: bool)
    requires uuid in users
    requires !Linkage(users, guild, memberId, uuid, override).Conflict?
    ensures var u := LinkedUser(users, memberId, uuid, Linkage(users, guild, memberId, uuid, override));
      && u.discordId == Some(memberId)
      && u.(discordId := users[uuid].discordId) == users[uuid]
  {
  }

  // ---------------------------------------------------------------- choosing the stats

  /** The `socialMedia.links` object of a Hypixel player: absent, or present with its optional `DISCORD`. */
  datatype Links = NoLinks | Links(linked: Option<string>)

  /** The `socialMedia` object: absent, or present with its `links` and its own optional `DISCORD`. */
  datatype SocialMedia = NoSocialMedia | SocialMedia(links: Links, direct: Option<string>)

  /**
   * The Hypixel player fields read: the social media and the secrets found.
   * `discord` is the engine's reading, `socialMedia?.links?.DISCORD ??
   * socialMedia?.DISCORD`, with "" when both are absent (both are falsy).
   */
  datatype Player = Player(social: SocialMedia, secrets: int)
  {
    const discord: string :=
      match social
      case NoSocialMedia => ""
      case SocialMedia(links, direct) =>
        if links.Links? && links.linked.Some? then links.linked.value
        else if direct.Some? then direct.value
        else ""
  }

  /** The SkyBlock profiles request: a list (or null), the "profiles is not an array" error, or another error. */
  datatype ProfilesReply = Profiles(list: Option<seq<Functions.Profile>>) | NotAnArray | ProfilesFailed

  /** The stats step: stats, no profile of that name, a failed request, or an exception outside the `try`. */
  datatype StatsStep = StatsOf(d: Dungeons) | NoSuchName | RequestFailed | StatsThrown

  /** The stats without a profile: level 0 and only the secrets count. */
  function NoProfileDungeons(secrets: int): Dungeons
  {
    Dungeons(0, secrets, 0, 0, 0, 0)
  }

  /** The stats of one profile member, or `None` when computing its level throws. */
  function MemberDungeons(m: Functions.ProfileMember, secrets: int): Option<Dungeons>
  {
    match Functions.LevelIn(Functions.CataXp, m.cataXp)
    case None => None
    case Some(level) =>
      Some(Dungeons(level.Floor, secrets, m.killsUndead + m.killsSkeleton + m.killsMasterUndead,
        m.floorSevenSPlus, m.masterFiveSPlus, m.masterSixSPlus))
  }

  /**
   * Entry `k` is the profile the engine picks: the first whose name matches when
   * a name is given, the one with the most catacombs experience otherwise.
   */
  predicate PickedAt(ps: seq<Functions.Profile>, name: string, uuid: string, k: int)
  {
    && 0 <= k < |ps|
    && (name != "" ==> Functions.NameMatches(ps[k], name) && forall j :: 0 <= j < k ==> !Functions.NameMatches(ps[j], name))
    && (name == "" ==> Functions.AllHaveMember(ps, uuid) && Functions.IsHighestAt(ps, uuid, k))
  }

  /** The stats come from the picked profile's member, or are the no-profile stats. */
  predicate StatsFrom(reply: ProfilesReply, name: string, uuid: string, secrets: int, d: Dungeons)
  {
    d == NoProfileDungeons(secrets)
    || (reply.Profiles? && reply.list.Some? && exists k :: (0 <= k < |reply.list.value| && PickedAt(reply.list.value, name, uuid, k)
      && uuid in reply.list.value[k].members && MemberDungeons(reply.list.value[k].members[uuid], secrets) == Some(d)))
  }

  /** The profile step: no profile of the given name, no profile at all, or the picked one. */
  datatype Pick = NameMissing | NoProfile | Picked(profile: Functions.Profile)

  /**
   * A name picks with `getProfileByName` (no match among a non-empty list is
   * `null`), otherwise `highestCataProfileOld` picks; `at` is the picked index.
   */
  method PickProfile(list: Option<seq<Functions.Profile>>, name: string, uuid: string) returns (r: Pick, ghost at: int)
    ensures r.NameMissing? <==> (name != "" && list.Some? && list.value != []
      && forall k :: 0 <= k < |list.value| ==> !Functions.NameMatches(list.value[k], name))
    ensures r.Picked? ==> list.Some? && PickedAt(list.value, name, uuid, at) && list.value[at] == r.profile
    ensures r.Picked? && name == "" ==> uuid in r.profile.members
  {
    at := -1;
    if name != "" {
      var named := Functions.GetProfileByName(list, name);
      if named.NoSuchProfile? {
        return NameMissing, at;
      }
      if named.NoProfiles? {
        return NoProfile, at;
      }
      at :| 0 <= at < |list.value| && list.value[at] == named.profile
        && Functions.NameMatches(named.profile, name) && forall j :: 0 <= j < at ==> !Functions.NameMatches(list.value[j], name);
      return Picked(named.profile), at;
    }
    var highest := Functions.HighestCataProfileOld(list, uuid);
    if highest.None? {
      return NoProfile, at;
    }
    at :| Functions.IsHighestAt(list.value, uuid, at) && list.value[at] == highest.value;
    return Picked(highest.value), at;
  }

  /**
   * The profile and dungeons step of the full path: a response that is not an
   * array means no profile, any other failure is HYPIXEL_ERROR. Reading the
   * member of a named profile that lacks it, or the level of negative
   * experience, throws.
   */
  method SelectStats(reply: ProfilesReply, name: string, uuid: string, secrets: int) returns (st: StatsStep)
    ensures st.RequestFailed? <==> reply.ProfilesFailed?
    ensures reply.NotAnArray? ==> st == StatsOf(NoProfileDungeons(secrets))
    ensures st.NoSuchName? <==> (reply.Profiles? && name != "" && reply.list.Some? && reply.list.value != []
      && forall k :: 0 <= k < |reply.list.value| ==> !Functions.NameMatches(reply.list.value[k], name))
    ensures st.StatsOf? ==> StatsFrom(reply, name, uuid, secrets, st.d)
    ensures st.StatsThrown? ==> reply.Profiles? && reply.list.Some? && exists k :: (PickedAt(reply.list.value, name, uuid, k)
      && (uuid !in reply.list.value[k].members || MemberDungeons(reply.list.value[k].members[uuid], secrets).None?))
  {
    if reply.ProfilesFailed? {
      return RequestFailed;
    }
    if reply.NotAnArray? {
      return StatsOf(NoProfileDungeons(secrets));
    }
    var picked, at := PickProfile(reply.list, name, uuid);
    if picked.NameMissing? {
      return NoSuchName;
    }
    if picked.NoProfile? {
      return StatsOf(NoProfileDungeons(secrets));
    }
    var p := picked.profile;
    if uuid !in p.members {
      return StatsThrown;
    }
    var m := p.members[uuid];
    var level := Functions.CataLevel(m.cataXp);
    if level.None? {
      return StatsThrown;
    }
    st := StatsOf(Dungeons(level.value.Floor, secrets, m.killsUndead + m.killsSkeleton + m.killsMasterUndead,
      m.floorSevenSPlus, m.masterFiveSPlus, m.masterSixSPlus));
    assert MemberDungeons(m, secrets) == Some(st.d);
  }

  // ---------------------------------------------------------------- verify

  /** A Mojang account: the uuid and the current name. */
  datatype Account = Account(id: string, name: string)

  datatype VerifyError =
    | InvalidUsername | HypixelError | NoDiscord | HypixelDiscordMismatch
    | MongoDiscordMismatch | InvalidProfile | MissingCataLevel | InvalidCataLevel

  /**
   * The options of a call: `cataLevel` 0 when absent (0 is refused as missing),
   * `profile` "" when absent, `bypassApi` `None` when absent or null.
   */
  datatype VerifyOptions = VerifyOptions(cataLevel: int, profile: string, bypassDiscord: bool, bypassApi: Option<bool>, overrideDuplicate: bool)

  /** What `verify` gives: a failure code, a success, or an exception it lets escape. */
  datatype Outcome = Failure(code: VerifyError) | ManualSuccess | FullSuccess(dungeons: Dungeons) | Thrown

  /** The record as saved: the voted flags are set by the member's current roles, never cleared. */
  function VotedUser(u: UserRecord, roles: seq<RoleId>, cfg: BotConfig): UserRecord
  {
    u.(votedOut := u.votedOut || cfg.votedOut in roles, votedIn := u.votedIn || cfg.plusReq in roles)
  }

  /** The records after linking, before the save: only an insert is written. */
  function LinkedStore(users: map<string, UserRecord>, memberId: string, uuid: string, link: Linking): map<string, UserRecord>
  {
    if link.Inserted? then users[uuid := UserSchema(memberId, uuid)] else users
  }

  /** The records after the save of the linked record with its voted flags. */
  function SavedStore(users: map<string, UserRecord>, memberId: string, uuid: string, link: Linking, roles: seq<RoleId>, cfg: BotConfig): map<string, UserRecord>
    requires link != Inserted ==> uuid in users
  {
    users[uuid := VotedUser(LinkedUser(users, memberId, uuid, link), roles, cfg)]
  }

  /** The Hypixel player exists and, unless bypassed, names the member's tag as its Discord. */
  predicate PassesDiscord(player: Option<Player>, tag: string, bypass: bool)
  {
    player.Some? && (bypass || (player.value.discord != "" && player.value.discord == tag))
  }

  /** The full path's role list for these stats, given the roles before. */
  function EngineRoles(roles: seq<RoleId>, d: Dungeons, cfg: BotConfig): seq<RoleId>
    requires CataKeys(cfg.cata)
  {
    FullRoles(roles, EngineFlags(d, cfg.votedOut in roles, cfg.plusReq in roles), d.cataLevel, cfg)
  }

  /** The full path's nickname: the symbol is chosen before the member role is added. */
  function EngineNickname(roles: seq<RoleId>, d: Dungeons, name: string, emojis: string, cfg: BotConfig): string
    requires CataKeys(cfg.cata)
  {
    var base := FullBase(roles, EngineFlags(d, cfg.votedOut in roles, cfg.plusReq in roles), d.cataLevel, cfg);
    Nickname(d.cataLevel, name, emojis, LastSymbol(cfg.symbols, base))
  }

  /**
   * What the full path does once the Discord checks pass, relating the state
   * before and after: a conflicting record refuses and changes nothing; a
   * failure after the link keeps only the link's insert; a success saves the
   * linked record and edits the member. Only the verified member and, on an
   * override, the member who held the record are edited.
   */
  twostate predicate LinkedOutcome(store: UserStore, guild: map<string, Member>, member: Member, cfg: BotConfig,
    account: Account, secrets: int, profiles: ProfilesReply, emojis: string, options: VerifyOptions, r: Outcome)
    requires ValidConfig(cfg)
    reads store, member, guild.Values
  {
    var link := Linkage(old(store.users), guild, member.id, account.id, options.overrideDuplicate);
    && (link.Conflict? <==> r == Failure(MongoDiscordMismatch))
    && (link.Conflict? ==> store.users == old(store.users) && member.roles == old(member.roles) && member.nick == old(member.nick))
    && (!link.Conflict? ==>
      && r != ManualSuccess
      && (r.Failure? ==> r.code == HypixelError || r.code == InvalidProfile)
      && (r == Failure(HypixelError) <==> profiles.ProfilesFailed?)
      && (profiles.NotAnArray? ==> r == FullSuccess(NoProfileDungeons(secrets)))
      && (r == Failure(InvalidProfile) || r == Failure(HypixelError) || r == Thrown ==>
        && store.users == LinkedStore(old(store.users), member.id, account.id, link)
        && member.roles == old(member.roles) && member.nick == old(member.nick))
      && (r.FullSuccess? ==>
        && StatsFrom(profiles, options.profile, account.id, secrets, r.dungeons)
        && store.users == SavedStore(old(store.users), member.id, account.id, link, old(member.roles), cfg)
        && member.roles == EngineRoles(old(member.roles), r.dungeons, cfg)
        && member.nick == if member.manageable then Some(EngineNickname(old(member.roles), r.dungeons, account.name, emojis, cfg)) else old(member.nick)))
    && LinkedOthers(guild, member, cfg, link)
  }

  /**
   * Members other than the one being verified keep their roles and nickname,
   * except that on an override the member who held the record, when the bot
   * may edit it, is reset to the baseline roles with no nickname.
   */
  twostate predicate LinkedOthers(guild: map<string, Member>, member: Member, cfg: BotConfig, link: Linking)
    requires link.Overridden? ==> link.other in guild
    reads guild.Values
  {
    && (forall id :: id in guild && id != member.id && !(link.Overridden? && id == link.other && guild[id].manageable) ==>
      guild[id].roles == old(guild[id].roles) && guild[id].nick == old(guild[id].nick))
    && (link.Overridden? && guild[link.other].manageable ==>
      guild[link.other].roles == Dedup(cfg.fixRoles) && guild[link.other].nick.None?)
  }

  /**
   * The full path after the Mojang lookup: the Hypixel player and Discord checks,
   * then `AfterChecks`. A failed check changes nothing.
   */
  method FullPath(store: UserStore, guild: map<string, Member>, member: Member, cfg: BotConfig,
    account: Account, player: Option<Player>, profiles: ProfilesReply, emojis: string, options: VerifyOptions)
    returns (r: Outcome)
    requires ValidConfig(cfg) && GuildIds(guild) && member.id in guild && guild[member.id] == member
    requires Distinct(member.roles)
    modifies store, guild.Values
    ensures player.None? ==> r == Failure(HypixelError)
    ensures player.Some? && !options.bypassDiscord && player.value.discord == "" ==> r == Failure(NoDiscord)
    ensures player.Some? && !options.bypassDiscord && player.value.discord != "" && player.value.discord != member.tag ==>
      r == Failure(HypixelDiscordMismatch)
    ensures !PassesDiscord(player, member.tag, options.bypassDiscord) ==>
      && store.users == old(store.users)
      && (forall id :: id in guild ==> guild[id].roles == old(guild[id].roles) && guild[id].nick == old(guild[id].nick))
    ensures PassesDiscord(player, member.tag, options.bypassDiscord) ==>
      LinkedOutcome(store, guild, member, cfg, account, player.value.secrets, profiles, emojis, options, r)
  {
    if player.None? {
      return Failure(HypixelError);
    }
    var discord := player.value.discord;
    if discord == "" && !options.bypassDiscord {
      return Failure(NoDiscord);
    }
    if discord != member.tag && !options.bypassDiscord {
      return Failure(HypixelDiscordMismatch);
    }
    r := AfterChecks(store, guild, member, cfg, account, player.value.secrets, profiles, emojis, options);
  }

  /**
   * The link, the reset of an overridden member, the stats, the save and the
   * edit, once the Discord checks have passed.
   */
  method AfterChecks(store: UserStore, guild: map<string, Member>, member: Member, cfg: BotConfig,
    account: Account, secrets: int, profiles: ProfilesReply, emojis: string, options: VerifyOptions)
    returns (r: Outcome)
    requires ValidConfig(cfg) && GuildIds(guild) && member.id in guild && guild[member.id] == member
    requires Distinct(member.roles)
    modifies store, guild.Values
    ensures LinkedOutcome(store, guild, member, cfg, account, secrets, profiles, emojis, options, r)
  {
    var link, user := Link(store, guild, member.id, account.id, options.overrideDuplicate);
    if user.None? {
      return Failure(MongoDiscordMismatch);
    }
    if link.Overridden? {
      ResetMember(guild[link.other], cfg);
    }
    r := Finish(store, member, cfg, account, user.value, secrets, profiles, emojis, options);
    assert LinkedOthers(guild, member, cfg, link);
    if r.FullSuccess? {
      UpdateTwice(old(store.users), account.id, UserSchema(member.id, account.id), VotedUser(user.value, old(member.roles), cfg));
    }
  }

  /** Manual mode's nickname: the symbol is chosen on the final list, member role included. */
  function ManualNickname(roles: seq<RoleId>, level: int, name: string, emojis: string, cfg: BotConfig): string
    requires CataKeys(cfg.cata)
  {
    Nickname(level, name, emojis, LastSymbol(cfg.symbols, ManualRoles(roles, level, cfg)))
  }

  /**
   * Manual mode (`bypassApi` given as false): the staff-given level must be
   * non-zero and within 0..60. Then the record is linked as on the full path, saved
   * with its voted flags, and the member given `ManualRoles` and its nickname.
   * A refused level changes nothing.
   */
  method ManualPath(store: UserStore, guild: map<string, Member>, member: Member, cfg: BotConfig,
    account: Account, emojis: string, options: VerifyOptions)
    returns (r: Outcome)
    requires ValidConfig(cfg) && GuildIds(guild) && member.id in guild && guild[member.id] == member
    requires Distinct(member.roles)
    modifies store, guild.Values
    ensures options.cataLevel == 0 ==> r == Failure(MissingCataLevel)
    ensures options.cataLevel != 0 && (options.cataLevel < 0 || options.cataLevel > 60) ==> r == Failure(InvalidCataLevel)
    ensures !(1 <= options.cataLevel <= 60) ==>
      && store.users == old(store.users)
      && (forall id :: id in guild ==> guild[id].roles == old(guild[id].roles) && guild[id].nick == old(guild[id].nick))
    ensures 1 <= options.cataLevel <= 60 ==>
      ManualOutcome(store, guild, member, cfg, account, options.cataLevel, emojis, options.overrideDuplicate, r)
  {
    if options.cataLevel == 0 {
      return Failure(MissingCataLevel);
    }
    if options.cataLevel < 0 || options.cataLevel > 60 {
      return Failure(InvalidCataLevel);
    }
    r := ManualLinked(store, guild, member, cfg, account, options.cataLevel, emojis, options.overrideDuplicate);
  }

  /** What manual mode does once the level is accepted. */
  twostate predicate ManualOutcome(store: UserStore, guild: map<string, Member>, member: Member, cfg: BotConfig,
    account: Account, level: int, emojis: string, override: bool, r: Outcome)
    requires ValidConfig(cfg)
    reads store, member, guild.Values
  {
    var link := Linkage(old(store.users), guild, member.id, account.id, override);
    && (link.Conflict? <==> r == Failure(MongoDiscordMismatch))
    && (link.Conflict? ==> store.users == old(store.users) && member.roles == old(member.roles) && member.nick == old(member.nick))
    && (!link.Conflict? ==>
      && r == ManualSuccess
      && store.users == SavedStore(old(store.users), member.id, account.id, link, old(member.roles), cfg)
      && member.roles == ManualRoles(old(member.roles), level, cfg)
      && member.nick == if member.manageable then Some(ManualNickname(old(member.roles), level, account.name, emojis, cfg)) else old(member.nick))
    && LinkedOthers(guild, member, cfg, link)
  }

  /** Manual mode's link, save and edit. */
  method ManualLinked(store: UserStore, guild: map<string, Member>, member: Member, cfg: BotConfig,
    account: Account, level: int, emojis: string, override: bool)
    returns (r: Outcome)
    requires ValidConfig(cfg) && GuildIds(guild) && member.id in guild && guild[member.id] == member
    requires Distinct(member.roles)
    modifies store, guild.Values
    ensures ManualOutcome(store, guild, member, cfg, account, level, emojis, override, r)
  {
    var link, user := Link(store, guild, member.id, account.id, override);
    if user.None? {
      return Failure(MongoDiscordMismatch);
    }
    if link.Overridden? {
      ResetMember(guild[link.other], cfg);
    }
    ManualApply(store, member, cfg, account, user.value, level, emojis);
    assert LinkedOthers(guild, member, cfg, link);
    UpdateTwice(old(store.users), account.id, UserSchema(member.id, account.id), VotedUser(user.value, old(member.roles), cfg));
    return ManualSuccess;
  }

  /** Manual mode's save and edit: the record with its voted flags, then the added roles and the nickname. */
  method ManualApply(store: UserStore, member: Member, cfg: BotConfig, account: Account, user: UserRecord, level: int, emojis: string)
    requires ValidConfig(cfg) && Distinct(member.roles)
    modifies store, member
    ensures store.users == old(store.users)[account.id := VotedUser(user, old(member.roles), cfg)]
    ensures member.roles == ManualRoles(old(member.roles), level, cfg)
    ensures member.nick == if member.manageable then Some(ManualNickname(old(member.roles), level, account.name, emojis, cfg)) else old(member.nick)
  {
    store.users := store.users[account.id := VotedUser(user, member.roles, cfg)];
    ManualEdit(member, cfg, level, account.name, emojis);
  }

  /** Manual mode's edit: the level and member roles are added, and the nickname set when the bot may change it. */
  method ManualEdit(member: Member, cfg: BotConfig, level: int, name: string, emojis: string)
    requires ValidConfig(cfg) && Distinct(member.roles)
    modifies member
    ensures member.roles == ManualRoles(old(member.roles), level, cfg)
    ensures member.nick == if member.manageable then Some(ManualNickname(old(member.roles), level, name, emojis, cfg)) else old(member.nick)
  {
    var roles := member.roles;
    var finalRoles := AddManualRoles(roles, level, cfg);
    var symbol := ChooseSymbol(cfg.symbols, finalRoles);
    var nickname := Nickname(level, name, emojis, symbol);
    assert nickname == ManualNickname(roles, level, name, emojis, cfg);
    ManualOnlyAdds(roles, level, cfg);
    DedupDistinct(finalRoles);
    assert Dedup(finalRoles) == ManualRoles(roles, level, cfg);
    member.Edit(finalRoles, if member.manageable then SetNick(nickname) else KeepNick);
  }

  /**
   * `verify`: a failed Mojang lookup (`account` is None) is refused; `bypassApi`
   * given as false takes the manual path, anything else the full path. The
   * Mojang reply, the Hypixel player, the profiles reply and the emote string
   * are inputs.
   */
  method Verify(store: UserStore, guild: map<string, Member>, member: Member, cfg: BotConfig,
    account: Option<Account>, player: Option<Player>, profiles: ProfilesReply, emojis: string, options: VerifyOptions)
    returns (r: Outcome)
    requires ValidConfig(cfg) && GuildIds(guild) && member.id in guild && guild[member.id] == member
    requires Distinct(member.roles)
    modifies store, guild.Values
    ensures account.None? ==>
      && r == Failure(InvalidUsername)
      && store.users == old(store.users)
      && (forall id :: id in guild ==> guild[id].roles == old(guild[id].roles) && guild[id].nick == old(guild[id].nick))
    ensures account.Some? && options.bypassApi == Some(false) ==>
      && !r.FullSuccess? && r != Thrown
      && (options.cataLevel == 0 ==> r == Failure(MissingCataLevel))
      && (options.cataLevel != 0 && (options.cataLevel < 0 || options.cataLevel > 60) ==> r == Failure(InvalidCataLevel))
      && (!(1 <= options.cataLevel <= 60) ==>
        && store.users == old(store.users)
        && (forall id :: id in guild ==> guild[id].roles == old(guild[id].roles) && guild[id].nick == old(guild[id].nick)))
      && (1 <= options.cataLevel <= 60 ==>
        ManualOutcome(store, guild, member, cfg, account.value, options.cataLevel, emojis, options.overrideDuplicate, r))
    ensures account.Some? && options.bypassApi != Some(false) ==>
      && r != ManualSuccess
      && (player.None? ==> r == Failure(HypixelError))
      && (player.Some? && !options.bypassDiscord && player.value.discord == "" ==> r == Failure(NoDiscord))
      && (player.Some? && !options.bypassDiscord && player.value.discord != "" && player.value.discord != member.tag ==>
        r == Failure(HypixelDiscordMismatch))
      && (!PassesDiscord(player, member.tag, options.bypassDiscord) ==>
        && store.users == old(store.users)
        && (forall id :: id in guild ==> guild[id].roles == old(guild[id].roles) && guild[id].nick == old(guild[id].nick)))
      && (PassesDiscord(player, member.tag, options.bypassDiscord) ==>
        LinkedOutcome(store, guild, member, cfg, account.value, player.value.secrets, profiles, emojis, options, r))
  {
    if account.None? {
      return Failure(InvalidUsername);
    }
    if options.bypassApi == Some(false) {
      r := ManualPath(store, guild, member, cfg, account.value, emojis, options);
    } else {
      r := FullPath(store, guild, member, cfg, account.value, player, profiles, emojis, options);
    }
  }

  /**
   * The full path after the link: the stats step, then `Apply`.
   */
  method Finish(store: UserStore, member: Member, cfg: BotConfig, account: Account, user: UserRecord, secrets: int,
    profiles: ProfilesReply, emojis: string, options: VerifyOptions)
    returns (r: Outcome)
    requires ValidConfig(cfg) && Distinct(member.roles)
    modifies store, member
    ensures r == Failure(HypixelError) <==> profiles.ProfilesFailed?
    ensures r.Failure? ==> r.code == HypixelError || r.code == InvalidProfile
    ensures r != ManualSuccess
    ensures profiles.NotAnArray? ==> r == FullSuccess(NoProfileDungeons(secrets))
    ensures !r.FullSuccess? ==> store.users == old(store.users) && member.roles == old(member.roles) && member.nick == old(member.nick)
    ensures r.FullSuccess? ==>
      && StatsFrom(profiles, options.profile, account.id, secrets, r.dungeons)
      && store.users == old(store.users)[account.id := VotedUser(user, old(member.roles), cfg)]
      && member.roles == EngineRoles(old(member.roles), r.dungeons, cfg)
      && member.nick == if member.manageable then Some(EngineNickname(old(member.roles), r.dungeons, account.name, emojis, cfg)) else old(member.nick)
  {
    var st := SelectStats(profiles, options.profile, account.id, secrets);
    if st.RequestFailed? {
      return Failure(HypixelError);
    }
    if st.NoSuchName? {
      return Failure(InvalidProfile);
    }
    if st.StatsThrown? {
      return Thrown;
    }
    Apply(store, member, cfg, account, user, st.d, emojis);
    return FullSuccess(st.d);
  }

  /** The save of the linked record with its voted flags, then the flags, roles, symbol and edit. */
  method Apply(store: UserStore, member: Member, cfg: BotConfig, account: Account, user: UserRecord, d: Dungeons, emojis: string)
    requires ValidConfig(cfg) && Distinct(member.roles)
    modifies store, member
    ensures store.users == old(store.users)[account.id := VotedUser(user, old(member.roles), cfg)]
    ensures member.roles == EngineRoles(old(member.roles), d, cfg)
    ensures member.nick == if member.manageable then Some(EngineNickname(old(member.roles), d, account.name, emojis, cfg)) else old(member.nick)
  {
    var roles := member.roles;
    var saved := VotedUser(user, roles, cfg);
    var finalRoles, nickname := EngineEdit(roles, d, account.name, emojis, cfg);
    member.Edit(finalRoles, if member.manageable then SetNick(nickname) else KeepNick);
    store.users := store.users[account.id := saved];
  }

  /** The role list and nickname the full path edits in, computed step by step. */
  method EngineEdit(roles: seq<RoleId>, d: Dungeons, name: string, emojis: string, cfg: BotConfig)
    returns (finalRoles: seq<RoleId>, nickname: string)
    requires ValidConfig(cfg) && Distinct(roles)
    ensures Dedup(finalRoles) == EngineRoles(roles, d, cfg)
    ensures nickname == EngineNickname(roles, d, name, emojis, cfg)
  {
    var f := ComputeFlags(d, cfg.votedOut in roles, cfg.plusReq in roles);
    var base := ReconcileRoles(roles, f, d.cataLevel, cfg);
    var symbol := ChooseSymbol(cfg.symbols, base);
    nickname := Nickname(d.cataLevel, name, emojis, symbol);
    finalRoles := AddIfAbsent(base, cfg.memberRole);
    FullRolesDistinct(roles, f, d.cataLevel, cfg);
    DedupDistinct(finalRoles);
  }
}
