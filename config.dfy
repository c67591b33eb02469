/**
 * The parts of the bot configuration (`config.discord.roles`, `config.discord.symbols`,
 * `config.emotes`) that verification, the emote manager and the role commands read.
 * The configuration is an immutable value for the duration of one command.
 */
module Config {
  import opened RoleLists

  /** One entry of `roles.cata`: the level written as the object key, and the role id. */
  datatype CataEntry = CataEntry(level: nat, role: RoleId)

  /** One entry of `emotes.milestones`; `requiredRole` ("requires" in the configuration) is "" when the milestone has none. */
  datatype Milestone = Milestone(role: RoleId, requiredRole: RoleId, emote: string)

  /** One entry of `emotes.slots`: holding `role` unlocks the slot called `name`. */
  datatype SlotUnlock = SlotUnlock(role: RoleId, name: string)

  /** A `symbols` entry: holding `role` replaces the level brackets by `symbol`. */
  datatype SymbolEntry = SymbolEntry(role: RoleId, symbol: string)

  datatype BotConfig = BotConfig(
    cata: seq<CataEntry>,
    topPlus: RoleId,
    topNormal: RoleId,
    topMinus: RoleId,
    votedOut: RoleId,
    plusReq: RoleId,
    speedRunner: RoleId,
    secretDuper: RoleId,
    memberRole: RoleId,
    fixRoles: seq<RoleId>,
    symbols: seq<SymbolEntry>,
    milestones: seq<Milestone>,
    slotUnlocks: seq<SlotUnlock>)

  /**
   * `roles.cata` has the keys "30", "35" and "40" to "60". JavaScript enumerates
   * integer-like keys in ascending order, so entry k holds level 30, 35, then 38 + k.
   */
  predicate CataKeys(cata: seq<CataEntry>)
  {
    |cata| == 23 && cata[0].level == 30 && cata[1].level == 35
    && forall k :: 2 <= k < 23 ==> cata[k].level == 38 + k
  }

  predicate HasCataKey(level: int)
  {
    level == 30 || level == 35 || 40 <= level <= 60
  }

  function CataIndex(level: int): (k: nat)
    requires HasCataKey(level)
    ensures k < 23
  {
    if level == 30 then 0 else if level == 35 then 1 else level - 38
  }

  /** `roles.cata[level]`. */
  function CataRole(cfg: BotConfig, level: int): RoleId
    requires CataKeys(cfg.cata) && HasCataKey(level)
  {
    cfg.cata[CataIndex(level)].role
  }

  function CataRoleList(cata: seq<CataEntry>): (r: seq<RoleId>)
    ensures |r| == |cata|
    ensures forall k :: 0 <= k < |cata| ==> r[k] == cata[k].role
  {
    seq(|cata|, k requires 0 <= k < |cata| => cata[k].role)
  }

  function CataRoleSet(cfg: BotConfig): set<RoleId>
  {
    set e | e in cfg.cata :: e.role
  }

  function TopRoles(cfg: BotConfig): set<RoleId>
  {
    {cfg.topPlus, cfg.topNormal, cfg.topMinus}
  }

  /** Every role the full verification removes before it re-adds what applies. */
  function ManagedRoles(cfg: BotConfig): set<RoleId>
  {
    CataRoleSet(cfg) + TopRoles(cfg) + {cfg.speedRunner, cfg.secretDuper}
  }

  /**
   * The configuration the bot assumes: the cata keys above, and the cata, top,
   * badge and member role ids pairwise distinct.
   */
  predicate ValidConfig(cfg: BotConfig)
  {
    && CataKeys(cfg.cata)
    && Distinct(CataRoleList(cfg.cata))
    && cfg.topPlus != cfg.topNormal && cfg.topPlus != cfg.topMinus && cfg.topNormal != cfg.topMinus
    && cfg.speedRunner != cfg.secretDuper
    && cfg.speedRunner !in TopRoles(cfg) && cfg.secretDuper !in TopRoles(cfg)
    && cfg.memberRole !in TopRoles(cfg) + {cfg.speedRunner, cfg.secretDuper}
    && forall k :: 0 <= k < |cfg.cata| ==> cfg.cata[k].role !in TopRoles(cfg) + {cfg.speedRunner, cfg.secretDuper, cfg.memberRole}
  }

  lemma CataRoleFacts(cfg: BotConfig, level: int)
    requires ValidConfig(cfg) && HasCataKey(level)
    ensures CataRole(cfg, level) in CataRoleSet(cfg)
    ensures CataRole(cfg, level) !in TopRoles(cfg) + {cfg.speedRunner, cfg.secretDuper, cfg.memberRole}
  {
    assert cfg.cata[CataIndex(level)] in cfg.cata;
  }

  /** Different cata keys name different roles. */
  lemma CataRolesDiffer(cfg: BotConfig, a: int, b: int)
    requires ValidConfig(cfg) && HasCataKey(a) && HasCataKey(b) && a != b
    ensures CataRole(cfg, a) != CataRole(cfg, b)
  {
    var l := CataRoleList(cfg.cata);
    var i, j := CataIndex(a), CataIndex(b);
    assert l[i] == CataRole(cfg, a) && l[j] == CataRole(cfg, b);
    if i < j {
      assert l[i] != l[j];
    } else {
      assert l[j] != l[i];
    }
  }

  lemma MemberNotManaged(cfg: BotConfig)
    requires ValidConfig(cfg)
    ensures cfg.memberRole !in ManagedRoles(cfg)
  {
    forall e | e in cfg.cata ensures e.role != cfg.memberRole {
      var k :| 0 <= k < |cfg.cata| && cfg.cata[k] == e;
    }
  }
}
