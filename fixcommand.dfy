/**
 * `/fix user`: puts the baseline `fixRoles` back on a member, keeping every
 * role the member already has.
 */
module FixCommand {
  import opened Wrappers
  import opened RoleLists
  import opened Config
  import opened Discord

  /** `removeDuplicates(roles.concat(fixRoles))`. */
  function Fixed(roles: seq<RoleId>, fix: seq<RoleId>): seq<RoleId>
  {
    Dedup(roles + fix)
  }

  /**
   * Deduplicating `a + b` for a repeat-free `a` is `a` followed by the
   * deduplicated elements of `b` that `a` lacks, in `b`'s order.
   */
  lemma {:induction false} DedupAppend(a: seq<RoleId>, b: seq<RoleId>)
    requires Distinct(a)
    ensures Dedup(a + b) == a + Dedup(FilterOut(b, ToSet(a)))
    decreases |b|
  {
    if b == [] {
      assert a + b == a;
      DedupDistinct(a);
      assert FilterOut(b, ToSet(a)) == [];
      assert a + [] == a;
    } else {
      var init, x := b[..|b| - 1], b[|b| - 1];
      assert b == init + [x];
      assert a + b == (a + init) + [x];
      var f := FilterOut(init, ToSet(a));
      FilterOutAppend(init, [x], ToSet(a));
      DedupSnoc(a + init, x);
      DedupAppend(a, init);
      FilterOutSingle(x, ToSet(a));
      AddBehind(a, Dedup(f), x);
      if x in a {
        assert f + [] == f;
      } else {
        DedupSnoc(f, x);
      }
    }
  }

  /** Adding `x` behind `a + d` adds it behind `d` unless `a` already holds it. */
  lemma AddBehind(a: seq<RoleId>, d: seq<RoleId>, x: RoleId)
    ensures AddIfAbsent(a + d, x) == a + (if x in a then d else AddIfAbsent(d, x))
  {
    if x !in a && x !in d {
      assert (a + d) + [x] == a + (d + [x]);
    }
  }

  lemma FilterOutSingle(x: RoleId, m: set<RoleId>)
    ensures FilterOut([x], m) == if x in m then [] else [x]
  {
    assert [x][1..] == [];
  }

  /**
   * On a member's repeat-free roles: the original roles come first, in their
   * order; every missing `fixRoles` id follows in config order; the result
   * holds exactly the roles of both, without repeats.
   */
  lemma FixedSpec(roles: seq<RoleId>, fix: seq<RoleId>)
    requires Distinct(roles)
    ensures Fixed(roles, fix) == roles + Dedup(FilterOut(fix, ToSet(roles)))
    ensures roles <= Fixed(roles, fix)
    ensures forall r :: r in fix ==> r in Fixed(roles, fix)
    ensures ToSet(Fixed(roles, fix)) == ToSet(roles) + ToSet(fix)
    ensures Distinct(Fixed(roles, fix))
  {
    DedupAppend(roles, fix);
    assert ToSet(roles + fix) == ToSet(roles) + ToSet(fix);
    forall r | r in fix ensures r in Fixed(roles, fix) {
      assert r in ToSet(roles + fix);
    }
  }

  /** A member who already holds every baseline role is left as is. */
  lemma FixedIdempotent(roles: seq<RoleId>, fix: seq<RoleId>)
    requires Distinct(roles)
    ensures Fixed(Fixed(roles, fix), fix) == Fixed(roles, fix)
  {
    var once := Fixed(roles, fix);
    FixedSpec(roles, fix);
    DedupAppend(once, fix);
    var rest := FilterOut(fix, ToSet(once));
    assert once + [] == once;
  }

  datatype FixReply = NotInServer | FixedRoles

  /**
   * A member who cannot be fetched is refused and nothing changes; otherwise
   * the member's roles become `Fixed` of the old ones and the nickname is not
   * touched.
   */
  method Execute(guild: map<string, Member>, targetId: string, cfg: BotConfig) returns (r: FixReply)
    requires GuildIds(guild)
    modifies guild.Values
    ensures r == NotInServer <==> targetId !in guild
    ensures r == FixedRoles ==>
      && guild[targetId].roles == Fixed(old(guild[targetId].roles), cfg.fixRoles)
      && guild[targetId].nick == old(guild[targetId].nick)
    ensures forall id :: id in guild && id != targetId ==> guild[id].roles == old(guild[id].roles) && guild[id].nick == old(guild[id].nick)
  {
    var fetched := Find(guild, targetId);
    if fetched.None? {
      return NotInServer;
    }
    var member := fetched.value;
    var roles := Fixed(member.roles, cfg.fixRoles);
    DedupDistinct(roles);
    member.Edit(roles, KeepNick);
    return FixedRoles;
  }
}
