/**
 * `/unverify user`: strips a member's roles down to the baseline `fixRoles`,
 * deletes their record and clears their nickname. The role filter splices the
 * array it is iterating with `forEach`, so it does not visit every role.
 */
module UnverifyCommand {
  import opened Wrappers
  import opened RoleLists
  import opened Config
  import opened Schema
  import opened Discord

  /**
   * What the `forEach`-with-`splice` loop leaves of `s`: a fix role is kept and
   * the walk moves on; any other role is removed, which shifts the next role
   * into the visited index, so that next role is kept without being looked at.
   */
  function Swept(s: seq<RoleId>, fix: seq<RoleId>): seq<RoleId>
  {
    if s == [] then []
    else if s[0] in fix then [s[0]] + Swept(s[1..], fix)
    else if |s| == 1 then []
    else [s[1]] + Swept(s[2..], fix)
  }

  /** No fix role is ever removed. */
  lemma {:induction false} SweptKeepsFixRoles(s: seq<RoleId>, fix: seq<RoleId>, x: RoleId)
    requires x in s && x in fix
    ensures x in Swept(s, fix)
  {
    if s[0] != x {
      if s[0] in fix {
        SweptKeepsFixRoles(s[1..], fix, x);
      } else if s[1] != x {
        assert x in s[2..] by {
          var i :| 0 <= i < |s| && s[i] == x;
          assert s[2..][i - 2] == x;
        }
        SweptKeepsFixRoles(s[2..], fix, x);
      }
    }
  }

  /** The result keeps roles of the original only, in their order. */
  lemma {:induction false} SweptIsSubsequence(s: seq<RoleId>, fix: seq<RoleId>)
    ensures IsSubsequence(Swept(s, fix), s)
  {
    if s != [] {
      if s[0] in fix {
        SweptIsSubsequence(s[1..], fix);
        var r := Swept(s, fix);
        assert r[0] == s[0] && r[1..] == Swept(s[1..], fix);
      } else if |s| >= 2 {
        SweptIsSubsequence(s[2..], fix);
        var r := Swept(s, fix);
        assert r[0] == s[1] && r[1..] == Swept(s[2..], fix);
        assert s[1..][1..] == s[2..];
        assert IsSubsequence(r, s[1..]);
        SubsequenceOfTailFrom(r, s);
      }
    }
  }

  /** Two roles outside `fixRoles`: the second is skipped, so [a, b] becomes [b], not []. */
  lemma SweptSkipsSecond(a: RoleId, b: RoleId, fix: seq<RoleId>)
    requires a !in fix && b !in fix
    ensures Swept([a, b], fix) == [b]
  {
    assert [a, b][2..] == [];
  }

  /** A duplicate-free list stays duplicate-free. */
  lemma {:induction false} SweptDistinct(s: seq<RoleId>, fix: seq<RoleId>)
    requires Distinct(s)
    ensures Distinct(Swept(s, fix))
  {
    if s != [] {
      var rest := if s[0] in fix then s[1..] else if |s| >= 2 then s[2..] else [];
      if |s| >= 2 || s[0] in fix {
        assert Distinct(rest) by {
          forall i, j | 0 <= i < j < |rest| ensures rest[i] != rest[j] {
            var off := |s| - |rest|;
            assert rest[i] == s[i + off] && rest[j] == s[j + off];
          }
        }
        SweptDistinct(rest, fix);
        var head := if s[0] in fix then s[0] else s[1];
        assert head !in rest by {
          forall k | 0 <= k < |rest| ensures rest[k] != head {
            var off := |s| - |rest|;
            assert rest[k] == s[k + off];
          }
        }
        SweptIsSubsequence(rest, fix);
        assert head !in Swept(rest, fix) by {
          if head in Swept(rest, fix) {
            SubsequenceMembers(Swept(rest, fix), rest, head);
          }
        }
        DistinctCons(head, Swept(rest, fix));
      }
    }
  }

  /** When `s[k]` does not occur before index `k`, removing its first occurrence removes index `k`. */
  lemma {:induction false} RemoveFirstBefore(s: seq<RoleId>, k: int)
    requires 0 <= k < |s| && s[k] !in s[..k]
    ensures RemoveFirst(s, s[k]) == s[..k] + s[k + 1..]
  {
    if k > 0 {
      assert s[..k][0] == s[0];
      var t := s[1..];
      assert t[k - 1] == s[k] && t[..k - 1] == s[..k][1..];
      RemoveFirstBefore(t, k - 1);
      assert s[..k] == [s[0]] + t[..k - 1];
      assert s[k + 1..] == t[k..];
    }
  }

  /** With a duplicate-free list, `splice(indexOf(s[k]), 1)` removes index `k`. */
  lemma RemoveFirstAt(s: seq<RoleId>, k: int)
    requires Distinct(s) && 0 <= k < |s|
    ensures RemoveFirst(s, s[k]) == s[..k] + s[k + 1..]
  {
    forall j | 0 <= j < k ensures s[..k][j] != s[k] {
      assert s[..k][j] == s[j];
    }
    RemoveFirstBefore(s, k);
  }

  /** The sweep's final result seen from index `k` of the current array: what is before it stays, the rest is swept. */
  function Walked(roles: seq<RoleId>, k: nat, fix: seq<RoleId>): seq<RoleId>
  {
    var m := if k < |roles| then k else |roles|;
    roles[..m] + Swept(roles[m..], fix)
  }

  /** Visiting a fix role at index `k` moves the walk on. */
  lemma WalkKeep(roles: seq<RoleId>, k: nat, fix: seq<RoleId>)
    requires k < |roles| && roles[k] in fix
    ensures Walked(roles, k + 1, fix) == Walked(roles, k, fix)
  {
    assert roles[..k + 1] == roles[..k] + [roles[k]];
    assert roles[k..][1..] == roles[k + 1..];
  }

  /** Removing the role at index `k` and moving on skips the role that slides into `k`. */
  lemma WalkRemove(roles: seq<RoleId>, k: nat, fix: seq<RoleId>)
    requires k < |roles| && roles[k] !in fix
    ensures Walked(roles[..k] + roles[k + 1..], k + 1, fix) == Walked(roles, k, fix)
  {
    var after := roles[..k] + roles[k + 1..];
    if k + 1 < |roles| {
      assert after[..k + 1] == roles[..k] + [roles[k + 1]];
      assert after[k + 1..] == roles[k + 2..];
      assert roles[k..][1] == roles[k + 1] && roles[k..][2..] == roles[k + 2..];
    } else {
      assert after == roles[..k] && roles[k..] == [roles[k]];
    }
  }

  /**
   * `roles.forEach(role => { if (!fixRoles.includes(role)) roles.splice(roles.indexOf(role), 1) })`:
   * the walk runs over the original length, reading `roles[k]` of the shrinking array.
   */
  method SweepRoles(original: seq<RoleId>, fix: seq<RoleId>) returns (roles: seq<RoleId>)
    requires Distinct(original)
    ensures roles == Swept(original, fix)
  {
    roles := original;
    var k := 0;
    assert Walked(roles, 0, fix) == Swept(original, fix) by {
      assert roles[..0] == [] && roles[0..] == roles;
    }
    while k < |original|
      invariant 0 <= k && |roles| <= |original|
      invariant Distinct(roles)
      invariant Walked(roles, k, fix) == Swept(original, fix)
    {
      if k < |roles| {
        var role := roles[k];
        if !(role in fix) {
          RemoveFirstAt(roles, k);
          RemoveFirstDistinct(roles, role);
          WalkRemove(roles, k, fix);
          roles := RemoveFirst(roles, role);
        } else {
          WalkKeep(roles, k, fix);
        }
      }
      k := k + 1;
    }
    assert roles[..|roles|] == roles && roles[|roles|..] == [];
  }

  datatype UnverifyReply = NotInServer | Unverified

  /**
   * A member who cannot be fetched is refused and nothing changes. Otherwise the
   * record filed under the member's id is deleted when there is one, the roles
   * become what the sweep leaves, and the nickname is cleared when the bot may change it.
   */
  method Execute(store: UserStore, guild: map<string, Member>, targetId: string, cfg: BotConfig) returns (r: UnverifyReply)
    requires GuildIds(guild)
    requires targetId in guild ==> Distinct(guild[targetId].roles)
    modifies store, guild.Values
    ensures r == NotInServer <==> targetId !in guild
    ensures r == NotInServer ==> store.users == old(store.users)
    ensures r == Unverified ==>
      var m := guild[targetId];
      && store.users == old(store.users) - {targetId}
      && m.roles == Swept(old(m.roles), cfg.fixRoles)
      && m.nick == (if m.manageable then None else old(m.nick))
    ensures forall id :: id in guild && id != targetId ==> guild[id].roles == old(guild[id].roles) && guild[id].nick == old(guild[id].nick)
  {
    var fetched := Find(guild, targetId);
    if fetched.None? {
      return NotInServer;
    }
    var member := fetched.value;
    var roles := SweepRoles(member.roles, cfg.fixRoles);
    if Find(store.users, member.id).Some? {
      store.users := store.users - {member.id};
    }
    SweptDistinct(member.roles, cfg.fixRoles);
    DedupDistinct(roles);
    member.Edit(roles, if member.manageable then ClearNick else KeepNick);
    return Unverified;
  }
}
