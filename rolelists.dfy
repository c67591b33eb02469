/**
 * Arrays of role ids (and other lists) as the bot manipulates them with
 * `includes`, `push`, `splice(indexOf(x), 1)`, `filter` and `[...new Set(..)]`.
 */
module RoleLists {

  /** A Discord role id (a snowflake string). */
  type RoleId = string

  function ToSet(s: seq<string>): set<string>
  {
    set x | x in s
  }

  predicate Distinct(s: seq<string>)
  {
    forall i, j :: 0 <= i < j < |s| ==> s[i] != s[j]
  }

  /** `a` is `b` with some elements deleted, the rest kept in order. */
  predicate IsSubsequence(a: seq<string>, b: seq<string>)
    decreases |b|
  {
    a == [] || (b != [] && ((a[0] == b[0] && IsSubsequence(a[1..], b[1..])) || IsSubsequence(a, b[1..])))
  }

  /** `if (s.includes(x)) s.splice(s.indexOf(x), 1)`: drops the first occurrence of `x`. */
  function RemoveFirst(s: seq<string>, x: string): (r: seq<string>)
    ensures x !in s ==> r == s
    ensures x in s ==> |r| == |s| - 1
    ensures forall y :: y in r ==> y in s
    ensures forall y :: y in s && y != x ==> y in r
  {
    if s == [] then []
    else if s[0] == x then s[1..]
    else [s[0]] + RemoveFirst(s[1..], x)
  }

  /** `s.filter(x => !m.has(x))`. */
  function FilterOut(s: seq<string>, m: set<string>): (r: seq<string>)
    ensures forall x :: x in r <==> x in s && x !in m
    ensures |r| <= |s|
  {
    if s == [] then []
    else (if s[0] in m then [] else [s[0]]) + FilterOut(s[1..], m)
  }

  /** `if (!s.includes(x)) s.push(x)`. */
  function AddIfAbsent(s: seq<string>, x: string): (r: seq<string>)
    ensures s <= r
    ensures ToSet(r) == ToSet(s) + {x}
  {
    if x in s then s else s + [x]
  }

  /** `[...new Set(s)]`: the first occurrence of every element, in order. */
  function Dedup(s: seq<string>): (r: seq<string>)
    ensures ToSet(r) == ToSet(s)
    ensures Distinct(r)
  {
    if s == [] then []
    else
      var d := Dedup(s[..|s| - 1]);
      assert s == s[..|s| - 1] + [s[|s| - 1]];
      AddIfAbsent(d, s[|s| - 1])
  }

  lemma {:induction false} RemoveFirstDistinct(s: seq<string>, x: string)
    requires Distinct(s)
    ensures RemoveFirst(s, x) == FilterOut(s, {x})
    ensures Distinct(RemoveFirst(s, x))
  {
    if s != [] {
      assert Distinct(s[1..]) by {
        forall i, j | 0 <= i < j < |s[1..]| ensures s[1..][i] != s[1..][j] {
          assert s[1..][i] == s[i + 1] && s[1..][j] == s[j + 1];
        }
      }
      RemoveFirstDistinct(s[1..], x);
      if s[0] == x {
        assert x !in s[1..] by {
          forall k | 0 <= k < |s[1..]| ensures s[1..][k] != x {
            assert s[1..][k] == s[k + 1];
          }
        }
        FilterOutAbsent(s[1..], {x});
      } else {
        assert s[0] !in RemoveFirst(s[1..], x) by {
          forall k | 0 <= k < |s[1..]| ensures s[1..][k] != s[0] {
            assert s[1..][k] == s[k + 1];
          }
        }
        DistinctCons(s[0], RemoveFirst(s[1..], x));
      }
    }
  }

  /** Filtering out elements that do not occur changes nothing. */
  lemma {:induction false} FilterOutAbsent(s: seq<string>, m: set<string>)
    requires forall x :: x in s ==> x !in m
    ensures FilterOut(s, m) == s
  {
    if s != [] {
      FilterOutAbsent(s[1..], m);
    }
  }

  lemma DistinctCons(x: string, s: seq<string>)
    requires Distinct(s) && x !in s
    ensures Distinct([x] + s)
  {
    forall i, j | 0 <= i < j < |[x] + s| ensures ([x] + s)[i] != ([x] + s)[j] {
      if i > 0 {
        assert ([x] + s)[i] == s[i - 1];
      }
      assert ([x] + s)[j] == s[j - 1];
    }
  }

  lemma {:induction false} FilterOutDistinct(s: seq<string>, m: set<string>)
    requires Distinct(s)
    ensures Distinct(FilterOut(s, m))
  {
    if s != [] {
      assert Distinct(s[1..]) by {
        forall i, j | 0 <= i < j < |s[1..]| ensures s[1..][i] != s[1..][j] {
          assert s[1..][i] == s[i + 1] && s[1..][j] == s[j + 1];
        }
      }
      FilterOutDistinct(s[1..], m);
      if s[0] !in m {
        assert s[0] !in s[1..] by {
          forall k | 0 <= k < |s[1..]| ensures s[1..][k] != s[0] {
            assert s[1..][k] == s[k + 1];
          }
        }
        DistinctCons(s[0], FilterOut(s[1..], m));
      }
    }
  }

  lemma {:induction false} FilterOutTwice(s: seq<string>, a: set<string>, b: set<string>)
    ensures FilterOut(FilterOut(s, a), b) == FilterOut(s, a + b)
  {
    if s != [] {
      FilterOutTwice(s[1..], a, b);
      var head := if s[0] in a then [] else [s[0]];
      FilterOutAppend(head, FilterOut(s[1..], a), b);
      if s[0] !in a {
        assert FilterOut(head, b) == (if s[0] in b then [] else [s[0]]) by {
          assert head[1..] == [];
        }
      }
    }
  }

  lemma {:induction false} FilterOutAppend(s: seq<string>, t: seq<string>, m: set<string>)
    ensures FilterOut(s + t, m) == FilterOut(s, m) + FilterOut(t, m)
  {
    if s == [] {
      assert s + t == t;
    } else {
      assert (s + t)[1..] == s[1..] + t;
      FilterOutAppend(s[1..], t, m);
    }
  }

  lemma AppendDistinct(s: seq<string>, t: seq<string>)
    requires Distinct(s) && Distinct(t)
    requires forall x :: x in s ==> x !in t
    ensures Distinct(s + t)
  {
    forall i, j | 0 <= i < j < |s + t| ensures (s + t)[i] != (s + t)[j] {
      if j < |s| {
      } else if i < |s| {
        assert (s + t)[i] in s && (s + t)[j] in t;
      } else {
        assert (s + t)[i] == t[i - |s|] && (s + t)[j] == t[j - |s|];
      }
    }
  }

  /** A list without repeats is its own deduplication. */
  lemma {:induction false} DedupDistinct(s: seq<string>)
    requires Distinct(s)
    ensures Dedup(s) == s
  {
    if s != [] {
      var init := s[..|s| - 1];
      assert Distinct(init) by {
        forall i, j | 0 <= i < j < |init| ensures init[i] != init[j] {
          assert init[i] == s[i] && init[j] == s[j];
        }
      }
      DedupDistinct(init);
      assert s[|s| - 1] !in init by {
        forall k | 0 <= k < |init| ensures init[k] != s[|s| - 1] {
          assert init[k] == s[k];
        }
      }
      assert init + [s[|s| - 1]] == s;
    }
  }

  /** Deduplicating `a + b` keeps a repeat-free `a` untouched at the front. */
  lemma {:induction false} DedupKeepsPrefix(a: seq<string>, b: seq<string>)
    requires Distinct(a)
    ensures a <= Dedup(a + b)
    decreases |b|
  {
    if b == [] {
      assert a + b == a;
      DedupDistinct(a);
    } else {
      var s := a + b;
      var init := s[..|s| - 1];
      assert init == a + b[..|b| - 1];
      DedupKeepsPrefix(a, b[..|b| - 1]);
      DedupLast(s);
    }
  }

  /** Deduplicating one more element at the back adds it when it is new. */
  lemma DedupSnoc(s: seq<string>, x: string)
    ensures Dedup(s + [x]) == AddIfAbsent(Dedup(s), x)
  {
    var t := s + [x];
    assert t[..|t| - 1] == s && t[|t| - 1] == x;
  }

  lemma DedupLast(s: seq<string>)
    requires s != []
    ensures Dedup(s[..|s| - 1]) <= Dedup(s)
  {
  }

  /** Removing the first occurrence of an element just appended restores the list. */
  lemma {:induction false} RemoveFirstAppended(s: seq<string>, x: string)
    requires x !in s
    ensures RemoveFirst(s + [x], x) == s
  {
    if s == [] {
      assert s + [x] == [x];
    } else {
      assert (s + [x])[1..] == s[1..] + [x];
      RemoveFirstAppended(s[1..], x);
    }
  }

  /** `RemoveFirst` takes one `x` out of the multiset of elements, when there is one. */
  lemma {:induction false} RemoveFirstMultiset(s: seq<string>, x: string)
    ensures multiset(RemoveFirst(s, x)) == multiset(s) - multiset{x}
  {
    if s != [] {
      assert s == [s[0]] + s[1..];
      if s[0] != x {
        RemoveFirstMultiset(s[1..], x);
      }
    }
  }

  /** Seen without `x`, a list is the same before and after one `x` is removed. */
  lemma {:induction false} FilterOutRemoveFirst(s: seq<string>, x: string)
    ensures FilterOut(RemoveFirst(s, x), {x}) == FilterOut(s, {x})
  {
    if s != [] && s[0] != x {
      var r := [s[0]] + RemoveFirst(s[1..], x);
      assert r[0] == s[0] && r[1..] == RemoveFirst(s[1..], x);
      FilterOutRemoveFirst(s[1..], x);
    }
  }

  /** `RemoveFirst` deletes one element and keeps the rest in order. */
  lemma {:induction false} RemoveFirstSubsequence(s: seq<string>, x: string)
    ensures IsSubsequence(RemoveFirst(s, x), s)
  {
    if s != [] {
      if s[0] == x {
        SubsequenceOfTail(s);
      } else {
        RemoveFirstSubsequence(s[1..], x);
        var r := [s[0]] + RemoveFirst(s[1..], x);
        assert r[1..] == RemoveFirst(s[1..], x);
      }
    }
  }

  lemma SubsequenceOfTail(s: seq<string>)
    requires s != []
    ensures IsSubsequence(s[1..], s)
  {
    SubsequenceReflexive(s[1..]);
  }

  lemma {:induction false} SubsequenceOfTailFrom(a: seq<string>, s: seq<string>)
    requires s != [] && IsSubsequence(a, s[1..])
    ensures IsSubsequence(a, s)
  {
  }

  lemma {:induction false} SubsequenceReflexive(s: seq<string>)
    ensures IsSubsequence(s, s)
  {
    if s != [] {
      SubsequenceReflexive(s[1..]);
    }
  }

  /** A subsequence of a subsequence is a subsequence. */
  lemma {:induction false} SubsequenceTransitive(a: seq<string>, b: seq<string>, c: seq<string>)
    requires IsSubsequence(a, b) && IsSubsequence(b, c)
    ensures IsSubsequence(a, c)
    decreases |c|
  {
    if a != [] {
      assert c != [];
      if b[0] == c[0] && IsSubsequence(b[1..], c[1..]) {
        if a[0] == b[0] && IsSubsequence(a[1..], b[1..]) {
          SubsequenceTransitive(a[1..], b[1..], c[1..]);
        } else {
          SubsequenceTransitive(a, b[1..], c[1..]);
        }
      } else {
        SubsequenceTransitive(a, b, c[1..]);
      }
    }
  }

  /** Elements of a subsequence come from the longer list. */
  lemma {:induction false} SubsequenceMembers(a: seq<string>, b: seq<string>, x: string)
    requires IsSubsequence(a, b) && x in a
    ensures x in b
    decreases |b|
  {
    if a[0] == b[0] && IsSubsequence(a[1..], b[1..]) {
      if x != a[0] {
        SubsequenceMembers(a[1..], b[1..], x);
      }
    } else {
      SubsequenceMembers(a, b[1..], x);
    }
  }
}
