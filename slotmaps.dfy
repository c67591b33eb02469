/**
 * A plain JavaScript object with string values (`{ default: "none", booster: "🔥" }`),
 * as the emote slots are kept: its own keys in insertion order, each key once.
 * Reading a key that is absent gives `undefined` (`None`); writing an absent
 * key appends it, writing a present key keeps its position.
 */
module SlotMaps {
  import opened Wrappers

  datatype Entry = Entry(key: string, value: string)

  type Slots = seq<Entry>

  /** `Object.keys(o)`. */
  function Keys(s: Slots): (ks: seq<string>)
    ensures |ks| == |s|
    ensures forall i :: 0 <= i < |s| ==> ks[i] == s[i].key
  {
    seq(|s|, i requires 0 <= i < |s| => s[i].key)
  }

  /** `Object.values(o)`. */
  function Values(s: Slots): (vs: seq<string>)
    ensures |vs| == |s|
    ensures forall i :: 0 <= i < |s| ==> vs[i] == s[i].value
  {
    seq(|s|, i requires 0 <= i < |s| => s[i].value)
  }

  /** Every key occurs once, as in any JavaScript object. */
  predicate UniqueKeys(s: Slots)
  {
    forall i, j :: 0 <= i < j < |s| ==> s[i].key != s[j].key
  }

  predicate HasKey(s: Slots, k: string)
  {
    exists i :: 0 <= i < |s| && s[i].key == k
  }

  lemma HasKeyTail(s: Slots, k: string)
    requires s != [] && s[0].key != k
    ensures HasKey(s, k) <==> HasKey(s[1..], k)
  {
    if HasKey(s[1..], k) {
      var i :| 0 <= i < |s[1..]| && s[1..][i].key == k;
      assert s[i + 1].key == k;
    }
    if HasKey(s, k) {
      var i :| 0 <= i < |s| && s[i].key == k;
      assert s[1..][i - 1].key == k;
    }
  }

  /** `o[k]`. */
  function Get(s: Slots, k: string): (r: Option<string>)
    ensures r.Some? <==> HasKey(s, k)
    ensures r.Some? ==> exists i :: 0 <= i < |s| && s[i].key == k && s[i].value == r.value
  {
    if s == [] then None
    else if s[0].key == k then Some(s[0].value)
    else
      HasKeyTail(s, k);
      var r := Get(s[1..], k);
      if r.Some? then
        assert exists i :: 0 <= i < |s| && s[i].key == k && s[i].value == r.value by {
          var i :| 0 <= i < |s[1..]| && s[1..][i].key == k && s[1..][i].value == r.value;
          assert s[i + 1] == s[1..][i];
        }
        r
      else r
  }

  /** With unique keys the value read is the one stored at the key's position. */
  lemma GetAt(s: Slots, i: int)
    requires UniqueKeys(s) && 0 <= i < |s|
    ensures Get(s, s[i].key) == Some(s[i].value)
  {
    var r := Get(s, s[i].key);
    var j :| 0 <= j < |s| && s[j].key == s[i].key && s[j].value == r.value;
    assert j == i;
  }

  /** `o[k] = v`: the value of a present key is replaced in place, an absent key is appended. */
  function Put(s: Slots, k: string, v: string): (r: Slots)
    ensures |r| == if HasKey(s, k) then |s| else |s| + 1
    ensures forall i :: 0 <= i < |s| ==> r[i].key == s[i].key
    ensures forall i :: 0 <= i < |s| && s[i].key != k ==> r[i] == s[i]
    ensures forall i :: 0 <= i < |r| && r[i].key == k ==> r[i].value == v
    ensures !HasKey(s, k) ==> r[|s|] == Entry(k, v)
    ensures UniqueKeys(s) ==> UniqueKeys(r)
  {
    if HasKey(s, k) then seq(|s|, i requires 0 <= i < |s| => if s[i].key == k then Entry(k, v) else s[i])
    else s + [Entry(k, v)]
  }

  /** Writing a key reads back the value written and leaves every other key as it was. */
  lemma PutGet(s: Slots, k: string, v: string, k': string)
    requires UniqueKeys(s)
    ensures Get(Put(s, k, v), k) == Some(v)
    ensures k' != k ==> Get(Put(s, k, v), k') == Get(s, k')
  {
    var r := Put(s, k, v);
    assert HasKey(r, k) by {
      if HasKey(s, k) {
        var i :| 0 <= i < |s| && s[i].key == k;
        assert r[i].key == k;
      } else {
        assert r[|s|].key == k;
      }
    }
    var i :| 0 <= i < |r| && r[i].key == k;
    GetAt(r, i);
    if k' != k {
      if HasKey(s, k') {
        var j :| 0 <= j < |s| && s[j].key == k';
        GetAt(s, j);
        GetAt(r, j);
      } else {
        forall j | 0 <= j < |r| ensures r[j].key != k' {
          if j < |s| {
            assert r[j].key == s[j].key;
          }
        }
      }
    }
  }

  /** Writing the same value to the same key twice is writing it once. */
  lemma PutTwice(s: Slots, k: string, v: string)
    ensures Put(Put(s, k, v), k, v) == Put(s, k, v)
  {
    var t := Put(s, k, v);
    assert HasKey(t, k) by {
      if HasKey(s, k) {
        var i :| 0 <= i < |s| && s[i].key == k;
        assert t[i].key == k;
      } else {
        assert t[|s|].key == k;
      }
    }
    var u := Put(t, k, v);
    forall i | 0 <= i < |t| ensures u[i] == t[i] {
      if t[i].key == k {
        assert t[i].value == v;
      }
    }
  }
}
