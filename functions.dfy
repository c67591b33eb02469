/**
 * Catacombs level table and the helpers built on it, profile selection,
 * the `m:ss.ms` time formatter and the word censor.
 */
module Functions {
  import opened Wrappers
  import opened Text

  /** `cataXp`: entry i is [i, total experience needed for level i]. */
  const CataXp: seq<(int, real)> :=
    [(0, 0.0), (1, 50.0), (2, 125.0), (3, 235.0), (4, 395.0), (5, 625.0), (6, 955.0), (7, 1425.0), (8, 2095.0), (9, 3045.0)] +
    [(10, 4385.0), (11, 6275.0), (12, 8940.0), (13, 12700.0), (14, 17960.0), (15, 25340.0), (16, 35640.0), (17, 50040.0), (18, 70040.0), (19, 97640.0)] +
    [(20, 135640.0), (21, 188140.0), (22, 259640.0), (23, 356640.0), (24, 488640.0), (25, 668640.0), (26, 911640.0), (27, 1239640.0), (28, 1684640.0), (29, 2284640.0)] +
    [(30, 3084640.0), (31, 4149640.0), (32, 5559640.0), (33, 7459640.0), (34, 9959640.0), (35, 13259640.0), (36, 17559640.0), (37, 23159640.0), (38, 30359640.0), (39, 39559640.0)] +
    [(40, 51559640.0), (41, 66559640.0), (42, 85559640.0), (43, 109559640.0), (44, 139559640.0), (45, 177559640.0), (46, 225559640.0), (47, 285559640.0), (48, 360559640.0), (49, 453559640.0)] +
    [(50, 569809640.0), (51, 769809640.0), (52, 969809640.0), (53, 1169809640.0), (54, 1369809640.0), (55, 1569809640.0), (56, 1769809640.0), (57, 1969809640.0), (58, 2169809640.0), (59, 2369809640.0)] +
    [(60, 2569809640.0), (61, 2769809640.0), (62, 2969809640.0), (63, 3169809640.0), (64, 3369809640.0), (65, 3569809640.0), (66, 3769809640.0), (67, 3969809640.0), (68, 4169809640.0), (69, 4369809640.0)] +
    [(70, 4569809640.0), (71, 4769809640.0), (72, 4969809640.0), (73, 5169809640.0), (74, 5369809640.0), (75, 5569809640.0), (76, 5769809640.0), (77, 5969809640.0), (78, 6169809640.0), (79, 6369809640.0)] +
    [(80, 6569809640.0), (81, 6769809640.0), (82, 6969809640.0), (83, 7169809640.0), (84, 7369809640.0), (85, 7569809640.0), (86, 7769809640.0), (87, 7969809640.0), (88, 8169809640.0), (89, 8369809640.0)] +
    [(90, 8569809640.0), (91, 8769809640.0), (92, 8969809640.0), (93, 9169809640.0), (94, 9369809640.0), (95, 9569809640.0), (96, 9769809640.0), (97, 9969809640.0), (98, 10169809640.0), (99, 10369809640.0)]

  /** From index `i` on, entry j is [j, _] and the experience strictly grows. */
  predicate IncreasingFrom(s: seq<(int, real)>, i: nat)
    decreases |s| - i
  {
    i + 1 >= |s| || (s[i].0 == i && s[i].1 < s[i + 1].1 && s[i + 1].0 == i + 1 && IncreasingFrom(s, i + 1))
  }

  lemma {:induction false} IncreasingFromGives(s: seq<(int, real)>, i: nat, j: nat)
    requires IncreasingFrom(s, i) && i <= j && j + 1 < |s|
    ensures s[j].0 == j && s[j + 1].0 == j + 1 && s[j].1 < s[j + 1].1
    decreases j - i
  {
    if i < j {
      IncreasingFromGives(s, i + 1, j);
    }
  }

  // The recursive predicate is unfolded one concrete entry at a time, from the top of the table down,
  // in four quarters to keep each proof small.

  lemma CataXpIncreasingFrom75()
    ensures IncreasingFrom(CataXp, 75)
  {
    assert IncreasingFrom(CataXp, 98);
    assert IncreasingFrom(CataXp, 97);
    assert IncreasingFrom(CataXp, 96);
    assert IncreasingFrom(CataXp, 95);
    assert IncreasingFrom(CataXp, 94);
    assert IncreasingFrom(CataXp, 93);
    assert IncreasingFrom(CataXp, 92);
    assert IncreasingFrom(CataXp, 91);
    assert IncreasingFrom(CataXp, 90);
    assert IncreasingFrom(CataXp, 89);
    assert IncreasingFrom(CataXp, 88);
    assert IncreasingFrom(CataXp, 87);
    assert IncreasingFrom(CataXp, 86);
    assert IncreasingFrom(CataXp, 85);
    assert IncreasingFrom(CataXp, 84);
    assert IncreasingFrom(CataXp, 83);
    assert IncreasingFrom(CataXp, 82);
    assert IncreasingFrom(CataXp, 81);
    assert IncreasingFrom(CataXp, 80);
    assert IncreasingFrom(CataXp, 79);
    assert IncreasingFrom(CataXp, 78);
    assert IncreasingFrom(CataXp, 77);
    assert IncreasingFrom(CataXp, 76);
    assert IncreasingFrom(CataXp, 75);
  }

  lemma CataXpIncreasingFrom50()
    ensures IncreasingFrom(CataXp, 50)
  {
    CataXpIncreasingFrom75();
    assert IncreasingFrom(CataXp, 74);
    assert IncreasingFrom(CataXp, 73);
    assert IncreasingFrom(CataXp, 72);
    assert IncreasingFrom(CataXp, 71);
    assert IncreasingFrom(CataXp, 70);
    assert IncreasingFrom(CataXp, 69);
    assert IncreasingFrom(CataXp, 68);
    assert IncreasingFrom(CataXp, 67);
    assert IncreasingFrom(CataXp, 66);
    assert IncreasingFrom(CataXp, 65);
    assert IncreasingFrom(CataXp, 64);
    assert IncreasingFrom(CataXp, 63);
    assert IncreasingFrom(CataXp, 62);
    assert IncreasingFrom(CataXp, 61);
    assert IncreasingFrom(CataXp, 60);
    assert IncreasingFrom(CataXp, 59);
    assert IncreasingFrom(CataXp, 58);
    assert IncreasingFrom(CataXp, 57);
    assert IncreasingFrom(CataXp, 56);
    assert IncreasingFrom(CataXp, 55);
    assert IncreasingFrom(CataXp, 54);
    assert IncreasingFrom(CataXp, 53);
    assert IncreasingFrom(CataXp, 52);
    assert IncreasingFrom(CataXp, 51);
    assert IncreasingFrom(CataXp, 50);
  }

  lemma CataXpIncreasingFrom25()
    ensures IncreasingFrom(CataXp, 25)
  {
    CataXpIncreasingFrom50();
    assert IncreasingFrom(CataXp, 49);
    assert IncreasingFrom(CataXp, 48);
    assert IncreasingFrom(CataXp, 47);
    assert IncreasingFrom(CataXp, 46);
    assert IncreasingFrom(CataXp, 45);
    assert IncreasingFrom(CataXp, 44);
    assert IncreasingFrom(CataXp, 43);
    assert IncreasingFrom(CataXp, 42);
    assert IncreasingFrom(CataXp, 41);
    assert IncreasingFrom(CataXp, 40);
    assert IncreasingFrom(CataXp, 39);
    assert IncreasingFrom(CataXp, 38);
    assert IncreasingFrom(CataXp, 37);
    assert IncreasingFrom(CataXp, 36);
    assert IncreasingFrom(CataXp, 35);
    assert IncreasingFrom(CataXp, 34);
    assert IncreasingFrom(CataXp, 33);
    assert IncreasingFrom(CataXp, 32);
    assert IncreasingFrom(CataXp, 31);
    assert IncreasingFrom(CataXp, 30);
    assert IncreasingFrom(CataXp, 29);
    assert IncreasingFrom(CataXp, 28);
    assert IncreasingFrom(CataXp, 27);
    assert IncreasingFrom(CataXp, 26);
    assert IncreasingFrom(CataXp, 25);
  }

  /** Every entry is [i, T(i)] and T rises from each entry to the next. */
  lemma CataXpIncreasing()
    ensures IncreasingFrom(CataXp, 0)
  {
    CataXpIncreasingFrom25();
    assert IncreasingFrom(CataXp, 24);
    assert IncreasingFrom(CataXp, 23);
    assert IncreasingFrom(CataXp, 22);
    assert IncreasingFrom(CataXp, 21);
    assert IncreasingFrom(CataXp, 20);
    assert IncreasingFrom(CataXp, 19);
    assert IncreasingFrom(CataXp, 18);
    assert IncreasingFrom(CataXp, 17);
    assert IncreasingFrom(CataXp, 16);
    assert IncreasingFrom(CataXp, 15);
    assert IncreasingFrom(CataXp, 14);
    assert IncreasingFrom(CataXp, 13);
    assert IncreasingFrom(CataXp, 12);
    assert IncreasingFrom(CataXp, 11);
    assert IncreasingFrom(CataXp, 10);
    assert IncreasingFrom(CataXp, 9);
    assert IncreasingFrom(CataXp, 8);
    assert IncreasingFrom(CataXp, 7);
    assert IncreasingFrom(CataXp, 6);
    assert IncreasingFrom(CataXp, 5);
    assert IncreasingFrom(CataXp, 4);
    assert IncreasingFrom(CataXp, 3);
    assert IncreasingFrom(CataXp, 2);
    assert IncreasingFrom(CataXp, 1);
    assert IncreasingFrom(CataXp, 0);
  }

  lemma CataXpLength()
    ensures |CataXp| == 100
  {
  }

  /** A level table: entry i is [i, T(i)] for i < 100, with T strictly increasing. */
  predicate TableShape(t: seq<(int, real)>)
  {
    |t| == 100 && IncreasingFrom(t, 0)
  }

  /** Entry i of a level table is the entry of level i. */
  lemma TableEntry(t: seq<(int, real)>, i: int)
    requires TableShape(t) && 0 <= i < 100
    ensures t[i].0 == i
  {
    IncreasingFromGives(t, 0, if i < 99 then i else 98);
  }

  /** The experience column of a level table rises strictly. */
  lemma {:induction false} TableRises(t: seq<(int, real)>, i: int, j: int)
    requires TableShape(t) && 0 <= i < j < 100
    ensures t[i].1 < t[j].1
    decreases j - i
  {
    IncreasingFromGives(t, 0, i);
    if i + 1 < j {
      TableRises(t, i + 1, j);
    }
  }

  /** `cataXp` has 100 entries, entry i is [i, T(i)], and T rises strictly from 0 to 10369809640. */
  lemma CataXpShape()
    ensures TableShape(CataXp)
    ensures CataXp[0] == (0, 0.0) && CataXp[99] == (99, 10369809640.0)
  {
    CataXpLength();
    CataXpIncreasing();
  }

  /** The first index from `i` on whose experience exceeds `xp`, or 100 if there is none. */
  function FirstAbove(t: seq<(int, real)>, xp: real, i: nat): (j: nat)
    requires |t| == 100 && i <= 100
    ensures i <= j <= 100
    decreases 100 - i
  {
    if i == 100 then 100
    else if t[i].1 > xp then i
    else FirstAbove(t, xp, i + 1)
  }

  /** `j` is the first index from `i` on above `xp` when every entry in between is at most `xp`. */
  lemma {:induction false} FirstAboveIs(t: seq<(int, real)>, xp: real, i: nat, j: nat)
    requires |t| == 100 && i <= j <= 100
    requires j < 100 ==> t[j].1 > xp
    requires forall k :: i <= k < j ==> t[k].1 <= xp
    ensures FirstAbove(t, xp, i) == j
    decreases j - i
  {
    if i < j {
      FirstAboveIs(t, xp, i + 1, j);
    }
  }

  /**
   * `cataLevel(xp)` over table `t`: None where the source throws (a negative xp
   * reads the entry before the first), otherwise the level with its fraction.
   */
  function LevelIn(t: seq<(int, real)>, xp: real): Option<real>
    requires |t| == 100
  {
    var j := FirstAbove(t, xp, 0);
    if j == 100 then Some(0.0)
    else if j == 0 then None
    else Some(t[j].0 as real + Fraction(xp - t[j - 1].1, t[j].1 - t[j - 1].1) - 1.0)
  }

  /** `cataLevel`: looks up `xp` in the bot's level table. */
  method CataLevel(xp: real) returns (r: Option<real>)
    ensures r == LevelIn(CataXp, xp)
  {
    CataXpShape();
    r := LevelLoop(CataXp, xp);
  }

  /** The loop of `cataLevel` over a table `t` of the shape of `cataXp`, looking for the first entry above `xp`. */
  method LevelLoop(t: seq<(int, real)>, xp: real) returns (r: Option<real>)
    requires TableShape(t)
    ensures r == LevelIn(t, xp)
  {
    var level := 0;
    var percentage := 0.0;
    var i := 0;
    while i < |t|
      invariant 0 <= i <= 100
      invariant FirstAbove(t, xp, 0) == FirstAbove(t, xp, i)
    {
      if t[i].1 > xp {
        if i == 0 {
          // t[-1] is undefined, so reading [1] of it throws.
          return None;
        }
        TableEntry(t, i);
        TableRises(t, i - 1, i);
        level := t[i].0;
        var a := xp - t[i - 1].1;
        var b := t[i].1 - t[i - 1].1;
        percentage := a / b;
        LevelInFound(t, xp, i);
        break;
      }
      i := i + 1;
    }
    if level == 0 {
      // Entry i is [i, _] with i > 0, so a level of 0 means the loop ran to the end.
      assert LevelIn(t, xp) == Some(0.0);
      r := Some(0.0);
    } else {
      assert LevelIn(t, xp) == Some(level as real + percentage - 1.0);
      r := Some(level as real + percentage - 1.0);
    }
  }

  /** Inside the bracket T(k) <= xp < T(k+1), the level is k plus the fraction of the bracket covered. */
  lemma LevelInBracket(t: seq<(int, real)>, xp: real, k: int)
    requires TableShape(t) && 0 <= k < 99 && t[k].1 <= xp < t[k + 1].1
    ensures LevelIn(t, xp) == Some(k as real + Fraction(xp - t[k].1, t[k + 1].1 - t[k].1))
  {
    EntriesBelow(t, xp, k);
    FirstAboveIs(t, xp, 0, k + 1);
    TableEntry(t, k + 1);
    LevelInFound(t, xp, k + 1);
  }

  /** Inside the bracket T(k) <= xp < T(k+1), the level lies in [k, k+1): its floor is k. */
  lemma LevelInBracketBounds(t: seq<(int, real)>, xp: real, k: int)
    requires TableShape(t) && 0 <= k < 99 && t[k].1 <= xp < t[k + 1].1
    ensures LevelIn(t, xp).Some?
    ensures k as real <= LevelIn(t, xp).value < (k + 1) as real
    ensures LevelIn(t, xp).value.Floor == k
  {
    LevelInBracket(t, xp, k);
    var frac := Fraction(xp - t[k].1, t[k + 1].1 - t[k].1);
    FractionBounds(xp - t[k].1, t[k + 1].1 - t[k].1);
    assert LevelIn(t, xp).value == k as real + frac;
  }

  /** Every entry up to one at most `xp` is at most `xp`. */
  lemma EntriesBelow(t: seq<(int, real)>, xp: real, k: int)
    requires TableShape(t) && 0 <= k < 100 && t[k].1 <= xp
    ensures forall m :: 0 <= m <= k ==> t[m].1 <= xp
  {
    forall m | 0 <= m <= k ensures t[m].1 <= xp {
      if m < k {
        TableRises(t, m, k);
      }
    }
  }

  /** When the loop stops at entry `j > 0`, the level is `j - 1` plus the share of the bracket below `j`. */
  lemma LevelInFound(t: seq<(int, real)>, xp: real, j: int)
    requires |t| == 100 && 0 < j < 100 && t[j].0 == j && FirstAbove(t, xp, 0) == j
    ensures LevelIn(t, xp) == Some((j - 1) as real + Fraction(xp - t[j - 1].1, t[j].1 - t[j - 1].1))
  {
  }

  /** The share `a / d` of a bracket of width `d`. */
  function Fraction(a: real, d: real): real
  {
    if d == 0.0 then 0.0 else a / d
  }

  lemma FractionBounds(a: real, d: real)
    requires 0.0 <= a < d
    ensures 0.0 <= Fraction(a, d) < 1.0
  {
    var q := a / d;
    assert q * d == a;
  }

  /** From the last entry on, the loop never breaks and the level is reported as 0. */
  lemma LevelInPastTable(t: seq<(int, real)>, xp: real)
    requires TableShape(t) && xp >= t[99].1
    ensures LevelIn(t, xp) == Some(0.0)
  {
    EntriesBelow(t, xp, 99);
    FirstAboveIs(t, xp, 0, 100);
  }

  /** A negative experience throws, because the first entry, 0, already exceeds it. */
  lemma LevelInNegative(t: seq<(int, real)>, xp: real)
    requires |t| == 100 && t[0].1 == 0.0 && xp < 0.0
    ensures LevelIn(t, xp) == None
  {
    FirstAboveIs(t, xp, 0, 0);
  }

  function AbsReal(x: real): real
  {
    if x < 0.0 then -x else x
  }

  /**
   * `cataExp(level)` over table `t`: the entry for an integer level, linear
   * interpolation otherwise; None where the source reads past either end of the
   * table and throws.
   */
  function ExpIn(t: seq<(int, real)>, level: real): Option<real>
    requires |t| == 100
  {
    var f := level.Floor;
    if level == f as real then
      if 0 <= f < 100 then Some(t[f].1) else None
    else if 0 <= f && f + 1 < 100 then
      Some(t[f].1 + Decimal(level) * (t[f + 1].1 - t[f].1))
    else None
  }

  /** Level `l` needs exactly the experience `cataExp` gives for it, for every l below 99. */
  lemma ExpInRoundTrip(t: seq<(int, real)>, l: real)
    requires TableShape(t) && 0.0 <= l < 99.0
    ensures ExpIn(t, l).Some?
    ensures LevelIn(t, ExpIn(t, l).value) == Some(l)
  {
    if l == l.Floor as real {
      ExpInAtEntry(t, l);
      LevelAtEntry(t, l.Floor);
    } else {
      LevelAtShare(t, l);
    }
  }

  /** For an integer level, `cataExp` reads the entry of that level. */
  lemma ExpInAtEntry(t: seq<(int, real)>, l: real)
    requires |t| == 100 && 0.0 <= l < 99.0 && l == l.Floor as real
    ensures 0 <= l.Floor < 99
    ensures ExpIn(t, l) == Some(t[l.Floor].1)
  {
  }

  /** For a level with a fraction, `cataExp` interpolates between the entries of its floor and the next. */
  lemma ExpInBetween(t: seq<(int, real)>, l: real)
    requires |t| == 100 && 0.0 <= l < 99.0 && l != l.Floor as real
    ensures ExpIn(t, l).Some?
    ensures ExpIn(t, l).value == t[l.Floor].1 + Decimal(l) * (t[l.Floor + 1].1 - t[l.Floor].1)
  {
  }

  /** `Math.abs(level) - Math.floor(Math.abs(level))`. */
  function Decimal(level: real): (d: real)
    ensures 0.0 <= d < 1.0
    ensures 0.0 <= level ==> d == level - level.Floor as real
  {
    AbsReal(level) - AbsReal(level).Floor as real
  }

  /** The experience of entry `f` is read back as level `f` exactly. */
  lemma LevelAtEntry(t: seq<(int, real)>, f: int)
    requires TableShape(t) && 0 <= f < 99
    ensures LevelIn(t, t[f].1) == Some(f as real)
  {
    TableRises(t, f, f + 1);
    LevelInBracket(t, t[f].1, f);
    FractionOfZero(t[f].1 - t[f].1, t[f + 1].1 - t[f].1);
  }

  lemma FractionOfZero(a: real, d: real)
    requires a == 0.0
    ensures Fraction(a, d) == 0.0
  {
  }

  /** The experience `cataExp` gives a level with a fraction is read back as that level. */
  lemma LevelAtShare(t: seq<(int, real)>, l: real)
    requires TableShape(t) && 0.0 <= l < 99.0 && l != l.Floor as real
    ensures ExpIn(t, l).Some? && LevelIn(t, ExpIn(t, l).value) == Some(l)
  {
    var f := l.Floor;
    TableRises(t, f, f + 1);
    ExpInBetween(t, l);
    var xp := ExpIn(t, l).value;
    Interpolation(t[f].1, t[f + 1].1, Decimal(l), xp);
    LevelAtFraction(t, xp, f, Decimal(l));
    assert f as real + Decimal(l) == l;
  }

  /** An experience a share `frac` of the way through bracket `f` is read back as level `f + frac`. */
  lemma LevelAtFraction(t: seq<(int, real)>, xp: real, f: int, frac: real)
    requires TableShape(t) && 0 <= f < 99 && t[f].1 <= xp < t[f + 1].1
    requires Fraction(xp - t[f].1, t[f + 1].1 - t[f].1) == frac
    ensures LevelIn(t, xp) == Some(f as real + frac)
  {
    LevelInBracket(t, xp, f);
  }

  /** A point a share `frac` of the way through the bracket [lo, hi) lies inside it, at that share. */
  lemma Interpolation(lo: real, hi: real, frac: real, xp: real)
    requires lo < hi && 0.0 <= frac < 1.0 && xp == lo + frac * (hi - lo)
    ensures lo <= xp < hi
    ensures Fraction(xp - lo, hi - lo) == frac
  {
    var d := hi - lo;
    var p := frac * d;
    MulNonNegative(frac, d);
    MulNonNegative(1.0 - frac, d);
    assert (1.0 - frac) * d == d - p;
    assert p < d;
    assert xp == lo + p;
  }

  lemma MulNonNegative(a: real, b: real)
    requires 0.0 <= a && 0.0 < b
    ensures 0.0 <= a * b && (0.0 < a ==> 0.0 < a * b)
  {
  }

  /** `cataExp`: the level table of the bot. */
  function CataExp(level: real): (r: Option<real>)
    ensures 0.0 <= level < 99.0 ==> r.Some?
  {
    CataXpLength();
    ExpIn(CataXp, level)
  }

  /** `cataLevel(cataExp(l)) = l` for 0 <= l < 99. */
  lemma CataExpRoundTrip(l: real)
    requires 0.0 <= l < 99.0
    ensures CataExp(l).Some? && LevelIn(CataXp, CataExp(l).value) == Some(l)
  {
    CataXpShape();
    ExpInRoundTrip(CataXp, l);
  }

  /** Level 99 maps to the last entry, which `cataLevel` reports as 0. */
  lemma CataExpTopLevel()
    ensures CataExp(99.0) == Some(10369809640.0)
    ensures LevelIn(CataXp, 10369809640.0) == Some(0.0)
  {
    CataXpShape();
    LevelInPastTable(CataXp, 10369809640.0);
  }

  /** Any level above 99 reads an entry past the end of the table. */
  lemma CataExpPastTable(l: real)
    requires l > 99.0
    ensures CataExp(l) == None
  {
  }

  /** `cataLevel` throws for a negative experience. */
  lemma CataLevelNegative(xp: real)
    requires xp < 0.0
    ensures LevelIn(CataXp, xp) == None
  {
    CataXpShape();
    LevelInNegative(CataXp, xp);
  }

  /** Between T(k) and T(k+1) the level's floor is k; this is what verification keeps. */
  lemma CataLevelBracket(xp: real, k: int)
    requires 0 <= k < 99 && CataXp[k].1 <= xp < CataXp[k + 1].1
    ensures LevelIn(CataXp, xp).Some? && LevelIn(CataXp, xp).value.Floor == k
  {
    CataXpShape();
    LevelInBracketBounds(CataXp, xp, k);
  }

  /** `validUnicode`: the string has a character outside U+0000..U+007F. */
  function ValidUnicode(s: string): (r: bool)
    ensures r <==> exists i :: 0 <= i < |s| && s[i] as int > 0x7F
  {
    if s == [] then false
    else if s[0] as int > 0x7F then true
    else
      assert forall i :: 1 <= i < |s| ==> s[i] == s[1..][i - 1];
      ValidUnicode(s[1..])
  }

  // ---------------------------------------------------------------- profiles

  /** The fields of one member of a SkyBlock profile that the bot reads; 0 stands for an absent field. */
  datatype ProfileMember = ProfileMember(
    lastSave: int,
    cataXp: real,
    killsUndead: int,
    killsSkeleton: int,
    killsMasterUndead: int,
    floorSevenSPlus: int,
    masterFiveSPlus: int,
    masterSixSPlus: int)

  datatype Profile = Profile(cuteName: string, members: map<string, ProfileMember>)

  predicate AllHaveMember(ps: seq<Profile>, uuid: string)
  {
    forall i :: 0 <= i < |ps| ==> uuid in ps[i].members
  }

  function Save(p: Profile, uuid: string): int
    requires uuid in p.members
  {
    p.members[uuid].lastSave
  }

  /** Entry k has the strictly greatest non-zero save, the first one on ties. */
  predicate IsLatestAt(ps: seq<Profile>, uuid: string, k: int)
    requires AllHaveMember(ps, uuid)
  {
    && 0 <= k < |ps|
    && Save(ps[k], uuid) != 0
    && (forall j :: 0 <= j < k && Save(ps[j], uuid) != 0 ==> Save(ps[j], uuid) < Save(ps[k], uuid))
    && (forall j :: k < j < |ps| && Save(ps[j], uuid) != 0 ==> Save(ps[j], uuid) <= Save(ps[k], uuid))
  }

  /**
   * `highestCataProfile`: the most recently saved profile. A profile without
   * the member throws, and the catch turns that into `undefined`.
   */
  method HighestCataProfile(profiles: Option<seq<Profile>>, uuid: string) returns (r: Option<Profile>)
    ensures profiles.None? ==> r.None?
    ensures profiles.Some? && !AllHaveMember(profiles.value, uuid) ==> r.None?
    ensures profiles.Some? && AllHaveMember(profiles.value, uuid) ==>
      (r.Some? <==> exists k :: 0 <= k < |profiles.value| && profiles.value[k].members[uuid].lastSave != 0)
    ensures r.Some? ==> (profiles.Some? && AllHaveMember(profiles.value, uuid)
      && exists k :: IsLatestAt(profiles.value, uuid, k) && profiles.value[k] == r.value)
  {
    if profiles.None? {
      return None;
    }
    var ps := profiles.value;
    var latest: Option<Profile> := None;
    ghost var at := -1;
    var i := 0;
    while i < |ps|
      invariant 0 <= i <= |ps|
      invariant forall j :: 0 <= j < i ==> uuid in ps[j].members
      invariant latest.None? <==> forall j :: 0 <= j < i ==> ps[j].members[uuid].lastSave == 0
      invariant latest.Some? ==> (0 <= at < i && ps[at] == latest.value && uuid in latest.value.members
        && latest.value.members[uuid].lastSave != 0
        && (forall j :: 0 <= j < at && ps[j].members[uuid].lastSave != 0 ==> ps[j].members[uuid].lastSave < ps[at].members[uuid].lastSave)
        && (forall j :: at < j < i && ps[j].members[uuid].lastSave != 0 ==> ps[j].members[uuid].lastSave <= ps[at].members[uuid].lastSave))
    {
      if uuid !in ps[i].members {
        // Reading last_save of the missing member throws; the catch returns undefined.
        return None;
      }
      if ps[i].members[uuid].lastSave == 0 {
        i := i + 1;
        continue;
      }
      if latest.None? {
        latest := Some(ps[i]);
        at := i;
      } else if ps[i].members[uuid].lastSave != 0 && latest.value.members[uuid].lastSave != 0 {
        if ps[i].members[uuid].lastSave > latest.value.members[uuid].lastSave {
          latest := Some(ps[i]);
          at := i;
        }
      }
      i := i + 1;
    }
    r := latest;
  }

  /** The catacombs experience `highestCataProfileOld` compares: truthy values above the start value -1. */
  predicate Ranked(x: real)
  {
    x != 0.0 && x > -1.0
  }

  function CataXpOf(p: Profile, uuid: string): real
    requires uuid in p.members
  {
    p.members[uuid].cataXp
  }

  /** Entry k has the strictly greatest ranked experience, the first one on ties. */
  predicate IsHighestAt(ps: seq<Profile>, uuid: string, k: int)
    requires AllHaveMember(ps, uuid)
  {
    && 0 <= k < |ps|
    && Ranked(CataXpOf(ps[k], uuid))
    && (forall j :: 0 <= j < k && Ranked(CataXpOf(ps[j], uuid)) ==> CataXpOf(ps[j], uuid) < CataXpOf(ps[k], uuid))
    && (forall j :: k < j < |ps| && Ranked(CataXpOf(ps[j], uuid)) ==> CataXpOf(ps[j], uuid) <= CataXpOf(ps[k], uuid))
  }

  /**
   * `highestCataProfileOld`: the profile with the most catacombs experience.
   * The running maximum starts at -1 and only ever takes non-zero values, so the
   * source's fallback for a maximum of exactly 0 is dead code.
   */
  method HighestCataProfileOld(profiles: Option<seq<Profile>>, uuid: string) returns (r: Option<Profile>)
    ensures profiles.None? ==> r.None?
    ensures profiles.Some? && !AllHaveMember(profiles.value, uuid) ==> r.None?
    ensures profiles.Some? && AllHaveMember(profiles.value, uuid) ==>
      (r.Some? <==> exists k :: 0 <= k < |profiles.value| && Ranked(profiles.value[k].members[uuid].cataXp))
    ensures r.Some? ==> (profiles.Some? && AllHaveMember(profiles.value, uuid)
      && exists k :: IsHighestAt(profiles.value, uuid, k) && profiles.value[k] == r.value)
  {
    var highestXp := -1.0;
    var highest: Option<Profile> := None;
    if profiles.None? {
      return None;
    }
    var ps := profiles.value;
    ghost var at := -1;
    var i := 0;
    while i < |ps|
      invariant 0 <= i <= |ps|
      invariant forall j :: 0 <= j < i ==> uuid in ps[j].members
      invariant highestXp == -1.0 || highestXp > -1.0
      invariant highestXp != 0.0
      invariant highest.None? <==> forall j :: 0 <= j < i ==> !Ranked(ps[j].members[uuid].cataXp)
      invariant highest.None? ==> highestXp == -1.0
      invariant highest.Some? ==> (0 <= at < i && ps[at] == highest.value && uuid in ps[at].members
        && highestXp == ps[at].members[uuid].cataXp && Ranked(highestXp)
        && (forall j :: 0 <= j < at && Ranked(ps[j].members[uuid].cataXp) ==> ps[j].members[uuid].cataXp < highestXp)
        && (forall j :: at < j < i && Ranked(ps[j].members[uuid].cataXp) ==> ps[j].members[uuid].cataXp <= highestXp))
    {
      if uuid !in ps[i].members {
        // Reading the dungeons of the missing member throws; the catch returns undefined.
        return None;
      }
      var xp := ps[i].members[uuid].cataXp;
      if xp != 0.0 {
        if xp > highestXp {
          highestXp := xp;
          highest := Some(ps[i]);
          at := i;
        }
      }
      i := i + 1;
    }
    if highestXp == 0.0 {
      r := HighestCataProfile(profiles, uuid);
      return;
    }
    r := highest;
  }

  /** What `getProfileByName` returns: undefined, a profile, or null. */
  datatype NamedProfile = NoProfiles | Named(profile: Profile) | NoSuchProfile

  predicate NameMatches(p: Profile, name: string)
  {
    AsciiLower(p.cuteName) == AsciiLower(name)
  }

  /** `getProfileByName`: the first profile whose name matches, ignoring case. */
  method GetProfileByName(profiles: Option<seq<Profile>>, name: string) returns (r: NamedProfile)
    ensures profiles.None? || profiles.value == [] ==> r == NoProfiles
    ensures profiles.Some? && profiles.value != [] ==> r != NoProfiles
    ensures r == NoSuchProfile <==>
      profiles.Some? && profiles.value != [] && forall k :: 0 <= k < |profiles.value| ==> !NameMatches(profiles.value[k], name)
    ensures r.Named? ==> profiles.Some? && exists k :: (0 <= k < |profiles.value| && profiles.value[k] == r.profile
      && NameMatches(r.profile, name) && forall j :: 0 <= j < k ==> !NameMatches(profiles.value[j], name))
  {
    if profiles.None? {
      return NoProfiles;
    }
    var ps := profiles.value;
    if |ps| == 0 {
      return NoProfiles;
    }
    var i := 0;
    while i < |ps|
      invariant 0 <= i <= |ps|
      invariant forall j :: 0 <= j < i ==> !NameMatches(ps[j], name)
    {
      if AsciiLower(ps[i].cuteName) == AsciiLower(name) {
        return Named(ps[i]);
      }
      i := i + 1;
    }
    r := NoSuchProfile;
  }

  // ---------------------------------------------------------------- formatting

  /** JavaScript's `%`: the remainder takes the sign of the dividend. */
  function JsRem(a: int, b: int): int
    requires b > 0
  {
    if a >= 0 then a % b else -((-a) % b)
  }

  /** `fmtMSS(number)` for an integer number of milliseconds. */
  function FmtMSS(n: int): string
  {
    // Math.floor; Dafny's division rounds down for a positive divisor.
    var minutes := n / 60000;
    var seconds := JsRem(n, 60000) / 1000;
    IntToString(minutes) + ":" + SecondsText(seconds) + "." + MillisText(JsRem(n, 1000))
  }

  /** `(seconds < 10 ? '0' : '') + seconds`. */
  function SecondsText(seconds: int): string
  {
    (if seconds < 10 then "0" else "") + IntToString(seconds)
  }

  /** `ms = (number % 1000).toString()`, with a "0" put in front when it has two characters. */
  function MillisText(ms: int): string
  {
    var raw := IntToString(ms);
    if |raw| == 2 then "0" + raw else raw
  }

  /** The seconds field is two digits for 0..59. */
  lemma SecondsField(s: int)
    requires 0 <= s < 60
    ensures SecondsText(s) == [DigitChar(s / 10), DigitChar(s % 10)]
  {
    NatToStringLength(s);
  }

  /** The millisecond field is padded from two digits to three, but a one-digit value stays unpadded. */
  lemma MillisField(ms: int)
    requires 0 <= ms < 1000
    ensures ms < 10 ==> MillisText(ms) == [DigitChar(ms)]
    ensures 10 <= ms ==> MillisText(ms) == [DigitChar(ms / 100), DigitChar(ms / 10 % 10), DigitChar(ms % 10)]
  {
    NatToStringLength(ms);
    if 10 <= ms < 100 {
      assert ms / 100 == 0 && ms / 10 % 10 == ms / 10;
    }
  }

  /**
   * For a non-negative time, `fmtMSS` writes the whole minutes, then the seconds
   * within the minute and the milliseconds within the second.
   */
  lemma FmtMSSFields(n: int)
    requires n >= 0
    ensures 0 <= n % 60000 / 1000 < 60
    ensures FmtMSS(n) == NatToString(n / 60000) + ":" + SecondsText(n % 60000 / 1000) + "." + MillisText(n % 1000)
  {
    assert JsRem(n, 60000) == n % 60000;
    assert JsRem(n, 1000) == n % 1000;
  }

  /** The text `fmtMSS` writes for 5 ms, "0:00.5", reads as half a second: one-digit milliseconds are not padded. */
  lemma FmtMSSUnpaddedMillis()
    ensures FmtMSS(5) == "0:00.5"
    ensures MillisText(500) == "500"
  {
    assert JsRem(5, 60000) / 1000 == 0 && JsRem(5, 1000) == 5 && 5 / 60000 == 0;
    assert IntToString(0) == "0" && IntToString(5) == "5";
    assert SecondsText(0) == "00";
    assert MillisText(5) == "5";
    MillisField(500);
  }

  /** `starWord`: one asterisk per UTF-16 code unit of `word`. */
  method StarWord(word: string) returns (stared: string)
    ensures stared == Stars(Utf16Length(word))
  {
    stared := "";
    var i := 0;
    var n := Utf16Length(word);
    while i < n
      invariant 0 <= i <= n
      invariant stared == Stars(i)
    {
      stared := stared + "*";
      i := i + 1;
    }
  }

  /** The censor loop of `errorEmbed` over the bypass word list. */
  method Censor(message: string, bypassWords: seq<string>) returns (r: string)
    ensures (exists i :: 0 <= i < |bypassWords| && Contains(message, bypassWords[i])) ==> r == Stars(Utf16Length(message))
    ensures (forall i :: 0 <= i < |bypassWords| ==> !Contains(message, bypassWords[i])) ==> r == message
  {
    r := message;
    var i := 0;
    while i < |bypassWords|
      invariant 0 <= i <= |bypassWords|
      invariant (forall j :: 0 <= j < i ==> !Contains(message, bypassWords[j])) ==> r == message
      invariant (exists j :: 0 <= j < i && Contains(message, bypassWords[j])) ==> r == Stars(Utf16Length(message))
    {
      if Contains(r, bypassWords[i]) {
        // Starring an already starred message gives the same stars back.
        StarsUtf16Length(Utf16Length(message));
        r := StarWord(r);
      }
      i := i + 1;
    }
  }
}
