/**
 * `/requirements set role requirement value`: a staff command that edits one
 * field of the nested `requirements` table of the bot's configuration.
 */
module RequirementsCommand {
  import opened Text

  /** A requirement field: `null`, a number, or the role-id string. */
  datatype ReqValue = Null | Num(n: int) | Str(s: string)

  /** `config.requirements`: role name to field name to value. */
  type Table = map<string, map<string, ReqValue>>

  /** The result of JavaScript `parseInt`: `NaN` or an integer. */
  datatype Parsed = NaN | Int(value: int)

  /** The characters `parseInt` skips at the front: white space and line terminators. */
  predicate IsJsSpace(c: char)
  {
    var x := c as int;
    (0x09 <= x <= 0x0D) || x == 0x20 || x == 0xA0 || x == 0x1680 || (0x2000 <= x <= 0x200A)
    || x == 0x2028 || x == 0x2029 || x == 0x202F || x == 0x205F || x == 0x3000 || x == 0xFEFF
  }

  function TrimStart(s: string): (r: string)
    ensures r == [] || !IsJsSpace(r[0])
  {
    if s != [] && IsJsSpace(s[0]) then TrimStart(s[1..]) else s
  }

  /** The value of a digit character in radixes up to 36; 36 for anything else. */
  function DigitValue(c: char): (d: nat)
    ensures d <= 36
  {
    if '0' <= c <= '9' then c as int - '0' as int
    else if 'a' <= c <= 'z' then c as int - 'a' as int + 10
    else if 'A' <= c <= 'Z' then c as int - 'A' as int + 10
    else 36
  }

  /** The length of the longest prefix of `s` made of radix-`radix` digits. */
  function DigitRun(s: string, radix: nat): (n: nat)
    ensures n <= |s|
    ensures forall i :: 0 <= i < n ==> DigitValue(s[i]) < radix
    ensures n < |s| ==> DigitValue(s[n]) >= radix
  {
    if s == [] || DigitValue(s[0]) >= radix then 0 else 1 + DigitRun(s[1..], radix)
  }

  /** The number the digits `s` write in radix `radix`, most significant first. */
  function ValueOf(s: string, radix: nat): nat
  {
    if s == [] then 0
    else ValueOf(s[..|s| - 1], radix) * radix + DigitValue(s[|s| - 1])
  }

  /**
   * The unsigned part of `parseInt`: radix 16 after "0x" or "0X", radix 10
   * otherwise, then the longest run of digits; no digit at all is `NaN`.
   */
  function ReadDigits(u: string): Parsed
  {
    var hex := |u| >= 2 && u[0] == '0' && (u[1] == 'x' || u[1] == 'X');
    var v := if hex then u[2..] else u;
    var radix := if hex then 16 else 10;
    var n := DigitRun(v, radix);
    if n == 0 then NaN else Int(ValueOf(v[..n], radix))
  }

  /**
   * `parseInt(s)` with no radix: skip leading white space, read an optional
   * sign, then the digits; a rest after them is ignored.
   */
  function ParseInt(s: string): Parsed
  {
    var t := TrimStart(s);
    var negative := t != [] && t[0] == '-';
    var u := if t != [] && (t[0] == '-' || t[0] == '+') then t[1..] else t;
    match ReadDigits(u)
    case NaN => NaN
    case Int(v) => Int(if negative then -v else v)
  }

  /** The decimal digits of `n` read back as `n`. */
  lemma {:induction false} ValueOfNatToString(n: nat)
    ensures ValueOf(NatToString(n), 10) == n
    decreases n
  {
    var s := NatToString(n);
    if n < 10 {
      assert s[..0] == [];
    } else {
      ValueOfNatToString(n / 10);
      assert s[..|s| - 1] == NatToString(n / 10);
      assert s[|s| - 1] == DigitChar(n % 10);
    }
  }

  /** Only zero is written with a leading "0". */
  lemma {:induction false} LeadingZero(n: nat)
    ensures NatToString(n)[0] == '0' ==> n == 0
    decreases n
  {
    if n >= 10 {
      LeadingZero(n / 10);
      assert NatToString(n)[0] == NatToString(n / 10)[0];
    }
  }

  /** A digit run stops where the digits of `d` end. */
  lemma {:induction false} DigitRunOfDigits(d: string, rest: string)
    requires forall i :: 0 <= i < |d| ==> '0' <= d[i] <= '9'
    requires rest == [] || DigitValue(rest[0]) >= 10
    ensures DigitRun(d + rest, 10) == |d|
  {
    if d != [] {
      assert (d + rest)[1..] == d[1..] + rest;
      DigitRunOfDigits(d[1..], rest);
    } else {
      assert d + rest == rest;
    }
  }

  /** The digits of `m` followed by a rest that is no digit read back as `m`. */
  lemma ReadDigitsOfNat(m: nat, rest: string)
    requires rest == [] || DigitValue(rest[0]) >= 10
    requires m == 0 && rest != [] ==> rest[0] != 'x' && rest[0] != 'X'
    ensures ReadDigits(NatToString(m) + rest) == Int(m)
  {
    var d := NatToString(m);
    var u := d + rest;
    LeadingZero(m);
    assert u[0] == d[0];
    assert !(|u| >= 2 && u[0] == '0' && (u[1] == 'x' || u[1] == 'X')) by {
      if |d| >= 2 {
        assert u[1] == d[1];
      }
    }
    DigitRunOfDigits(d, rest);
    assert u[..|d|] == d;
    ValueOfNatToString(m);
  }

  /** A string that starts with a digit is read as it stands. */
  lemma ParseIntDigitFirst(u: string)
    requires u != [] && '0' <= u[0] <= '9'
    ensures ParseInt(u) == ReadDigits(u)
  {
    assert !IsJsSpace(u[0]);
    assert TrimStart(u) == u;
    assert u[0] != '-' && u[0] != '+';
  }

  /** Behind a minus sign the digits are read and negated. */
  lemma ParseIntMinus(t: string, u: string)
    requires t != [] && t[0] == '-' && t[1..] == u
    ensures ParseInt(t) == match ReadDigits(u) case NaN => NaN case Int(v) => Int(-v)
  {
    assert TrimStart(t) == t;
  }

  /**
   * `parseInt` reads back what `String(n)` writes, and ignores a rest that
   * does not start with a digit ("12s" gives 12), except that "0" followed by
   * "x" or "X" starts a hexadecimal number instead.
   */
  lemma ParseIntPrefix(n: int, rest: string)
    requires rest == [] || DigitValue(rest[0]) >= 10
    requires n == 0 && rest != [] ==> rest[0] != 'x' && rest[0] != 'X'
    ensures ParseInt(IntToString(n) + rest) == Int(n)
  {
    var m: nat := if n < 0 then -n else n;
    var u := NatToString(m) + rest;
    ReadDigitsOfNat(m, rest);
    if n < 0 {
      var t := IntToString(n) + rest;
      assert IntToString(n) == "-" + NatToString(m);
      Regroup("-", NatToString(m), rest);
      assert t[0] == '-' && t[1..] == u;
      ParseIntMinus(t, u);
    } else {
      assert IntToString(n) + rest == u;
      assert u[0] == NatToString(m)[0];
      ParseIntDigitFirst(u);
    }
  }

  lemma Regroup(a: string, b: string, c: string)
    ensures (a + b) + c == a + (b + c)
    ensures |a| == 1 ==> ((a + b) + c)[0] == a[0] && ((a + b) + c)[1..] == b + c
  {
  }

  /** Behind "0x" or "0X" the digits are read in radix 16. */
  lemma ReadDigitsHex(u: string, v: string)
    requires |u| >= 2 && u[0] == '0' && (u[1] == 'x' || u[1] == 'X') && u[2..] == v
    ensures ReadDigits(u) == if DigitRun(v, 16) == 0 then NaN else Int(ValueOf(v[..DigitRun(v, 16)], 16))
  {
  }

  /** "0x" with no digit after it is not a number, although "0" alone is 0. */
  lemma ParseIntBareHexPrefix()
    ensures ParseInt("0x") == NaN
  {
    ParseIntDigitFirst("0x");
    ReadDigitsHex("0x", "");
  }

  datatype SetReply = Thrown | NoSuchRequirement | Removed | NotANumber | SetTo(n: int)

  /**
   * The reply to `set`: reading a field of a role the table lacks throws; a
   * field whose value is `undefined` is refused; "none" in any letter case
   * clears the field; otherwise the lower-cased value must start a number.
   */
  function Decision(table: Table, role: string, requirement: string, value: string): SetReply
  {
    if role !in table then Thrown
    else if requirement !in table[role] then NoSuchRequirement
    else
      var lower := AsciiLower(value);
      if lower == "none" then Removed
      else
        var parsed := ParseInt(lower);
        if parsed.NaN? then NotANumber else SetTo(parsed.value)
  }

  /** `config.requirements[role][requirement] = v`. */
  function Assigned(table: Table, role: string, requirement: string, v: ReqValue): (t: Table)
    requires role in table
  {
    table[role := table[role][requirement := v]]
  }

  /**
   * An assignment to an existing field keeps every role and every field name,
   * sets that field, and leaves every other field as it was.
   */
  lemma AssignedOnlyField(table: Table, role: string, requirement: string, v: ReqValue, r: string, f: string)
    requires role in table && requirement in table[role]
    ensures var t := Assigned(table, role, requirement, v);
      && t.Keys == table.Keys
      && (forall x :: x in t ==> t[x].Keys == table[x].Keys)
      && t[role][requirement] == v
      && (r in table && f in table[r] && (r, f) != (role, requirement) ==> t[r][f] == table[r][f])
  {
  }

  /** The bot's configuration as the command sees it: the `requirements` table. */
  class Requirements {
    var table: Table

    constructor(table: Table)
      ensures this.table == table
    {
      this.table := table;
    }

    /**
     * The reply is `Decision` of the table before the call; a clear writes
     * `null`, a number writes that number, and every other reply leaves the
     * table as it was.
     */
    method Set(role: string, requirement: string, value: string) returns (r: SetReply)
      modifies this
      ensures r == Decision(old(table), role, requirement, value)
      ensures table == match r
        case Removed => Assigned(old(table), role, requirement, Null)
        case SetTo(n) => Assigned(old(table), role, requirement, Num(n))
        case _ => old(table)
    {
      if role !in table {
        return Thrown;
      }
      if !(requirement in table[role]) {
        return NoSuchRequirement;
      }
      var lower := AsciiLower(value);
      if lower == "none" {
        table := table[role := table[role][requirement := Null]];
        return Removed;
      }
      var parsed := ParseInt(lower);
      if parsed.NaN? {
        return NotANumber;
      }
      table := table[role := table[role][requirement := Num(parsed.value)]];
      return SetTo(parsed.value);
    }
  }

  /** A cleared field is `null`, not `undefined`, so it can be set again. */
  lemma ClearedCanBeSet(table: Table, role: string, requirement: string, value: string, n: int)
    requires Decision(table, role, requirement, value) == Removed
    ensures Decision(Assigned(table, role, requirement, Null), role, requirement, IntToString(n)) == SetTo(n)
  {
    var lower := AsciiLower(IntToString(n));
    assert lower == IntToString(n) by {
      var s := IntToString(n);
      if n < 0 {
        assert s == "-" + NatToString(-n);
        assert forall i :: 0 < i < |s| ==> s[i] == NatToString(-n)[i - 1];
      }
    }
    assert lower != "none" by {
      if n < 0 {
        assert IntToString(n)[0] == '-';
      } else {
        assert '0' <= IntToString(n)[0] <= '9';
      }
    }
    ParseIntPrefix(n, "");
    assert IntToString(n) + "" == IntToString(n);
  }
}
