/**
 * String helpers with the JavaScript meaning the bot relies on.
 * A Dafny `char` is one Unicode scalar value; JavaScript strings count
 * UTF-16 code units, which `Utf16Length` models.
 */
module Text {

  /** JavaScript truthiness of a string: only the empty string is falsy. */
  predicate Truthy(s: string)
  {
    s != ""
  }

  function DigitChar(d: int): (c: char)
    requires 0 <= d < 10
    ensures '0' <= c <= '9' && c as int - '0' as int == d
  {
    ['0', '1', '2', '3', '4', '5', '6', '7', '8', '9'][d]
  }

  /** Decimal rendering of a natural number, as `String(n)` writes it. */
  function NatToString(n: nat): (s: string)
    ensures |s| >= 1
    ensures forall i :: 0 <= i < |s| ==> '0' <= s[i] <= '9'
    decreases n
  {
    if n < 10 then [DigitChar(n)] else NatToString(n / 10) + [DigitChar(n % 10)]
  }

  /** Decimal rendering of an integer, with a leading minus sign when negative. */
  function IntToString(i: int): string
  {
    if i < 0 then "-" + NatToString(-i) else NatToString(i)
  }

  /** The number of decimal digits of `n`, for the ranges the formatter needs. */
  lemma NatToStringLength(n: nat)
    ensures n < 10 ==> NatToString(n) == [DigitChar(n)]
    ensures 10 <= n < 100 ==> NatToString(n) == [DigitChar(n / 10), DigitChar(n % 10)]
    ensures 100 <= n < 1000 ==> NatToString(n) == [DigitChar(n / 100), DigitChar(n / 10 % 10), DigitChar(n % 10)]
  {
    if 100 <= n < 1000 {
      assert NatToString(n / 10) == [DigitChar(n / 100), DigitChar(n / 10 % 10)] by {
        assert n / 10 / 10 == n / 100;
      }
    }
  }

  /** `w` occurs in `s` (JavaScript `s.includes(w)`); the empty word occurs everywhere. */
  predicate Contains(s: string, w: string)
    decreases |s|
  {
    w <= s || (|s| > 0 && Contains(s[1..], w))
  }

  lemma ContainsAt(s: string, w: string, i: nat)
    requires i + |w| <= |s| && s[i..i + |w|] == w
    ensures Contains(s, w)
    decreases i
  {
    if i > 0 {
      assert s[1..][i - 1..i - 1 + |w|] == s[i..i + |w|];
      ContainsAt(s[1..], w, i - 1);
    }
  }

  /** Lower-cases the ASCII letters and leaves every other character alone. */
  function AsciiLower(s: string): (r: string)
    ensures |r| == |s|
    ensures forall i :: 0 <= i < |s| ==> r[i] == LowerChar(s[i])
  {
    seq(|s|, i requires 0 <= i < |s| => LowerChar(s[i]))
  }

  function LowerChar(c: char): char
  {
    if 'A' <= c <= 'Z' then (c as int + 32) as char else c
  }

  /** Number of UTF-16 code units JavaScript's `length` reports for `s`. */
  function Utf16Length(s: string): (n: nat)
    ensures |s| <= n <= 2 * |s|
  {
    if s == [] then 0
    else (if s[0] as int > 0xFFFF then 2 else 1) + Utf16Length(s[1..])
  }

  /** A string of `n` asterisks. */
  function Stars(n: nat): (r: string)
    ensures |r| == n
    ensures forall i :: 0 <= i < n ==> r[i] == '*'
  {
    seq(n, _ => '*')
  }

  lemma StarsUtf16Length(n: nat)
    ensures Utf16Length(Stars(n)) == n
  {
    if n > 0 {
      assert Stars(n)[1..] == Stars(n - 1);
      StarsUtf16Length(n - 1);
    }
  }

  /**
   * The replacement text for one match of a regular expression without capture
   * groups (ECMAScript `GetSubstitution`): `$$` is "$", `$&` the match, `` $` ``
   * the text before it, `$'` the text after it; any other `$` stays as it is.
   */
  function Substitution(rep: string, matched: string, before: string, after: string): (r: string)
    ensures forall c :: c in r ==> c in rep || c in matched || c in before || c in after
    decreases |rep|
  {
    if rep == [] then []
    else if rep[0] == '$' && |rep| >= 2 && rep[1] in "$&`'" then
      (if rep[1] == '$' then "$" else if rep[1] == '&' then matched else if rep[1] == '`' then before else after)
        + Substitution(rep[2..], matched, before, after)
    else [rep[0]] + Substitution(rep[1..], matched, before, after)
  }

  /** A replacement without `$` is inserted as it is. */
  lemma {:induction false} SubstitutionLiteral(rep: string, matched: string, before: string, after: string)
    requires '$' !in rep
    ensures Substitution(rep, matched, before, after) == rep
    decreases |rep|
  {
    if rep != [] {
      assert rep[1..] <= rep[1..] && forall c :: c in rep[1..] ==> c in rep;
      SubstitutionLiteral(rep[1..], matched, before, after);
    }
  }

  /** `s.replace(/[❮❯]/g, symbol)` from index `i` on: every level bracket becomes the substitution of `symbol`. */
  function ReplaceBracketsFrom(s: string, i: nat, symbol: string): (r: string)
    requires i <= |s|
    ensures forall c :: c in r && c != '❮' && c != '❯' ==> c in s || c in symbol
    decreases |s| - i
  {
    if i == |s| then []
    else
      (if s[i] == '❮' || s[i] == '❯' then Substitution(symbol, [s[i]], s[..i], s[i + 1..]) else [s[i]])
        + ReplaceBracketsFrom(s, i + 1, symbol)
  }

  /** `s.replace(/[❮❯]/g, symbol)`. */
  function ReplaceBrackets(s: string, symbol: string): (r: string)
    ensures forall c :: c in r && c != '❮' && c != '❯' ==> c in s || c in symbol
  {
    ReplaceBracketsFrom(s, 0, symbol)
  }

  /** A string with no bracket is left as it is by the replacement. */
  lemma {:induction false} ReplaceBracketsIdentity(s: string, symbol: string)
    requires '❮' !in s && '❯' !in s
    ensures ReplaceBrackets(s, symbol) == s
  {
    IdentityFrom(s, 0, symbol);
    assert s[0..] == s;
  }

  lemma {:induction false} IdentityFrom(s: string, i: nat, symbol: string)
    requires i <= |s| && '❮' !in s && '❯' !in s
    ensures ReplaceBracketsFrom(s, i, symbol) == s[i..]
    decreases |s| - i
  {
    if i < |s| {
      IdentityFrom(s, i + 1, symbol);
      assert s[i..] == [s[i]] + s[i + 1..];
    }
  }

  /** `$&` puts every bracket back: the replacement with "$&" changes nothing. */
  lemma {:induction false} ReplaceBracketsMatchPattern(s: string)
    ensures ReplaceBrackets(s, "$&") == s
  {
    MatchPatternFrom(s, 0);
    assert s[0..] == s;
  }

  lemma {:induction false} MatchPatternFrom(s: string, i: nat)
    requires i <= |s|
    ensures ReplaceBracketsFrom(s, i, "$&") == s[i..]
    decreases |s| - i
  {
    if i < |s| {
      if s[i] == '❮' || s[i] == '❯' {
        assert "$&"[2..] == [];
        assert Substitution("$&", [s[i]], s[..i], s[i + 1..]) == [s[i]];
      }
      MatchPatternFrom(s, i + 1);
      assert s[i..] == [s[i]] + s[i + 1..];
    }
  }

  /** JavaScript `s.split(sep)` for a one-character separator. */
  function Split(s: string, sep: char): (parts: seq<string>)
    ensures |parts| >= 1
    ensures forall i :: 0 <= i < |parts| ==> sep !in parts[i]
  {
    if s == [] then [""]
    else
      var rest := Split(s[1..], sep);
      if s[0] == sep then [""] + rest else [[s[0]] + rest[0]] + rest[1..]
  }

  /** The split has a second part exactly when the separator occurs. */
  lemma {:induction false} SplitHasSecond(s: string, sep: char)
    ensures |Split(s, sep)| >= 2 <==> sep in s
  {
    if s != [] {
      SplitHasSecond(s[1..], sep);
    }
  }

  /** Characters matched by the regular-expression class `\w`. */
  predicate WordChar(c: char)
  {
    'a' <= c <= 'z' || 'A' <= c <= 'Z' || '0' <= c <= '9' || c == '_'
  }

  /** `s.replace(/\W/g, '')`: keeps exactly the word characters, in order. */
  function KeepWordChars(s: string): (r: string)
    ensures |r| <= |s|
    ensures forall i :: 0 <= i < |r| ==> WordChar(r[i])
    ensures forall c :: c in s && WordChar(c) ==> c in r
  {
    if s == [] then []
    else (if WordChar(s[0]) then [s[0]] else []) + KeepWordChars(s[1..])
  }
}
