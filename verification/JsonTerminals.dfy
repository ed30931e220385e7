/** The terminals of the grammar of JSON text (sections 2, 6 and 7 of RFC 8259), and that the scans of
    emu_json_internal.c accept exactly them in a text without zero bytes. */
module JsonTerminals {
  import opened Json

  /** ws of section 2. */
  predicate Ws(c: char) { c == ' ' || c == '\t' || c == '\n' || c == '\r' }

  /** Only white space from `a` to `b`. */
  predicate Gap(t: string, a: nat, b: int) { a <= b <= |t| && forall k :: a <= k < b ==> Ws(t[k]) }

  /** unescaped of section 7. */
  predicate Unescaped(c: char) { c >= ' ' && c != '"' && c != '\\' }

  predicate HexDigit(c: char) { '0' <= c <= '9' || 'A' <= c <= 'F' || 'a' <= c <= 'f' }

  /** char of section 7: an unescaped character, a two-character escape or \\uXXXX. */
  predicate IsChar(s: string) {
    || (|s| == 1 && Unescaped(s[0]))
    || (|s| == 2 && s[0] == '\\' && s[1] in ['"', '\\', '/', 'b', 'f', 'n', 'r', 't'])
    || (|s| == 6 && s[0] == '\\' && s[1] == 'u' && forall k :: 2 <= k < 6 ==> HexDigit(s[k]))
  }

  function Joined(cs: seq<string>): string { if cs == [] then "" else cs[0] + Joined(cs[1..]) }

  predicate Spells(cs: seq<string>, s: string) { Joined(cs) == s && forall i :: 0 <= i < |cs| ==> IsChar(cs[i]) }

  /** *char. */
  ghost predicate IsChars(s: string) { exists cs :: Spells(cs, s) }

  /** 1*DIGIT. */
  predicate Digits(s: string) { |s| >= 1 && forall k :: 0 <= k < |s| ==> '0' <= s[k] <= '9' }

  /** [ minus ] int of section 6. */
  predicate IsInt(s: string) {
    var u := if |s| > 0 && s[0] == '-' then s[1..] else s;
    Digits(u) && (u[0] == '0' ==> |u| == 1)
  }

  predicate IsFrac(s: string) { |s| > 0 && s[0] == '.' && Digits(s[1..]) }

  predicate IsExp(s: string) {
    && |s| > 0 && (s[0] == 'e' || s[0] == 'E')
    && Digits(if |s| > 1 && (s[1] == '+' || s[1] == '-') then s[2..] else s[1..])
  }

  /** The parts meet at `a` and `b`. */
  predicate PartsAt(s: string, a: nat, b: nat) {
    a <= b <= |s| && IsInt(s[..a]) && (a == b || IsFrac(s[a..b])) && (b == |s| || IsExp(s[b..]))
  }

  /** number = [ minus ] int [ frac ] [ exp ]. */
  ghost predicate IsNumber(s: string) { exists a, b :: PartsAt(s, a, b) }

  /** A literal name or a number. */
  ghost predicate IsScalar(s: string) { s == "true" || s == "false" || s == "null" || IsNumber(s) }

  predicate NulFree(t: string) { forall i :: 0 <= i < |t| ==> t[i] != '\0' }

  // ---- Strings ------------------------------------------------------------------------------------------

  lemma OneMore(t: string, i: nat, n: nat, close: nat, cs: seq<string>)
    requires i + n <= close <= |t| && IsChar(t[i..i + n]) && Spells(cs, t[i + n..close])
    ensures Spells([t[i..i + n]] + cs, t[i..close])
  {
    var all := [t[i..i + n]] + cs;
    assert all[1..] == cs;
    assert t[i..close] == t[i..i + n] + t[i + n..close];
  }

  /** What the scan goes over in one go is a character. */
  lemma CharAt(t: string, i: nat, n: nat)
    requires NulFree(t) && i < |t| && Quote(t, i).Some? && t[i] != '"' && i + n <= |t|
    requires n == if t[i] != '\\' then 1 else if t[i + 1] != 'u' then 2 else 6
    ensures IsChar(t[i..i + n])
  {
    var s := t[i..i + n];
    assert forall k :: 0 <= k < n ==> s[k] == t[i + k];
    if n == 2 { assert Escape(s[1]); }
    else if n == 6 { assert Hex(s[2]) && Hex(s[3]) && Hex(s[4]) && Hex(s[5]); }
  }

  lemma {:induction false} QuoteSound(t: string, i: nat, close: nat) returns (cs: seq<string>)
    requires NulFree(t) && i <= |t| && Quote(t, i) == Some(close)
    ensures Spells(cs, t[i..close])
    decreases |t| - i
  {
    if t[i] == '"' { cs := []; }
    else {
      var n := if t[i] != '\\' then 1 else if t[i + 1] != 'u' then 2 else 6;
      assert Quote(t, i + n) == Some(close);
      var rest := QuoteSound(t, i + n, close);
      CharAt(t, i, n);
      OneMore(t, i, n, close, rest);
      cs := [t[i..i + n]] + rest;
    }
  }

  /** The scan over one character. */
  lemma QuoteOver(t: string, i: nat, n: nat)
    requires i + n <= |t| && IsChar(t[i..i + n])
    ensures n > 0 && Quote(t, i) == Quote(t, i + n)
  {
    var s := t[i..i + n];
    assert forall k :: 0 <= k < n ==> t[i + k] == s[k];
    if n == 1 { assert Unescaped(t[i]); }
    else if n == 2 { assert t[i] == '\\' && Escape(t[i + 1]) && t[i + 1] != 'u'; }
    else {
      assert t[i] == '\\' && t[i + 1] == 'u';
      assert HexDigit(s[2]) && HexDigit(s[3]) && HexDigit(s[4]) && HexDigit(s[5]);
    }
  }

  lemma {:induction false} QuoteComplete(t: string, i: nat, close: nat, cs: seq<string>)
    requires i <= close < |t| && t[close] == '"' && Spells(cs, t[i..close])
    ensures Quote(t, i) == Some(close)
    decreases |cs|
  {
    if cs == [] { assert |t[i..close]| == 0; }
    else {
      var n := |cs[0]|;
      assert t[i..close] == cs[0] + Joined(cs[1..]);
      assert t[i..close][..n] == cs[0] && t[i..close][n..] == Joined(cs[1..]);
      assert t[i..i + n] == t[i..close][..n] && t[i + n..close] == t[i..close][n..];
      assert IsChar(cs[0]);
      QuoteOver(t, i, n);
      QuoteComplete(t, i + n, close, cs[1..]);
    }
  }

  lemma CharsSound(t: string, i: nat, close: nat)
    requires NulFree(t) && i <= |t| && Quote(t, i) == Some(close)
    ensures IsChars(t[i..close])
  {
    var cs := QuoteSound(t, i, close);
  }

  lemma CharsComplete(t: string, i: nat, close: nat)
    requires i <= close < |t| && t[close] == '"' && IsChars(t[i..close])
    ensures Quote(t, i) == Some(close)
  {
    var cs :| Spells(cs, t[i..close]);
    QuoteComplete(t, i, close, cs);
  }

  // ---- Numbers ------------------------------------------------------------------------------------------

  lemma {:induction false} DigitsEndIs(s: string, i: nat, j: nat)
    requires i <= j <= |s| && (forall k :: i <= k < j ==> Digit(s[k])) && (j < |s| ==> !Digit(s[j]))
    ensures DigitsEnd(s, i) == j
    decreases j - i
  {
    if i < j { DigitsEndIs(s, i + 1, j); }
  }

  lemma NumberSound(s: string)
    requires Number(s)
    ensures IsNumber(s)
  {
    var a := WholeEnd(s).value;
    var b := FractionEnd(s, a).value;
    WholeSound(s, a);
    FractionSound(s, a, b);
    if b < |s| { ExponentSound(s, b); }
    assert PartsAt(s, a, b);
  }

  lemma WholeSound(s: string, a: nat)
    requires WholeEnd(s) == Some(a)
    ensures a <= |s| && IsInt(s[..a])
  {
    var i := if |s| > 0 && s[0] == '-' then 1 else 0;
    var u := s[i..a];
    assert forall k :: 0 <= k < |u| ==> u[k] == s[i + k];
    assert u == if s[..a][0] == '-' then s[..a][1..] else s[..a];
  }

  lemma FractionSound(s: string, a: nat, b: nat)
    requires a <= |s| && FractionEnd(s, a) == Some(b)
    ensures a <= b <= |s| && (a == b || IsFrac(s[a..b]))
  {
    if b > a { assert forall k :: 0 <= k < b - a - 1 ==> s[a..b][1..][k] == s[a + 1 + k]; }
  }

  lemma ExponentSound(s: string, b: nat)
    requires b < |s| && ExponentEnd(s, b) == Some(|s|) && |s| > b
    ensures IsExp(s[b..])
  {
    var e := s[b..];
    assert s[b] == 'e' || s[b] == 'E';
    var j := if b + 1 < |s| && (s[b + 1] == '+' || s[b + 1] == '-') then b + 2 else b + 1;
    assert s[j..] == if |e| > 1 && (e[1] == '+' || e[1] == '-') then e[2..] else e[1..];
    assert Digit(s[j]);
  }

  lemma WholeComplete(s: string, a: nat)
    requires a <= |s| && IsInt(s[..a]) && (a < |s| ==> !Digit(s[a]))
    ensures WholeEnd(s) == Some(a)
  {
    var i := if s[0] == '-' then 1 else 0;
    var u := s[i..a];
    assert u == if s[..a][0] == '-' then s[..a][1..] else s[..a];
    forall k | i <= k < a ensures Digit(s[k]) { assert s[k] == u[k - i]; }
    if s[i] != '0' { DigitsEndIs(s, i + 1, a); } else { assert u[0] == '0'; }
  }

  lemma FractionComplete(s: string, a: nat, b: nat)
    requires a <= b <= |s|
    requires (if a == b then a < |s| ==> s[a] != '.' else IsFrac(s[a..b]) && (b < |s| ==> !Digit(s[b])))
    ensures FractionEnd(s, a) == Some(b)
  {
    if a < b {
      var d := s[a..b][1..];
      forall k | a + 1 <= k < b ensures Digit(s[k]) { assert s[k] == d[k - a - 1]; }
      DigitsEndIs(s, a + 2, b);
    }
  }

  lemma ExponentComplete(s: string, b: nat)
    requires b < |s| && IsExp(s[b..])
    ensures ExponentEnd(s, b) == Some(|s|)
  {
    var e := s[b..];
    var j := if |e| > 1 && (e[1] == '+' || e[1] == '-') then 2 else 1;
    var d := e[j..];
    assert Digits(d);
    forall k | b + j <= k < |s| ensures Digit(s[k]) { assert s[k] == d[k - b - j]; }
    DigitsEndIs(s, b + j + 1, |s|);
  }

  lemma PartsComplete(s: string, a: nat, b: nat)
    requires PartsAt(s, a, b)
    ensures WholeEnd(s) == Some(a) && FractionEnd(s, a) == Some(b) && ExponentEnd(s, b) == Some(|s|)
  {
    assert a < b ==> s[a] == s[a..b][0];
    assert b < |s| ==> s[b] == s[b..][0];
    WholeComplete(s, a);
    FractionComplete(s, a, b);
    if b < |s| { ExponentComplete(s, b); }
  }

  lemma NumberComplete(s: string)
    requires IsNumber(s)
    ensures Number(s)
  {
    var a: nat, b: nat :| PartsAt(s, a, b);
    PartsComplete(s, a, b);
  }

  lemma ScalarExact(s: string)
    ensures PrimitiveValid(s) <==> IsScalar(s)
  {
    if Number(s) { NumberSound(s); }
    if IsNumber(s) { NumberComplete(s); }
  }
}
