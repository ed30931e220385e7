/** Writing and reading JSON strings (emu_json_internal.c): output_string escapes, json_string_decode
    undoes the escapes. Strings are sequences of bytes, each below 256. */
module JsonString {
  import opened Json

  const RECORD: nat := 65536

  predicate Bytes(s: string) { forall i :: 0 <= i < |s| ==> 0 < s[i] as int < 256 }

  // ---- Writing -------------------------------------------------------------------------------------

  function HexDigit(n: nat): char
    requires n < 16
  {
    "0123456789abcdef"[n]
  }

  /** What output_string writes for one byte. */
  function Escaped(c: char): (e: string)
    ensures 1 <= |e| <= 6
  {
    if c == '"' then "\\\""
    else if c == '\\' then "\\\\"
    else if c as int == 8 then "\\b"
    else if c as int == 12 then "\\f"
    else if c == '\n' then "\\n"
    else if c == '\r' then "\\r"
    else if c == '\t' then "\\t"
    else if c < ' ' then "\\u00" + [HexDigit(c as int / 16), HexDigit(c as int % 16)]
    else [c]
  }

  function EscapedAll(s: string): string {
    if s == [] then [] else Escaped(s[0]) + EscapedAll(s[1..])
  }

  datatype Output = Output(data: string, failed: bool)

  /** output_raw. */
  function Raw(o: Output, text: string): Output {
    if o.failed || |o.data| + |text| > RECORD then o.(failed := true) else o.(data := o.data + text)
  }

  function WriteBody(o: Output, s: string): Output
    decreases |s|
  {
    if o.failed || s == [] then o else WriteBody(Raw(o, Escaped(s[0])), s[1..])
  }

  /** output_string. */
  function Write(o: Output, s: string): Output { Raw(WriteBody(Raw(o, "\""), s), "\"") }

  function Quoted(s: string): string { "\"" + EscapedAll(s) + "\"" }

  lemma {:induction false} BodyWritten(o: Output, s: string)
    requires !o.failed && |o.data| <= RECORD
    ensures var w := WriteBody(o, s);
            if |o.data| + |EscapedAll(s)| <= RECORD then w == Output(o.data + EscapedAll(s), false) else w.failed
    decreases |s|
  {
    if s == [] { assert o.data + [] == o.data; }
    else {
      var e := Escaped(s[0]);
      var next := Raw(o, e);
      if next.failed { assert WriteBody(next, s[1..]) == next; }
      else {
        BodyWritten(next, s[1..]);
        assert o.data + e + EscapedAll(s[1..]) == o.data + EscapedAll(s);
      }
    }
  }

  /** Writing appends the quoted string exactly when all of it fits, and fails otherwise. */
  lemma WrittenQuoted(o: Output, s: string)
    requires !o.failed && |o.data| <= RECORD
    ensures Write(o, s).failed <==> |o.data| + |Quoted(s)| > RECORD
    ensures !Write(o, s).failed ==> Write(o, s).data == o.data + Quoted(s)
  {
    var first := Raw(o, "\"");
    if first.failed { assert WriteBody(first, s) == first; }
    else {
      BodyWritten(first, s);
      assert o.data + "\"" + EscapedAll(s) + "\"" == o.data + Quoted(s);
    }
  }

  // ---- Reading --------------------------------------------------------------------------------------

  function HexValue(c: char): int {
    if '0' <= c <= '9' then c as int - '0' as int
    else if 'a' <= c <= 'f' then c as int - 'a' as int + 10
    else if 'A' <= c <= 'F' then c as int - 'A' as int + 10
    else -1
  }

  /** Four hexadecimal digits; the tokenizer has checked that they are there. */
  function Code(t: string, i: nat): int {
    if i + 4 > |t| || HexValue(t[i]) < 0 || HexValue(t[i + 1]) < 0 || HexValue(t[i + 2]) < 0 || HexValue(t[i + 3]) < 0
        then -1
    else ((HexValue(t[i]) * 16 + HexValue(t[i + 1])) * 16 + HexValue(t[i + 2])) * 16 + HexValue(t[i + 3])
  }

  function Chr(n: int): char { if 0 <= n < 256 then n as char else '\0' }

  /** append_utf8's bytes. */
  function Utf8(cp: nat): string {
    if cp <= 0x7f then [Chr(cp)]
    else if cp <= 0x7ff then [Chr(0xc0 + cp / 64), Chr(0x80 + cp % 64)]
    else if cp <= 0xffff then [Chr(0xe0 + cp / 4096), Chr(0x80 + cp / 64 % 64), Chr(0x80 + cp % 64)]
    else [Chr(0xf0 + cp / 262144), Chr(0x80 + cp / 4096 % 64), Chr(0x80 + cp / 64 % 64), Chr(0x80 + cp % 64)]
  }

  function Unescape(c: char): Option<char> {
    if c == '"' || c == '\\' || c == '/' then Some(c)
    else if c == 'b' then Some(8 as char)
    else if c == 'f' then Some(12 as char)
    else if c == 'n' then Some('\n')
    else if c == 'r' then Some('\r')
    else if c == 't' then Some('\t')
    else None
  }

  /** The code point of the escape at `i` and where it ends; a surrogate pair takes two escapes. */
  function CodePoint(t: string, i: nat, end: nat): Option<(nat, nat)> {
    var high := Code(t, i + 2);
    if high < 0 then None
    else if 0xd800 <= high <= 0xdbff then
      if i + 5 + 6 >= end || i + 8 > |t| || t[i + 6] != '\\' || t[i + 7] != 'u' then None
      else
        var low := Code(t, i + 8);
        if low < 0xdc00 || low > 0xdfff then None
        else Some((0x10000 + (high - 0xd800) * 0x400 + (low - 0xdc00), i + 12))
    else if 0xdc00 <= high <= 0xdfff then None
    else Some((high, i + 6))
  }

  /** json_string_decode from byte `i` on; `out` is what is decoded so far. */
  function Decode(t: string, i: nat, end: nat, out: string, capacity: nat, allowNull: bool): Option<string>
    requires end <= |t|
    decreases end - i
  {
    if i >= end then Some(out)
    else if t[i] != '\\' then
      if |out| + 1 >= capacity then None else Decode(t, i + 1, end, out + [t[i]], capacity, allowNull)
    else if i + 1 >= |t| then None
    else if t[i + 1] == 'u' then
      var p := CodePoint(t, i, end);
      if p.None? || (p.value.0 == 0 && !allowNull) || |out| + |Utf8(p.value.0)| >= capacity then None
      else Decode(t, p.value.1, end, out + Utf8(p.value.0), capacity, allowNull)
    else
      var c := Unescape(t[i + 1]);
      if c.None? || |out| + 1 >= capacity then None
      else Decode(t, i + 2, end, out + [c.value], capacity, allowNull)
  }

  // ---- Round trip ----------------------------------------------------------------------------------------

  lemma HexRoundTrip(n: nat)
    requires n < 16
    ensures HexValue(HexDigit(n)) == n && Hex(HexDigit(n))
  {
  }

  /** A stretch of text made of two parts. */
  lemma Parts(t: string, i: nat, end: nat, e: string, rest: string)
    requires i <= end <= |t| && t[i..end] == e + rest
    ensures i + |e| <= end && t[i..i + |e|] == e && t[i + |e|..end] == rest
  {
    assert t[i..i + |e|] == t[i..end][..|e|];
    assert t[i + |e|..end] == t[i..end][|e|..];
  }

  lemma At(t: string, i: nat, e: string, k: nat)
    requires i + |e| <= |t| && t[i..i + |e|] == e && k < |e|
    ensures t[i + k] == e[k]
  {
    assert t[i..i + |e|][k] == t[i + k];
  }

  lemma SixAt(t: string, i: nat, e: string)
    requires i + |e| <= |t| && t[i..i + |e|] == e && |e| == 6
    ensures t[i] == e[0] && t[i + 1] == e[1] && t[i + 2] == e[2] && t[i + 3] == e[3] && t[i + 4] == e[4]
    ensures t[i + 5] == e[5]
  {
    At(t, i, e, 0);
    At(t, i, e, 1);
    At(t, i, e, 2);
    At(t, i, e, 3);
    At(t, i, e, 4);
    At(t, i, e, 5);
  }

  /** A control byte without a short escape. */
  predicate Long(c: char) { |Escaped(c)| == 6 }

  lemma LongCode(t: string, i: nat, c: char)
    requires 0 < c as int < 256 && Long(c) && i + 6 <= |t| && t[i..i + 6] == Escaped(c)
    ensures t[i] == '\\' && t[i + 1] == 'u' && Code(t, i + 2) == c as int < 32 && Utf8(c as int) == [c]
    ensures Hex(t[i + 2]) && Hex(t[i + 3]) && Hex(t[i + 4]) && Hex(t[i + 5])
  {
    SixAt(t, i, Escaped(c));
    HexRoundTrip(c as int / 16);
    HexRoundTrip(c as int % 16);
  }

  /** One escaped byte is read back as that byte. */
  lemma OneDecoded(t: string, i: nat, end: nat, out: string, capacity: nat, allowNull: bool, c: char)
    requires 0 < c as int < 256 && end <= |t| && i + |Escaped(c)| <= end && t[i..i + |Escaped(c)|] == Escaped(c)
    requires |out| + 1 < capacity
    ensures Decode(t, i, end, out, capacity, allowNull)
        == Decode(t, i + |Escaped(c)|, end, out + [c], capacity, allowNull)
  {
    var e := Escaped(c);
    At(t, i, e, 0);
    if Long(c) {
      LongCode(t, i, c);
      assert CodePoint(t, i, end) == Some((c as int, i + 6));
    } else if |e| == 2 {
      At(t, i, e, 1);
    }
  }

  lemma Rejoin(out: string, s: string)
    requires s != []
    ensures (out + [s[0]]) + s[1..] == out + s
  {
  }

  lemma {:induction false} AllDecoded(t: string, i: nat, end: nat, out: string, capacity: nat, allowNull: bool,
                                      s: string)
    requires Bytes(s) && i <= end <= |t| && t[i..end] == EscapedAll(s) && |out| + |s| < capacity
    ensures Decode(t, i, end, out, capacity, allowNull) == Some(out + s)
    decreases |s|
  {
    if s == [] {
      assert out + s == out;
    } else {
      var j := i + |Escaped(s[0])|;
      assert j <= end && t[i..j] == Escaped(s[0]) && t[j..end] == EscapedAll(s[1..]) by {
        Parts(t, i, end, Escaped(s[0]), EscapedAll(s[1..]));
      }
      Rejoin(out, s);
      AllDecoded(t, j, end, out + [s[0]], capacity, allowNull, s[1..]);
      OneDecoded(t, i, end, out, capacity, allowNull, s[0]);
    }
  }

  /** Reading undoes writing: for every string without zero bytes that fits the reader's buffer. */
  lemma DecodeUndoesWrite(s: string, capacity: nat, allowNull: bool)
    requires Bytes(s) && |s| < capacity
    ensures Decode(Quoted(s), 1, |Quoted(s)| - 1, [], capacity, allowNull) == Some(s)
  {
    var t := Quoted(s);
    assert t[1..|t| - 1] == EscapedAll(s);
    AllDecoded(t, 1, |t| - 1, [], capacity, allowNull, s);
    assert [] + s == s;
  }

  // ---- What is written is valid JSON ----------------------------------------------------------------------

  lemma OneScanned(t: string, i: nat, c: char)
    requires 0 < c as int < 256 && i + |Escaped(c)| < |t| && t[i..i + |Escaped(c)|] == Escaped(c)
    ensures Quote(t, i) == Quote(t, i + |Escaped(c)|)
  {
    var e := Escaped(c);
    At(t, i, e, 0);
    if Long(c) { LongCode(t, i, c); } else if |e| == 2 { At(t, i, e, 1); }
  }

  lemma {:induction false} AllScanned(t: string, i: nat, end: nat, s: string)
    requires Bytes(s) && i <= end < |t| && t[i..end] == EscapedAll(s) && t[end] == '"'
    ensures Quote(t, i) == Some(end)
    decreases |s|
  {
    if s != [] {
      var e := Escaped(s[0]);
      Parts(t, i, end, e, EscapedAll(s[1..]));
      OneScanned(t, i, s[0]);
      AllScanned(t, i + |e|, end, s[1..]);
    }
  }

  /** A written string is accepted by the validator as one string, with the extent reading expects. */
  lemma WrittenIsValid(s: string)
    requires Bytes(s)
    ensures Document(Quoted(s)) == Some(Tree(String, 1, |Quoted(s)| - 1, []))
  {
    var t := Quoted(s);
    assert t[1..|t| - 1] == EscapedAll(s);
    AllScanned(t, 1, |t| - 1, s);
    assert Value(t, 0, 0) == Some(Tree(String, 1, |t| - 1, []));
  }
}
