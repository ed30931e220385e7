/** json_parse as it runs: a token array filled in place, a count and a parent index. */
module JsonDevice {
  import opened Json

  class Tokenizer {
    const tokens: array<Token>
    var position: nat
    var next: nat
    var parent: int

    ghost predicate Valid()
      reads this
    {
      next <= tokens.Length
    }

    ghost function State(): Parser
      requires Valid()
      reads this, tokens
    {
      Parser(position, tokens[..next], parent)
    }

    constructor (capacity: nat)
      ensures Valid() && State() == START && tokens.Length == capacity && fresh(tokens)
    {
      tokens := new Token[capacity](_ => Token(Primitive, 0, -1, 0, -1));
      position, next, parent := 0, 0, -1;
    }

    /** json_allocate, the fields of the token, and the parent's count. */
    method Allocate(token: Token) returns (ok: bool)
      requires Valid() && ParserOk(State())
      modifies this`next, tokens
      ensures Valid() && ok == (old(next) < tokens.Length)
      ensures ok ==> tokens[..next] == Grow(old(tokens[..next]), parent, 1) + [token]
      ensures !ok ==> State() == old(State())
    {
      if next >= tokens.Length { return false; }
      if parent >= 0 { tokens[parent] := tokens[parent].(size := tokens[parent].size + 1); }
      tokens[next] := token;
      next := next + 1;
      assert tokens[..next] == tokens[..next - 1] + [token];
      ok := true;
    }

    /** The loop of json_parse_string: the closing quote, or nothing. */
    method FindQuote(t: string, start: nat) returns (close: Option<nat>)
      requires start <= |t|
      ensures close == Quote(t, start)
    {
      var i := start;
      while i < |t|
        invariant start <= i <= |t| && Quote(t, start) == Quote(t, i)
      {
        if t[i] == '"' { return Some(i); }
        if t[i] < ' ' { return None; }
        if t[i] == '\\' {
          if i + 1 >= |t| { return None; }
          if t[i + 1] == 'u' {
            if i + 6 > |t| || !Hex(t[i + 2]) || !Hex(t[i + 3]) || !Hex(t[i + 4]) || !Hex(t[i + 5]) { return None; }
            i := i + 6;
          } else {
            if !Escape(t[i + 1]) { return None; }
            i := i + 2;
          }
        } else {
          i := i + 1;
        }
      }
      close := None;
    }

    /** The scan of a primitive. */
    method FindStop(t: string, start: nat) returns (end: nat)
      requires start <= |t|
      ensures end == ParserEnd(t, start)
    {
      end := start;
      while end < |t| && !ParserStop(t[end])
        invariant start <= end <= |t| && ParserEnd(t, start) == ParserEnd(t, end)
      {
        end := end + 1;
      }
    }

    /** One turn of the loop: 0 to go on, -1 for broken text, -2 for too few tokens. */
    method Turn(t: string) returns (status: int)
      requires Valid() && ParserOk(State()) && position < |t|
      modifies this, tokens
      ensures Valid()
      ensures var m := Step(t, tokens.Length, old(State()));
              if m.Go? then status == 0 && State() == m.parser
              else status == if m.outcome.Full? then -2 else -1
    {
      var c := t[position];
      status := 0;
      if c == '{' || c == '[' {
        var ok := Allocate(Token(if c == '{' then Object else Array, position, -1, 0, parent));
        if !ok { return -2; }
        parent := next - 1;
        position := position + 1;
      } else if c == '}' || c == ']' {
        if parent < 0 || tokens[parent].kind != (if c == '}' then Object else Array) { return -1; }
        var open := parent;
        tokens[open] := tokens[open].(end := position + 1);
        parent := tokens[open].parent;
        position := position + 1;
      } else if c == '"' {
        var close := FindQuote(t, position + 1);
        if close.None? { return -1; }
        var ok := Allocate(Token(String, position + 1, close.value, 0, parent));
        if !ok { return -2; }
        position := close.value + 1;
      } else if c == ':' || c == ',' || Blank(c) {
        position := position + 1;
      } else {
        var end := FindStop(t, position);
        if end == position || !PrimitiveValid(t[position..end]) { return -1; }
        var ok := Allocate(Token(Primitive, position, end, 0, parent));
        if !ok { return -2; }
        position := end;
      }
    }

    /** json_parse. */
    method ParseText(t: string) returns (result: int)
      requires Valid() && State() == START
      modifies this, tokens
      ensures Valid()
      ensures match Parse(t, tokens.Length, START)
              case Tokens(ts) => result == |ts| == next && tokens[..next] == ts
              case Broken => result == -1
              case Full => result == -2
    {
      while position < |t|
        invariant Valid() && position <= |t| && ParserOk(State())
            && Parse(t, tokens.Length, State()) == Parse(t, tokens.Length, START)
        decreases |t| - position
      {
        var status := Turn(t);
        if status != 0 { return status; }
      }
      result := if parent != -1 || next == 0 then -1 else next;
    }
  }

  /** json_next. */
  method SkipSubtree(ts: seq<Token>, token: nat) returns (next: nat)
    requires token < |ts|
    ensures next == JsonNext(ts, token)
  {
    next := token + 1;
    while next < |ts| && ts[next].start < ts[token].end
      invariant token < next <= |ts| && NextFrom(ts, token + 1, ts[token].end) == NextFrom(ts, next, ts[token].end)
    {
      next := next + 1;
    }
  }
}
