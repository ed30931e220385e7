/** The JSON validator and tokenizer of emu_json_internal.c: recursive descent on one side, one flat
    scan that keeps a parent index on the other. Text is a sequence of bytes, each below 256. */
module Json {
  const DEPTH: nat := 64

  datatype Option<T> = None | Some(value: T)

  datatype Kind = Object | Array | String | Primitive

  /** A value with its extent as a token reports it: a string's is between its quotes. */
  datatype Tree = Tree(kind: Kind, start: nat, end: nat, children: seq<Tree>)

  // ---- Lexical elements, as the code tests for them ----------------------------------------------------

  predicate Blank(c: char) { c == ' ' || c == '\t' || c == '\r' || c == '\n' }

  /** strchr also finds the terminating zero of its set. */
  predicate SyntaxBlank(c: char) { Blank(c) || c == '\0' }

  predicate Stop(c: char) { Blank(c) || c == ',' || c == ']' || c == '}' || c == '\0' }

  predicate ParserStop(c: char) { Stop(c) || c == ':' }

  predicate Digit(c: char) { '0' <= c <= '9' }

  predicate Hex(c: char) { Digit(c) || 'a' <= c <= 'f' || 'A' <= c <= 'F' }

  predicate Escape(c: char) {
    c == '"' || c == '\\' || c == '/' || c == 'b' || c == 'f' || c == 'n' || c == 'r' || c == 't' || c == '\0'
  }

  function DigitsEnd(s: string, i: nat): (j: nat)
    requires i <= |s|
    ensures i <= j <= |s| && (forall k :: i <= k < j ==> Digit(s[k]))
    decreases |s| - i
  {
    if i < |s| && Digit(s[i]) then DigitsEnd(s, i + 1) else i
  }

  function WholeEnd(s: string): Option<nat> {
    var i := if |s| > 0 && s[0] == '-' then 1 else 0;
    if i >= |s| || !Digit(s[i]) then None
    else if s[i] == '0' then Some(i + 1)
    else Some(DigitsEnd(s, i + 1))
  }

  function FractionEnd(s: string, i: nat): Option<nat> {
    if i >= |s| || s[i] != '.' then Some(i)
    else if i + 1 >= |s| || !Digit(s[i + 1]) then None
    else Some(DigitsEnd(s, i + 2))
  }

  function ExponentEnd(s: string, i: nat): Option<nat> {
    if i >= |s| || (s[i] != 'e' && s[i] != 'E') then Some(i)
    else
      var j := if i + 1 < |s| && (s[i + 1] == '+' || s[i + 1] == '-') then i + 2 else i + 1;
      if j >= |s| || !Digit(s[j]) then None else Some(DigitsEnd(s, j + 1))
  }

  /** json_number. */
  predicate Number(s: string) {
    var whole := WholeEnd(s);
    whole.Some? &&
    var fraction := FractionEnd(s, whole.value);
    fraction.Some? &&
    var exponent := ExponentEnd(s, fraction.value);
    exponent.Some? && exponent.value == |s|
  }

  predicate PrimitiveValid(s: string) { s == "true" || s == "false" || s == "null" || Number(s) }

  predicate Plain(c: char) {
    && c != ':' && c != '{' && c != '[' && c != '"' && c != '}' && c != ']' && c != ',' && c != '\\'
    && !SyntaxBlank(c)
  }

  /** A valid primitive holds no structural character, so both scans agree on its extent. */
  lemma NumberPlain(s: string)
    requires Number(s)
    ensures |s| > 0 && forall k :: 0 <= k < |s| ==> Plain(s[k])
  {
    var whole := WholeEnd(s).value;
    var fraction := FractionEnd(s, whole).value;
    assert forall k :: 0 <= k < whole ==> Plain(s[k]);
    assert forall k :: whole <= k < fraction ==> Plain(s[k]);
    assert forall k :: fraction <= k < |s| ==> Plain(s[k]);
  }

  lemma PrimitivePlain(s: string)
    requires PrimitiveValid(s)
    ensures |s| > 0 && forall k :: 0 <= k < |s| ==> Plain(s[k])
  {
    if Number(s) { NumberPlain(s); }
  }

  // ---- Scanning ---------------------------------------------------------------------------------------------

  /** syntax_space. */
  function Space(t: string, i: nat): (j: nat)
    requires i <= |t|
    ensures i <= j <= |t|
    decreases |t| - i
  {
    if i < |t| && SyntaxBlank(t[i]) then Space(t, i + 1) else i
  }

  /** The index of the closing quote of a string whose opening quote is before `i`: the loops of
      syntax_string and json_parse_string. */
  function Quote(t: string, i: nat): (r: Option<nat>)
    requires i <= |t|
    ensures r.Some? ==> i <= r.value < |t| && t[r.value] == '"'
    decreases |t| - i
  {
    if i >= |t| then None
    else if t[i] == '"' then Some(i)
    else if t[i] < ' ' then None
    else if t[i] != '\\' then Quote(t, i + 1)
    else if i + 1 >= |t| then None
    else if t[i + 1] != 'u' then (if Escape(t[i + 1]) then Quote(t, i + 2) else None)
    else if i + 6 <= |t| && Hex(t[i + 2]) && Hex(t[i + 3]) && Hex(t[i + 4]) && Hex(t[i + 5]) then Quote(t, i + 6)
    else None
  }

  /** Where the validator's scan of a primitive ends. */
  function PrimitiveEnd(t: string, i: nat): (j: nat)
    requires i <= |t|
    ensures i <= j <= |t| && (forall k :: i <= k < j ==> !Stop(t[k])) && (j < |t| ==> Stop(t[j]))
    decreases |t| - i
  {
    if i < |t| && !Stop(t[i]) then PrimitiveEnd(t, i + 1) else i
  }

  /** Where the tokenizer's does. */
  function ParserEnd(t: string, i: nat): (j: nat)
    requires i <= |t|
    ensures i <= j <= |t| && (forall k :: i <= k < j ==> !ParserStop(t[k])) && (j < |t| ==> ParserStop(t[j]))
    decreases |t| - i
  {
    if i < |t| && !ParserStop(t[i]) then ParserEnd(t, i + 1) else i
  }

  // ---- The validator -------------------------------------------------------------------------------------------

  /** The first and the next position of a value in the text. */
  function Begin(v: Tree): int { if v.kind.String? then v.start - 1 else v.start }

  function After(v: Tree): nat { if v.kind.String? then v.end + 1 else v.end }

  /** What a validator call accepts: a value that begins where it should and ends within the text. */
  predicate Spans(t: string, i: nat, v: Tree) { Begin(v) == i && v.start <= v.end && i < After(v) <= |t| }

  /** syntax_value, returning what it accepted. */
  function Value(t: string, i: nat, depth: nat): (r: Option<Tree>)
    ensures r.Some? ==> Spans(t, i, r.value)
    decreases |t| - i, 0
  {
    if i >= |t| || depth >= DEPTH then None
    else if t[i] == '{' then
      var first := Space(t, i + 1);
      if first < |t| && t[first] == '}' then Some(Tree(Object, i, first + 1, []))
      else
        var r := Members(t, first, depth + 1);
        if r.None? then None else Some(Tree(Object, i, r.value.1 + 1, r.value.0))
    else if t[i] == '[' then
      var first := Space(t, i + 1);
      if first < |t| && t[first] == ']' then Some(Tree(Array, i, first + 1, []))
      else
        var r := Items(t, first, depth + 1);
        if r.None? then None else Some(Tree(Array, i, r.value.1 + 1, r.value.0))
    else if t[i] == '"' then
      var close := Quote(t, i + 1);
      if close.None? then None else Some(Tree(String, i + 1, close.value, []))
    else
      var end := PrimitiveEnd(t, i);
      if end > i && PrimitiveValid(t[i..end]) then Some(Tree(Primitive, i, end, [])) else None
  }

  /** The loop of syntax_array from an element on: the elements, and the index of the bracket. */
  function Items(t: string, i: nat, depth: nat): (r: Option<(seq<Tree>, nat)>)
    requires i <= |t|
    ensures r.Some? ==> i < r.value.1 < |t| && t[r.value.1] == ']' && r.value.0 != []
    decreases |t| - i, 1
  {
    var v := Value(t, i, depth);
    if v.None? then None
    else
      var next := Space(t, After(v.value));
      if next >= |t| then None
      else if t[next] == ']' then Some(([v.value], next))
      else if t[next] != ',' then None
      else
        var rest := Items(t, Space(t, next + 1), depth);
        if rest.None? then None else Some(([v.value] + rest.value.0, rest.value.1))
  }

  /** The loop of syntax_object from a member on: keys and values in turn, and the index of the brace. */
  function Members(t: string, i: nat, depth: nat): (r: Option<(seq<Tree>, nat)>)
    requires i <= |t|
    ensures r.Some? ==> i < r.value.1 < |t| && t[r.value.1] == '}' && r.value.0 != []
    decreases |t| - i, 2
  {
    if i >= |t| || t[i] != '"' || Quote(t, i + 1).None? then None
    else
      var key := Tree(String, i + 1, Quote(t, i + 1).value, []);
      var colon := Space(t, After(key));
      if colon >= |t| || t[colon] != ':' then None
      else
        var r := MemberValue(t, Space(t, colon + 1), depth);
        if r.None? then None else Some(([key] + r.value.0, r.value.1))
  }

  /** The value of a member and what follows it. */
  function MemberValue(t: string, i: nat, depth: nat): (r: Option<(seq<Tree>, nat)>)
    requires i <= |t|
    ensures r.Some? ==> i < r.value.1 < |t| && t[r.value.1] == '}' && r.value.0 != []
    decreases |t| - i, 1
  {
    var v := Value(t, i, depth);
    if v.None? then None
    else
      var next := Space(t, After(v.value));
      if next >= |t| then None
      else if t[next] == '}' then Some(([v.value], next))
      else if t[next] != ',' then None
      else
        var rest := Members(t, Space(t, next + 1), depth);
        if rest.None? then None else Some(([v.value] + rest.value.0, rest.value.1))
  }

  /** json_syntax_valid. */
  function Document(t: string): Option<Tree> {
    var v := Value(t, Space(t, 0), 0);
    if v.Some? && Space(t, After(v.value)) == |t| then v else None
  }

  /** A container accepted with children. */
  lemma ValueSplit(t: string, i: nat, depth: nat, v: Tree)
    requires Value(t, i, depth) == Some(v) && v.children != []
    ensures var first := Space(t, i + 1);
            && v.start == i && v.end > 0 && !v.kind.String? && i < first
            && (if t[i] == '{' then Members(t, first, depth + 1) == Some((v.children, v.end - 1))
                else Items(t, first, depth + 1) == Some((v.children, v.end - 1)))
  {
  }

  /** A value accepted without children. */
  lemma LeafIs(t: string, i: nat, depth: nat, v: Tree)
    requires Value(t, i, depth) == Some(v) && v.children == []
    ensures i < |t|
    ensures t[i] == '{' || t[i] == '[' ==>
              v.end > 0 && v == Tree(if t[i] == '{' then Object else Array, i, v.end, [])
                  && v.end - 1 == Space(t, i + 1) && v.end - 1 < |t|
              && t[v.end - 1] == if t[i] == '{' then '}' else ']'
    ensures t[i] == '"' ==> v == Tree(String, i + 1, v.end, []) && Quote(t, i + 1) == Some(v.end)
    ensures t[i] != '{' && t[i] != '[' && t[i] != '"' ==>
              v == Tree(Primitive, i, v.end, []) && v.end == PrimitiveEnd(t, i) > i && PrimitiveValid(t[i..v.end])
  {
  }

  lemma ItemsSplit(t: string, i: nat, depth: nat, vs: seq<Tree>, close: nat) returns (v: Tree, next: nat)
    requires i <= |t| && Items(t, i, depth) == Some((vs, close))
    ensures Value(t, i, depth) == Some(v) && vs != [] && vs[0] == v && next == Space(t, After(v)) && i < next < |t|
    ensures next <= close
    ensures Begin(v) == i && After(v) <= next
    ensures if t[next] == ']' then vs == [v] && close == next
            else t[next] == ',' && Items(t, Space(t, next + 1), depth) == Some((vs[1..], close))
  {
    v := Value(t, i, depth).value;
    next := Space(t, After(v));
    if t[next] != ']' { assert vs[1..] == Items(t, Space(t, next + 1), depth).value.0; }
  }

  lemma MemberValueSplit(t: string, i: nat, depth: nat, vs: seq<Tree>, close: nat) returns (v: Tree, next: nat)
    requires i <= |t| && MemberValue(t, i, depth) == Some((vs, close))
    ensures Value(t, i, depth) == Some(v) && vs != [] && vs[0] == v && next == Space(t, After(v)) && i < next < |t|
    ensures next <= close
    ensures Begin(v) == i && After(v) <= next
    ensures if t[next] == '}' then vs == [v] && close == next
            else t[next] == ',' && Members(t, Space(t, next + 1), depth) == Some((vs[1..], close))
  {
    v := Value(t, i, depth).value;
    next := Space(t, After(v));
    if t[next] != '}' { assert vs[1..] == Members(t, Space(t, next + 1), depth).value.0; }
  }

  // ---- The tokenizer -----------------------------------------------------------------------------------------------

  datatype Token = Token(kind: Kind, start: nat, end: int, size: nat, parent: int)

  datatype Parser = Parser(position: nat, tokens: seq<Token>, parent: int)

  datatype Outcome = Tokens(tokens: seq<Token>) | Broken | Full

  datatype Move = Go(parser: Parser) | Halt(outcome: Outcome)

  /** The parent index stays on tokens already made. */
  predicate ParserOk(p: Parser) {
    -1 <= p.parent < |p.tokens| && forall i :: 0 <= i < |p.tokens| ==> -1 <= p.tokens[i].parent < i
  }

  /** One more direct child, or `n` more. */
  function Grow(tokens: seq<Token>, at: int, n: nat): seq<Token> {
    if 0 <= at < |tokens| then tokens[at := tokens[at].(size := tokens[at].size + n)] else tokens
  }

  /** json_allocate and the fields set right after it. */
  function Add(p: Parser, capacity: nat, token: Token, position: nat): Move {
    if |p.tokens| >= capacity then Halt(Full) else Go(Parser(position, Grow(p.tokens, p.parent, 1) + [token], p.parent))
  }

  /** One turn of the loop of json_parse; the position moves on past what it consumed. */
  function Step(t: string, capacity: nat, p: Parser): (m: Move)
    requires p.position < |t| && ParserOk(p)
    ensures m.Go? ==> p.position < m.parser.position <= |t| && ParserOk(m.parser)
  {
    var c := t[p.position];
    if c == '{' || c == '[' then
      var kind := if c == '{' then Object else Array;
      if |p.tokens| >= capacity then Halt(Full)
      else Go(Parser(p.position + 1, Grow(p.tokens, p.parent, 1) + [Token(kind, p.position, -1, 0, p.parent)],
          |p.tokens|))
    else if c == '}' || c == ']' then
      if p.parent < 0 || p.tokens[p.parent].kind != (if c == '}' then Object else Array) then Halt(Broken)
      else
        var open := p.tokens[p.parent];
        Go(Parser(p.position + 1, p.tokens[p.parent := open.(end := p.position + 1)], open.parent))
    else if c == '"' then
      var close := Quote(t, p.position + 1);
      if close.None? then Halt(Broken)
      else Add(p, capacity, Token(String, p.position + 1, close.value, 0, p.parent), close.value + 1)
    else if c == ':' || c == ',' || Blank(c) then Go(p.(position := p.position + 1))
    else
      var end := ParserEnd(t, p.position);
      if end == p.position || !PrimitiveValid(t[p.position..end]) then Halt(Broken)
      else Add(p, capacity, Token(Primitive, p.position, end, 0, p.parent), end)
  }

  /** json_parse from a state on. */
  function Parse(t: string, capacity: nat, p: Parser): Outcome
    requires p.position <= |t| && ParserOk(p)
    decreases |t| - p.position
  {
    if p.position == |t| then (if p.parent != -1 || p.tokens == [] then Broken else Tokens(p.tokens))
    else
      var m := Step(t, capacity, p);
      if m.Halt? then m.outcome else Parse(t, capacity, m.parser)
  }

  const START: Parser := Parser(0, [], -1)

  // ---- The tokens of a tree ----------------------------------------------------------------------------------------

  function Count(v: Tree): nat { 1 + CountAll(v.children) }

  function CountAll(vs: seq<Tree>): nat { if vs == [] then 0 else Count(vs[0]) + CountAll(vs[1..]) }

  /** The tokens of a value in preorder, the first at index `at`. */
  function Flat(v: Tree, at: nat, parent: int): seq<Token>
    decreases v, 0
  {
    [Token(v.kind, v.start, v.end, |v.children|, parent)] + FlatAll(v.children, at + 1, at)
  }

  function FlatAll(vs: seq<Tree>, at: nat, parent: int): seq<Token>
    decreases vs, 1
  {
    if vs == [] then [] else Flat(vs[0], at, parent) + FlatAll(vs[1..], at + Count(vs[0]), parent)
  }

  lemma {:induction false} FlatLength(v: Tree, at: nat, parent: int)
    ensures |Flat(v, at, parent)| == Count(v)
    decreases v, 0
  {
    FlatAllLength(v.children, at + 1, at);
  }

  lemma {:induction false} FlatAllLength(vs: seq<Tree>, at: nat, parent: int)
    ensures |FlatAll(vs, at, parent)| == CountAll(vs)
    decreases vs, 1
  {
    if vs != [] {
      FlatLength(vs[0], at, parent);
      FlatAllLength(vs[1..], at + Count(vs[0]), parent);
    }
  }

  lemma {:induction false} FlatParents(v: Tree, at: nat, parent: int, i: nat)
    requires -1 <= parent < at && i < |Flat(v, at, parent)|
    ensures -1 <= Flat(v, at, parent)[i].parent < at + i
    decreases v, 0
  {
    if i > 0 { FlatAllParents(v.children, at + 1, at, i - 1); }
  }

  lemma {:induction false} FlatAllParents(vs: seq<Tree>, at: nat, parent: int, i: nat)
    requires -1 <= parent < at && i < |FlatAll(vs, at, parent)|
    ensures -1 <= FlatAll(vs, at, parent)[i].parent < at + i
    decreases vs, 1
  {
    FlatLength(vs[0], at, parent);
    if i < Count(vs[0]) { FlatParents(vs[0], at, parent, i); }
    else { FlatAllParents(vs[1..], at + Count(vs[0]), parent, i - Count(vs[0])); }
  }

  /** The parser after a value, or after several children of the open container. */
  function Past(p: Parser, v: Tree): Parser {
    Parser(After(v), Grow(p.tokens, p.parent, 1) + Flat(v, |p.tokens|, p.parent), p.parent)
  }

  function PastAll(p: Parser, vs: seq<Tree>, position: nat): Parser {
    Parser(position, Grow(p.tokens, p.parent, |vs|) + FlatAll(vs, |p.tokens|, p.parent), p.parent)
  }

  lemma PastOk(p: Parser, v: Tree)
    requires ParserOk(p)
    ensures ParserOk(Past(p, v)) && |Past(p, v).tokens| == |p.tokens| + Count(v)
  {
    var f := Flat(v, |p.tokens|, p.parent);
    FlatLength(v, |p.tokens|, p.parent);
    forall i | 0 <= i < |f|
      ensures -1 <= f[i].parent < |p.tokens| + i
    {
      FlatParents(v, |p.tokens|, p.parent, i);
    }
  }

  lemma PastAllOk(p: Parser, vs: seq<Tree>, position: nat)
    requires ParserOk(p)
    ensures ParserOk(PastAll(p, vs, position)) && |PastAll(p, vs, position).tokens| == |p.tokens| + CountAll(vs)
  {
    var f := FlatAll(vs, |p.tokens|, p.parent);
    FlatAllLength(vs, |p.tokens|, p.parent);
    forall i | 0 <= i < |f|
      ensures -1 <= f[i].parent < |p.tokens| + i
    {
      FlatAllParents(vs, |p.tokens|, p.parent, i);
    }
  }

  /** Growing a token in the front part of a concatenation. */
  lemma GrowFront(a: seq<Token>, b: seq<Token>, at: int, n: nat)
    requires at < |a|
    ensures Grow(a + b, at, n) == Grow(a, at, n) + b
  {
  }

  lemma GrowTwice(a: seq<Token>, at: int, m: nat, n: nat)
    ensures Grow(Grow(a, at, m), at, n) == Grow(a, at, m + n)
  {
  }

  /** One child and then the others are all of them. */
  lemma PastCons(p: Parser, vs: seq<Tree>, here: nat, position: nat)
    requires ParserOk(p) && vs != []
    ensures PastAll(Past(p, vs[0]).(position := here), vs[1..], position) == PastAll(p, vs, position)
  {
    var n := |p.tokens|;
    PastOk(p, vs[0]);
    var f := Flat(vs[0], n, p.parent);
    GrowFront(Grow(p.tokens, p.parent, 1), f, p.parent, |vs| - 1);
    GrowTwice(p.tokens, p.parent, 1, |vs| - 1);
    Regroup(Grow(p.tokens, p.parent, |vs|), f, FlatAll(vs[1..], n + Count(vs[0]), p.parent));
  }

  lemma Regroup(a: seq<Token>, b: seq<Token>, c: seq<Token>)
    ensures (a + b) + c == a + (b + c)
  {
  }

  // ---- The scan follows the tree -----------------------------------------------------------------------------------

  /** Zero bytes stand only where a backslash is right before them. */
  predicate Calm(t: string) { forall i :: 0 <= i < |t| && t[i] == '\0' ==> i > 0 && t[i - 1] == '\\' }

  /** No backslash right before `i`. */
  predicate Level(t: string, i: nat) { 0 < i <= |t| ==> t[i - 1] != '\\' }

  /** Blanks between tokens leave the scan unchanged. */
  lemma {:induction false} SkipSpace(t: string, capacity: nat, p: Parser)
    requires Calm(t) && ParserOk(p) && p.position <= |t| && Level(t, p.position)
    ensures Parse(t, capacity, p) == Parse(t, capacity, p.(position := Space(t, p.position)))
    decreases |t| - p.position
  {
    if p.position < |t| && SyntaxBlank(t[p.position]) {
      assert Step(t, capacity, p) == Go(p.(position := p.position + 1));
      SkipSpace(t, capacity, p.(position := p.position + 1));
    }
  }

  lemma PrimitiveLevel(t: string, i: nat, end: nat)
    requires i < end <= |t| && PrimitiveValid(t[i..end])
    ensures Level(t, end)
  {
    PrimitivePlain(t[i..end]);
    assert t[end - 1] == t[i..end][end - 1 - i];
  }

  /** A value does not end in a backslash. */
  lemma AfterLevel(t: string, i: nat, depth: nat, v: Tree)
    requires Value(t, i, depth) == Some(v)
    ensures Level(t, After(v))
  {
    if v.children != [] { ValueSplit(t, i, depth, v); }
    else {
      LeafIs(t, i, depth, v);
      if t[i] != '{' && t[i] != '[' && t[i] != '"' { PrimitiveLevel(t, i, v.end); }
    }
  }

  /** So does a separator. */
  lemma SkipMark(t: string, capacity: nat, p: Parser)
    requires ParserOk(p) && p.position < |t| && (t[p.position] == ',' || t[p.position] == ':')
    ensures Parse(t, capacity, p) == Parse(t, capacity, p.(position := p.position + 1))
  {
    assert Step(t, capacity, p) == Go(p.(position := p.position + 1));
  }

  lemma StringParsed(t: string, capacity: nat, p: Parser, close: nat)
    requires ParserOk(p) && p.position < |t| && t[p.position] == '"' && Quote(t, p.position + 1) == Some(close)
    requires |p.tokens| < capacity
    ensures var v := Tree(String, p.position + 1, close, []);
            ParserOk(Past(p, v)) && Parse(t, capacity, p) == Parse(t, capacity, Past(p, v))
  {
    var v := Tree(String, p.position + 1, close, []);
    PastOk(p, v);
    assert Flat(v, |p.tokens|, p.parent) == [Token(String, v.start, v.end, 0, p.parent)];
    assert Step(t, capacity, p) == Go(Past(p, v));
  }

  lemma PrimitiveParsed(t: string, capacity: nat, p: Parser, end: nat)
    requires Calm(t) && ParserOk(p) && p.position < end <= |t| && end == PrimitiveEnd(t, p.position)
    requires PrimitiveValid(t[p.position..end])
    requires |p.tokens| < capacity
    ensures var v := Tree(Primitive, p.position, end, []);
            ParserOk(Past(p, v)) && Parse(t, capacity, p) == Parse(t, capacity, Past(p, v))
  {
    var v := Tree(Primitive, p.position, end, []);
    PastOk(p, v);
    PrimitivePlain(t[p.position..end]);
    forall k | p.position <= k < end
      ensures Plain(t[k])
    {
      assert t[k] == t[p.position..end][k - p.position];
    }
    SameEnd(t, p.position, end);
    assert Flat(v, |p.tokens|, p.parent) == [Token(Primitive, v.start, v.end, 0, p.parent)];
    assert Step(t, capacity, p) == Go(Past(p, v));
  }

  /** Without a colon inside, both scans of a primitive stop at the same place. */
  lemma SameEnd(t: string, i: nat, end: nat)
    requires i <= end <= |t| && end == PrimitiveEnd(t, i) && forall k :: i <= k < end ==> t[k] != ':'
    ensures ParserEnd(t, i) == end
  {
    var other := ParserEnd(t, i);
    assert other < end ==> !ParserStop(t[other]);
  }

  /** The parser inside a container it has just opened. */
  function Inside(p: Parser, kind: Kind, position: nat): Parser {
    Parser(position, Grow(p.tokens, p.parent, 1) + [Token(kind, p.position, -1, 0, p.parent)], |p.tokens|)
  }

  lemma OpenParsed(t: string, capacity: nat, p: Parser, kind: Kind, first: nat)
    requires Calm(t) && ParserOk(p) && p.position < |t| && |p.tokens| < capacity && first == Space(t, p.position + 1)
    requires (kind.Object? && t[p.position] == '{') || (kind.Array? && t[p.position] == '[')
    ensures ParserOk(Inside(p, kind, first)) && Parse(t, capacity, p) == Parse(t, capacity, Inside(p, kind, first))
  {
    var q := Inside(p, kind, p.position + 1);
    assert Step(t, capacity, p) == Go(q);
    SkipSpace(t, capacity, q);
  }

  /** The parser at the closing bracket, all children done. */
  function Closing(p: Parser, kind: Kind, vs: seq<Tree>, close: nat): Parser {
    var open := Grow(p.tokens, p.parent, 1) + [Token(kind, p.position, -1, |vs|, p.parent)];
    Parser(close, open + FlatAll(vs, |p.tokens| + 1, |p.tokens|), |p.tokens|)
  }

  lemma ClosingIs(p: Parser, kind: Kind, first: nat, vs: seq<Tree>, close: nat)
    ensures PastAll(Inside(p, kind, first), vs, close) == Closing(p, kind, vs, close)
  {
    var front := Grow(p.tokens, p.parent, 1);
    var open := Token(kind, p.position, -1, 0, p.parent);
    assert Grow(front + [open], |p.tokens|, |vs|) == front + [open.(size := |vs|)];
  }

  /** Closing a container completes its token. */
  lemma Closes(p: Parser, kind: Kind, vs: seq<Tree>, close: nat)
    ensures var q := Closing(p, kind, vs, close);
            && |q.tokens| > q.parent >= 0 && q.tokens[q.parent] == Token(kind, p.position, -1, |vs|, p.parent)
            && q.tokens[q.parent := q.tokens[q.parent].(end := close + 1)]
                == Past(p, Tree(kind, p.position, close + 1, vs)).tokens
  {
    var n := |p.tokens|;
    var front := Grow(p.tokens, p.parent, 1);
    var done := Token(kind, p.position, close + 1, |vs|, p.parent);
    var inner := FlatAll(vs, n + 1, n);
    var q := Closing(p, kind, vs, close);
    assert q.tokens[n := done] == front + [done] + inner;
    Regroup(front, [done], inner);
    assert Flat(Tree(kind, p.position, close + 1, vs), n, p.parent) == [done] + inner;
  }

  lemma CloseParsed(t: string, capacity: nat, p: Parser, kind: Kind, first: nat, vs: seq<Tree>, close: nat)
    requires ParserOk(p) && close < |t| && ((kind.Object? && t[close] == '}') || (kind.Array? && t[close] == ']'))
    ensures var v := Tree(kind, p.position, close + 1, vs);
            && ParserOk(PastAll(Inside(p, kind, first), vs, close)) && ParserOk(Past(p, v))
            && Parse(t, capacity, PastAll(Inside(p, kind, first), vs, close)) == Parse(t, capacity, Past(p, v))
  {
    assert ParserOk(Inside(p, kind, first));
    PastAllOk(Inside(p, kind, first), vs, close);
    PastOk(p, Tree(kind, p.position, close + 1, vs));
    ClosingIs(p, kind, first, vs, close);
    Closes(p, kind, vs, close);
    var q := PastAll(Inside(p, kind, first), vs, close);
    assert Step(t, capacity, q) == Go(Past(p, Tree(kind, p.position, close + 1, vs)));
  }

  lemma PastNone(p: Parser, position: nat)
    requires ParserOk(p)
    ensures PastAll(p, [], position) == p.(position := position)
  {
    assert Grow(p.tokens, p.parent, 0) == p.tokens;
  }

  /** A container around children that are parsed. */
  lemma Wrapped(t: string, capacity: nat, p: Parser, kind: Kind, first: nat, vs: seq<Tree>, close: nat)
    requires Calm(t) && ParserOk(p) && p.position < |t| && |p.tokens| < capacity
    requires first == Space(t, p.position + 1) && close < |t|
    requires (kind.Object? && t[p.position] == '{' && t[close] == '}')
        || (kind.Array? && t[p.position] == '[' && t[close] == ']')
    requires var q := Inside(p, kind, first);
             ParserOk(q) && ParserOk(PastAll(q, vs, close))
                 && Parse(t, capacity, q) == Parse(t, capacity, PastAll(q, vs, close))
    ensures var v := Tree(kind, p.position, close + 1, vs);
            ParserOk(Past(p, v)) && Parse(t, capacity, p) == Parse(t, capacity, Past(p, v))
  {
    OpenParsed(t, capacity, p, kind, first);
    CloseParsed(t, capacity, p, kind, first, vs, close);
  }

  lemma InsideOk(p: Parser, kind: Kind, first: nat)
    requires ParserOk(p)
    ensures ParserOk(Inside(p, kind, first)) && |Inside(p, kind, first).tokens| == |p.tokens| + 1
    ensures PastAll(Inside(p, kind, first), [], first) == Inside(p, kind, first)
  {
    PastNone(Inside(p, kind, first), first);
  }

  lemma EmptyParsed(t: string, capacity: nat, p: Parser, kind: Kind, first: nat)
    requires Calm(t) && ParserOk(p) && p.position < |t| && |p.tokens| < capacity
    requires first == Space(t, p.position + 1) && first < |t|
    requires (kind.Object? && t[p.position] == '{' && t[first] == '}')
        || (kind.Array? && t[p.position] == '[' && t[first] == ']')
    ensures var v := Tree(kind, p.position, first + 1, []);
            ParserOk(Past(p, v)) && Parse(t, capacity, p) == Parse(t, capacity, Past(p, v))
  {
    InsideOk(p, kind, first);
    Wrapped(t, capacity, p, kind, first, [], first);
  }

  lemma {:induction false} ArrayParsed(t: string, capacity: nat, p: Parser, depth: nat, first: nat, vs: seq<Tree>,
                                       close: nat)
    requires Calm(t) && ParserOk(p) && p.position < |t| && t[p.position] == '[' && first == Space(t, p.position + 1)
    requires Items(t, first, depth) == Some((vs, close)) && |p.tokens| + 1 + CountAll(vs) <= capacity
    ensures var v := Tree(Array, p.position, close + 1, vs);
            ParserOk(Past(p, v)) && Parse(t, capacity, p) == Parse(t, capacity, Past(p, v))
    decreases |t| - p.position, 0
  {
    InsideOk(p, Array, first);
    ItemsParsed(t, capacity, Inside(p, Array, first), depth, vs, close);
    Wrapped(t, capacity, p, Array, first, vs, close);
  }

  lemma {:induction false} ObjectParsed(t: string, capacity: nat, p: Parser, depth: nat, first: nat, vs: seq<Tree>,
                                        close: nat)
    requires Calm(t) && ParserOk(p) && p.position < |t| && t[p.position] == '{' && first == Space(t, p.position + 1)
    requires Members(t, first, depth) == Some((vs, close)) && |p.tokens| + 1 + CountAll(vs) <= capacity
    ensures var v := Tree(Object, p.position, close + 1, vs);
            ParserOk(Past(p, v)) && Parse(t, capacity, p) == Parse(t, capacity, Past(p, v))
    decreases |t| - p.position, 0
  {
    InsideOk(p, Object, first);
    MembersParsed(t, capacity, Inside(p, Object, first), depth, vs, close);
    Wrapped(t, capacity, p, Object, first, vs, close);
  }

  /** Where the validator accepts a value, the scan appends that value's tokens and goes on after it. */
  lemma {:induction false} ValueParsed(t: string, capacity: nat, p: Parser, depth: nat, v: Tree)
    requires Calm(t) && ParserOk(p) && p.position <= |t| && Value(t, p.position, depth) == Some(v)
    requires |p.tokens| + Count(v) <= capacity
    ensures ParserOk(Past(p, v)) && Parse(t, capacity, p) == Parse(t, capacity, Past(p, v))
    decreases |t| - p.position, 1
  {
    var i := p.position;
    if v.children != [] {
      ValueSplit(t, i, depth, v);
      if t[i] == '{' { ObjectParsed(t, capacity, p, depth + 1, Space(t, i + 1), v.children, v.end - 1); }
      else { ArrayParsed(t, capacity, p, depth + 1, Space(t, i + 1), v.children, v.end - 1); }
    } else {
      LeafParsed(t, capacity, p, depth, v);
    }
  }

  lemma LeafParsed(t: string, capacity: nat, p: Parser, depth: nat, v: Tree)
    requires Calm(t) && ParserOk(p) && p.position <= |t| && Value(t, p.position, depth) == Some(v)
    requires v.children == [] && |p.tokens| < capacity
    ensures ParserOk(Past(p, v)) && Parse(t, capacity, p) == Parse(t, capacity, Past(p, v))
  {
    var c := t[p.position];
    LeafIs(t, p.position, depth, v);
    if c == '{' || c == '[' { EmptyParsed(t, capacity, p, v.kind, v.end - 1); }
    else if c == '"' { StringParsed(t, capacity, p, v.end); }
    else { PrimitiveParsed(t, capacity, p, v.end); }
  }

  /** A value and the blanks after it. */
  lemma {:induction false} ValueThenSpace(t: string, capacity: nat, p: Parser, depth: nat, v: Tree, next: nat)
    requires Calm(t) && ParserOk(p) && p.position <= |t| && Value(t, p.position, depth) == Some(v)
    requires next == Space(t, After(v))
    requires |p.tokens| + Count(v) <= capacity
    ensures var q := Past(p, v).(position := next);
            ParserOk(q) && |q.tokens| == |p.tokens| + Count(v) && Parse(t, capacity, p) == Parse(t, capacity, q)
    decreases |t| - p.position, 2
  {
    ValueParsed(t, capacity, p, depth, v);
    PastOk(p, v);
    AfterLevel(t, p.position, depth, v);
    SkipSpace(t, capacity, Past(p, v));
  }

  /** A separator and the blanks after it. */
  lemma MarkThenSpace(t: string, capacity: nat, q: Parser)
    requires Calm(t) && ParserOk(q) && q.position < |t| && (t[q.position] == ',' || t[q.position] == ':')
    ensures Parse(t, capacity, q) == Parse(t, capacity, q.(position := Space(t, q.position + 1)))
  {
    SkipMark(t, capacity, q);
    SkipSpace(t, capacity, q.(position := q.position + 1));
  }

  lemma PastOne(p: Parser, v: Tree, position: nat)
    requires ParserOk(p)
    ensures PastAll(p, [v], position) == Past(p, v).(position := position)
  {
    PastOk(p, v);
    PastCons(p, [v], position, position);
    assert [v][1..] == [];
    PastNone(Past(p, v).(position := position), position);
  }

  /** After a child: a comma, and the children that follow. */
  lemma CommaAndMore(t: string, capacity: nat, p: Parser, vs: seq<Tree>, next: nat, close: nat)
    requires Calm(t) && ParserOk(p) && p.position <= |t| && vs != [] && next < |t| && t[next] == ',' && close <= |t|
    requires var q := Past(p, vs[0]).(position := next);
             ParserOk(q) && Parse(t, capacity, p) == Parse(t, capacity, q)
    requires var on := Past(p, vs[0]).(position := Space(t, next + 1));
             ParserOk(PastAll(on, vs[1..], close))
                 && Parse(t, capacity, on) == Parse(t, capacity, PastAll(on, vs[1..], close))
    ensures ParserOk(PastAll(p, vs, close)) && Parse(t, capacity, p) == Parse(t, capacity, PastAll(p, vs, close))
  {
    MarkThenSpace(t, capacity, Past(p, vs[0]).(position := next));
    PastCons(p, vs, Space(t, next + 1), close);
  }

  /** The last child. */
  lemma {:induction false} LastChild(t: string, capacity: nat, p: Parser, depth: nat, v: Tree, close: nat)
    requires Calm(t) && ParserOk(p) && p.position <= |t| && Value(t, p.position, depth) == Some(v)
    requires close == Space(t, After(v))
    requires |p.tokens| + Count(v) <= capacity
    ensures ParserOk(PastAll(p, [v], close)) && Parse(t, capacity, p) == Parse(t, capacity, PastAll(p, [v], close))
    decreases |t| - p.position, 3
  {
    ValueThenSpace(t, capacity, p, depth, v, close);
    PastOne(p, v, close);
  }

  lemma {:induction false} ItemsParsed(t: string, capacity: nat, p: Parser, depth: nat, vs: seq<Tree>, close: nat)
    requires Calm(t) && ParserOk(p) && p.position <= |t| && Items(t, p.position, depth) == Some((vs, close))
    requires |p.tokens| + CountAll(vs) <= capacity
    ensures ParserOk(PastAll(p, vs, close)) && Parse(t, capacity, p) == Parse(t, capacity, PastAll(p, vs, close))
    decreases |t| - p.position, 4
  {
    var v, next := ItemsSplit(t, p.position, depth, vs, close);
    if t[next] == ']' {
      LastChild(t, capacity, p, depth, v, next);
    } else {
      ValueThenSpace(t, capacity, p, depth, v, next);
      ItemsParsed(t, capacity, Past(p, v).(position := Space(t, next + 1)), depth, vs[1..], close);
      CommaAndMore(t, capacity, p, vs, next, close);
    }
  }

  /** A key and the blanks after it. */
  lemma KeyThenSpace(t: string, capacity: nat, p: Parser, key: Tree, colon: nat)
    requires Calm(t) && ParserOk(p) && p.position < |t| && t[p.position] == '"' && |p.tokens| < capacity
    requires key == Tree(String, p.position + 1, key.end, []) && Quote(t, p.position + 1) == Some(key.end)
    requires colon == Space(t, After(key))
    ensures var q := Past(p, key).(position := colon);
            ParserOk(q) && |q.tokens| == |p.tokens| + 1 && Parse(t, capacity, p) == Parse(t, capacity, q)
  {
    StringParsed(t, capacity, p, key.end);
    PastOk(p, key);
    SkipSpace(t, capacity, Past(p, key));
  }

  /** A key, its colon and the blanks around it. */
  lemma KeyParsed(t: string, capacity: nat, p: Parser, key: Tree, colon: nat)
    requires Calm(t) && ParserOk(p) && p.position < |t| && t[p.position] == '"' && |p.tokens| < capacity
    requires key == Tree(String, p.position + 1, key.end, []) && Quote(t, p.position + 1) == Some(key.end)
    requires colon == Space(t, After(key)) && colon < |t| && t[colon] == ':'
    ensures var q := Past(p, key).(position := Space(t, colon + 1));
            ParserOk(q) && |q.tokens| == |p.tokens| + 1 && Parse(t, capacity, p) == Parse(t, capacity, q)
  {
    KeyThenSpace(t, capacity, p, key, colon);
    MarkThenSpace(t, capacity, Past(p, key).(position := colon));
  }

  lemma {:induction false} MembersParsed(t: string, capacity: nat, p: Parser, depth: nat, vs: seq<Tree>, close: nat)
    requires Calm(t) && ParserOk(p) && p.position <= |t| && Members(t, p.position, depth) == Some((vs, close))
    requires |p.tokens| + CountAll(vs) <= capacity
    ensures ParserOk(PastAll(p, vs, close)) && Parse(t, capacity, p) == Parse(t, capacity, PastAll(p, vs, close))
    decreases |t| - p.position, 5
  {
    var key := Tree(String, p.position + 1, Quote(t, p.position + 1).value, []);
    var colon := Space(t, After(key));
    var at := Space(t, colon + 1);
    var rest := MemberValue(t, at, depth).value.0;
    assert vs[0] == key && vs[1..] == rest;
    KeyParsed(t, capacity, p, key, colon);
    MemberValueParsed(t, capacity, Past(p, key).(position := at), depth, rest, close);
    PastCons(p, vs, at, close);
  }

  lemma {:induction false} MemberValueParsed(t: string, capacity: nat, p: Parser, depth: nat, vs: seq<Tree>, close: nat)
    requires Calm(t) && ParserOk(p) && p.position <= |t| && MemberValue(t, p.position, depth) == Some((vs, close))
    requires |p.tokens| + CountAll(vs) <= capacity
    ensures ParserOk(PastAll(p, vs, close)) && Parse(t, capacity, p) == Parse(t, capacity, PastAll(p, vs, close))
    decreases |t| - p.position, 4
  {
    var v, next := MemberValueSplit(t, p.position, depth, vs, close);
    if t[next] == '}' {
      LastChild(t, capacity, p, depth, v, next);
    } else {
      ValueThenSpace(t, capacity, p, depth, v, next);
      MembersParsed(t, capacity, Past(p, v).(position := Space(t, next + 1)), depth, vs[1..], close);
      CommaAndMore(t, capacity, p, vs, next, close);
    }
  }

  lemma CalmTextParses(t: string, capacity: nat)
    requires Calm(t) && Document(t).Some? && Count(Document(t).value) <= capacity
    ensures Parse(t, capacity, START) == Tokens(Flat(Document(t).value, 0, -1))
  {
    var v := Document(t).value;
    var p := START.(position := Space(t, 0));
    SkipSpace(t, capacity, START);
    ValueParsed(t, capacity, p, 0, v);
    PastOk(p, v);
    AfterLevel(t, p.position, 0, v);
    SkipSpace(t, capacity, Past(p, v));
    assert Grow([], -1, 1) == [];
    assert Past(p, v).tokens == Flat(v, 0, -1);
  }

  /** Calm from `i` up to `j`. */
  predicate CalmBetween(t: string, i: nat, j: nat) {
    i <= j <= |t| && forall k :: i <= k < j && t[k] == '\0' ==> k > i && t[k - 1] == '\\'
  }

  lemma {:induction false} QuoteCalm(t: string, i: nat)
    requires i <= |t| && Quote(t, i).Some?
    ensures CalmBetween(t, i, Quote(t, i).value)
    decreases |t| - i
  {
    if t[i] == '"' {}
    else if t[i] != '\\' { QuoteCalm(t, i + 1); }
    else if t[i + 1] != 'u' { QuoteCalm(t, i + 2); }
    else { QuoteCalm(t, i + 6); }
  }

  /** What one turn of the tokenizer goes over. */
  lemma StepCalm(t: string, capacity: nat, p: Parser)
    requires p.position < |t| && ParserOk(p) && Step(t, capacity, p).Go?
    ensures CalmBetween(t, p.position, Step(t, capacity, p).parser.position)
  {
    if t[p.position] == '"' { QuoteCalm(t, p.position + 1); }
  }

  /** Whatever the tokenizer accepts is calm. */
  lemma {:induction false} ParsedCalm(t: string, capacity: nat, p: Parser)
    requires p.position <= |t| && ParserOk(p) && Parse(t, capacity, p).Tokens?
    ensures CalmBetween(t, p.position, |t|)
    decreases |t| - p.position
  {
    if p.position < |t| {
      StepCalm(t, capacity, p);
      ParsedCalm(t, capacity, Step(t, capacity, p).parser);
    }
  }

  /** A text the validator accepts is tokenized, given room, into exactly the tokens of the value it
      accepted, in preorder, if and only if each of its zero bytes has a backslash right before it. */
  lemma ValidatedTextParses(t: string, capacity: nat)
    requires Document(t).Some? && Count(Document(t).value) <= capacity
    ensures Parse(t, capacity, START) == Tokens(Flat(Document(t).value, 0, -1))
       <==> forall i :: 0 <= i < |t| && t[i] == '\0' ==> i > 0 && t[i - 1] == '\\'
  {
    if Parse(t, capacity, START).Tokens? {
      ParsedCalm(t, capacity, START);
      assert Calm(t);
    }
    if Calm(t) { CalmTextParses(t, capacity); }
  }

  /** The exception occurs: a trailing zero byte passes as blank for the validator only. */
  lemma ZeroByteBreaks()
    ensures Document("[]\0").Some? && Parse("[]\0", 1, START) == Broken
  {
    var t := "[]\0";
    assert Space(t, 0) == 0 && Space(t, 1) == 1 && Space(t, 2) == 3;
    assert Value(t, 0, 0) == Some(Tree(Array, 0, 2, []));
    var p := Parser(1, [Token(Array, 0, -1, 0, -1)], 0);
    assert Step(t, 1, START) == Go(p);
    var q := Parser(2, [Token(Array, 0, 2, 0, -1)], -1);
    assert Step(t, 1, p) == Go(q);
    assert Step(t, 1, q) == Halt(Broken);
  }

  // ---- Extents and skipping ----------------------------------------------------------------------------------------

  /** Children lie inside their parent, one after the other. */
  predicate Nested(v: Tree)
    decreases v, 0
  {
    v.start <= v.end && v.start < After(v) && Chain(v.children, v.start + 1, v.end)
  }

  predicate Chain(vs: seq<Tree>, lo: int, hi: int)
    decreases vs, 1
  {
    vs == [] || (lo <= Begin(vs[0]) && After(vs[0]) <= hi && Nested(vs[0]) && Chain(vs[1..], After(vs[0]), hi))
  }

  /** What the validator accepts is nested. */
  lemma {:induction false} ValueNested(t: string, i: nat, depth: nat, v: Tree)
    requires Value(t, i, depth) == Some(v)
    ensures Nested(v)
    decreases |t| - i, 0
  {
    LeafNested(t, i, depth, v);
    if v.children != [] {
      ValueSplit(t, i, depth, v);
      if t[i] == '{' { MembersChain(t, Space(t, i + 1), depth + 1, v.children, v.end - 1, i + 1); }
      else { ItemsChain(t, Space(t, i + 1), depth + 1, v.children, v.end - 1, i + 1); }
    }
  }

  lemma LeafNested(t: string, i: nat, depth: nat, v: Tree)
    requires Value(t, i, depth) == Some(v)
    ensures v.start <= v.end && v.start < After(v) && (v.children == [] ==> Nested(v))
  {
  }

  lemma ChainCons(vs: seq<Tree>, lo: int, mid: int, hi: int)
    requires vs != [] && Nested(vs[0]) && lo <= Begin(vs[0]) && After(vs[0]) <= mid && After(vs[0]) <= hi
    requires Chain(vs[1..], mid, hi)
    ensures Chain(vs, lo, hi)
  {
    ChainLower(vs[1..], After(vs[0]), mid, hi);
  }

  lemma {:induction false} ChainLower(vs: seq<Tree>, lo: int, mid: int, hi: int)
    requires Chain(vs, mid, hi) && lo <= mid
    ensures Chain(vs, lo, hi)
  {
  }

  lemma {:induction false} ItemsChain(t: string, i: nat, depth: nat, vs: seq<Tree>, close: nat, lo: int)
    requires i <= |t| && Items(t, i, depth) == Some((vs, close)) && lo <= i
    ensures Chain(vs, lo, close + 1)
    decreases |t| - i, 1
  {
    var v, next := ItemsSplit(t, i, depth, vs, close);
    ValueNested(t, i, depth, v);
    assert Chain(vs[1..], next, close + 1) by {
      if t[next] != ']' { ItemsChain(t, Space(t, next + 1), depth, vs[1..], close, next); }
    }
    ChainCons(vs, lo, next, close + 1);
  }

  lemma {:induction false} MembersChain(t: string, i: nat, depth: nat, vs: seq<Tree>, close: nat, lo: int)
    requires i <= |t| && Members(t, i, depth) == Some((vs, close)) && lo <= i
    ensures Chain(vs, lo, close + 1)
    decreases |t| - i, 2
  {
    var key := Tree(String, i + 1, Quote(t, i + 1).value, []);
    var at := Space(t, Space(t, After(key)) + 1);
    var rest := MemberValue(t, at, depth).value.0;
    MemberValueChain(t, at, depth, rest, close, at);
    KeyChain(key, rest, lo, at, close + 1);
  }

  lemma KeyChain(key: Tree, rest: seq<Tree>, lo: int, mid: int, hi: int)
    requires key.kind.String? && key.children == [] && key.start <= key.end && lo <= Begin(key)
    requires After(key) <= mid <= hi && Chain(rest, mid, hi)
    ensures Chain([key] + rest, lo, hi)
  {
    assert ([key] + rest)[1..] == rest;
    ChainCons([key] + rest, lo, mid, hi);
  }

  lemma {:induction false} MemberValueChain(t: string, i: nat, depth: nat, vs: seq<Tree>, close: nat, lo: int)
    requires i <= |t| && MemberValue(t, i, depth) == Some((vs, close)) && lo <= i
    ensures Chain(vs, lo, close + 1)
    decreases |t| - i, 1
  {
    var v, next := MemberValueSplit(t, i, depth, vs, close);
    ValueNested(t, i, depth, v);
    assert Chain(vs[1..], next, close + 1) by {
      if t[next] != '}' { MembersChain(t, Space(t, next + 1), depth, vs[1..], close, next); }
    }
    ChainCons(vs, lo, next, close + 1);
  }

  /** json_next: the loop over tokens that start before the end. */
  function NextFrom(ts: seq<Token>, j: nat, end: int): (k: nat)
    requires j <= |ts|
    ensures j <= k <= |ts| && (forall i :: j <= i < k ==> ts[i].start < end) && (k < |ts| ==> ts[k].start >= end)
    decreases |ts| - j
  {
    if j < |ts| && ts[j].start < end then NextFrom(ts, j + 1, end) else j
  }

  function JsonNext(ts: seq<Token>, k: nat): nat
    requires k < |ts|
  {
    NextFrom(ts, k + 1, ts[k].end)
  }

  /** The node with preorder index `k`. */
  function Subtree(v: Tree, k: nat): Tree
    decreases v, 0
  {
    if k == 0 then v else SubtreeAll(v, v.children, k - 1)
  }

  function SubtreeAll(otherwise: Tree, vs: seq<Tree>, k: nat): Tree
    decreases vs, 1
  {
    if vs == [] then otherwise
    else if k < Count(vs[0]) then Subtree(vs[0], k) else SubtreeAll(otherwise, vs[1..], k - Count(vs[0]))
  }

  /** Every token of a value starts within it, and all but the first before its end. */
  lemma {:induction false} FlatStarts(v: Tree, at: nat, parent: int, i: nat)
    requires Nested(v) && i < |Flat(v, at, parent)|
    ensures v.start <= Flat(v, at, parent)[i].start < After(v) && (i > 0 ==> Flat(v, at, parent)[i].start < v.end)
    decreases v, 0
  {
    if i > 0 { FlatAllStarts(v.children, at + 1, at, i - 1, v.start + 1, v.end); }
  }

  lemma {:induction false} FlatAllStarts(vs: seq<Tree>, at: nat, parent: int, i: nat, lo: int, hi: int)
    requires Chain(vs, lo, hi) && i < |FlatAll(vs, at, parent)|
    ensures lo <= FlatAll(vs, at, parent)[i].start < hi
    decreases vs, 1
  {
    FlatLength(vs[0], at, parent);
    if i < Count(vs[0]) { FlatStarts(vs[0], at, parent, i); }
    else { FlatAllStarts(vs[1..], at + Count(vs[0]), parent, i - Count(vs[0]), After(vs[0]), hi); }
  }

  /** `part` stands in `ts` from `at` on, and what follows it starts no earlier than `end`. */
  ghost predicate Stands(ts: seq<Token>, at: nat, part: seq<Token>, end: int) {
    && at + |part| <= |ts| && ts[at..at + |part|] == part
    && (at + |part| < |ts| ==> ts[at + |part|].start >= end)
  }

  lemma StandsSplit(ts: seq<Token>, at: nat, f: seq<Token>, g: seq<Token>, end: int)
    requires Stands(ts, at, f + g, end)
    ensures at + |f| <= |ts| && ts[at..at + |f|] == f && Stands(ts, at + |f|, g, end)
  {
    assert ts[at..at + |f|] == (f + g)[..|f|];
    assert ts[at + |f|..at + |f| + |g|] == (f + g)[|f|..];
  }

  /** A child is followed by the next child, or by what follows its parent. */
  lemma FirstStands(ts: seq<Token>, at: nat, v: Tree, rest: seq<Tree>, parent: int, hi: int)
    requires var f := Flat(v, at, parent);
             at + |f| <= |ts| && ts[at..at + |f|] == f && |f| == Count(v)
                 && Stands(ts, at + |f|, FlatAll(rest, at + Count(v), parent), hi)
    requires Chain(rest, After(v), hi) && After(v) <= hi
    ensures Stands(ts, at, Flat(v, at, parent), v.end)
  {
    var n := Count(v);
    var g := FlatAll(rest, at + n, parent);
    if rest != [] {
      FlatAllLength(rest, at + n, parent);
      FlatAllStarts(rest, at + n, parent, 0, After(v), hi);
      assert ts[at + n] == ts[at + n..at + n + |g|][0];
    }
  }

  lemma RootSkips(ts: seq<Token>, at: nat, v: Tree, parent: int)
    requires Nested(v) && Stands(ts, at, Flat(v, at, parent), v.end)
    ensures at < |ts| && JsonNext(ts, at) == at + Count(v)
  {
    var f := Flat(v, at, parent);
    FlatLength(v, at, parent);
    assert ts[at] == f[0];
    forall i | at < i < at + |f|
      ensures ts[i].start < v.end
    {
      FlatStarts(v, at, parent, i - at);
      assert ts[i] == f[i - at];
    }
  }

  lemma {:induction false} SkipIn(ts: seq<Token>, at: nat, v: Tree, parent: int, k: nat)
    requires Nested(v) && Stands(ts, at, Flat(v, at, parent), v.end) && k < Count(v)
    ensures at + k < |ts| && JsonNext(ts, at + k) == at + k + Count(Subtree(v, k))
    decreases v, 0
  {
    FlatLength(v, at, parent);
    if k == 0 { RootSkips(ts, at, v, parent); }
    else {
      StandsSplit(ts, at, [Token(v.kind, v.start, v.end, |v.children|, parent)], FlatAll(v.children, at + 1, at),
          v.end);
      SkipInAll(ts, at + 1, v, v.children, at, k - 1, v.start + 1, v.end);
    }
  }

  lemma {:induction false} SkipInAll(ts: seq<Token>, at: nat, u: Tree, vs: seq<Tree>, parent: int, k: nat, lo: int,
                                     hi: int)
    requires Chain(vs, lo, hi) && Stands(ts, at, FlatAll(vs, at, parent), hi) && k < CountAll(vs)
    ensures at + k < |ts| && JsonNext(ts, at + k) == at + k + Count(SubtreeAll(u, vs, k))
    decreases vs, 1
  {
    var v, rest := vs[0], vs[1..];
    var n := Count(v);
    var f, g := Flat(v, at, parent), FlatAll(rest, at + n, parent);
    FlatLength(v, at, parent);
    FlatAllLength(rest, at + n, parent);
    StandsSplit(ts, at, f, g, hi);
    if k < n {
      FirstStands(ts, at, v, rest, parent, hi);
      SkipIn(ts, at, v, parent, k);
    } else {
      SkipInAll(ts, at + n, u, rest, parent, k - n, After(v), hi);
    }
  }

  /** In the tokens of an accepted document, json_next skips exactly the subtree of every token. */
  lemma NextSkipsSubtree(t: string, k: nat)
    requires Document(t).Some? && k < Count(Document(t).value)
    ensures var v := Document(t).value;
            k < |Flat(v, 0, -1)| && JsonNext(Flat(v, 0, -1), k) == k + Count(Subtree(v, k))
  {
    var v := Document(t).value;
    ValueNested(t, Space(t, 0), 0, v);
    FlatLength(v, 0, -1);
    assert Flat(v, 0, -1)[0..0 + Count(v)] == Flat(v, 0, -1);
    SkipIn(Flat(v, 0, -1), 0, v, -1, k);
  }
}
