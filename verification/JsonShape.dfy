/** What the validator of emu_json_internal.c accepts, said over the extents of a value rather than by
    recursive descent: a value whose parts stand where the validator's scans expect them. */
module JsonShape {
  import opened Json

  /** What is skipped as blank, from `a` to `b`. */
  predicate Skipped(t: string, a: nat, b: int) { a <= b <= |t| && forall k :: a <= k < b ==> SyntaxBlank(t[k]) }

  predicate ReadsString(t: string, v: Tree) {
    v == Tree(String, v.start, v.end, []) && 0 < v.start <= v.end < |t| && t[v.start - 1] == '"'
        && Quote(t, v.start) == Some(v.end)
  }

  predicate ReadsPrimitive(t: string, v: Tree) {
    && v == Tree(Primitive, v.start, v.end, []) && v.start < v.end <= |t|
    && PrimitiveValid(t[v.start..v.end]) && (v.end < |t| ==> Stop(t[v.end]))
  }

  /** The brackets of an array or object, with something or nothing between them. */
  predicate Bracketed(t: string, v: Tree) {
    && v.start + 1 < v.end <= |t|
    && ((v.kind.Array? && t[v.start] == '[' && t[v.end - 1] == ']')
        || (v.kind.Object? && t[v.start] == '{' && t[v.end - 1] == '}'))
  }

  predicate ReadsLeaf(t: string, v: Tree) {
    v.children == [] && (ReadsString(t, v) || ReadsPrimitive(t, v)
        || (Bracketed(t, v) && Skipped(t, v.start + 1, v.end - 1)))
  }

  /** What stands next in a container: an element, a member's key or a member's value. */
  datatype Role = Element | Key | Held

  function First(kind: Kind): Role { if kind.Object? then Key else Element }

  function Following(role: Role): Role { if role.Element? then Element else if role.Key? then Held else Key }

  function Separator(role: Role): char { if role.Key? then ':' else ',' }

  /** value = object / array / string / number / literal, nested less than 64 deep. */
  predicate ReadsValue(t: string, v: Tree, depth: nat)
    decreases v, 0
  {
    depth < DEPTH && if v.children == [] then ReadsLeaf(t, v)
                     else Bracketed(t, v) && ReadsRow(t, First(v.kind), v.children, v.start + 1, v.end - 1, depth + 1)
  }

  /** value *( "," value ), or string ":" value *( "," string ":" value ), with blanks between, filling the
      text from `a` to `b`. */
  predicate ReadsRow(t: string, role: Role, vs: seq<Tree>, a: nat, b: int, depth: nat)
    decreases vs, 1
  {
    && vs != [] && Skipped(t, a, Begin(vs[0])) && After(vs[0]) <= |t|
    && (if role.Key? then ReadsString(t, vs[0]) else ReadsValue(t, vs[0], depth))
    && if |vs| == 1 then !role.Key? && Skipped(t, After(vs[0]), b)
       else
         var m := Space(t, After(vs[0]));
         Skipped(t, After(vs[0]), m) && m < |t| && t[m] == Separator(role)
             && ReadsRow(t, Following(role), vs[1..], m + 1, b, depth)
  }

  /** The validator's loop that reads such a row. */
  function RowAt(t: string, role: Role, i: nat, depth: nat): Option<(seq<Tree>, nat)>
    requires i <= |t|
  {
    match role
    case Element => Items(t, i, depth)
    case Key => Members(t, i, depth)
    case Held => MemberValue(t, i, depth)
  }

  function Closer(role: Role): char { if role.Element? then ']' else '}' }

  // ---- Blanks -------------------------------------------------------------------------------------------

  lemma {:induction false} SpaceGap(t: string, i: nat)
    requires i <= |t|
    ensures Skipped(t, i, Space(t, i)) && (Space(t, i) < |t| ==> !SyntaxBlank(t[Space(t, i)]))
    decreases |t| - i
  {
    if i < |t| && SyntaxBlank(t[i]) { SpaceGap(t, i + 1); }
  }

  /** The first thing that is no blank is where skipping stops. */
  lemma SpaceIs(t: string, i: nat, j: nat)
    requires Skipped(t, i, j) && (j < |t| ==> !SyntaxBlank(t[j]))
    ensures Space(t, i) == j
  {
    SpaceGap(t, i);
  }

  // ---- One step of the validator's loops, both ways ---------------------------------------------------------

  type Row = Option<(seq<Tree>, nat)>

  /** The head of a row: a key, or a value. */
  function Head(t: string, role: Role, i: nat, depth: nat): (v: Option<Tree>)
    ensures v.Some? ==> Begin(v.value) == i < After(v.value) <= |t|
  {
    if !role.Key? then Value(t, i, depth)
    else if i >= |t| || t[i] != '"' || Quote(t, i + 1).None? then None
    else Some(Tree(String, i + 1, Quote(t, i + 1).value, []))
  }

  /** One turn of a loop: what it makes of a head, the text after it and the rest of the row. */
  function Turn(t: string, role: Role, v: Tree, next: nat, rest: Row): Row {
    if next >= |t| then None
    else if !role.Key? && t[next] == Closer(role) then Some(([v], next))
    else if t[next] != Separator(role) || rest.None? then None
    else Some(([v] + rest.value.0, rest.value.1))
  }

  lemma ItemsUnfolds(t: string, i: nat, depth: nat, v: Option<Tree>, next: nat, rest: Row, r: Row)
    requires i <= |t| && r == Items(t, i, depth) && v == Value(t, i, depth)
    requires v.Some? ==> next == Space(t, After(v.value))
    requires v.Some? && next < |t| ==> rest == Items(t, Space(t, next + 1), depth)
    ensures r == if v.None? then None else Turn(t, Element, v.value, next, rest)
  {
  }

  lemma HeldUnfolds(t: string, i: nat, depth: nat, v: Option<Tree>, next: nat, rest: Row, r: Row)
    requires i <= |t| && r == MemberValue(t, i, depth) && v == Value(t, i, depth)
    requires v.Some? ==> next == Space(t, After(v.value))
    requires v.Some? && next < |t| ==> rest == Members(t, Space(t, next + 1), depth)
    ensures r == if v.None? then None else Turn(t, Held, v.value, next, rest)
  {
  }

  lemma MembersUnfolds(t: string, i: nat, depth: nat, v: Option<Tree>, next: nat, rest: Row, r: Row)
    requires i <= |t| && r == Members(t, i, depth) && v == Head(t, Key, i, depth)
    requires v.Some? ==> next == Space(t, After(v.value))
    requires v.Some? && next < |t| ==> rest == MemberValue(t, Space(t, next + 1), depth)
    ensures r == if v.None? then None else Turn(t, Key, v.value, next, rest)
  {
  }

  lemma RowUnfolds(t: string, role: Role, i: nat, depth: nat, v: Option<Tree>, next: nat, rest: Row, r: Row)
    requires i <= |t| && r == RowAt(t, role, i, depth) && v == Head(t, role, i, depth)
    requires v.Some? ==> next == Space(t, After(v.value))
    requires v.Some? && next < |t| ==> rest == RowAt(t, Following(role), Space(t, next + 1), depth)
    ensures r == if v.None? then None else Turn(t, role, v.value, next, rest)
  {
    if role.Element? { ItemsUnfolds(t, i, depth, v, next, rest, r); }
    else if role.Key? { MembersUnfolds(t, i, depth, v, next, rest, r); }
    else { HeldUnfolds(t, i, depth, v, next, rest, r); }
  }

  /** A row is never empty. */
  lemma RowFull(t: string, role: Role, i: nat, depth: nat, r: Row)
    requires i <= |t| && r == RowAt(t, role, i, depth)
    ensures r.Some? ==> r.value.0 != []
  {
  }

  predicate TailAt(t: string, role: Role, vs: seq<Tree>, next: nat, close: nat, rest: Row)
    requires vs != []
  {
    && next < |t|
    && if |vs| == 1 then !role.Key? && t[next] == Closer(role) && close == next
       else t[next] == Separator(role) && rest == Some((vs[1..], close))
  }

  lemma TurnSplits(t: string, role: Role, v: Tree, next: nat, rest: Row, vs: seq<Tree>, close: nat)
    requires Turn(t, role, v, next, rest) == Some((vs, close)) && (rest.Some? ==> rest.value.0 != [])
    ensures vs != [] && vs[0] == v && TailAt(t, role, vs, next, close, rest)
  {
    if role.Key? || t[next] != Closer(role) { assert vs[1..] == rest.value.0; }
  }

  lemma TurnFolds(t: string, role: Role, vs: seq<Tree>, next: nat, close: nat, rest: Row)
    requires vs != [] && TailAt(t, role, vs, next, close, rest)
    ensures Turn(t, role, vs[0], next, rest) == Some((vs, close))
  {
    if |vs| == 1 { assert [vs[0]] == vs; } else { assert [vs[0]] + vs[1..] == vs; }
  }

  lemma RowSplits(t: string, role: Role, i: nat, depth: nat, vs: seq<Tree>, close: nat) returns (next: nat, rest: Row)
    requires i <= |t| && RowAt(t, role, i, depth) == Some((vs, close))
    ensures vs != [] && Head(t, role, i, depth) == Some(vs[0]) && After(vs[0]) <= |t| && next == Space(t, After(vs[0]))
    ensures TailAt(t, role, vs, next, close, rest)
    ensures next < |t| ==> rest == RowAt(t, Following(role), Space(t, next + 1), depth)
  {
    var v, r := Head(t, role, i, depth), RowAt(t, role, i, depth);
    next := if v.Some? then Space(t, After(v.value)) else 0;
    rest := if v.Some? && next < |t| then RowAt(t, Following(role), Space(t, next + 1), depth) else None;
    RowUnfolds(t, role, i, depth, v, next, rest, r);
    if v.Some? && next < |t| { RowFull(t, Following(role), Space(t, next + 1), depth, rest); }
    TurnSplits(t, role, v.value, next, rest, vs, close);
  }

  lemma RowFolds(t: string, role: Role, i: nat, depth: nat, vs: seq<Tree>, close: nat, next: nat, rest: Row)
    requires i <= |t| && vs != [] && Head(t, role, i, depth) == Some(vs[0]) && next == Space(t, After(vs[0]))
    requires TailAt(t, role, vs, next, close, rest) && rest == RowAt(t, Following(role), Space(t, next + 1), depth)
    ensures RowAt(t, role, i, depth) == Some((vs, close))
  {
    RowUnfolds(t, role, i, depth, Some(vs[0]), next, rest, RowAt(t, role, i, depth));
    TurnFolds(t, role, vs, next, close, rest);
  }

  // ---- What the validator accepts is of the grammar ---------------------------------------------------------

  lemma {:induction false} ValueSound(t: string, i: nat, depth: nat, v: Tree)
    requires Value(t, i, depth) == Some(v)
    ensures ReadsValue(t, v, depth)
    decreases |t| - i, 0
  {
    if v.children != [] {
      ContainerIs(t, i, depth, v);
      SpaceGap(t, i + 1);
      RowSound(t, First(v.kind), Space(t, i + 1), depth + 1, v.children, v.end - 1, i + 1);
    } else {
      LeafSound(t, i, depth, v);
    }
  }

  lemma ContainerIs(t: string, i: nat, depth: nat, v: Tree)
    requires Value(t, i, depth) == Some(v) && v.children != []
    ensures depth < DEPTH && v.start == i && Bracketed(t, v) && i < Space(t, i + 1)
    ensures RowAt(t, First(v.kind), Space(t, i + 1), depth + 1) == Some((v.children, v.end - 1))
  {
    ValueSplit(t, i, depth, v);
  }

  lemma LeafSound(t: string, i: nat, depth: nat, v: Tree)
    requires Value(t, i, depth) == Some(v) && v.children == []
    ensures depth < DEPTH && ReadsLeaf(t, v)
  {
    LeafIs(t, i, depth, v);
    if t[i] == '{' || t[i] == '[' { SpaceGap(t, i + 1); }
  }

  /** The first entry of a row, after the blanks from `a` on. */
  predicate ReadEntry(t: string, role: Role, v: Tree, a: nat, depth: nat) {
    && Skipped(t, a, Begin(v)) && After(v) <= |t|
    && (if role.Key? then ReadsString(t, v) else ReadsValue(t, v, depth))
  }

  lemma RowEnds(t: string, role: Role, vs: seq<Tree>, a: nat, b: nat, depth: nat)
    requires |vs| == 1 && ReadEntry(t, role, vs[0], a, depth) && !role.Key? && b == Space(t, After(vs[0]))
    ensures ReadsRow(t, role, vs, a, b, depth)
  {
    SpaceGap(t, After(vs[0]));
  }

  lemma RowGoesOn(t: string, role: Role, vs: seq<Tree>, a: nat, m: nat, b: nat, depth: nat)
    requires |vs| > 1 && ReadEntry(t, role, vs[0], a, depth) && m == Space(t, After(vs[0])) && m < |t|
    requires t[m] == Separator(role) && ReadsRow(t, Following(role), vs[1..], m + 1, b, depth)
    ensures ReadsRow(t, role, vs, a, b, depth)
  {
    SpaceGap(t, After(vs[0]));
  }

  lemma {:induction false} HeadSound(t: string, role: Role, i: nat, depth: nat, v: Tree, a: nat)
    requires Head(t, role, i, depth) == Some(v) && Skipped(t, a, i)
    ensures ReadEntry(t, role, v, a, depth)
    decreases |t| - i, 1
  {
    if !role.Key? { ValueSound(t, i, depth, v); }
  }

  lemma {:induction false} RowSound(t: string, role: Role, i: nat, depth: nat, vs: seq<Tree>, close: nat, a: nat)
    requires i <= |t| && RowAt(t, role, i, depth) == Some((vs, close)) && Skipped(t, a, i)
    ensures ReadsRow(t, role, vs, a, close, depth)
    decreases |t| - i, 2
  {
    var next, rest := RowSplits(t, role, i, depth, vs, close);
    HeadSound(t, role, i, depth, vs[0], a);
    if |vs| == 1 { RowEnds(t, role, vs, a, close, depth); }
    else {
      SpaceGap(t, next + 1);
      RowSound(t, Following(role), Space(t, next + 1), depth, vs[1..], close, next + 1);
      RowGoesOn(t, role, vs, a, next, close, depth);
    }
  }

  // ---- The grammar is accepted -------------------------------------------------------------------------------

  /** A value begins with no blank, no closing bracket and no separator. */
  lemma FirstChar(t: string, v: Tree, depth: nat)
    requires ReadsValue(t, v, depth)
    ensures 0 <= Begin(v) < |t| && !SyntaxBlank(t[Begin(v)]) && t[Begin(v)] != ']' && t[Begin(v)] != '}'
  {
    if v.kind.Primitive? {
      PrimitivePlain(t[v.start..v.end]);
      assert t[v.start] == t[v.start..v.end][0];
    }
  }

  lemma {:induction false} PrimitiveEnds(t: string, i: nat, end: nat)
    requires i <= end <= |t| && (forall k :: i <= k < end ==> !Stop(t[k])) && (end < |t| ==> Stop(t[end]))
    ensures PrimitiveEnd(t, i) == end
    decreases end - i
  {
    if i < end { PrimitiveEnds(t, i + 1, end); }
  }

  lemma PrimitiveComplete(t: string, v: Tree, depth: nat)
    requires ReadsPrimitive(t, v) && depth < DEPTH
    ensures Value(t, v.start, depth) == Some(v)
  {
    var s := t[v.start..v.end];
    PrimitivePlain(s);
    forall k | v.start <= k < v.end
      ensures Plain(t[k])
    {
      assert t[k] == s[k - v.start];
    }
    PrimitiveEnds(t, v.start, v.end);
  }

  lemma LeafComplete(t: string, v: Tree, depth: nat)
    requires ReadsLeaf(t, v) && depth < DEPTH
    ensures Begin(v) >= 0 && Value(t, Begin(v), depth) == Some(v)
  {
    if ReadsPrimitive(t, v) { PrimitiveComplete(t, v, depth); }
    else if !ReadsString(t, v) { SpaceIs(t, v.start + 1, v.end - 1); }
  }

  /** A container around a row that the validator reads. */
  lemma ContainerFolds(t: string, v: Tree, depth: nat)
    requires Bracketed(t, v) && v.children != [] && depth < DEPTH
    requires var first := Space(t, v.start + 1);
             && first < |t| && t[first] != ']' && t[first] != '}'
             && RowAt(t, First(v.kind), first, depth + 1) == Some((v.children, v.end - 1))
    ensures Value(t, v.start, depth) == Some(v)
  {
  }

  lemma {:induction false} ValueComplete(t: string, v: Tree, depth: nat)
    requires ReadsValue(t, v, depth)
    ensures Begin(v) >= 0 && Value(t, Begin(v), depth) == Some(v)
    decreases v, 0
  {
    if v.children == [] { LeafComplete(t, v, depth); }
    else {
      RowComplete(t, First(v.kind), v.children, v.start + 1, v.end - 1, depth + 1);
      ContainerFolds(t, v, depth);
    }
  }

  /** A row starts with its first value. */
  lemma EntryStarts(t: string, role: Role, v: Tree, a: nat, depth: nat)
    requires ReadEntry(t, role, v, a, depth)
    ensures a <= |t| && Space(t, a) == Begin(v) && Space(t, a) < |t|
    ensures t[Space(t, a)] != ']' && t[Space(t, a)] != '}'
  {
    if !role.Key? { FirstChar(t, v, depth); }
    SpaceIs(t, a, Begin(v));
  }

  lemma TailCloses(t: string, role: Role, vs: seq<Tree>, b: nat, rest: Row)
    requires |vs| == 1 && !role.Key? && Skipped(t, After(vs[0]), b) && b < |t| && t[b] == Closer(role)
    ensures Space(t, After(vs[0])) == b && TailAt(t, role, vs, b, b, rest)
  {
    SpaceIs(t, After(vs[0]), b);
  }

  /** What the validator does with a row. */
  predicate TakesRow(t: string, role: Role, vs: seq<Tree>, a: nat, b: nat, depth: nat) {
    && a <= |t| && RowAt(t, role, Space(t, a), depth) == Some((vs, b))
    && Space(t, a) < |t| && t[Space(t, a)] != ']' && t[Space(t, a)] != '}'
  }

  lemma {:induction false} HeadComplete(t: string, role: Role, v: Tree, a: nat, depth: nat)
    requires ReadEntry(t, role, v, a, depth)
    ensures Begin(v) >= 0 && Head(t, role, Begin(v), depth) == Some(v)
    decreases v, 1
  {
    if !role.Key? { ValueComplete(t, v, depth); }
  }

  lemma {:induction false} EntryComplete(t: string, role: Role, vs: seq<Tree>, a: nat, b: nat, depth: nat,
                                         next: nat, rest: Row)
    requires vs != [] && ReadEntry(t, role, vs[0], a, depth) && next == Space(t, After(vs[0]))
    requires TailAt(t, role, vs, next, b, rest) && rest == RowAt(t, Following(role), Space(t, next + 1), depth)
    ensures TakesRow(t, role, vs, a, b, depth)
    decreases vs[0], 2
  {
    EntryStarts(t, role, vs[0], a, depth);
    HeadComplete(t, role, vs[0], a, depth);
    RowFolds(t, role, Space(t, a), depth, vs, b, next, rest);
  }

  lemma {:induction false} RowComplete(t: string, role: Role, vs: seq<Tree>, a: nat, b: nat, depth: nat)
    requires ReadsRow(t, role, vs, a, b, depth) && b < |t| && t[b] == Closer(role)
    ensures TakesRow(t, role, vs, a, b, depth)
    decreases vs, 3
  {
    assert ReadEntry(t, role, vs[0], a, depth);
    var next := Space(t, After(vs[0]));
    if |vs| == 1 {
      TailCloses(t, role, vs, b, RowAt(t, Following(role), Space(t, b + 1), depth));
      EntryComplete(t, role, vs, a, b, depth, b, RowAt(t, Following(role), Space(t, b + 1), depth));
    } else {
      RowComplete(t, Following(role), vs[1..], next + 1, b, depth);
      EntryComplete(t, role, vs, a, b, depth, next, Some((vs[1..], b)));
    }
  }

  /** A whole text: one value between blanks. */
  predicate ReadsDocument(t: string, v: Tree) {
    ReadsValue(t, v, 0) && Skipped(t, 0, Begin(v)) && After(v) <= |t| && Skipped(t, After(v), |t|)
  }

  lemma DocumentSound(t: string, v: Tree)
    requires Document(t) == Some(v)
    ensures ReadsDocument(t, v)
  {
    SpaceGap(t, 0);
    ValueSound(t, Space(t, 0), 0, v);
    SpaceGap(t, After(v));
  }

  lemma DocumentComplete(t: string, v: Tree)
    requires ReadsDocument(t, v)
    ensures Document(t) == Some(v)
  {
    FirstChar(t, v, 0);
    SpaceIs(t, 0, Begin(v));
    ValueComplete(t, v, 0);
    SpaceIs(t, After(v), |t|);
  }

  /** json_syntax_valid accepts exactly the texts that read so, each with its one reading. */
  lemma ValidatorReads(t: string, v: Tree)
    ensures Document(t) == Some(v) <==> ReadsDocument(t, v)
  {
    if Document(t) == Some(v) { DocumentSound(t, v); }
    if ReadsDocument(t, v) { DocumentComplete(t, v); }
  }
}
