/** The grammar of JSON text (RFC 8259) over extents, and what the validator of emu_json_internal.c accepts in
    terms of it: the texts of the grammar nested at most 64 deep, and those that become one when their zero
    bytes are replaced by a tab, or by the letter of an escape after a backslash. */
module JsonGrammar {
  import opened Json
  import opened JsonTerminals
  import opened JsonShape

  /** string = quotation-mark *char quotation-mark. */
  ghost predicate IsString(t: string, v: Tree) {
    && v == Tree(String, v.start, v.end, []) && 0 < v.start <= v.end < |t|
    && t[v.start - 1] == '"' && t[v.end] == '"' && IsChars(t[v.start..v.end])
  }

  ghost predicate IsPrimitive(t: string, v: Tree) {
    v == Tree(Primitive, v.start, v.end, []) && v.start < v.end <= |t| && IsScalar(t[v.start..v.end])
  }

  ghost predicate IsLeaf(t: string, v: Tree) {
    && v.children == []
    && (IsString(t, v) || IsPrimitive(t, v) || (Bracketed(t, v) && Gap(t, v.start + 1, v.end - 1)))
  }

  /** value = false / null / true / object / array / number / string, nested less than 64 deep. */
  ghost predicate IsValue(t: string, v: Tree, depth: nat)
    decreases v, 0
  {
    depth < DEPTH && if v.children == [] then IsLeaf(t, v)
                     else Bracketed(t, v) && IsRow(t, First(v.kind), v.children, v.start + 1, v.end - 1, depth + 1)
  }

  /** value *( value-separator value ), or member *( value-separator member ) with
      member = string name-separator value, filling the text from `a` to `b`. */
  ghost predicate IsRow(t: string, role: Role, vs: seq<Tree>, a: nat, b: int, depth: nat)
    decreases vs, 1
  {
    && vs != [] && Gap(t, a, Begin(vs[0])) && After(vs[0]) <= |t|
    && (if role.Key? then IsString(t, vs[0]) else IsValue(t, vs[0], depth))
    && if |vs| == 1 then !role.Key? && Gap(t, After(vs[0]), b)
       else exists m: nat :: Gap(t, After(vs[0]), m) && m < |t| && t[m] == Separator(role)
                             && IsRow(t, Following(role), vs[1..], m + 1, b, depth)
  }

  /** JSON-text = ws value ws. */
  ghost predicate IsDocument(t: string, v: Tree) {
    IsValue(t, v, 0) && Gap(t, 0, Begin(v)) && After(v) <= |t| && Gap(t, After(v), |t|)
  }

  // ---- Without zero bytes, what is read is of the grammar ------------------------------------------------------

  lemma GapRead(t: string, a: nat, b: int)
    requires NulFree(t) && Skipped(t, a, b)
    ensures Gap(t, a, b)
  {
  }

  lemma StringRead(t: string, v: Tree)
    requires NulFree(t) && ReadsString(t, v)
    ensures IsString(t, v)
  {
    CharsSound(t, v.start, v.end);
  }

  lemma LeafRead(t: string, v: Tree)
    requires NulFree(t) && ReadsLeaf(t, v)
    ensures IsLeaf(t, v)
  {
    if ReadsString(t, v) { StringRead(t, v); }
    else if ReadsPrimitive(t, v) { ScalarExact(t[v.start..v.end]); }
    else { GapRead(t, v.start + 1, v.end - 1); }
  }

  /** The first entry of a row. */
  ghost predicate Entry(t: string, role: Role, v: Tree, a: nat, depth: nat) {
    Gap(t, a, Begin(v)) && After(v) <= |t| && (if role.Key? then IsString(t, v) else IsValue(t, v, depth))
  }

  lemma RowEnds(t: string, role: Role, vs: seq<Tree>, a: nat, b: int, depth: nat)
    requires |vs| == 1 && Entry(t, role, vs[0], a, depth) && !role.Key? && Gap(t, After(vs[0]), b)
    ensures IsRow(t, role, vs, a, b, depth)
  {
  }

  lemma RowGoesOn(t: string, role: Role, vs: seq<Tree>, a: nat, m: nat, b: int, depth: nat)
    requires |vs| > 1 && Entry(t, role, vs[0], a, depth) && Gap(t, After(vs[0]), m)
    requires m < |t| && t[m] == Separator(role) && IsRow(t, Following(role), vs[1..], m + 1, b, depth)
    ensures IsRow(t, role, vs, a, b, depth)
  {
  }

  lemma {:induction false} ValueRead(t: string, v: Tree, depth: nat)
    requires NulFree(t) && ReadsValue(t, v, depth)
    ensures IsValue(t, v, depth)
    decreases v, 0
  {
    if v.children == [] { LeafRead(t, v); }
    else { RowRead(t, First(v.kind), v.children, v.start + 1, v.end - 1, depth + 1); }
  }

  lemma {:induction false} RowRead(t: string, role: Role, vs: seq<Tree>, a: nat, b: int, depth: nat)
    requires NulFree(t) && ReadsRow(t, role, vs, a, b, depth)
    ensures IsRow(t, role, vs, a, b, depth)
    decreases vs, 1
  {
    GapRead(t, a, Begin(vs[0]));
    if role.Key? { StringRead(t, vs[0]); } else { ValueRead(t, vs[0], depth); }
    if |vs| == 1 {
      GapRead(t, After(vs[0]), b);
      RowEnds(t, role, vs, a, b, depth);
    } else {
      var m := Space(t, After(vs[0]));
      GapRead(t, After(vs[0]), m);
      RowRead(t, Following(role), vs[1..], m + 1, b, depth);
      RowGoesOn(t, role, vs, a, m, b, depth);
    }
  }

  // ---- What is of the grammar is read ---------------------------------------------------------------------------

  lemma GapSkipped(t: string, a: nat, b: int)
    requires Gap(t, a, b)
    ensures Skipped(t, a, b)
  {
  }

  lemma StringOf(t: string, v: Tree)
    requires IsString(t, v)
    ensures ReadsString(t, v)
  {
    CharsComplete(t, v.start, v.end);
  }

  /** What may follow a value: a blank, a separator, a closing bracket or nothing. */
  predicate Ended(t: string, v: Tree) { After(v) < |t| ==> Stop(t[After(v)]) }

  lemma LeafOf(t: string, v: Tree)
    requires IsLeaf(t, v) && Ended(t, v)
    ensures ReadsLeaf(t, v)
  {
    if IsString(t, v) { StringOf(t, v); }
    else if IsPrimitive(t, v) { ScalarExact(t[v.start..v.end]); }
    else { GapSkipped(t, v.start + 1, v.end - 1); }
  }

  lemma ContainerParts(t: string, v: Tree, depth: nat)
    requires IsValue(t, v, depth) && v.children != []
    ensures depth < DEPTH && Bracketed(t, v) && t[v.end - 1] == Closer(First(v.kind))
    ensures IsRow(t, First(v.kind), v.children, v.start + 1, v.end - 1, depth + 1)
  {
  }

  lemma ContainerReads(t: string, v: Tree, depth: nat)
    requires depth < DEPTH && v.children != [] && Bracketed(t, v)
    requires ReadsRow(t, First(v.kind), v.children, v.start + 1, v.end - 1, depth + 1)
    ensures ReadsValue(t, v, depth)
  {
  }

  lemma {:induction false} ValueOf(t: string, v: Tree, depth: nat)
    requires IsValue(t, v, depth) && Ended(t, v)
    ensures ReadsValue(t, v, depth)
    decreases v, 0
  {
    if v.children == [] { LeafOf(t, v); }
    else {
      ContainerParts(t, v, depth);
      RowOf(t, First(v.kind), v.children, v.start + 1, v.end - 1, depth + 1);
      ContainerReads(t, v, depth);
    }
  }

  /** The end of a gap that a closing bracket or a separator ends. */
  lemma GapEnds(t: string, v: Tree, m: nat)
    requires Gap(t, After(v), m) && m < |t| && (t[m] == ',' || t[m] == ':' || t[m] == ']' || t[m] == '}')
    ensures Space(t, After(v)) == m && Skipped(t, After(v), m) && (t[m] != ':' ==> Ended(t, v))
  {
    GapSkipped(t, After(v), m);
    SpaceIs(t, After(v), m);
  }

  lemma EntryOf(t: string, role: Role, v: Tree, a: nat, depth: nat)
    requires Entry(t, role, v, a, depth) && (!role.Key? ==> Ended(t, v))
    ensures ReadEntry(t, role, v, a, depth)
    decreases v, 1
  {
    GapSkipped(t, a, Begin(v));
    if role.Key? { StringOf(t, v); } else { ValueOf(t, v, depth); }
  }

  lemma ReadRowEnds(t: string, role: Role, vs: seq<Tree>, a: nat, b: int, depth: nat)
    requires |vs| == 1 && ReadEntry(t, role, vs[0], a, depth) && !role.Key? && Skipped(t, After(vs[0]), b)
    ensures ReadsRow(t, role, vs, a, b, depth)
  {
  }

  lemma ReadRowGoesOn(t: string, role: Role, vs: seq<Tree>, a: nat, m: nat, b: int, depth: nat)
    requires |vs| > 1 && ReadEntry(t, role, vs[0], a, depth) && Skipped(t, After(vs[0]), m)
    requires m == Space(t, After(vs[0]))
    requires m < |t| && t[m] == Separator(role) && ReadsRow(t, Following(role), vs[1..], m + 1, b, depth)
    ensures ReadsRow(t, role, vs, a, b, depth)
  {
  }

  /** The separator after the first entry, and the rest of the row. */
  lemma RowSplit(t: string, role: Role, vs: seq<Tree>, a: nat, b: int, depth: nat) returns (m: nat)
    requires IsRow(t, role, vs, a, b, depth) && |vs| > 1
    ensures Gap(t, After(vs[0]), m) && m < |t| && t[m] == Separator(role)
    ensures IsRow(t, Following(role), vs[1..], m + 1, b, depth)
  {
    m :| Gap(t, After(vs[0]), m) && m < |t| && t[m] == Separator(role)
         && IsRow(t, Following(role), vs[1..], m + 1, b, depth);
  }

  lemma {:induction false} RowOf(t: string, role: Role, vs: seq<Tree>, a: nat, b: nat, depth: nat)
    requires IsRow(t, role, vs, a, b, depth) && b < |t| && t[b] == Closer(role)
    ensures ReadsRow(t, role, vs, a, b, depth)
    decreases vs, 2
  {
    assert Entry(t, role, vs[0], a, depth);
    if |vs| == 1 {
      GapEnds(t, vs[0], b);
      EntryOf(t, role, vs[0], a, depth);
      ReadRowEnds(t, role, vs, a, b, depth);
    } else {
      var m := RowSplit(t, role, vs, a, b, depth);
      GapEnds(t, vs[0], m);
      EntryOf(t, role, vs[0], a, depth);
      RowOf(t, Following(role), vs[1..], m + 1, b, depth);
      ReadRowGoesOn(t, role, vs, a, m, b, depth);
    }
  }

  // ---- No zero byte is in the grammar ------------------------------------------------------------------------

  predicate Clear(t: string, a: int, b: int) { 0 <= a <= b <= |t| && forall k :: a <= k < b ==> t[k] != '\0' }

  lemma PrimitiveClear(t: string, v: Tree)
    requires IsPrimitive(t, v)
    ensures Clear(t, v.start, v.end)
  {
    var s := t[v.start..v.end];
    ScalarExact(s);
    PrimitivePlain(s);
    forall k | v.start <= k < v.end ensures t[k] != '\0' { assert t[k] == s[k - v.start]; }
  }

  lemma {:induction false} SpelledClear(cs: seq<string>, s: string)
    requires Spells(cs, s)
    ensures NulFree(s)
    decreases |cs|
  {
    if cs != [] {
      assert IsChar(cs[0]);
      SpelledClear(cs[1..], Joined(cs[1..]));
    }
  }

  lemma StringClear(t: string, v: Tree)
    requires IsString(t, v)
    ensures Clear(t, Begin(v), After(v))
  {
    var s := t[v.start..v.end];
    var cs :| Spells(cs, s);
    SpelledClear(cs, s);
    forall k | v.start <= k < v.end ensures t[k] != '\0' { assert t[k] == s[k - v.start]; }
  }

  lemma LeafClear(t: string, v: Tree)
    requires IsLeaf(t, v)
    ensures Clear(t, Begin(v), After(v))
  {
    if IsString(t, v) { StringClear(t, v); }
    else if IsPrimitive(t, v) { PrimitiveClear(t, v); }
  }

  lemma {:induction false} ValueClear(t: string, v: Tree, depth: nat)
    requires IsValue(t, v, depth)
    ensures Clear(t, Begin(v), After(v))
    decreases v, 0
  {
    if v.children == [] { LeafClear(t, v); }
    else { RowClear(t, First(v.kind), v.children, v.start + 1, v.end - 1, depth + 1); }
  }

  lemma {:induction false} RowClear(t: string, role: Role, vs: seq<Tree>, a: nat, b: int, depth: nat)
    requires IsRow(t, role, vs, a, b, depth)
    ensures Clear(t, a, b)
    decreases vs, 2
  {
    assert Entry(t, role, vs[0], a, depth);
    EntryClear(t, role, vs[0], a, depth);
    if |vs| > 1 {
      var m := RowSplit(t, role, vs, a, b, depth);
      RowClear(t, Following(role), vs[1..], m + 1, b, depth);
      ClearJoins(t, a, After(vs[0]), m, b);
    }
  }

  lemma {:induction false} EntryClear(t: string, role: Role, v: Tree, a: nat, depth: nat)
    requires Entry(t, role, v, a, depth)
    ensures Clear(t, a, After(v))
    decreases v, 1
  {
    if role.Key? { StringClear(t, v); } else { ValueClear(t, v, depth); }
  }

  lemma ClearJoins(t: string, a: nat, i: nat, m: nat, b: int)
    requires Clear(t, a, i) && Gap(t, i, m) && m < |t| && t[m] != '\0' && Clear(t, m + 1, b)
    ensures Clear(t, a, b)
  {
  }

  lemma DocumentRead(t: string, v: Tree)
    requires NulFree(t) && ReadsDocument(t, v)
    ensures IsDocument(t, v)
  {
    ValueRead(t, v, 0);
    GapRead(t, 0, Begin(v));
    GapRead(t, After(v), |t|);
  }

  lemma DocumentOf(t: string, v: Tree)
    requires IsDocument(t, v)
    ensures ReadsDocument(t, v) && NulFree(t)
  {
    ValueOf(t, v, 0);
    ValueClear(t, v, 0);
    GapSkipped(t, 0, Begin(v));
    GapSkipped(t, After(v), |t|);
  }

  // ---- Zero bytes ------------------------------------------------------------------------------------------------

  /** An odd number of backslashes right before `i`. */
  predicate Escaped(t: string, i: nat)
    requires i <= |t|
  {
    i > 0 && t[i - 1] == '\\' && !Escaped(t, i - 1)
  }

  /** Zero bytes replaced: by the letter of an escape where a backslash asks for one, by a tab elsewhere. */
  function Repair(t: string): (u: string)
    ensures |u| == |t| && NulFree(u)
    ensures forall i :: 0 <= i < |t| ==> u[i] == if t[i] != '\0' then t[i] else if Escaped(t, i) then 'n' else '\t'
  {
    seq(|t|, i requires 0 <= i < |t| => if t[i] != '\0' then t[i] else if Escaped(t, i) then 'n' else '\t')
  }

  lemma {:induction false} SpaceSame(t: string, i: nat)
    requires i <= |t| && Level(t, i)
    ensures Space(t, i) == Space(Repair(t), i)
    decreases |t| - i
  {
    if i < |t| && SyntaxBlank(t[i]) { SpaceSame(t, i + 1); }
  }

  lemma {:induction false} SkippedSame(t: string, a: nat, b: int)
    requires Level(t, a)
    ensures Skipped(t, a, b) <==> Skipped(Repair(t), a, b)
    ensures Skipped(t, a, b) ==> Level(t, b)
    decreases b - a
  {
    if a < b <= |t| && SyntaxBlank(t[a]) { SkippedSame(t, a + 1, b); }
    assert a < b <= |t| ==> (SyntaxBlank(t[a]) <==> SyntaxBlank(Repair(t)[a]));
    assert a < b <= |t| ==> (Skipped(t, a, b) <==> SyntaxBlank(t[a]) && Skipped(t, a + 1, b));
  }

  lemma {:induction false} QuoteSame(t: string, i: nat)
    requires i <= |t| && !Escaped(t, i)
    ensures Quote(t, i) == Quote(Repair(t), i)
    decreases |t| - i
  {
    if i < |t| && t[i] != '"' && t[i] >= ' ' {
      if t[i] != '\\' { QuoteSame(t, i + 1); }
      else if i + 1 < |t| {
        assert Escaped(t, i + 1);
        if t[i + 1] != 'u' { if Escape(t[i + 1]) { QuoteSame(t, i + 2); } }
        else if i + 6 <= |t| {
          if Hex(t[i + 2]) && Hex(t[i + 3]) && Hex(t[i + 4]) && Hex(t[i + 5]) { QuoteSame(t, i + 6); }
        }
      }
    }
  }

  lemma StringSame(t: string, v: Tree)
    ensures ReadsString(t, v) <==> ReadsString(Repair(t), v)
  {
    if 0 < v.start < |t| && t[v.start - 1] == '"' { QuoteSame(t, v.start); }
  }

  /** A primitive holds no zero byte, so it is the same before and after. */
  lemma PrimitiveKept(t: string, i: nat, end: nat)
    requires i < end <= |t| && PrimitiveValid(t[i..end])
    ensures Repair(t)[i..end] == t[i..end] && Level(t, end)
  {
    var s := t[i..end];
    PrimitivePlain(s);
    PrimitiveLevel(t, i, end);
    forall k | 0 <= k < |s| ensures Repair(t)[i..end][k] == s[k] { assert s[k] == t[i + k] && Plain(s[k]); }
  }

  lemma PrimitiveWas(t: string, i: nat, end: nat)
    requires i < end <= |t| && Level(t, i) && PrimitiveValid(Repair(t)[i..end])
    ensures t[i..end] == Repair(t)[i..end]
  {
    var u := Repair(t);
    var r := u[i..end];
    PrimitivePlain(r);
    forall k | 0 <= k < |r| ensures t[i..end][k] == r[k] {
      assert r[k] == u[i + k] && Plain(r[k]);
      if k > 0 { assert r[k - 1] == u[i + k - 1] && Plain(r[k - 1]); }
    }
  }

  lemma PrimitiveSame(t: string, v: Tree)
    requires Level(t, v.start)
    ensures ReadsPrimitive(t, v) <==> ReadsPrimitive(Repair(t), v)
  {
    if v.start < v.end <= |t| {
      if PrimitiveValid(Repair(t)[v.start..v.end]) { PrimitiveWas(t, v.start, v.end); }
      if PrimitiveValid(t[v.start..v.end]) { PrimitiveKept(t, v.start, v.end); }
    }
  }

  lemma LeafSame(t: string, v: Tree)
    requires Begin(v) >= 0 && Level(t, Begin(v))
    ensures ReadsLeaf(t, v) <==> ReadsLeaf(Repair(t), v)
  {
    StringSame(t, v);
    if v.kind.Primitive? { PrimitiveSame(t, v); }
    if Bracketed(t, v) { SkippedSame(t, v.start + 1, v.end - 1); }
  }

  /** What is read does not end in a backslash. */
  lemma ReadLevel(t: string, role: Role, v: Tree, a: nat, depth: nat)
    requires ReadEntry(t, role, v, a, depth)
    ensures Level(t, After(v))
  {
    if v.kind.Primitive? {
      PrimitivePlain(t[v.start..v.end]);
      assert t[v.end - 1] == t[v.start..v.end][v.end - 1 - v.start];
    }
  }

  lemma BracketedSame(t: string, v: Tree)
    ensures Bracketed(t, v) <==> Bracketed(Repair(t), v)
  {
  }

  lemma {:induction false} ValueSame(t: string, v: Tree, depth: nat)
    requires Begin(v) >= 0 && Level(t, Begin(v))
    ensures ReadsValue(t, v, depth) <==> ReadsValue(Repair(t), v, depth)
    decreases v, 0
  {
    if v.children == [] { LeafSame(t, v); }
    else {
      BracketedSame(t, v);
      if Bracketed(t, v) { RowSame(t, First(v.kind), v.children, v.start + 1, v.end - 1, depth + 1); }
    }
  }

  lemma {:induction false} EntrySame(t: string, role: Role, v: Tree, a: nat, depth: nat)
    requires Level(t, a)
    ensures ReadEntry(t, role, v, a, depth) <==> ReadEntry(Repair(t), role, v, a, depth)
    decreases v, 1
  {
    SkippedSame(t, a, Begin(v));
    if role.Key? { StringSame(t, v); }
    else if Skipped(t, a, Begin(v)) { ValueSame(t, v, depth); }
  }

  /** The rest of a row after its first entry. */
  predicate ReadRest(t: string, role: Role, vs: seq<Tree>, b: int, depth: nat)
    requires vs != [] && After(vs[0]) <= |t|
  {
    if |vs| == 1 then !role.Key? && Skipped(t, After(vs[0]), b)
    else
      var m := Space(t, After(vs[0]));
      && Skipped(t, After(vs[0]), m) && m < |t| && t[m] == Separator(role)
      && ReadsRow(t, Following(role), vs[1..], m + 1, b, depth)
  }

  lemma RowIs(t: string, role: Role, vs: seq<Tree>, a: nat, b: int, depth: nat)
    requires vs != []
    ensures ReadsRow(t, role, vs, a, b, depth)
       <==> ReadEntry(t, role, vs[0], a, depth) && ReadRest(t, role, vs, b, depth)
  {
  }

  lemma {:induction false} RestSame(t: string, role: Role, vs: seq<Tree>, b: int, depth: nat)
    requires vs != [] && After(vs[0]) <= |t| && Level(t, After(vs[0]))
    ensures ReadRest(t, role, vs, b, depth) <==> ReadRest(Repair(t), role, vs, b, depth)
    decreases vs, 2
  {
    var at := After(vs[0]);
    SkippedSame(t, at, b);
    if |vs| > 1 {
      var m := Space(t, at);
      SpaceSame(t, at);
      SkippedSame(t, at, m);
      if m < |t| && t[m] == Separator(role) { RowSame(t, Following(role), vs[1..], m + 1, b, depth); }
    }
  }

  lemma {:induction false} RowSame(t: string, role: Role, vs: seq<Tree>, a: nat, b: int, depth: nat)
    requires Level(t, a)
    ensures ReadsRow(t, role, vs, a, b, depth) <==> ReadsRow(Repair(t), role, vs, a, b, depth)
    decreases vs, 3
  {
    if vs != [] {
      RowIs(t, role, vs, a, b, depth);
      RowIs(Repair(t), role, vs, a, b, depth);
      EntrySame(t, role, vs[0], a, depth);
      if ReadEntry(t, role, vs[0], a, depth) {
        ReadLevel(t, role, vs[0], a, depth);
        RestSame(t, role, vs, b, depth);
      }
    }
  }

  lemma DocumentSame(t: string, v: Tree)
    ensures ReadsDocument(t, v) <==> ReadsDocument(Repair(t), v)
  {
    EntrySame(t, Element, v, 0, 0);
    if ReadEntry(t, Element, v, 0, 0) {
      ReadLevel(t, Element, v, 0, 0);
      SkippedSame(t, After(v), |t|);
    }
  }

  // ---- What the validator accepts ------------------------------------------------------------------------------

  /** A text is of the grammar, with this reading, exactly if it has no zero byte and the validator accepts
      it, with this reading. Whatever its bytes, the validator accepts it exactly if it is of the grammar
      once its zero bytes are replaced. */
  lemma ValidatorExact(t: string, v: Tree)
    ensures IsDocument(t, v) <==> Document(t) == Some(v) && NulFree(t)
    ensures Document(t) == Some(v) <==> IsDocument(Repair(t), v)
  {
    ValidatorReads(t, v);
    DocumentSame(t, v);
    if IsDocument(t, v) { DocumentOf(t, v); }
    if ReadsDocument(t, v) && NulFree(t) { DocumentRead(t, v); }
    if IsDocument(Repair(t), v) { DocumentOf(Repair(t), v); }
    if ReadsDocument(Repair(t), v) { DocumentRead(Repair(t), v); }
  }
}
