/**
  The complete evidence table of src/app/composite_reporting/pooled_tables.py: one row for each
  leaf of a source response, with the leaf's canonical JSON.
*/
module PooledEvidence {
  import opened Wrappers
  import opened Text
  import opened Sorting
  import opened Json
  import opened JsonReader
  import opened JsonText
  import opened Pointers
  import opened Leaves

  datatype Row = Row(pointer: string, canonical: Option<string>)

  /** `_cell(data, pointer, json_value=True)`: null is unavailable, everything else is its JSON. */
  function Cell(dataset: Json, pointer: string): Row {
    var value := Resolved(dataset, pointer);
    Row(pointer, if value.Refused? || value.value.Null? then None else Some(Dumps(value.value, false, false)))
  }

  /** The rows for the value at `base`. */
  function Evidence(dataset: Json, base: seq<string>, v: Json): seq<Row> {
    var pointers := LeafPointers(v, Print(base));
    seq(|pointers|, i requires 0 <= i < |pointers| => Cell(dataset, pointers[i]))
  }

  function RowOf(base: seq<string>, leaf: Leaf): Row {
    Row(Print(base) + Print(leaf.path), if leaf.value.Null? then None else Some(Dumps(leaf.value, false, false)))
  }

  lemma RowsAreLeaves(dataset: Json, base: seq<string>, v: Json)
    requires WellFormed(v) && At(dataset, base) == Some(v)
    ensures |Evidence(dataset, base, v)| == |LeavesOf(v, true)|
    ensures forall i :: 0 <= i < |LeavesOf(v, true)| ==>
      Evidence(dataset, base, v)[i] == RowOf(base, LeavesOf(v, true)[i])
  {
    WalkPrints(v, Print(base), true);
    var leaves := LeavesOf(v, true);
    forall i | 0 <= i < |leaves| ensures Evidence(dataset, base, v)[i] == RowOf(base, leaves[i]) {
      ListedIffThere(v, true, leaves[i]);
      PathResolves(dataset, base, v, leaves[i].path);
    }
  }

  lemma {:induction false} AtNumeric(v: Json, path: seq<string>)
    requires WellFormed(v) && Numeric(v)
    ensures At(v, path).Some? ==> Numeric(At(v, path).value)
    decreases |path|
  {
    hide Child, Numeric;
    if path != [] && Child(v, path[0]).Some? {
      ChildOk(v, path[0]);
      AtNumeric(Child(v, path[0]).value, path[1..]);
    }
  }

  /** What is read of a row: its pointer spells the path of a leaf and resolves to it in the dataset, and
      its text reads as the leaf. Only a null has none. */
  lemma RowsRead(dataset: Json, base: seq<string>, v: Json, i: nat)
    requires WellFormed(v) && Numeric(v) && At(dataset, base) == Some(v) && i < |LeavesOf(v, true)|
    ensures |Evidence(dataset, base, v)| == |LeavesOf(v, true)|
    ensures var row, leaf := Evidence(dataset, base, v)[i], LeavesOf(v, true)[i];
            && Parse(row.pointer) == base + leaf.path && Resolved(dataset, row.pointer) == Ok(leaf.value)
            && (row.canonical == None <==> leaf.value == Null)
            && (row.canonical.Some? ==> ReadValue(row.canonical.value) == Some((leaf.value, "")))
  {
    hide Dumps, ReadValue, Numeric;
    var leaf := LeavesOf(v, true)[i];
    RowsAreLeaves(dataset, base, v);
    ListedIffThere(v, true, leaf);
    PathResolves(dataset, base, v, leaf.path);
    ParsePrint(base + leaf.path);
    AtWellFormed(v, leaf.path);
    AtNumeric(v, leaf.path);
    DumpsBack(leaf.value, false, false);
    PlainStays(leaf.value);
  }

  lemma RowOfInjective(base: seq<string>, a: Leaf, b: Leaf)
    requires WellFormed(a.value) && WellFormed(b.value) && IsLeaf(a.value, true) && IsLeaf(b.value, true)
    requires RowOf(base, a) == RowOf(base, b)
    ensures a == b
  {
    assert (Print(base) + Print(a.path))[|Print(base)|..] == Print(a.path);
    assert (Print(base) + Print(b.path))[|Print(base)|..] == Print(b.path);
    PrintInjective(a.path, b.path);
    if !a.value.Null? && !b.value.Null? { LeafTextInjective(a.value, b.value, false, false); }
  }

  lemma {:induction false} AtWellFormed(v: Json, path: seq<string>)
    requires WellFormed(v)
    ensures At(v, path).Some? ==> WellFormed(At(v, path).value)
    decreases |path|
  {
    TokensLead(v);
    if path != [] && Child(v, path[0]).Some? { AtWellFormed(Child(v, path[0]).value, path[1..]); }
  }

  /** The rows say exactly what the leaves are. */
  lemma RowThere(dataset: Json, base: seq<string>, v: Json, leaf: Leaf)
    requires WellFormed(v) && At(dataset, base) == Some(v) && WellFormed(leaf.value) && IsLeaf(leaf.value, true)
    ensures RowOf(base, leaf) in Evidence(dataset, base, v) <==> leaf in LeavesOf(v, true)
  {
    RowsAreLeaves(dataset, base, v);
    var leaves, rows := LeavesOf(v, true), Evidence(dataset, base, v);
    if RowOf(base, leaf) in rows {
      var i :| 0 <= i < |rows| && rows[i] == RowOf(base, leaf);
      ListedIffThere(v, true, leaves[i]);
      AtWellFormed(v, leaves[i].path);
      RowOfInjective(base, leaf, leaves[i]);
    }
    if leaf in leaves {
      var i :| 0 <= i < |leaves| && leaves[i] == leaf;
      assert rows[i] == RowOf(base, leaf);
    }
  }

  // --------------------------------------------------------- what the leaves determine

  ghost predicate LeafAt(v: Json, path: seq<string>, leaf: Json) {
    At(v, path) == Some(leaf) && IsLeaf(leaf, true)
  }

  ghost predicate SameLeaves(v: Json, w: Json) {
    forall path, leaf :: LeafAt(v, path, leaf) <==> LeafAt(w, path, leaf)
  }

  /** Every value has a leaf. */
  lemma {:induction false} SomeLeaf(v: Json) returns (path: seq<string>, leaf: Json)
    requires WellFormed(v)
    ensures LeafAt(v, path, leaf)
    decreases v
  {
    if IsLeaf(v, true) {
      path, leaf := [], v;
    } else {
      TokensLead(v);
      var t := if v.Obj? then v.members[0].key else Decimal(0);
      if v.Obj? {
        assert Keys(v.members)[0] == t;
        SortedAscending(Keys(v.members));
      } else {
        assert Tokens(v)[0] == t;
      }
      assert t in Tokens(v);
      var rest, end := SomeLeaf(Child(v, t).value);
      path, leaf := [t] + rest, end;
    }
  }

  lemma LeafUnder(v: Json, t: string, path: seq<string>, leaf: Json)
    requires !IsLeaf(v, true)
    ensures LeafAt(v, [t] + path, leaf) <==> Child(v, t).Some? && LeafAt(Child(v, t).value, path, leaf)
  {
    assert ([t] + path)[1..] == path;
  }

  lemma TokensFromLeaves(v: Json, w: Json, t: string)
    requires WellFormed(v) && WellFormed(w) && !IsLeaf(v, true) && !IsLeaf(w, true) && SameLeaves(v, w)
    requires t in Tokens(v)
    ensures t in Tokens(w)
  {
    TokensLead(v);
    TokensLead(w);
    var path, leaf := SomeLeaf(Child(v, t).value);
    LeafUnder(v, t, path, leaf);
    LeafUnder(w, t, path, leaf);
    assert LeafAt(v, [t] + path, leaf);
  }

  lemma {:induction false} LeavesDetermine(v: Json, w: Json)
    requires WellFormed(v) && WellFormed(w) && SameLeaves(v, w)
    ensures Alike(v, w, true)
    decreases v
  {
    if IsLeaf(v, true) {
      assert LeafAt(v, [], v);
    } else if IsLeaf(w, true) {
      assert LeafAt(w, [], w);
    } else {
      TokensLead(v);
      TokensLead(w);
      forall t ensures t in Tokens(v) <==> t in Tokens(w) {
        if t in Tokens(v) { TokensFromLeaves(v, w, t); }
        if t in Tokens(w) { TokensFromLeaves(w, v, t); }
      }
      forall t | t in Tokens(v) ensures Alike(Child(v, t).value, Child(w, t).value, true) {
        forall path, leaf ensures LeafAt(Child(v, t).value, path, leaf) <==> LeafAt(Child(w, t).value, path, leaf) {
          LeafUnder(v, t, path, leaf);
          LeafUnder(w, t, path, leaf);
        }
        LeavesDetermine(Child(v, t).value, Child(w, t).value);
      }
    }
  }

  lemma {:induction false} AlikeLeaves(v: Json, w: Json, path: seq<string>, leaf: Json)
    requires WellFormed(v) && WellFormed(w) && Alike(v, w, true)
    ensures LeafAt(v, path, leaf) <==> LeafAt(w, path, leaf)
    decreases |path|
  {
    TokensLead(v);
    TokensLead(w);
    if v != w && path != [] {
      var t := path[0];
      if t in Tokens(v) { AlikeLeaves(Child(v, t).value, Child(w, t).value, path[1..], leaf); }
    }
  }

  /** The evidence rows determine the value up to the order of members and up to reading an array
      as an object keyed by its indices, and no further. */
  lemma RowsDetermine(dataset: Json, dataset': Json, base: seq<string>, v: Json, w: Json)
    requires WellFormed(v) && WellFormed(w) && At(dataset, base) == Some(v) && At(dataset', base) == Some(w)
    ensures (forall row :: row in Evidence(dataset, base, v) <==> row in Evidence(dataset', base, w)) <==> Alike(v,
        w, true)
  {
    if Alike(v, w, true) {
      forall row ensures row in Evidence(dataset, base, v) <==> row in Evidence(dataset', base, w) {
        if row in Evidence(dataset, base, v) { RowCarriesOver(dataset, dataset', base, v, w, row); }
        if row in Evidence(dataset', base, w) {
          AlikeSymmetric(v, w);
          RowCarriesOver(dataset', dataset, base, w, v, row);
        }
      }
    }
    if forall row :: row in Evidence(dataset, base, v) <==> row in Evidence(dataset', base, w) {
      forall path, leaf ensures LeafAt(v, path, leaf) <==> LeafAt(w, path, leaf) {
        AtWellFormed(v, path);
        AtWellFormed(w, path);
        ListedIffThere(v, true, Leaf(path, leaf));
        ListedIffThere(w, true, Leaf(path, leaf));
        if IsLeaf(leaf, true) && WellFormed(leaf) {
          RowThere(dataset, base, v, Leaf(path, leaf));
          RowThere(dataset', base, w, Leaf(path, leaf));
        }
      }
      LeavesDetermine(v, w);
    }
  }

  lemma RowCarriesOver(dataset: Json, dataset': Json, base: seq<string>, v: Json, w: Json, row: Row)
    requires WellFormed(v) && WellFormed(w) && At(dataset, base) == Some(v) && At(dataset', base) == Some(w)
    requires Alike(v, w, true) && row in Evidence(dataset, base, v)
    ensures row in Evidence(dataset', base, w)
  {
    RowsAreLeaves(dataset, base, v);
    var i :| 0 <= i < |Evidence(dataset, base, v)| && Evidence(dataset, base, v)[i] == row;
    var leaf := LeavesOf(v, true)[i];
    ListedIffThere(v, true, leaf);
    AtWellFormed(v, leaf.path);
    AlikeLeaves(v, w, leaf.path, leaf.value);
    assert LeafAt(v, leaf.path, leaf.value);
    ListedIffThere(w, true, leaf);
    RowThere(dataset', base, w, leaf);
  }

  lemma {:induction false} AlikeSymmetric(v: Json, w: Json)
    requires WellFormed(v) && WellFormed(w) && Alike(v, w, true)
    ensures Alike(w, v, true)
    decreases v
  {
    if v != w {
      TokensLead(v);
      TokensLead(w);
      forall t | t in Tokens(w) ensures Alike(Child(w, t).value, Child(v, t).value, true) {
        AlikeSymmetric(Child(v, t).value, Child(w, t).value);
      }
    }
  }

  // --------------------------------------------------------------------- losslessness

  /** No object, at any depth, has a key that is a canonical array index. */
  ghost predicate NoIndexKeys(v: Json) {
    match v
    case Obj(members) => forall i :: 0 <= i < |members| ==>
      !CanonicalIndex(members[i].key) && NoIndexKeys(members[i].item)
    case Arr(items) => forall i :: 0 <= i < |items| ==> NoIndexKeys(items[i])
    case _ => true
  }

  lemma {:induction false} NoIndexNoConfusion(v: Json, w: Json)
    requires WellFormed(v) && WellFormed(w) && Alike(v, w, true) && NoIndexKeys(v) && NoIndexKeys(w)
    ensures Alike(v, w, false)
    decreases v
  {
    hide Tokens, Child, WellFormed, NoIndexKeys;
    if !IsLeaf(v, true) && !IsLeaf(w, true) {
      TokensLead(v);
      TokensLead(w);
      if v.Arr? { FirstIndex(v, w); }
      if w.Arr? { FirstIndex(w, v); }
      forall t | t in Tokens(v) ensures Alike(Child(v, t).value, Child(w, t).value, false) {
        ChildNoIndex(v, t);
        ChildNoIndex(w, t);
        NoIndexNoConfusion(Child(v, t).value, Child(w, t).value);
      }
    }
  }

  lemma ChildNoIndex(v: Json, t: string)
    requires NoIndexKeys(v) && Child(v, t).Some?
    ensures NoIndexKeys(Child(v, t).value) && (v.Obj? ==> !CanonicalIndex(t))
  {
  }

  lemma FirstIndex(v: Json, w: Json)
    requires WellFormed(w) && v.Arr? && |v.items| > 0 && NoIndexKeys(w)
    requires forall t :: t in Tokens(v) ==> t in Tokens(w)
    ensures w.Arr?
  {
    assert Tokens(v)[0] == Decimal(0);
    TokensLead(w);
    ChildNoIndex(w, Decimal(0));
  }

  /** Lossless: equal evidence means equal values, empty containers included, when no object key
      is a canonical array index. */
  lemma EvidenceLossless(dataset: Json, dataset': Json, base: seq<string>, v: Json, w: Json)
    requires WellFormed(v) && WellFormed(w) && At(dataset, base) == Some(v) && At(dataset', base) == Some(w)
    requires NoIndexKeys(v) && NoIndexKeys(w)
    ensures (forall row :: row in Evidence(dataset, base, v) <==> row in Evidence(dataset', base, w)) <==> Alike(v,
        w, false)
  {
    RowsDetermine(dataset, dataset', base, v, w);
    if Alike(v, w, true) { NoIndexNoConfusion(v, w); }
    if Alike(v, w, false) { StrictlyAlike(v, w); }
  }

  lemma {:induction false} StrictlyAlike(v: Json, w: Json)
    requires Alike(v, w, false) && WellFormed(v) && WellFormed(w)
    ensures Alike(v, w, true)
    decreases v
  {
    hide Tokens, Child, WellFormed;
    if !IsLeaf(v, true) && !IsLeaf(w, true) {
      TokensLead(v);
      TokensLead(w);
      forall t | t in Tokens(v) ensures Alike(Child(v, t).value, Child(w, t).value, true) {
        StrictlyAlike(Child(v, t).value, Child(w, t).value);
      }
    }
  }

  lemma IndexKeyAlike(x: Json)
    requires WellFormed(x)
    ensures Alike(Arr([x]), Obj([Member("0", x)]), true)
  {
    var v, w := Arr([x]), Obj([Member("0", x)]);
    assert Keys(w.members) == ["0"];
    assert Decimal(0) == "0";
    TokensLead(v);
    TokensLead(w);
    assert Tokens(v) == ["0"];
    AscendingUnique(Tokens(w), ["0"]);
    assert Number("0") == 0 by { NumberDecimal(0); }
    AlikeSelf(x);
  }

  /** Without that condition the array [x] and the object {"0": x} have the same rows. */
  lemma IndexKeyConfusion(x: Json, base: seq<string>, dataset: Json, dataset': Json)
    requires WellFormed(x)
    requires At(dataset, base) == Some(Arr([x])) && At(dataset', base) == Some(Obj([Member("0", x)]))
    ensures forall row ::
      row in Evidence(dataset, base, Arr([x])) <==> row in Evidence(dataset', base, Obj([Member("0", x)]))
    ensures !Alike(Arr([x]), Obj([Member("0", x)]), false)
  {
    IndexKeyAlike(x);
    RowsDetermine(dataset, dataset', base, Arr([x]), Obj([Member("0", x)]));
  }

  lemma {:induction false} AlikeSelf(v: Json)
    ensures Alike(v, v, true)
    decreases v
  {
    forall t | t in Tokens(v) && Child(v, t).Some? ensures Alike(Child(v, t).value, Child(v, t).value, true) {
      AlikeSelf(Child(v, t).value);
    }
  }
}
