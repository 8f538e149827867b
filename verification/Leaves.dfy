/**
  The enumerations of leaves: `scalar_pointers` of src/app/composite_reporting/historical_tables.py,
  which lists scalars, and `_leaves` of pooled_tables.py, which lists empty containers as well.
*/
module Leaves {
  import opened Wrappers
  import opened Text
  import opened Sorting
  import opened Json
  import opened Pointers

  predicate IsLeaf(v: Json, empties: bool) { Scalar(v) || (empties && EmptyContainer(v)) }

  /** Both enumerations as written: `empties` tells them apart. */
  function Walk(v: Json, pointer: string, empties: bool): seq<string>
    decreases v, 1, 0
  {
    if IsLeaf(v, empties) then [pointer]
    else if v.Obj? then WalkKeys(v, Sorted(Keys(v.members)), pointer, empties)
    else WalkItems(v, 0, pointer, empties)
  }

  function WalkKeys(v: Json, keys: seq<string>, pointer: string, empties: bool): seq<string>
    requires v.Obj?
    decreases v, 0, |keys|
  {
    if keys == [] then []
    else
      var child := Child(v, keys[0]);
      (if child.Some? then Walk(child.value, pointer + "/" + Escape(keys[0]), empties) else [])
      + WalkKeys(v, keys[1..], pointer, empties)
  }

  function WalkItems(v: Json, i: nat, pointer: string, empties: bool): seq<string>
    requires v.Arr? && i <= |v.items|
    decreases v, 0, |v.items| - i
  {
    if i == |v.items| then []
    else Walk(v.items[i], pointer + "/" + Decimal(i), empties) + WalkItems(v, i + 1, pointer, empties)
  }

  /** `_leaves`; `scalar_pointers` is the walk without empty containers. */
  function LeafPointers(v: Json, pointer: string): seq<string> { Walk(v, pointer, true) }

  // ------------------------------------------------------- the same, on tokens and values

  datatype Leaf = Leaf(path: seq<string>, value: Json)

  function LeavesOf(v: Json, empties: bool): seq<Leaf>
    decreases v, 1, 0
  {
    if IsLeaf(v, empties) then [Leaf([], v)] else LeavesUnder(v, Tokens(v), empties)
  }

  function LeavesUnder(v: Json, tokens: seq<string>, empties: bool): seq<Leaf>
    decreases v, 0, |tokens|
  {
    if tokens == [] then []
    else
      var child := Child(v, tokens[0]);
      (if child.Some? then Prefixed(tokens[0], LeavesOf(child.value, empties)) else [])
      + LeavesUnder(v, tokens[1..], empties)
  }

  function Prefixed(token: string, leaves: seq<Leaf>): seq<Leaf> {
    seq(|leaves|, i requires 0 <= i < |leaves| => Leaf([token] + leaves[i].path, leaves[i].value))
  }

  function Printed(pointer: string, leaves: seq<Leaf>): seq<string> {
    seq(|leaves|, i requires 0 <= i < |leaves| => pointer + Print(leaves[i].path))
  }

  lemma {:induction false} PrintConcat(a: seq<string>, b: seq<string>)
    ensures Print(a + b) == Print(a) + Print(b)
    decreases |b|
  {
    if b == [] {
      assert a + b == a;
    } else {
      var front := b[..|b| - 1];
      assert (a + b)[..|a + b| - 1] == a + front;
      PrintConcat(a, front);
    }
  }

  lemma PrintOne(token: string)
    ensures Print([token]) == "/" + Escape(token)
  {
    assert [token][..0] == [];
  }

  lemma PrintedBelow(pointer: string, token: string, leaves: seq<Leaf>)
    ensures Printed(pointer, Prefixed(token, leaves)) == Printed(pointer + "/" + Escape(token), leaves)
  {
    forall i | 0 <= i < |leaves|
      ensures pointer + Print([token] + leaves[i].path) == pointer + "/" + Escape(token) + Print(leaves[i].path) {
      PrintConcat([token], leaves[i].path);
      PrintOne(token);
    }
  }

  lemma PrintedConcat(pointer: string, a: seq<Leaf>, b: seq<Leaf>)
    ensures Printed(pointer, a + b) == Printed(pointer, a) + Printed(pointer, b)
  {
  }

  /** The pointers that are listed are the printed paths of the leaves, in that order. */
  lemma {:induction false} WalkPrints(v: Json, pointer: string, empties: bool)
    ensures Walk(v, pointer, empties) == Printed(pointer, LeavesOf(v, empties))
    decreases v, 1, 0
  {
    if IsLeaf(v, empties) {
      assert Print([]) == "";
      assert pointer + "" == pointer;
    } else if v.Obj? {
      WalkKeysPrints(v, Tokens(v), pointer, empties);
    } else {
      WalkItemsPrints(v, 0, pointer, empties);
      assert Tokens(v)[0..] == Tokens(v);
    }
  }

  lemma {:induction false} WalkKeysPrints(v: Json, keys: seq<string>, pointer: string, empties: bool)
    requires v.Obj?
    ensures WalkKeys(v, keys, pointer, empties) == Printed(pointer, LeavesUnder(v, keys, empties))
    decreases v, 0, |keys|
  {
    if keys != [] {
      var child := Child(v, keys[0]);
      if child.Some? {
        WalkPrints(child.value, pointer + "/" + Escape(keys[0]), empties);
        PrintedBelow(pointer, keys[0], LeavesOf(child.value, empties));
        PrintedConcat(pointer, Prefixed(keys[0], LeavesOf(child.value, empties)), LeavesUnder(v, keys[1..], empties));
      } else {
        assert LeavesUnder(v, keys, empties) == LeavesUnder(v, keys[1..], empties);
      }
      WalkKeysPrints(v, keys[1..], pointer, empties);
    }
  }

  lemma {:induction false} WalkItemsPrints(v: Json, i: nat, pointer: string, empties: bool)
    requires v.Arr? && i <= |v.items|
    ensures WalkItems(v, i, pointer, empties) == Printed(pointer, LeavesUnder(v, Tokens(v)[i..], empties))
    decreases v, 0, |v.items| - i
  {
    if i < |v.items| {
      var tokens := Tokens(v)[i..];
      assert tokens[0] == Decimal(i) && tokens[1..] == Tokens(v)[i + 1..];
      NumberDecimal(i);
      assert Child(v, Decimal(i)) == Some(v.items[i]);
      EscapeIndex(i);
      WalkPrints(v.items[i], pointer + "/" + Decimal(i), empties);
      PrintedBelow(pointer, Decimal(i), LeavesOf(v.items[i], empties));
      PrintedConcat(pointer, Prefixed(Decimal(i), LeavesOf(v.items[i], empties)), LeavesUnder(v, tokens[1..], empties));
      WalkItemsPrints(v, i + 1, pointer, empties);
    }
  }

  // -------------------------------------------------------------- complete, and once each

  /** A leaf is listed exactly when it is there. */
  lemma {:induction false} ListedIffThere(v: Json, empties: bool, leaf: Leaf)
    requires WellFormed(v)
    ensures leaf in LeavesOf(v, empties) <==> At(v, leaf.path) == Some(leaf.value) && IsLeaf(leaf.value, empties)
    decreases v, 1, 0
  {
    TokensLead(v);
    if IsLeaf(v, empties) {
      if leaf.path != [] { assert Child(v, leaf.path[0]).None?; }
    } else {
      ListedUnder(v, Tokens(v), empties, leaf);
    }
  }

  lemma {:induction false} ListedUnder(v: Json, tokens: seq<string>, empties: bool, leaf: Leaf)
    requires WellFormed(v)
    ensures leaf in LeavesUnder(v, tokens, empties) <==>
      leaf.path != [] && leaf.path[0] in tokens && At(v, leaf.path) == Some(leaf.value) && IsLeaf(leaf.value, empties)
    decreases v, 0, |tokens|
  {
    if tokens != [] {
      ListedUnder(v, tokens[1..], empties, leaf);
      assert tokens == [tokens[0]] + tokens[1..];
      var child := Child(v, tokens[0]);
      if child.Some? {
        TokensLead(v);
        var leaves := LeavesOf(child.value, empties);
        InBelow(tokens[0], leaves, leaf);
        if leaf.path != [] { ListedIffThere(child.value, empties, Leaf(leaf.path[1..], leaf.value)); }
      }
    }
  }

  lemma InBelow(token: string, leaves: seq<Leaf>, leaf: Leaf)
    ensures leaf in Prefixed(token, leaves) <==>
      leaf.path != [] && leaf.path[0] == token && Leaf(leaf.path[1..], leaf.value) in leaves
  {
    var below := Prefixed(token, leaves);
    if leaf in below {
      var i :| 0 <= i < |below| && below[i] == leaf;
      assert leaf.path[1..] == leaves[i].path;
    }
    if leaf.path != [] && leaf.path[0] == token && Leaf(leaf.path[1..], leaf.value) in leaves {
      var i :| 0 <= i < |leaves| && leaves[i] == Leaf(leaf.path[1..], leaf.value);
      assert leaf.path == [token] + leaves[i].path;
      assert below[i] == leaf;
    }
  }

  predicate DistinctPaths(leaves: seq<Leaf>) {
    forall i, j :: 0 <= i < j < |leaves| ==> leaves[i].path != leaves[j].path
  }

  lemma {:induction false} ListedOnce(v: Json, empties: bool)
    requires WellFormed(v)
    ensures DistinctPaths(LeavesOf(v, empties))
    decreases v, 1, 0
  {
    if !IsLeaf(v, empties) {
      TokensLead(v);
      ListedOnceUnder(v, Tokens(v), empties);
    }
  }

  lemma {:induction false} ListedOnceUnder(v: Json, tokens: seq<string>, empties: bool)
    requires WellFormed(v) && Sorting.Distinct(tokens)
    ensures DistinctPaths(LeavesUnder(v, tokens, empties))
    decreases v, 0, |tokens|
  {
    if tokens != [] {
      ListedOnceUnder(v, tokens[1..], empties);
      var child := Child(v, tokens[0]);
      var rest := LeavesUnder(v, tokens[1..], empties);
      if child.Some? {
        TokensLead(v);
        ListedOnce(child.value, empties);
        var here := Prefixed(tokens[0], LeavesOf(child.value, empties));
        BelowDistinct(tokens[0], LeavesOf(child.value, empties));
        forall j | 0 <= j < |rest| ensures rest[j].path != [] && rest[j].path[0] != tokens[0] {
          ListedUnder(v, tokens[1..], empties, rest[j]);
        }
        assert LeavesUnder(v, tokens, empties) == here + rest;
      } else {
        assert LeavesUnder(v, tokens, empties) == rest;
      }
    }
  }

  lemma BelowDistinct(token: string, leaves: seq<Leaf>)
    requires DistinctPaths(leaves)
    ensures DistinctPaths(Prefixed(token, leaves))
  {
    var below := Prefixed(token, leaves);
    forall i, j | 0 <= i < j < |below| ensures below[i].path != below[j].path {
      assert below[i].path[1..] == leaves[i].path && below[j].path[1..] == leaves[j].path;
    }
  }

  /** Printed paths can be told apart. */
  lemma PrintInjective(a: seq<string>, b: seq<string>)
    requires Print(a) == Print(b)
    ensures a == b
  {
    ParsePrint(a);
    ParsePrint(b);
  }

  lemma PathResolves(dataset: Json, base: seq<string>, v: Json, path: seq<string>)
    requires At(dataset, base) == Some(v)
    ensures Print(base + path) == Print(base) + Print(path)
    ensures Resolved(dataset, Print(base + path))
            == if At(v, path).Some? then Ok(At(v, path).value) else Refused("COMPOSITE_REPORT_CELL_POINTER_INVALID")
  {
    ParsePrint(base + path);
    AtConcat(dataset, base, path);
    PrintConcat(base, path);
  }

  /** For any value inside any dataset: no pointer is listed twice. */
  lemma PointersDistinct(base: seq<string>, v: Json, empties: bool)
    requires WellFormed(v)
    ensures Sorting.Distinct(Walk(v, Print(base), empties))
  {
    var leaves := LeavesOf(v, empties);
    WalkPrints(v, Print(base), empties);
    ListedOnce(v, empties);
    var pointers := Printed(Print(base), leaves);
    forall i, j | 0 <= i < j < |leaves| ensures pointers[i] != pointers[j] {
      if pointers[i] == pointers[j] {
        assert pointers[i][|Print(base)|..] == Print(leaves[i].path);
        assert pointers[j][|Print(base)|..] == Print(leaves[j].path);
        PrintInjective(leaves[i].path, leaves[j].path);
      }
    }
  }

  /** A pointer is listed, from the value's own pointer, exactly when it leads to a leaf of the value;
      and it resolves to that leaf. */
  lemma PointersExact(dataset: Json, base: seq<string>, v: Json, empties: bool, pointer: string)
    requires WellFormed(v) && At(dataset, base) == Some(v)
    ensures pointer in Walk(v, Print(base), empties) <==>
      exists path :: pointer == Print(base + path) && At(v, path).Some? && IsLeaf(At(v, path).value, empties)
                     && Resolved(dataset, pointer) == Ok(At(v, path).value)
  {
    var leaves := LeavesOf(v, empties);
    WalkPrints(v, Print(base), empties);
    if pointer in Printed(Print(base), leaves) {
      var i :| 0 <= i < |leaves| && pointer == Print(base) + Print(leaves[i].path);
      ListedIffThere(v, empties, leaves[i]);
      PathResolves(dataset, base, v, leaves[i].path);
    }
    forall path | pointer == Print(base + path) && At(v, path).Some? && IsLeaf(At(v, path).value, empties)
      ensures pointer in Printed(Print(base), leaves) {
      PathResolves(dataset, base, v, path);
      ListedIffThere(v, empties, Leaf(path, At(v, path).value));
      var i :| 0 <= i < |leaves| && leaves[i] == Leaf(path, At(v, path).value);
      assert pointer == Printed(Print(base), leaves)[i];
    }
  }

  /** No leaf lies below another: no listed path is a proper prefix of a listed path. */
  lemma NoLeafBelowAnother(v: Json, empties: bool, i: nat, j: nat)
    requires WellFormed(v) && i < |LeavesOf(v, empties)| && j < |LeavesOf(v, empties)| && i != j
    ensures !(LeavesOf(v, empties)[i].path <= LeavesOf(v, empties)[j].path)
  {
    var a, b := LeavesOf(v, empties)[i], LeavesOf(v, empties)[j];
    ListedIffThere(v, empties, a);
    ListedIffThere(v, empties, b);
    ListedOnce(v, empties);
    if a.path <= b.path {
      var rest := b.path[|a.path|..];
      assert b.path == a.path + rest;
      AtConcat(v, a.path, rest);
      NothingBelowLeaf(a.value, rest);
    }
  }

  lemma NothingBelowLeaf(v: Json, path: seq<string>)
    requires Scalar(v) || EmptyContainer(v)
    ensures path != [] ==> At(v, path).None?
  {
  }

  // ------------------------------------------------------------- the order of the members

  /** The tokens of a container do not depend on the order of its members. */
  lemma TokensAlike(v: Json, w: Json)
    requires WellFormed(v) && WellFormed(w) && Alike(v, w, false)
    ensures Tokens(v) == Tokens(w)
  {
    if v.Obj? && w.Obj? && v != w {
      SortedAscending(Keys(v.members));
      SortedAscending(Keys(w.members));
      AscendingUnique(Tokens(v), Tokens(w));
    } else if v.Arr? && w.Arr? && v != w {
      TokensLead(v);
      TokensLead(w);
      SameLength(v, w);
      SameLength(w, v);
    }
  }

  lemma SameLength(v: Json, w: Json)
    requires v.Arr? && w.Arr? && forall t :: t in Tokens(v) <==> t in Tokens(w)
    ensures |v.items| <= |w.items|
  {
    if |w.items| < |v.items| {
      assert Tokens(v)[|w.items|] == Decimal(|w.items|);
      ItemTokens(w.items, Decimal(|w.items|));
      NumberDecimal(|w.items|);
    }
  }

  lemma {:induction false} LeavesAlike(v: Json, w: Json, empties: bool)
    requires WellFormed(v) && WellFormed(w) && Alike(v, w, false)
    ensures LeavesOf(v, empties) == LeavesOf(w, empties)
    decreases v, 1, 0
  {
    TokensAlike(v, w);
    if v != w {
      TokensLead(v);
      TokensLead(w);
      LeavesUnderAlike(v, w, Tokens(v), empties);
    }
  }

  lemma {:induction false} LeavesUnderAlike(v: Json, w: Json, tokens: seq<string>, empties: bool)
    requires WellFormed(v) && WellFormed(w) && Alike(v, w, false) && v != w
    requires forall t :: t in tokens ==> t in Tokens(v)
    ensures LeavesUnder(v, tokens, empties) == LeavesUnder(w, tokens, empties)
    decreases v, 0, |tokens|
  {
    if tokens != [] {
      TokensLead(v);
      TokensLead(w);
      assert tokens[0] in Tokens(v) && tokens[0] in Tokens(w);
      LeavesAlike(Child(v, tokens[0]).value, Child(w, tokens[0]).value, empties);
      LeavesUnderAlike(v, w, tokens[1..], empties);
    }
  }

  /** The listing does not depend on the order of object members, at any depth. */
  lemma OrderIrrelevant(v: Json, w: Json, pointer: string, empties: bool)
    requires WellFormed(v) && WellFormed(w) && Alike(v, w, false)
    ensures Walk(v, pointer, empties) == Walk(w, pointer, empties)
  {
    WalkPrints(v, pointer, empties);
    WalkPrints(w, pointer, empties);
    LeavesAlike(v, w, empties);
  }
}
