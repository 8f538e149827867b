/**
  One table order, accepted up to permutation: `require_complete_projection` and
  `_normalize_method_order` of src/app/composite_reporting/projection.py, against the Methods
  table that `_methods` and `_pointer_table` of table_builder.py rebuild.
*/
module Projection {
  import opened Wrappers
  import opened Text
  import opened Sorting
  import opened Pointers
  import Json

  /** What a retained dataset may hold where a list of pointers is expected. */
  datatype Item = Str(text: string) | NotStr(tag: int)

  datatype Methods = Absent | NotList(tag: int) | List(items: seq<Item>)

  /** A `field` cell; `rest` is everything in it that the normalizer does not touch. */
  datatype Cell = Cell(pointer: Option<string>, canonical: Option<string>, rest: string)

  datatype Row = Row(id: string, field: Option<Cell>, rest: string)

  datatype Table = Table(id: string, rows: seq<Row>, rest: string)

  datatype Dataset = Dataset(methods: Methods, facts: string, tables: seq<Table>)

  function Texts(items: seq<string>): Methods {
    List(seq(|items|, i requires 0 <= i < |items| => Str(items[i])))
  }

  function FieldPointer(i: nat): string { "/report_facts/Methods/" + Decimal(i) }

  // --------------------------------------------------------------- the expected side

  const METHODS: string := "Methods"
  const METHODOLOGY: string := "/selection/methodology"
  const ENGINE: string := "/selection/engine_version"
  const WINDOWS: string := "/selection/windows/"
  const BINDING: string := "/method_binding/"

  /** The pointers of `_methods`, for the keys of each window's method binding. */
  function MethodPointers(windows: seq<seq<string>>): seq<string> {
    [METHODOLOGY, ENGINE] + WindowPointers(windows)
  }

  function WindowPointers(windows: seq<seq<string>>): seq<string> {
    if windows == [] then []
    else
      var i := |windows| - 1;
      WindowPointers(windows[..i]) + KeyPointers(i, Sorted(windows[i]))
  }

  function KeyPointers(window: nat, keys: seq<string>): seq<string> {
    seq(|keys|, k requires 0 <= k < |keys| => BindingPointer(window, keys[k]))
  }

  function BindingPointer(window: nat, key: string): string {
    WINDOWS + (Decimal(window) + (BINDING + Escape(key)))
  }

  /** The window and the key can be read off the pointer, whatever characters the key holds. */
  lemma BindingPointerInjective(w: nat, key: string, w': nat, key': string)
    requires BindingPointer(w, key) == BindingPointer(w', key')
    ensures w == w' && key == key'
  {
    var s := Decimal(w) + (BINDING + Escape(key));
    var s' := Decimal(w') + (BINDING + Escape(key'));
    assert (WINDOWS + s)[|WINDOWS|..] == s && (WINDOWS + s')[|WINDOWS|..] == s';
    NumeralReadable(w, w', BINDING + Escape(key), BINDING + Escape(key'));
    assert (BINDING + Escape(key))[|BINDING|..] == Escape(key) && (BINDING + Escape(key'))[|BINDING|..] == Escape(key');
    EscapeRoundTrip(key);
    EscapeRoundTrip(key');
  }

  /** A numeral ends where something else than a digit begins. */
  lemma NumeralReadable(m: nat, n: nat, after: string, after': string)
    requires Decimal(m) + after == Decimal(n) + after'
    requires after != "" && after[0] == '/' && after' != "" && after'[0] == '/'
    ensures m == n && after == after'
  {
    var a, b := Decimal(m), Decimal(n);
    var s := a + after;
    assert s[|a|] == '/' && s[|b|] == '/';
    assert forall i :: 0 <= i < |a| ==> s[i] == a[i];
    assert forall i :: 0 <= i < |b| ==> s[i] == b[i];
    assert |a| == |b|;
    assert s[..|a|] == a && s[..|b|] == b && s[|a|..] == after && s[|b|..] == after';
    DecimalInjective(m, n);
  }

  /** Every such pointer comes from one window and one of its keys. */
  lemma {:induction false} WindowPointerOf(windows: seq<seq<string>>, j: nat) returns (w: nat, key: string)
    requires j < |WindowPointers(windows)|
    ensures w < |windows| && WindowPointers(windows)[j] == BindingPointer(w, key)
  {
    var i := |windows| - 1;
    var front := WindowPointers(windows[..i]);
    if j < |front| {
      w, key := WindowPointerOf(windows[..i], j);
    } else {
      w, key := i, Sorted(windows[i])[j - |front|];
    }
  }

  lemma KeyPointersDistinct(window: nat, keys: seq<string>)
    requires Distinct(keys)
    ensures Distinct(KeyPointers(window, keys))
  {
    hide BindingPointer;
    var pointers := KeyPointers(window, keys);
    forall a, b | 0 <= a < b < |pointers| ensures pointers[a] != pointers[b] {
      if pointers[a] == pointers[b] { BindingPointerInjective(window, keys[a], window, keys[b]); }
    }
  }

  lemma {:induction false} WindowPointersDistinct(windows: seq<seq<string>>)
    requires forall i :: 0 <= i < |windows| ==> Distinct(windows[i])
    ensures Distinct(WindowPointers(windows))
  {
    hide BindingPointer, Sorted;
    if windows != [] {
      var i := |windows| - 1;
      var front, keys := WindowPointers(windows[..i]), Sorted(windows[i]);
      WindowPointersDistinct(windows[..i]);
      SortedDistinct(windows[i]);
      KeyPointersDistinct(i, keys);
      var last := KeyPointers(i, keys);
      forall a, b | 0 <= a < |front| && 0 <= b < |last| ensures front[a] != last[b] {
        var w, key := WindowPointerOf(windows[..i], a);
        if front[a] == last[b] { BindingPointerInjective(w, key, i, keys[b]); }
      }
      DistinctConcat(front, last);
    }
  }

  lemma SortedDistinct(keys: seq<string>)
    requires Distinct(keys)
    ensures Distinct(Sorted(keys))
  {
    SortedAscending(keys);
    forall a, b | 0 <= a < b < |keys| ensures Sorted(keys)[a] != Sorted(keys)[b] {
      BelowTotal(Sorted(keys)[a], Sorted(keys)[b]);
    }
  }

  lemma DistinctConcat(a: seq<string>, b: seq<string>)
    requires Distinct(a) && Distinct(b)
    requires forall i, j :: 0 <= i < |a| && 0 <= j < |b| ==> a[i] != b[j]
    ensures Distinct(a + b)
  {
  }

  /** The rebuilt pointers are distinct, whatever the keys of the method bindings. */
  lemma MethodPointersDistinct(windows: seq<seq<string>>)
    requires forall i :: 0 <= i < |windows| ==> Distinct(windows[i])
    ensures Distinct(MethodPointers(windows))
  {
    hide WindowPointers;
    var head, rest := [METHODOLOGY, ENGINE], WindowPointers(windows);
    WindowPointersDistinct(windows);
    assert METHODOLOGY[11] == 'm' && ENGINE[11] == 'e';
    forall j | 0 <= j < |rest| ensures |rest[j]| > 11 && rest[j][11] == 'w' {
      var w, key := WindowPointerOf(windows, j);
      assert |WINDOWS| == 19 && WINDOWS[11] == 'w';
    }
    DistinctConcat(head, rest);
  }

  /** By window, and by key within a window. */
  predicate InOrder(pairs: seq<(nat, string)>) {
    forall j, k :: 0 <= j < k < |pairs| ==>
      pairs[j].0 < pairs[k].0 || (pairs[j].0 == pairs[k].0 && Below(pairs[j].1, pairs[k].1))
  }

  /** Every window with every key of its binding: by window, and in a window by ascending keys. */
  function Pairs(windows: seq<seq<string>>): (r: seq<(nat, string)>)
    ensures |r| == |WindowPointers(windows)|
  {
    if windows == [] then []
    else
      var i := |windows| - 1;
      Pairs(windows[..i]) + KeyPairs(i, Sorted(windows[i]))
  }

  lemma {:induction false} PairsPointers(windows: seq<seq<string>>, j: nat)
    requires j < |Pairs(windows)|
    ensures WindowPointers(windows)[j] == BindingPointer(Pairs(windows)[j].0, Pairs(windows)[j].1)
    decreases |windows|
  {
    hide BindingPointer, Sorted;
    var i := |windows| - 1;
    if j < |Pairs(windows[..i])| { PairsPointers(windows[..i], j); }
  }

  lemma PairsLast(windows: seq<seq<string>>, pair: (nat, string))
    requires windows != []
    ensures var i := |windows| - 1;
            pair in Pairs(windows) <==> pair in Pairs(windows[..i]) || pair in KeyPairs(i, Sorted(windows[i]))
  {
    hide WindowPointers, Sorted, KeyPairs;
  }

  lemma KeysSorted(window: nat, keys: seq<string>, w: nat, key: string)
    ensures (w, key) in KeyPairs(window, Sorted(keys)) <==> w == window && key in keys
  {
    hide Sorted, KeyPairs;
    SameElements(Sorted(keys), keys);
  }

  lemma {:induction false} PairsWithin(windows: seq<seq<string>>, w: nat, key: string)
    ensures (w, key) in Pairs(windows) <==> w < |windows| && key in windows[w]
    decreases |windows|
  {
    hide Sorted, KeyPairs, WindowPointers;
    if windows != [] {
      hide Pairs;
      var i := |windows| - 1;
      PairsLast(windows, (w, key));
      PairsWithin(windows[..i], w, key);
      KeysSorted(i, windows[i], w, key);
    }
  }

  lemma {:induction false} PairsInOrder(windows: seq<seq<string>>)
    requires forall i :: 0 <= i < |windows| ==> Distinct(windows[i])
    ensures InOrder(Pairs(windows))
    decreases |windows|
  {
    hide Below, Sorted, InOrder, Ascending, WindowPointers;
    if windows == [] {
      NoneInOrder();
    } else {
      var i := |windows| - 1;
      var front := windows[..i];
      PairsInOrder(front);
      SortedAscending(windows[i]);
      forall w: nat, key | (w, key) in Pairs(front) ensures w < i { PairsWithin(front, w, key); }
      PairsOn(Pairs(front), i, Sorted(windows[i]));
    }
  }

  lemma NoneInOrder()
    ensures InOrder([])
  {
  }

  lemma PairsOn(front: seq<(nat, string)>, i: nat, keys: seq<string>)
    requires Ascending(keys) && InOrder(front) && forall w: nat, key :: (w, key) in front ==> w < i
    ensures InOrder(front + KeyPairs(i, keys))
  {
    hide Below;
    assert forall j :: 0 <= j < |front| ==> front[j] in front;
  }

  function KeyPairs(window: nat, keys: seq<string>): (r: seq<(nat, string)>)
    ensures |r| == |keys| && forall k :: 0 <= k < |keys| ==> r[k] == (window, keys[k])
    ensures forall w: nat, key :: (w, key) in r <==> w == window && key in keys
  {
    if keys == [] then []
    else
      assert keys == keys[..|keys| - 1] + [keys[|keys| - 1]];
      KeyPairs(window, keys[..|keys| - 1]) + [(window, keys[|keys| - 1])]
  }

  /** The pointers in order: the two of the selection, then those of each window by its keys in
      ascending order, one for every key and no other. */
  lemma MethodPointersOrdered(windows: seq<seq<string>>) returns (pairs: seq<(nat, string)>)
    requires forall i :: 0 <= i < |windows| ==> Distinct(windows[i])
    ensures |MethodPointers(windows)| == |pairs| + 2
    ensures Parse(MethodPointers(windows)[0]) == ["selection", "methodology"]
    ensures Parse(MethodPointers(windows)[1]) == ["selection", "engine_version"]
    ensures forall j :: 0 <= j < |pairs| ==>
      Parse(MethodPointers(windows)[j + 2])
      == ["selection", "windows", Decimal(pairs[j].0), "method_binding", pairs[j].1]
    ensures forall w: nat, key :: (w, key) in pairs <==> w < |windows| && key in windows[w]
    ensures InOrder(pairs)
  {
    hide BindingPointer, Below, WindowPointers, Parse, Pairs, InOrder;
    pairs := Pairs(windows);
    PairsInOrder(windows);
    SelectionPointersLead();
    forall w: nat, key ensures (w, key) in pairs <==> w < |windows| && key in windows[w] {
      PairsWithin(windows, w, key);
    }
    forall j | 0 <= j < |pairs|
      ensures Parse(MethodPointers(windows)[j + 2])
              == ["selection", "windows", Decimal(pairs[j].0), "method_binding", pairs[j].1] {
      PairsPointers(windows, j);
      BindingPointerLeads(pairs[j].0, pairs[j].1);
    }
  }

  // ------------------------------------------------------------------ where pointers lead

  lemma PlainToken(t: string)
    requires '~' !in t && '/' !in t
    ensures Escape(t) == t
  {
    NothingToReplace(t, '~', "~0");
    NothingToReplace(t, '/', "~1");
  }

  lemma PrintOn(path: seq<string>, t: string)
    ensures Print(path + [t]) == Print(path) + "/" + Escape(t)
  {
    assert (path + [t])[..|path|] == path;
  }

  lemma PrintPlain(path: seq<string>, t: string)
    requires '~' !in t && '/' !in t
    ensures Print(path + [t]) == Print(path) + ("/" + t)
  {
    PrintOn(path, t);
    PlainToken(t);
  }

  /** What the path of two or three plain tokens looks like. */
  lemma PrintTwo(a: string, b: string)
    requires '~' !in a && '/' !in a && '~' !in b && '/' !in b
    ensures Print([a, b]) == "/" + a + ("/" + b)
  {
    hide Print, Escape;
    PrintNothing();
    PrintPlain([], a);
    PrintPlain([a], b);
    assert [] + [a] == [a] && [a] + [b] == [a, b] && "" + ("/" + a) == "/" + a;
  }

  lemma PrintThree(a: string, b: string, c: string)
    requires '~' !in a && '/' !in a && '~' !in b && '/' !in b && '~' !in c && '/' !in c
    ensures Print([a, b, c]) == "/" + a + ("/" + b) + ("/" + c)
  {
    hide Print, Escape;
    PrintTwo(a, b);
    PrintPlain([a, b], c);
    assert [a, b] + [c] == [a, b, c];
  }

  lemma FactsText(t: string)
    ensures '~' !in "report_facts" && '/' !in "report_facts" && '~' !in "Methods" && '/' !in "Methods"
    ensures "/" + "report_facts" + ("/" + "Methods") + ("/" + t) == "/report_facts/Methods/" + t
  {
    assert "/" + "report_facts" + ("/" + "Methods") + "/" == "/report_facts/Methods/";
    assert "/" + "report_facts" + ("/" + "Methods") + ("/" + t)
           == "/" + "report_facts" + ("/" + "Methods") + "/" + t;
  }

  /** `/report_facts/Methods/<i>` spells the i-th entry of the Methods list. */
  lemma FieldPointerLeads(i: nat)
    ensures Parse(FieldPointer(i)) == ["report_facts", "Methods", Decimal(i)]
  {
    hide Print, Parse, Decimal;
    FactsText(Decimal(i));
    PlainNumeral(i);
    PrintThree("report_facts", "Methods", Decimal(i));
    ParsePrint(["report_facts", "Methods", Decimal(i)]);
  }

  lemma PlainNumeral(i: nat)
    ensures '~' !in Decimal(i) && '/' !in Decimal(i)
  {
  }

  lemma PrintNothing()
    ensures Print([]) == ""
  {
  }

  /** In every dataset whose `report_facts.Methods` is a list it leads to that list's i-th item. */
  lemma FieldPointerResolves(dataset: Json.Json, items: seq<Json.Json>, i: nat)
    requires At(dataset, ["report_facts", "Methods"]) == Some(Json.Arr(items)) && i < |items|
    ensures Resolved(dataset, FieldPointer(i)) == Ok(items[i])
  {
    hide FieldPointer, Parse;
    FieldPointerLeads(i);
    AtConcat(dataset, ["report_facts", "Methods"], [Decimal(i)]);
    assert ["report_facts", "Methods"] + [Decimal(i)] == ["report_facts", "Methods", Decimal(i)];
    NumberDecimal(i);
    var list := Json.Arr(items);
    assert Json.Child(list, Decimal(i)) == Some(items[i]);
    assert At(list, [Decimal(i)]) == At(items[i], []);
  }

  lemma SelectionText()
    ensures '~' !in "selection" && '/' !in "selection" && '~' !in "methodology" && '/' !in "methodology"
    ensures '~' !in "engine_version" && '/' !in "engine_version"
    ensures "/" + "selection" + ("/" + "methodology") == METHODOLOGY
    ensures "/" + "selection" + ("/" + "engine_version") == ENGINE
  {
  }

  lemma SelectionPointersLead()
    ensures Parse(METHODOLOGY) == ["selection", "methodology"] && Parse(ENGINE) == ["selection", "engine_version"]
  {
    hide Print, Parse;
    SelectionText();
    PrintTwo("selection", "methodology");
    PrintTwo("selection", "engine_version");
    ParsePrint(["selection", "methodology"]);
    ParsePrint(["selection", "engine_version"]);
  }

  lemma WindowsText(w: string, t: string)
    ensures '~' !in "windows" && '/' !in "windows" && '~' !in "method_binding" && '/' !in "method_binding"
    ensures '~' !in "selection" && '/' !in "selection"
    ensures "/" + "selection" + ("/" + "windows") + ("/" + w) + ("/" + "method_binding") + "/" + t
            == WINDOWS + (w + (BINDING + t))
  {
    assert "/" + "selection" + ("/" + "windows") + "/" == WINDOWS;
    assert "/" + "method_binding" + "/" == BINDING;
    Regroup("/" + "selection" + ("/" + "windows"), w, "/" + "method_binding", t);
  }

  lemma Regroup(a: string, w: string, b: string, t: string)
    ensures a + ("/" + w) + b + "/" + t == a + "/" + (w + (b + "/" + t))
  {
  }

  /** A binding pointer spells its key in the method binding of its window. */
  lemma BindingPointerLeads(window: nat, key: string)
    ensures Parse(BindingPointer(window, key)) == ["selection", "windows", Decimal(window), "method_binding", key]
  {
    hide Print, Parse, Escape, Decimal;
    WindowsText(Decimal(window), Escape(key));
    PlainNumeral(window);
    PrintThree("selection", "windows", Decimal(window));
    FiveTokens("selection", "windows", Decimal(window), "method_binding", key);
  }

  lemma FiveTokens(a: string, b: string, c: string, d: string, key: string)
    requires '~' !in d && '/' !in d
    ensures Parse(Print([a, b, c]) + ("/" + d) + "/" + Escape(key)) == [a, b, c, d, key]
  {
    hide Print, Parse, Escape;
    PrintPlain([a, b, c], d);
    PrintOn([a, b, c] + [d], key);
    ParsePrint([a, b, c] + [d] + [key]);
    assert [a, b, c] + [d] + [key] == [a, b, c, d, key];
  }

  /** The Methods table that `_pointer_table` builds for some pointers; `rest` stands for what depends
      only on the pointer, the value cell among it. */
  predicate MethodsTable(t: Table, required: seq<string>) {
    && t.id == METHODS && |t.rows| == |required|
    && forall i :: 0 <= i < |required| ==>
         t.rows[i].id == Decimal(i) && t.rows[i].field.Some?
         && t.rows[i].field.value.pointer == Some(FieldPointer(i))
           && t.rows[i].field.value.canonical == Some(required[i])
  }

  /** `next(t for t in tables if t["table_id"] == "Methods")`. */
  function FirstMethods(tables: seq<Table>): (r: Option<nat>)
    ensures r.Some? ==> r.value < |tables| && tables[r.value].id == METHODS
    ensures r.Some? ==> forall i :: 0 <= i < r.value ==> tables[i].id != METHODS
    ensures r.None? ==> forall i :: 0 <= i < |tables| ==> tables[i].id != METHODS
  {
    if tables == [] then None
    else if tables[0].id == METHODS then Some(0)
    else
      var rest := FirstMethods(tables[1..]);
      if rest.Some? then Some(rest.value + 1) else None
  }

  /** A rebuilt projection. */
  predicate Built(expected: Dataset, required: seq<string>) {
    && expected.methods == Texts(required) && Distinct(required)
    && FirstMethods(expected.tables).Some?
    && MethodsTable(expected.tables[FirstMethods(expected.tables).value], required)
  }

  // ------------------------------------------------------------------- the normalizer

  function Strings(items: seq<Item>): Option<seq<string>> {
    if items == [] then Some([])
    else
      var rest := Strings(items[1..]);
      if items[0].Str? && rest.Some? then Some([items[0].text] + rest.value) else None
  }

  /** `retained.index(pointer)`. */
  function IndexOf(s: seq<string>, x: string): (i: nat)
    requires x in s
    ensures i < |s| && s[i] == x
  {
    if s[0] == x then 0 else 1 + IndexOf(s[1..], x)
  }

  /** The row is bound to its place in the retained list. */
  predicate RowBound(row: Row, place: nat, pointer: string) {
    row.id == Decimal(place) && row.field.Some?
    && row.field.value.pointer == Some(FieldPointer(place)) && row.field.value.canonical == Some(pointer)
  }

  function Moved(row: Row, place: nat): Row
    requires row.field.Some?
  {
    row.(id := Decimal(place), field := Some(row.field.value.(pointer := Some(FieldPointer(place)))))
  }

  function Reordered(rows: seq<Row>, retained: seq<string>, required: seq<string>): seq<Row>
    requires |rows| == |retained| && Bound(rows, retained, required)
  {
    seq(|required|, i requires 0 <= i < |required| =>
      assert BoundAt(rows, retained, required, i);
      Moved(rows[IndexOf(retained, required[i])], i))
  }

  predicate BoundAt(rows: seq<Row>, retained: seq<string>, required: seq<string>, i: nat)
    requires |rows| == |retained| && i < |required|
  {
    && required[i] in retained
    && RowBound(rows[IndexOf(retained, required[i])], IndexOf(retained, required[i]), required[i])
  }

  predicate Bound(rows: seq<Row>, retained: seq<string>, required: seq<string>)
    requires |rows| == |retained|
  {
    forall i :: 0 <= i < |required| ==> BoundAt(rows, retained, required, i)
  }

  /** The loop of `_normalize_method_order`: the rows in the required order, bound to their new places. */
  method ReorderRows(rows: seq<Row>, retained: seq<string>, required: seq<string>) returns (r: Option<seq<Row>>)
    requires |rows| == |retained| && forall x :: x in required ==> x in retained
    ensures r == if Bound(rows, retained, required) then Some(Reordered(rows, retained, required)) else None
  {
    hide IndexOf;
    var reordered: seq<Row> := [];
    for index := 0 to |required|
      invariant |reordered| == index
      invariant forall i :: 0 <= i < index ==>
        BoundAt(rows, retained, required, i) && reordered[i] == Moved(rows[IndexOf(retained, required[i])], i)
    {
      ghost var bound := BoundAt(rows, retained, required, index);
      var place := IndexOf(retained, required[index]);
      if !RowBound(rows[place], place, required[index]) { return None; }
      reordered := reordered + [Moved(rows[place], index)];
    }
    assert Bound(rows, retained, required);
    assert reordered == Reordered(rows, retained, required);
    return Some(reordered);
  }

  /** `_normalize_method_order` on a copy of the retained dataset. */
  method NormalizeMethodOrder(actual: Dataset, expected: Dataset, required: seq<string>) returns (r: Option<Dataset>)
    requires Built(expected, required)
    ensures r == Normalized(actual, expected, required)
  {
    hide Sorted, Bound, Reordered, MethodsTable, Strings, Texts, Distinct;
    if actual.methods == expected.methods { return Some(actual); }
    if !actual.methods.List? { return None; }
    var texts := Strings(actual.methods.items);
    if texts.None? || Sorted(texts.value) != Sorted(required) { return None; }
    var retained := texts.value;
    SortedMembers(retained, required);
    var at := FirstMethods(actual.tables);
    if at.None? || |actual.tables[at.value].rows| != |retained| { return None; }
    var table := actual.tables[at.value];
    var rows := ReorderRows(table.rows, retained, required);
    if rows.None? { return None; }
    table := table.(rows := rows.value);
    if table != expected.tables[FirstMethods(expected.tables).value] { return None; }
    return Some(actual.(methods := Texts(required), tables := actual.tables[at.value := table]));
  }

  lemma SortedMembers(a: seq<string>, b: seq<string>)
    requires Sorted(a) == Sorted(b)
    ensures |a| == |b| && forall x :: x in a <==> x in b
  {
    SameElements(Sorted(a), a);
    SameElements(Sorted(b), b);
  }

  /** The normalized dataset, or nothing where the normalizer refuses. */
  function Normalized(actual: Dataset, expected: Dataset, required: seq<string>): Option<Dataset>
    requires Built(expected, required)
  {
    if actual.methods == expected.methods then Some(actual)
    else if !actual.methods.List? then None
    else
      var texts := Strings(actual.methods.items);
      var at := FirstMethods(actual.tables);
      if texts.None? || Sorted(texts.value) != Sorted(required) || at.None? then None
      else
        var table := actual.tables[at.value];
        if |table.rows| != |texts.value| || !Bound(table.rows, texts.value, required) then None
        else
          var moved := table.(rows := Reordered(table.rows, texts.value, required));
          if moved != expected.tables[FirstMethods(expected.tables).value] then None
          else Some(actual.(methods := Texts(required), tables := actual.tables[at.value := moved]))
  }

  /** `require_complete_projection`. */
  predicate ProjectionAccepted(actual: Dataset, expected: Dataset, required: seq<string>)
    requires Built(expected, required)
  {
    var n := Normalized(actual, expected, required);
    n.Some? && n.value.methods == expected.methods && n.value.facts == expected.facts
      && n.value.tables == expected.tables
  }

  method RequireCompleteProjection(actual: Dataset, expected: Dataset, required: seq<string>) returns (ok: bool)
    requires Built(expected, required)
    ensures ok <==> ProjectionAccepted(actual, expected, required)
  {
    var normalized := NormalizeMethodOrder(actual, expected, required);
    return normalized.Some? && normalized.value == expected;
  }

  // -------------------------------------------------------------------- what is accepted

  /** `place[i]` is where the i-th required pointer stands in the retained list. */
  predicate Permutation(place: seq<nat>) {
    && (forall i :: 0 <= i < |place| ==> place[i] < |place|)
    && (forall i, j :: 0 <= i < j < |place| ==> place[i] != place[j])
  }

  /** The expected dataset after one permutation of the Methods pointers, applied to the list, to the
      rows, to their ids and to the pointers in their field cells; everything else is the same. */
  ghost predicate Arranged(actual: Dataset, expected: Dataset, required: seq<string>, place: seq<nat>)
    requires Built(expected, required)
  {
    var at := FirstMethods(expected.tables).value;
    && Permutation(place) && |place| == |required|
    && actual.methods.List? && |actual.methods.items| == |required|
    && (forall i :: 0 <= i < |required| ==> actual.methods.items[place[i]] == Str(required[i]))
    && actual.facts == expected.facts
    && |actual.tables| == |expected.tables|
    && (forall k :: 0 <= k < |actual.tables| && k != at ==> actual.tables[k] == expected.tables[k])
    && ArrangedTable(actual.tables[at], expected.tables[at], place)
  }

  ghost predicate ArrangedTable(actual: Table, expected: Table, place: seq<nat>)
    requires Permutation(place)
  {
    && actual.id == expected.id && actual.rest == expected.rest
    && |actual.rows| == |expected.rows| == |place|
    && (forall i :: 0 <= i < |place| ==>
      expected.rows[i].field.Some? && actual.rows[place[i]] == Moved(expected.rows[i], place[i]))
  }

  lemma {:induction false} StringsAre(items: seq<Item>)
    ensures Strings(items).Some? ==>
      |Strings(items).value| == |items| && forall i :: 0 <= i < |items| ==> items[i] == Str(Strings(items).value[i])
    ensures (forall i :: 0 <= i < |items| ==> items[i].Str?) ==> Strings(items).Some?
  {
    if items != [] {
      StringsAre(items[1..]);
      assert forall i :: 0 < i < |items| ==> items[i] == items[1..][i - 1];
      assert forall i :: 0 <= i < |items| - 1 ==> items[1..][i] == items[i + 1];
    }
  }

  lemma FirstMethodsIs(tables: seq<Table>, at: nat)
    requires at < |tables| && tables[at].id == METHODS && forall i :: 0 <= i < at ==> tables[i].id != METHODS
    ensures FirstMethods(tables) == Some(at)
  {
  }

  /** A row that has been moved to its place and back is the row. */
  lemma MoveBack(row: Row, place: nat, i: nat, pointer: string)
    ensures row.field.Some? && RowBound(row, place, pointer) ==> Moved(Moved(row, i), place) == row
  {
  }

  function UpTo(n: nat): (s: set<nat>)
    ensures |s| == n && forall x: nat :: x in s <==> x < n
  {
    if n == 0 then {} else UpTo(n - 1) + {n - 1}
  }

  function Elements(s: seq<nat>): (r: set<nat>)
    ensures forall x: nat :: x in r <==> x in s
  {
    if s == [] then {}
    else
      assert s == s[..|s| - 1] + [s[|s| - 1]];
      Elements(s[..|s| - 1]) + {s[|s| - 1]}
  }

  lemma {:induction false} ElementsSize(s: seq<nat>)
    requires forall i, j :: 0 <= i < j < |s| ==> s[i] != s[j]
    ensures |Elements(s)| == |s|
  {
    if s != [] { ElementsSize(s[..|s| - 1]); }
  }

  /** A permutation reaches every place. */
  lemma Reaches(place: seq<nat>, j: nat)
    requires Permutation(place) && j < |place|
    ensures j in place
  {
    ElementsSize(place);
    if j !in place { SubsetSize(Elements(place), UpTo(|place|) - {j}); }
  }

  lemma {:induction false} SubsetSize(a: set<nat>, b: set<nat>)
    requires a <= b
    ensures |a| <= |b|
    decreases a
  {
    if a != {} {
      var x :| x in a;
      SubsetSize(a - {x}, b - {x});
    }
  }

  // ---------------------------------------------------------------------- soundness

  function Places(retained: seq<string>, required: seq<string>): seq<nat>
    requires forall x :: x in required ==> x in retained
  {
    seq(|required|, i requires 0 <= i < |required| => IndexOf(retained, required[i]))
  }

  lemma PlacesPermute(retained: seq<string>, required: seq<string>)
    requires Distinct(required) && Sorted(retained) == Sorted(required)
    ensures |retained| == |required| && forall x :: x in required ==> x in retained
    ensures Permutation(Places(retained, required))
  {
    SortedMembers(retained, required);
  }

  lemma AcceptedArrangedTable(table: Table, expected: Table, retained: seq<string>, required: seq<string>)
    requires MethodsTable(expected, required) && |table.rows| == |retained| == |required|
    requires Bound(table.rows, retained, required) && (forall x :: x in required ==> x in retained)
    requires Permutation(Places(retained, required))
    requires table.(rows := Reordered(table.rows, retained, required)) == expected
    ensures ArrangedTable(table, expected, Places(retained, required))
  {
    var place := Places(retained, required);
    forall i | 0 <= i < |place| ensures expected.rows[i].field.Some?
      && table.rows[place[i]] == Moved(expected.rows[i], place[i]) {
      assert BoundAt(table.rows, retained, required, i);
      assert expected.rows[i] == Reordered(table.rows, retained, required)[i];
      MoveBack(table.rows[place[i]], place[i], i, required[i]);
    }
  }

  /** Sound: whatever is accepted is the expected projection after one consistent permutation. */
  lemma AcceptedArranged(actual: Dataset, expected: Dataset, required: seq<string>) returns (place: seq<nat>)
    requires Built(expected, required) && ProjectionAccepted(actual, expected, required)
    ensures Arranged(actual, expected, required, place)
  {
    var at := FirstMethods(expected.tables).value;
    if actual.methods == expected.methods {
      place := seq(|required|, i requires 0 <= i < |required| => i);
      assert actual.tables == expected.tables;
    } else {
      var retained := Strings(actual.methods.items).value;
      StringsAre(actual.methods.items);
      PlacesPermute(retained, required);
      place := Places(retained, required);
      AcceptedAt(actual, expected, required, retained);
      AcceptedArrangedTable(actual.tables[at], expected.tables[at], retained, required);
    }
  }

  /** The table that was normalized stands where the expected one does, and no other was touched. */
  lemma AcceptedAt(actual: Dataset, expected: Dataset, required: seq<string>, retained: seq<string>)
    requires Built(expected, required) && ProjectionAccepted(actual, expected, required)
    requires actual.methods != expected.methods && Strings(actual.methods.items) == Some(retained)
    ensures var at := FirstMethods(expected.tables).value;
            && FirstMethods(actual.tables) == Some(at) && |actual.tables| == |expected.tables|
            && actual.facts == expected.facts
            && (forall k :: 0 <= k < |actual.tables| && k != at ==> actual.tables[k] == expected.tables[k])
            && |actual.tables[at].rows| == |retained| && Bound(actual.tables[at].rows, retained, required)
            && actual.tables[at].(rows := Reordered(actual.tables[at].rows, retained, required)) == expected.tables[at]
  {
    hide MethodsTable, Bound, Reordered, Strings, Sorted, Distinct, Texts;
    var from := FirstMethods(actual.tables).value;
    var n := Normalized(actual, expected, required).value;
    forall k | 0 <= k < |actual.tables| && k != from ensures actual.tables[k] == expected.tables[k] {
      assert n.tables[k] == actual.tables[k];
    }
    assert n.tables[from].id == METHODS;
    FirstMethodsIs(expected.tables, from);
  }

  // --------------------------------------------------------------------- completeness

  /** The retained list of an arranged dataset: strings, distinct, the same ones, in their places. */
  lemma ArrangedTexts(actual: Dataset, expected: Dataset, required: seq<string>, place: seq<nat>)
      returns (retained: seq<string>)
    requires Built(expected, required) && Arranged(actual, expected, required, place)
    ensures Strings(actual.methods.items) == Some(retained) && |retained| == |required|
    ensures forall i :: 0 <= i < |required| ==> retained[place[i]] == required[i]
    ensures Distinct(retained) && forall x :: x in retained <==> x in required
  {
    hide MethodsTable, ArrangedTable;
    var items := actual.methods.items;
    forall j | 0 <= j < |items| ensures items[j].Str? {
      Reaches(place, j);
      var i :| 0 <= i < |place| && place[i] == j;
    }
    StringsAre(items);
    retained := Strings(items).value;
    forall i | 0 <= i < |required| ensures retained[place[i]] == required[i] {
      assert items[place[i]] == Str(required[i]);
    }
    PlacedDistinct(retained, required, place);
  }

  lemma PlacedDistinct(retained: seq<string>, required: seq<string>, place: seq<nat>)
    requires Permutation(place) && |place| == |required| == |retained| && Distinct(required)
    requires forall i :: 0 <= i < |required| ==> retained[place[i]] == required[i]
    ensures Distinct(retained) && forall x :: x in retained <==> x in required
  {
    forall a, b | 0 <= a < b < |retained| ensures retained[a] != retained[b] {
      Reaches(place, a);
      Reaches(place, b);
      var i :| 0 <= i < |place| && place[i] == a;
      var j :| 0 <= j < |place| && place[j] == b;
      assert required[i] == retained[a] && required[j] == retained[b];
    }
    forall x | x in retained ensures x in required {
      var a :| 0 <= a < |retained| && retained[a] == x;
      Reaches(place, a);
      var i :| 0 <= i < |place| && place[i] == a;
      assert required[i] == x;
    }
    forall x | x in required ensures x in retained {
      var i :| 0 <= i < |required| && required[i] == x;
      assert retained[place[i]] == x;
    }
  }

  lemma SameSorted(a: seq<string>, b: seq<string>)
    requires Distinct(a) && Distinct(b) && forall x :: x in a <==> x in b
    ensures Sorted(a) == Sorted(b)
  {
    SortedAscending(a);
    SortedAscending(b);
    AscendingUnique(Sorted(a), Sorted(b));
  }

  lemma IndexUnique(s: seq<string>, i: nat)
    requires Distinct(s) && i < |s|
    ensures s[i] in s && IndexOf(s, s[i]) == i
  {
    var k := IndexOf(s, s[i]);
    assert s[k] == s[i];
  }

  lemma ArrangedBound(table: Table, expected: Table, retained: seq<string>, required: seq<string>, place: seq<nat>)
    requires MethodsTable(expected, required) && Permutation(place) && ArrangedTable(table, expected, place)
    requires |place| == |required| == |retained| && Distinct(retained)
    requires forall i :: 0 <= i < |required| ==> retained[place[i]] == required[i]
    ensures table.id == METHODS && |table.rows| == |retained| && Bound(table.rows, retained, required)
    ensures table.(rows := Reordered(table.rows, retained, required)) == expected
  {
    forall i | 0 <= i < |required|
      ensures BoundAt(table.rows, retained, required, i) && IndexOf(retained, required[i]) == place[i]
              && Moved(table.rows[place[i]], i) == expected.rows[i] {
      IndexUnique(retained, place[i]);
      assert RowBound(expected.rows[i], i, required[i]);
      MoveBack(expected.rows[i], i, place[i], required[i]);
    }
    assert Reordered(table.rows, retained, required) == expected.rows;
  }

  /** Complete: every consistent permutation of the expected projection is accepted. */
  lemma ArrangedAccepted(actual: Dataset, expected: Dataset, required: seq<string>, place: seq<nat>)
    requires Built(expected, required) && Arranged(actual, expected, required, place)
    ensures ProjectionAccepted(actual, expected, required)
  {
    hide MethodsTable, Bound, Reordered, Strings, Sorted, Texts, ArrangedTable, ProjectionAccepted;
    var at := FirstMethods(expected.tables).value;
    if actual.methods == expected.methods {
      EqualAccepted(actual, expected, required);
      ArrangedSame(actual, expected, required, place);
    } else {
      var retained := ArrangedTexts(actual, expected, required, place);
      SameSorted(retained, required);
      ArrangedBound(actual.tables[at], expected.tables[at], retained, required, place);
      NormalizedIs(actual, expected, required, retained);
    }
  }

  lemma NormalizedIs(actual: Dataset, expected: Dataset, required: seq<string>, retained: seq<string>)
    requires Built(expected, required) && actual.methods != expected.methods && actual.methods.List?
    requires Strings(actual.methods.items) == Some(retained) && Sorted(retained) == Sorted(required)
    requires actual.facts == expected.facts && |actual.tables| == |expected.tables|
    requires var at := FirstMethods(expected.tables).value;
             && (forall k :: 0 <= k < |actual.tables| && k != at ==> actual.tables[k] == expected.tables[k])
             && actual.tables[at].id == METHODS && |actual.tables[at].rows| == |retained|
             && Bound(actual.tables[at].rows, retained, required)
             && actual.tables[at].(rows := Reordered(actual.tables[at].rows, retained, required)) == expected.tables[at]
    ensures ProjectionAccepted(actual, expected, required)
  {
    hide MethodsTable, Bound, Reordered, Strings, Sorted, Distinct, Texts;
    var at := FirstMethods(expected.tables).value;
    forall i | 0 <= i < at ensures actual.tables[i].id != METHODS { assert actual.tables[i] == expected.tables[i]; }
    FirstMethodsIs(actual.tables, at);
    assert actual.tables[at := expected.tables[at]] == expected.tables;
  }

  lemma EqualAccepted(actual: Dataset, expected: Dataset, required: seq<string>)
    requires Built(expected, required)
    ensures actual == expected ==> ProjectionAccepted(actual, expected, required)
  {
  }

  lemma ArrangedSame(actual: Dataset, expected: Dataset, required: seq<string>, place: seq<nat>)
    requires Built(expected, required) && Arranged(actual, expected, required, place)
        && actual.methods == expected.methods
    ensures actual == expected
  {
    var at := FirstMethods(expected.tables).value;
    forall i | 0 <= i < |place| ensures place[i] == i && actual.tables[at].rows[i] == expected.tables[at].rows[i] {
      assert actual.methods.items[place[i]] == Str(required[place[i]]);
      assert required[place[i]] == required[i];
      assert Moved(expected.tables[at].rows[i], i) == expected.tables[at].rows[i];
    }
    assert actual.tables[at].rows == expected.tables[at].rows;
    assert actual.tables == expected.tables;
  }

  /** A dataset is accepted exactly when it is the expected projection after one permutation of the
      Methods pointers, applied consistently. */
  lemma AcceptedIffArranged(actual: Dataset, expected: Dataset, required: seq<string>)
    requires Built(expected, required)
    ensures ProjectionAccepted(actual, expected, required) <==> exists place :: Arranged(actual, expected,
        required, place)
  {
    if ProjectionAccepted(actual, expected, required) {
      var place := AcceptedArranged(actual, expected, required);
    }
    forall place | Arranged(actual, expected, required, place) ensures ProjectionAccepted(actual, expected, required) {
      ArrangedAccepted(actual, expected, required, place);
    }
  }

  /** The permutation determines the dataset: nothing else is left open. */
  lemma ArrangedUnique(a: Dataset, b: Dataset, expected: Dataset, required: seq<string>, place: seq<nat>)
    requires Built(expected, required) && Arranged(a, expected, required, place)
        && Arranged(b, expected, required, place)
    ensures a == b
  {
    hide MethodsTable, Texts, Distinct;
    var at := FirstMethods(expected.tables).value;
    forall j | 0 <= j < |required| ensures a.methods.items[j] == b.methods.items[j] {
      Reaches(place, j);
      var i :| 0 <= i < |place| && place[i] == j;
      assert a.methods.items[place[i]] == Str(required[i]);
    }
    ArrangedTableUnique(a.tables[at], b.tables[at], expected.tables[at], place);
    assert a.methods.items == b.methods.items;
    assert a.tables == b.tables;
  }

  lemma ArrangedTableUnique(a: Table, b: Table, expected: Table, place: seq<nat>)
    requires Permutation(place) && ArrangedTable(a, expected, place) && ArrangedTable(b, expected, place)
    ensures a == b
  {
    forall j | 0 <= j < |place| ensures a.rows[j] == b.rows[j] {
      Reaches(place, j);
      var i :| 0 <= i < |place| && place[i] == j;
      assert a.rows[place[i]] == Moved(expected.rows[i], place[i]);
    }
    assert a.rows == b.rows;
  }

  // -------------------------------------------------------------- the rebuilt projection

  /** `_pointer_table` for Methods: the field cell holds the pointer and points at its place in the
      list, the value cell and its column hold what the dataset has there, here `value`. */
  function PointerTable(pointers: seq<string>, value: string -> string, columns: string): Table {
    Table(METHODS, seq(|pointers|, i requires 0 <= i < |pointers| => PointerRow(pointers[i], i, value)), columns)
  }

  function PointerRow(pointer: string, i: nat, value: string -> string): Row {
    Row(Decimal(i), Some(Cell(Some(FieldPointer(i)), Some(pointer), "AVAILABLE")), value(pointer))
  }

  /** The tables that `build_composite_tables` puts before the Methods. */
  predicate TablesBefore(tables: seq<Table>) {
    && |tables| == 3 && tables[0].id == "Summary" && tables[2].id == "Contribution"
    && (tables[1].id == "MonthlyReturns" || tables[1].id == "PeriodReturns")
  }

  /** `build_composite_tables` around some list of method pointers; the other facts and tables are
      whatever they are. */
  function WithMethods(
    pointers: seq<string>, value: string -> string, columns: string, facts: string, before: seq<Table>,
    after: seq<Table>
  ): Dataset {
    Dataset(Texts(pointers), facts, before + [PointerTable(pointers, value, columns)] + after)
  }

  /** The keys of a method binding are those of an object. */
  predicate BindingKeys(windows: seq<seq<string>>) {
    forall i :: 0 <= i < |windows| ==> Distinct(windows[i])
  }

  /** What the code rebuilds from the windows meets all that the normalizer relies on. */
  lemma RebuiltIsBuilt(windows: seq<seq<string>>, value: string -> string, columns: string, facts: string,
      before: seq<Table>, after: seq<Table>)
    requires BindingKeys(windows) && TablesBefore(before)
    ensures Built(WithMethods(MethodPointers(windows), value, columns, facts, before, after), MethodPointers(windows))
    ensures WithMethods(MethodPointers(windows), value, columns, facts, before, after).tables[3].id == "Methods"
  {
    hide MethodPointers, Distinct;
    var required := MethodPointers(windows);
    MethodPointersDistinct(windows);
    MethodsAfter(WithMethods(required, value, columns, facts, before, after).tables, before);
    assert MethodsTable(PointerTable(required, value, columns), required);
  }

  lemma NoneIsMethods(tables: seq<Table>)
    requires TablesBefore(tables)
    ensures forall i :: 0 <= i < 3 ==> tables[i].id != METHODS
  {
    assert tables[0].id[0] == 'S';
    assert |tables[1].id| > 7 && |tables[2].id| > 7;
  }

  lemma MethodsAfter(tables: seq<Table>, before: seq<Table>)
    requires TablesBefore(before) && |tables| > 3 && tables[..3] == before && tables[3].id == METHODS
    ensures FirstMethods(tables) == Some(3)
  {
    hide FirstMethods, TablesBefore;
    NoneIsMethods(before);
    assert forall i :: 0 <= i < 3 ==> tables[i] == before[i];
    FirstMethodsIs(tables, 3);
  }

  /** `require_complete_projection` against the projection rebuilt from the windows: accepted is that
      projection after one permutation of its method pointers, applied consistently. */
  lemma RebuiltAcceptedIff(actual: Dataset, windows: seq<seq<string>>, value: string -> string, columns: string,
      facts: string, before: seq<Table>, after: seq<Table>)
    requires BindingKeys(windows) && TablesBefore(before)
    ensures var required := MethodPointers(windows);
            var expected := WithMethods(required, value, columns, facts, before, after);
            Built(expected, required)
            && (ProjectionAccepted(actual, expected, required)
                <==> exists place :: Arranged(actual, expected, required, place))
  {
    hide MethodPointers, Built, ProjectionAccepted, Arranged, WithMethods;
    RebuiltIsBuilt(windows, value, columns, facts, before, after);
    AcceptedIffArranged(actual, WithMethods(MethodPointers(windows), value, columns, facts, before, after),
      MethodPointers(windows));
  }

  /** The older projection: the keys of each binding in the order in which they were inserted. */
  function InsertionPointers(windows: seq<seq<string>>): seq<string> {
    [METHODOLOGY, ENGINE] + InsertionWindowPointers(windows)
  }

  function InsertionWindowPointers(windows: seq<seq<string>>): seq<string> {
    if windows == [] then []
    else
      var i := |windows| - 1;
      InsertionWindowPointers(windows[..i]) + KeyPointers(i, windows[i])
  }

  lemma KeyPointerMembers(window: nat, a: seq<string>, b: seq<string>)
    requires multiset(a) == multiset(b)
    ensures forall x :: x in KeyPointers(window, a) <==> x in KeyPointers(window, b)
  {
    hide BindingPointer;
    SameElements(a, b);
    KeyPointersWithin(window, a, b);
    KeyPointersWithin(window, b, a);
  }

  lemma KeyPointersWithin(window: nat, a: seq<string>, b: seq<string>)
    requires forall x :: x in a ==> x in b
    ensures forall x :: x in KeyPointers(window, a) ==> x in KeyPointers(window, b)
  {
    hide BindingPointer;
    forall i | 0 <= i < |a| ensures KeyPointers(window, a)[i] in KeyPointers(window, b) {
      assert a[i] in b;
      var j :| 0 <= j < |b| && b[j] == a[i];
      assert KeyPointers(window, b)[j] == KeyPointers(window, a)[i];
    }
  }

  lemma {:induction false} SameWindowPointers(windows: seq<seq<string>>)
    ensures |InsertionWindowPointers(windows)| == |WindowPointers(windows)|
    ensures forall x :: x in InsertionWindowPointers(windows) <==> x in WindowPointers(windows)
  {
    hide KeyPointers, Sorted;
    if windows != [] {
      var i := |windows| - 1;
      SameWindowPointers(windows[..i]);
      SameElements(Sorted(windows[i]), windows[i]);
      KeyPointerMembers(i, windows[i], Sorted(windows[i]));
      KeyPointerCount(i, windows[i]);
      KeyPointerCount(i, Sorted(windows[i]));
    }
  }

  lemma KeyPointerCount(window: nat, keys: seq<string>)
    ensures |KeyPointers(window, keys)| == |keys|
  {
  }

  /** What it was written for: the older projection of the same windows, its method keys in any
      insertion order, is accepted against the sorted one. */
  lemma InsertionOrderAccepted(windows: seq<seq<string>>, value: string -> string, columns: string, facts: string,
      before: seq<Table>, after: seq<Table>)
    requires BindingKeys(windows) && TablesBefore(before)
    ensures var required := MethodPointers(windows);
            var expected := WithMethods(required, value, columns, facts, before, after);
            var older := WithMethods(InsertionPointers(windows), value, columns, facts, before, after);
            Built(expected, required) && ProjectionAccepted(older, expected, required)
  {
    hide Built, ProjectionAccepted, WindowPointers, InsertionWindowPointers, Distinct, Arranged;
    var required, retained := MethodPointers(windows), InsertionPointers(windows);
    var expected := WithMethods(required, value, columns, facts, before, after);
    var older := WithMethods(retained, value, columns, facts, before, after);
    RebuiltIsBuilt(windows, value, columns, facts, before, after);
    MethodPointersDistinct(windows);
    SameWindowPointers(windows);
    var place := Places(retained, required);
    PlacesDistinct(retained, required);
    OlderArranged(windows, value, columns, facts, before, after, place);
    ArrangedAccepted(older, expected, required, place);
  }

  lemma PlacesDistinct(retained: seq<string>, required: seq<string>)
    requires Distinct(required) && |retained| == |required| && forall x :: x in required ==> x in retained
    ensures Permutation(Places(retained, required))
  {
  }

  lemma OlderArranged(windows: seq<seq<string>>, value: string -> string, columns: string, facts: string,
      before: seq<Table>, after: seq<Table>, place: seq<nat>)
    requires BindingKeys(windows) && TablesBefore(before)
    requires |InsertionPointers(windows)| == |MethodPointers(windows)|
    requires forall x :: x in MethodPointers(windows) ==> x in InsertionPointers(windows)
    requires place == Places(InsertionPointers(windows), MethodPointers(windows)) && Permutation(place)
    ensures var required := MethodPointers(windows);
            var expected := WithMethods(required, value, columns, facts, before, after);
            Built(expected, required)
            && Arranged(WithMethods(InsertionPointers(windows), value, columns, facts, before, after), expected,
                 required, place)
  {
    hide MethodPointers, InsertionPointers, Distinct, Built, FieldPointer, Decimal;
    RebuiltIsBuilt(windows, value, columns, facts, before, after);
    var required := MethodPointers(windows);
    var tables := WithMethods(required, value, columns, facts, before, after).tables;
    MethodsAfter(tables, before);
  }
}
