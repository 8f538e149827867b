/** JSON values as Python's json module loads them: an object keeps its members in order. */
module Json {
  import opened Wrappers
  import opened Sorting
  import opened Text

  datatype Json =
    | Null
    | Bool(value: bool)
    | Num(text: string)
    | Str(text: string)
    | Arr(items: seq<Json>)
    | Obj(members: seq<Member>)

  datatype Member = Member(key: string, item: Json)

  function Keys(members: seq<Member>): seq<string> {
    seq(|members|, i requires 0 <= i < |members| => members[i].key)
  }

  /** Objects have distinct keys; a number is printed from its first digit or its sign. */
  predicate WellFormed(v: Json) {
    match v
    case Obj(members) => Distinct(Keys(members)) && forall i :: 0 <= i < |members| ==> WellFormed(members[i].item)
    case Arr(items) => forall i :: 0 <= i < |items| ==> WellFormed(items[i])
    case Num(text) => text != "" && (text[0] == '-' || '0' <= text[0] <= '9')
    case _ => true
  }

  /** The position of a key. */
  function Position(members: seq<Member>, key: string): (r: Option<nat>)
    ensures r.Some? ==> r.value < |members| && members[r.value].key == key
    ensures r.None? <==> key !in Keys(members)
  {
    if members == [] then None
    else if members[0].key == key then
      assert Keys(members)[0] == key;
      Some(0)
    else
      var rest := Position(members[1..], key);
      assert Keys(members) == [members[0].key] + Keys(members[1..]);
      if rest.Some? then Some(rest.value + 1) else None
  }

  /** A token that `str(int(token)) == token` accepts. */
  predicate CanonicalIndex(token: string) {
    token != "" && (forall i :: 0 <= i < |token| ==> '0' <= token[i] <= '9') && (token[0] == '0' ==> |token| == 1)
  }

  /** One step of a pointer: a member of an object, or an item of an array. */
  function Child(v: Json, token: string): (r: Option<Json>)
    ensures r.Some? ==> r.value < v
  {
    match v
    case Obj(members) => var i := Position(members, token); if i.Some? then Some(members[i.value].item) else None
    case Arr(items) => if CanonicalIndex(token) && Number(token) < |items| then Some(items[Number(token)]) else None
    case _ => None
  }

  /** The tokens of a container, as the enumerations visit them: keys sorted, items in order. */
  function Tokens(v: Json): seq<string> {
    match v
    case Obj(members) => Sorted(Keys(members))
    case Arr(items) => seq(|items|, i requires 0 <= i < |items| => Decimal(i))
    case _ => []
  }

  /** The tokens are distinct, and they are exactly those that lead to a child. */
  lemma TokensLead(v: Json)
    requires WellFormed(v)
    ensures Distinct(Tokens(v))
    ensures forall t :: t in Tokens(v) <==> Child(v, t).Some?
    ensures forall t :: Child(v, t).Some? ==> WellFormed(Child(v, t).value)
  {
    match v
    case Obj(members) =>
      SortedAscending(Keys(members));
      AscendingDistinct(Tokens(v));
    case Arr(items) =>
      forall i, j | 0 <= i < j < |items| ensures Decimal(i) != Decimal(j) {
        if Decimal(i) == Decimal(j) { DecimalInjective(i, j); }
      }
      forall t ensures t in Tokens(v) <==> Child(v, t).Some? { ItemTokens(items, t); }
    case _ =>
  }

  lemma ItemTokens(items: seq<Json>, t: string)
    ensures t in Tokens(Arr(items)) <==> Child(Arr(items), t).Some?
  {
    hide Decimal, Number;
    if Child(Arr(items), t).Some? {
      DecimalNumber(t);
      assert Tokens(Arr(items))[Number(t)] == t;
    }
    if t in Tokens(Arr(items)) {
      var i :| 0 <= i < |items| && Tokens(Arr(items))[i] == t;
      NumberDecimal(i);
    }
  }

  lemma AscendingDistinct(s: seq<string>)
    requires Ascending(s)
    ensures Distinct(s)
  {
    forall i, j | 0 <= i < j < |s| ensures s[i] != s[j] { BelowTotal(s[i], s[j]); }
  }

  predicate Scalar(v: Json) { !v.Arr? && !v.Obj? }

  predicate EmptyContainer(v: Json) { v == Arr([]) || v == Obj([]) }

  /** Equal, whatever the order of the members. With `indexing` an array is not told from an
      object whose keys are the array's indices. */
  ghost predicate Alike(v: Json, w: Json, indexing: bool)
    decreases v
  {
    if Scalar(v) || EmptyContainer(v) || Scalar(w) || EmptyContainer(w) then v == w
    else
      && (indexing || v.Arr? == w.Arr?)
      && (forall t :: t in Tokens(v) <==> t in Tokens(w))
      && (forall t :: t in Tokens(v) && Child(v, t).Some? && Child(w, t).Some? ==>
            Alike(Child(v, t).value, Child(w, t).value, indexing))
  }
}
