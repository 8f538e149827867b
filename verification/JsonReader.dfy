/**
  A reader of JSON text (RFC 8259, sections 2 to 7), written without regard to how the text is
  made, and the round trip: what `json.dumps` writes with sorted keys is read back as the value,
  its members in the order of their keys.
*/
module JsonReader {
  import opened Wrappers
  import opened Text
  import opened Sorting
  import opened Json
  import opened JsonText

  // ------------------------------------------------------------------------- strings

  function HexValue(c: char): Option<nat> {
    if '0' <= c <= '9' then Some(c as int - '0' as int)
    else if 'a' <= c <= 'f' then Some(c as int - 'a' as int + 10)
    else if 'A' <= c <= 'F' then Some(c as int - 'A' as int + 10)
    else None
  }

  /** Four hexadecimal digits. */
  function ReadHex(s: string): (r: Option<nat>)
    ensures r.Some? ==> |s| >= 4 && r.value < 0x10000
  {
    if |s| < 4 then None
    else
      var a, b, c, d := HexValue(s[0]), HexValue(s[1]), HexValue(s[2]), HexValue(s[3]);
      if a.Some? && b.Some? && c.Some? && d.Some? then
        assert a.value < 16 && b.value < 16 && c.value < 16 && d.value < 16;
        Some(4096 * a.value + 256 * b.value + 16 * c.value + d.value)
      else None
  }

  function ShortEscapes(c: char): Option<char> {
    match c
    case '\"' => Some('\"')
    case '\\' => Some('\\')
    case '/' => Some('/')
    case 'b' => Some('\U{08}')
    case 'f' => Some('\U{0C}')
    case 'n' => Some('\U{0A}')
    case 'r' => Some('\U{0D}')
    case 't' => Some('\U{09}')
    case _ => None
  }

  /** One character of a string, and how many of the text it takes. */
  function ReadChar(s: string): (r: Option<(char, nat)>)
    ensures r.Some? ==> 1 <= r.value.1 <= |s|
  {
    if s == "" || s[0] == '\"' || s[0] < ' ' then None
    else if s[0] != '\\' then Some((s[0], 1))
    else if |s| < 2 then None
    else if s[1] != 'u' then
      var c := ShortEscapes(s[1]);
      if c.Some? then Some((c.value, 2)) else None
    else
      var first := ReadHex(s[2..]);
      if first.None? then None
      else if !(0xD800 <= first.value < 0xE000) then Some((first.value as char, 6))
      else if |s| >= 8 && s[6] == '\\' && s[7] == 'u' then
        var second := ReadHex(s[8..]);
        if first.value < 0xDC00 && second.Some? && 0xDC00 <= second.value < 0xE000 then
          Some(((0x10000 + (first.value - 0xD800) * 0x400 + (second.value - 0xDC00)) as char, 12))
        else None
      else None
  }

  /** The rest of a string up to its quotation mark, and what follows. */
  function ReadChars(s: string): (r: Option<(string, string)>)
    ensures r.Some? ==> |r.value.1| < |s|
    decreases |s|
  {
    if s != "" && s[0] == '\"' then Some(("", s[1..]))
    else
      var c := ReadChar(s);
      if c.None? then None
      else
        var rest := ReadChars(s[c.value.1..]);
        if rest.Some? then Some(([c.value.0] + rest.value.0, rest.value.1)) else None
  }

  lemma HexBack(d: nat)
    requires d < 16
    ensures HexValue(HexDigit(d)) == Some(d)
  {
  }

  lemma UnitBack(n: nat, after: string)
    requires n < 0x10000
    ensures |UnitEscape(n)| == 6 && UnitEscape(n)[0] == '\\' && UnitEscape(n)[1] == 'u'
    ensures ReadHex((UnitEscape(n) + after)[2..]) == Some(n)
    ensures (UnitEscape(n) + after)[6..] == after
  {
    hide HexDigit, HexValue;
    HexBack(n / 4096);
    HexBack(n / 256 % 16);
    HexBack(n / 16 % 16);
    HexBack(n % 16);
    Nibbles(n);
    var s := UnitEscape(n) + after;
    assert s[2..][0] == s[2] && s[2..][1] == s[3] && s[2..][2] == s[4] && s[2..][3] == s[5];
  }

  /** Whatever way a character is written, it is read back. */
  lemma CharBack(c: char, ascii: bool, after: string)
    ensures ReadChar(EscapeChar(c, ascii) + after) == Some((c, |EscapeChar(c, ascii)|))
  {
    hide UnitEscape, ReadHex;
    var n := c as int;
    if Escaped(c, ascii) {
      if n < 0x10000 {
        UnitBack(n, after);
      } else {
        PairBack(n, after);
      }
    }
  }

  lemma PairBack(n: nat, after: string)
    requires 0x10000 <= n < 0x110000
    ensures ReadChar(Units(n) + after) == Some((n as char, 12)) && |Units(n)| == 12
  {
    hide UnitEscape, ReadHex;
    var high, low := 0xD800 + (n - 0x10000) / 1024, 0xDC00 + (n - 0x10000) % 1024;
    var s := UnitEscape(high) + (UnitEscape(low) + after);
    assert Units(n) + after == s;
    UnitBack(high, UnitEscape(low) + after);
    UnitBack(low, after);
    assert s[6..] == UnitEscape(low) + after;
    assert s[6] == s[6..][0] && s[7] == s[6..][1] && s[8..] == s[6..][2..];
  }

  lemma {:induction false} CharsBack(s: string, ascii: bool, after: string)
    ensures ReadChars(EscapeAll(s, ascii) + ("\"" + after)) == Some((s, after))
    decreases |s|
  {
    hide EscapeChar, ReadChar;
    if s == "" {
      assert ("\"" + after)[1..] == after;
      assert EscapeAll(s, ascii) + ("\"" + after) == "\"" + after;
    } else {
      var first, rest := EscapeChar(s[0], ascii), EscapeAll(s[1..], ascii) + ("\"" + after);
      CharBack(s[0], ascii, rest);
      CharsBack(s[1..], ascii, after);
      Regrouped(first, EscapeAll(s[1..], ascii), "\"" + after);
      assert s == [s[0]] + s[1..];
      EscapeStarts(s[0], ascii);
    }
  }

  lemma Regrouped(a: string, b: string, c: string)
    ensures a + b + c == a + (b + c) && (a + (b + c))[|a|..] == b + c
    ensures a != "" ==> (a + (b + c))[0] == a[0]
  {
  }

  lemma EscapeStarts(c: char, ascii: bool)
    ensures |EscapeChar(c, ascii)| >= 1 && EscapeChar(c, ascii)[0] != '\"'
  {
  }

  /** `json.loads` of a quoted string, on all strings, with or without ASCII escapes. */
  lemma QuoteBack(s: string, ascii: bool, after: string)
    ensures (Quote(s, ascii) + after)[0] == '\"'
    ensures ReadChars((Quote(s, ascii) + after)[1..]) == Some((s, after))
  {
    hide ReadChars, EscapeAll;
    CharsBack(s, ascii, after);
    assert (Quote(s, ascii) + after)[1..] == EscapeAll(s, ascii) + ("\"" + after);
  }

  // -------------------------------------------------------------------------- values

  predicate NumberChar(c: char) { '0' <= c <= '9' || c == '-' || c == '+' || c == '.' || c == 'e' || c == 'E' }

  predicate NumberText(text: string) {
    text != "" && (text[0] == '-' || '0' <= text[0] <= '9') && forall i :: 0 <= i < |text| ==> NumberChar(text[i])
  }

  /** The length of the longest number at the front. */
  function NumberLength(s: string): (n: nat)
    ensures n <= |s|
  {
    if s == "" || !NumberChar(s[0]) then 0 else 1 + NumberLength(s[1..])
  }

  function SkipSpace(s: string): (r: string)
    ensures |r| <= |s|
  {
    if s != "" && s[0] in {' ', '\t', '\n', '\r'} then SkipSpace(s[1..]) else s
  }

  /** A value at the front of a text, and what follows it. */
  function ReadValue(s: string): (r: Option<(Json, string)>)
    ensures r.Some? ==> |r.value.1| < |s|
    decreases |s|, 0
  {
    if s == "" then None
    else if s[0] == '\"' then
      var text := ReadChars(s[1..]);
      if text.Some? then Some((Str(text.value.0), text.value.1)) else None
    else if s[0] == '[' then
      if |s| >= 2 && s[1] == ']' then Some((Arr([]), s[2..]))
      else
        var items := ReadItems(s[1..]);
        if items.Some? then Some((Arr(items.value.0), items.value.1)) else None
    else if s[0] == '{' then
      if |s| >= 2 && s[1] == '}' then Some((Obj([]), s[2..]))
      else
        var members := ReadMembers(s[1..]);
        if members.Some? then Some((Obj(members.value.0), members.value.1)) else None
    else if "null" <= s then Some((Null, s[4..]))
    else if "true" <= s then Some((Bool(true), s[4..]))
    else if "false" <= s then Some((Bool(false), s[5..]))
    else if s[0] == '-' || '0' <= s[0] <= '9' then Some((Num(s[..NumberLength(s)]), s[NumberLength(s)..]))
    else None
  }

  function ReadItems(s: string): (r: Option<(seq<Json>, string)>)
    ensures r.Some? ==> |r.value.1| < |s|
    decreases |s|, 1
  {
    var item := ReadValue(s);
    if item.None? || item.value.1 == "" then None
    else
      var after := item.value.1;
      if after[0] == ']' then Some(([item.value.0], after[1..]))
      else if after[0] == ',' then
        var rest := ReadItems(SkipSpace(after[1..]));
        if rest.Some? then Some(([item.value.0] + rest.value.0, rest.value.1)) else None
      else None
  }

  function ReadMembers(s: string): (r: Option<(seq<Member>, string)>)
    ensures r.Some? ==> |r.value.1| < |s|
    decreases |s|, 1
  {
    if s == "" || s[0] != '\"' then None
    else
      var key := ReadChars(s[1..]);
      if key.None? || key.value.1 == "" || key.value.1[0] != ':' then None
      else
        var item := ReadValue(SkipSpace(key.value.1[1..]));
        if item.None? || item.value.1 == "" then None
        else
          var member, after := Member(key.value.0, item.value.0), item.value.1;
          if after[0] == '}' then Some(([member], after[1..]))
          else if after[0] == ',' then
            var rest := ReadMembers(SkipSpace(after[1..]));
            if rest.Some? then Some(([member] + rest.value.0, rest.value.1)) else None
          else None
  }

  // ---------------------------------------------------------------------- round trip

  /** Every number is the text of a number. */
  ghost predicate Numeric(v: Json) {
    match v
    case Num(text) => NumberText(text)
    case Arr(items) => forall i :: 0 <= i < |items| ==> Numeric(items[i])
    case Obj(members) => forall i :: 0 <= i < |members| ==> Numeric(members[i].item)
    case _ => true
  }

  /** The value with its members in the order of their keys, at every depth. */
  function Ordered(v: Json): Json
    decreases v, 1, 0
  {
    match v
    case Arr(items) => Arr(OrderedItems(v, 0))
    case Obj(members) => Obj(OrderedMembers(v, Sorted(Keys(members))))
    case _ => v
  }

  function OrderedItems(v: Json, i: nat): seq<Json>
    requires v.Arr? && i <= |v.items|
    decreases v, 0, |v.items| - i
  {
    if i == |v.items| then [] else [Ordered(v.items[i])] + OrderedItems(v, i + 1)
  }

  function OrderedMembers(v: Json, keys: seq<string>): seq<Member>
    requires v.Obj?
    decreases v, 0, |keys|
  {
    if keys == [] then []
    else
      var child := Child(v, keys[0]);
      (if child.Some? then [Member(keys[0], Ordered(child.value))] else []) + OrderedMembers(v, keys[1..])
  }

  /** A number ends here. */
  predicate Ends(after: string) { after == "" || !NumberChar(after[0]) }

  lemma {:induction false} NumberBack(text: string, after: string)
    requires (forall i :: 0 <= i < |text| ==> NumberChar(text[i])) && Ends(after)
    ensures NumberLength(text + after) == |text|
    decreases |text|
  {
    if text == "" {
      assert text + after == after;
    } else {
      NumberBack(text[1..], after);
      assert (text + after)[1..] == text[1..] + after;
    }
  }

  lemma ScalarBack(v: Json, ascii: bool, gap: bool, after: string)
    requires Scalar(v) && Numeric(v) && Ends(after)
    ensures ReadValue(Dumps(v, ascii, gap) + after) == Some((v, after))
  {
    hide ReadChars;
    var s := Dumps(v, ascii, gap) + after;
    match v
    case Num(text) =>
      NumberBack(text, after);
      assert s[0] == text[0] && s[..|text|] == text && s[|text|..] == after;
      assert "null"[0] == 'n' && "true"[0] == 't' && "false"[0] == 'f';
    case Str(text) => QuoteBack(text, ascii, after);
    case Null => assert s[..4] == "null" && s[4..] == after;
    case Bool(b) =>
      if b { assert s[..4] == "true" && s[4..] == after; } else { assert s[..5] == "false" && s[5..] == after; }
    case _ =>
  }

  /** No value starts with a blank, or with the end of a container. */
  lemma Starts(v: Json, ascii: bool, gap: bool)
    requires WellFormed(v)
    ensures var s := Dumps(v, ascii, gap); s != "" && s[0] !in {' ', '\t', '\n', '\r', ']', '}'}
  {
  }

  function Gap(gap: bool): string { if gap then " " else "" }

  lemma Skipped(s: string, gap: bool)
    requires s != "" && s[0] !in {' ', '\t', '\n', '\r'}
    ensures SkipSpace(Gap(gap) + s) == s
  {
    assert ("" + s) == s;
    assert (" " + s)[1..] == s;
  }

  /** The items from `i` on, without the separator before them. */
  function ItemsFrom(v: Json, i: nat, ascii: bool, gap: bool): string
    requires v.Arr? && i < |v.items|
  {
    Dumps(v.items[i], ascii, gap) + DumpItems(v, i + 1, ascii, gap)
  }

  lemma ItemsNext(v: Json, i: nat, ascii: bool, gap: bool)
    requires v.Arr? && 0 < i < |v.items|
    ensures DumpItems(v, i, ascii, gap) == "," + (Gap(gap) + ItemsFrom(v, i, ascii, gap))
  {
    hide Dumps;
    assert ", " == "," + " ";
  }

  function MembersFrom(v: Json, keys: seq<string>, ascii: bool, gap: bool): string
    requires v.Obj? && keys != [] && Child(v, keys[0]).Some?
  {
    Quote(keys[0], ascii) + (":" + (Gap(gap) + (Dumps(Child(v, keys[0]).value, ascii, gap)
    + DumpMembers(v, keys[1..], ascii, gap))))
  }

  lemma MembersNext(v: Json, keys: seq<string>, ascii: bool, gap: bool)
    requires v.Obj? && keys != [] && Child(v, keys[0]).Some?
    ensures DumpMembers(v, keys, ascii, gap)
            == (if |keys| == |v.members| then "" else "," + Gap(gap)) + MembersFrom(v, keys, ascii, gap)
  {
    hide Dumps, Quote, Child;
    assert ", " == "," + " " && ": " == ":" + " ";
  }

  /** `json.loads(json.dumps(v, sort_keys=True))`, on any values, with or without ASCII escapes and
      blanks after separators, and whatever follows: the value, its members in the order of their
      keys. */
  lemma {:induction false} ValueBack(v: Json, ascii: bool, gap: bool, after: string)
    requires WellFormed(v) && Numeric(v) && Ends(after)
    ensures ReadValue(Dumps(v, ascii, gap) + after) == Some((Ordered(v), after))
    decreases v, 1, 0
  {
    hide ReadValue, ReadItems, ReadMembers, DumpItems, DumpMembers, OrderedItems, OrderedMembers, ItemsFrom,
      MembersFrom;
    if Scalar(v) {
      ScalarBack(v, ascii, gap, after);
    } else if EmptyContainer(v) {
      EmptyText(ascii, gap);
      EmptyBack(v, ascii, gap, after);
    } else if v.Arr? {
      ItemsBack(v, 0, ascii, gap, after);
      ArrayBack(v, ascii, gap, after);
    } else {
      var keys := Sorted(Keys(v.members));
      TokensLead(v);
      SortedAscending(Keys(v.members));
      MembersBack(v, keys, ascii, gap, after);
      ObjectBack(v, ascii, gap, after);
    }
  }

  lemma ArrayBack(v: Json, ascii: bool, gap: bool, after: string)
    requires v.Arr? && v.items != [] && WellFormed(v)
    requires ReadItems(ItemsFrom(v, 0, ascii, gap) + ("]" + after)) == Some((OrderedItems(v, 0), after))
    ensures ReadValue(Dumps(v, ascii, gap) + after) == Some((Ordered(v), after))
  {
    hide ReadItems, ReadMembers, Dumps, OrderedItems, OrderedMembers, ItemsFrom, WellFormed;
    ArrayText(v, ascii, gap, after);
  }

  lemma ObjectBack(v: Json, ascii: bool, gap: bool, after: string)
    requires v.Obj? && v.members != [] && WellFormed(v)
    requires var keys := Sorted(Keys(v.members));
             && |keys| == |v.members| && Child(v, keys[0]).Some?
             && ReadMembers(MembersFrom(v, keys, ascii, gap) + ("}" + after)) == Some((OrderedMembers(v, keys), after))
    ensures ReadValue(Dumps(v, ascii, gap) + after) == Some((Ordered(v), after))
  {
    hide ReadItems, ReadMembers, Dumps, OrderedItems, OrderedMembers, MembersFrom, WellFormed, Child, Sorted, Keys;
    ObjectText(v, ascii, gap, after);
  }

  lemma EmptyBack(v: Json, ascii: bool, gap: bool, after: string)
    requires EmptyContainer(v)
    ensures ReadValue(Dumps(v, ascii, gap) + after) == Some((Ordered(v), after))
  {
    EmptyText(ascii, gap);
    var s := Dumps(v, ascii, gap) + after;
    assert s[2..] == after;
    assert Keys([]) == [];
  }

  lemma ArrayDump(v: Json, ascii: bool, gap: bool)
    requires v.Arr? && v.items != []
    ensures DumpItems(v, 0, ascii, gap) == ItemsFrom(v, 0, ascii, gap)
  {
    hide Dumps;
  }

  lemma ArrayText(v: Json, ascii: bool, gap: bool, after: string)
    requires v.Arr? && v.items != [] && WellFormed(v)
    ensures var inner := ItemsFrom(v, 0, ascii, gap) + ("]" + after);
            && Dumps(v, ascii, gap) + after == "[" + inner && ("[" + inner)[1..] == inner
            && inner != "" && inner[0] != ']'
  {
    hide DumpItems, DumpMembers, ItemsFrom, WellFormed;
    ArrayDump(v, ascii, gap);
    ItemStarts(v, 0, ascii, gap, "]" + after);
    Wrapped("[", ItemsFrom(v, 0, ascii, gap), "]", after);
  }

  lemma Wrapped(open: string, inner: string, close: string, after: string)
    requires |open| == 1
    ensures open + inner + close + after == open + (inner + (close + after))
    ensures (open + (inner + (close + after)))[1..] == inner + (close + after)
  {
  }

  lemma ItemStarts(v: Json, i: nat, ascii: bool, gap: bool, after: string)
    requires v.Arr? && i < |v.items| && WellFormed(v)
    ensures var s := ItemsFrom(v, i, ascii, gap) + after; s != "" && s[0] !in {' ', '\t', '\n', '\r', ']'}
  {
    hide DumpItems;
    Starts(v.items[i], ascii, gap);
    ItemFirst(Dumps(v.items[i], ascii, gap), DumpItems(v, i + 1, ascii, gap), after);
  }

  lemma ItemFirst(a: string, b: string, after: string)
    requires a != ""
    ensures (a + b + after)[0] == a[0]
  {
  }

  lemma ObjectText(v: Json, ascii: bool, gap: bool, after: string)
    requires v.Obj? && v.members != [] && WellFormed(v)
    requires var keys := Sorted(Keys(v.members)); |keys| == |v.members| && Child(v, keys[0]).Some?
    ensures var inner := MembersFrom(v, Sorted(Keys(v.members)), ascii, gap) + ("}" + after);
            && Dumps(v, ascii, gap) + after == "{" + inner && ("{" + inner)[1..] == inner
            && inner != "" && inner[0] == '\"'
  {
    hide Child, Sorted, DumpMembers;
    MembersNext(v, Sorted(Keys(v.members)), ascii, gap);
  }

  lemma LastItem(s: string, item: Json, after: string)
    requires ReadValue(s) == Some((item, "]" + after))
    ensures ReadItems(s) == Some(([item], after))
  {
    hide ReadValue;
    assert ("]" + after)[1..] == after;
  }

  lemma OneMoreItem(s: string, item: Json, rest: string, items: seq<Json>, gap: bool, after: string)
    requires ReadValue(s) == Some((item, "," + (Gap(gap) + rest))) && SkipSpace(Gap(gap) + rest) == rest
    requires ReadItems(rest) == Some((items, after))
    ensures ReadItems(s) == Some(([item] + items, after))
  {
    hide ReadValue, SkipSpace, Gap;
    assert ("," + (Gap(gap) + rest))[1..] == Gap(gap) + rest;
  }

  lemma {:induction false} ItemsBack(v: Json, i: nat, ascii: bool, gap: bool, after: string)
    requires v.Arr? && i < |v.items| && WellFormed(v) && Numeric(v)
    ensures ReadItems(ItemsFrom(v, i, ascii, gap) + ("]" + after)) == Some((OrderedItems(v, i), after))
    decreases v, 0, |v.items| - i
  {
    hide Dumps, ReadValue, ReadItems, Ordered, SkipSpace, DumpItems;
    var item := Dumps(v.items[i], ascii, gap);
    var s := ItemsFrom(v, i, ascii, gap) + ("]" + after);
    if i + 1 == |v.items| {
      NoItemsLeft(v, ascii, gap);
      assert s == item + ("]" + after);
      ValueBack(v.items[i], ascii, gap, "]" + after);
      LastItem(s, Ordered(v.items[i]), after);
      assert OrderedItems(v, i) == [Ordered(v.items[i])];
    } else {
      var next := ItemsFrom(v, i + 1, ascii, gap) + ("]" + after);
      ItemsNext(v, i + 1, ascii, gap);
      assert s == item + ("," + (Gap(gap) + next));
      ValueBack(v.items[i], ascii, gap, "," + (Gap(gap) + next));
      ItemStarts(v, i + 1, ascii, gap, "]" + after);
      Skipped(next, gap);
      ItemsBack(v, i + 1, ascii, gap, after);
      OneMoreItem(s, Ordered(v.items[i]), next, OrderedItems(v, i + 1), gap, after);
    }
  }

  lemma NoItemsLeft(v: Json, ascii: bool, gap: bool)
    requires v.Arr?
    ensures DumpItems(v, |v.items|, ascii, gap) == ""
  {
  }

  lemma LastMember(s: string, key: string, text: string, item: Json, gap: bool, after: string)
    requires s != "" && s[0] == '\"' && ReadChars(s[1..]) == Some((key, ":" + (Gap(gap) + text)))
    requires SkipSpace(Gap(gap) + text) == text && ReadValue(text) == Some((item, "}" + after))
    ensures ReadMembers(s) == Some(([Member(key, item)], after))
  {
    hide ReadValue, SkipSpace, Gap, ReadChars;
    assert (":" + (Gap(gap) + text))[1..] == Gap(gap) + text;
    assert ("}" + after)[1..] == after;
  }

  lemma OneMoreMember(s: string, key: string, text: string, item: Json, rest: string, members: seq<Member>, gap: bool,
      after: string)
    requires s != "" && s[0] == '\"' && ReadChars(s[1..]) == Some((key, ":" + (Gap(gap) + text)))
    requires SkipSpace(Gap(gap) + text) == text && ReadValue(text) == Some((item, "," + (Gap(gap) + rest)))
    requires SkipSpace(Gap(gap) + rest) == rest && ReadMembers(rest) == Some((members, after))
    ensures ReadMembers(s) == Some(([Member(key, item)] + members, after))
  {
    hide ReadValue, SkipSpace, Gap, ReadChars;
    assert (":" + (Gap(gap) + text))[1..] == Gap(gap) + text;
    assert ("," + (Gap(gap) + rest))[1..] == Gap(gap) + rest;
  }

  lemma {:induction false} MembersBack(v: Json, keys: seq<string>, ascii: bool, gap: bool, after: string)
    requires v.Obj? && keys != [] && |keys| <= |v.members| && WellFormed(v) && Numeric(v)
    requires forall k :: k in keys ==> Child(v, k).Some?
    ensures ReadMembers(MembersFrom(v, keys, ascii, gap) + ("}" + after)) == Some((OrderedMembers(v, keys), after))
    decreases v, 0, |keys|
  {
    hide Dumps, ReadValue, ReadMembers, Ordered, SkipSpace, Quote, ReadChars, Child, WellFormed, Numeric, DumpMembers,
      MembersFrom;
    ChildOk(v, keys[0]);
    var child := Child(v, keys[0]).value;
    var s, item := MembersFrom(v, keys, ascii, gap) + ("}" + after), Dumps(child, ascii, gap);
    MemberText(v, keys, ascii, gap, "}" + after);
    if |keys| == 1 {
      NoMembersLeft(v, ascii, gap);
      assert keys[1..] == [] && OrderedMembers(v, keys) == [Member(keys[0], Ordered(child))];
      assert DumpMembers(v, keys[1..], ascii, gap) + ("}" + after) == "}" + after;
      MemberBack(keys[0], child, gap, ascii, "}" + after);
      ValueBack(child, ascii, gap, "}" + after);
      LastMember(s, keys[0], item + ("}" + after), Ordered(child), gap, after);
    } else {
      var next := MembersFrom(v, keys[1..], ascii, gap) + ("}" + after);
      var rest := "," + (Gap(gap) + next);
      MembersNext(v, keys[1..], ascii, gap);
      assert DumpMembers(v, keys[1..], ascii, gap) + ("}" + after) == rest;
      MemberBack(keys[0], child, gap, ascii, rest);
      ValueBack(child, ascii, gap, rest);
      KeyStarts(v, keys[1..], ascii, gap, "}" + after);
      Skipped(next, gap);
      MembersBack(v, keys[1..], ascii, gap, after);
      OneMoreMember(s, keys[0], item + rest, Ordered(child), next, OrderedMembers(v, keys[1..]), gap, after);
    }
  }

  lemma NoMembersLeft(v: Json, ascii: bool, gap: bool)
    requires v.Obj?
    ensures DumpMembers(v, [], ascii, gap) == ""
  {
  }

  lemma ChildOk(v: Json, key: string)
    requires WellFormed(v) && Numeric(v) && Child(v, key).Some?
    ensures WellFormed(Child(v, key).value) && Numeric(Child(v, key).value)
  {
  }

  lemma MemberText(v: Json, keys: seq<string>, ascii: bool, gap: bool, after: string)
    requires v.Obj? && keys != [] && Child(v, keys[0]).Some?
    ensures MembersFrom(v, keys, ascii, gap) + after
            == Quote(keys[0], ascii) + (":" + (Gap(gap) + (Dumps(Child(v, keys[0]).value, ascii, gap)
                 + (DumpMembers(v, keys[1..], ascii, gap) + after))))
  {
    hide Dumps, Quote, Child, DumpMembers;
  }

  lemma KeyStarts(v: Json, keys: seq<string>, ascii: bool, gap: bool, after: string)
    requires v.Obj? && keys != [] && Child(v, keys[0]).Some?
    ensures MembersFrom(v, keys, ascii, gap) != "" && (MembersFrom(v, keys, ascii, gap) + after)[0] == '\"'
  {
    hide Dumps, Child, DumpMembers;
  }

  /** The key is read, and then the value comes. */
  lemma MemberBack(key: string, child: Json, gap: bool, ascii: bool, rest: string)
    requires WellFormed(child)
    ensures var text := Dumps(child, ascii, gap) + rest;
            var s := Quote(key, ascii) + (":" + (Gap(gap) + text));
            && s != "" && s[0] == '\"' && ReadChars(s[1..]) == Some((key, ":" + (Gap(gap) + text)))
            && SkipSpace(Gap(gap) + text) == text
  {
    hide Dumps, ReadChars;
    var text := Dumps(child, ascii, gap) + rest;
    QuoteBack(key, ascii, ":" + (Gap(gap) + text));
    Starts(child, ascii, gap);
    Skipped(text, gap);
  }

  /** On its own a document is read back to its end. */
  lemma DumpsBack(v: Json, ascii: bool, gap: bool)
    requires WellFormed(v) && Numeric(v)
    ensures ReadValue(Dumps(v, ascii, gap)) == Some((Ordered(v), ""))
  {
    ValueBack(v, ascii, gap, "");
    assert Dumps(v, ascii, gap) + "" == Dumps(v, ascii, gap);
  }

  // ----------------------------------------------------- what the canonical text decides

  lemma {:induction false} OrderedItemsAre(v: Json, i: nat)
    requires v.Arr? && i <= |v.items|
    ensures |OrderedItems(v, i)| == |v.items| - i
    ensures forall k :: 0 <= k < |v.items| - i ==> OrderedItems(v, i)[k] == Ordered(v.items[i + k])
    decreases |v.items| - i
  {
    hide Ordered;
    if i < |v.items| { OrderedItemsAre(v, i + 1); }
  }

  lemma {:induction false} OrderedMembersAre(v: Json, keys: seq<string>)
    requires v.Obj? && forall k :: k in keys ==> Child(v, k).Some?
    ensures |OrderedMembers(v, keys)| == |keys|
    ensures forall k :: 0 <= k < |keys| ==>
      OrderedMembers(v, keys)[k] == Member(keys[k], Ordered(Child(v, keys[k]).value))
    decreases |keys|
  {
    hide Ordered, Child;
    if keys != [] { OrderedMembersAre(v, keys[1..]); }
  }

  lemma IndexChild(v: Json, i: nat)
    requires v.Arr? && i < |v.items|
    ensures Child(v, Decimal(i)) == Some(v.items[i]) && Decimal(i) in Tokens(v)
  {
    NumberDecimal(i);
    assert Tokens(v)[i] == Decimal(i);
  }

  /** Two values are equal up to the order of their members exactly when they are ordered alike. */
  lemma {:induction false} AlikeOrdered(v: Json, w: Json)
    requires WellFormed(v) && WellFormed(w)
    ensures Alike(v, w, false) <==> Ordered(v) == Ordered(w)
    decreases v
  {
    if Scalar(v) || EmptyContainer(v) || Scalar(w) || EmptyContainer(w) {
      PlainOrdered(v, w);
    } else if v.Arr? && w.Arr? {
      forall i: nat | i < |v.items| && i < |w.items|
        ensures Alike(v.items[i], w.items[i], false) <==> Ordered(v.items[i]) == Ordered(w.items[i]) {
        AlikeOrdered(v.items[i], w.items[i]);
      }
      ArraysOrdered(v, w);
    } else if v.Obj? && w.Obj? {
      TokensLead(v);
      TokensLead(w);
      forall t | Child(v, t).Some? && Child(w, t).Some?
        ensures Alike(Child(v, t).value, Child(w, t).value, false)
                <==> Ordered(Child(v, t).value) == Ordered(Child(w, t).value) {
        AlikeOrdered(Child(v, t).value, Child(w, t).value);
      }
      ObjectsOrdered(v, w);
    }
  }

  lemma PlainOrdered(v: Json, w: Json)
    requires WellFormed(v) && WellFormed(w)
    requires Scalar(v) || EmptyContainer(v) || Scalar(w) || EmptyContainer(w)
    ensures v == w <==> Ordered(v) == Ordered(w)
  {
    PlainStays(v);
    PlainStays(w);
  }

  /** What is not a container with something in it stays, and nothing else becomes such a value. */
  lemma PlainStays(v: Json)
    requires WellFormed(v)
    ensures Scalar(v) || EmptyContainer(v) ==> Ordered(v) == v
    ensures Scalar(Ordered(v)) || EmptyContainer(Ordered(v)) ==> Scalar(v) || EmptyContainer(v)
  {
    match v
    case Arr(items) => OrderedItemsAre(v, 0);
    case Obj(members) =>
      TokensLead(v);
      SortedAscending(Keys(members));
      OrderedMembersAre(v, Tokens(v));
    case _ =>
  }

  lemma OrderedArray(v: Json)
    requires v.Arr?
    ensures Ordered(v) == Arr(OrderedItems(v, 0))
  {
  }

  lemma SameItems(v: Json, w: Json)
    requires v.Arr? && w.Arr?
    ensures OrderedItems(v, 0) == OrderedItems(w, 0) <==>
      |v.items| == |w.items| && forall i: nat :: i < |v.items| ==> Ordered(v.items[i]) == Ordered(w.items[i])
  {
    hide Ordered, OrderedItems;
    OrderedItemsAre(v, 0);
    OrderedItemsAre(w, 0);
    if OrderedItems(v, 0) == OrderedItems(w, 0) {
      forall i: nat | i < |v.items| ensures Ordered(v.items[i]) == Ordered(w.items[i]) {
        assert OrderedItems(v, 0)[i] == OrderedItems(w, 0)[i];
      }
    }
  }

  lemma ArraysOrdered(v: Json, w: Json)
    requires v.Arr? && w.Arr? && v.items != [] && w.items != []
    requires forall i: nat :: i < |v.items| && i < |w.items| ==>
      (Alike(v.items[i], w.items[i], false) <==> Ordered(v.items[i]) == Ordered(w.items[i]))
    ensures Alike(v, w, false) <==> Ordered(v) == Ordered(w)
  {
    hide Alike, Ordered, OrderedItems;
    ItemsAlike(v, w);
    OrderedArray(v);
    OrderedArray(w);
    SameItems(v, w);
  }

  /** Arrays are alike when they are item by item. */
  lemma ItemsAlike(v: Json, w: Json)
    requires v.Arr? && w.Arr? && v.items != [] && w.items != []
    ensures Alike(v, w, false) <==>
      |v.items| == |w.items| && forall i: nat :: i < |v.items| ==> Alike(v.items[i], w.items[i], false)
  {
    if Alike(v, w, false) {
      SameLength(v, w);
      forall i: nat | i < |v.items| ensures Alike(v.items[i], w.items[i], false) {
        IndexChild(v, i);
        IndexChild(w, i);
      }
    }
    if |v.items| == |w.items| && forall i: nat :: i < |v.items| ==> Alike(v.items[i], w.items[i], false) {
      ItemsSuffice(v, w);
    }
  }

  lemma ItemsSuffice(v: Json, w: Json)
    requires v.Arr? && w.Arr? && |v.items| == |w.items| > 0
    requires forall i: nat :: i < |v.items| ==> Alike(v.items[i], w.items[i], false)
    ensures Alike(v, w, false)
  {
    hide Child;
    assert Tokens(v) == Tokens(w);
    forall t | t in Tokens(v) && Child(v, t).Some? && Child(w, t).Some?
      ensures Alike(Child(v, t).value, Child(w, t).value, false) {
      var i :| 0 <= i < |v.items| && Tokens(v)[i] == t;
      IndexChild(v, i);
      IndexChild(w, i);
    }
  }

  lemma SameLength(v: Json, w: Json)
    requires v.Arr? && w.Arr? && forall t :: t in Tokens(v) <==> t in Tokens(w)
    ensures |v.items| == |w.items|
  {
    if |v.items| < |w.items| {
      IndexChild(w, |v.items|);
      ItemTokens(v.items, Decimal(|v.items|));
      NumberDecimal(|v.items|);
    } else if |w.items| < |v.items| {
      IndexChild(v, |w.items|);
      ItemTokens(w.items, Decimal(|w.items|));
      NumberDecimal(|w.items|);
    }
  }

  lemma ObjectsOrdered(v: Json, w: Json)
    requires v.Obj? && w.Obj? && WellFormed(v) && WellFormed(w) && v.members != [] && w.members != []
    requires forall t :: Child(v, t).Some? && Child(w, t).Some? ==>
      (Alike(Child(v, t).value, Child(w, t).value, false)
       <==> Ordered(Child(v, t).value) == Ordered(Child(w, t).value))
    ensures Alike(v, w, false) <==> Ordered(v) == Ordered(w)
  {
    hide Child, WellFormed, Sorted, Keys, Below;
    var a, b := Tokens(v), Tokens(w);
    ObjectTokens(v);
    ObjectTokens(w);
    OrderedMembersAre(v, a);
    OrderedMembersAre(w, b);
    if Alike(v, w, false) {
      AscendingUnique(a, b);
      assert OrderedMembers(v, a) == OrderedMembers(w, b);
    }
    if Ordered(v) == Ordered(w) {
      forall k | 0 <= k < |a| ensures k < |b| && a[k] == b[k]
        && Ordered(Child(v, a[k]).value) == Ordered(Child(w, b[k]).value) {
        assert OrderedMembers(v, a)[k] == OrderedMembers(w, b)[k];
      }
      assert a == b;
    }
  }

  lemma ObjectTokens(v: Json)
    requires v.Obj? && WellFormed(v)
    ensures Tokens(v) == Sorted(Keys(v.members)) && Ascending(Tokens(v)) && |Tokens(v)| == |v.members|
    ensures forall t :: t in Tokens(v) <==> Child(v, t).Some?
  {
    TokensLead(v);
    SortedAscending(Keys(v.members));
  }

  lemma {:induction false} PositionOf(members: seq<Member>, i: nat)
    requires Distinct(Keys(members)) && i < |members|
    ensures Position(members, members[i].key) == Some(i)
  {
    var p := Position(members, members[i].key);
    assert Keys(members)[i] == members[i].key;
    if p.Some? { assert Keys(members)[p.value] == Keys(members)[i]; }
  }

  /** What lies under a key is ordered, and lies there still. */
  lemma OrderedChild(v: Json, i: nat)
    requires v.Obj? && WellFormed(v) && i < |v.members|
    ensures var key := Tokens(v)[i];
            && |Tokens(v)| == |v.members| && Child(v, key).Some?
            && Child(Ordered(v), key) == Some(Ordered(Child(v, key).value))
  {
    var keys := Tokens(v);
    ObjectTokens(v);
    OrderedMembersAre(v, keys);
    assert Keys(Ordered(v).members) == keys;
    AscendingDistinct(keys);
    PositionOf(Ordered(v).members, i);
  }

  lemma OrderedTokens(v: Json)
    requires v.Obj? && WellFormed(v)
    ensures Ordered(v).Obj? && |Ordered(v).members| == |v.members|
    ensures Sorted(Keys(Ordered(v).members)) == Tokens(v)
  {
    var keys := Tokens(v);
    ObjectTokens(v);
    OrderedMembersAre(v, keys);
    assert Keys(Ordered(v).members) == keys;
    AscendingDistinct(keys);
    SortedAscending(keys);
    AscendingUnique(Sorted(keys), keys);
  }

  /** Ordering the members changes nothing of the text, which orders them anyway. */
  lemma {:induction false} OrderedText(v: Json, ascii: bool, gap: bool)
    requires WellFormed(v)
    ensures Dumps(Ordered(v), ascii, gap) == Dumps(v, ascii, gap)
    decreases v, 1, 0
  {
    match v
    case Arr(items) =>
      OrderedItemsAre(v, 0);
      ItemsText(v, 0, ascii, gap);
    case Obj(members) =>
      OrderedTokens(v);
      ObjectTokens(v);
      MembersText(v, 0, ascii, gap);
      assert Tokens(v)[0..] == Tokens(v);
    case _ =>
  }

  lemma {:induction false} ItemsText(v: Json, i: nat, ascii: bool, gap: bool)
    requires v.Arr? && WellFormed(v) && i <= |v.items| && |Ordered(v).items| == |v.items|
    ensures DumpItems(Ordered(v), i, ascii, gap) == DumpItems(v, i, ascii, gap)
    decreases v, 0, |v.items| - i
  {
    hide Dumps;
    if i < |v.items| {
      OrderedItemsAre(v, 0);
      OrderedText(v.items[i], ascii, gap);
      ItemsText(v, i + 1, ascii, gap);
      assert Ordered(v).items[i] == Ordered(v.items[i]);
    }
  }

  lemma {:induction false} MembersText(v: Json, i: nat, ascii: bool, gap: bool)
    requires v.Obj? && WellFormed(v) && i <= |Tokens(v)| == |v.members|
    requires Ordered(v).Obj? && |Ordered(v).members| == |v.members|
    ensures DumpMembers(Ordered(v), Tokens(v)[i..], ascii, gap) == DumpMembers(v, Tokens(v)[i..], ascii, gap)
    decreases v, 0, |v.members| - i
  {
    hide Dumps, Child, Tokens, Ordered, WellFormed;
    if i < |v.members| {
      OrderedChild(v, i);
      var key, rest := Tokens(v)[i], Tokens(v)[i + 1..];
      ChildSmaller(v, key);
      OrderedText(Child(v, key).value, ascii, gap);
      MembersText(v, i + 1, ascii, gap);
      assert Tokens(v)[i..][1..] == rest && Tokens(v)[i..][0] == key;
    }
  }

  lemma ChildSmaller(v: Json, key: string)
    requires v.Obj? && WellFormed(v) && Child(v, key).Some?
    ensures Child(v, key).value < v && WellFormed(Child(v, key).value)
  {
  }

  /** The canonical text decides a value exactly, up to the order of members. */
  lemma DumpsDecide(v: Json, w: Json, ascii: bool, gap: bool)
    requires WellFormed(v) && WellFormed(w) && Numeric(v) && Numeric(w)
    ensures Dumps(v, ascii, gap) == Dumps(w, ascii, gap) <==> Alike(v, w, false)
  {
    DumpsBack(v, ascii, gap);
    DumpsBack(w, ascii, gap);
    AlikeOrdered(v, w);
    if Ordered(v) == Ordered(w) {
      OrderedText(v, ascii, gap);
      OrderedText(w, ascii, gap);
    }
  }
}
