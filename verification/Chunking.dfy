/**
  Long JSON under a hard cell limit: `_identity_fragments`, the dataset chunks of
  `eligibility_workbook_projection` and the literal check of `preflight_eligibility_package`,
  all in src/app/composite_reporting/eligibility_tables.py.
*/
module Chunking {
  import opened Wrappers
  import opened Text
  import opened Json
  import opened JsonText
  import opened JsonReader
  import opened Sorting

  const CELL_LIMIT: nat := 32767
  const CHUNK: nat := 16000

  datatype Field = Field(key: string, value: string)

  /** `ceil(n / 16000)`. */
  function ChunkCount(n: nat): nat { (n + CHUNK - 1) / CHUNK }

  function Clamp(n: nat, length: nat): nat { if n <= length then n else length }

  /** `canonical[index * 16000 : (index + 1) * 16000]`. */
  function Chunk(canonical: string, index: nat): string {
    canonical[Clamp(index * CHUNK, |canonical|)..Clamp((index + 1) * CHUNK, |canonical|)]
  }

  function Chunks(canonical: string, count: nat): seq<string> {
    seq(count, i requires 0 <= i < count => Chunk(canonical, i))
  }

  /** The count is the least that covers the text: no chunk is empty, and only the last is short. */
  lemma CountIsCeiling(canonical: string, i: nat)
    requires i < ChunkCount(|canonical|)
    ensures |canonical| <= ChunkCount(|canonical|) * 16000 && (ChunkCount(|canonical|) - 1) * 16000 < |canonical|
    ensures 0 < |Chunk(canonical, i)| <= 16000
    ensures i < ChunkCount(|canonical|) - 1 ==> |Chunk(canonical, i)| == 16000
  {
    assert i * CHUNK <= (ChunkCount(|canonical|) - 1) * CHUNK < |canonical|;
  }

  function Join(parts: seq<string>): string {
    if parts == [] then "" else Join(parts[..|parts| - 1]) + parts[|parts| - 1]
  }

  /** The first chunks, put together again, are the front of the text. */
  lemma {:induction false} ChunksRejoin(canonical: string, count: nat)
    ensures Join(Chunks(canonical, count)) == canonical[..Clamp(count * CHUNK, |canonical|)]
    decreases count
  {
    if count > 0 {
      ChunksRejoin(canonical, count - 1);
      assert Chunks(canonical, count)[..count - 1] == Chunks(canonical, count - 1);
      var a, b := Clamp((count - 1) * CHUNK, |canonical|), Clamp(count * CHUNK, |canonical|);
      assert canonical[..b] == canonical[..a] + canonical[a..b];
    }
  }

  // ----------------------------------------------------------------------- re-reading

  /** `json.loads` of a string, and of nothing beside it. */
  function Unquoted(quoted: string): Option<string> {
    var read := ReadValue(quoted);
    if read.Some? && read.value.0.Str? && read.value.1 == "" then Some(read.value.0.text) else None
  }

  lemma QuoteRoundTrip(s: string)
    ensures Unquoted(Quote(s, true)) == Some(s) && Printable(Quote(s, true))
    ensures Printable(s) ==> |s| + 2 <= |Quote(s, true)| <= 2 * |s| + 2
  {
    DumpsBack(Str(s), true, true);
    QuotePrintable(s);
    if Printable(s) { QuoteDoubles(s, true); }
  }

  // --------------------------------------------------------------------- the fragments

  /** `f"{index:06d}"`. */
  function Padded(index: nat): string { Zeros(6, |Decimal(index)|) + Decimal(index) }

  function Zeros(width: nat, used: nat): string
    decreases width - used
  {
    if used >= width then "" else "0" + Zeros(width, used + 1)
  }

  /** It is a number of at least six digits, and of six below a million. */
  lemma PaddedReads(index: nat)
    ensures (forall i :: 0 <= i < |Padded(index)| ==> '0' <= Padded(index)[i] <= '9') && Number(Padded(index)) == index
    ensures |Padded(index)| >= 6 && (index < 1000000 ==> |Padded(index)| == 6)
  {
    ZerosAre(6, |Decimal(index)|);
    LeadingZeros(Zeros(6, |Decimal(index)|), Decimal(index));
    NumberDecimal(index);
    DigitsBelow(index, 6);
    assert Pow10(6) == 1000000 by { Pow10Sum(3, 3); assert Pow10(3) == 1000 by { Pow10Sum(1, 2); } }
  }

  lemma {:induction false} ZerosAre(width: nat, used: nat)
    ensures |Zeros(width, used)| == if used >= width then 0 else width - used
    ensures forall i :: 0 <= i < |Zeros(width, used)| ==> Zeros(width, used)[i] == '0'
    decreases width - used
  {
    if used < width { ZerosAre(width, used + 1); }
  }

  lemma {:induction false} LeadingZeros(zeros: string, s: string)
    requires (forall i :: 0 <= i < |zeros| ==> zeros[i] == '0') && forall i :: 0 <= i < |s| ==> '0' <= s[i] <= '9'
    ensures Number(zeros + s) == Number(s)
    decreases |s|, |zeros|
  {
    if s == "" {
      assert zeros + s == zeros;
      if zeros != "" {
        LeadingZeros(zeros[..|zeros| - 1], "");
        assert zeros[..|zeros| - 1] + "" == zeros[..|zeros| - 1];
      }
    } else {
      LeadingZeros(zeros, s[..|s| - 1]);
      assert (zeros + s)[..|zeros + s| - 1] == zeros + s[..|s| - 1];
    }
  }

  /** `sha256(...).hexdigest()`. */
  predicate IsDigest(s: string) {
    |s| == 64 && forall i :: 0 <= i < |s| ==> '0' <= s[i] <= '9' || 'a' <= s[i] <= 'f'
  }

  /** The descriptor of a chunked field. */
  function DescriptorOf(count: nat, length: nat, digest: string): Json {
    Obj([Member("encoding", Str("ordered_json_text_v1")), Member("count", Num(Decimal(count))),
         Member("utf8_bytes", Num(Decimal(length))), Member("sha256", Str(digest))])
  }

  function Descriptor(count: nat, length: nat, digest: string): string {
    Dumps(DescriptorOf(count, length, digest), true, true)
  }

  lemma FirstBelow(a: string, b: string)
    requires a != "" && b != "" && a[0] < b[0]
    ensures Below(a, b)
  {
  }

  /** Four keys with ascending first letters are in order. */
  lemma FourInOrder(a: string, b: string, c: string, d: string)
    requires a != "" && b != "" && c != "" && d != "" && a[0] < b[0] && b[0] < c[0] && c[0] < d[0]
    ensures Distinct([b, a, d, c]) && Sorted([b, a, d, c]) == [a, b, c, d]
  {
    hide Below, Sorted;
    FirstBelow(a, b);
    FirstBelow(a, c);
    FirstBelow(a, d);
    FirstBelow(b, c);
    FirstBelow(b, d);
    FirstBelow(c, d);
    SortedAscending([b, a, d, c]);
    AscendingUnique(Sorted([b, a, d, c]), [a, b, c, d]);
  }

  lemma DescriptorKeys(count: nat, length: nat, digest: string)
    ensures var v := DescriptorOf(count, length, digest);
            && Distinct(Keys(v.members)) && Sorted(Keys(v.members)) == ["count", "encoding", "sha256", "utf8_bytes"]
  {
    hide Sorted, Distinct;
    var v := DescriptorOf(count, length, digest);
    assert Keys(v.members) == ["encoding", "count", "utf8_bytes", "sha256"];
    FourInOrder("count", "encoding", "sha256", "utf8_bytes");
  }

  lemma NumeralOk(n: nat)
    ensures NumberText(Decimal(n)) && Printable(Decimal(n)) && Decimal(n) != "" && '0' <= Decimal(n)[0] <= '9'
  {
  }

  lemma MembersOk(members: seq<Member>)
    requires Distinct(Keys(members))
    requires forall m :: m in members ==> WellFormed(m.item) && Numeric(m.item) && PlainNumbers(m.item)
    ensures var v := Obj(members); WellFormed(v) && Numeric(v) && PlainNumbers(v)
  {
  }

  lemma ItemsOk(n: nat, text: string)
    ensures WellFormed(Num(Decimal(n))) && Numeric(Num(Decimal(n))) && PlainNumbers(Num(Decimal(n)))
    ensures WellFormed(Str(text)) && Numeric(Str(text)) && PlainNumbers(Str(text))
  {
    NumeralOk(n);
  }

  lemma DescriptorOk(count: nat, length: nat, digest: string)
    ensures var v := DescriptorOf(count, length, digest); WellFormed(v) && Numeric(v) && PlainNumbers(v)
  {
    hide Distinct, Decimal, WellFormed, Numeric, PlainNumbers, Keys, Sorted;
    DescriptorKeys(count, length, digest);
    ItemsOk(count, digest);
    ItemsOk(length, "ordered_json_text_v1");
    MembersOk(DescriptorOf(count, length, digest).members);
  }

  lemma DescriptorChildren(count: nat, length: nat, digest: string)
    ensures var v := DescriptorOf(count, length, digest);
            && Child(v, "count") == Some(Num(Decimal(count))) && Child(v, "utf8_bytes") == Some(Num(Decimal(length)))
            && Child(v, "encoding") == Some(Str("ordered_json_text_v1")) && Child(v, "sha256") == Some(Str(digest))
  {
    hide Distinct, Decimal, Child, Keys;
    DescriptorKeys(count, length, digest);
    var members := DescriptorOf(count, length, digest).members;
    ChildOf(members, 0);
    ChildOf(members, 1);
    ChildOf(members, 2);
    ChildOf(members, 3);
  }

  lemma ChildOf(members: seq<Member>, i: nat)
    requires Distinct(Keys(members)) && i < |members|
    ensures Child(Obj(members), members[i].key) == Some(members[i].item)
  {
    PositionOf(members, i);
  }

  /** What it is read back as: the four facts, in the order of their keys. */
  lemma DescriptorReads(count: nat, length: nat, digest: string)
    ensures ReadValue(Descriptor(count, length, digest))
            == Some((Obj([Member("count", Num(Decimal(count))), Member("encoding", Str("ordered_json_text_v1")),
                          Member("sha256", Str(digest)), Member("utf8_bytes", Num(Decimal(length)))]), ""))
  {
    hide Decimal, ReadValue, Child, Dumps, Sorted, Keys, OrderedMembers;
    var v := DescriptorOf(count, length, digest);
    var keys := ["count", "encoding", "sha256", "utf8_bytes"];
    DescriptorOk(count, length, digest);
    DumpsBack(v, true, true);
    DescriptorKeys(count, length, digest);
    DescriptorChildren(count, length, digest);
    OrderedMembersAre(v, keys);
    assert OrderedMembers(v, keys) == [Member("count", Num(Decimal(count))),
      Member("encoding", Str("ordered_json_text_v1")), Member("sha256", Str(digest)),
      Member("utf8_bytes", Num(Decimal(length)))];
  }

  function ChunkField(key: string, canonical: string, index: nat): Field {
    Field(key + "__chunk_" + Padded(index), Quote(Chunk(canonical, index), true))
  }

  function ChunkFields(key: string, canonical: string): seq<Field> {
    seq(ChunkCount(|canonical|), i requires 0 <= i < ChunkCount(|canonical|) => ChunkField(key, canonical, i))
  }

  /** What one field becomes. */
  function Fragments(key: string, canonical: string, digest: string -> string): seq<Field> {
    if |canonical| <= CELL_LIMIT then [Field(key, canonical)]
    else
      [Field(key + "__chunks", Descriptor(ChunkCount(|canonical|), |canonical|, digest(canonical)))]
      + ChunkFields(key, canonical)
  }

  function AllFragments(fields: seq<Member>, digest: string -> string): seq<Field> {
    if fields == [] then []
    else
      var last := fields[|fields| - 1];
      AllFragments(fields[..|fields| - 1], digest) + Fragments(last.key, Dumps(last.item, true, true), digest)
  }

  /** `_identity_fragments`, with SHA-256 as a parameter. */
  method IdentityFragments(fields: seq<Member>, digest: string -> string) returns (result: seq<Field>)
    ensures result == AllFragments(fields, digest)
  {
    result := [];
    for f := 0 to |fields|
      invariant result == AllFragments(fields[..f], digest)
    {
      assert fields[..f + 1][..f] == fields[..f];
      var key, canonical := fields[f].key, Dumps(fields[f].item, true, true);
      if |canonical| <= CELL_LIMIT {
        result := result + [Field(key, canonical)];
      } else {
        var count := ChunkCount(|canonical|);
        var descriptor := Field(key + "__chunks", Descriptor(count, |canonical|, digest(canonical)));
        result := result + ([descriptor] + ChunkFields(key, canonical));
      }
    }
    assert fields[..|fields|] == fields;
  }

  // ------------------------------------------------------------------ the literal check

  /** `len(value.encode("utf-16-le")) // 2`. */
  function Utf16Units(value: string): nat {
    if value == "" then 0
    else Utf16Units(value[..|value| - 1]) + if value[|value| - 1] as int < 0x10000 then 1 else 2
  }

  /** What the preflight demands of every cell. */
  predicate LiteralOk(value: string) {
    && Utf16Units(value) <= CELL_LIMIT
    && forall i :: 0 <= i < |value| ==> value[i] >= ' ' || value[i] == '\t' || value[i] == '\r' || value[i] == '\n'
  }

  /** A character counts as many units as it takes `\uXXXX` escapes, and a text what its parts count. */
  lemma {:induction false} UnitsAdd(a: string, b: string)
    ensures Utf16Units(a + b) == Utf16Units(a) + Utf16Units(b)
    ensures forall c: char :: 6 * Utf16Units([c]) == |Units(c as int)|
    decreases |b|
  {
    if b == "" {
      assert a + b == a;
    } else {
      UnitsAdd(a, b[..|b| - 1]);
      assert (a + b)[..|a + b| - 1] == a + b[..|b| - 1];
    }
    forall c: char ensures 6 * Utf16Units([c]) == |Units(c as int)| {
      assert [c][..0] == "";
    }
  }

  /** The preflight by code points: at most 32,767 units, and no control characters but tab, line feed
      and carriage return. */
  lemma LiteralCodes(value: string)
    ensures LiteralOk(value) <==>
      Utf16Units(value) <= 32767 && forall i :: 0 <= i < |value| ==>
        value[i] as int >= 32 || value[i] as int == 9 || value[i] as int == 10 || value[i] as int == 13
  {
  }

  lemma {:induction false} PrintableUnits(value: string)
    requires Printable(value)
    ensures Utf16Units(value) == |value|
  {
    if value != "" { PrintableUnits(value[..|value| - 1]); }
  }

  lemma PrintableOk(value: string)
    requires Printable(value)
    ensures LiteralOk(value) <==> |value| <= CELL_LIMIT
  {
    PrintableUnits(value);
  }

  lemma ChunkPrintable(canonical: string, i: nat)
    requires Printable(canonical) && i < ChunkCount(|canonical|)
    ensures Printable(Chunk(canonical, i)) && |Chunk(canonical, i)| <= CHUNK
  {
    CountIsCeiling(canonical, i);
  }

  /** The chunks of a document under the cell limit: they re-join to the document, and each of
      them fits its cell although quoting can double it. */
  lemma ChunksFit(key: string, canonical: string)
    requires Printable(canonical)
    ensures var fields := ChunkFields(key, canonical);
            && |fields| == ChunkCount(|canonical|)
            && Join(Chunks(canonical, |fields|)) == canonical
            && (forall i :: 0 <= i < |fields| ==>
                  && Unquoted(fields[i].value) == Some(Chunks(canonical, |fields|)[i])
                  && |fields[i].value| <= 2 * CHUNK + 2 && LiteralOk(fields[i].value))
  {
    hide Unquoted, Quote, Chunk, Printable, LiteralOk, Padded, Join;
    var fields := ChunkFields(key, canonical);
    forall i | 0 <= i < |fields|
      ensures Unquoted(fields[i].value) == Some(Chunks(canonical, |fields|)[i])
              && |fields[i].value| <= 2 * CHUNK + 2 && LiteralOk(fields[i].value) {
      ChunkPrintable(canonical, i);
      QuoteRoundTrip(Chunk(canonical, i));
      PrintableOk(fields[i].value);
    }
    ChunksRejoin(canonical, |fields|);
    assert canonical[..|canonical|] == canonical;
  }

  /** The bound is reached: a chunk of quotation marks doubles. */
  lemma DoublingReached(key: string, canonical: string, i: nat)
    requires i < ChunkCount(|canonical|) && |Chunk(canonical, i)| == CHUNK
    requires forall k :: 0 <= k < CHUNK ==> Chunk(canonical, i)[k] == '\"'
    ensures |ChunkFields(key, canonical)[i].value| == 2 * CHUNK + 2
  {
    QuoteDoubles(Chunk(canonical, i), true);
  }

  /** Text that needs no escapes stands in its quotation marks as it is. */
  lemma {:induction false} NoEscapes(s: string)
    requires Printable(s) && '\"' !in s && '\\' !in s
    ensures EscapeAll(s, true) == s
  {
    hide EscapeChar;
    if s != "" {
      EscapePrintable(s[0], true);
      NoEscapes(s[1..]);
      assert s == [s[0]] + s[1..];
    }
  }

  lemma PlainQuoted(s: string)
    requires Printable(s) && '\"' !in s && '\\' !in s
    ensures |Quote(s, true)| == |s| + 2
  {
    NoEscapes(s);
  }

  /** How long a member is in its place: a separator, the key, a colon and a blank, the value. */
  lemma MemberLength(v: Json, keys: seq<string>, value: string)
    requires v.Obj? && keys != [] && Printable(keys[0]) && '\"' !in keys[0] && '\\' !in keys[0]
    requires Child(v, keys[0]).Some? && Dumps(Child(v, keys[0]).value, true, true) == value
    ensures |DumpMembers(v, keys, true, true)|
            == (if |keys| == |v.members| then 0 else 2) + |keys[0]| + 4 + |value|
               + |DumpMembers(v, keys[1..], true, true)|
  {
    hide Dumps, Child, Quote, Printable;
    MembersNext(v, keys, true, true);
    PlainQuoted(keys[0]);
  }

  lemma DescriptorNames()
    ensures forall s :: s in ["count", "encoding", "sha256", "utf8_bytes"] ==>
      Printable(s) && '\"' !in s && '\\' !in s
    ensures |"count"| == 5 && |"encoding"| == 8 && |"sha256"| == 6 && |"utf8_bytes"| == 10
  {
  }

  lemma EncodingName()
    ensures var s := "ordered_json_text_v1"; Printable(s) && '\"' !in s && '\\' !in s && |s| == 20
  {
  }

  lemma DumpsAre(v: Json, text: string)
    ensures Dumps(Num(text), true, true) == text && Dumps(Str(text), true, true) == Quote(text, true)
    ensures v.Obj? ==> |Dumps(v, true, true)| == 2 + |DumpMembers(v, Sorted(Keys(v.members)), true, true)|
  {
    hide Quote, DumpMembers, Sorted, Keys;
  }

  lemma DescriptorParts(count: nat, length: nat, digest: string)
    requires IsDigest(digest)
    ensures var v := DescriptorOf(count, length, digest);
            var keys := Sorted(Keys(v.members));
            && |keys| == |v.members| == 4
            && (forall k :: k in keys ==> Printable(k) && '\"' !in k && '\\' !in k && Child(v, k).Some?)
            && |keys[0]| == 5 && |keys[1]| == 8 && |keys[2]| == 6 && |keys[3]| == 10
            && Child(v, keys[0]).value == Num(Decimal(count)) && Child(v, keys[3]).value == Num(Decimal(length))
            && Child(v, keys[1]).value == Str("ordered_json_text_v1") && Child(v, keys[2]).value == Str(digest)
  {
    hide Child, Printable, Decimal, Sorted, Distinct, Keys, IsDigest;
    DescriptorKeys(count, length, digest);
    DescriptorChildren(count, length, digest);
    DescriptorNames();
  }

  lemma DescriptorLength(count: nat, length: nat, digest: string)
    requires IsDigest(digest)
    ensures |Descriptor(count, length, digest)| == 77 + 64 + |Decimal(count)| + |Decimal(length)|
    ensures Printable(Descriptor(count, length, digest))
  {
    hide Child, Printable, Decimal, Sorted, Distinct, Keys, Dumps, DumpMembers, Quote, PlainNumbers, IsDigest,
      WellFormed, Numeric;
    var v := DescriptorOf(count, length, digest);
    DescriptorOk(count, length, digest);
    DumpsPrintable(v, true);
    DescriptorParts(count, length, digest);
    DigestPlain(digest);
    DescriptorNames();
    EncodingName();
    PlainQuoted("ordered_json_text_v1");
    PlainQuoted(digest);
    DumpsAre(v, Decimal(count));
    DumpsAre(v, Decimal(length));
    DumpsAre(v, "ordered_json_text_v1");
    DumpsAre(v, digest);
    FourLengths(v, Sorted(Keys(v.members)), Decimal(count), Quote("ordered_json_text_v1", true), Quote(digest, true),
      Decimal(length));
  }

  lemma FourLengths(v: Json, keys: seq<string>, a: string, b: string, c: string, d: string)
    requires v.Obj? && |keys| == |v.members| == 4
    requires forall k :: k in keys ==> Printable(k) && '\"' !in k && '\\' !in k && Child(v, k).Some?
    requires Dumps(Child(v, keys[0]).value, true, true) == a && Dumps(Child(v, keys[1]).value, true, true) == b
    requires Dumps(Child(v, keys[2]).value, true, true) == c && Dumps(Child(v, keys[3]).value, true, true) == d
    ensures |DumpMembers(v, keys, true, true)|
            == 6 + |keys[0]| + |keys[1]| + |keys[2]| + |keys[3]| + 16 + |a| + |b| + |c| + |d|
  {
    hide Child, Printable, Dumps, DumpMembers;
    MemberLength(v, keys, a);
    MemberLength(v, keys[1..], b);
    MemberLength(v, keys[2..], c);
    MemberLength(v, keys[3..], d);
    assert keys[1..][1..] == keys[2..] && keys[2..][1..] == keys[3..] && keys[3..][1..] == [];
    NoMembersLeft(v, true, true);
  }

  lemma DigestPlain(digest: string)
    requires IsDigest(digest)
    ensures |digest| == 64 && Printable(digest) && '\"' !in digest && '\\' !in digest
  {
  }

  /** Every value of a field's fragments passes the literal check exactly when its descriptor does:
      when the two numbers in it have few enough digits. A SHA-256 in hex has 64. */
  lemma FragmentsFit(key: string, v: Json, digest: string -> string)
    requires PlainNumbers(v) && IsDigest(digest(Dumps(v, true, true)))
    ensures var canonical := Dumps(v, true, true);
            (forall f :: f in Fragments(key, canonical, digest) ==> LiteralOk(f.value))
            <==> |canonical| <= 32767
                 || 77 + 64 + |Decimal(ChunkCount(|canonical|))| + |Decimal(|canonical|)| <= 32767
  {
    hide Dumps, PlainNumbers, Descriptor, Printable, LiteralOk, Unquoted, Decimal, Chunk, Join, Quote;
    DumpsPrintable(v, true);
    var canonical := Dumps(v, true, true);
    if |canonical| <= CELL_LIMIT {
      PrintableOk(canonical);
    } else {
      var count := ChunkCount(|canonical|);
      var descriptor := Field(key + "__chunks", Descriptor(count, |canonical|, digest(canonical)));
      assert Fragments(key, canonical, digest) == [descriptor] + ChunkFields(key, canonical);
      DescriptorLength(count, |canonical|, digest(canonical));
      PrintableOk(descriptor.value);
      ChunksFit(key, canonical);
      assert descriptor in Fragments(key, canonical, digest);
      forall f | f in Fragments(key, canonical, digest) && f != descriptor ensures LiteralOk(f.value) {
        assert f in ChunkFields(key, canonical);
      }
    }
  }

  /** What a field becomes can be read back. Up to the limit it is one fragment, under its own key, of
      which the value is read; beyond it a descriptor states how many chunks there are, how long the
      text is and its digest, and the chunks, numbered in order, re-join to the text. */
  lemma FragmentsRead(key: string, v: Json, digest: string -> string)
    requires WellFormed(v) && Numeric(v)
    ensures var canonical := Dumps(v, true, true);
            var fs := Fragments(key, canonical, digest);
            var count := |fs| - 1;
            && (|canonical| <= 32767 ==>
                  |fs| == 1 && fs[0].key == key && ReadValue(fs[0].value) == Some((Ordered(v), "")))
            && (|canonical| > 32767 ==>
                  && |fs| >= 2 && fs[0].key == key + "__chunks"
                  && ReadValue(fs[0].value)
                     == Some((Obj([Member("count", Num(Decimal(count))),
                                   Member("encoding", Str("ordered_json_text_v1")),
                                   Member("sha256", Str(digest(canonical))),
                                   Member("utf8_bytes", Num(Decimal(|canonical|)))]), ""))
                  && (forall i :: 0 <= i < count ==>
                        && fs[i + 1].key == key + "__chunk_" + Padded(i)
                        && Unquoted(fs[i + 1].value) == Some(Chunks(canonical, count)[i]))
                  && ReadValue(Join(Chunks(canonical, count))) == Some((Ordered(v), "")))
  {
    hide Dumps, ReadValue, Chunk, Descriptor, Unquoted, Padded;
    var canonical := Dumps(v, true, true);
    var fs := Fragments(key, canonical, digest);
    DumpsBack(v, true, true);
    if |canonical| > 32767 {
      var count := ChunkCount(|canonical|);
      DescriptorReads(count, |canonical|, digest(canonical));
      forall i | 0 <= i < count
        ensures fs[i + 1].key == key + "__chunk_" + Padded(i)
                && Unquoted(fs[i + 1].value) == Some(Chunks(canonical, count)[i]) {
        QuoteRoundTrip(Chunk(canonical, i));
      }
      ChunksRejoin(canonical, count);
      assert canonical[..|canonical|] == canonical;
    }
  }

  /** So everything fits for every document of fewer than ten to the 16,000 characters. */
  lemma DocumentsFit(key: string, v: Json, digest: string -> string)
    requires PlainNumbers(v) && IsDigest(digest(Dumps(v, true, true)))
    requires |Dumps(v, true, true)| < Pow10(16000)
    ensures forall f :: f in Fragments(key, Dumps(v, true, true), digest) ==> LiteralOk(f.value)
  {
    var length := |Dumps(v, true, true)|;
    FragmentsFit(key, v, digest);
    DigitsBelow(length, 16000);
    if length > CELL_LIMIT {
      assert ChunkCount(length) <= length;
      DigitsBelow(ChunkCount(length), 16000);
    }
  }

  /** The rows of the sheet that carries the whole dataset re-join to it, within the cell limit. */
  function DatasetRows(canonical: string): seq<Field> {
    seq(ChunkCount(|canonical|), i requires 0 <= i < ChunkCount(|canonical|) => Field(Decimal(i), Chunk(canonical, i)))
  }

  lemma DatasetRejoins(data: Json)
    requires PlainNumbers(data)
    ensures var canonical := Dumps(data, true, false);
            var rows := DatasetRows(canonical);
            && Join(Chunks(canonical, |rows|)) == canonical
            && (forall i :: 0 <= i < |rows| ==>
                  rows[i] == Field(Decimal(i), Chunks(canonical, |rows|)[i]) && LiteralOk(rows[i].value))
  {
    hide Dumps, PlainNumbers, LiteralOk, Printable;
    DumpsPrintable(data, false);
    var canonical := Dumps(data, true, false);
    forall i | 0 <= i < ChunkCount(|canonical|) ensures LiteralOk(Chunk(canonical, i)) { ChunkOk(canonical, i); }
    ChunksRejoin(canonical, ChunkCount(|canonical|));
    assert canonical[..|canonical|] == canonical;
  }

  lemma ChunkOk(canonical: string, i: nat)
    requires Printable(canonical) && i < ChunkCount(|canonical|)
    ensures LiteralOk(Chunk(canonical, i))
  {
    CountIsCeiling(canonical, i);
    PrintableOk(Chunk(canonical, i));
  }
}
