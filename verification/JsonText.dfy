/** The text Python's `json.dumps` writes for strings and scalars, with and without `ensure_ascii`. */
module JsonText {
  import opened Sorting
  import opened Json

  function HexDigit(d: nat): (c: char)
    requires d < 16
    ensures ('0' <= c <= '9') || ('a' <= c <= 'f')
    ensures d == if c <= '9' then c as int - '0' as int else c as int - 'a' as int + 10
  {
    if d < 10 then '0' + d as char else 'a' + (d - 10) as char
  }

  /** A UTF-16 unit as `\uXXXX`. */
  function UnitEscape(n: nat): string
    requires n < 0x10000
  {
    ['\\', 'u', HexDigit(n / 4096), HexDigit(n / 256 % 16), HexDigit(n / 16 % 16), HexDigit(n % 16)]
  }

  function EscapeChar(c: char, ascii: bool): string {
    if c == '\"' then "\\\""
    else if c == '\\' then "\\\\"
    else if c == '\n' then "\\n"
    else if c == '\r' then "\\r"
    else if c == '\t' then "\\t"
    else if c == '\U{0C}' then "\\f"
    else if c == '\U{08}' then "\\b"
    else if c < ' ' || (ascii && '~' < c) then
      var n := c as int;
      if n < 0x10000 then UnitEscape(n)
      else UnitEscape(0xD800 + (n - 0x10000) / 1024) + UnitEscape(0xDC00 + (n - 0x10000) % 1024)
    else [c]
  }

  function EscapeAll(s: string, ascii: bool): string {
    if s == "" then "" else EscapeChar(s[0], ascii) + EscapeAll(s[1..], ascii)
  }

  /** `json.dumps` of a string. */
  function Quote(s: string, ascii: bool): string { "\"" + EscapeAll(s, ascii) + "\"" }

  // -------------------------------------------------------------------- reading back

  lemma HexDigitReadable(d: nat, e: nat)
    requires d < 16 && e < 16 && HexDigit(d) == HexDigit(e)
    ensures d == e
  {
  }

  lemma UnitReadable(m: nat, n: nat)
    requires m < 0x10000 && n < 0x10000 && UnitEscape(m) == UnitEscape(n)
    ensures m == n
  {
    hide HexDigit;
    var a, b := UnitEscape(m), UnitEscape(n);
    assert a[2] == b[2] && a[3] == b[3] && a[4] == b[4] && a[5] == b[5];
    HexDigitReadable(m / 4096, n / 4096);
    HexDigitReadable(m / 256 % 16, n / 256 % 16);
    HexDigitReadable(m / 16 % 16, n / 16 % 16);
    HexDigitReadable(m % 16, n % 16);
    Nibbles(m);
    Nibbles(n);
  }

  lemma Nibbles(n: nat)
    ensures n == n / 4096 * 4096 + n / 256 % 16 * 256 + n / 16 % 16 * 16 + n % 16
  {
    assert n / 256 == n / 256 / 16 * 16 + n / 256 % 16;
    assert n / 16 == n / 16 / 16 * 16 + n / 16 % 16;
    assert n / 16 / 16 == n / 256 && n / 256 / 16 == n / 4096;
  }

  /** What may come first in a string: the character itself, a short escape, or a unit escape. */
  predicate Escaped(c: char, ascii: bool) {
    c != '\"' && c != '\\' && c != '\n' && c != '\r' && c != '\t' && c != '\U{0C}' && c != '\U{08}'
    && (c < ' ' || (ascii && '~' < c))
  }

  lemma ShortEscape(c: char, d: char, ascii: bool)
    requires !Escaped(c, ascii) || !Escaped(d, ascii)
    requires var a, b := EscapeChar(c, ascii), EscapeChar(d, ascii);
             a[0] == b[0] && (|a| >= 2 && |b| >= 2 ==> a[1] == b[1])
    ensures c == d
  {
  }

  /** No escape is a prefix of another. */
  lemma EscapeReadable(c: char, d: char, after: string, after': string, ascii: bool)
    requires EscapeChar(c, ascii) + after == EscapeChar(d, ascii) + after'
    ensures c == d && after == after'
  {
    var a, b := EscapeChar(c, ascii), EscapeChar(d, ascii);
    var s := a + after;
    assert a == s[..|a|] && after == s[|a|..];
    assert b == s[..|b|] && after' == s[|b|..];
    if Escaped(c, ascii) && Escaped(d, ascii) {
      assert Units(c as int) == a && Units(d as int) == b;
      UnitsReadable(c as int, d as int, s);
    } else {
      assert |a| >= 1 && |b| >= 1 by { EscapeLonger(c, ascii); EscapeLonger(d, ascii); }
      ShortEscape(c, d, ascii);
    }
  }

  lemma EscapeLonger(c: char, ascii: bool)
    ensures |EscapeChar(c, ascii)| >= 1
  {
  }

  function Units(n: nat): string
    requires n < 0x110000
  {
    if n < 0x10000 then UnitEscape(n)
    else UnitEscape(0xD800 + (n - 0x10000) / 1024) + UnitEscape(0xDC00 + (n - 0x10000) % 1024)
  }

  /** The first unit says whether a second one follows: no character is itself a surrogate. */
  lemma UnitsReadable(m: nat, n: nat, s: string)
    requires m < 0x110000 && n < 0x110000 && !(0xD800 <= m < 0xE000) && !(0xD800 <= n < 0xE000)
    requires Units(m) <= s && Units(n) <= s
    ensures m == n
  {
    var a := if m < 0x10000 then m else 0xD800 + (m - 0x10000) / 1024;
    var b := if n < 0x10000 then n else 0xD800 + (n - 0x10000) / 1024;
    hide UnitEscape;
    FirstUnit(m, s);
    FirstUnit(n, s);
    UnitReadable(a, b);
    if m >= 0x10000 {
      SecondUnit(m, s);
      SecondUnit(n, s);
      UnitReadable(0xDC00 + (m - 0x10000) % 1024, 0xDC00 + (n - 0x10000) % 1024);
    }
  }

  lemma FirstUnit(n: nat, s: string)
    requires n < 0x110000 && Units(n) <= s
    ensures |s| >= 6 && s[..6] == UnitEscape(if n < 0x10000 then n else 0xD800 + (n - 0x10000) / 1024)
  {
    assert Units(n)[..6] == UnitEscape(if n < 0x10000 then n else 0xD800 + (n - 0x10000) / 1024);
  }

  lemma SecondUnit(n: nat, s: string)
    requires 0x10000 <= n < 0x110000 && Units(n) <= s
    ensures |s| >= 12 && s[6..12] == UnitEscape(0xDC00 + (n - 0x10000) % 1024)
  {
    assert Units(n)[6..12] == UnitEscape(0xDC00 + (n - 0x10000) % 1024);
  }

  lemma {:induction false} EscapeAllInjective(s: string, t: string, ascii: bool)
    requires EscapeAll(s, ascii) == EscapeAll(t, ascii)
    ensures s == t
    decreases |s|
  {
    if s != "" && t != "" {
      EscapeReadable(s[0], t[0], EscapeAll(s[1..], ascii), EscapeAll(t[1..], ascii), ascii);
      EscapeAllInjective(s[1..], t[1..], ascii);
      assert s == [s[0]] + s[1..] && t == [t[0]] + t[1..];
    }
  }

  lemma QuoteInjective(s: string, t: string, ascii: bool)
    requires Quote(s, ascii) == Quote(t, ascii)
    ensures s == t
  {
    var a, b := EscapeAll(s, ascii), EscapeAll(t, ascii);
    assert Quote(s, ascii)[1..|a| + 1] == a && Quote(t, ascii)[1..|b| + 1] == b;
    EscapeAllInjective(s, t, ascii);
  }

  // ------------------------------------------------------------------------ documents

  /** `json.dumps` with `sort_keys`; `gap` is the default, a space after each separator. */
  function Dumps(v: Json, ascii: bool, gap: bool): string
    decreases v, 1, 0
  {
    match v
    case Null => "null"
    case Bool(b) => if b then "true" else "false"
    case Num(text) => text
    case Str(text) => Quote(text, ascii)
    case Arr(items) => "[" + DumpItems(v, 0, ascii, gap) + "]"
    case Obj(members) => "{" + DumpMembers(v, Sorted(Keys(members)), ascii, gap) + "}"
  }

  function DumpItems(v: Json, i: nat, ascii: bool, gap: bool): string
    requires v.Arr? && i <= |v.items|
    decreases v, 0, |v.items| - i
  {
    if i == |v.items| then ""
    else
      (if i == 0 then "" else if gap then ", " else ",")
      + Dumps(v.items[i], ascii, gap) + DumpItems(v, i + 1, ascii, gap)
  }

  function DumpMembers(v: Json, keys: seq<string>, ascii: bool, gap: bool): string
    requires v.Obj?
    decreases v, 0, |keys|
  {
    if keys == [] then ""
    else
      var child := Child(v, keys[0]);
      (if |keys| == |v.members| then "" else if gap then ", " else ",")
      + Quote(keys[0], ascii) + (if gap then ": " else ":")
      + (if child.Some? then Dumps(child.value, ascii, gap) else "")
      + DumpMembers(v, keys[1..], ascii, gap)
  }

  /** Scalars and empty containers can be told apart by their text. */
  lemma LeafTextInjective(v: Json, w: Json, ascii: bool, gap: bool)
    requires WellFormed(v) && WellFormed(w)
    requires (Scalar(v) || EmptyContainer(v)) && (Scalar(w) || EmptyContainer(w))
    requires Dumps(v, ascii, gap) == Dumps(w, ascii, gap)
    ensures v == w
  {
    EmptyText(ascii, gap);
    assert Dumps(v, ascii, gap)[0] == Dumps(w, ascii, gap)[0];
    if v.Str? && w.Str? { QuoteInjective(v.text, w.text, ascii); }
  }

  lemma EmptyText(ascii: bool, gap: bool)
    ensures Dumps(Arr([]), ascii, gap) == "[]" && Dumps(Obj([]), ascii, gap) == "{}"
  {
    assert Keys([]) == [];
  }

  // ------------------------------------------------------------------------- lengths

  predicate Printable(s: string) { forall i :: 0 <= i < |s| ==> ' ' <= s[i] <= '~' }

  /** With `ensure_ascii` only printable ASCII is written. */
  lemma {:induction false} QuotePrintable(s: string)
    ensures Printable(EscapeAll(s, true))
    decreases |s|
  {
    hide EscapeChar;
    if s != "" {
      QuotePrintable(s[1..]);
      CharPrintable(s[0]);
      PrintableJoin(EscapeChar(s[0], true), EscapeAll(s[1..], true));
    }
  }

  lemma CharPrintable(c: char)
    ensures Printable(EscapeChar(c, true))
  {
  }

  lemma EscapePrintable(c: char, ascii: bool)
    requires ' ' <= c <= '~'
    ensures EscapeChar(c, ascii) == if c == '\"' || c == '\\' then ['\\', c] else [c]
  {
  }

  /** Quoting printable text at most doubles it; the worst case is all quotes and backslashes. */
  lemma {:induction false} QuoteDoubles(s: string, ascii: bool)
    requires Printable(s)
    ensures |s| <= |EscapeAll(s, ascii)| <= 2 * |s|
    ensures |EscapeAll(s, ascii)| == 2 * |s| <==> forall i :: 0 <= i < |s| ==> s[i] == '\"' || s[i] == '\\'
  {
    hide EscapeChar;
    if s != "" {
      QuoteDoubles(s[1..], ascii);
      EscapePrintable(s[0], ascii);
      assert forall i :: 0 <= i < |s| - 1 ==> s[1..][i] == s[i + 1];
    }
  }

  /** All the numbers of a document are printable ASCII. */
  ghost predicate PlainNumbers(v: Json) {
    match v
    case Num(text) => Printable(text)
    case Arr(items) => forall i :: 0 <= i < |items| ==> PlainNumbers(items[i])
    case Obj(members) => forall i :: 0 <= i < |members| ==> PlainNumbers(members[i].item)
    case _ => true
  }

  lemma PrintableJoin(a: string, b: string)
    requires Printable(a) && Printable(b)
    ensures Printable(a + b)
  {
  }

  /** A document dumped with `ensure_ascii` is printable ASCII, whatever its strings hold. */
  lemma {:induction false} DumpsPrintable(v: Json, gap: bool)
    requires PlainNumbers(v)
    ensures Printable(Dumps(v, true, gap))
    decreases v, 1, 0
  {
    hide Printable, PlainNumbers, DumpItems, DumpMembers, Sorted, Keys, Quote;
    if v.Arr? {
      ItemsPrintable(v, 0, gap);
      PrintableBetween("[", DumpItems(v, 0, true, gap), "]");
    } else if v.Obj? {
      var keys := Sorted(Keys(v.members));
      MembersPrintable(v, keys, gap);
      PrintableBetween("{", DumpMembers(v, keys, true, gap), "}");
    } else {
      ScalarPrintable(v, gap);
    }
  }

  lemma ScalarPrintable(v: Json, gap: bool)
    requires PlainNumbers(v) && !v.Arr? && !v.Obj?
    ensures Printable(Dumps(v, true, gap))
  {
    hide Quote;
    if v.Str? { QuotedPrintable(v.text); }
  }

  lemma PrintableBetween(open: string, inner: string, close: string)
    requires open in ["[", "{"] && Printable(inner) && close in ["]", "}"]
    ensures Printable(open + inner + close)
  {
    PrintableJoin(open, inner);
    PrintableJoin(open + inner, close);
  }

  lemma {:induction false} ItemsPrintable(v: Json, i: nat, gap: bool)
    requires v.Arr? && i <= |v.items| && PlainNumbers(v)
    ensures Printable(DumpItems(v, i, true, gap))
    decreases v, 0, |v.items| - i
  {
    if i < |v.items| {
      DumpsPrintable(v.items[i], gap);
      ItemsPrintable(v, i + 1, gap);
      ItemPrintable(v, i, gap);
    }
  }

  lemma ItemPrintable(v: Json, i: nat, gap: bool)
    requires v.Arr? && i < |v.items|
    requires Printable(Dumps(v.items[i], true, gap)) && Printable(DumpItems(v, i + 1, true, gap))
    ensures Printable(DumpItems(v, i, true, gap))
  {
    hide Dumps, Printable;
    var comma := if i == 0 then "" else if gap then ", " else ",";
    Separators();
    PrintableJoin(comma, Dumps(v.items[i], true, gap));
    PrintableJoin(comma + Dumps(v.items[i], true, gap), DumpItems(v, i + 1, true, gap));
  }

  lemma Separators()
    ensures Printable("") && Printable(",") && Printable(", ") && Printable(":") && Printable(": ")
  {
  }

  lemma {:induction false} MembersPrintable(v: Json, keys: seq<string>, gap: bool)
    requires v.Obj? && PlainNumbers(v)
    ensures Printable(DumpMembers(v, keys, true, gap))
    decreases v, 0, |keys|
  {
    hide Printable;
    if keys == [] {
      Separators();
    } else {
      var child := Child(v, keys[0]);
      if child.Some? {
        PlainChild(v, keys[0]);
        DumpsPrintable(child.value, gap);
      }
      MembersPrintable(v, keys[1..], gap);
      MemberPrintable(v, keys, gap);
    }
  }

  lemma PlainChild(v: Json, key: string)
    requires v.Obj? && PlainNumbers(v) && Child(v, key).Some?
    ensures PlainNumbers(Child(v, key).value)
  {
  }

  lemma MemberPrintable(v: Json, keys: seq<string>, gap: bool)
    requires v.Obj? && keys != []
    requires Child(v, keys[0]).Some? ==> Printable(Dumps(Child(v, keys[0]).value, true, gap))
    requires Printable(DumpMembers(v, keys[1..], true, gap))
    ensures Printable(DumpMembers(v, keys, true, gap))
  {
    hide Dumps, Printable, Child, Quote;
    var comma := if |keys| == |v.members| then "" else if gap then ", " else ",";
    var key := Quote(keys[0], true);
    var colon := if gap then ": " else ":";
    var item := if Child(v, keys[0]).Some? then Dumps(Child(v, keys[0]).value, true, gap) else "";
    Separators();
    QuotedPrintable(keys[0]);
    PrintableJoin(comma, key);
    PrintableJoin(comma + key, colon);
    PrintableJoin(comma + key + colon, item);
    PrintableJoin(comma + key + colon + item, DumpMembers(v, keys[1..], true, gap));
  }

  lemma QuotedPrintable(s: string)
    ensures Printable(Quote(s, true))
  {
    QuotePrintable(s);
  }
}
