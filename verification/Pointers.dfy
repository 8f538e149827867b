/**
  JSON pointers (RFC 6901, sections 3 and 4): `resolve_source_pointer` of
  src/app/composite_reporting/table_contract.py, and the escapes that every printed pointer uses.
*/
module Pointers {
  import opened Wrappers
  import opened Text
  import opened Json

  // ------------------------------------------------------------------------ tokens

  /** `s.replace(c, with)` of a single character. */
  function ReplaceChar(s: string, c: char, with: string): string {
    if s == "" then "" else (if s[0] == c then with else [s[0]]) + ReplaceChar(s[1..], c, with)
  }

  /** `s.replace("~" + c, with)`: from the left, without overlaps. */
  function ReplacePair(s: string, c: char, with: string): string {
    if |s| < 2 then s
    else if s[0] == '~' && s[1] == c then with + ReplacePair(s[2..], c, with)
    else [s[0]] + ReplacePair(s[1..], c, with)
  }

  function Escape(key: string): string { ReplaceChar(ReplaceChar(key, '~', "~0"), '/', "~1") }

  function Unescape(part: string): string { ReplacePair(ReplacePair(part, '1', "/"), '0', "~") }

  lemma PairKeeps(x: char, s: string, c: char, with: string)
    requires x != '~' || (s != "" && s[0] != c) || s == ""
    ensures ReplacePair([x] + s, c, with) == [x] + ReplacePair(s, c, with)
  {
    assert ([x] + s)[1..] == s;
  }

  lemma PairReplaced(s: string, c: char, with: string)
    ensures ReplacePair(['~', c] + s, c, with) == with + ReplacePair(s, c, with)
  {
    assert (['~', c] + s)[2..] == s;
  }

  /** Reading "~1" back leaves the tildes as they were escaped. */
  lemma {:induction false} SlashesBack(key: string)
    ensures ReplacePair(Escape(key), '1', "/") == ReplaceChar(key, '~', "~0")
    decreases |key|
  {
    if key != "" {
      SlashesBack(key[1..]);
      var tildes := ReplaceChar(key[1..], '~', "~0");
      var rest := Escape(key[1..]);
      if key[0] == '~' {
        assert ReplaceChar(key, '~', "~0") == ['~'] + (['0'] + tildes);
        EscapeTilde(tildes);
        assert Escape(key) == ['~'] + (['0'] + rest);
        PairKeeps('~', ['0'] + rest, '1', "/");
        PairKeeps('0', rest, '1', "/");
      } else if key[0] == '/' {
        assert ReplaceChar(key, '~', "~0") == ['/'] + tildes;
        assert (['/'] + tildes)[1..] == tildes;
        assert Escape(key) == ['~', '1'] + rest;
        PairReplaced(rest, '1', "/");
      } else {
        assert ReplaceChar(key, '~', "~0") == [key[0]] + tildes;
        assert ([key[0]] + tildes)[1..] == tildes;
        assert Escape(key) == [key[0]] + rest;
        PairKeeps(key[0], rest, '1', "/");
      }
    }
  }

  lemma EscapeTilde(s: string)
    ensures ReplaceChar(['~'] + (['0'] + s), '/', "~1") == ['~'] + (['0'] + ReplaceChar(s, '/', "~1"))
  {
    assert (['~'] + (['0'] + s))[1..] == ['0'] + s;
    assert (['0'] + s)[1..] == s;
  }

  lemma {:induction false} TildesBack(key: string)
    ensures ReplacePair(ReplaceChar(key, '~', "~0"), '0', "~") == key
    decreases |key|
  {
    if key != "" {
      TildesBack(key[1..]);
      var rest := ReplaceChar(key[1..], '~', "~0");
      assert key == [key[0]] + key[1..];
      if key[0] == '~' {
        assert ReplaceChar(key, '~', "~0") == ['~', '0'] + rest;
        PairReplaced(rest, '0', "~");
      } else {
        assert ReplaceChar(key, '~', "~0") == [key[0]] + rest;
        PairKeeps(key[0], rest, '0', "~");
      }
    }
  }

  /** Unescaping undoes escaping, for every key. */
  lemma EscapeRoundTrip(key: string)
    ensures Unescape(Escape(key)) == key
  {
    SlashesBack(key);
    TildesBack(key);
  }

  lemma {:induction false} NoSlash(s: string)
    ensures '/' !in ReplaceChar(s, '/', "~1")
  {
    if s != "" { NoSlash(s[1..]); }
  }

  lemma {:induction false} NothingToReplace(s: string, c: char, with: string)
    requires c !in s
    ensures ReplaceChar(s, c, with) == s
  {
    if s != "" {
      NothingToReplace(s[1..], c, with);
      assert s == [s[0]] + s[1..];
    }
  }

  lemma EscapeIndex(i: nat)
    ensures Escape(Decimal(i)) == Decimal(i)
  {
    NothingToReplace(Decimal(i), '~', "~0");
    NothingToReplace(Decimal(i), '/', "~1");
  }

  // ----------------------------------------------------------------- print and parse

  function Print(path: seq<string>): string {
    if path == [] then "" else Print(path[..|path| - 1]) + "/" + Escape(path[|path| - 1])
  }

  /** `pointer.split("/")`. */
  function Split(s: string): (r: seq<string>)
    ensures |r| >= 1
  {
    if s == "" then [""]
    else if s[|s| - 1] == '/' then Split(s[..|s| - 1]) + [""]
    else
      var r := Split(s[..|s| - 1]);
      r[..|r| - 1] + [r[|r| - 1] + [s[|s| - 1]]]
  }

  function UnescapeAll(parts: seq<string>): seq<string> {
    seq(|parts|, i requires 0 <= i < |parts| => Unescape(parts[i]))
  }

  function Parse(pointer: string): seq<string> { UnescapeAll(Split(pointer)[1..]) }

  lemma {:induction false} SplitLast(s: string, token: string)
    requires '/' !in token
    ensures Split(s + "/" + token) == Split(s) + [token]
    decreases |token|
  {
    var all := s + "/" + token;
    if token == "" {
      assert all[..|all| - 1] == s;
    } else {
      var front := token[..|token| - 1];
      assert all[..|all| - 1] == s + "/" + front;
      assert all[|all| - 1] == token[|token| - 1];
      SplitLast(s, front);
      assert token == front + [token[|token| - 1]];
    }
  }

  /** Parsing a printed pointer gives the tokens back, whatever characters they hold. */
  lemma {:induction false} ParsePrint(path: seq<string>)
    ensures Parse(Print(path)) == path
    decreases |path|
  {
    if path != [] {
      var front, last := path[..|path| - 1], path[|path| - 1];
      ParsePrint(front);
      NoSlash(ReplaceChar(last, '~', "~0"));
      SplitLast(Print(front), Escape(last));
      EscapeRoundTrip(last);
      assert Split(Print(path))[1..] == Split(Print(front))[1..] + [Escape(last)];
      assert UnescapeAll(Split(Print(path))[1..]) == UnescapeAll(Split(Print(front))[1..]) + [last];
    }
  }

  // ------------------------------------------------------------------------ resolve

  /** The value at a path, step by step. */
  function At(v: Json, path: seq<string>): Option<Json>
    decreases |path|
  {
    if path == [] then Some(v)
    else
      var child := Child(v, path[0]);
      if child.None? then None else At(child.value, path[1..])
  }

  /** `resolve_source_pointer`. */
  method ResolveSourcePointer(dataset: Json, pointer: string) returns (r: Result<Json>)
    ensures r == Resolved(dataset, pointer)
  {
    var parts := Split(pointer);
    var current := dataset;
    for i := 1 to |parts|
      invariant At(dataset, Parse(pointer)) == At(current, Parse(pointer)[i - 1..])
    {
      var key := Unescape(parts[i]);
      assert Parse(pointer)[i - 1..][0] == key;
      assert Parse(pointer)[i - 1..][1..] == Parse(pointer)[i..];
      var child := Child(current, key);
      if child.None? { return Refused("COMPOSITE_REPORT_CELL_POINTER_INVALID"); }
      current := child.value;
    }
    return Ok(current);
  }

  /** What a pointer means: the value at the path it spells, or a refusal. */
  function Resolved(dataset: Json, pointer: string): Result<Json> {
    var v := At(dataset, Parse(pointer));
    if v.Some? then Ok(v.value) else Refused("COMPOSITE_REPORT_CELL_POINTER_INVALID")
  }

  lemma {:induction false} AtConcat(v: Json, a: seq<string>, b: seq<string>)
    ensures At(v, a + b) == (if At(v, a).Some? then At(At(v, a).value, b) else None)
    decreases |a|
  {
    if a == [] {
      assert a + b == b;
    } else {
      assert (a + b)[0] == a[0] && (a + b)[1..] == a[1..] + b;
      if Child(v, a[0]).Some? { AtConcat(Child(v, a[0]).value, a[1..], b); }
    }
  }
}
