/**
  Opening a retained SQLite ledger file: `_ensure_schema`, `_migrate_to_tenant_identity` and
  `_refuse_unattributable_rows` of src/app/idea_evidence_intake/service.py.

  The database is a class with what is on disk and what the open transaction has written. A
  `budget` of statements decides where the process dies (or a statement raises): both roll the
  transaction back.
*/
module IntakeMigration {
  import opened Wrappers
  import opened Sorting

  /** `$.tenant_id` of a stored caller context; `kind` is what json_type calls it. */
  datatype Context = Malformed | NoTenant | NotText(kind: string) | Text(tenant: string)

  datatype OldRow = OldRow(key: string, context: Context, rest: string)

  datatype NewRow = NewRow(tenant: string, key: string, context: Context, rest: string)

  datatype Table = OldTable(retained: seq<OldRow>) | NewTable(rows: seq<NewRow>)

  /** The ledger's table, and the one the migration sets aside. */
  datatype Tables = Tables(intake: Option<Table>, aside: Option<seq<OldRow>>)

  // ------------------------------------------------------------------------ blanks

  /** What SQL's TRIM removes, and what Python's strip removes. */
  const SQL_BLANKS: set<char> := {' '}
  const PYTHON_BLANKS: set<char> := {
    ' ', '\t', '\n', '\r', '\U{0B}', '\U{0C}', '\U{1C}', '\U{1D}', '\U{1E}', '\U{1F}', '\U{85}', '\U{A0}', '\U{1680}',
    '\U{2000}', '\U{2001}', '\U{2002}', '\U{2003}', '\U{2004}', '\U{2005}', '\U{2006}', '\U{2007}', '\U{2008}',
    '\U{2009}', '\U{200A}', '\U{2028}', '\U{2029}', '\U{202F}', '\U{205F}', '\U{3000}'}

  function Trim(s: string, blanks: set<char>): (r: string)
    ensures r != "" ==> r[0] !in blanks && r[|r| - 1] !in blanks
    ensures r == "" <==> forall i :: 0 <= i < |s| ==> s[i] in blanks
    decreases |s|
  {
    if s == "" then ""
    else if s[0] in blanks then
      assert forall i :: 0 <= i < |s[1..]| ==> s[1..][i] == s[i + 1];
      Trim(s[1..], blanks)
    else if s[|s| - 1] in blanks then
      assert forall i :: 0 <= i < |s| - 1 ==> s[..|s| - 1][i] == s[i];
      Trim(s[..|s| - 1], blanks)
    else s
  }

  predicate OnlyBlanks(s: string, blanks: set<char>) { forall i :: 0 <= i < |s| ==> s[i] in blanks }

  /** `r` is what is left of `s` between the blanks at its two ends. */
  ghost predicate Stripped(s: string, r: string, blanks: set<char>) {
    && (exists a, b :: s == a + r + b && OnlyBlanks(a, blanks) && OnlyBlanks(b, blanks))
    && (r != "" ==> r[0] !in blanks && r[|r| - 1] !in blanks)
  }

  lemma {:induction false} TrimParts(s: string, blanks: set<char>) returns (a: string, b: string)
    ensures s == a + Trim(s, blanks) + b && OnlyBlanks(a, blanks) && OnlyBlanks(b, blanks)
    decreases |s|
  {
    a, b := "", "";
    if s == "" {
    } else if s[0] in blanks {
      a, b := TrimParts(s[1..], blanks);
      a := [s[0]] + a;
    } else if s[|s| - 1] in blanks {
      a, b := TrimParts(s[..|s| - 1], blanks);
      b := b + [s[|s| - 1]];
    }
  }

  /** Trimming removes blanks at the two ends, all of them and nothing else. */
  lemma TrimStrips(s: string, blanks: set<char>)
    ensures Stripped(s, Trim(s, blanks), blanks)
  {
    var a, b := TrimParts(s, blanks);
  }

  /** There is only one way to do that. */
  lemma StrippedOnce(s: string, r: string, r': string, blanks: set<char>)
    requires Stripped(s, r, blanks) && Stripped(s, r', blanks)
    ensures r == r'
  {
    var a, b :| s == a + r + b && OnlyBlanks(a, blanks) && OnlyBlanks(b, blanks);
    var a', b' :| s == a' + r' + b' && OnlyBlanks(a', blanks) && OnlyBlanks(b', blanks);
    PartsAt(s, a, r, b);
    PartsAt(s, a', r', b');
    EmptyWhenBlank(s, a, r, b, blanks);
    EmptyWhenBlank(s, a', r', b', blanks);
    if r != "" {
      assert |a| == |a'| && |b| == |b'|;
      assert r == s[|a|..|s| - |b|] && r' == s[|a'|..|s| - |b'|];
    }
  }

  lemma EmptyWhenBlank(s: string, a: string, r: string, b: string, blanks: set<char>)
    requires s == a + r + b && OnlyBlanks(a, blanks) && OnlyBlanks(b, blanks) && (r != "" ==> r[0] !in blanks)
    ensures r == "" <==> OnlyBlanks(s, blanks)
  {
    PartsAt(s, a, r, b);
  }

  lemma PartsAt(s: string, a: string, r: string, b: string)
    requires s == a + r + b
    ensures forall i :: 0 <= i < |a| ==> s[i] == a[i]
    ensures forall i :: |a| <= i < |a| + |r| ==> s[i] == r[i - |a|]
    ensures forall i :: |a| + |r| <= i < |s| ==> s[i] == b[i - |a| - |r|]
    ensures r != "" ==> s[|a|] == r[0] && s[|s| - |b| - 1] == r[|r| - 1]
  {
  }

  /** Python's white space (`str.isspace`), by code points. */
  lemma PythonBlanks(c: char)
    ensures var n := c as int;
            c in PYTHON_BLANKS <==>
              9 <= n <= 13 || 0x1C <= n <= 0x20 || n == 0x85 || n == 0xA0 || n == 0x1680 || 0x2000 <= n <= 0x200A
              || n == 0x2028 || n == 0x2029 || n == 0x202F || n == 0x205F || n == 0x3000
  {
  }

  /** The row names an owner: a JSON string that is not blank to Python. */
  predicate Attributable(row: OldRow) {
    row.context.Text? && Trim(row.context.tenant, PYTHON_BLANKS) != ""
  }

  predicate AllAttributable(rows: seq<OldRow>) {
    forall i :: 0 <= i < |rows| ==> Attributable(rows[i])
  }

  // ---------------------------------------------------------------- the new table

  function Carry(row: OldRow): NewRow {
    NewRow(if row.context.Text? then Trim(row.context.tenant, SQL_BLANKS) else "", row.key, row.context, row.rest)
  }

  function Carried(rows: seq<OldRow>): seq<NewRow> {
    seq(|rows|, i requires 0 <= i < |rows| => Carry(rows[i]))
  }

  /** The old table's primary key. */
  predicate UniqueKeys(rows: seq<OldRow>) {
    forall i, j :: 0 <= i < j < |rows| ==> rows[i].key != rows[j].key
  }

  /** The new table's primary key. */
  predicate UniqueIdentities(rows: seq<NewRow>) {
    forall i, j :: 0 <= i < j < |rows| ==> rows[i].tenant != rows[j].tenant || rows[i].key != rows[j].key
  }

  /** What SQLite itself guarantees of a stored file. */
  predicate Valid(t: Tables) {
    && (t.intake.Some? && t.intake.value.OldTable? ==> UniqueKeys(t.intake.value.retained))
    && (t.intake.Some? && t.intake.value.NewTable? ==> UniqueIdentities(t.intake.value.rows))
  }

  predicate NeedsMigration(t: Tables) { t.intake.Some? && t.intake.value.OldTable? }

  /** The file the ledger serves from once it has been opened. */
  function Opened(t: Tables): Tables {
    match t.intake
    case None => t.(intake := Some(NewTable([])))
    case Some(NewTable(_)) => t
    case Some(OldTable(rows)) =>
      if AllAttributable(rows) && t.aside == None then t.(intake := Some(NewTable(Carried(rows)))) else t
  }

  /** Nothing is lost, duplicated or reordered, and every row has a non-blank owner: the tenant
      it names, without the spaces around it and with every other character. The old row can be
      read back from the new one. */
  lemma MigrationIsLossless(rows: seq<OldRow>)
    requires (forall i, j :: 0 <= i < j < |rows| ==> rows[i].key != rows[j].key) && AllAttributable(rows)
    ensures |Carried(rows)| == |rows| && UniqueIdentities(Carried(rows))
    ensures forall i, j :: 0 <= i < j < |rows| ==>
      (Carried(rows)[i].tenant, Carried(rows)[i].key) != (Carried(rows)[j].tenant, Carried(rows)[j].key)
    ensures forall i :: 0 <= i < |rows| ==>
      && rows[i] == OldRow(Carried(rows)[i].key, Carried(rows)[i].context, Carried(rows)[i].rest)
      && Stripped(rows[i].context.tenant, Carried(rows)[i].tenant, {' '})
      && !OnlyBlanks(Carried(rows)[i].tenant, PYTHON_BLANKS)
  {
    forall i | 0 <= i < |rows|
      ensures rows[i].context.Text? && !OnlyBlanks(Carried(rows)[i].tenant, PYTHON_BLANKS)
              && Stripped(rows[i].context.tenant, Carried(rows)[i].tenant, {' '}) {
      assert Attributable(rows[i]);
      TrimKeepsVisible(rows[i].context.tenant);
      TrimStrips(rows[i].context.tenant, SQL_BLANKS);
    }
  }

  /** Trimming spaces leaves every character that is not a space. */
  lemma {:induction false} TrimKeepsVisible(s: string)
    requires Trim(s, PYTHON_BLANKS) != ""
    ensures Trim(Trim(s, SQL_BLANKS), PYTHON_BLANKS) != ""
    decreases |s|
  {
    var i :| 0 <= i < |s| && s[i] !in PYTHON_BLANKS;
    if s[0] in SQL_BLANKS {
      assert s[1..][i - 1] == s[i];
      TrimKeepsVisible(s[1..]);
    } else if s[|s| - 1] in SQL_BLANKS {
      assert s[..|s| - 1][i] == s[i];
      TrimKeepsVisible(s[..|s| - 1]);
    }
  }

  /** The two notions of blank agree on a tenant exactly when what is left between its spaces
      neither starts nor ends with other white space. */
  lemma {:induction false} TrimAgrees(s: string)
    ensures Trim(s, SQL_BLANKS) == Trim(s, PYTHON_BLANKS)
            <==> var r := Trim(s, SQL_BLANKS); r == "" || (r[0] !in PYTHON_BLANKS && r[|r| - 1] !in PYTHON_BLANKS)
    decreases |s|
  {
    if s != "" {
      if s[0] in SQL_BLANKS { TrimAgrees(s[1..]); }
      else if s[|s| - 1] in SQL_BLANKS {
        TrimAgrees(s[..|s| - 1]);
        if s[0] in PYTHON_BLANKS { TrimBothEnds(s); }
      }
    }
  }

  /** They differ on a tab: the file keeps a tenant under another name than Python would give it. */
  lemma TabIsKept()
    ensures Trim("\ta", SQL_BLANKS) == "\ta" && Trim("\ta", PYTHON_BLANKS) == "a"
  {
    assert "\ta"[1..] == "a";
  }

  /** It does not matter at which end trimming starts. */
  lemma {:induction false} TrimBothEnds(s: string)
    requires s != "" && s[|s| - 1] in PYTHON_BLANKS
    ensures Trim(s, PYTHON_BLANKS) == Trim(s[..|s| - 1], PYTHON_BLANKS)
    decreases |s|
  {
    if |s| > 1 && s[0] in PYTHON_BLANKS {
      TrimBothEnds(s[1..]);
      assert s[1..][..|s| - 2] == s[..|s| - 1][1..];
    }
  }

  lemma OpenedIdempotent(t: Tables)
    ensures Opened(Opened(t)) == Opened(t)
  {
  }

  lemma OpenedValid(t: Tables)
    requires Valid(t)
    ensures Valid(Opened(t))
  {
    if NeedsMigration(t) && AllAttributable(t.intake.value.retained) { MigrationIsLossless(t.intake.value.retained); }
  }

  // ------------------------------------------------------------------- the database

  datatype Outcome = Ready | RefusedRows | Died

  class Database {
    var disk: Tables
    var working: Tables
    var inTransaction: bool
    var budget: nat

    constructor (t: Tables)
      ensures disk == working == t && !inTransaction
    {
      disk, working, inTransaction, budget := t, t, false, 0;
    }

    /** A statement is about to run: the process may die instead. */
    method Live() returns (alive: bool)
      modifies this
      ensures alive == (old(budget) > 0) && disk == old(disk)
      ensures alive ==> working == old(working) && inTransaction == old(inTransaction) && budget == old(budget) - 1
      ensures !alive ==> working == disk && !inTransaction
    {
      if budget == 0 {
        Rollback();
        return false;
      }
      budget := budget - 1;
      return true;
    }

    method Rollback()
      modifies this
      ensures disk == old(disk) && working == disk && !inTransaction && budget == old(budget)
    {
      working, inTransaction := disk, false;
    }

    method Commit()
      modifies this
      ensures disk == working == old(working) && !inTransaction && budget == old(budget)
    {
      disk, inTransaction := working, false;
    }

    /** A statement that writes. Outside a transaction it commits by itself. */
    method Write(t: Tables) returns (alive: bool)
      modifies this
      ensures alive == (old(budget) > 0)
      ensures alive ==> working == t && inTransaction == old(inTransaction) && budget == old(budget) - 1
      ensures alive ==> disk == if old(inTransaction) then old(disk) else t
      ensures !alive ==> disk == old(disk) && working == disk && !inTransaction
    {
      alive := Live();
      if alive {
        working := t;
        if !inTransaction { disk := t; }
      }
    }

    /** The lists of `_refuse_unattributable_rows`, in the order of the keys: the keys of contexts that
        are not JSON, the keys and JSON types of tenants that are not strings, and the keys of absent
        or blank tenants. */
    method UnattributableRows(rows: seq<OldRow>)
        returns (malformed: seq<string>, wrongType: seq<(string, string)>, absent: seq<string>)
      requires UniqueKeys(rows)
      ensures Ascending(malformed) && Ascending(Firsts(wrongType)) && Ascending(absent)
      ensures forall k :: k in malformed <==> exists r :: r in rows && r.key == k && r.context == Malformed
      ensures forall k, t :: (k, t) in wrongType <==> exists r :: r in rows && r.key == k && r.context == NotText(t)
      ensures forall k :: k in absent <==> exists r :: r in rows && r.key == k && Ownerless(r)
      ensures malformed == [] && wrongType == [] && absent == [] <==> AllAttributable(rows)
    {
      var ordered := ByKey(rows);
      malformed, wrongType, absent := [], [], [];
      for i := 0 to |ordered|
        invariant malformed == Keys(ordered[..i], IsMalformed)
        invariant wrongType == Kinds(ordered[..i])
        invariant absent == Keys(ordered[..i], Ownerless)
      {
        assert ordered[..i + 1][..i] == ordered[..i];
        match ordered[i].context
        case Malformed => malformed := malformed + [ordered[i].key];
        case NotText(kind) => wrongType := wrongType + [(ordered[i].key, kind)];
        case NoTenant => absent := absent + [ordered[i].key];
        case Text(tenant) => if Trim(tenant, PYTHON_BLANKS) == "" { absent := absent + [ordered[i].key]; }
      }
      assert ordered[..|ordered|] == ordered;
      ListedExactly(rows);
    }

    /** INSERT ... SELECT: all rows, or none when two of them share the new primary key. */
    method InsertSelect() returns (alive: bool)
      requires inTransaction && working.aside.Some?
      modifies this
      ensures disk == old(disk)
      ensures alive == (old(budget) > 0 && UniqueIdentities(Carried(old(working).aside.value)))
      ensures alive ==> inTransaction && budget == old(budget) - 1
      ensures alive ==> working == old(working).(intake := Some(NewTable(Carried(old(working).aside.value))))
      ensures !alive ==> working == disk && !inTransaction
    {
      var carried := Carried(working.aside.value);
      if UniqueIdentities(carried) {
        alive := Write(working.(intake := Some(NewTable(carried))));
      } else {
        Rollback();
        alive := false;
      }
    }

    /** The row counts of both tables, which must be the same. */
    method Counted() returns (alive: bool)
      requires inTransaction && working.aside.Some? && working.intake.Some? && working.intake.value.NewTable?
      modifies this
      ensures disk == old(disk)
      ensures alive == (old(budget) > 1 && |old(working).intake.value.rows| == |old(working).aside.value|)
      ensures alive ==> working == old(working) && inTransaction && budget == old(budget) - 2
      ensures !alive ==> working == disk && !inTransaction
    {
      alive := Live();
      if !alive { return; }
      alive := Live();
      if alive && |working.intake.value.rows| != |working.aside.value| {
        Rollback();
        alive := false;
      }
    }

    /** `_migrate_to_tenant_identity`. */
    method Migrate() returns (outcome: Outcome)
      requires disk == working && !inTransaction && Valid(disk)
      modifies this
      ensures disk == working && !inTransaction
      ensures disk == old(disk) || (NeedsMigration(old(disk)) && disk == Opened(old(disk)))
      ensures outcome == Ready ==> !NeedsMigration(old(disk)) || disk == Opened(old(disk)) != old(disk)
      ensures outcome == Ready && !NeedsMigration(old(disk)) ==> disk == old(disk)
      ensures outcome == RefusedRows ==>
        disk == old(disk) && NeedsMigration(disk) && !AllAttributable(disk.intake.value.retained)
      ensures NeedsMigration(old(disk)) && !AllAttributable(old(disk).intake.value.retained) && old(budget) >= 4 ==>
        outcome == RefusedRows
      ensures old(disk).aside == None && old(budget) >= 13 ==> outcome != Died
      ensures outcome == Ready ==> budget >= old(budget) - 13
    {
      var alive := Live();  // which tables there are
      if !alive { return Died; }
      if disk.intake.None? { return Ready; }
      alive := Live();  // which columns the table has
      if !alive { return Died; }
      if disk.intake.value.NewTable? { return Ready; }
      var rows := disk.intake.value.retained;
      alive := Live();  // which contexts are not JSON
      if !alive { return Died; }
      alive := Live();  // what the others hold
      if !alive { return Died; }
      var malformed, wrongType, absent := UnattributableRows(rows);
      if malformed != [] || wrongType != [] || absent != [] { return RefusedRows; }

      MigrationIsLossless(rows);
      alive := Live();  // BEGIN IMMEDIATE
      if !alive { return Died; }
      inTransaction := true;
      if working.aside.Some? {  // the name is taken, and the rename raises
        Rollback();
        return Died;
      }
      alive := Write(working.(intake := None, aside := Some(rows)));  // RENAME
      if !alive { return Died; }
      alive := Write(working.(intake := Some(NewTable([]))));  // CREATE TABLE
      if !alive { return Died; }
      alive := InsertSelect();
      if !alive { return Died; }
      alive := Counted();
      if !alive { return Died; }
      alive := Live();  // DROP INDEX
      if !alive { return Died; }
      alive := Write(working.(aside := None));  // DROP TABLE
      if !alive { return Died; }
      alive := Live();  // COMMIT
      if !alive { return Died; }
      Commit();
      return Ready;
    }

    /** `_ensure_schema` of one start of the process. */
    method EnsureSchema(statements: nat) returns (outcome: Outcome)
      requires disk == working && !inTransaction && Valid(disk)
      modifies this
      ensures disk == working && !inTransaction && Valid(disk)
      ensures disk == old(disk) || disk == Opened(old(disk))
      ensures outcome == Ready ==> disk == Opened(old(disk)) && disk.intake.Some? && disk.intake.value.NewTable?
      ensures outcome == RefusedRows ==>
        disk == old(disk) && NeedsMigration(disk) && !AllAttributable(disk.intake.value.retained)
      ensures NeedsMigration(old(disk)) && !AllAttributable(old(disk).intake.value.retained) ==>
        disk == old(disk) && outcome != Ready && (statements >= 4 ==> outcome == RefusedRows)
      ensures old(disk).aside == None && statements >= 17 ==> outcome != Died
      ensures old(disk).aside == None && statements >= 17
              && (NeedsMigration(old(disk)) ==> AllAttributable(old(disk).intake.value.retained)) ==>
                outcome == Ready
    {
      budget := statements;
      OpenedValid(disk);
      outcome := Migrate();
      if outcome != Ready { return; }
      // CREATE TABLE IF NOT EXISTS
      var alive := Write(if working.intake.None? then working.(intake := Some(NewTable([]))) else working);
      if !alive { return Died; }
      alive := Live();  // the index on the tenant and its source
      if !alive { return Died; }
      alive := Live();  // the index on the creation time
      if !alive { return Died; }
      alive := Live();  // COMMIT
      if !alive { return Died; }
      Commit();
    }

    /** Any number of starts, each with as many statements as it lives to run. */
    method Restart(starts: seq<nat>) returns (outcome: Outcome)
      requires disk == working && !inTransaction && Valid(disk)
      modifies this
      ensures disk == old(disk) || disk == Opened(old(disk))
      ensures outcome == Ready ==> disk == Opened(old(disk)) && disk.intake.Some? && disk.intake.value.NewTable?
      ensures outcome == RefusedRows ==>
          disk == old(disk) && NeedsMigration(disk) && !AllAttributable(disk.intake.value.retained)
      ensures NeedsMigration(old(disk)) && !AllAttributable(old(disk).intake.value.retained) ==>
          disk == old(disk) && outcome != Ready
          && (starts != [] && starts[|starts| - 1] >= 4 ==> outcome == RefusedRows)
      ensures old(disk).aside == None && (exists k :: 0 <= k < |starts| && starts[k] >= 17)
              && (NeedsMigration(old(disk)) ==> AllAttributable(old(disk).intake.value.retained)) ==>
                disk == Opened(old(disk)) && (starts[|starts| - 1] >= 17 ==> outcome == Ready)
    {
      outcome := Died;
      ghost var first := disk;
      OpenedIdempotent(first);
      for i := 0 to |starts|
        invariant disk == working && !inTransaction && Valid(disk)
        invariant disk == first || disk == Opened(first)
        invariant outcome == Ready ==> disk == Opened(first) && disk.intake.Some? && disk.intake.value.NewTable?
        invariant outcome == RefusedRows ==>
            disk == first && NeedsMigration(disk) && !AllAttributable(disk.intake.value.retained)
        invariant NeedsMigration(first) && !AllAttributable(first.intake.value.retained) ==>
            disk == first && outcome != Ready && (i > 0 && starts[i - 1] >= 4 ==> outcome == RefusedRows)
        invariant first.aside == None && (exists k :: 0 <= k < i && starts[k] >= 17)
                  && (NeedsMigration(first) ==> AllAttributable(first.intake.value.retained)) ==>
                    disk == Opened(first) && (starts[i - 1] >= 17 ==> outcome == Ready)
      {
        outcome := EnsureSchema(starts[i]);
      }
    }
  }

  // ---------------------------------------------------------- rows nobody can own

  predicate IsMalformed(row: OldRow) { row.context.Malformed? }

  predicate IsWrongType(row: OldRow) { row.context.NotText? }

  /** The tenant is absent, or a string that is blank to Python. */
  predicate Ownerless(row: OldRow) {
    row.context.NoTenant? || (row.context.Text? && Trim(row.context.tenant, PYTHON_BLANKS) == "")
  }

  /** The keys of the rows of a kind, in their order. */
  function Keys(rows: seq<OldRow>, p: OldRow -> bool): seq<string> {
    if rows == [] then []
    else Keys(rows[..|rows| - 1], p) + (if p(rows[|rows| - 1]) then [rows[|rows| - 1].key] else [])
  }

  function Kinds(rows: seq<OldRow>): seq<(string, string)> {
    if rows == [] then []
    else
      var last := rows[|rows| - 1];
      Kinds(rows[..|rows| - 1]) + (if last.context.NotText? then [(last.key, last.context.kind)] else [])
  }

  function KeysOf(rows: seq<OldRow>): seq<string> {
    seq(|rows|, i requires 0 <= i < |rows| => rows[i].key)
  }

  function Firsts(pairs: seq<(string, string)>): seq<string> {
    seq(|pairs|, i requires 0 <= i < |pairs| => pairs[i].0)
  }

  /** ORDER BY idempotency_key. */
  function ByKey(rows: seq<OldRow>): (r: seq<OldRow>)
    ensures multiset(r) == multiset(rows)
  {
    if rows == [] then []
    else
      assert rows == [rows[0]] + rows[1..];
      InsertRow(rows[0], ByKey(rows[1..]))
  }

  function InsertRow(row: OldRow, rows: seq<OldRow>): (r: seq<OldRow>)
    ensures multiset(r) == multiset(rows) + multiset{row}
  {
    if rows == [] then [row]
    else if Below(rows[0].key, row.key) then
      assert rows == [rows[0]] + rows[1..];
      [rows[0]] + InsertRow(row, rows[1..])
    else [row] + rows
  }

  /** Inserting a row inserts its key. */
  lemma {:induction false} InsertRowKeys(row: OldRow, rows: seq<OldRow>)
    ensures KeysOf(InsertRow(row, rows)) == Insert(row.key, KeysOf(rows))
  {
    hide Below;
    if rows != [] {
      InsertRowKeys(row, rows[1..]);
      var keys := KeysOf(rows);
      assert keys[1..] == KeysOf(rows[1..]) && keys[0] == rows[0].key;
      KeysOfCons(rows[0], InsertRow(row, rows[1..]));
      KeysOfCons(row, rows);
    }
  }

  lemma KeysOfCons(row: OldRow, rows: seq<OldRow>)
    ensures KeysOf([row] + rows) == [row.key] + KeysOf(rows)
  {
  }

  lemma ByKeyAscending(rows: seq<OldRow>)
    requires UniqueKeys(rows)
    ensures KeysOf(ByKey(rows)) == Sorted(KeysOf(rows)) && Ascending(KeysOf(ByKey(rows)))
    ensures forall r :: r in ByKey(rows) <==> r in rows
  {
    KeysSorted(rows);
    SortedAscending(KeysOf(rows));
    forall r ensures r in ByKey(rows) <==> r in rows { assert r in multiset(ByKey(rows)) <==> r in multiset(rows); }
  }

  lemma {:induction false} KeysSorted(rows: seq<OldRow>)
    ensures KeysOf(ByKey(rows)) == Sorted(KeysOf(rows))
  {
    if rows != [] {
      KeysSorted(rows[1..]);
      assert KeysOf(rows)[1..] == KeysOf(rows[1..]);
      InsertRowKeys(rows[0], ByKey(rows[1..]));
    }
  }

  lemma AscendingOn(keys: seq<string>, last: string)
    requires Ascending(keys) && forall k :: k in keys ==> Below(k, last)
    ensures Ascending(keys + [last])
  {
    hide Below;
  }

  /** The keys of the rows of a kind are listed, no others, and still in order. */
  lemma {:induction false} KeysExact(rows: seq<OldRow>, p: OldRow -> bool)
    requires Ascending(KeysOf(rows))
    ensures Ascending(Keys(rows, p))
    ensures forall k :: k in Keys(rows, p) <==> exists r :: r in rows && r.key == k && p(r)
  {
    hide Below;
    if rows != [] {
      var front, last := rows[..|rows| - 1], rows[|rows| - 1];
      FrontAscending(rows);
      KeysExact(front, p);
      assert rows == front + [last];
      if p(last) { AscendingOn(Keys(front, p), last.key); }
    }
  }

  lemma FrontAscending(rows: seq<OldRow>)
    requires rows != [] && Ascending(KeysOf(rows))
    ensures Ascending(KeysOf(rows[..|rows| - 1]))
    ensures forall r :: r in rows[..|rows| - 1] ==> Below(r.key, rows[|rows| - 1].key)
  {
    hide Below;
    var keys := KeysOf(rows);
    assert KeysOf(rows[..|rows| - 1]) == keys[..|rows| - 1];
    forall i | 0 <= i < |rows| - 1 ensures Below(rows[i].key, rows[|rows| - 1].key) {
      assert Below(keys[i], keys[|rows| - 1]);
    }
  }

  lemma {:induction false} KindsExact(rows: seq<OldRow>)
    requires Ascending(KeysOf(rows))
    ensures Firsts(Kinds(rows)) == Keys(rows, IsWrongType)
    ensures forall k, t :: (k, t) in Kinds(rows) <==> exists r :: r in rows && r.key == k && r.context == NotText(t)
  {
    hide Below, Ascending;
    if rows != [] {
      var front, last := rows[..|rows| - 1], rows[|rows| - 1];
      FrontAscending(rows);
      KindsExact(front);
      assert rows == front + [last];
    }
  }

  /** What the three lists hold, for rows with their own keys. */
  lemma ListedExactly(rows: seq<OldRow>)
    requires UniqueKeys(rows)
    ensures var malformed, wrongType, absent :=
              Keys(ByKey(rows), IsMalformed), Kinds(ByKey(rows)), Keys(ByKey(rows), Ownerless);
            && Ascending(malformed) && Ascending(Firsts(wrongType)) && Ascending(absent)
            && (forall k :: k in malformed <==> exists r :: r in rows && r.key == k && r.context == Malformed)
            && (forall k, t :: (k, t) in wrongType <==> exists r :: r in rows && r.key == k && r.context == NotText(t))
            && (forall k :: k in absent <==> exists r :: r in rows && r.key == k && Ownerless(r))
            && (malformed == [] && wrongType == [] && absent == [] <==> AllAttributable(rows))
  {
    hide Below, Ascending, UniqueKeys, ByKey, Keys, Kinds, AllAttributable, Trim, KeysOf, Firsts;
    ByKeyAscending(rows);
    KeysExact(ByKey(rows), IsMalformed);
    KeysExact(ByKey(rows), IsWrongType);
    KeysExact(ByKey(rows), Ownerless);
    KindsExact(ByKey(rows));
    KeysOfRows(ByKey(rows));
    SameRows(rows, ByKey(rows));
  }

  lemma SameRows(a: seq<OldRow>, b: seq<OldRow>)
    requires forall r :: r in a <==> r in b
    ensures AllAttributable(a) <==> AllAttributable(b)
  {
    hide Attributable;
    forall i | 0 <= i < |a| ensures AllAttributable(b) ==> Attributable(a[i]) { assert a[i] in b; }
    forall i | 0 <= i < |b| ensures AllAttributable(a) ==> Attributable(b[i]) { assert b[i] in a; }
  }

  /** Nothing is listed exactly when every row can be attributed. */
  lemma {:induction false} KeysOfRows(rows: seq<OldRow>)
    ensures AllAttributable(rows) <==>
      Keys(rows, IsMalformed) == [] && Kinds(rows) == [] && Keys(rows, Ownerless) == []
  {
    hide Trim;
    if rows != [] {
      var front, last := rows[..|rows| - 1], rows[|rows| - 1];
      KeysOfRows(front);
      assert rows == front + [last];
      assert AllAttributable(rows) <==> AllAttributable(front) && Attributable(last);
    }
  }
}
