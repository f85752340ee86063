/** The string logic of Geode's generators (geode/generator.rb): `indent`,
    the column strings and primary-key normalisation of `ModelGenerator`,
    the naming of tables, files and migrations, and the rewrite of the
    schema dump. The inflector, the clock and the database's schema dumper
    are parameters. */
module Generator {
  import opened Common

  // ---------------------------------------------------------------------------
  // `String#split("\n")` and `Array#join("\n")`

  predicate NoNewline(s: string)
  {
    forall i :: 0 <= i < |s| ==> s[i] != '\n'
  }

  /** The pieces of `s` between newlines, empty ones included: one more
      piece than there are newlines. */
  function Pieces(s: string): (r: seq<string>)
    ensures |r| >= 1
    ensures forall i :: 0 <= i < |r| ==> NoNewline(r[i])
  {
    if s == [] then [""]
    else
      var rest := Pieces(s[1..]);
      if s[0] == '\n' then [""] + rest
      else [[s[0]] + rest[0]] + rest[1..]
  }

  /** Ruby's `split` drops the empty strings at the end of the result. */
  function DropTrailingEmpty(ls: seq<string>): (r: seq<string>)
    ensures |r| <= |ls| && r == ls[..|r|]
    ensures r == [] || r[|r| - 1] != ""
    ensures forall i :: |r| <= i < |ls| ==> ls[i] == ""
  {
    if ls == [] then []
    else if ls[|ls| - 1] == "" then DropTrailingEmpty(ls[..|ls| - 1])
    else ls
  }

  /** `str.split("\n")`. */
  function Lines(s: string): (r: seq<string>)
    ensures forall i :: 0 <= i < |r| ==> NoNewline(r[i])
    ensures r == [] || r[|r| - 1] != ""
  {
    var p := Pieces(s);
    var r := DropTrailingEmpty(p);
    assert forall i :: 0 <= i < |r| ==> r[i] == p[i];
    r
  }

  /** `lines.join("\n")`. */
  function Join(ls: seq<string>): string
  {
    if ls == [] then ""
    else if |ls| == 1 then ls[0]
    else ls[0] + "\n" + Join(ls[1..])
  }

  function Spaces(k: nat): (r: string)
    ensures |r| == k && forall i :: 0 <= i < k ==> r[i] == ' '
  {
    seq(k, _ => ' ')
  }

  function Prefixed(ls: seq<string>, k: nat): (r: seq<string>)
    ensures |r| == |ls|
    ensures forall i :: 0 <= i < |ls| ==> r[i] == Spaces(k) + ls[i]
  {
    seq(|ls|, i requires 0 <= i < |ls| => Spaces(k) + ls[i])
  }

  /** `ObjectGenerator#indent`. */
  function Indent(s: string, k: nat): string
  {
    Join(Prefixed(Lines(s), k))
  }

  lemma {:induction false} JoinCons(c: char, ls: seq<string>)
    requires ls != []
    ensures Join([[c] + ls[0]] + ls[1..]) == [c] + Join(ls)
  {
    var l := [[c] + ls[0]] + ls[1..];
    assert l[1..] == ls[1..];
  }

  /** Joining the pieces gives back the string. */
  lemma {:induction false} JoinPieces(s: string)
    ensures Join(Pieces(s)) == s
  {
    if s != [] {
      JoinPieces(s[1..]);
      var rest := Pieces(s[1..]);
      if s[0] == '\n' {
        assert ([""] + rest)[1..] == rest;
      } else {
        JoinCons(s[0], rest);
      }
    }
  }

  lemma {:induction false} PiecesOfLine(a: string, tail: string)
    requires NoNewline(a)
    ensures Pieces(a + "\n" + tail) == [a] + Pieces(tail)
  {
    if a == [] {
      assert "" + "\n" + tail == ['\n'] + tail;
      assert (['\n'] + tail)[1..] == tail;
    } else {
      PiecesOfLine(a[1..], tail);
      assert (a + "\n" + tail)[1..] == a[1..] + "\n" + tail;
      assert [a[0]] + a[1..] == a;
    }
  }

  lemma {:induction false} PiecesOfSingleLine(a: string)
    requires NoNewline(a)
    ensures Pieces(a) == [a]
  {
    if a != [] {
      PiecesOfSingleLine(a[1..]);
      assert [a[0]] + a[1..] == a;
    }
  }

  /** Splitting a join of newline-free lines gives back the lines. */
  lemma {:induction false} PiecesOfJoin(ls: seq<string>)
    requires ls != []
    requires forall i :: 0 <= i < |ls| ==> NoNewline(ls[i])
    ensures Pieces(Join(ls)) == ls
  {
    if |ls| == 1 {
      PiecesOfSingleLine(ls[0]);
    } else {
      PiecesOfJoin(ls[1..]);
      PiecesOfLine(ls[0], Join(ls[1..]));
    }
  }

  /** For a positive width, the lines of the indented string are the lines
      of the input, each with exactly `k` spaces in front. */
  lemma IndentLines(s: string, k: nat)
    requires k > 0
    ensures Lines(Indent(s, k)) == Prefixed(Lines(s), k)
  {
    var p := Prefixed(Lines(s), k);
    if p != [] {
      forall i | 0 <= i < |p|
        ensures NoNewline(p[i])
      {
        assert p[i] == Spaces(k) + Lines(s)[i];
      }
      PiecesOfJoin(p);
      assert p[|p| - 1] != "" by {
        assert |p[|p| - 1]| >= k;
      }
    }
  }

  /** A string that does not end with a newline comes back from a zero-width
      indent unchanged; trailing newlines are lost. */
  lemma IndentZero(s: string)
    requires s == [] || s[|s| - 1] != '\n'
    ensures Indent(s, 0) == s
  {
    if s != [] {
      var p := Pieces(s);
      PiecesEnd(s);
      assert Lines(s) == p;
      assert Prefixed(p, 0) == p by {
        assert forall i :: 0 <= i < |p| ==> Spaces(0) + p[i] == p[i];
      }
      JoinPieces(s);
    }
  }

  lemma {:induction false} PiecesEnd(s: string)
    requires s != [] && s[|s| - 1] != '\n'
    ensures var p := Pieces(s); p[|p| - 1] != ""
  {
    if |s| > 1 {
      PiecesEnd(s[1..]);
    }
  }

  /** A one-line string gains exactly `k` spaces in front. */
  lemma IndentOneLine(s: string, k: nat)
    requires s != [] && NoNewline(s)
    ensures Indent(s, k) == Spaces(k) + s
  {
    PiecesOfSingleLine(s);
    assert Lines(s) == [s];
  }

  // ---------------------------------------------------------------------------
  // `ModelGenerator`

  datatype Field = Field(name: string, fieldType: string)

  /** `VALID_FIELD_TYPES`. */
  const ValidFieldTypes: seq<string> :=
    ["primary_key", "integer", "string", "text", "boolean", "float", "date", "time", "references", "references_singleton"]

  /** `get_column_string`: the Sequel column for a field, nil for a type it
      does not know. */
  function ColumnString(f: Field, inflector: Inflector): (r: Option<string>)
    // exactly the types the generator lists as valid have a column form
    ensures r.Some? <==> f.fieldType in ValidFieldTypes
    ensures r.Some? ==> |r.value| > 0
  {
    var n := f.name;
    match f.fieldType
    case "primary_key" => Some("primary_key :" + n)
    case "integer" => Some("Integer :" + n)
    case "string" => Some("String :" + n)
    case "text" => Some("String :" + n + ", text: true")
    case "boolean" => Some("TrueClass :" + n)
    case "float" => Some("Float :" + n)
    case "date" => Some("Date :" + n)
    case "time" => Some("Time :" + n)
    case "references" => Some("foreign_key :" + inflector.foreignKey(n) + ", :" + inflector.tableize(n))
    case "references_singleton" => Some("foreign_key :" + inflector.foreignKey(n) + ", :" + inflector.underscore(n))
    case _ => None
  }

  /** Line 55: a primary key `id` goes in front unless some field is
      already a primary key. */
  function NormalizeFields(fields: seq<Field>): (r: seq<Field>)
    ensures (forall i :: 0 <= i < |fields| ==> fields[i].fieldType != "primary_key") ==> r == [Field("id", "primary_key")] + fields
    ensures (exists i :: 0 <= i < |fields| && fields[i].fieldType == "primary_key") ==> r == fields
    // afterwards there is always a primary key
    ensures exists i :: 0 <= i < |r| && r[i].fieldType == "primary_key"
  {
    if forall i :: 0 <= i < |fields| ==> fields[i].fieldType != "primary_key" then
      var r := [Field("id", "primary_key")] + fields;
      assert r[0].fieldType == "primary_key";
      r
    else fields
  }

  /** `indent(nil, 6)` raises NoMethodError: the field whose type has no
      column form. */
  datatype GenError = UnknownFieldType(field: Field)

  /** Field `j` is the first whose type has no column form. */
  predicate FirstUnknown(fields: seq<Field>, j: int)
  {
    && 0 <= j < |fields|
    && fields[j].fieldType !in ValidFieldTypes
    && forall i :: 0 <= i < j ==> fields[i].fieldType in ValidFieldTypes
  }

  /** Line 56: one column per field, in order, each indented by 6; the
      first field with an unknown type raises. */
  function Columns(fields: seq<Field>, inflector: Inflector): (r: Result<seq<string>, GenError>)
    ensures r.Ok? ==> |r.value| == |fields|
  {
    if fields == [] then Ok([])
    else
      var c := ColumnString(fields[0], inflector);
      if c.None? then Err(UnknownFieldType(fields[0]))
      else
        var rest := Columns(fields[1..], inflector);
        if rest.Err? then Err(rest.error)
        else Ok([Indent(c.value, 6)] + rest.value)
  }

  /** The columns are built exactly when every field's type is valid. */
  lemma {:induction false} ColumnsSucceed(fields: seq<Field>, inflector: Inflector)
    ensures Columns(fields, inflector).Ok? <==> forall i :: 0 <= i < |fields| ==> fields[i].fieldType in ValidFieldTypes
  {
    if fields != [] {
      ColumnsSucceed(fields[1..], inflector);
      assert forall i :: 1 <= i < |fields| ==> fields[i] == fields[1..][i - 1];
    }
  }

  /** Column `i` is the column string of field `i`, indented by 6. */
  lemma {:induction false} ColumnsInOrder(fields: seq<Field>, inflector: Inflector)
    requires Columns(fields, inflector).Ok?
    ensures forall i :: 0 <= i < |fields| ==>
      && ColumnString(fields[i], inflector).Some?
      && Columns(fields, inflector).value[i] == Indent(ColumnString(fields[i], inflector).value, 6)
  {
    if fields != [] {
      ColumnsInOrder(fields[1..], inflector);
      assert forall i :: 1 <= i < |fields| ==> fields[i] == fields[1..][i - 1];
    }
  }

  /** The error names the first field whose type is not valid. */
  lemma {:induction false} ColumnsFirstError(fields: seq<Field>, inflector: Inflector)
    requires Columns(fields, inflector).Err?
    ensures exists j :: FirstUnknown(fields, j) && Columns(fields, inflector).error == UnknownFieldType(fields[j])
  {
    if ColumnString(fields[0], inflector).None? {
      assert FirstUnknown(fields, 0);
    } else {
      ColumnsFirstError(fields[1..], inflector);
      var j :| FirstUnknown(fields[1..], j) && Columns(fields[1..], inflector).error == UnknownFieldType(fields[1..][j]);
      assert FirstUnknown(fields, j + 1);
    }
  }

  /** Fields whose names contain no newline get columns that are their
      column strings with six spaces in front. */
  lemma ColumnsAreIndented(fields: seq<Field>, inflector: Inflector)
    requires Columns(fields, inflector).Ok?
    requires forall i :: 0 <= i < |fields| ==>
      ColumnString(fields[i], inflector).Some? && NoNewline(ColumnString(fields[i], inflector).value)
    ensures forall i :: 0 <= i < |fields| ==>
      Columns(fields, inflector).value[i] == "      " + ColumnString(fields[i], inflector).value
  {
    ColumnsInOrder(fields, inflector);
    forall i | 0 <= i < |fields|
      ensures Columns(fields, inflector).value[i] == "      " + ColumnString(fields[i], inflector).value
    {
      IndentOneLine(ColumnString(fields[i], inflector).value, 6);
    }
  }

  function TableName(name: string, singleton: bool, inflector: Inflector): string
  {
    if singleton then inflector.underscore(name) else inflector.tableize(name)
  }

  /** `s` without the given prefix and suffix, if it has both. */
  function StripAffixes(s: string, prefix: string, suffix: string): (r: Option<string>)
    ensures r.Some? ==> s == prefix + r.value + suffix
    ensures r.None? ==> forall m :: s != prefix + m + suffix
  {
    if |s| >= |prefix| + |suffix| && s[..|prefix|] == prefix && s[|s| - |suffix|..] == suffix
      then
        var m := s[|prefix|..|s| - |suffix|];
        assert s == prefix + m + suffix;
        Some(m)
      else
        assert forall m :: (|prefix + m + suffix| >= |prefix| + |suffix| && (prefix + m + suffix)[..|prefix|] == prefix
          && (prefix + m + suffix)[|prefix + m + suffix| - |suffix|..] == suffix);
        None
  }

  /** Line 52: `Add<Table>TableToDatabase`. */
  function AddMigrationName(table: string, inflector: Inflector): (r: string)
    ensures StripAffixes(r, "Add", "TableToDatabase") == Some(inflector.camelize(table))
  {
    var r := "Add" + inflector.camelize(table) + "TableToDatabase";
    assert StripAffixes(r, "Add", "TableToDatabase").Some?;
    r
  }

  /** Line 118: `Remove<Table>TableFromDatabase`. */
  function RemoveMigrationName(table: string, inflector: Inflector): (r: string)
    ensures StripAffixes(r, "Remove", "TableFromDatabase") == Some(inflector.camelize(table))
  {
    var r := "Remove" + inflector.camelize(table) + "TableFromDatabase";
    assert StripAffixes(r, "Remove", "TableFromDatabase").Some?;
    r
  }

  /** Line 98: `Rename<Old>TableTo<New>`. */
  function RenameMigrationName(oldTable: string, newTable: string, inflector: Inflector): (r: string)
    ensures StripAffixes(r, "Rename", inflector.camelize(newTable)) == Some(inflector.camelize(oldTable) + "TableTo")
  {
    var r := "Rename" + inflector.camelize(oldTable) + "TableTo" + inflector.camelize(newTable);
    assert r == "Rename" + (inflector.camelize(oldTable) + "TableTo") + inflector.camelize(newTable);
    assert StripAffixes(r, "Rename", inflector.camelize(newTable)).Some?;
    r
  }

  /** The file of a timestamped migration: `<timestamp>_<underscored name>.rb`,
      the timestamp standing for `Time.now.strftime("%Y%m%d%H%M%S")`. */
  function MigrationFilename(timestamp: string, migration: string, inflector: Inflector): (r: string)
    ensures StripAffixes(r, timestamp + "_", ".rb") == Some(inflector.underscore(migration))
  {
    var r := timestamp + "_" + inflector.underscore(migration) + ".rb";
    assert StripAffixes(r, timestamp + "_", ".rb").Some?;
    r
  }

  /** Line 53: the model file. */
  function ModelFilename(name: string, singleton: bool, inflector: Inflector): (r: string)
    ensures singleton ==> StripAffixes(r, "", "_singleton.rb") == Some(inflector.underscore(name))
    ensures !singleton ==> StripAffixes(r, "", ".rb") == Some(inflector.underscore(name))
  {
    var r := inflector.underscore(name) + (if singleton then "_singleton.rb" else ".rb");
    assert StripAffixes(r, "", if singleton then "_singleton.rb" else ".rb").Some?;
    r
  }

  /** The instance variables `ModelGenerator#initialize` sets. */
  datatype ModelGenerator = ModelGenerator(
    modelName: string,
    singleton: bool,
    tableName: string,
    migrationName: string,
    modelFilename: string,
    migrationFilename: string,
    columns: seq<string>)

  /** `ModelGenerator.new(name, fields, singleton:)`; raises when a field's
      type has no column form. */
  function NewModelGenerator(name: string, fields: seq<Field>, singleton: bool, timestamp: string, inflector: Inflector)
    : (r: Result<ModelGenerator, GenError>)
    ensures r.Ok? <==> forall i :: 0 <= i < |NormalizeFields(fields)| ==> NormalizeFields(fields)[i].fieldType in ValidFieldTypes
    ensures r.Ok? ==>
      var g := r.value;
      && g.modelName == inflector.camelize(name)
      && g.singleton == singleton
      && g.tableName == TableName(name, singleton, inflector)
      && StripAffixes(g.migrationName, "Add", "TableToDatabase") == Some(inflector.camelize(g.tableName))
      && g.migrationFilename == MigrationFilename(timestamp, g.migrationName, inflector)
      && g.modelFilename == ModelFilename(name, singleton, inflector)
      && |g.columns| == |NormalizeFields(fields)|
      && forall i :: 0 <= i < |g.columns| ==> g.columns[i] == Indent(ColumnString(NormalizeFields(fields)[i], inflector).value, 6)
  {
    var table := TableName(name, singleton, inflector);
    var migration := AddMigrationName(table, inflector);
    var columns := Columns(NormalizeFields(fields), inflector);
    ColumnsSucceed(NormalizeFields(fields), inflector);
    if columns.Err? then Err(columns.error)
    else
      ColumnsInOrder(NormalizeFields(fields), inflector);
      Ok(ModelGenerator(
      inflector.camelize(name),
      singleton,
      table,
      migration,
      ModelFilename(name, singleton, inflector),
      MigrationFilename(timestamp, migration, inflector),
      columns.value))
  }

  // ---------------------------------------------------------------------------
  // The other generators

  /** `ModelRenameMigrationGenerator.new`: the migration's name and file. */
  function RenameMigration(oldName: string, newName: string, singleton: bool, timestamp: string, inflector: Inflector)
    : (r: (string, string))
    ensures r.0 == RenameMigrationName(TableName(oldName, singleton, inflector), TableName(newName, singleton, inflector), inflector)
    ensures r.1 == MigrationFilename(timestamp, r.0, inflector)
  {
    var name := RenameMigrationName(TableName(oldName, singleton, inflector), TableName(newName, singleton, inflector), inflector);
    (name, MigrationFilename(timestamp, name, inflector))
  }

  /** `ModelDestroyMigrationGenerator.new`: the migration's name, its file,
      and the table's dumped schema (`dump`) indented by 4 for the rollback. */
  function DestroyMigration(name: string, singleton: bool, timestamp: string, dump: string -> string, inflector: Inflector)
    : (r: (string, string, string))
    ensures r.0 == RemoveMigrationName(TableName(name, singleton, inflector), inflector)
    ensures r.1 == MigrationFilename(timestamp, r.0, inflector)
    ensures r.2 == Indent(dump(TableName(name, singleton, inflector)), 4)
  {
    var table := TableName(name, singleton, inflector);
    var migration := RemoveMigrationName(table, inflector);
    (migration, MigrationFilename(timestamp, migration, inflector), Indent(dump(table), 4))
  }

  datatype MigrationTemplate = ChangeTemplate | UpDownTemplate

  /** `MigrationGenerator`: the camelised name, the file, and the template
      `generate_in` renders. */
  function PlainMigration(name: string, withUpDown: bool, timestamp: string, inflector: Inflector)
    : (r: (string, string, MigrationTemplate))
    ensures r.0 == inflector.camelize(name)
    ensures r.1 == MigrationFilename(timestamp, r.0, inflector)
    ensures r.2 == ChangeTemplate <==> !withUpDown
  {
    var camel := inflector.camelize(name);
    (camel, MigrationFilename(timestamp, camel, inflector), if !withUpDown then ChangeTemplate else UpDownTemplate)
  }

  // ---------------------------------------------------------------------------
  // `SchemaGenerator`

  predicate OccursAt(s: string, pat: string, i: int)
  {
    0 <= i && i + |pat| <= |s| && s[i..i + |pat|] == pat
  }

  /** The first position from `from` on at which `pat` occurs in `s`. */
  function FindFirst(s: string, pat: string, from: nat): (r: Option<nat>)
    requires from <= |s|
    decreases |s| - from
    ensures r.Some? ==> from <= r.value && OccursAt(s, pat, r.value)
    ensures r.Some? ==> forall i :: from <= i < r.value ==> !OccursAt(s, pat, i)
    ensures r.None? ==> forall i :: from <= i ==> !OccursAt(s, pat, i)
  {
    if from + |pat| > |s| then None
    else if s[from..from + |pat|] == pat then Some(from)
    else FindFirst(s, pat, from + 1)
  }

  /** `String#sub(pat, rep)` with a plain-string pattern: the first
      occurrence is replaced, the rest of the string is kept. */
  function SubFirst(s: string, pat: string, rep: string): (r: string)
    ensures FindFirst(s, pat, 0).None? ==> r == s
    ensures FindFirst(s, pat, 0).Some? ==>
      var i := FindFirst(s, pat, 0).value;
      r == s[..i] + rep + s[i + |pat|..]
  {
    var i := FindFirst(s, pat, 0);
    if i.None? then s else s[..i.value] + rep + s[i.value + |pat|..]
  }

  /** The tables the schema lists: every table but `schema_migrations`, in
      the database's order. */
  function SchemaTables(tables: seq<string>): (r: seq<string>)
    ensures forall t :: t in r <==> t in tables && t != "schema_migrations"
    ensures |r| <= |tables|
    ensures forall t :: multiset(r)[t] == if t == "schema_migrations" then 0 else multiset(tables)[t]
  {
    if tables == [] then []
    else
      assert tables == [tables[0]] + tables[1..];
      if tables[0] == "schema_migrations" then SchemaTables(tables[1..])
      else [tables[0]] + SchemaTables(tables[1..])
  }

  /** The listing of a concatenation lists each part, in order; with the
      multiplicities above, the listed tables are the database's tables in
      its order with `schema_migrations` left out. */
  lemma {:induction false} SchemaTablesAppend(a: seq<string>, b: seq<string>)
    ensures SchemaTables(a + b) == SchemaTables(a) + SchemaTables(b)
    decreases |a|
  {
    if a != [] {
      assert (a + b)[1..] == a[1..] + b;
      assert (a + b)[0] == a[0];
      SchemaTablesAppend(a[1..], b);
    } else {
      assert a + b == b;
    }
  }

  /** `SchemaGenerator.new(db)`: the dump of each listed table, with its
      first `create_table` made conditional, indented by 4. */
  function Schema(tables: seq<string>, dump: string -> string): (r: seq<string>)
    ensures |r| == |SchemaTables(tables)|
    ensures forall i :: 0 <= i < |r| ==>
      r[i] == Indent(SubFirst(dump(SchemaTables(tables)[i]), "create_table", "db.create_table?"), 4)
  {
    var kept := SchemaTables(tables);
    seq(|kept|, i requires 0 <= i < |kept| => Indent(SubFirst(dump(kept[i]), "create_table", "db.create_table?"), 4))
  }

  /** Each rewritten dump reads `db.create_table?` where the dump first said
      `create_table`, and is otherwise the dump. */
  lemma SubFirstRewrites(s: string)
    requires FindFirst(s, "create_table", 0).Some?
    ensures var i := FindFirst(s, "create_table", 0).value;
      var r := SubFirst(s, "create_table", "db.create_table?");
      && r[..i] == s[..i]
      && r[i..i + 16] == "db.create_table?"
      && r[i + 16..] == s[i + 12..]
  {
  }
}
