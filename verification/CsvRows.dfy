/**
 Hosts as CSV rows: what the exporter writes and the importer reads, one cell per column.
 */
module CsvRows {
  import opened Wrappers
  import opened Strings

  /** `tags` None is Go's nil slice. */
  datatype Record = Record(title: string, hostname: string, port: int, username: string, authMethod: string,
                           keyPath: string, tags: Option<seq<string>>, group: string, color: string)

  datatype Error = Columns(row: nat, got: nat) | Port(row: nat, text: string)

  const HEADER := ["label", "hostname", "port", "username", "auth_method", "key_path", "tags", "group", "color"]

  function ToRow(r: Record): seq<string> {
    [r.title, r.hostname, Show(r.port), r.username, r.authMethod, r.keyPath,
     if r.tags == None then "" else Join(r.tags.value, '|'), r.group, r.color]
  }

  /** What a record has under the name of a column. */
  function Field(r: Record, column: string): string {
    match column
    case "label" => r.title
    case "hostname" => r.hostname
    case "port" => Show(r.port)
    case "username" => r.username
    case "auth_method" => r.authMethod
    case "key_path" => r.keyPath
    case "tags" => if r.tags == None then "" else Join(r.tags.value, '|')
    case "group" => r.group
    case "color" => r.color
    case _ => "?"
  }

  /** Every cell stands under the name of its field. */
  lemma CellsUnderNames(r: Record)
    ensures |ToRow(r)| == |HEADER| && forall k :: 0 <= k < |HEADER| ==> ToRow(r)[k] == Field(r, HEADER[k])
  {}

  function ToRows(records: seq<Record>): (rows: seq<seq<string>>)
    ensures |rows| == 1 + |records| && rows[0] == HEADER
    ensures forall i :: 0 <= i < |records| ==> rows[i + 1] == ToRow(records[i])
  {
    [HEADER] + seq(|records|, i requires 0 <= i < |records| => ToRow(records[i]))
  }

  method ExportRows(records: seq<Record>) returns (rows: seq<seq<string>>)
    ensures rows == ToRows(records)
  {
    hide ToRow;
    rows := [HEADER];
    for i := 0 to |records|
      invariant rows == ToRows(records)[..i + 1]
    {
      rows := rows + [ToRow(records[i])];
    }
  }

  /** One imported row; None if it has too few columns or its port is no number. */
  function FromRow(row: seq<string>): Option<Record> {
    if |row| < 9 || Atoi(row[2]) == None then None
    else Some(Record(row[0], row[1], Atoi(row[2]).value, row[3], if row[4] == "" then "agent" else row[4], row[5],
                     if row[6] == "" then None else Some(Split(row[6], '|')), row[7], row[8]))
  }

  /** The error names the first row that cannot be read, and why. */
  ghost predicate FirstBad(rows: seq<seq<string>>, e: Error) {
    && 2 <= e.row <= |rows| && FromRow(rows[e.row - 1]) == None
    && (forall i :: 1 <= i < e.row - 1 ==> FromRow(rows[i]).Some?)
    && e == if |rows[e.row - 1]| < 9 then Columns(e.row, |rows[e.row - 1]|) else Port(e.row, rows[e.row - 1][2])
  }

  /** The first row that cannot be read stops the import; rows are numbered as in the file, header first. */
  method ImportRows(rows: seq<seq<string>>) returns (r: Result<seq<Record>, Error>)
    ensures r.Ok? <==> forall i :: 1 <= i < |rows| ==> FromRow(rows[i]).Some?
    ensures r.Ok? ==> |r.value| == (if rows == [] then 0 else |rows| - 1)
    ensures r.Ok? ==> forall i :: 1 <= i < |rows| ==> FromRow(rows[i]) == Some(r.value[i - 1])
    ensures r.Err? ==> FirstBad(rows, r.error)
  {
    if |rows| < 2 {
      return Ok([]);
    }
    var candidates := [];
    for i := 1 to |rows|
      invariant |candidates| == i - 1
      invariant forall j :: 1 <= j < i ==> FromRow(rows[j]) == Some(candidates[j - 1])
    {
      var row := rows[i];
      if |row| < 9 {
        return Err(Columns(i + 1, |row|));
      }
      var port := Atoi(row[2]);
      if port == None {
        return Err(Port(i + 1, row[2]));
      }
      var tags := None;
      if row[6] != "" {
        tags := Some(Split(row[6], '|'));
      }
      var auth := row[4];
      if auth == "" {
        auth := "agent";
      }
      candidates := candidates + [Record(row[0], row[1], port.value, row[3], auth, row[5], tags, row[7], row[8])];
    }
    r := Ok(candidates);
  }

  /** No tags, or tags that the joined cell tells apart. */
  ghost predicate TagsSurvive(tags: Option<seq<string>>) {
    tags.Some? ==> tags.value != [] && tags.value != [""] && Free(tags.value, '|')
  }

  /** The record has an authentication method, its port is an int, and its tags survive. */
  ghost predicate Survives(r: Record) {
    r.authMethod != "" && INT64_MIN <= r.port <= INT64_MAX && TagsSurvive(r.tags)
  }

  lemma TagsRoundTrip(tags: Option<seq<string>>)
    ensures var cell := if tags == None then "" else Join(tags.value, '|');
      (if cell == "" then None else Some(Split(cell, '|'))) == tags <==> TagsSurvive(tags)
  {
    if tags.Some? {
      JoinEmpty(tags.value, '|');
      SplitJoin(tags.value, '|');
    }
  }

  /** Columns beyond the ninth are ignored. */
  lemma MoreColumns(row: seq<string>, more: seq<string>)
    requires |row| >= 9
    ensures FromRow(row + more) == FromRow(row)
  {
    assert forall k :: 0 <= k < 9 ==> (row + more)[k] == row[k];
  }

  /** A row is read exactly when it has nine columns and its third is a number of 64 bits, with or without a sign. */
  lemma ReadsExactly(row: seq<string>)
    ensures FromRow(row).Some? <==> |row| >= 9 && exists n :: INT64_MIN <= n <= INT64_MAX && Denotes(row[2], n)
  {
    if |row| >= 9 {
      if FromRow(row).Some? { AtoiExact(row[2], FromRow(row).value.port); }
      if n :| INT64_MIN <= n <= INT64_MAX && Denotes(row[2], n) { AtoiExact(row[2], n); }
    }
  }

  /** Reading back a written row gives the record, exactly for the records that survive. */
  lemma RowRoundTrip(r: Record)
    ensures FromRow(ToRow(r)) == Some(r) <==> Survives(r)
  {
    AtoiShow(r.port);
    TagsRoundTrip(r.tags);
  }

  /** What is lost otherwise: an empty method becomes "agent", an empty tag list none, and tags are cut at each bar. */
  lemma RowAlwaysReads(r: Record)
    requires INT64_MIN <= r.port <= INT64_MAX
    ensures FromRow(ToRow(r)) == Some(r.(
      authMethod := if r.authMethod == "" then "agent" else r.authMethod,
      tags := if r.tags == None || r.tags.value == [] || r.tags.value == [""] then None
              else Some(Split(Join(r.tags.value, '|'), '|'))))
  {
    AtoiShow(r.port);
    hide Show, Atoi, Split, Join;
    if r.tags.Some? { JoinEmpty(r.tags.value, '|'); }
  }

  /** Exporting and importing returns every record unchanged and in order, exactly when all of them survive. */
  lemma RoundTrip(records: seq<Record>, imported: seq<Record>)
    requires |imported| == |records|
    requires forall i :: 0 <= i < |records| ==> FromRow(ToRows(records)[i + 1]) == Some(imported[i])
    ensures imported == records <==> forall i :: 0 <= i < |records| ==> Survives(records[i])
  {
    hide FromRow, ToRow, Survives;
    forall i | 0 <= i < |records|
      ensures imported[i] == records[i] <==> Survives(records[i])
    {
      RowRoundTrip(records[i]);
      assert ToRows(records)[i + 1] == ToRow(records[i]);
    }
  }

  /** The two loops one after the other. */
  method ExportThenImport(records: seq<Record>) returns (r: Result<seq<Record>, Error>)
    ensures r == Ok(records) <==> forall i :: 0 <= i < |records| ==> Survives(records[i])
  {
    var rows := ExportRows(records);
    r := ImportRows(rows);
    if r.Ok? {
      RoundTrip(records, r.value);
    } else {
      RowRoundTrip(records[r.error.row - 2]);
    }
    hide FromRow, ToRow, Survives;
  }
}
