/** Row selection of the extractor: the first ten rows of the first table's
    body that have at least one td cell, each projected to its first three
    cells, in document order. */
module Extractor {
  import opened Banks

  /** The extractor stops after this many accepted rows. */
  const MaxRecords: nat := 10

  /** The rows that have at least one cell, in document order. */
  function Qualifying(rows: seq<Row>): (q: seq<Row>)
    ensures |q| <= |rows|
    ensures forall k :: 0 <= k < |q| ==> q[k] != []
  {
    if rows == [] then []
    else
      var init := Qualifying(rows[..|rows| - 1]);
      if rows[|rows| - 1] == [] then init else init + [rows[|rows| - 1]]
  }

  /** The rows the extractor accepts: the first MaxRecords qualifying rows. */
  function Accepted(rows: seq<Row>): (acc: seq<Row>)
    ensures |acc| == if |Qualifying(rows)| < MaxRecords then |Qualifying(rows)| else MaxRecords
    ensures acc <= Qualifying(rows)
  {
    var q := Qualifying(rows);
    if |q| < MaxRecords then q else q[..MaxRecords]
  }

  /** Cells 0, 1 and 2 of a row as (Rank, Bank_name, Market_Cap(USD)). */
  function Project(cells: Row): BankRecord
    requires |cells| >= 3
  {
    BankRecord(cells[0], cells[1], cells[2])
  }

  /** What the extractor yields for the rows of a table body: a failure when
      an accepted row has fewer than three cells, else the accepted rows projected. */
  function Selection(rows: seq<Row>): Result<seq<BankRecord>>
  {
    var acc := Accepted(rows);
    if exists k :: 0 <= k < |acc| && |acc[k]| < 3 then Err(RowTooShort)
    else Ok(seq(|acc|, k requires 0 <= k < |acc| => Project(acc[k])))
  }

  /** What the extractor yields for the candidate tables of a page. */
  function Extraction(tables: seq<HtmlTable>): Result<seq<BankRecord>>
  {
    if tables == [] then Err(NoTable)
    else match tables[0].body
      case None => Err(NoTableBody)
      case Some(rows) => Selection(rows)
  }

  lemma {:induction false} QualifyingAppend(a: seq<Row>, b: seq<Row>)
    ensures Qualifying(a + b) == Qualifying(a) + Qualifying(b)
  {
    if b == [] {
      assert a + b == a;
    } else {
      var b' := b[..|b| - 1];
      assert (a + b)[..|a + b| - 1] == a + b';
      assert (a + b)[|a + b| - 1] == b[|b| - 1];
      QualifyingAppend(a, b');
    }
  }

  /** One more row extends the qualifying rows by that row exactly when it has a cell. */
  lemma QualifyingStep(rows: seq<Row>, i: nat)
    requires i < |rows|
    ensures Qualifying(rows[..i + 1]) == Qualifying(rows[..i]) + (if rows[i] == [] then [] else [rows[i]])
  {
    assert rows[..i + 1][..i] == rows[..i];
  }

  /** The selection loop of `extract`. The counter `count` is kept equal to
      the number of records built so far; once it reaches MaxRecords the loop
      ends without looking at the remaining rows. */
  method SelectRecords(rows: seq<Row>) returns (r: Result<seq<BankRecord>>)
    ensures r == Selection(rows)
  {
    var records: seq<BankRecord> := [];
    var count: nat := 0;
    var i := 0;
    while i < |rows|
      invariant 0 <= i <= |rows|
      invariant count == |records| <= MaxRecords
      invariant |Qualifying(rows[..i])| == count
      invariant forall k :: 0 <= k < count ==>
                  |Qualifying(rows[..i])[k]| >= 3 && records[k] == Project(Qualifying(rows[..i])[k])
    {
      if count < MaxRecords {
        var cells := rows[i];
        QualifyingStep(rows, i);
        if |cells| != 0 {
          if |cells| < 3 {
            ShortRowRejects(rows, i);
            return Err(RowTooShort);
          }
          records := records + [BankRecord(cells[0], cells[1], cells[2])];
          count := count + 1;
        }
      } else {
        break;
      }
      i := i + 1;
    }
    AcceptedIsPrefix(rows, i);
    var acc := Accepted(rows);
    assert !exists k :: 0 <= k < |acc| && |acc[k]| < 3;
    assert records == seq(|acc|, k requires 0 <= k < |acc| => Project(acc[k]));
    r := Ok(records);
  }

  /** A short row reached while fewer than MaxRecords rows are accepted makes the selection fail. */
  lemma ShortRowRejects(rows: seq<Row>, i: nat)
    requires i < |rows| && rows[i] != [] && |rows[i]| < 3
    requires |Qualifying(rows[..i])| < MaxRecords
    ensures Selection(rows) == Err(RowTooShort)
  {
    QualifyingStep(rows, i);
    assert rows == rows[..i + 1] + rows[i + 1..];
    QualifyingAppend(rows[..i + 1], rows[i + 1..]);
    var k := |Qualifying(rows[..i])|;
    assert Accepted(rows)[k] == rows[i];
  }

  /** When the loop stops, the rows it accepted are exactly Accepted(rows). */
  lemma AcceptedIsPrefix(rows: seq<Row>, i: nat)
    requires i <= |rows|
    requires |Qualifying(rows[..i])| <= MaxRecords
    requires i == |rows| || |Qualifying(rows[..i])| == MaxRecords
    ensures Accepted(rows) == Qualifying(rows[..i])
  {
    assert rows == rows[..i] + rows[i..];
    QualifyingAppend(rows[..i], rows[i..]);
    if i == |rows| {
      assert rows[i..] == [];
    }
  }

  /** Record i of the qualifying rows is the row that has exactly i qualifying rows before it. */
  lemma {:induction false} QualifyingSource(rows: seq<Row>, i: nat)
    requires i < |Qualifying(rows)|
    ensures exists j :: 0 <= j < |rows| && rows[j] != [] && |Qualifying(rows[..j])| == i
                        && Qualifying(rows)[i] == rows[j]
  {
    var n := |rows| - 1;
    var init := rows[..n];
    assert rows[..n] == init;
    if i < |Qualifying(init)| {
      QualifyingSource(init, i);
      var j :| 0 <= j < |init| && init[j] != [] && |Qualifying(init[..j])| == i
               && Qualifying(init)[i] == init[j];
      assert rows[..j] == init[..j];
      assert rows[j] == init[j];
    } else {
      assert rows[n] != [] && Qualifying(rows)[i] == rows[n];
    }
  }

  /** The extractor never returns more than ten records, and it returns
      min(10, number of rows with at least one cell) of them. */
  lemma SelectionCount(rows: seq<Row>)
    requires Selection(rows).Ok?
    ensures |Selection(rows).value| <= MaxRecords
    ensures |Selection(rows).value| == if |Qualifying(rows)| < MaxRecords then |Qualifying(rows)| else MaxRecords
  {
  }

  /** Document order: record i holds cells 0, 1 and 2 of the row that has
      exactly i rows with cells before it. */
  lemma SelectionOrder(rows: seq<Row>, i: nat)
    requires Selection(rows).Ok? && i < |Selection(rows).value|
    ensures exists j :: 0 <= j < |rows| && |rows[j]| >= 3 && |Qualifying(rows[..j])| == i
                        && Selection(rows).value[i] == Project(rows[j])
  {
    QualifyingSource(rows, i);
    var j :| 0 <= j < |rows| && rows[j] != [] && |Qualifying(rows[..j])| == i
             && Qualifying(rows)[i] == rows[j];
    assert Accepted(rows)[i] == rows[j];
  }

  /** Conversely, a row with cells that has fewer than ten rows with cells
      before it yields the record at the position given by that count. */
  lemma RowYieldsRecord(rows: seq<Row>, j: nat)
    requires Selection(rows).Ok?
    requires j < |rows| && rows[j] != [] && |Qualifying(rows[..j])| < MaxRecords
    ensures |rows[j]| >= 3 && |Qualifying(rows[..j])| < |Selection(rows).value|
    ensures Selection(rows).value[|Qualifying(rows[..j])|] == Project(rows[j])
  {
    QualifyingStep(rows, j);
    assert rows == rows[..j + 1] + rows[j + 1..];
    QualifyingAppend(rows[..j + 1], rows[j + 1..]);
    assert Accepted(rows)[|Qualifying(rows[..j])|] == rows[j];
  }

  /** A row without cells changes nothing, wherever it stands. */
  lemma EmptyRowSkipped(before: seq<Row>, after: seq<Row>)
    ensures Selection(before + [[]] + after) == Selection(before + after)
  {
    QualifyingAppend(before + [[]], after);
    QualifyingAppend(before, [[]]);
    QualifyingAppend(before, after);
    assert Qualifying([[]]) == [];
  }

  /** Once ten rows with cells have been seen, later rows are never inspected:
      whatever follows, even a malformed row, leaves the result unchanged. */
  lemma RowsAfterLimitIgnored(prefix: seq<Row>, rest: seq<Row>)
    requires |Qualifying(prefix)| >= MaxRecords
    ensures Selection(prefix + rest) == Selection(prefix)
  {
    QualifyingAppend(prefix, rest);
    assert Accepted(prefix + rest) == Accepted(prefix);
  }

  /** The extractor fails exactly when there is no table, the first table has no
      body, or a row with one or two cells is reached before ten rows are accepted. */
  lemma ExtractionFailsIff(tables: seq<HtmlTable>)
    ensures Extraction(tables).Err? <==>
              tables == [] || tables[0].body.None? ||
              exists j :: 0 <= j < |tables[0].body.value| && tables[0].body.value[j] != []
                          && |tables[0].body.value[j]| < 3
                          && |Qualifying(tables[0].body.value[..j])| < MaxRecords
  {
    if tables != [] && tables[0].body.Some? {
      var rows := tables[0].body.value;
      if Selection(rows).Err? {
        var acc := Accepted(rows);
        var k :| 0 <= k < |acc| && |acc[k]| < 3;
        QualifyingSource(rows, k);
        var j :| 0 <= j < |rows| && rows[j] != [] && |Qualifying(rows[..j])| == k
                 && Qualifying(rows)[k] == rows[j];
        assert |rows[j]| < 3;
      }
      if exists j :: 0 <= j < |rows| && rows[j] != [] && |rows[j]| < 3
                     && |Qualifying(rows[..j])| < MaxRecords {
        var j :| 0 <= j < |rows| && rows[j] != [] && |rows[j]| < 3
                 && |Qualifying(rows[..j])| < MaxRecords;
        ShortRowRejects(rows, j);
      }
    }
  }
}
