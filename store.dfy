/** The append-only `farm_yield.csv` written through a `csv::Writer`
    (`src/main.rs`). The file is a sequence of lines; the writer is opened once
    and keeps whether it still owes the header line. The writer buffers what it
    serializes and `wtr.flush()` writes it into the file, so `lines` is the
    file's content once the cycle's flush has succeeded. */
module Store {
  import opened Wrappers
  import opened Snapshot

  /** The column header, or one serialized record. */
  datatype Line = HeaderLine(columns: seq<string>) | RecordLine(row: Row)

  /** Column names of the header line the writer derives from `Row`, in the
      order of its fields. */
  const Columns: seq<string> := ["farm_id", "date", "token_deposit", "usd_value", "usd_reward"]

  const Header: Line := HeaderLine(Columns)

  /** The record lines of `rows`, in order. */
  function Records(rows: seq<Row>): (lines: seq<Line>)
    ensures |lines| == |rows|
  {
    if |rows| == 0 then [] else [RecordLine(rows[0])] + Records(rows[1..])
  }

  /** What a writer appends to the file after serializing `rows`: the header
      first if it was owed and anything was serialized, then one line per row. */
  function Emitted(withHeader: bool, rows: seq<Row>): (lines: seq<Line>)
    ensures |lines| == |rows| + (if withHeader && |rows| > 0 then 1 else 0)
    ensures withHeader && |rows| > 0 ==> lines[0] == Header
    ensures lines[|lines| - |rows|..] == Records(rows)
  {
    (if withHeader && |rows| > 0 then [Header] else []) + Records(rows)
  }

  function HeaderCount(lines: seq<Line>): nat {
    if |lines| == 0 then 0 else (if lines[0].HeaderLine? then 1 else 0) + HeaderCount(lines[1..])
  }

  /** The rows a file holds, reading its record lines in order. */
  function RowsIn(lines: seq<Line>): (rows: seq<Row>)
    ensures |rows| <= |lines|
  {
    if |lines| == 0 then []
    else match lines[0]
      case HeaderLine(_) => RowsIn(lines[1..])
      case RecordLine(r) => [r] + RowsIn(lines[1..])
  }

  lemma {:induction false} RecordsAppend(rows: seq<Row>, row: Row)
    ensures Records(rows + [row]) == Records(rows) + [RecordLine(row)]
  {
    if |rows| > 0 {
      assert (rows + [row])[1..] == rows[1..] + [row];
      RecordsAppend(rows[1..], row);
    } else {
      assert rows + [row] == [row];
    }
  }

  lemma {:induction false} HeaderCountAppend(a: seq<Line>, b: seq<Line>)
    ensures HeaderCount(a + b) == HeaderCount(a) + HeaderCount(b)
  {
    if |a| > 0 {
      assert (a + b)[1..] == a[1..] + b;
      HeaderCountAppend(a[1..], b);
    } else {
      assert a + b == b;
    }
  }

  lemma {:induction false} RowsInAppend(a: seq<Line>, b: seq<Line>)
    ensures RowsIn(a + b) == RowsIn(a) + RowsIn(b)
  {
    if |a| > 0 {
      assert (a + b)[1..] == a[1..] + b;
      RowsInAppend(a[1..], b);
    } else {
      assert a + b == b;
    }
  }

  /** Record lines carry no header and read back as the rows they came from. */
  lemma {:induction false} RecordsRoundTrip(rows: seq<Row>)
    ensures HeaderCount(Records(rows)) == 0
    ensures RowsIn(Records(rows)) == rows
  {
    if |rows| > 0 {
      RecordsRoundTrip(rows[1..]);
    }
  }

  /** One writer adds at most one header line: exactly one when the file was
      new and at least one row was serialized, none otherwise; and the rows
      it adds read back in the order they were serialized. */
  lemma EmittedHeaderOnce(withHeader: bool, rows: seq<Row>)
    ensures HeaderCount(Emitted(withHeader, rows)) == if withHeader && |rows| > 0 then 1 else 0
    ensures RowsIn(Emitted(withHeader, rows)) == rows
  {
    var head: seq<Line> := if withHeader && |rows| > 0 then [Header] else [];
    HeaderCountAppend(head, Records(rows));
    RowsInAppend(head, Records(rows));
    RecordsRoundTrip(rows);
    assert HeaderCount([Header]) == 1;
    assert RowsIn([Header]) == [];
  }

  /** Two runs of the program against the same path, the first creating the
      file: the header appears once if the first run serialized anything and
      never otherwise, and the rows of both runs read back, first run first. */
  lemma TwoRuns(first: seq<Row>, second: seq<Row>)
    ensures HeaderCount(Emitted(true, first) + Emitted(false, second)) == if |first| > 0 then 1 else 0
    ensures RowsIn(Emitted(true, first) + Emitted(false, second)) == first + second
  {
    EmittedHeaderOnce(true, first);
    EmittedHeaderOnce(false, second);
    HeaderCountAppend(Emitted(true, first), Emitted(false, second));
    RowsInAppend(Emitted(true, first), Emitted(false, second));
  }

  /** The csv writer over `farm_yield.csv`, opened in append mode. */
  class CsvWriter {
    /** The file's content once everything serialized so far is flushed. */
    var lines: seq<Line>
    /** `has_headers` given at open and no record serialized yet. */
    var headerPending: bool

    /** The file's content when it was opened. */
    ghost var initial: seq<Line>
    /** Whether the file did not exist when it was opened. */
    ghost var created: bool
    /** Every row serialized through this writer. */
    ghost var rows: seq<Row>

    ghost predicate Valid()
      reads this
    {
      lines == initial + Emitted(created, rows) &&
      headerPending == (created && |rows| == 0)
    }

    /** Open the file: `existing` is its content, or None when it does not
        exist yet, in which case it is created empty and the header is owed. */
    constructor Open(existing: Option<seq<Line>>)
      ensures Valid()
      ensures initial == existing.UnwrapOr([]) && created == existing.None?
      ensures rows == [] && lines == initial && headerPending == existing.None?
    {
      lines := existing.UnwrapOr([]);
      headerPending := existing.None?;
      initial := existing.UnwrapOr([]);
      created := existing.None?;
      rows := [];
    }

    /** `wtr.serialize(row)`: writes the owed header first, then the record. */
    method Serialize(row: Row)
      requires Valid()
      modifies this
      ensures Valid()
      ensures initial == old(initial) && created == old(created)
      ensures rows == old(rows) + [row]
      ensures lines == old(lines) + (if old(headerPending) then [Header] else []) + [RecordLine(row)]
      ensures !headerPending
    {
      RecordsAppend(rows, row);
      if headerPending {
        lines := lines + [Header];
        headerPending := false;
      }
      lines := lines + [RecordLine(row)];
      rows := rows + [row];
    }
  }
}
