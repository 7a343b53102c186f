/** What the parsers see of a page once BeautifulSoup has read it: the
    `<table>` elements in document order, each with its `<tr>` rows. Every
    parser walks one table's rows in order, skipping some, keeping a record
    for others, or stopping at the first row whose conversion raises. */
module Soup {
  import opened Common
  import opened Text
  import opened Stats

  /** One `<tr>`: whether it holds a `<th>` (`table_row.th`), the `.text`
      of its `<td>` cells in order, and its markup (`str(table_row)`). */
  datatype Row = Row(hasTh: bool, cells: seq<string>, markup: string)

  type Table = seq<Row>

  /** `soup.find_all("table")`, each table given by `find_all("tr")`. */
  type Doc = seq<Table>

  /** `soup.find_all("table")[i]`. */
  function TableAt(doc: Doc, i: nat): (r: Result<Table>)
    ensures r.Ok? <==> i < |doc|
    ensures r.Ok? ==> r.value == doc[i]
    ensures r.Err? ==> r.fault == IndexError
  {
    if i < |doc| then Ok(doc[i]) else Err(IndexError)
  }

  /** `table_row.find_all('td')[i].text`. */
  function CellAt(row: Row, i: nat): (r: Result<string>)
    ensures r.Ok? <==> i < |row.cells|
    ensures r.Ok? ==> r.value == row.cells[i]
    ensures r.Err? ==> r.fault == IndexError
  {
    if i < |row.cells| then Ok(row.cells[i]) else Err(IndexError)
  }

  /** How a cell's text becomes a value once its unit suffix is removed
      and it is stripped: `int(...)`, `float(...)`, or kept as a str. */
  datatype Conversion = ToInt | ToFloat | AsText

  /** One column of a record: its key, the cell it is read from, the unit
      suffix removed from the text (none when empty), and its conversion. */
  datatype Column = Column(key: string, cell: nat, unit: string, conv: Conversion)

  /** `conv(row.find_all('td')[cell].text.replace(unit, "").strip())`. */
  function CellValue(row: Row, c: Column): (r: Result<Value>)
    ensures c.cell >= |row.cells| ==> r == Err(IndexError)
    ensures r.Err? && c.cell < |row.cells| ==> r.fault.ValueError?
    ensures r.Ok? && c.conv == ToInt ==> r.value.VInt?
    ensures r.Ok? && c.conv == ToFloat ==> r.value.VFloat?
    ensures c.conv == AsText && c.cell < |row.cells| ==> r.Ok? && r.value == VStr(Bare(row.cells[c.cell], c.unit))
  {
    var t :- CellAt(row, c.cell);
    var bare := Bare(t, c.unit);
    match c.conv
    case ToInt => IntField(bare)
    case ToFloat => FloatField(bare)
    case AsText => Ok(VStr(bare))
  }

  /** The text with every occurrence of `unit` removed, then stripped. */
  function Bare(text: string, unit: string): string {
    Strip(if |unit| > 0 then ReplaceAll(text, unit, "") else text)
  }

  /** The columns converted left to right, as the statements of a loop body
      run; the first column that raises ends the conversion. */
  function Columns(row: Row, cs: seq<Column>): Result<Record>
    decreases |cs|
  {
    if |cs| == 0 then Ok([])
    else
      var v :- CellValue(row, cs[0]);
      var rest :- Columns(row, cs[1..]);
      Ok([(cs[0].key, v)] + rest)
  }

  /** `rec` holds one entry per column, keyed by the column's key and
      holding the column's converted cell. */
  predicate Converted(row: Row, cs: seq<Column>, rec: Record) {
    |rec| == |cs| && forall i :: 0 <= i < |cs| ==> rec[i].0 == cs[i].key && CellValue(row, cs[i]) == Ok(rec[i].1)
  }

  /** The conversion succeeds exactly when every column converts, and then
      yields their values in column order; otherwise it reports the fault of
      the first column that raised. */
  lemma {:induction false} ColumnsSpec(row: Row, cs: seq<Column>)
    ensures Columns(row, cs).Ok? <==> forall i :: 0 <= i < |cs| ==> CellValue(row, cs[i]).Ok?
    ensures Columns(row, cs).Ok? ==> Converted(row, cs, Columns(row, cs).value)
    ensures Columns(row, cs).Err? ==> exists i :: FirstFailure(row, cs, i) && CellValue(row, cs[i]) == Err(Columns(row, cs).fault)
    decreases |cs|
  {
    if |cs| > 0 {
      var c, rest := cs[0], cs[1..];
      assert cs == [c] + rest;
      var v := CellValue(row, c);
      if v.Err? {
        assert FirstFailure(row, cs, 0);
      } else {
        ColumnsSpec(row, rest);
        AllOkCons(row, c, rest);
        var tail := Columns(row, rest);
        if tail.Err? {
          var k :| FirstFailure(row, rest, k) && CellValue(row, rest[k]) == Err(tail.fault);
          FirstFailureCons(row, c, rest, k);
        } else {
          ConvertedCons(row, c, rest, (c.key, v.value), tail.value);
        }
      }
    }
  }

  lemma {:induction false} AllOkCons(row: Row, c: Column, rest: seq<Column>)
    ensures (forall i :: 0 <= i < |[c] + rest| ==> CellValue(row, ([c] + rest)[i]).Ok?)
        <==> CellValue(row, c).Ok? && forall i :: 0 <= i < |rest| ==> CellValue(row, rest[i]).Ok?
  {
    AllCons((x: Column) => CellValue(row, x).Ok?, c, rest);
  }

  lemma {:induction false} FirstFailureCons(row: Row, c: Column, rest: seq<Column>, k: int)
    requires CellValue(row, c).Ok? && FirstFailure(row, rest, k)
    ensures FirstFailure(row, [c] + rest, k + 1) && ([c] + rest)[k + 1] == rest[k]
  {
    var cs := [c] + rest;
    assert cs[k + 1] == rest[k];
    forall j | 0 <= j < k + 1 ensures CellValue(row, cs[j]).Ok? {
      if j > 0 { assert cs[j] == rest[j - 1]; }
    }
  }

  lemma {:induction false} ConvertedCons(row: Row, c: Column, rest: seq<Column>, e: (string, Value), tail: Record)
    requires e.0 == c.key && CellValue(row, c) == Ok(e.1) && Converted(row, rest, tail)
    ensures Converted(row, [c] + rest, [e] + tail)
  {
    PairwiseCons((x: Column, y: (string, Value)) => y.0 == x.key && CellValue(row, x) == Ok(y.1), c, rest, e, tail);
  }

  /** The columns after the first convert to the entries after the first. */
  lemma {:induction false} ConvertedTail(row: Row, cs: seq<Column>, rec: Record)
    requires |cs| > 0 && Converted(row, cs, rec)
    ensures Converted(row, cs[1..], rec[1..])
  {
    forall i | 0 <= i < |cs| - 1
      ensures rec[1..][i].0 == cs[1..][i].key && CellValue(row, cs[1..][i]) == Ok(rec[1..][i].1)
    {
      assert rec[1..][i] == rec[i + 1] && cs[1..][i] == cs[i + 1];
    }
  }

  /** A converted column in front of converted columns. */
  lemma {:induction false} ColumnsCons(row: Row, cs: seq<Column>, v: Value, rest: Record)
    requires |cs| > 0 && CellValue(row, cs[0]) == Ok(v) && Columns(row, cs[1..]) == Ok(rest)
    ensures Columns(row, cs) == Ok([(cs[0].key, v)] + rest)
  {
  }

  /** Column `i` is the first whose conversion raises. */
  predicate FirstFailure(row: Row, cs: seq<Column>, i: int) {
    0 <= i < |cs| && CellValue(row, cs[i]).Err?
    && forall j :: 0 <= j < i ==> CellValue(row, cs[j]).Ok?
  }

  /** Unit removal is exact: a cell holding `value + unit` converts as
      `value` would, when no character of `value` can start the unit and
      `value` has no surrounding whitespace. */
  lemma {:induction false} UnitSuffixRemoved(row: Row, c: Column, value: string)
    requires |c.unit| > 0 && c.cell < |row.cells| && row.cells[c.cell] == value + c.unit
    requires forall i :: 0 <= i < |value| ==> value[i] != c.unit[0]
    requires value == [] || (!IsSpace(value[0]) && !IsSpace(value[|value| - 1]))
    ensures c.conv == ToInt ==> CellValue(row, c) == IntField(value)
    ensures c.conv == ToFloat ==> CellValue(row, c) == FloatField(value)
    ensures c.conv == AsText ==> CellValue(row, c) == Ok(VStr(value))
  {
    RemoveUnitSuffix(value, c.unit);
    StripNoSpaceEnds(value);
  }

  /** A cell "<digits><unit>" read as an int gives the digits' value. */
  lemma {:induction false} IntUnitCell(row: Row, c: Column, digits: string)
    requires c.conv == ToInt && |c.unit| > 0 && c.unit[0] == ' '
    requires c.cell < |row.cells| && row.cells[c.cell] == digits + c.unit && IsDigits(digits)
    ensures CellValue(row, c) == Ok(VInt(DigitsValue(digits)))
  {
    UnitSuffixRemoved(row, c, digits);
    ParseDigits(digits);
  }

  /** A cell "<literal><unit>" read as a float gives that literal. */
  lemma {:induction false} FloatUnitCell(row: Row, c: Column, literal: string)
    requires c.conv == ToFloat && |c.unit| > 0 && c.unit[0] == ' '
    requires c.cell < |row.cells| && row.cells[c.cell] == literal + c.unit && IsFloatLiteral(literal)
    ensures CellValue(row, c) == Ok(VFloat(literal))
  {
    FloatLiteralHasNoSpace(literal);
    UnitSuffixRemoved(row, c, literal);
    StripNoSpaceEnds(literal);
  }

  /** A cell read as a float keeps the bare text of the cell, which is a
      float literal. */
  lemma {:induction false} FloatCellValue(row: Row, c: Column)
    requires c.conv == ToFloat && CellValue(row, c).Ok?
    ensures c.cell < |row.cells| && IsFloatLiteral(Bare(row.cells[c.cell], c.unit))
    ensures CellValue(row, c) == Ok(VFloat(Bare(row.cells[c.cell], c.unit)))
  {
    var t := row.cells[c.cell];
    StripIdempotent(if |c.unit| > 0 then ReplaceAll(t, c.unit, "") else t);
  }

  /** A plain digit cell read as an int gives its value. */
  lemma {:induction false} IntCell(row: Row, c: Column)
    requires c.conv == ToInt && c.unit == [] && c.cell < |row.cells| && IsDigits(row.cells[c.cell])
    ensures CellValue(row, c) == Ok(VInt(DigitsValue(row.cells[c.cell])))
  {
    ParseDigits(row.cells[c.cell]);
    StripNoSpaceEnds(row.cells[c.cell]);
  }

  /** What one pass of a row loop does with a row. */
  datatype RowOutcome = Skip | Keep(record: Record) | Fail(fault: Fault)

  /** `acc` in front of the records of the rest of the loop, unless the
      rest raised. */
  function Then(acc: seq<Record>, rest: Result<seq<Record>>): (r: Result<seq<Record>>)
    ensures r.Ok? <==> rest.Ok?
    ensures r.Ok? ==> r.value == acc + rest.value
    ensures r.Err? ==> r == Err(rest.fault)
  {
    match rest
    case Ok(xs) => Ok(acc + xs)
    case Err(e) => Err(e)
  }

  /** A `for table_row in rows` loop that appends the kept records:
      skipped rows add nothing, the first failing row ends the loop. */
  function Scan(rows: seq<Row>, f: Row -> RowOutcome): Result<seq<Record>>
    decreases |rows|
  {
    if |rows| == 0 then Ok([])
    else match f(rows[0])
      case Skip => Scan(rows[1..], f)
      case Keep(rec) => Then([rec], Scan(rows[1..], f))
      case Fail(e) => Err(e)
  }

  /** One pass of the row loop most parsers share: header rows, and rows
      whose first cell is not all digits once `word` is removed from it
      and it is stripped, are skipped; any other row becomes
      `{'channel_id': <that text>, ...columns}` or raises. An empty word
      removes nothing. */
  function ChannelRow(row: Row, word: string, cs: seq<Column>): (o: RowOutcome)
    ensures o.Skip? <==> row.hasTh || (|row.cells| > 0 && !IsDigits(Bare(row.cells[0], word)))
    ensures !row.hasTh && |row.cells| == 0 ==> o == Fail(IndexError)
    ensures o.Keep? ==> |row.cells| > 0 && IsDigits(Bare(row.cells[0], word))
                        && |o.record| == |cs| + 1
                        && o.record[0] == ("channel_id", VStr(Bare(row.cells[0], word)))
                        && Converted(row, cs, o.record[1..])
    ensures o.Fail? && |row.cells| > 0 ==> exists i :: FirstFailure(row, cs, i) && CellValue(row, cs[i]) == Err(o.fault)
    ensures o.Fail? ==> o.fault == IndexError || o.fault.ValueError?
  {
    if row.hasTh then Skip
    else if |row.cells| == 0 then Fail(IndexError)
    else
      var channelId := Bare(row.cells[0], word);
      if !IsDigits(channelId) then Skip
      else
        var fields := Columns(row, cs);
        ColumnsSpec(row, cs);
        if fields.Ok? then
          var rec := [("channel_id", VStr(channelId))] + fields.value;
          assert rec[1..] == fields.value;
          Keep(rec)
        else Fail(fields.fault)
  }

  /** A header row followed by one kept row gives that row's record. */
  lemma {:induction false} ScanHeaderThenRow(header: Row, data: Row, f: Row -> RowOutcome)
    requires f(header).Skip? && f(data).Keep?
    ensures Scan([header, data], f) == Ok([f(data).record])
  {
    var rows := [header, data];
    assert rows[1..] == [data];
    assert [data][1..] == [];
    assert Scan([data], f) == Then([f(data).record], Scan([], f));
    assert Scan(rows, f) == Scan([data], f);
    assert [f(data).record] + [] == [f(data).record];
  }

  /** One step of the loop, as a loop body sees it: row `i` is handled,
      then the rest of the rows. */
  lemma {:induction false} ScanStep(rows: seq<Row>, i: nat, f: Row -> RowOutcome)
    requires i < |rows|
    ensures f(rows[i]).Skip? ==> Scan(rows[i..], f) == Scan(rows[i + 1..], f)
    ensures f(rows[i]).Keep? ==> Scan(rows[i..], f) == Then([f(rows[i]).record], Scan(rows[i + 1..], f))
    ensures f(rows[i]).Fail? ==> Scan(rows[i..], f) == Err(f(rows[i]).fault)
  {
    assert rows[i..][0] == rows[i] && rows[i..][1..] == rows[i + 1..];
  }

  /** Before the first pass nothing is accumulated. */
  lemma {:induction false} ScanStart(rows: seq<Row>, f: Row -> RowOutcome)
    ensures Scan(rows, f) == Then([], Scan(rows[0..], f))
  {
    assert rows[0..] == rows;
    if Scan(rows, f).Ok? {
      assert [] + Scan(rows, f).value == Scan(rows, f).value;
    }
  }

  /** The accumulator of a loop that has run to its end. */
  lemma {:induction false} ScanDone(rows: seq<Row>, acc: seq<Record>, f: Row -> RowOutcome)
    requires Scan(rows, f) == Then(acc, Scan(rows[|rows|..], f))
    ensures Scan(rows, f) == Ok(acc)
  {
    assert rows[|rows|..] == [];
    assert acc + [] == acc;
  }

  /** Keeping one more record keeps the loop's accumulator invariant. */
  lemma {:induction false} ThenKeep(acc: seq<Record>, rec: Record, rest: Result<seq<Record>>)
    ensures Then(acc, Then([rec], rest)) == Then(acc + [rec], rest)
  {
    if rest.Ok? {
      assert acc + ([rec] + rest.value) == (acc + [rec]) + rest.value;
    }
  }

  /** Number of rows the loop keeps. */
  function KeptCount(rows: seq<Row>, f: Row -> RowOutcome): nat
    decreases |rows|
  {
    if |rows| == 0 then 0 else (if f(rows[0]).Keep? then 1 else 0) + KeptCount(rows[1..], f)
  }

  /** Row order is kept: scanning `a + b` is scanning `a`, then `b`. */
  lemma {:induction false} ScanAppend(a: seq<Row>, b: seq<Row>, f: Row -> RowOutcome)
    ensures Scan(a + b, f) == match Scan(a, f)
                              case Ok(x) => Then(x, Scan(b, f))
                              case Err(e) => Err(e)
    decreases |a|
  {
    if |a| > 0 {
      assert (a + b)[1..] == a[1..] + b;
      ScanAppend(a[1..], b, f);
      if f(a[0]).Keep? && Scan(a[1..], f).Ok? && Scan(b, f).Ok? {
        var x, y := Scan(a[1..], f).value, Scan(b, f).value;
        assert [f(a[0]).record] + (x + y) == ([f(a[0]).record] + x) + y;
      }
    } else {
      assert a + b == b;
      if Scan(b, f).Ok? { assert [] + Scan(b, f).value == Scan(b, f).value; }
    }
  }

  /** The loop completes exactly when no row raises. */
  lemma {:induction false} ScanOkIff(rows: seq<Row>, f: Row -> RowOutcome)
    ensures Scan(rows, f).Ok? <==> forall j :: 0 <= j < |rows| ==> !f(rows[j]).Fail?
    decreases |rows|
  {
    if |rows| > 0 {
      ScanOkIff(rows[1..], f);
      assert forall j :: 1 <= j < |rows| ==> rows[j] == rows[1..][j - 1];
    }
  }

  /** A loop that raised, raised at one of its rows. */
  lemma {:induction false} ScanFault(rows: seq<Row>, f: Row -> RowOutcome)
    requires Scan(rows, f).Err?
    ensures exists j :: 0 <= j < |rows| && f(rows[j]) == Fail(Scan(rows, f).fault)
    decreases |rows|
  {
    if !f(rows[0]).Fail? {
      ScanFault(rows[1..], f);
      var j :| 0 <= j < |rows[1..]| && f(rows[1..][j]) == Fail(Scan(rows[1..], f).fault);
      assert rows[j + 1] == rows[1..][j];
    }
  }

  /** A completed loop yields one record per kept row, so never more
      records than rows. */
  lemma {:induction false} ScanLength(rows: seq<Row>, f: Row -> RowOutcome)
    requires Scan(rows, f).Ok?
    ensures |Scan(rows, f).value| == KeptCount(rows, f) <= |rows|
    decreases |rows|
  {
    if |rows| > 0 {
      ScanLength(rows[1..], f);
    }
  }

  /** Every kept row's record is in the output. */
  lemma {:induction false} ScanKeepsKeptRows(rows: seq<Row>, f: Row -> RowOutcome, j: nat)
    requires Scan(rows, f).Ok? && j < |rows| && f(rows[j]).Keep?
    ensures f(rows[j]).record in Scan(rows, f).value
    decreases |rows|
  {
    if j > 0 {
      assert rows[1..][j - 1] == rows[j];
      ScanKeepsKeptRows(rows[1..], f, j - 1);
    }
  }

  /** Every output record is the record of some kept row. */
  lemma {:induction false} ScanOnlyKeptRows(rows: seq<Row>, f: Row -> RowOutcome, k: nat)
    requires Scan(rows, f).Ok? && k < |Scan(rows, f).value|
    ensures exists j :: 0 <= j < |rows| && f(rows[j]) == Keep(Scan(rows, f).value[k])
    decreases |rows|
  {
    var out := Scan(rows, f).value;
    match f(rows[0])
    case Skip =>
      ScanOnlyKeptRows(rows[1..], f, k);
      var j :| 0 <= j < |rows[1..]| && f(rows[1..][j]) == Keep(out[k]);
      assert rows[j + 1] == rows[1..][j];
    case Keep(rec) =>
      if k == 0 {
        assert f(rows[0]) == Keep(out[0]);
      } else {
        ScanOnlyKeptRows(rows[1..], f, k - 1);
        var j :| 0 <= j < |rows[1..]| && f(rows[1..][j]) == Keep(Scan(rows[1..], f).value[k - 1]);
        assert rows[j + 1] == rows[1..][j];
      }
  }

  /** A table none of whose rows is kept yields an empty list, not a fault. */
  lemma {:induction false} ScanNothingKept(rows: seq<Row>, f: Row -> RowOutcome)
    requires forall j :: 0 <= j < |rows| ==> f(rows[j]).Skip?
    ensures Scan(rows, f) == Ok([])
    decreases |rows|
  {
    if |rows| > 0 {
      assert forall j :: 0 <= j < |rows[1..]| ==> rows[1..][j] == rows[j + 1];
      ScanNothingKept(rows[1..], f);
    }
  }

  /** Counting kept rows adds up over a split of the rows. */
  lemma {:induction false} KeptCountAppend(a: seq<Row>, b: seq<Row>, f: Row -> RowOutcome)
    ensures KeptCount(a + b, f) == KeptCount(a, f) + KeptCount(b, f)
    decreases |a|
  {
    if |a| == 0 {
      assert a + b == b;
    } else {
      assert (a + b)[0] == a[0] && (a + b)[1..] == a[1..] + b;
      KeptCountAppend(a[1..], b, f);
    }
  }

  /** The record of kept row `j` sits in the output right after the
      records of the kept rows before it. */
  lemma {:induction false} ScanPosition(rows: seq<Row>, f: Row -> RowOutcome, j: nat)
    requires Scan(rows, f).Ok? && j < |rows| && f(rows[j]).Keep?
    ensures KeptCount(rows[..j], f) < |Scan(rows, f).value|
    ensures Scan(rows, f).value[KeptCount(rows[..j], f)] == f(rows[j]).record
    decreases |rows|
  {
    if j == 0 {
      assert rows[..0] == [];
    } else {
      assert rows[1..][j - 1] == rows[j];
      ScanPosition(rows[1..], f, j - 1);
      assert rows[..j][0] == rows[0] && rows[..j][1..] == rows[1..][..j - 1];
    }
  }

  /** Row order is kept: of two kept rows, the earlier one's record comes
      first in the output. */
  lemma {:induction false} ScanKeepsOrder(rows: seq<Row>, f: Row -> RowOutcome, j: nat, j2: nat)
    requires Scan(rows, f).Ok? && j < j2 < |rows| && f(rows[j]).Keep? && f(rows[j2]).Keep?
    ensures exists k, k2 :: (0 <= k < k2 < |Scan(rows, f).value|
      && Scan(rows, f).value[k] == f(rows[j]).record && Scan(rows, f).value[k2] == f(rows[j2]).record)
  {
    ScanPosition(rows, f, j);
    ScanPosition(rows, f, j2);
    assert rows[..j2] == rows[..j] + rows[j..j2];
    KeptCountAppend(rows[..j], rows[j..j2], f);
    assert rows[j..j2][0] == rows[j];
  }
}
