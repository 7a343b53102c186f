/** `parse_html_sb6183`: the SB6183 status page (RgConnect.asp). Downstream
    channels are the rows of the third table, upstream channels those of the
    fourth; `channel_id` stays the text of the first cell. */
module Sb6183 {
  import opened Common
  import opened Text
  import opened Stats
  import opened Soup

  const DownstreamTable: nat := 2
  const UpstreamTable: nat := 3

  /** Cells 4-8 of a downstream row, with the units the page shows. */
  function DownstreamColumns(): seq<Column> {
    [
      Column("frequency", 4, " Hz", ToInt),
      Column("power", 5, " dBmV", ToFloat),
      Column("snr", 6, " dB", ToFloat),
      Column("corrected", 7, "", ToInt),
      Column("uncorrectables", 8, "", ToInt)
    ]
  }

  /** Cells 4-6 of an upstream row. */
  function UpstreamColumns(): seq<Column> {
    [
      Column("symbol_rate", 4, " Ksym/sec", ToInt),
      Column("frequency", 5, " Hz", ToInt),
      Column("power", 6, " dBmV", ToFloat)
    ]
  }

  function DownstreamRow(row: Row): RowOutcome {
    ChannelRow(row, "", DownstreamColumns())
  }

  function UpstreamRow(row: Row): RowOutcome {
    ChannelRow(row, "", UpstreamColumns())
  }

  /** The whole parse: downstream table first, then the upstream table. */
  function Parse(doc: Doc): Result<Snapshot> {
    var down :- TableAt(doc, DownstreamTable);
    var ds :- Scan(down, DownstreamRow);
    var up :- TableAt(doc, UpstreamTable);
    var us :- Scan(up, UpstreamRow);
    Ok(Snapshot(ds, us))
  }

  method ScanDownstream(rows: seq<Row>) returns (r: Result<seq<Record>>)
    ensures r == Scan(rows, DownstreamRow)
  {
    var downstream: seq<Record> := [];
    ScanStart(rows, DownstreamRow);
    for i := 0 to |rows|
      invariant Scan(rows, DownstreamRow) == Then(downstream, Scan(rows[i..], DownstreamRow))
    {
      var row := rows[i];
      ScanStep(rows, i, DownstreamRow);
      if row.hasTh {
        continue;
      }
      if |row.cells| == 0 {
        return Err(IndexError);
      }
      var channelId := Strip(row.cells[0]);
      if !IsDigits(channelId) {
        continue;
      }
      var fields := Columns(row, DownstreamColumns());
      if fields.Err? {
        return Err(fields.fault);
      }
      var rec := [("channel_id", VStr(channelId))] + fields.value;
      assert DownstreamRow(row) == Keep(rec);
      ThenKeep(downstream, rec, Scan(rows[i + 1..], DownstreamRow));
      downstream := downstream + [rec];
    }
    ScanDone(rows, downstream, DownstreamRow);
    r := Ok(downstream);
  }

  method ScanUpstream(rows: seq<Row>) returns (r: Result<seq<Record>>)
    ensures r == Scan(rows, UpstreamRow)
  {
    var upstream: seq<Record> := [];
    ScanStart(rows, UpstreamRow);
    for i := 0 to |rows|
      invariant Scan(rows, UpstreamRow) == Then(upstream, Scan(rows[i..], UpstreamRow))
    {
      var row := rows[i];
      ScanStep(rows, i, UpstreamRow);
      if row.hasTh {
        continue;
      }
      if |row.cells| == 0 {
        return Err(IndexError);
      }
      var channelId := Strip(row.cells[0]);
      if !IsDigits(channelId) {
        continue;
      }
      var fields := Columns(row, UpstreamColumns());
      if fields.Err? {
        return Err(fields.fault);
      }
      var rec := [("channel_id", VStr(channelId))] + fields.value;
      assert UpstreamRow(row) == Keep(rec);
      ThenKeep(upstream, rec, Scan(rows[i + 1..], UpstreamRow));
      upstream := upstream + [rec];
    }
    ScanDone(rows, upstream, UpstreamRow);
    r := Ok(upstream);
  }

  /** `parse_html_sb6183(html)`, BeautifulSoup being the `soup` argument. */
  method ParseHtml(html: string, soup: string -> Doc) returns (r: Result<Snapshot>)
    ensures r == Parse(soup(html))
  {
    var doc := soup(html);
    if |doc| <= DownstreamTable {
      return Err(IndexError);
    }
    var down := ScanDownstream(doc[DownstreamTable]);
    if down.Err? {
      return Err(down.fault);
    }
    if |doc| <= UpstreamTable {
      return Err(IndexError);
    }
    var up := ScanUpstream(doc[UpstreamTable]);
    if up.Err? {
      return Err(up.fault);
    }
    r := Ok(Snapshot(down.value, up.value));
  }

  /** Only the third and fourth tables matter. */
  lemma {:induction false} ParseReadsTwoTables(doc: Doc, other: Doc)
    requires |doc| > UpstreamTable && |other| > UpstreamTable
    requires doc[DownstreamTable] == other[DownstreamTable] && doc[UpstreamTable] == other[UpstreamTable]
    ensures Parse(doc) == Parse(other)
  {
  }

  /** A page with fewer than four tables raises IndexError, unless the
      downstream loop raised first. */
  lemma {:induction false} ShortPageFails(doc: Doc)
    requires |doc| <= UpstreamTable
    ensures Parse(doc).Err?
    ensures |doc| <= DownstreamTable || Scan(doc[DownstreamTable], DownstreamRow).Ok? ==> Parse(doc) == Err(IndexError)
  {
  }

  /** A direction with no qualifying rows is an empty list, not a fault. */
  lemma {:induction false} HeaderOnlyTableIsEmpty(rows: seq<Row>)
    requires forall j :: 0 <= j < |rows| ==> rows[j].hasTh
    ensures Scan(rows, DownstreamRow) == Ok([]) && Scan(rows, UpstreamRow) == Ok([])
  {
    ScanNothingKept(rows, DownstreamRow);
    ScanNothingKept(rows, UpstreamRow);
  }

  /** A frequency cell "<digits> Hz" gives that number of hertz. */
  lemma {:induction false} FrequencyCell(row: Row, digits: string)
    requires IsDigits(digits) && |row.cells| > 4 && row.cells[4] == digits + " Hz"
    ensures CellValue(row, DownstreamColumns()[0]) == Ok(VInt(DigitsValue(digits)))
  {
    assert forall i :: 0 <= i < |digits| ==> IsDigit(digits[i]);
    UnitSuffixRemoved(row, DownstreamColumns()[0], digits);
    ParseDigits(digits);
  }

  /** A parse that succeeds read both tables, and both loops finished. */
  lemma {:induction false} ParseParts(doc: Doc)
    requires Parse(doc).Ok?
    ensures |doc| > UpstreamTable
    ensures Scan(doc[DownstreamTable], DownstreamRow).Ok? && Scan(doc[UpstreamTable], UpstreamRow).Ok?
    ensures Parse(doc).value.downstream == Scan(doc[DownstreamTable], DownstreamRow).value
    ensures Parse(doc).value.upstream == Scan(doc[UpstreamTable], UpstreamRow).value
  {
  }

  /** Every downstream row the loop keeps shows up in the parse, and
      every downstream record of the parse comes from such a row. */
  lemma {:induction false} DownstreamRowsAppear(doc: Doc)
    requires Parse(doc).Ok?
    ensures forall j :: 0 <= j < |doc[DownstreamTable]| && DownstreamRow(doc[DownstreamTable][j]).Keep? ==>
      DownstreamRow(doc[DownstreamTable][j]).record in Parse(doc).value.downstream
    ensures forall k :: 0 <= k < |Parse(doc).value.downstream| ==>
      exists j :: 0 <= j < |doc[DownstreamTable]| && DownstreamRow(doc[DownstreamTable][j]) == Keep(Parse(doc).value.downstream[k])
  {
    ParseParts(doc);
    var rows := doc[DownstreamTable];
    var out := Parse(doc).value.downstream;
    forall j | 0 <= j < |rows| && DownstreamRow(rows[j]).Keep?
      ensures DownstreamRow(rows[j]).record in out
    {
      ScanKeepsKeptRows(rows, DownstreamRow, j);
    }
    forall k | 0 <= k < |out|
      ensures exists j :: 0 <= j < |rows| && DownstreamRow(rows[j]) == Keep(out[k])
    {
      ScanOnlyKeptRows(rows, DownstreamRow, k);
    }
  }

  /** The same for the upstream table. */
  lemma {:induction false} UpstreamRowsAppear(doc: Doc)
    requires Parse(doc).Ok?
    ensures forall j :: 0 <= j < |doc[UpstreamTable]| && UpstreamRow(doc[UpstreamTable][j]).Keep? ==>
      UpstreamRow(doc[UpstreamTable][j]).record in Parse(doc).value.upstream
    ensures forall k :: 0 <= k < |Parse(doc).value.upstream| ==>
      exists j :: 0 <= j < |doc[UpstreamTable]| && UpstreamRow(doc[UpstreamTable][j]) == Keep(Parse(doc).value.upstream[k])
  {
    ParseParts(doc);
    var rows := doc[UpstreamTable];
    var out := Parse(doc).value.upstream;
    forall j | 0 <= j < |rows| && UpstreamRow(rows[j]).Keep?
      ensures UpstreamRow(rows[j]).record in out
    {
      ScanKeepsKeptRows(rows, UpstreamRow, j);
    }
    forall k | 0 <= k < |out|
      ensures exists j :: 0 <= j < |rows| && UpstreamRow(rows[j]) == Keep(out[k])
    {
      ScanOnlyKeptRows(rows, UpstreamRow, k);
    }
  }
}
