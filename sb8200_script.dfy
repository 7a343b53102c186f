/** The older `parse_html_sb8200` (script/arris_stats.py): the same page,
    repair and tables as the current parser, but every value stays the
    stripped text of its cell. `channel_id` starts unbound, and the upstream
    guard again reads the value the previous row left in it; here that value
    is the text of the previous upstream row's second cell. */
module Sb8200Script {
  import opened Common
  import opened Text
  import opened Stats
  import opened Soup
  import Sb8200

  /** Cells 3-7 of a downstream row, as text. */
  function DownstreamColumns(): seq<Column> {
    [
      Column("frequency", 3, " Hz", AsText),
      Column("power", 4, " dBmV", AsText),
      Column("snr", 5, " dB", AsText),
      Column("corrected", 6, "", AsText),
      Column("uncorrectables", 7, "", AsText)
    ]
  }

  /** An upstream record: `channel_id` from cell 1, then cells 4 and 6. */
  function UpstreamColumns(): seq<Column> {
    [
      Column("channel_id", 1, "", AsText),
      Column("frequency", 4, " Hz", AsText),
      Column("power", 6, " dBmV", AsText)
    ]
  }

  function DownstreamRow(row: Row): RowOutcome {
    ChannelRow(row, "", DownstreamColumns())
  }

  /** The local `channel_id` after the downstream loop has seen `rows`
      (None while it was never assigned): every row that is not a header
      rebinds it to its stripped first cell. */
  function LastChannel(rows: seq<Row>, c: Option<string>): Option<string>
    decreases |rows|
  {
    if |rows| == 0 then c
    else if rows[0].hasTh || |rows[0].cells| == 0 then LastChannel(rows[1..], c)
    else LastChannel(rows[1..], Some(Strip(rows[0].cells[0])))
  }

  /** The upstream loop from state `c`, over columns `cs` whose first is
      the new `channel_id`. Reading a never-assigned local raises
      (UnboundLocalError, a NameError); a non-digit text skips the row;
      otherwise the row is read and `channel_id` becomes its first column. */
  function UpScanWith(rows: seq<Row>, c: Option<string>, cs: seq<Column>): Result<seq<Record>>
    requires |cs| > 0 && cs[0].conv == AsText
    decreases |rows|
  {
    if |rows| == 0 then Ok([])
    else if rows[0].hasTh then UpScanWith(rows[1..], c, cs)
    else match c
      case None => Err(NameError)
      case Some(s) =>
        if !IsDigits(s) then UpScanWith(rows[1..], c, cs)
        else
          ColumnsSpec(rows[0], cs);
          match Columns(rows[0], cs)
          case Err(e) => Err(e)
          case Ok(rec) => Then([rec], UpScanWith(rows[1..], Some(rec[0].1.s), cs))
  }

  /** The upstream loop of the page. */
  function UpScan(rows: seq<Row>, c: Option<string>): Result<seq<Record>> {
    UpScanWith(rows, c, UpstreamColumns())
  }

  /** The parse of the repaired page's tables. */
  function ParseDoc(doc: Doc): Result<Snapshot> {
    var down :- TableAt(doc, Sb8200.DownstreamTable);
    var ds :- Scan(down, DownstreamRow);
    var up :- TableAt(doc, Sb8200.UpstreamTable);
    var us :- UpScan(up, LastChannel(down, None));
    Ok(Snapshot(ds, us))
  }

  /** The downstream loop, with the `channel_id` it leaves behind. */
  method ScanDownstream(rows: seq<Row>) returns (r: Result<seq<Record>>, channel: Option<string>)
    ensures r == Scan(rows, DownstreamRow)
    ensures r.Ok? ==> channel == LastChannel(rows, None)
  {
    var downstream: seq<Record> := [];
    channel := None;
    ScanStart(rows, DownstreamRow);
    assert rows[0..] == rows;
    for i := 0 to |rows|
      invariant Scan(rows, DownstreamRow) == Then(downstream, Scan(rows[i..], DownstreamRow))
      invariant LastChannel(rows, None) == LastChannel(rows[i..], channel)
    {
      var row := rows[i];
      ScanStep(rows, i, DownstreamRow);
      assert rows[i..][0] == row && rows[i..][1..] == rows[i + 1..];
      if row.hasTh {
        continue;
      }
      if |row.cells| == 0 {
        return Err(IndexError), channel;
      }
      var channelId := Strip(row.cells[0]);
      channel := Some(channelId);
      if !IsDigits(channelId) {
        continue;
      }
      var fields := Columns(row, DownstreamColumns());
      if fields.Err? {
        return Err(fields.fault), channel;
      }
      var rec := [("channel_id", VStr(channelId))] + fields.value;
      assert DownstreamRow(row) == Keep(rec);
      ThenKeep(downstream, rec, Scan(rows[i + 1..], DownstreamRow));
      downstream := downstream + [rec];
    }
    ScanDone(rows, downstream, DownstreamRow);
    assert rows[|rows|..] == [];
    r := Ok(downstream);
  }

  /** The upstream loop, starting from the `channel_id` downstream left. */
  method ScanUpstream(rows: seq<Row>, start: Option<string>) returns (r: Result<seq<Record>>)
    ensures r == UpScan(rows, start)
  {
    var upstream: seq<Record> := [];
    var channel := start;
    assert rows[0..] == rows;
    if UpScan(rows, start).Ok? {
      assert [] + UpScan(rows, start).value == UpScan(rows, start).value;
    }
    for i := 0 to |rows|
      invariant UpScan(rows, start) == Then(upstream, UpScan(rows[i..], channel))
    {
      var row := rows[i];
      assert rows[i..][0] == row && rows[i..][1..] == rows[i + 1..];
      if row.hasTh {
        continue;
      }
      if channel.None? {
        return Err(NameError);
      }
      if !IsDigits(channel.value) {
        continue;
      }
      var fields := Columns(row, UpstreamColumns());
      if fields.Err? {
        return Err(fields.fault);
      }
      var rec := fields.value;
      ColumnsSpec(row, UpstreamColumns());
      ThenKeep(upstream, rec, UpScan(rows[i + 1..], Some(rec[0].1.s)));
      upstream := upstream + [rec];
      channel := Some(rec[0].1.s);
    }
    assert rows[|rows|..] == [];
    assert upstream + [] == upstream;
    r := Ok(upstream);
  }

  /** The older `parse_html_sb8200(html)`, BeautifulSoup being `soup`. */
  method ParseHtml(html: string, soup: string -> Doc) returns (r: Result<Snapshot>)
    ensures r == ParseDoc(soup(Sb8200.Repair(html)))
  {
    var doc := soup(Sb8200.Repair(html));
    if |doc| <= Sb8200.DownstreamTable {
      return Err(IndexError);
    }
    var down, channel := ScanDownstream(doc[Sb8200.DownstreamTable]);
    if down.Err? {
      return Err(down.fault);
    }
    if |doc| <= Sb8200.UpstreamTable {
      return Err(IndexError);
    }
    var up := ScanUpstream(doc[Sb8200.UpstreamTable], channel);
    if up.Err? {
      return Err(up.fault);
    }
    r := Ok(Snapshot(down.value, up.value));
  }

  /** Every column is kept as text. */
  predicate AllText(cs: seq<Column>) {
    forall i :: 0 <= i < |cs| ==> cs[i].conv == AsText
  }

  lemma {:induction false} ColumnsAreText()
    ensures AllText(DownstreamColumns()) && AllText(UpstreamColumns())
    ensures UpstreamColumns()[0] == Column("channel_id", 1, "", AsText)
    ensures |UpstreamColumns()| == 3 && UpstreamColumns()[1].cell == 4 && UpstreamColumns()[2].cell == 6
  {
    var ds, us := DownstreamColumns(), UpstreamColumns();
    assert ds[0].conv == AsText && ds[1].conv == AsText && ds[2].conv == AsText;
    assert ds[3].conv == AsText && ds[4].conv == AsText;
    assert us[0].conv == AsText && us[1].conv == AsText && us[2].conv == AsText;
  }

  /** Text columns never raise ValueError: only a missing cell stops them. */
  lemma {:induction false} TextColumnsFault(row: Row, cs: seq<Column>)
    requires AllText(cs)
    ensures Columns(row, cs).Err? ==> Columns(row, cs).fault == IndexError
  {
    ColumnsSpec(row, cs);
  }

  /** Text columns convert to str values. */
  lemma {:induction false} TextRecord(row: Row, cs: seq<Column>, rec: Record)
    requires AllText(cs) && Converted(row, cs, rec)
    ensures forall i :: 0 <= i < |rec| ==> rec[i].1.VStr?
  {
    forall i | 0 <= i < |rec|
      ensures rec[i].1.VStr?
    {
      assert CellValue(row, cs[i]) == Ok(rec[i].1);
    }
  }

  /** Every value of a kept downstream record is a str. */
  lemma {:induction false} DownstreamRecordIsText(row: Row)
    requires DownstreamRow(row).Keep?
    ensures forall i :: 0 <= i < |DownstreamRow(row).record| ==> DownstreamRow(row).record[i].1.VStr?
  {
    var rec := DownstreamRow(row).record;
    ColumnsAreText();
    TextRecord(row, DownstreamColumns(), rec[1..]);
    TextCons(rec[0], rec[1..]);
    assert rec == [rec[0]] + rec[1..];
  }

  /** A str entry in front of str entries. */
  lemma {:induction false} TextCons(e: (string, Value), rest: Record)
    requires e.1.VStr? && forall i :: 0 <= i < |rest| ==> rest[i].1.VStr?
    ensures forall i :: 0 <= i < |rest| + 1 ==> ([e] + rest)[i].1.VStr?
  {
  }

  /** A downstream row raises only IndexError. */
  lemma {:induction false} DownstreamRowFault(row: Row)
    requires DownstreamRow(row).Fail?
    ensures DownstreamRow(row).fault == IndexError
  {
    ColumnsAreText();
    TextColumnsFault(row, DownstreamColumns());
  }

  /** The upstream loop raises only NameError (no `channel_id` yet) or
      IndexError (a missing cell). */
  lemma {:induction false} UpScanWithFault(rows: seq<Row>, c: Option<string>, cs: seq<Column>)
    requires |cs| > 0 && AllText(cs) && UpScanWith(rows, c, cs).Err?
    ensures UpScanWith(rows, c, cs).fault == NameError || UpScanWith(rows, c, cs).fault == IndexError
    decreases |rows|
  {
    if !rows[0].hasTh && c.Some? && IsDigits(c.value) {
      TextColumnsFault(rows[0], cs);
      if Columns(rows[0], cs).Ok? {
        ColumnsSpec(rows[0], cs);
        var rec := Columns(rows[0], cs).value;
        UpScanWithFault(rows[1..], Some(rec[0].1.s), cs);
      }
    } else if rows[0].hasTh || c.Some? {
      UpScanWithFault(rows[1..], c, cs);
    }
  }

  /** Since every value is text, a parse can only fail by a missing table
      or cell, or by reading `channel_id` before the downstream loop set it. */
  lemma {:induction false} ParseFault(doc: Doc)
    requires ParseDoc(doc).Err?
    ensures ParseDoc(doc).fault == IndexError || ParseDoc(doc).fault == NameError
  {
    if |doc| > Sb8200.DownstreamTable {
      var down := doc[Sb8200.DownstreamTable];
      if Scan(down, DownstreamRow).Err? {
        ScanFault(down, DownstreamRow);
        var j :| 0 <= j < |down| && DownstreamRow(down[j]) == Fail(Scan(down, DownstreamRow).fault);
        DownstreamRowFault(down[j]);
      } else if |doc| > Sb8200.UpstreamTable {
        ColumnsAreText();
        UpScanWithFault(doc[Sb8200.UpstreamTable], LastChannel(down, None), UpstreamColumns());
      }
    }
  }

  /** A data row holding every cell the columns read, whose first column
      is a channel number. */
  predicate Readable(row: Row, cs: seq<Column>)
    requires |cs| > 0
  {
    !row.hasTh && (forall i :: 0 <= i < |cs| ==> cs[i].cell < |row.cells|)
    && IsDigits(Bare(row.cells[cs[0].cell], cs[0].unit))
  }

  /** One readable row after a digit `channel_id`: its record is kept and
      its own channel number guards the next row. */
  lemma {:induction false} ReadableStep(rows: seq<Row>, s: string, cs: seq<Column>)
    requires |rows| > 0 && |cs| > 0 && AllText(cs) && IsDigits(s) && Readable(rows[0], cs)
    ensures Columns(rows[0], cs).Ok? && Converted(rows[0], cs, Columns(rows[0], cs).value)
    ensures IsDigits(Columns(rows[0], cs).value[0].1.s)
    ensures UpScanWith(rows, Some(s), cs)
      == Then([Columns(rows[0], cs).value], UpScanWith(rows[1..], Some(Columns(rows[0], cs).value[0].1.s), cs))
  {
    ColumnsSpec(rows[0], cs);
    var rec := Columns(rows[0], cs).value;
    assert CellValue(rows[0], cs[0]) == Ok(rec[0].1);
  }

  /** Every row is readable, stated row by row. */
  predicate AllReadable(rows: seq<Row>, cs: seq<Column>)
    requires |cs| > 0
    decreases |rows|
  {
    |rows| == 0 || (Readable(rows[0], cs) && AllReadable(rows[1..], cs))
  }

  /** `out` holds the record of each row, stated row by row. */
  predicate AllConverted(rows: seq<Row>, cs: seq<Column>, out: seq<Record>)
    decreases |rows|
  {
    |out| == |rows| && (|rows| == 0 || (Converted(rows[0], cs, out[0]) && AllConverted(rows[1..], cs, out[1..])))
  }

  lemma {:induction false} ReadableAll(rows: seq<Row>, cs: seq<Column>)
    requires |cs| > 0 && forall j :: 0 <= j < |rows| ==> Readable(rows[j], cs)
    ensures AllReadable(rows, cs)
    decreases |rows|
  {
    if |rows| > 0 {
      var rest := rows[1..];
      assert forall j :: 0 <= j < |rest| ==> rest[j] == rows[j + 1];
      ReadableAll(rest, cs);
    }
  }

  lemma {:induction false} AllConvertedAt(rows: seq<Row>, cs: seq<Column>, out: seq<Record>)
    requires AllConverted(rows, cs, out)
    ensures |out| == |rows| && forall k :: 0 <= k < |rows| ==> Converted(rows[k], cs, out[k])
    decreases |rows|
  {
    if |rows| > 0 {
      AllConvertedAt(rows[1..], cs, out[1..]);
      ConvertedCons(rows[0], rows[1..], cs, out[0], out[1..]);
      assert rows == [rows[0]] + rows[1..] && out == [out[0]] + out[1..];
    }
  }

  /** The induction: each readable row is kept, and its channel number lets
      the next row pass the guard. */
  lemma {:induction false} UpScanAllReadable(rows: seq<Row>, s: string, cs: seq<Column>)
    requires |cs| > 0 && AllText(cs) && IsDigits(s) && AllReadable(rows, cs)
    ensures UpScanWith(rows, Some(s), cs).Ok? && AllConverted(rows, cs, UpScanWith(rows, Some(s), cs).value)
    decreases |rows|
  {
    if |rows| > 0 {
      ReadableStep(rows, s, cs);
      var rec := Columns(rows[0], cs).value;
      UpScanAllReadable(rows[1..], rec[0].1.s, cs);
      var tail := UpScanWith(rows[1..], Some(rec[0].1.s), cs).value;
      var out := [rec] + tail;
      assert out[0] == rec && out[1..] == tail;
    }
  }

  /** While each row leaves a channel number in its first column, the next
      row passes the guard: after a digit `channel_id`, a table of such rows
      yields one record per row, in order. */
  lemma {:induction false} UpScanWithKeepsReadableRows(rows: seq<Row>, s: string, cs: seq<Column>)
    requires |cs| > 0 && AllText(cs) && IsDigits(s)
    requires forall j :: 0 <= j < |rows| ==> Readable(rows[j], cs)
    ensures UpScanWith(rows, Some(s), cs).Ok?
    ensures |UpScanWith(rows, Some(s), cs).value| == |rows|
    ensures forall k :: 0 <= k < |rows| ==> Converted(rows[k], cs, UpScanWith(rows, Some(s), cs).value[k])
  {
    ReadableAll(rows, cs);
    UpScanAllReadable(rows, s, cs);
    AllConvertedAt(rows, cs, UpScanWith(rows, Some(s), cs).value);
  }

  /** A converted first row before converted later rows. */
  lemma {:induction false} ConvertedCons(row: Row, rest: seq<Row>, cs: seq<Column>, rec: Record, tail: seq<Record>)
    requires Converted(row, cs, rec) && |tail| == |rest|
    requires forall k :: 0 <= k < |tail| ==> Converted(rest[k], cs, tail[k])
    ensures forall k :: 0 <= k < |rest| + 1 ==> Converted(([row] + rest)[k], cs, ([rec] + tail)[k])
  {
  }

  /** Unlike the current parser, the older one keeps going: after a digit
      `channel_id`, upstream rows that have the seven cells it reads and a
      channel number in cell 1 all appear, one record each, in order. */
  lemma {:induction false} UpScanKeepsReadableRows(rows: seq<Row>, s: string)
    requires IsDigits(s)
    requires forall j :: 0 <= j < |rows| ==> !rows[j].hasTh && |rows[j].cells| > 6 && IsDigits(Strip(rows[j].cells[1]))
    ensures UpScan(rows, Some(s)).Ok? && |UpScan(rows, Some(s)).value| == |rows|
    ensures forall k :: 0 <= k < |rows| ==> Converted(rows[k], UpstreamColumns(), UpScan(rows, Some(s)).value[k])
  {
    ColumnsAreText();
    UpScanWithKeepsReadableRows(rows, s, UpstreamColumns());
  }
}
