/** `parse_html_sb8200`: the SB8200 status page (cmconnectionstatus.html).
    The page's header fragment is repaired first; downstream channels are the
    rows of the second table, upstream channels those of the third. The
    upstream guard reads the `channel_id` variable as the previous row left
    it, which is kept here exactly as written. */
module Sb8200 {
  import opened Common
  import opened Text
  import opened Stats
  import opened Soup

  /** The fragment with the stray `</tr>` the firmware emits, and its repair. */
  const BadHeader: string := "Bonded Channels</strong></th></tr>"
  const FixedHeader: string := "Bonded Channels</strong></th>"

  const DownstreamTable: nat := 1
  const UpstreamTable: nat := 2

  /** `html.replace(BadHeader, FixedHeader, 2)`. */
  function Repair(html: string): string {
    ReplaceN(html, BadHeader, FixedHeader, 2)
  }

  /** Cells 3-7 of a downstream row. */
  function DownstreamColumns(): seq<Column> {
    [
      Column("frequency", 3, " Hz", ToInt),
      Column("power", 4, " dBmV", ToFloat),
      Column("snr", 5, " dB", ToFloat),
      Column("corrected", 6, "", ToInt),
      Column("uncorrectables", 7, "", ToInt)
    ]
  }

  /** An upstream record: `channel_id` from cell 1, then cells 4 and 6. */
  function UpstreamColumns(): seq<Column> {
    [
      Column("channel_id", 1, "", ToInt),
      Column("frequency", 4, " Hz", ToInt),
      Column("power", 6, " dBmV", ToFloat)
    ]
  }

  /** What the Python variable `channel_id` holds: never bound in this
      loop yet (None), a stripped cell text, or an int. */
  datatype Channel = Unbound | Text(text: string) | Number(n: int)

  /** One pass of the downstream loop; `channel_id` is reported as an int. */
  function DownstreamRow(row: Row): (o: RowOutcome)
    ensures o.Skip? <==> row.hasTh || (|row.cells| > 0 && !IsDigits(Strip(row.cells[0])))
    ensures !row.hasTh && |row.cells| == 0 ==> o == Fail(IndexError)
    ensures o.Keep? ==> |row.cells| > 0 && IsDigits(Strip(row.cells[0]))
                        && |o.record| == |DownstreamColumns()| + 1
                        && o.record[0] == ("channel_id", VInt(DigitsValue(Strip(row.cells[0]))))
                        && Converted(row, DownstreamColumns(), o.record[1..])
    ensures o.Fail? && |row.cells| > 0 ==>
      exists i :: FirstFailure(row, DownstreamColumns(), i) && CellValue(row, DownstreamColumns()[i]) == Err(o.fault)
  {
    if row.hasTh then Skip
    else if |row.cells| == 0 then Fail(IndexError)
    else
      var channelId := Strip(row.cells[0]);
      if !IsDigits(channelId) then Skip
      else
        var fields := Columns(row, DownstreamColumns());
        ColumnsSpec(row, DownstreamColumns());
        if fields.Ok? then
          var rec := [("channel_id", VInt(DigitsValue(channelId)))] + fields.value;
          assert rec[1..] == fields.value;
          Keep(rec)
        else Fail(fields.fault)
  }

  /** `channel_id` after the downstream loop has seen `rows`: every row
      that is not a header rebinds it to its stripped first cell. */
  function LastChannel(rows: seq<Row>, c: Channel): Channel
    decreases |rows|
  {
    if |rows| == 0 then c
    else if rows[0].hasTh || |rows[0].cells| == 0 then LastChannel(rows[1..], c)
    else LastChannel(rows[1..], Text(Strip(rows[0].cells[0])))
  }

  /** The upstream loop from state `c`. The guard calls `isdigit` on what
      `channel_id` holds: on None or on an int that raises AttributeError;
      on a non-digit text it skips the row and leaves `channel_id` as it is;
      otherwise the row is converted and `channel_id` becomes the int read
      from cell 1. */
  function UpScan(rows: seq<Row>, c: Channel): Result<seq<Record>>
    decreases |rows|
  {
    if |rows| == 0 then Ok([])
    else if rows[0].hasTh then UpScan(rows[1..], c)
    else match c
      case Unbound => Err(AttributeError)
      case Number(_) => Err(AttributeError)
      case Text(s) =>
        if !IsDigits(s) then UpScan(rows[1..], c)
        else
          ColumnsSpec(rows[0], UpstreamColumns());
          match Columns(rows[0], UpstreamColumns())
          case Err(e) => Err(e)
          case Ok(rec) => Then([rec], UpScan(rows[1..], Number(rec[0].1.n)))
  }

  /** The parse of the repaired page's tables. */
  function ParseDoc(doc: Doc): Result<Snapshot> {
    var down :- TableAt(doc, DownstreamTable);
    var ds :- Scan(down, DownstreamRow);
    var up :- TableAt(doc, UpstreamTable);
    var us :- UpScan(up, LastChannel(down, Unbound));
    Ok(Snapshot(ds, us))
  }

  /** The downstream loop, with the `channel_id` it leaves behind. */
  method ScanDownstream(rows: seq<Row>) returns (r: Result<seq<Record>>, channel: Channel)
    ensures r == Scan(rows, DownstreamRow)
    ensures r.Ok? ==> channel == LastChannel(rows, Unbound)
  {
    var downstream: seq<Record> := [];
    channel := Unbound;
    ScanStart(rows, DownstreamRow);
    assert rows[0..] == rows;
    for i := 0 to |rows|
      invariant Scan(rows, DownstreamRow) == Then(downstream, Scan(rows[i..], DownstreamRow))
      invariant LastChannel(rows, Unbound) == LastChannel(rows[i..], channel)
    {
      var row := rows[i];
      ScanStep(rows, i, DownstreamRow);
      assert rows[i..][0] == row && rows[i..][1..] == rows[i + 1..];
      if row.hasTh {
        continue;
      }
      if |row.cells| == 0 {
        return Err(IndexError), channel;
      }
      channel := Text(Strip(row.cells[0]));
      if !IsDigits(channel.text) {
        continue;
      }
      var fields := Columns(row, DownstreamColumns());
      if fields.Err? {
        return Err(fields.fault), channel;
      }
      var rec := [("channel_id", VInt(DigitsValue(channel.text)))] + fields.value;
      assert DownstreamRow(row) == Keep(rec);
      ThenKeep(downstream, rec, Scan(rows[i + 1..], DownstreamRow));
      downstream := downstream + [rec];
    }
    ScanDone(rows, downstream, DownstreamRow);
    assert rows[|rows|..] == [];
    r := Ok(downstream);
  }

  /** The upstream loop, starting from the `channel_id` downstream left. */
  method ScanUpstream(rows: seq<Row>, start: Channel) returns (r: Result<seq<Record>>)
    ensures r == UpScan(rows, start)
  {
    var upstream: seq<Record> := [];
    var channel := start;
    assert rows[0..] == rows;
    if UpScan(rows, start).Ok? {
      assert [] + UpScan(rows, start).value == UpScan(rows, start).value;
    }
    for i := 0 to |rows|
      invariant UpScan(rows, start) == Then(upstream, UpScan(rows[i..], channel))
    {
      var row := rows[i];
      assert rows[i..][0] == row && rows[i..][1..] == rows[i + 1..];
      if row.hasTh {
        continue;
      }
      if !channel.Text? {
        return Err(AttributeError);
      }
      if !IsDigits(channel.text) {
        continue;
      }
      var fields := Columns(row, UpstreamColumns());
      if fields.Err? {
        return Err(fields.fault);
      }
      var rec := fields.value;
      ColumnsSpec(row, UpstreamColumns());
      ThenKeep(upstream, rec, UpScan(rows[i + 1..], Number(rec[0].1.n)));
      upstream := upstream + [rec];
      channel := Number(rec[0].1.n);
    }
    assert rows[|rows|..] == [];
    assert upstream + [] == upstream;
    r := Ok(upstream);
  }

  /** `parse_html_sb8200(html)`, BeautifulSoup being the `soup` argument. */
  method ParseHtml(html: string, soup: string -> Doc) returns (r: Result<Snapshot>)
    ensures r == ParseDoc(soup(Repair(html)))
  {
    var doc := soup(Repair(html));
    if |doc| <= DownstreamTable {
      return Err(IndexError);
    }
    var down, channel := ScanDownstream(doc[DownstreamTable]);
    if down.Err? {
      return Err(down.fault);
    }
    if |doc| <= UpstreamTable {
      return Err(IndexError);
    }
    var up := ScanUpstream(doc[UpstreamTable], channel);
    if up.Err? {
      return Err(up.fault);
    }
    r := Ok(Snapshot(down.value, up.value));
  }

  /** The repair rewrites min(2, count) occurrences, each one five
      characters (`</tr>`) shorter. */
  lemma {:induction false} RepairLength(html: string)
    ensures |Repair(html)| == |html| - 5 * Min(2, Count(html, BadHeader))
  {
    ReplaceNLength(html, BadHeader, FixedHeader, 2);
  }

  /** The repair rewrites the first two broken fragments, scanning from
      the start without overlap, and keeps the page before, between and
      after them. */
  lemma {:induction false} RepairFirstTwo(a: string, b: string, c: string)
    requires NoneBefore(a + BadHeader + (b + BadHeader + c), BadHeader, |a|)
    requires NoneBefore(b + BadHeader + c, BadHeader, |b|)
    ensures Repair(a + BadHeader + (b + BadHeader + c)) == a + FixedHeader + (b + FixedHeader + c)
  {
    ReplaceTwoFirst(a, b, c, BadHeader, FixedHeader);
  }

  /** A page with one broken fragment has exactly that one rewritten. */
  lemma {:induction false} RepairOnlyOne(a: string, b: string)
    requires NoneBefore(a + BadHeader + b, BadHeader, |a|) && !Contains(b, BadHeader)
    ensures Repair(a + BadHeader + b) == a + FixedHeader + b
  {
    ReplaceOnlyFirst(a, b, BadHeader, FixedHeader, 2);
  }

  /** A page without the broken fragment is left as it is. */
  lemma {:induction false} RepairAbsent(html: string)
    requires !Contains(html, BadHeader)
    ensures Repair(html) == html
  {
    ReplaceAbsent(html, BadHeader, FixedHeader, 2);
  }

  /** With at most two broken fragments every one of them is repaired. */
  lemma {:induction false} RepairAtMostTwo(html: string)
    requires Count(html, BadHeader) <= 2
    ensures Repair(html) == ReplaceAll(html, BadHeader, FixedHeader)
  {
    ReplaceNCoversAll(html, BadHeader, FixedHeader, 2);
  }

  /** Once `channel_id` is None or an int, the upstream loop completes only
      if every remaining row is a header, and then adds nothing. */
  lemma {:induction false} UpScanUnusable(rows: seq<Row>, c: Channel)
    requires !c.Text?
    ensures UpScan(rows, c).Ok? <==> forall j :: 0 <= j < |rows| ==> rows[j].hasTh
    ensures UpScan(rows, c).Ok? ==> UpScan(rows, c).value == []
    ensures UpScan(rows, c).Err? ==> UpScan(rows, c).fault == AttributeError
    decreases |rows|
  {
    if |rows| > 0 {
      UpScanUnusable(rows[1..], c);
      assert forall j :: 1 <= j < |rows| ==> rows[j] == rows[1..][j - 1];
    }
  }

  /** A stale non-digit `channel_id` makes the upstream loop skip every row. */
  lemma {:induction false} UpScanStaleText(rows: seq<Row>, s: string)
    requires !IsDigits(s)
    ensures UpScan(rows, Text(s)) == Ok([])
    decreases |rows|
  {
    if |rows| > 0 {
      UpScanStaleText(rows[1..], s);
    }
  }

  /** A completed upstream loop has at most one record: the first record
      rebinds `channel_id` to an int, so any later data row raises. */
  lemma {:induction false} UpScanAtMostOne(rows: seq<Row>, c: Channel)
    requires UpScan(rows, c).Ok?
    ensures |UpScan(rows, c).value| <= 1
    decreases |rows|
  {
    if |rows| > 0 {
      if rows[0].hasTh {
        UpScanAtMostOne(rows[1..], c);
      } else if c.Text? && IsDigits(c.text) {
        var rec := Columns(rows[0], UpstreamColumns()).value;
        UpScanUnusable(rows[1..], Number(rec[0].1.n));
      } else if c.Text? {
        UpScanStaleText(rows[1..], c.text);
      }
    }
  }

  /** The upstream result depends on the last non-header downstream row:
      when its first cell is not all digits, the upstream list is empty
      whatever the upstream table holds. */
  lemma {:induction false} StaleGuardDropsUpstream(doc: Doc)
    requires ParseDoc(doc).Ok?
    requires LastChannel(doc[DownstreamTable], Unbound).Text?
    requires !IsDigits(LastChannel(doc[DownstreamTable], Unbound).text)
    ensures ParseDoc(doc).value.upstream == []
  {
    UpScanStaleText(doc[UpstreamTable], LastChannel(doc[DownstreamTable], Unbound).text);
  }

  /** Every completed parse has at most one upstream channel. */
  lemma {:induction false} AtMostOneUpstream(doc: Doc)
    requires ParseDoc(doc).Ok?
    ensures |ParseDoc(doc).value.upstream| <= 1
  {
    UpScanAtMostOne(doc[UpstreamTable], LastChannel(doc[DownstreamTable], Unbound));
  }

  /** Cells `<f> Hz | <p> dBmV | <s> dB | <c> | <u>` convert to the
      numbers they show, the units taken off. */
  lemma {:induction false} DownstreamCells(data: Row, f: string, p: string, s: string, c: string, u: string)
    requires IsDigits(f) && IsDigits(c) && IsDigits(u) && IsFloatLiteral(p) && IsFloatLiteral(s)
    requires |data.cells| == 8 && data.cells[3] == f + " Hz"
    requires data.cells[4] == p + " dBmV" && data.cells[5] == s + " dB"
    requires data.cells[6] == c && data.cells[7] == u
    ensures CellValue(data, DownstreamColumns()[0]) == Ok(VInt(DigitsValue(f)))
    ensures CellValue(data, DownstreamColumns()[1]) == Ok(VFloat(p))
    ensures CellValue(data, DownstreamColumns()[2]) == Ok(VFloat(s))
    ensures CellValue(data, DownstreamColumns()[3]) == Ok(VInt(DigitsValue(c)))
    ensures CellValue(data, DownstreamColumns()[4]) == Ok(VInt(DigitsValue(u)))
  {
    var cs := DownstreamColumns();
    assert cs[0] == Column("frequency", 3, " Hz", ToInt);
    assert cs[1] == Column("power", 4, " dBmV", ToFloat);
    assert cs[2] == Column("snr", 5, " dB", ToFloat);
    assert cs[3] == Column("corrected", 6, "", ToInt);
    assert cs[4] == Column("uncorrectables", 7, "", ToInt);
    IntUnitCell(data, cs[0], f);
    FloatUnitCell(data, cs[1], p);
    FloatUnitCell(data, cs[2], s);
    IntCell(data, cs[3]);
    IntCell(data, cs[4]);
  }

  /** A data row `id | _ | _ | <f> Hz | <p> dBmV | <s> dB | <c> | <u>`
      is kept, with exactly those values: the units come off, the
      counters and the frequency are read as decimal numbers. */
  lemma {:induction false} OneDownstreamRow(data: Row, id: string, f: string, p: string, s: string, c: string, u: string)
    requires !data.hasTh
    requires IsDigits(id) && IsDigits(f) && IsDigits(c) && IsDigits(u)
    requires IsFloatLiteral(p) && IsFloatLiteral(s)
    requires |data.cells| == 8 && data.cells[0] == id && data.cells[3] == f + " Hz"
    requires data.cells[4] == p + " dBmV" && data.cells[5] == s + " dB"
    requires data.cells[6] == c && data.cells[7] == u
    ensures var o := DownstreamRow(data);
      o.Keep? && |o.record| == 6
      && o.record[0] == ("channel_id", VInt(DigitsValue(id)))
      && o.record[1] == ("frequency", VInt(DigitsValue(f)))
      && o.record[2] == ("power", VFloat(p))
      && o.record[3] == ("snr", VFloat(s))
      && o.record[4] == ("corrected", VInt(DigitsValue(c)))
      && o.record[5] == ("uncorrectables", VInt(DigitsValue(u)))
  {
    DownstreamCells(data, f, p, s, c, u);
    DigitsStripped(id);
    var o := DownstreamRow(data);
    assert o.Keep?;
    var rec := o.record;
    assert Converted(data, DownstreamColumns(), rec[1..]);
    assert rec[1..][0] == rec[1] && rec[1..][1] == rec[2] && rec[1..][2] == rec[3] && rec[1..][3] == rec[4] && rec[1..][4] == rec[5];
  }
}
