/** The Arris T25: `parse_html_t25` reads the first table (downstream)
    and the fifth (upstream); `follow_redirect` walks the modem's
    meta-refresh pages to the login page, and `get_token_t25` logs in
    there. All values stay text; the downstream frequency is rescaled from
    MHz to Hz, the upstream one is not. */
module T25 {
  import opened Common
  import opened Text
  import opened Stats
  import opened Soup

  const DownstreamTable: nat := 0
  const UpstreamTable: nat := 4

  /** Cells 2, 3, 4, 7 and 8 of a downstream row. Only the frequency is
      read as a float; the MHz value is rescaled afterwards. */
  function DownstreamColumns(): seq<Column> {
    [
      Column("frequency", 2, " MHz", ToFloat),
      Column("power", 3, " dBmV", AsText),
      Column("snr", 4, " dB", AsText),
      Column("corrected", 7, "", AsText),
      Column("uncorrectables", 8, "", AsText)
    ]
  }

  /** Cells 5, 2 and 3 of an upstream row, in the order the loop reads them. */
  function UpstreamColumns(): seq<Column> {
    [
      Column("symbol_rate", 5, " kSym/s", AsText),
      Column("frequency", 2, " MHz", AsText),
      Column("power", 3, " dBmV", AsText)
    ]
  }

  /** `"power" in str(table_row).lower()`: the power-level header rows. */
  predicate MentionsPower(row: Row) {
    Contains(Lower(row.markup), "power")
  }

  /** One pass of the downstream loop. */
  function DownstreamRow(row: Row, scale: string -> string): (o: RowOutcome)
    ensures o.Skip? <==> MentionsPower(row) || row.hasTh
                         || (|row.cells| > 0 && !IsDigits(Bare(row.cells[0], "Downstream")))
    ensures !MentionsPower(row) && !row.hasTh && |row.cells| == 0 ==> o == Fail(IndexError)
    ensures o.Keep? ==>
      |row.cells| > 2 && IsDigits(Bare(row.cells[0], "Downstream")) && |o.record| == 6
      && o.record[0] == ("channel_id", VStr(Bare(row.cells[0], "Downstream")))
      && IsFloatLiteral(Bare(row.cells[2], " MHz"))
      && o.record[1] == ("frequency", VStr(scale(Bare(row.cells[2], " MHz"))))
      && Converted(row, DownstreamColumns()[1..], o.record[2..])
    ensures o.Fail? && |row.cells| > 0 ==> o.fault == IndexError || o.fault.ValueError?
  {
    if MentionsPower(row) then Skip
    else
      var cs := DownstreamColumns();
      var inner := ChannelRow(row, "Downstream", cs);
      match inner
      case Keep(rec) =>
        assert CellValue(row, cs[0]) == Ok(rec[1].1) && rec[1..][0] == rec[1];
        assert cs[0] == Column("frequency", 2, " MHz", ToFloat);
        FloatCellValue(row, cs[0]);
        var out := [rec[0], ("frequency", VStr(scale(rec[1].1.literal)))] + rec[2..];
        assert out[2..] == rec[2..] == rec[1..][1..];
        ConvertedTail(row, cs, rec[1..]);
        Keep(out)
      case _ => inner
  }

  /** A data row whose columns all convert is kept, the float frequency
      going through `scale`. */
  lemma {:induction false} DownstreamKeep(row: Row, scale: string -> string)
    requires !MentionsPower(row) && !row.hasTh && |row.cells| > 0
    requires IsDigits(Bare(row.cells[0], "Downstream")) && Columns(row, DownstreamColumns()).Ok?
    ensures |Columns(row, DownstreamColumns()).value| == 5 && Columns(row, DownstreamColumns()).value[0].1.VFloat?
    ensures DownstreamRowBy(scale)(row)
      == Keep([("channel_id", VStr(Bare(row.cells[0], "Downstream"))),
               ("frequency", VStr(scale(Columns(row, DownstreamColumns()).value[0].1.literal)))]
              + Columns(row, DownstreamColumns()).value[1..])
  {
    var cs := DownstreamColumns();
    ColumnsSpec(row, cs);
    var fields := Columns(row, cs).value;
    assert CellValue(row, cs[0]) == Ok(fields[0].1);
    var rec := [("channel_id", VStr(Bare(row.cells[0], "Downstream")))] + fields;
    assert ChannelRow(row, "Downstream", cs) == Keep(rec);
    assert rec[1] == fields[0] && rec[2..] == fields[1..];
  }

  /** `DownstreamRow` with the scaling fixed, as a loop visits the rows. */
  function DownstreamRowBy(scale: string -> string): Row -> RowOutcome {
    row => DownstreamRow(row, scale)
  }

  /** One pass of the upstream loop: the word "Upstream" is removed from
      the channel cell. */
  function UpstreamRow(row: Row): RowOutcome {
    ChannelRow(row, "Upstream", UpstreamColumns())
  }

  /** The whole parse: downstream from the first table, upstream from the
      fifth. */
  function ParseDoc(doc: Doc, scale: string -> string): Result<Snapshot> {
    var down :- TableAt(doc, DownstreamTable);
    var ds :- Scan(down, DownstreamRowBy(scale));
    var up :- TableAt(doc, UpstreamTable);
    var us :- Scan(up, UpstreamRow);
    Ok(Snapshot(ds, us))
  }

  method ScanDownstream(rows: seq<Row>, scale: string -> string) returns (r: Result<seq<Record>>)
    ensures r == Scan(rows, DownstreamRowBy(scale))
  {
    var downstream: seq<Record> := [];
    ScanStart(rows, DownstreamRowBy(scale));
    for i := 0 to |rows|
      invariant Scan(rows, DownstreamRowBy(scale)) == Then(downstream, Scan(rows[i..], DownstreamRowBy(scale)))
    {
      var row := rows[i];
      ScanStep(rows, i, DownstreamRowBy(scale));
      assert DownstreamRowBy(scale)(row) == DownstreamRow(row, scale);
      if Contains(Lower(row.markup), "power") {
        continue;
      }
      if row.hasTh {
        continue;
      }
      if |row.cells| == 0 {
        return Err(IndexError);
      }
      var channelId := Bare(row.cells[0], "Downstream");
      if !IsDigits(channelId) {
        continue;
      }
      var fields := Columns(row, DownstreamColumns());
      if fields.Err? {
        return Err(fields.fault);
      }
      DownstreamKeep(row, scale);
      var frequency := VStr(scale(fields.value[0].1.literal));
      var rec := [("channel_id", VStr(channelId)), ("frequency", frequency)] + fields.value[1..];
      assert DownstreamRow(row, scale) == Keep(rec);
      ThenKeep(downstream, rec, Scan(rows[i + 1..], DownstreamRowBy(scale)));
      downstream := downstream + [rec];
    }
    ScanDone(rows, downstream, DownstreamRowBy(scale));
    r := Ok(downstream);
  }

  method ScanUpstream(rows: seq<Row>) returns (r: Result<seq<Record>>)
    ensures r == Scan(rows, UpstreamRow)
  {
    var upstream: seq<Record> := [];
    ScanStart(rows, UpstreamRow);
    for i := 0 to |rows|
      invariant Scan(rows, UpstreamRow) == Then(upstream, Scan(rows[i..], UpstreamRow))
    {
      var row := rows[i];
      ScanStep(rows, i, UpstreamRow);
      if row.hasTh {
        continue;
      }
      if |row.cells| == 0 {
        return Err(IndexError);
      }
      var channelId := Bare(row.cells[0], "Upstream");
      if !IsDigits(channelId) {
        continue;
      }
      var fields := Columns(row, UpstreamColumns());
      if fields.Err? {
        return Err(fields.fault);
      }
      var rec := [("channel_id", VStr(channelId))] + fields.value;
      assert UpstreamRow(row) == Keep(rec);
      ThenKeep(upstream, rec, Scan(rows[i + 1..], UpstreamRow));
      upstream := upstream + [rec];
    }
    ScanDone(rows, upstream, UpstreamRow);
    r := Ok(upstream);
  }

  /** `parse_html_t25(html)`, BeautifulSoup being `soup` and the float
      rescaling `scale`. */
  method ParseHtml(html: string, soup: string -> Doc, scale: string -> string) returns (r: Result<Snapshot>)
    ensures r == ParseDoc(soup(html), scale)
  {
    var doc := soup(html);
    if |doc| <= DownstreamTable {
      return Err(IndexError);
    }
    var down := ScanDownstream(doc[DownstreamTable], scale);
    if down.Err? {
      return Err(down.fault);
    }
    if |doc| <= UpstreamTable {
      return Err(IndexError);
    }
    var up := ScanUpstream(doc[UpstreamTable]);
    if up.Err? {
      return Err(up.fault);
    }
    r := Ok(Snapshot(down.value, up.value));
  }

  /** Only the first and fifth tables matter. */
  lemma {:induction false} ParseReadsTables(doc: Doc, other: Doc, scale: string -> string)
    requires |doc| > UpstreamTable && |other| > UpstreamTable
    requires doc[DownstreamTable] == other[DownstreamTable] && doc[UpstreamTable] == other[UpstreamTable]
    ensures ParseDoc(doc, scale) == ParseDoc(other, scale)
  {
  }

  /** A row whose markup spells "power" in any mix of cases is skipped by
      the downstream loop, whatever its cells. */
  lemma {:induction false} PowerRowSkipped(row: Row, scale: string -> string, i: nat)
    requires i + 5 <= |row.markup| && Lower(row.markup[i..i + 5]) == "power"
    ensures DownstreamRow(row, scale).Skip?
  {
    var low := Lower(row.markup);
    assert low[i..i + 5] == Lower(row.markup[i..i + 5]);
    assert OccursAt(low, "power", i);
  }

  /** The label in front of the channel number is removed:
      "Downstream 5" and "Upstream 5" both give channel "5". */
  lemma {:induction false} ChannelLabelRemoved(word: string, digits: string)
    requires word == "Downstream" || word == "Upstream"
    requires IsDigits(digits)
    ensures Bare(word + " " + digits, word) == digits
  {
    ReplaceLeading(word, " " + digits);
    AbsentFirstChar(" " + digits, word);
    ReplaceAbsent(" " + digits, word, "", 0);
    assert word + " " + digits == word + (" " + digits);
    StripLeadingSpace(digits);
  }

  /** A parse that succeeds read both tables, and both loops finished. */
  lemma {:induction false} ParseParts(doc: Doc, scale: string -> string)
    requires ParseDoc(doc, scale).Ok?
    ensures |doc| > UpstreamTable
    ensures Scan(doc[DownstreamTable], DownstreamRowBy(scale)).Ok? && Scan(doc[UpstreamTable], UpstreamRow).Ok?
    ensures ParseDoc(doc, scale).value.downstream == Scan(doc[DownstreamTable], DownstreamRowBy(scale)).value
    ensures ParseDoc(doc, scale).value.upstream == Scan(doc[UpstreamTable], UpstreamRow).value
  {
  }

  /** Every downstream record of a parse comes from a kept row, and so has
      its frequency rescaled through `scale`, while every upstream record
      keeps the MHz text of its cell 2. */
  lemma {:induction false} FrequencyScaledDownstreamOnly(doc: Doc, scale: string -> string)
    requires ParseDoc(doc, scale).Ok?
    ensures forall k :: 0 <= k < |ParseDoc(doc, scale).value.downstream| ==>
      |ParseDoc(doc, scale).value.downstream[k]| == 6
      && exists j :: (0 <= j < |doc[DownstreamTable]| && |doc[DownstreamTable][j].cells| > 2
        && ParseDoc(doc, scale).value.downstream[k][1]
           == ("frequency", VStr(scale(Bare(doc[DownstreamTable][j].cells[2], " MHz")))))
    ensures forall k :: 0 <= k < |ParseDoc(doc, scale).value.upstream| ==>
      |ParseDoc(doc, scale).value.upstream[k]| == 4
      && exists j :: (0 <= j < |doc[UpstreamTable]| && |doc[UpstreamTable][j].cells| > 2
        && ParseDoc(doc, scale).value.upstream[k][2]
           == ("frequency", VStr(Bare(doc[UpstreamTable][j].cells[2], " MHz"))))
  {
    ParseParts(doc, scale);
    var down, up := doc[DownstreamTable], doc[UpstreamTable];
    var ds, us := ParseDoc(doc, scale).value.downstream, ParseDoc(doc, scale).value.upstream;
    forall k | 0 <= k < |ds|
      ensures |ds[k]| == 6 && exists j :: (0 <= j < |down| && |down[j].cells| > 2
        && ds[k][1] == ("frequency", VStr(scale(Bare(down[j].cells[2], " MHz")))))
    {
      var j := DownstreamSource(down, scale, k);
      assert 0 <= j < |down| && |down[j].cells| > 2
        && ds[k][1] == ("frequency", VStr(scale(Bare(down[j].cells[2], " MHz"))));
    }
    forall k | 0 <= k < |us|
      ensures |us[k]| == 4 && exists j :: (0 <= j < |up| && |up[j].cells| > 2
        && us[k][2] == ("frequency", VStr(Bare(up[j].cells[2], " MHz"))))
    {
      var j := UpstreamSource(up, k);
      assert 0 <= j < |up| && |up[j].cells| > 2
        && us[k][2] == ("frequency", VStr(Bare(up[j].cells[2], " MHz")));
    }
  }

  /** The row a downstream record came from, its frequency rescaled. */
  lemma {:induction false} DownstreamSource(down: seq<Row>, scale: string -> string, k: nat) returns (j: nat)
    requires Scan(down, DownstreamRowBy(scale)).Ok? && k < |Scan(down, DownstreamRowBy(scale)).value|
    ensures j < |down| && |down[j].cells| > 2 && |Scan(down, DownstreamRowBy(scale)).value[k]| == 6
    ensures Scan(down, DownstreamRowBy(scale)).value[k][1] == ("frequency", VStr(scale(Bare(down[j].cells[2], " MHz"))))
  {
    var ds := Scan(down, DownstreamRowBy(scale)).value;
    ScanOnlyKeptRows(down, DownstreamRowBy(scale), k);
    j :| 0 <= j < |down| && DownstreamRowBy(scale)(down[j]) == Keep(ds[k]);
    assert DownstreamRow(down[j], scale) == Keep(ds[k]);
    DownstreamFrequencyScaled(down[j], scale);
  }

  /** The row an upstream record came from, its frequency text kept. */
  lemma {:induction false} UpstreamSource(up: seq<Row>, k: nat) returns (j: nat)
    requires Scan(up, UpstreamRow).Ok? && k < |Scan(up, UpstreamRow).value|
    ensures j < |up| && |up[j].cells| > 2 && |Scan(up, UpstreamRow).value[k]| == 4
    ensures Scan(up, UpstreamRow).value[k][2] == ("frequency", VStr(Bare(up[j].cells[2], " MHz")))
  {
    var us := Scan(up, UpstreamRow).value;
    ScanOnlyKeptRows(up, UpstreamRow, k);
    j :| 0 <= j < |up| && UpstreamRow(up[j]) == Keep(us[k]);
    UpstreamFrequencyUnscaled(up[j]);
  }

  /** A downstream record holds the frequency text minus " MHz", passed
      through `scale`. */
  lemma {:induction false} DownstreamFrequencyScaled(row: Row, scale: string -> string)
    requires DownstreamRow(row, scale).Keep?
    ensures |row.cells| > 2 && |DownstreamRow(row, scale).record| == 6
    ensures DownstreamRow(row, scale).record[1] == ("frequency", VStr(scale(Bare(row.cells[2], " MHz"))))
  {
  }

  /** An upstream record holds the frequency text as the page shows it,
      minus " MHz". */
  lemma {:induction false} UpstreamFrequencyUnscaled(row: Row)
    requires UpstreamRow(row).Keep?
    ensures |row.cells| > 5 && |UpstreamRow(row).record| == 4
    ensures UpstreamRow(row).record[1] == ("symbol_rate", VStr(Bare(row.cells[5], " kSym/s")))
    ensures UpstreamRow(row).record[2] == ("frequency", VStr(Bare(row.cells[2], " MHz")))
    ensures UpstreamRow(row).record[3] == ("power", VStr(Bare(row.cells[3], " dBmV")))
  {
    var cs := UpstreamColumns();
    var rec := UpstreamRow(row).record;
    assert CellValue(row, cs[0]) == Ok(rec[1..][0].1) && rec[1..][0] == rec[1];
    assert CellValue(row, cs[1]) == Ok(rec[1..][1].1) && rec[1..][1] == rec[2];
    assert CellValue(row, cs[2]) == Ok(rec[1..][2].1) && rec[1..][2] == rec[3];
  }

  /** Every downstream row the loop keeps shows up in the parse, in the
      order of the rows. */
  lemma {:induction false} DownstreamRowsAppear(doc: Doc, scale: string -> string, j: nat, j2: nat)
    requires ParseDoc(doc, scale).Ok?
    requires j < j2 < |doc[DownstreamTable]|
    requires DownstreamRow(doc[DownstreamTable][j], scale).Keep? && DownstreamRow(doc[DownstreamTable][j2], scale).Keep?
    ensures exists k, k2 :: (0 <= k < k2 < |ParseDoc(doc, scale).value.downstream|
      && ParseDoc(doc, scale).value.downstream[k] == DownstreamRow(doc[DownstreamTable][j], scale).record
      && ParseDoc(doc, scale).value.downstream[k2] == DownstreamRow(doc[DownstreamTable][j2], scale).record)
  {
    ParseParts(doc, scale);
    ScanKeepsOrder(doc[DownstreamTable], DownstreamRowBy(scale), j, j2);
  }

  /** The page's meta refresh, as BeautifulSoup finds it: none, or a tag
      whose `content` attribute may be missing. */
  datatype Meta = NoRefresh | Refresh(content: Option<string>)

  /** A response: its status, the URL it was finally served from, and the
      meta refresh of its body. */
  datatype Page = Page(status: int, url: string, meta: Meta)

  /** What `session.get`/`session.post` gives: a response, or an exception. */
  datatype Fetch = Failed | Fetched(page: Page)

  /** The next hop: the URL up to its last '/', a '/', then the second
      ';'-separated part of the refresh content with every "url=" removed. */
  function NextUrl(url: string, content: string): (r: Result<string>)
    ensures r.Err? <==> |Split(content, ';')| < 2
    ensures r.Err? ==> r.fault == IndexError
  {
    var parts := Split(content, ';');
    if |parts| < 2 then Err(IndexError)
    else Ok(PyPrefix(url, RFind(url, '/')) + "/" + ReplaceAll(parts[1], "url=", ""))
  }

  /** A refresh "<delay>;url=<target>" from a page under "<dir>/" leads to
      "<dir>/<target>". */
  lemma {:induction false} NextUrlOfRefresh(dir: string, page: string, delay: string, target: string)
    requires forall j :: 0 <= j < |page| ==> page[j] != '/'
    requires forall j :: 0 <= j < |delay| ==> delay[j] != ';'
    requires forall j :: 0 <= j < |target| ==> target[j] != ';' && target[j] != 'u'
    ensures NextUrl(dir + "/" + page, delay + ";url=" + target) == Ok(dir + "/" + target)
  {
    RFindLast(dir, '/', page);
    var url := dir + "/" + page;
    assert PyPrefix(url, |dir|) == dir;
    var part := "url=" + target;
    forall j | 0 <= j < |part| ensures part[j] != ';' {
      if j >= 4 { assert part[j] == target[j - 4]; }
    }
    assert delay + ";url=" + target == delay + [';'] + part;
    SplitTwo(delay, ';', part);
    ReplaceLeading("url=", target);
    AbsentFirstChar(target, "url=");
    ReplaceAbsent(target, "url=", "", 0);
  }

  /** Where one page of the walk leads: it is the landing page, served
      from `url`, or its refresh points on to `url`. */
  datatype Hop = Land(url: string) | Next(url: string)

  /** One call of `follow_redirect` before it recurses: the response to
      `url` raises on an error status, a page without a refresh lands, a
      refresh without `content` raises KeyError, and otherwise the walk goes
      on to the URL the refresh names. */
  function Visit(url: string, fetch: Fetch): (r: Result<Hop>)
    ensures r.Err? ==> r.fault in {RequestError, KeyError, IndexError} || r.fault.HttpError?
    ensures r.Ok? && r.value.Land? <==> fetch.Fetched? && !IsErrorStatus(fetch.page.status) && fetch.page.meta == NoRefresh
    ensures r.Ok? && r.value.Land? ==> r.value.url == fetch.page.url
  {
    match fetch
    case Failed => Err(RequestError)
    case Fetched(page) =>
      if IsErrorStatus(page.status) then Err(HttpError(page.status))
      else match page.meta
        case NoRefresh => Ok(Land(page.url))
        case Refresh(None) => Err(KeyError)
        case Refresh(Some(content)) =>
          var next :- NextUrl(url, content);
          Ok(Next(next))
  }

  /** The recursion of `follow_redirect`, for any way `visit` of reading one
      page; `depth` is the room left on the interpreter's stack. */
  function Walk(visit: string -> Result<Hop>, url: string, depth: nat): (r: Result<string>)
    ensures depth == 0 ==> r == Err(RecursionError)
    decreases depth
  {
    if depth == 0 then Err(RecursionError)
    else
      var hop :- visit(url);
      match hop
      case Land(landing) => Ok(landing)
      case Next(next) => Walk(visit, next, depth - 1)
  }

  /** A walk fails with the stack exhausted or with the fault of a page. */
  lemma {:induction false} WalkFaults(visit: string -> Result<Hop>, url: string, depth: nat)
    requires Walk(visit, url, depth).Err?
    ensures Walk(visit, url, depth).fault == RecursionError
            || exists u :: visit(u) == Err(Walk(visit, url, depth).fault)
    decreases depth
  {
    if depth > 0 && visit(url).Ok? && visit(url).value.Next? {
      WalkFaults(visit, visit(url).value.url, depth - 1);
    }
  }

  /** A walk that succeeds ends on a page that lands it. */
  lemma {:induction false} WalkLands(visit: string -> Result<Hop>, url: string, depth: nat)
    requires Walk(visit, url, depth).Ok?
    ensures exists v :: visit(v) == Ok(Land(Walk(visit, url, depth).value))
    decreases depth
  {
    if visit(url).value.Next? {
      WalkLands(visit, visit(url).value.url, depth - 1);
    }
  }

  /** More stack room does not change a walk that already ended. */
  lemma {:induction false} WalkDeeper(visit: string -> Result<Hop>, url: string, depth: nat, more: nat)
    requires Walk(visit, url, depth).Ok?
    ensures Walk(visit, url, depth + more) == Walk(visit, url, depth)
    decreases depth
  {
    if visit(url).value.Next? {
      WalkDeeper(visit, visit(url).value.url, depth - 1, more);
    }
  }

  /** Each page fetched with `get`. */
  function VisitBy(get: string -> Fetch): string -> Result<Hop> {
    u => Visit(u, get(u))
  }

  /** `follow_redirect`: fetch, raise on an error status, and follow the
      meta refresh until a page has none; its URL is the login page. */
  function FollowRedirect(url: string, get: string -> Fetch, depth: nat): (r: Result<string>)
    ensures depth == 0 ==> r == Err(RecursionError)
  {
    Walk(VisitBy(get), url, depth)
  }

  /** The walk raises only RecursionError, a request error, a KeyError, an
      IndexError or an HTTP error status. */
  lemma {:induction false} FollowRedirectFaults(url: string, get: string -> Fetch, depth: nat)
    requires FollowRedirect(url, get, depth).Err?
    ensures FollowRedirect(url, get, depth).fault in {RecursionError, RequestError, KeyError, IndexError}
            || FollowRedirect(url, get, depth).fault.HttpError?
  {
    var f := FollowRedirect(url, get, depth).fault;
    WalkFaults(VisitBy(get), url, depth);
    if f != RecursionError {
      var u :| VisitBy(get)(u) == Err(f);
      assert Visit(u, get(u)) == Err(f);
    }
  }

  /** A page reached successfully and without a refresh. */
  predicate Landing(get: string -> Fetch, url: string) {
    get(url).Fetched? && !IsErrorStatus(get(url).page.status) && get(url).page.meta == NoRefresh
  }

  /** A redirect walk that succeeds ends on a page with no refresh, and
      returns the URL that page was served from. */
  lemma {:induction false} FollowRedirectLands(url: string, get: string -> Fetch, depth: nat)
    requires FollowRedirect(url, get, depth).Ok?
    ensures exists v :: Landing(get, v) && get(v).page.url == FollowRedirect(url, get, depth).value
  {
    var landing := FollowRedirect(url, get, depth).value;
    WalkLands(VisitBy(get), url, depth);
    var v :| VisitBy(get)(v) == Ok(Land(landing));
    assert Visit(v, get(v)) == Ok(Land(landing));
    assert Landing(get, v);
  }

  /** More room on the stack does not change a walk that already ended. */
  lemma {:induction false} FollowRedirectDeeper(url: string, get: string -> Fetch, depth: nat, more: nat)
    requires FollowRedirect(url, get, depth).Ok?
    ensures FollowRedirect(url, get, depth + more) == FollowRedirect(url, get, depth)
  {
    WalkDeeper(VisitBy(get), url, depth, more);
  }

  /** `get_token_t25`: walk to the login page, post the credentials there,
      and return the placeholder token once the post is not an error. */
  function GetToken(url: string, username: string, password: string, get: string -> Fetch,
                    post: (string, string, string) -> Fetch, depth: nat): (r: Result<string>)
    ensures r.Ok? <==> FollowRedirect(url, get, depth).Ok?
                       && post(FollowRedirect(url, get, depth).value, username, password).Fetched?
                       && !IsErrorStatus(post(FollowRedirect(url, get, depth).value, username, password).page.status)
    ensures r.Ok? ==> r.value == "token_in_session"
    ensures FollowRedirect(url, get, depth).Ok? && post(FollowRedirect(url, get, depth).value, username, password).Failed?
            ==> r == Err(RequestError)
  {
    var loginUrl :- FollowRedirect(url, get, depth);
    match post(loginUrl, username, password)
    case Failed => Err(RequestError)
    case Fetched(page) =>
      if IsErrorStatus(page.status) then Err(HttpError(page.status)) else Ok("token_in_session")
  }
}
