/** The InfluxDB sinks: the series each `send_to_influx` builds from a
    snapshot, and what each does when the write fails. Four functions
    build the series the same way (src/arris_stats.py and the influx1,
    influx2 and influx modules); they differ only in how a value becomes a
    field. The older script builds fixed field sets. The InfluxDB client
    is left out: the series handed to it and the order of the client
    calls are what is modelled. */
module Influx {
  import opened Common
  import opened Text
  import opened Stats
  import Config

  /** How a value becomes a field: src/arris_stats.py copies it (`AsIs`);
      the influx1, influx2 and influx modules test `'.' in value` and call
      float() or int() (`ByDot`). */
  datatype FieldMode = AsIs | ByDot

  /** One point of the series: `measurement`, `time`, the `channel_id`
      tag and the fields. */
  datatype Point = Point(measurement: string, time: string, channel: int, fields: Record)

  /** `'.' in value` raises TypeError unless the value is a str. */
  function FieldValue(mode: FieldMode, v: Value): (r: Result<Value>)
    ensures mode == AsIs ==> r == Ok(v)
    ensures mode == ByDot && !v.VStr? ==> r == Err(TypeError)
    ensures mode == ByDot && v.VStr? && Contains(v.s, ".") ==> r == FloatField(v.s)
    ensures mode == ByDot && v.VStr? && !Contains(v.s, ".") ==> r == IntField(v.s)
  {
    match mode
    case AsIs => Ok(v)
    case ByDot =>
      match v
      case VStr(s) => if Contains(s, ".") then FloatField(s) else IntField(s)
      case _ => Err(TypeError)
  }

  /** `record['fields']` once the inner loop is done; the first value
      that does not convert raises. */
  function Fields(mode: FieldMode, rec: Record): Result<Record> {
    if |rec| == 0 then Ok([])
    else
      var prev :- Fields(mode, rec[..|rec| - 1]);
      var last := rec[|rec| - 1];
      if last.0 == "channel_id" then Ok(prev)
      else
        var f :- FieldValue(mode, last.1);
        Ok(prev + [(last.0, f)])
  }

  /** The fields are every entry but `channel_id`, in order, each value
      converted; they exist exactly when every such value converts. */
  lemma {:induction false} FieldsMeaning(mode: FieldMode, rec: Record)
    ensures Fields(mode, rec).Ok? <==> forall i :: 0 <= i < |NonChannel(rec)| ==> FieldValue(mode, NonChannel(rec)[i].1).Ok?
    ensures Fields(mode, rec).Ok? ==> |Fields(mode, rec).value| == |NonChannel(rec)|
    ensures Fields(mode, rec).Ok? ==> forall i :: 0 <= i < |NonChannel(rec)| ==>
              Fields(mode, rec).value[i].0 == NonChannel(rec)[i].0
              && FieldValue(mode, NonChannel(rec)[i].1) == Ok(Fields(mode, rec).value[i].1)
  {
    if |rec| > 0 {
      var init := rec[..|rec| - 1];
      var last := rec[|rec| - 1];
      FieldsMeaning(mode, init);
      assert NonChannel(rec) == NonChannel(init) + (if last.0 == "channel_id" then [] else [last]);
    }
  }

  /** `int(record['channel_id'])`, the tag. */
  function ChannelTag(rec: Record): (r: Result<int>)
    ensures r.Ok? <==> Field(rec, "channel_id").Ok? && PyInt(Field(rec, "channel_id").value).Ok?
    ensures r.Ok? ==> r.value == PyInt(Field(rec, "channel_id").value).value
  {
    var v :- Field(rec, "channel_id");
    PyInt(v)
  }

  /** The point of one record. The tag is computed in the dict literal,
      before the loop over the fields, so its error comes first. */
  function PointOf(measurement: string, time: string, mode: FieldMode, rec: Record): (r: Result<Point>)
    ensures r.Ok? <==> ChannelTag(rec).Ok? && Fields(mode, rec).Ok?
    ensures ChannelTag(rec).Err? ==> r == Err(ChannelTag(rec).fault)
    ensures r.Ok? ==> r.value == Point(measurement, time, ChannelTag(rec).value, Fields(mode, rec).value)
  {
    var tag :- ChannelTag(rec);
    var fields :- Fields(mode, rec);
    Ok(Point(measurement, time, tag, fields))
  }

  /** `PointOf` for one measurement, as the function the loop applies. */
  function PointFn(measurement: string, time: string, mode: FieldMode): Record -> Result<Point> {
    rec => PointOf(measurement, time, mode, rec)
  }

  /** The points of one direction's rows, in row order; the first row that
      fails raises. */
  function Points(measurement: string, time: string, mode: FieldMode, rows: seq<Record>): Result<seq<Point>> {
    MapResult(PointFn(measurement, time, mode), rows)
  }

  /** The whole series: every downstream point, then every upstream one. */
  function Series(stats: Snapshot, time: string, mode: FieldMode): (r: Result<seq<Point>>)
    ensures r.Ok? <==> Points("downstream_statistics", time, mode, stats.downstream).Ok?
                       && Points("upstream_statistics", time, mode, stats.upstream).Ok?
    ensures Points("downstream_statistics", time, mode, stats.downstream).Err?
            ==> r == Err(Points("downstream_statistics", time, mode, stats.downstream).fault)
  {
    var down :- Points("downstream_statistics", time, mode, stats.downstream);
    var up :- Points("upstream_statistics", time, mode, stats.upstream);
    Ok(down + up)
  }

  /** The inner loop: `record['fields'][field] = ...` for each field. */
  method BuildFields(mode: FieldMode, rec: Record) returns (r: Result<Record>)
    ensures r == Fields(mode, rec)
  {
    var fields: Record := [];
    var i := 0;
    while i < |rec|
      invariant 0 <= i <= |rec|
      invariant Fields(mode, rec[..i]) == Ok(fields)
    {
      assert rec[..i + 1][..i] == rec[..i];
      var (field, value) := rec[i];
      if field != "channel_id" {
        var f := FieldValue(mode, value);
        if f.Err? {
          FieldsFailureStays(mode, rec, i + 1);
          return Err(f.fault);
        }
        fields := fields + [(field, f.value)];
      }
      i := i + 1;
    }
    assert rec[..i] == rec;
    r := Ok(fields);
  }

  /** Once a prefix of a record fails to convert, the whole record does,
      with the same error. */
  lemma {:induction false} FieldsFailureStays(mode: FieldMode, rec: Record, k: nat)
    requires k <= |rec| && Fields(mode, rec[..k]).Err?
    ensures Fields(mode, rec) == Fields(mode, rec[..k])
    decreases |rec| - k
  {
    if k < |rec| {
      assert rec[..k + 1][..k] == rec[..k];
      FieldsFailureStays(mode, rec, k + 1);
    } else {
      assert rec[..k] == rec;
    }
  }

  /** One of the two outer loops: a record per row, appended to `series`. */
  method AppendPoints(series: seq<Point>, measurement: string, time: string, mode: FieldMode, rows: seq<Record>)
    returns (r: Result<seq<Point>>)
    ensures r.Ok? <==> Points(measurement, time, mode, rows).Ok?
    ensures r.Ok? ==> r.value == series + Points(measurement, time, mode, rows).value
    ensures r.Err? ==> r.fault == Points(measurement, time, mode, rows).fault
  {
    ghost var f := PointFn(measurement, time, mode);
    var out := series;
    var i := 0;
    while i < |rows|
      invariant 0 <= i <= |rows|
      invariant MapResult(f, rows[..i]).Ok?
      invariant out == series + MapResult(f, rows[..i]).value
    {
      var tag := ChannelTag(rows[i]);
      if tag.Err? {
        assert rows[..i + 1][..i] == rows[..i];
        MapResultFailureStays(f, rows, i + 1);
        return Err(tag.fault);
      }
      var fields := BuildFields(mode, rows[i]);
      if fields.Err? {
        assert rows[..i + 1][..i] == rows[..i];
        MapResultFailureStays(f, rows, i + 1);
        return Err(fields.fault);
      }
      MapResultStep(f, rows, i);
      out := out + [Point(measurement, time, tag.value, fields.value)];
      i := i + 1;
    }
    assert rows[..i] == rows;
    r := Ok(out);
  }

  /** The loops of `send_to_influx`: downstream rows, then upstream rows. */
  method BuildSeries(stats: Snapshot, time: string, mode: FieldMode) returns (r: Result<seq<Point>>)
    ensures r == Series(stats, time, mode)
  {
    var down := AppendPoints([], "downstream_statistics", time, mode, stats.downstream);
    if down.Err? {
      return Err(down.fault);
    }
    assert down.value == Points("downstream_statistics", time, mode, stats.downstream).value;
    var all := AppendPoints(down.value, "upstream_statistics", time, mode, stats.upstream);
    if all.Err? {
      return Err(all.fault);
    }
    r := all;
  }

  /** The points of one direction: one per row, in row order, each the
      point of its row. */
  lemma {:induction false} PointsShape(measurement: string, time: string, mode: FieldMode, rows: seq<Record>)
    requires Points(measurement, time, mode, rows).Ok?
    ensures |Points(measurement, time, mode, rows).value| == |rows|
    ensures forall i :: 0 <= i < |rows| ==>
              PointOf(measurement, time, mode, rows[i]) == Ok(Points(measurement, time, mode, rows).value[i])
  {
    var f := PointFn(measurement, time, mode);
    var ps := MapResult(f, rows).value;
    forall i | 0 <= i < |rows|
      ensures PointOf(measurement, time, mode, rows[i]) == Ok(ps[i])
    {
      assert f(rows[i]) == Ok(ps[i]);
    }
  }

  /** The shape of a series built: the downstream points, then the
      upstream ones. */
  lemma {:induction false} SeriesShape(stats: Snapshot, time: string, mode: FieldMode)
    requires Series(stats, time, mode).Ok?
    ensures Series(stats, time, mode).value
         == Points("downstream_statistics", time, mode, stats.downstream).value
          + Points("upstream_statistics", time, mode, stats.upstream).value
    ensures |Series(stats, time, mode).value| == |stats.downstream| + |stats.upstream|
  {
    PointsShape("downstream_statistics", time, mode, stats.downstream);
    PointsShape("upstream_statistics", time, mode, stats.upstream);
  }

  /** All points of a series carry the one timestamp taken before the
      loops. */
  lemma {:induction false} SeriesSharesTime(stats: Snapshot, time: string, mode: FieldMode)
    requires Series(stats, time, mode).Ok?
    ensures forall i :: 0 <= i < |Series(stats, time, mode).value| ==> Series(stats, time, mode).value[i].time == time
  {
    var down := Points("downstream_statistics", time, mode, stats.downstream).value;
    var up := Points("upstream_statistics", time, mode, stats.upstream).value;
    PointsShape("downstream_statistics", time, mode, stats.downstream);
    PointsShape("upstream_statistics", time, mode, stats.upstream);
    assert Series(stats, time, mode).value == down + up;
    assert forall i :: 0 <= i < |down| ==> down[i].time == time;
    assert forall j :: 0 <= j < |up| ==> up[j].time == time;
  }

  /** `channel_id` is the tag and never one of the fields. */
  lemma {:induction false} NoChannelField(measurement: string, time: string, mode: FieldMode, rec: Record)
    requires PointOf(measurement, time, mode, rec).Ok?
    ensures forall k :: 0 <= k < |PointOf(measurement, time, mode, rec).value.fields| ==>
              PointOf(measurement, time, mode, rec).value.fields[k].0 != "channel_id"
  {
    FieldsMeaning(mode, rec);
  }

  /** The tag of a point is `int()` of the row's `channel_id`. */
  lemma {:induction false} TagIsChannel(measurement: string, time: string, mode: FieldMode, rec: Record)
    requires PointOf(measurement, time, mode, rec).Ok?
    ensures "channel_id" in Keys(rec)
    ensures PyInt(Get(rec, "channel_id").value) == Ok(PointOf(measurement, time, mode, rec).value.channel)
  {
    GetMeaning(rec, "channel_id");
  }

  /** src/arris_stats.py copies the values: the fields are the record
      without `channel_id`. */
  lemma {:induction false} CopiedFields(rec: Record)
    ensures Fields(AsIs, rec) == Ok(NonChannel(rec))
  {
    if |rec| > 0 {
      CopiedFields(rec[..|rec| - 1]);
    }
  }

  /** In the influx1, influx2 and influx modules a field is a float
      exactly when its str contained a '.', and an int otherwise; a value
      that is not a str (as the sb8200 and sb6183 parsers of src produce)
      makes the series fail. */
  lemma {:induction false} DotDecidesKind(rec: Record)
    requires Fields(ByDot, rec).Ok?
    ensures |Fields(ByDot, rec).value| == |NonChannel(rec)|
    ensures forall i :: 0 <= i < |Fields(ByDot, rec).value| ==>
              && NonChannel(rec)[i].1.VStr?
              && (Fields(ByDot, rec).value[i].1.VFloat? <==> Contains(NonChannel(rec)[i].1.s, "."))
              && (Fields(ByDot, rec).value[i].1.VInt? <==> !Contains(NonChannel(rec)[i].1.s, "."))
  {
    FieldsMeaning(ByDot, rec);
    var fs := Fields(ByDot, rec).value;
    var nc := NonChannel(rec);
    forall i | 0 <= i < |fs|
      ensures nc[i].1.VStr?
      ensures fs[i].1.VFloat? <==> Contains(nc[i].1.s, ".")
      ensures fs[i].1.VInt? <==> !Contains(nc[i].1.s, ".")
    {
      assert FieldValue(ByDot, nc[i].1) == Ok(fs[i].1);
    }
  }

  /** What the database answers one client call with: success, an
      exception of a type the module catches (with its `code` attribute
      when it has one), or any other exception. */
  datatype Answer = Accepted | Rejected(code: Option<int>) | Failed

  datatype Action = WritePoints(series: seq<Point>) | CreateDatabase | CreateBucket | Close

  /** How a `send_to_influx` ends: the series was written, the error was
      logged and the function returned, or an exception escaped it. */
  datatype Outcome = Delivered | Dropped | Raised

  datatype Delivery = Delivery(actions: seq<Action>, outcome: Outcome)

  /** The write with one retry after a 404 that src/arris_stats.py, the
      influx1 and influx modules and the older script share: a 404 makes
      the database (`create`) and writes again, outside the `try`, so a
      second failure escapes; any other caught error is dropped. Only the
      influx module closes the client, after a write that succeeded.
      `answer(k)` is the answer to the k-th client call. */
  function WriteRetrying404(series: seq<Point>, create: Action, closes: bool, answer: nat -> Answer): (d: Delivery)
    requires create == CreateDatabase || create == CreateBucket
    ensures d.outcome == Delivered <==>
              answer(0) == Accepted || (answer(0) == Rejected(Some(404)) && answer(1) == Accepted && answer(2) == Accepted)
    ensures d.outcome == Dropped <==> answer(0).Rejected? && answer(0).code != Some(404)
    ensures |d.actions| > 0 && d.actions[0] == WritePoints(series)
    ensures forall i :: 0 <= i < |d.actions| && d.actions[i].WritePoints? ==> d.actions[i].series == series
    ensures |d.actions| <= 4
    ensures forall i :: 0 <= i < |d.actions| && d.actions[i].WritePoints? ==> i == 0 || i == 2
    ensures create in d.actions <==> answer(0) == Rejected(Some(404))
    ensures Close in d.actions <==> closes && d.outcome == Delivered
  {
    var closing := if closes then [Close] else [];
    match answer(0)
    case Accepted => Delivery([WritePoints(series)] + closing, Delivered)
    case Failed => Delivery([WritePoints(series)], Raised)
    case Rejected(code) =>
      if code == Some(404) then
        if answer(1) != Accepted then Delivery([WritePoints(series), create], Raised)
        else if answer(2) != Accepted then Delivery([WritePoints(series), create, WritePoints(series)], Raised)
        else Delivery([WritePoints(series), create, WritePoints(series)] + closing, Delivered)
      else Delivery([WritePoints(series)], Dropped)
  }

  /** The influx2 module: any caught error is dropped with no retry, and
      the client is closed only after a write that succeeded. */
  function WriteOnce(series: seq<Point>, answer: nat -> Answer): (d: Delivery)
    ensures d.outcome == Delivered <==> answer(0) == Accepted
    ensures d.outcome == Dropped <==> answer(0).Rejected?
    ensures d.actions == [WritePoints(series)] || d.actions == [WritePoints(series), Close]
    ensures Close in d.actions <==> d.outcome == Delivered
  {
    match answer(0)
    case Accepted => Delivery([WritePoints(series), Close], Delivered)
    case Rejected(_) => Delivery([WritePoints(series)], Dropped)
    case Failed => Delivery([WritePoints(series)], Raised)
  }

  /** The four `send_to_influx` functions of src. */
  datatype Sink = Classic | Influx1 | Influx2 | Influx2Buckets

  function ModeOf(sink: Sink): FieldMode {
    if sink == Classic then AsIs else ByDot
  }

  /** `send_to_influx(stats, config)` of each module: build the series (an
      error escapes before any client call), then write it. */
  function Send(sink: Sink, stats: Snapshot, time: string, answer: nat -> Answer): (d: Delivery)
    ensures Series(stats, time, ModeOf(sink)).Err? ==> d == Delivery([], Raised)
    ensures Series(stats, time, ModeOf(sink)).Ok? ==> |d.actions| > 0 && d.actions[0] == WritePoints(Series(stats, time, ModeOf(sink)).value)
  {
    match Series(stats, time, ModeOf(sink))
    case Err(_) => Delivery([], Raised)
    case Ok(series) =>
      match sink
      case Classic => WriteRetrying404(series, CreateDatabase, false, answer)
      case Influx1 => WriteRetrying404(series, CreateDatabase, false, answer)
      case Influx2 => WriteOnce(series, answer)
      case Influx2Buckets => WriteRetrying404(series, CreateBucket, true, answer)
  }

  /** Only the influx2 module gives up on a 404; the others create the
      database or bucket and deliver when the retry succeeds. */
  lemma {:induction false} RetryDiffers(stats: Snapshot, time: string, answer: nat -> Answer)
    requires Series(stats, time, ByDot).Ok?
    requires answer(0) == Rejected(Some(404)) && answer(1) == Accepted && answer(2) == Accepted
    ensures Send(Influx2, stats, time, answer).outcome == Dropped
    ensures Send(Influx1, stats, time, answer).outcome == Delivered
    ensures Send(Influx2Buckets, stats, time, answer).outcome == Delivered
    ensures CreateBucket in Send(Influx2Buckets, stats, time, answer).actions
  {
  }

  /** `int(record[key])` or `float(record[key])`, as a field. */
  function NumberField(rec: Record, key: string, float: bool): (r: Result<(string, Value)>)
    ensures r.Ok? <==> Field(rec, key).Ok? && (if float then PyFloat(Field(rec, key).value).Ok? else PyInt(Field(rec, key).value).Ok?)
    ensures r.Ok? ==> r.value.0 == key && (if float then r.value.1.VFloat? else r.value.1.VInt?)
  {
    var v :- Field(rec, key);
    if float then
      var x :- PyFloat(v);
      Ok((key, x))
    else
      var n :- PyInt(v);
      Ok((key, VInt(n)))
  }

  /** The older script's downstream point: fixed fields, read and
      converted in the order of the dict literal, and the tag last. */
  function ScriptDownstreamPoint(time: string, rec: Record): (r: Result<Point>)
    ensures r.Ok? <==> NumberField(rec, "frequency", false).Ok? && NumberField(rec, "power", true).Ok?
                       && NumberField(rec, "snr", true).Ok? && NumberField(rec, "corrected", false).Ok?
                       && NumberField(rec, "uncorrectables", false).Ok? && ChannelTag(rec).Ok?
    ensures r.Ok? ==> r.value.measurement == "downstream_statistics" && r.value.time == time
                      && r.value.channel == ChannelTag(rec).value && |r.value.fields| == 5
  {
    var frequency :- NumberField(rec, "frequency", false);
    var power :- NumberField(rec, "power", true);
    var snr :- NumberField(rec, "snr", true);
    var corrected :- NumberField(rec, "corrected", false);
    var uncorrectables :- NumberField(rec, "uncorrectables", false);
    var channel :- ChannelTag(rec);
    Ok(Point("downstream_statistics", time, channel, [frequency, power, snr, corrected, uncorrectables]))
  }

  /** The older script's upstream point: `frequency` and `power` only. */
  function ScriptUpstreamPoint(time: string, rec: Record): (r: Result<Point>)
    ensures r.Ok? <==> NumberField(rec, "frequency", false).Ok? && NumberField(rec, "power", true).Ok? && ChannelTag(rec).Ok?
    ensures r.Ok? ==> r.value.measurement == "upstream_statistics" && r.value.time == time
                      && r.value.channel == ChannelTag(rec).value && |r.value.fields| == 2
  {
    var frequency :- NumberField(rec, "frequency", false);
    var power :- NumberField(rec, "power", true);
    var channel :- ChannelTag(rec);
    Ok(Point("upstream_statistics", time, channel, [frequency, power]))
  }

  /** The fields of a script point are the named ones, an int for the
      frequency and the error counts and a float for power and SNR. */
  lemma {:induction false} ScriptFieldKinds(time: string, rec: Record)
    ensures ScriptDownstreamPoint(time, rec).Ok? ==>
              var fs := ScriptDownstreamPoint(time, rec).value.fields;
              fs[0].0 == "frequency" && fs[0].1.VInt? && fs[1].0 == "power" && fs[1].1.VFloat?
              && fs[2].0 == "snr" && fs[2].1.VFloat? && fs[3].0 == "corrected" && fs[3].1.VInt?
              && fs[4].0 == "uncorrectables" && fs[4].1.VInt?
    ensures ScriptUpstreamPoint(time, rec).Ok? ==>
              var fs := ScriptUpstreamPoint(time, rec).value.fields;
              fs[0].0 == "frequency" && fs[0].1.VInt? && fs[1].0 == "power" && fs[1].1.VFloat?
  {
    if ScriptDownstreamPoint(time, rec).Ok? {
      DownstreamFieldKinds(time, rec);
    }
    if ScriptUpstreamPoint(time, rec).Ok? {
      UpstreamFieldKinds(time, rec);
    }
  }

  lemma {:induction false} DownstreamFieldKinds(time: string, rec: Record)
    requires ScriptDownstreamPoint(time, rec).Ok?
    ensures var fs := ScriptDownstreamPoint(time, rec).value.fields;
              fs[0].0 == "frequency" && fs[0].1.VInt? && fs[1].0 == "power" && fs[1].1.VFloat?
              && fs[2].0 == "snr" && fs[2].1.VFloat? && fs[3].0 == "corrected" && fs[3].1.VInt?
              && fs[4].0 == "uncorrectables" && fs[4].1.VInt?
  {
    var frequency := NumberField(rec, "frequency", false);
    var power := NumberField(rec, "power", true);
    var snr := NumberField(rec, "snr", true);
    var corrected := NumberField(rec, "corrected", false);
    var uncorrectables := NumberField(rec, "uncorrectables", false);
    assert ScriptDownstreamPoint(time, rec).value.fields
      == [frequency.value, power.value, snr.value, corrected.value, uncorrectables.value];
  }

  lemma {:induction false} UpstreamFieldKinds(time: string, rec: Record)
    requires ScriptUpstreamPoint(time, rec).Ok?
    ensures var fs := ScriptUpstreamPoint(time, rec).value.fields;
              fs[0].0 == "frequency" && fs[0].1.VInt? && fs[1].0 == "power" && fs[1].1.VFloat?
  {
    var frequency := NumberField(rec, "frequency", false);
    var power := NumberField(rec, "power", true);
    assert ScriptUpstreamPoint(time, rec).value.fields == [frequency.value, power.value];
  }

  /** The script's point of one row of either direction. */
  function ScriptPoint(downstream: bool, time: string, rec: Record): Result<Point> {
    if downstream then ScriptDownstreamPoint(time, rec) else ScriptUpstreamPoint(time, rec)
  }

  /** `ScriptPoint` for one direction, as the function the loop applies. */
  function ScriptPointFn(downstream: bool, time: string): Record -> Result<Point> {
    rec => ScriptPoint(downstream, time, rec)
  }

  /** The script's points of one direction, in row order. */
  function ScriptPoints(downstream: bool, time: string, rows: seq<Record>): Result<seq<Point>> {
    MapResult(ScriptPointFn(downstream, time), rows)
  }

  function ScriptSeries(stats: Snapshot, time: string): Result<seq<Point>> {
    var down :- ScriptPoints(true, time, stats.downstream);
    var up :- ScriptPoints(false, time, stats.upstream);
    Ok(down + up)
  }

  /** One of the older script's loops, appending a point per row to
      `series`. */
  method AppendScriptPoints(series: seq<Point>, downstream: bool, time: string, rows: seq<Record>)
    returns (r: Result<seq<Point>>)
    ensures r.Ok? <==> ScriptPoints(downstream, time, rows).Ok?
    ensures r.Ok? ==> r.value == series + ScriptPoints(downstream, time, rows).value
    ensures r.Err? ==> r.fault == ScriptPoints(downstream, time, rows).fault
  {
    ghost var f := ScriptPointFn(downstream, time);
    var out := series;
    var i := 0;
    while i < |rows|
      invariant 0 <= i <= |rows|
      invariant MapResult(f, rows[..i]).Ok?
      invariant out == series + MapResult(f, rows[..i]).value
    {
      var p := ScriptPoint(downstream, time, rows[i]);
      assert f(rows[i]) == p;
      if p.Err? {
        assert rows[..i + 1][..i] == rows[..i];
        MapResultFailureStays(f, rows, i + 1);
        return Err(p.fault);
      }
      MapResultStep(f, rows, i);
      out := out + [p.value];
      i := i + 1;
    }
    assert rows[..i] == rows;
    r := Ok(out);
  }

  /** The older script's loops: downstream rows, then upstream rows. */
  method BuildScriptSeries(stats: Snapshot, time: string) returns (r: Result<seq<Point>>)
    ensures r == ScriptSeries(stats, time)
  {
    var down := AppendScriptPoints([], true, time, stats.downstream);
    if down.Err? {
      return Err(down.fault);
    }
    assert down.value == ScriptPoints(true, time, stats.downstream).value;
    r := AppendScriptPoints(down.value, false, time, stats.upstream);
    if r.Err? {
      return Err(r.fault);
    }
  }

  /** The script's series: one point per downstream row, then one per
      upstream row, downstream points carrying five fields and upstream
      points two. */
  lemma {:induction false} ScriptSeriesShape(stats: Snapshot, time: string)
    requires ScriptSeries(stats, time).Ok?
    ensures |ScriptSeries(stats, time).value| == |stats.downstream| + |stats.upstream|
    ensures forall i :: 0 <= i < |stats.downstream| ==>
              |ScriptSeries(stats, time).value[i].fields| == 5
              && ScriptSeries(stats, time).value[i].measurement == "downstream_statistics"
    ensures forall j :: |stats.downstream| <= j < |ScriptSeries(stats, time).value| ==>
              |ScriptSeries(stats, time).value[j].fields| == 2
              && ScriptSeries(stats, time).value[j].measurement == "upstream_statistics"
  {
    var down := ScriptPoints(true, time, stats.downstream).value;
    var up := ScriptPoints(false, time, stats.upstream).value;
    var s := ScriptSeries(stats, time).value;
    assert s == down + up;
    forall i | 0 <= i < |stats.downstream|
      ensures |s[i].fields| == 5 && s[i].measurement == "downstream_statistics"
    {
      assert ScriptPointFn(true, time)(stats.downstream[i]) == Ok(s[i]);
    }
    forall j | |stats.downstream| <= j < |s|
      ensures |s[j].fields| == 2 && s[j].measurement == "upstream_statistics"
    {
      assert ScriptPointFn(false, time)(stats.upstream[j - |down|]) == Ok(up[j - |down|]);
    }
  }

  /** The older script's `send_to_influx` as evidently intended, reading the
      `INFLUXDB` section: the write of src/arris_stats.py. A row that does
      not convert raises before any client call; otherwise the series is
      written first, the database is created only after a 404, and the
      client is never closed. */
  function ScriptSend(stats: Snapshot, time: string, answer: nat -> Answer): (d: Delivery)
    ensures ScriptSeries(stats, time).Err? ==> d == Delivery([], Raised)
    ensures ScriptSeries(stats, time).Ok? ==>
              |d.actions| > 0 && d.actions[0] == WritePoints(ScriptSeries(stats, time).value)
              && (forall i :: 0 <= i < |d.actions| && d.actions[i].WritePoints? ==>
                    d.actions[i].series == ScriptSeries(stats, time).value)
              && (CreateDatabase in d.actions <==> answer(0) == Rejected(Some(404)))
    ensures d.outcome == Delivered <==>
              ScriptSeries(stats, time).Ok?
              && (answer(0) == Accepted || (answer(0) == Rejected(Some(404)) && answer(1) == Accepted && answer(2) == Accepted))
    ensures d.outcome == Dropped <==> ScriptSeries(stats, time).Ok? && answer(0).Rejected? && answer(0).code != Some(404)
    ensures Close !in d.actions
  {
    match ScriptSeries(stats, time)
    case Err(_) => Delivery([], Raised)
    case Ok(series) => WriteRetrying404(series, CreateDatabase, false, answer)
  }

  /** The older script's `send_to_influx` as written: its first statement
      reads `config['INFLUXDB']`, where `config` is the dict that script's
      `get_config` returns, with the given keys. A missing key raises
      KeyError; every value of that dict is a str or a bool, so a present
      one would raise TypeError at `['host']`. Either way nothing reaches
      the client. */
  function ScriptSendAsWritten(configKeys: set<string>): (r: Result<Delivery>)
    ensures r.Err?
    ensures r.fault == KeyError <==> "INFLUXDB" !in configKeys
  {
    if "INFLUXDB" !in configKeys then Err(KeyError) else Err(TypeError)
  }

  /** With any config the older script loads, its `send_to_influx` raises
      KeyError before any client call, whatever the snapshot; `ScriptSend`,
      the write it evidently intends, hands the series over and delivers
      it when the database accepts the first write. */
  lemma {:induction false} ScriptSendRaisesKeyError(options: seq<string>, stats: Snapshot, time: string, answer: nat -> Answer)
    ensures ScriptSendAsWritten(Config.ScriptConfigKeys(options)) == Err(KeyError)
    ensures ScriptSeries(stats, time).Ok? && answer(0) == Accepted ==>
              ScriptSend(stats, time, answer) == Delivery([WritePoints(ScriptSeries(stats, time).value)], Delivered)
  {
    Config.ScriptConfigKeysLower(options, "INFLUXDB", 0);
  }
}
