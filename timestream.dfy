/** The AWS Timestream sink: `send_to_aws_time_stream` of src/arris_stats.py
    and of the aws_timestream module. Each describes the database and the
    table, flattens every row into one record per measure, and writes the
    downstream and the upstream records in two calls. The boto3 client is
    left out: the calls handed to it, their order and what the function
    does with each answer are modelled. */
module Timestream {
  import opened Common
  import opened Text
  import opened Stats

  /** `MeasureValueType`: `DOUBLE` for a float, `BIGINT` for anything else. */
  datatype MeasureKind = Double | BigInt

  /** One Timestream record: the `channel_id` dimension, the `group`
      dimension (only the aws_timestream module sets it), `MeasureName`,
      `MeasureValue` and `MeasureValueType`. */
  datatype Measure = Measure(channel: string, group: Option<string>, name: string, value: string, kind: MeasureKind)

  /** Python's `str()` of a value. `floatText` is `str()` of a float given
      by its literal; float formatting is not modelled. */
  function StrOf(v: Value, floatText: string -> string): string {
    match v
    case VInt(n) => IntToString(n)
    case VFloat(literal) => floatText(literal)
    case VStr(s) => s
  }

  /** The record of one entry of a row whose `channel_id` is `channel`. */
  function MeasureOf(group: Option<string>, floatText: string -> string, channel: Value, entry: (string, Value)): (m: Measure)
    ensures m.kind == Double <==> entry.1.VFloat?
    ensures m.name == entry.0 && m.group == group
    ensures m.channel == StrOf(channel, floatText) && m.value == StrOf(entry.1, floatText)
  {
    Measure(StrOf(channel, floatText), group, entry.0, StrOf(entry.1, floatText),
            if entry.1.VFloat? then Double else BigInt)
  }

  /** The records of the first entries of `row`: `row['channel_id']` is
      read for each entry other than `channel_id`, so a row without it
      raises KeyError at its first other key. */
  function EntryMeasures(group: Option<string>, floatText: string -> string, row: Record, entries: Record): Result<seq<Measure>> {
    if |entries| == 0 then Ok([])
    else
      var prev :- EntryMeasures(group, floatText, row, entries[..|entries| - 1]);
      var last := entries[|entries| - 1];
      if last.0 == "channel_id" then Ok(prev)
      else
        var channel :- Field(row, "channel_id");
        Ok(prev + [MeasureOf(group, floatText, channel, last)])
  }

  /** The records of one row. */
  function RowMeasures(group: Option<string>, floatText: string -> string, row: Record): Result<seq<Measure>> {
    EntryMeasures(group, floatText, row, row)
  }

  /** The records of entries: one per entry other than `channel_id`, in
      order; they exist unless there is such an entry and the row has no
      `channel_id`. */
  lemma {:induction false} EntryMeasuresMeaning(group: Option<string>, floatText: string -> string, row: Record, entries: Record)
    ensures EntryMeasures(group, floatText, row, entries).Ok? <==> |NonChannel(entries)| == 0 || "channel_id" in Keys(row)
    ensures EntryMeasures(group, floatText, row, entries).Err? ==> EntryMeasures(group, floatText, row, entries).fault == KeyError
    ensures EntryMeasures(group, floatText, row, entries).Ok? ==>
              |EntryMeasures(group, floatText, row, entries).value| == |NonChannel(entries)|
    ensures EntryMeasures(group, floatText, row, entries).Ok? ==>
              forall k :: 0 <= k < |NonChannel(entries)| ==>
                Get(row, "channel_id").Some?
                && EntryMeasures(group, floatText, row, entries).value[k]
                   == MeasureOf(group, floatText, Get(row, "channel_id").value, NonChannel(entries)[k])
  {
    GetMeaning(row, "channel_id");
    if |entries| > 0 {
      var init := entries[..|entries| - 1];
      var last := entries[|entries| - 1];
      EntryMeasuresMeaning(group, floatText, row, init);
      assert NonChannel(entries) == NonChannel(init) + (if last.0 == "channel_id" then [] else [last]);
    }
  }

  /** The records of one row, stated on the row: one per measure, each
      `DOUBLE` exactly when its value is a float. */
  lemma {:induction false} RowMeasuresMeaning(group: Option<string>, floatText: string -> string, row: Record)
    requires RowMeasures(group, floatText, row).Ok?
    ensures |RowMeasures(group, floatText, row).value| == |NonChannel(row)|
    ensures forall k :: 0 <= k < |NonChannel(row)| ==>
              RowMeasures(group, floatText, row).value[k].name == NonChannel(row)[k].0
              && (RowMeasures(group, floatText, row).value[k].kind == Double <==> NonChannel(row)[k].1.VFloat?)
              && RowMeasures(group, floatText, row).value[k].value == StrOf(NonChannel(row)[k].1, floatText)
              && RowMeasures(group, floatText, row).value[k].group == group
  {
    EntryMeasuresMeaning(group, floatText, row, row);
  }

  /** All records of one direction, row after row. */
  function Records(group: Option<string>, floatText: string -> string, rows: seq<Record>): Result<seq<Measure>> {
    if |rows| == 0 then Ok([])
    else
      var prev :- Records(group, floatText, rows[..|rows| - 1]);
      var last :- RowMeasures(group, floatText, rows[|rows| - 1]);
      Ok(prev + last)
  }

  /** The number of measures of some rows: their keys other than
      `channel_id`. */
  function MeasureCount(rows: seq<Record>): nat {
    if |rows| == 0 then 0 else MeasureCount(rows[..|rows| - 1]) + |NonChannel(rows[|rows| - 1])|
  }

  /** The records exist exactly when every row's do, and there is one per
      measure: the count is the sum over the rows of their keys other than
      `channel_id`. */
  lemma {:induction false} RecordCount(group: Option<string>, floatText: string -> string, rows: seq<Record>)
    ensures Records(group, floatText, rows).Ok? <==> forall i :: 0 <= i < |rows| ==> RowMeasures(group, floatText, rows[i]).Ok?
    ensures Records(group, floatText, rows).Ok? ==> |Records(group, floatText, rows).value| == MeasureCount(rows)
  {
    if |rows| > 0 {
      var init, last := rows[..|rows| - 1], rows[|rows| - 1];
      assert rows == init + [last];
      RecordCount(group, floatText, init);
      RecordsSnoc(group, floatText, init, last);
    }
  }

  /** One more row: the records exist when those of the earlier rows and of
      the new row do, and their number grows by the new row's measures. */
  lemma {:induction false} RecordsSnoc(group: Option<string>, floatText: string -> string, init: seq<Record>, last: Record)
    requires Records(group, floatText, init).Ok? ==> |Records(group, floatText, init).value| == MeasureCount(init)
    ensures Records(group, floatText, init + [last]).Ok? <==> Records(group, floatText, init).Ok? && RowMeasures(group, floatText, last).Ok?
    ensures Records(group, floatText, init + [last]).Ok? ==> |Records(group, floatText, init + [last]).value| == MeasureCount(init + [last])
    ensures forall i :: 0 <= i < |init| + 1 ==> (init + [last])[i] == if i < |init| then init[i] else last
  {
    var rows := init + [last];
    assert rows[..|rows| - 1] == init;
    if RowMeasures(group, floatText, last).Ok? {
      RowMeasuresMeaning(group, floatText, last);
    }
  }

  /** Once a prefix of the entries fails, all of them do, with the same
      error. */
  lemma {:induction false} EntryFailureStays(group: Option<string>, floatText: string -> string, row: Record, k: nat)
    requires k <= |row| && EntryMeasures(group, floatText, row, row[..k]).Err?
    ensures RowMeasures(group, floatText, row) == EntryMeasures(group, floatText, row, row[..k])
    decreases |row| - k
  {
    if k < |row| {
      assert row[..k + 1][..k] == row[..k];
      EntryFailureStays(group, floatText, row, k + 1);
    } else {
      assert row[..k] == row;
    }
  }

  /** Once a prefix of the rows fails, all of them do, with the same
      error. */
  lemma {:induction false} RecordsFailureStays(group: Option<string>, floatText: string -> string, rows: seq<Record>, k: nat)
    requires k <= |rows| && Records(group, floatText, rows[..k]).Err?
    ensures Records(group, floatText, rows) == Records(group, floatText, rows[..k])
    decreases |rows| - k
  {
    if k < |rows| {
      assert rows[..k + 1][..k] == rows[..k];
      RecordsFailureStays(group, floatText, rows, k + 1);
    } else {
      assert rows[..k] == rows;
    }
  }

  /** The inner loop over the keys of one row, appending to `records`. */
  method AppendRowMeasures(records: seq<Measure>, group: Option<string>, floatText: string -> string, row: Record)
    returns (r: Result<seq<Measure>>)
    ensures r.Ok? <==> RowMeasures(group, floatText, row).Ok?
    ensures r.Ok? ==> r.value == records + RowMeasures(group, floatText, row).value
    ensures r.Err? ==> r.fault == RowMeasures(group, floatText, row).fault
  {
    var out := records;
    var j := 0;
    while j < |row|
      invariant 0 <= j <= |row|
      invariant EntryMeasures(group, floatText, row, row[..j]).Ok?
      invariant out == records + EntryMeasures(group, floatText, row, row[..j]).value
    {
      assert row[..j + 1][..j] == row[..j];
      var (key, value) := row[j];
      if key != "channel_id" {
        var channel := Field(row, "channel_id");
        if channel.Err? {
          EntryFailureStays(group, floatText, row, j + 1);
          return Err(channel.fault);
        }
        out := out + [MeasureOf(group, floatText, channel.value, (key, value))];
      }
      j := j + 1;
    }
    assert row[..j] == row;
    r := Ok(out);
  }

  /** The nested loops building one direction's records. */
  method BuildRecords(group: Option<string>, floatText: string -> string, rows: seq<Record>) returns (r: Result<seq<Measure>>)
    ensures r == Records(group, floatText, rows)
  {
    var records: seq<Measure> := [];
    var i := 0;
    while i < |rows|
      invariant 0 <= i <= |rows|
      invariant Records(group, floatText, rows[..i]) == Ok(records)
    {
      assert rows[..i + 1][..i] == rows[..i];
      var next := AppendRowMeasures(records, group, floatText, rows[i]);
      if next.Err? {
        RecordsFailureStays(group, floatText, rows, i + 1);
        return Err(next.fault);
      }
      records := next.value;
      i := i + 1;
    }
    assert rows[..i] == rows;
    r := Ok(records);
  }

  /** Which of the two functions: the one in src/arris_stats.py, or the
      one in the aws_timestream module. */
  datatype Variant = Builtin | Module

  /** The `group` dimension: only the aws_timestream module sets it. */
  function Group(v: Variant, downstream: bool): Option<string> {
    match v
    case Builtin => None
    case Module => Some(if downstream then "downstream_statistics" else "upstream_statistics")
  }

  /** The common attributes of a write: the `measurement` dimension and
      `Time`, `str()` of the nanosecond clock (`TimeUnit` is always
      `NANOSECONDS`). */
  datatype Attributes = Attributes(measurement: string, time: string)

  /** src/arris_stats.py labels the upstream write `downstream_statistics`
      too; the aws_timestream module labels it `upstream_statistics`. */
  function CommonOf(v: Variant, downstream: bool, now: nat): Attributes {
    var measurement := if downstream || v == Builtin then "downstream_statistics" else "upstream_statistics";
    Attributes(measurement, NatToString(now))
  }

  /** The calls made on the Timestream client. */
  datatype Call = DescribeDatabase | DescribeTable | WriteRecords(records: seq<Measure>, common: Attributes)

  /** How the function ends: after logging success, by returning after an
      error it logged, or by raising. */
  datatype Outcome = Succeeded | Returned | Raised(fault: Fault)

  datatype Delivery = Delivery(calls: seq<Call>, outcome: Outcome)

  /** `send_to_aws_time_stream` with `now` the value of `time.time_ns()`;
      `answer(k)` says whether the k-th client call (0 and 1 the describes,
      2 and 3 the writes) succeeds. A describe that fails is logged and
      ends the function; a failed downstream write is logged and the
      upstream write still happens; a failed upstream write is logged and
      ends the function. A row without `channel_id` raises KeyError while
      its direction's records are built. */
  function Send(v: Variant, stats: Snapshot, now: nat, floatText: string -> string, answer: nat -> bool): Delivery {
    if !answer(0) then Delivery([DescribeDatabase], Returned)
    else if !answer(1) then Delivery([DescribeDatabase, DescribeTable], Returned)
    else
      match Records(Group(v, true), floatText, stats.downstream)
      case Err(f) => Delivery([DescribeDatabase, DescribeTable], Raised(f))
      case Ok(down) =>
        var first := WriteRecords(down, CommonOf(v, true, now));
        match Records(Group(v, false), floatText, stats.upstream)
        case Err(f) => Delivery([DescribeDatabase, DescribeTable, first], Raised(f))
        case Ok(up) =>
          Delivery([DescribeDatabase, DescribeTable, first, WriteRecords(up, CommonOf(v, false, now))],
                   if answer(3) then Succeeded else Returned)
  }

  /** The body of `send_to_aws_time_stream`, proved to make the calls and
      end as `Send` says. */
  method SendToTimestream(v: Variant, stats: Snapshot, now: nat, floatText: string -> string, answer: nat -> bool)
    returns (d: Delivery)
    ensures d == Send(v, stats, now, floatText, answer)
  {
    var calls := [DescribeDatabase];
    if !answer(0) {
      return Delivery(calls, Returned);
    }
    calls := calls + [DescribeTable];
    if !answer(1) {
      return Delivery(calls, Returned);
    }
    var down := BuildRecords(Group(v, true), floatText, stats.downstream);
    if down.Err? {
      return Delivery(calls, Raised(down.fault));
    }
    calls := calls + [WriteRecords(down.value, CommonOf(v, true, now))];
    var up := BuildRecords(Group(v, false), floatText, stats.upstream);
    if up.Err? {
      return Delivery(calls, Raised(up.fault));
    }
    calls := calls + [WriteRecords(up.value, CommonOf(v, false, now))];
    if !answer(3) {
      return Delivery(calls, Returned);
    }
    d := Delivery(calls, Succeeded);
  }

  /** A describe that fails means nothing is written. */
  lemma {:induction false} DescribeFailureWritesNothing(v: Variant, stats: Snapshot, now: nat, floatText: string -> string, answer: nat -> bool)
    requires !answer(0) || !answer(1)
    ensures Send(v, stats, now, floatText, answer).outcome == Returned
    ensures forall k :: 0 <= k < |Send(v, stats, now, floatText, answer).calls| ==>
              !Send(v, stats, now, floatText, answer).calls[k].WriteRecords?
  {
  }

  /** The answer to the downstream write changes nothing: its failure is
      only logged. */
  lemma {:induction false} DownstreamFailureIgnored(v: Variant, stats: Snapshot, now: nat, floatText: string -> string, answer: nat -> bool)
    ensures Send(v, stats, now, floatText, answer)
         == Send(v, stats, now, floatText, (k: nat) => if k == 2 then !answer(2) else answer(k))
  {
  }

  /** Once both describes succeed and both directions' records build, both
      are written, downstream first, with the same time; the function
      reports success exactly when the upstream write succeeds. */
  lemma {:induction false} BothDirectionsWritten(v: Variant, stats: Snapshot, now: nat, floatText: string -> string, answer: nat -> bool)
    requires answer(0) && answer(1)
    requires Records(Group(v, true), floatText, stats.downstream).Ok?
    requires Records(Group(v, false), floatText, stats.upstream).Ok?
    ensures Send(v, stats, now, floatText, answer).calls[2..]
         == [WriteRecords(Records(Group(v, true), floatText, stats.downstream).value, CommonOf(v, true, now)),
             WriteRecords(Records(Group(v, false), floatText, stats.upstream).value, CommonOf(v, false, now))]
    ensures Send(v, stats, now, floatText, answer).outcome == Succeeded <==> answer(3)
    ensures CommonOf(v, true, now).time == CommonOf(v, false, now).time
  {
  }

  /** An upstream row without `channel_id` raises after the downstream
      records have been written. */
  lemma {:induction false} UpstreamKeyErrorAfterDownstreamWrite(v: Variant, stats: Snapshot, now: nat, floatText: string -> string,
                                             answer: nat -> bool)
    requires answer(0) && answer(1)
    requires Records(Group(v, true), floatText, stats.downstream).Ok?
    requires Records(Group(v, false), floatText, stats.upstream).Err?
    ensures Send(v, stats, now, floatText, answer).outcome == Raised(KeyError)
    ensures |Send(v, stats, now, floatText, answer).calls| == 3
    ensures Send(v, stats, now, floatText, answer).calls[2].WriteRecords?
  {
    RecordsFailureIsKeyError(Group(v, false), floatText, stats.upstream);
  }

  /** The only error building records raises is KeyError. */
  lemma {:induction false} RecordsFailureIsKeyError(group: Option<string>, floatText: string -> string, rows: seq<Record>)
    requires Records(group, floatText, rows).Err?
    ensures Records(group, floatText, rows).fault == KeyError
  {
    var init := rows[..|rows| - 1];
    if Records(group, floatText, init).Err? {
      RecordsFailureIsKeyError(group, floatText, init);
    } else {
      EntryMeasuresMeaning(group, floatText, rows[|rows| - 1], rows[|rows| - 1]);
    }
  }

  /** The two variants write the same measures except for the labels:
      src/arris_stats.py sends upstream records under the
      `downstream_statistics` measurement and without a `group` dimension. */
  lemma {:induction false} BuiltinLabelsUpstreamAsDownstream(now: nat)
    ensures CommonOf(Builtin, false, now).measurement == "downstream_statistics"
    ensures CommonOf(Module, false, now).measurement == "upstream_statistics"
    ensures Group(Builtin, false) == None && Group(Module, false) == Some("upstream_statistics")
  {
  }

  /** The aws_timestream module as written: `time` is never imported
      there, so `time.time_ns()` raises NameError as soon as both describes
      have succeeded. */
  function ModuleSendAsWritten(stats: Snapshot, answer: nat -> bool): Delivery {
    if !answer(0) then Delivery([DescribeDatabase], Returned)
    else if !answer(1) then Delivery([DescribeDatabase, DescribeTable], Returned)
    else Delivery([DescribeDatabase, DescribeTable], Raised(NameError))
  }

  /** As written, the aws_timestream module never writes a record, and it
      raises whenever the database and table exist. */
  lemma {:induction false} ModuleNeverWrites(stats: Snapshot, answer: nat -> bool)
    ensures forall k :: 0 <= k < |ModuleSendAsWritten(stats, answer).calls| ==>
              !ModuleSendAsWritten(stats, answer).calls[k].WriteRecords?
    ensures answer(0) && answer(1) ==> ModuleSendAsWritten(stats, answer).outcome == Raised(NameError)
  {
  }

  /** With the clock read, the module writes both directions: with every
      client call succeeding and every row carrying `channel_id`, the
      upstream records go out under `upstream_statistics` and the function
      reports success. */
  lemma {:induction false} ModuleWritesWithClock(stats: Snapshot, now: nat, floatText: string -> string, answer: nat -> bool)
    requires answer(0) && answer(1) && answer(3)
    requires forall i :: 0 <= i < |stats.downstream| ==> "channel_id" in Keys(stats.downstream[i])
    requires forall i :: 0 <= i < |stats.upstream| ==> "channel_id" in Keys(stats.upstream[i])
    ensures Send(Module, stats, now, floatText, answer).outcome == Succeeded
    ensures |Send(Module, stats, now, floatText, answer).calls| == 4
    ensures Send(Module, stats, now, floatText, answer).calls[3].common.measurement == "upstream_statistics"
    ensures ModuleSendAsWritten(stats, answer).outcome != Send(Module, stats, now, floatText, answer).outcome
  {
    forall i | 0 <= i < |stats.downstream|
      ensures RowMeasures(Group(Module, true), floatText, stats.downstream[i]).Ok?
    {
      EntryMeasuresMeaning(Group(Module, true), floatText, stats.downstream[i], stats.downstream[i]);
    }
    forall i | 0 <= i < |stats.upstream|
      ensures RowMeasures(Group(Module, false), floatText, stats.upstream[i]).Ok?
    {
      EntryMeasuresMeaning(Group(Module, false), floatText, stats.upstream[i], stats.upstream[i]);
    }
    RecordCount(Group(Module, true), floatText, stats.downstream);
    RecordCount(Group(Module, false), floatText, stats.upstream);
  }
}
