/** The stats snapshot the parsers produce: `{'downstream': [...],
    'upstream': [...]}`, each list holding one dict per channel. A dict is
    kept as its (key, value) pairs in insertion order, because the sinks
    iterate over it. */
module Stats {
  import opened Common
  import opened Text

  /** A dict value: an int, a float (kept as the literal it was parsed
      from) or a str. */
  datatype Value = VInt(n: int) | VFloat(literal: string) | VStr(s: string)

  type Record = seq<(string, Value)>

  datatype Snapshot = Snapshot(downstream: seq<Record>, upstream: seq<Record>)

  /** `not stats['upstream'] and not stats['downstream']`. */
  predicate IsEmpty(s: Snapshot) {
    |s.downstream| == 0 && |s.upstream| == 0
  }

  function Keys(r: Record): (ks: seq<string>)
    ensures |ks| == |r|
    ensures forall i :: 0 <= i < |r| ==> ks[i] == r[i].0
  {
    seq(|r|, i requires 0 <= i < |r| => r[i].0)
  }

  /** `record[key]`, None for a missing key. */
  function Get(r: Record, key: string): Option<Value> {
    if |r| == 0 then None
    else if r[0].0 == key then Some(r[0].1)
    else Get(r[1..], key)
  }

  /** A lookup finds a key exactly when the record has it, and gives the
      value of its first entry. */
  lemma {:induction false} GetMeaning(r: Record, key: string)
    ensures Get(r, key).Some? <==> key in Keys(r)
    ensures Get(r, key).Some? ==> exists i :: 0 <= i < |r| && r[i] == (key, Get(r, key).value)
                                             && forall j :: 0 <= j < i ==> r[j].0 != key
  {
    if |r| > 0 {
      var e, rest := r[0], r[1..];
      assert r == [e] + rest;
      GetMeaning(rest, key);
      GetMeaningCons(e, rest, key);
    }
  }

  /** Looking up `key` in `[e] + rest` looks at `e`, then at `rest`. */
  lemma {:induction false} GetCons(e: (string, Value), rest: Record, key: string)
    ensures Get([e] + rest, key) == if e.0 == key then Some(e.1) else Get(rest, key)
  {
    var r := [e] + rest;
    assert r[0] == e && r[1..] == rest;
  }

  /** The keys of `[e] + rest` are `e`'s key, then those of `rest`. */
  lemma {:induction false} KeysCons(e: (string, Value), rest: Record)
    ensures Keys([e] + rest) == [e.0] + Keys(rest)
  {
    var r, ks := [e] + rest, [e.0] + Keys(rest);
    forall i | 0 <= i < |r| ensures Keys(r)[i] == ks[i] {
      if i > 0 { assert r[i] == rest[i - 1] && ks[i] == Keys(rest)[i - 1]; }
    }
  }

  /** The lookup facts for `rest` extend to `[e] + rest`. */
  lemma {:induction false} GetMeaningCons(e: (string, Value), rest: Record, key: string)
    requires Get(rest, key).Some? <==> key in Keys(rest)
    requires Get(rest, key).Some? ==> exists i :: 0 <= i < |rest| && rest[i] == (key, Get(rest, key).value)
                                                && forall j :: 0 <= j < i ==> rest[j].0 != key
    ensures Get([e] + rest, key).Some? <==> key in Keys([e] + rest)
    ensures Get([e] + rest, key).Some? ==> exists i :: 0 <= i < |[e] + rest| && ([e] + rest)[i] == (key, Get([e] + rest, key).value)
                                                     && forall j :: 0 <= j < i ==> ([e] + rest)[j].0 != key
  {
    GetCons(e, rest, key);
    KeysCons(e, rest);
    var r := [e] + rest;
    if e.0 == key {
      assert r[0] == (key, Get(r, key).value);
    } else if Get(rest, key).Some? {
      var i := FirstKeyAt(rest, key);
      FirstKeyCons(e, rest, key, i);
    }
  }

  /** The position of the first entry for `key`. */
  lemma {:induction false} FirstKeyAt(r: Record, key: string) returns (i: nat)
    requires Get(r, key).Some?
    requires exists i :: 0 <= i < |r| && r[i] == (key, Get(r, key).value)
                         && forall j :: 0 <= j < i ==> r[j].0 != key
    ensures i < |r| && r[i] == (key, Get(r, key).value) && forall j :: 0 <= j < i ==> r[j].0 != key
  {
    i :| 0 <= i < |r| && r[i] == (key, Get(r, key).value) && forall j :: 0 <= j < i ==> r[j].0 != key;
  }

  /** A first entry for `key` in `rest`, behind an entry with another key. */
  lemma {:induction false} FirstKeyCons(e: (string, Value), rest: Record, key: string, i: nat)
    requires e.0 != key && i < |rest| && rest[i].0 == key && forall j :: 0 <= j < i ==> rest[j].0 != key
    ensures ([e] + rest)[i + 1] == rest[i] && forall j :: 0 <= j < i + 1 ==> ([e] + rest)[j].0 != key
  {
    var r := [e] + rest;
    forall j | 0 <= j < i + 1 ensures r[j].0 != key {
      if j > 0 { assert r[j] == rest[j - 1]; }
    }
  }

  /** `int(text)` stored as an int field. */
  function IntField(text: string): (r: Result<Value>)
    ensures r.Ok? <==> ParseInt(text).Some?
    ensures r.Ok? ==> r.value == VInt(ParseInt(text).value)
  {
    match ParseInt(text)
    case Some(n) => Ok(VInt(n))
    case None => Err(ValueError(text))
  }

  /** `float(text)` stored as a float field. */
  function FloatField(text: string): (r: Result<Value>)
    ensures r.Ok? <==> IsFloatLiteral(Strip(text))
    ensures r.Ok? ==> r.value == VFloat(Strip(text))
  {
    var t := Strip(text);
    if IsFloatLiteral(t) then Ok(VFloat(t)) else Err(ValueError(text))
  }

  /** `record[key]`, raising KeyError for a missing key. */
  function Field(r: Record, key: string): (v: Result<Value>)
    ensures v.Err? ==> v.fault == KeyError
    ensures v.Ok? <==> Get(r, key).Some?
    ensures v.Ok? ==> Get(r, key) == Some(v.value)
  {
    match Get(r, key)
    case None => Err(KeyError)
    case Some(x) => Ok(x)
  }

  /** `int(x)` of a float: its integer part, truncated toward zero. */
  function IntegerPart(literal: string): int {
    var whole := literal[..Find(literal, '.')];
    match ParseInt(whole)
    case Some(n) => n
    case None => 0
  }

  /** `int(value)`: an int is itself, a float is truncated and a str is
      parsed, raising ValueError when it is not an integer literal. */
  function PyInt(v: Value): (r: Result<int>)
    ensures v.VInt? ==> r == Ok(v.n)
    ensures v.VStr? ==> (r.Ok? <==> ParseInt(v.s).Some?)
    ensures v.VStr? && r.Ok? ==> r.value == ParseInt(v.s).value
    ensures r.Err? ==> v.VStr? && r.fault == ValueError(v.s)
  {
    match v
    case VInt(n) => Ok(n)
    case VFloat(literal) => Ok(IntegerPart(literal))
    case VStr(s) => ToIntResult(s)
  }

  /** `float(value)`: an int or a float becomes a float of the same
      value, and a str is parsed, raising ValueError when it is not a
      float literal. */
  function PyFloat(v: Value): (r: Result<Value>)
    ensures r.Ok? ==> r.value.VFloat?
    ensures v.VStr? ==> r == FloatField(v.s)
    ensures !v.VStr? ==> r.Ok?
  {
    match v
    case VInt(n) => Ok(VFloat(IntToString(n)))
    case VFloat(literal) => Ok(v)
    case VStr(s) => FloatField(s)
  }

  /** The entries of a record other than `channel_id`, in order: what the
      sinks' `for field in record: if field == 'channel_id': continue`
      visits. */
  function NonChannel(r: Record): (rest: Record)
    ensures |rest| <= |r|
    ensures forall i :: 0 <= i < |rest| ==> rest[i].0 != "channel_id" && rest[i] in r
    ensures forall i :: 0 <= i < |r| && r[i].0 != "channel_id" ==> r[i] in rest
  {
    if |r| == 0 then []
    else
      var init := NonChannel(r[..|r| - 1]);
      var last := r[|r| - 1];
      assert forall i :: 0 <= i < |r| - 1 ==> r[i] == r[..|r| - 1][i];
      if last.0 == "channel_id" then init else init + [last]
  }
}
