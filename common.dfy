/** Shared result types. Python raises exceptions where this model returns
    an `Err`; the `Fault` names which exception the original would raise. */
module Common {

  datatype Option<T> = None | Some(value: T)

  /** The Python exception kinds the modelled code can raise. */
  datatype Fault =
    | IndexError                  // list index out of range (tables, cells, split parts)
    | ValueError(text: string)    // int(), float() or str_to_bool rejected `text`, or time.sleep a negative length
    | AttributeError              // `.isdigit()` called on None or on an int
    | TypeError                   // str + None, or `'.' in` a non-string value
    | UnicodeEncodeError          // str.encode('ascii') met a non-ASCII character
    | HttpError(status: int)      // raise_for_status on a 4xx/5xx response
    | RequestError                // requests raised (connection refused, TLS, ...)
    | UnsupportedModel(model: string)
    | WriteError                  // a sink client call raised outside any handler
    | NameError                   // a variable read before it was ever bound
    | RecursionError              // the interpreter's recursion limit was reached
    | KeyError                    // a mapping or tag attribute lookup missed

  /** What `time.sleep` raises for a negative length. */
  const NegativeSleep: Fault := ValueError("sleep length must be non-negative")

  /** The statuses `raise_for_status` rejects: client (4xx) and server
      (5xx) errors. */
  predicate IsErrorStatus(status: int) {
    400 <= status < 600
  }

  datatype Result<T> = Ok(value: T) | Err(fault: Fault) {
    predicate IsFailure() { Err? }

    function PropagateFailure<U>(): Result<U>
      requires Err?
    {
      Err(fault)
    }

    function Extract(): T
      requires Ok?
    {
      value
    }
  }

  /** `[f(x) for x in xs]` where `f` may raise: the first element that
      fails raises, otherwise every result in order. */
  function MapResult<T, U>(f: T -> Result<U>, xs: seq<T>): (r: Result<seq<U>>)
    ensures r.Ok? <==> forall i :: 0 <= i < |xs| ==> f(xs[i]).Ok?
    ensures r.Ok? ==> |r.value| == |xs|
    ensures r.Ok? ==> forall i :: 0 <= i < |xs| ==> f(xs[i]) == Ok(r.value[i])
    ensures r.Err? ==> exists k :: 0 <= k < |xs| && f(xs[k]) == Err(r.fault)
                                   && forall j :: 0 <= j < k ==> f(xs[j]).Ok?
  {
    if |xs| == 0 then Ok([])
    else
      var init := xs[..|xs| - 1];
      assert forall i :: 0 <= i < |init| ==> init[i] == xs[i];
      match MapResult(f, init)
      case Err(e) => Err(e)
      case Ok(prev) =>
        match f(xs[|xs| - 1])
        case Err(e) => Err(e)
        case Ok(y) => Ok(prev + [y])
  }

  /** Once a prefix fails, the whole sequence does, with the same error. */
  lemma {:induction false} MapResultFailureStays<T, U>(f: T -> Result<U>, xs: seq<T>, k: nat)
    requires k <= |xs| && MapResult(f, xs[..k]).Err?
    ensures MapResult(f, xs) == MapResult(f, xs[..k])
    decreases |xs| - k
  {
    if k < |xs| {
      assert xs[..k + 1][..k] == xs[..k];
      MapResultFailureStays(f, xs, k + 1);
    } else {
      assert xs[..k] == xs;
    }
  }

  /** One more element that succeeds extends the results by one. */
  lemma {:induction false} MapResultStep<T, U>(f: T -> Result<U>, xs: seq<T>, k: nat)
    requires k < |xs| && MapResult(f, xs[..k]).Ok? && f(xs[k]).Ok?
    ensures MapResult(f, xs[..k + 1]) == Ok(MapResult(f, xs[..k]).value + [f(xs[k]).value])
  {
    assert xs[..k + 1][..k] == xs[..k];
  }

  /** Every element of `[x] + rest` satisfies `p` exactly when `x` and every
      element of `rest` do. */
  lemma {:induction false} AllCons<T>(p: T -> bool, x: T, rest: seq<T>)
    ensures (forall i :: 0 <= i < |[x] + rest| ==> p(([x] + rest)[i]))
        <==> p(x) && forall i :: 0 <= i < |rest| ==> p(rest[i])
  {
    if p(x) && forall i :: 0 <= i < |rest| ==> p(rest[i]) {
      forall i | 0 <= i < |[x] + rest| ensures p(([x] + rest)[i]) {
        if i > 0 { assert ([x] + rest)[i] == rest[i - 1]; }
      }
    }
    if forall i :: 0 <= i < |[x] + rest| ==> p(([x] + rest)[i]) {
      assert ([x] + rest)[0] == x;
      forall i | 0 <= i < |rest| ensures p(rest[i]) {
        assert ([x] + rest)[i + 1] == rest[i];
      }
    }
  }

  /** A prefix of length `k` of `rest` all satisfying `p`, behind an `x`
      that does, is a prefix of length `k + 1` of `[x] + rest`. */
  lemma {:induction false} PrefixCons<T>(p: T -> bool, x: T, rest: seq<T>, k: nat)
    requires p(x) && k <= |rest| && forall j :: 0 <= j < k ==> p(rest[j])
    ensures forall j :: 0 <= j < k + 1 ==> p(([x] + rest)[j])
  {
    forall j | 0 <= j < k + 1 ensures p(([x] + rest)[j]) {
      if j > 0 { assert ([x] + rest)[j] == rest[j - 1]; }
    }
  }

  /** Pairs related by `q` position by position stay so with one more
      related pair in front. */
  lemma {:induction false} PairwiseCons<T, U>(q: (T, U) -> bool, x: T, xs: seq<T>, y: U, ys: seq<U>)
    requires q(x, y) && |xs| == |ys| && forall i :: 0 <= i < |xs| ==> q(xs[i], ys[i])
    ensures forall i :: 0 <= i < |xs| + 1 ==> q(([x] + xs)[i], ([y] + ys)[i])
  {
    forall i | 0 <= i < |xs| + 1 ensures q(([x] + xs)[i], ([y] + ys)[i]) {
      if i > 0 { assert ([x] + xs)[i] == xs[i - 1] && ([y] + ys)[i] == ys[i - 1]; }
    }
  }
}
