/** The Python `str` operations the poller relies on, on `seq<char>`:
    `strip`, `isdigit`, `replace` (all occurrences or a limited count),
    `lower`, the `in` substring test, `int()`, the literal accepted by
    `float()` and `str()` of an int. */
module Text {
  import opened Common

  /** Whitespace removed by `str.strip()`, the characters `str.isspace()`
      accepts: the ASCII ones, the separators U+001C..U+001F, NEL, the
      no-break space, the Ogham space mark, the spaces U+2000..U+200A, the
      line and paragraph separators, the narrow no-break space, the medium
      mathematical space and the ideographic space. */
  predicate IsSpace(c: char) {
    c == ' ' || (9 <= c as int <= 13) || (0x1C <= c as int <= 0x1F)
    || c as int == 0x85 || c as int == 0xA0 || c as int == 0x1680
    || (0x2000 <= c as int <= 0x200A) || c as int == 0x2028 || c as int == 0x2029
    || c as int == 0x202F || c as int == 0x205F || c as int == 0x3000
  }

  function LStrip(s: string): (r: string)
    ensures |r| <= |s|
    ensures r == [] || !IsSpace(r[0])
  {
    if |s| > 0 && IsSpace(s[0]) then LStrip(s[1..]) else s
  }

  function RStrip(s: string): (r: string)
    ensures |r| <= |s|
    ensures r == [] || !IsSpace(r[|r| - 1])
    ensures |r| > 0 ==> r[0] == s[0]
  {
    if |s| > 0 && IsSpace(s[|s| - 1]) then RStrip(s[..|s| - 1]) else s
  }

  /** `lstrip` cuts a prefix of whitespace. */
  lemma {:induction false} LStripCutsSpace(s: string)
    ensures LStrip(s) == s[|s| - |LStrip(s)|..]
    ensures forall i :: 0 <= i < |s| - |LStrip(s)| ==> IsSpace(s[i])
    decreases |s|
  {
    if |s| > 0 && IsSpace(s[0]) {
      LStripCutsSpace(s[1..]);
    }
  }

  /** `rstrip` cuts a suffix of whitespace. */
  lemma {:induction false} RStripCutsSpace(s: string)
    ensures RStrip(s) == s[..|RStrip(s)|]
    ensures forall i :: |RStrip(s)| <= i < |s| ==> IsSpace(s[i])
    decreases |s|
  {
    if |s| > 0 && IsSpace(s[|s| - 1]) {
      var t := s[..|s| - 1];
      RStripCutsSpace(t);
      assert t[..|RStrip(t)|] == s[..|RStrip(t)|];
    }
  }

  /** `r` is `s` with the whitespace before index `i` and after `r` cut away. */
  predicate StrippedFrom(s: string, r: string, i: int) {
    0 <= i <= |s| - |r| && r == s[i..i + |r|]
    && (forall k :: 0 <= k < i ==> IsSpace(s[k]))
    && (forall k :: i + |r| <= k < |s| ==> IsSpace(s[k]))
  }

  /** `s.strip()`: no whitespace at either end. */
  function Strip(s: string): (r: string)
    ensures r == [] || (!IsSpace(r[0]) && !IsSpace(r[|r| - 1]))
  {
    RStrip(LStrip(s))
  }

  /** Everything `strip` cuts away is whitespace, from the two ends. */
  lemma {:induction false} StripCutsSpace(s: string)
    ensures exists i :: StrippedFrom(s, Strip(s), i)
  {
    var l := LStrip(s);
    var r := RStrip(l);
    LStripCutsSpace(s);
    RStripCutsSpace(l);
    var i := |s| - |l|;
    SliceOfSuffix(s, l, r, i);
    forall k | i + |r| <= k < |s| ensures IsSpace(s[k]) {
      assert s[k] == l[k - i];
    }
    assert StrippedFrom(s, Strip(s), i);
  }

  /** A prefix `r` of the suffix `l` of `s` that starts at `i` is a slice of `s`. */
  lemma {:induction false} SliceOfSuffix(s: string, l: string, r: string, i: int)
    requires 0 <= i <= |s| && l == s[i..] && |r| <= |l| && r == l[..|r|]
    ensures s[i..i + |r|] == r
    ensures forall k :: i <= k < |s| ==> s[k] == l[k - i]
  {
    forall k | 0 <= k < |r| ensures s[i..i + |r|][k] == r[k] {
      assert r[k] == l[k] == s[i + k];
    }
  }

  lemma {:induction false} StripNoSpaceEnds(s: string)
    requires s == [] || (!IsSpace(s[0]) && !IsSpace(s[|s| - 1]))
    ensures Strip(s) == s
  {
  }

  lemma {:induction false} StripIdempotent(s: string)
    ensures Strip(Strip(s)) == Strip(s)
  {
    StripNoSpaceEnds(Strip(s));
  }

  predicate IsDigit(c: char) { '0' <= c <= '9' }

  /** `s.isdigit()` restricted to ASCII: non-empty and all decimal digits. */
  predicate IsDigits(s: string) {
    |s| > 0 && forall i :: 0 <= i < |s| ==> IsDigit(s[i])
  }

  function DigitValue(c: char): (d: nat)
    requires IsDigit(c)
    ensures d < 10
  {
    c as int - '0' as int
  }

  function DigitsValue(s: string): nat
    requires forall i :: 0 <= i < |s| ==> IsDigit(s[i])
  {
    if |s| == 0 then 0 else 10 * DigitsValue(s[..|s| - 1]) + DigitValue(s[|s| - 1])
  }

  /** `int(s)`: surrounding whitespace, an optional sign, then ASCII digits. */
  function ParseInt(s: string): (r: Option<int>)
    ensures r.Some? ==> |Strip(s)| > 0
  {
    var t := Strip(s);
    if |t| > 0 && (t[0] == '-' || t[0] == '+') && IsDigits(t[1..]) then
      var v: int := DigitsValue(t[1..]);
      Some(if t[0] == '-' then -v else v)
    else if IsDigits(t) then Some(DigitsValue(t))
    else None
  }

  /** `int()` of a plain digit string is its decimal value. */
  lemma {:induction false} ParseDigits(s: string)
    requires IsDigits(s)
    ensures ParseInt(s) == Some(DigitsValue(s))
  {
    StripNoSpaceEnds(s);
  }

  /** A digit string has nothing to strip. */
  lemma {:induction false} DigitsStripped(s: string)
    requires IsDigits(s)
    ensures Strip(s) == s
  {
    StripNoSpaceEnds(s);
  }

  function ToIntResult(s: string): (r: Result<int>)
    ensures r.Ok? <==> ParseInt(s).Some?
    ensures r.Ok? ==> r.value == ParseInt(s).value
  {
    match ParseInt(s)
    case Some(n) => Ok(n)
    case None => Err(ValueError(s))
  }

  function DigitChar(d: nat): (c: char)
    requires d < 10
    ensures IsDigit(c) && DigitValue(c) == d
  {
    ('0' as int + d) as char
  }

  function NatToString(n: nat): (s: string)
    ensures IsDigits(s)
    decreases n
  {
    if n < 10 then [DigitChar(n)] else NatToString(n / 10) + [DigitChar(n % 10)]
  }

  /** `str(n)` for an int. */
  function IntToString(n: int): string {
    if n < 0 then "-" + NatToString(-n) else NatToString(n)
  }

  lemma {:induction false} NatToStringValue(n: nat)
    ensures DigitsValue(NatToString(n)) == n
    decreases n
  {
    if n >= 10 {
      var s := NatToString(n);
      assert s[..|s| - 1] == NatToString(n / 10);
      NatToStringValue(n / 10);
    }
  }

  /** `int()` of a minus sign and digits is the negated decimal value. */
  lemma {:induction false} ParseNegative(d: string)
    requires IsDigits(d)
    ensures ParseInt("-" + d) == Some(-(DigitsValue(d) as int))
  {
    var s := "-" + d;
    assert s[0] == '-' && s[1..] == d && s[|s| - 1] == d[|d| - 1];
    StripNoSpaceEnds(s);
  }

  /** `int(str(n)) == n`. */
  lemma {:induction false} IntToStringRoundTrip(n: int)
    ensures ParseInt(IntToString(n)) == Some(n)
  {
    if n < 0 {
      NatToStringValue(-n);
      ParseNegative(NatToString(-n));
    } else {
      NatToStringValue(n);
      ParseDigits(NatToString(n));
    }
  }

  /** The rest of a decimal literal, given whether a '.' and a digit have
      been seen: digits, at most one '.', and at least one digit overall. */
  predicate Decimal(s: string, dotSeen: bool, digitSeen: bool)
    decreases |s|
  {
    if |s| == 0 then digitSeen
    else if IsDigit(s[0]) then Decimal(s[1..], dotSeen, true)
    else if s[0] == '.' && !dotSeen then Decimal(s[1..], true, digitSeen)
    else false
  }

  /** The literals `float()` is modelled to accept: an optional sign, then
      ASCII digits with at most one '.', and at least one digit. */
  predicate IsFloatLiteral(s: string) {
    if |s| > 0 && (s[0] == '-' || s[0] == '+') then Decimal(s[1..], false, false)
    else Decimal(s, false, false)
  }

  lemma {:induction false} DecimalHasNoSpace(s: string, dotSeen: bool, digitSeen: bool)
    requires Decimal(s, dotSeen, digitSeen)
    ensures forall i :: 0 <= i < |s| ==> IsDigit(s[i]) || s[i] == '.'
    decreases |s|
  {
    if |s| > 0 {
      DecimalHasNoSpace(s[1..], if s[0] == '.' then true else dotSeen, if IsDigit(s[0]) then true else digitSeen);
      assert forall i :: 1 <= i < |s| ==> s[i] == s[1..][i - 1];
    }
  }

  /** A float literal has no whitespace in it. */
  lemma {:induction false} FloatLiteralHasNoSpace(s: string)
    requires IsFloatLiteral(s)
    ensures forall i :: 0 <= i < |s| ==> !IsSpace(s[i])
  {
    if |s| > 0 && (s[0] == '-' || s[0] == '+') {
      DecimalHasNoSpace(s[1..], false, false);
      assert forall i :: 1 <= i < |s| ==> s[i] == s[1..][i - 1];
    } else {
      DecimalHasNoSpace(s, false, false);
    }
  }

  lemma {:induction false} DigitsAreDecimal(s: string, dotSeen: bool)
    requires IsDigits(s)
    ensures Decimal(s, dotSeen, false) && Decimal(s, dotSeen, true)
    decreases |s|
  {
    if |s| > 1 {
      DigitsAreDecimal(s[1..], dotSeen);
    }
  }

  /** Every digit string is a float literal (`float('42')`). */
  lemma {:induction false} DigitsAreFloatLiteral(s: string)
    requires IsDigits(s)
    ensures IsFloatLiteral(s)
  {
    DigitsAreDecimal(s, false);
  }

  predicate OccursAt(s: string, p: string, i: int) {
    0 <= i && i + |p| <= |s| && s[i..i + |p|] == p
  }

  /** `p in s`. */
  predicate Contains(s: string, p: string) {
    exists i :: 0 <= i <= |s| - |p| && OccursAt(s, p, i)
  }

  /** `s.replace(pat, rep)`: every occurrence, scanning left to right
      without overlap. */
  function ReplaceAll(s: string, pat: string, rep: string): string
    requires |pat| > 0
    decreases |s|
  {
    if |s| < |pat| then s
    else if s[..|pat|] == pat then rep + ReplaceAll(s[|pat|..], pat, rep)
    else [s[0]] + ReplaceAll(s[1..], pat, rep)
  }

  /** `s.replace(pat, rep, n)`: only the first `n` occurrences. */
  function ReplaceN(s: string, pat: string, rep: string, n: nat): string
    requires |pat| > 0
    decreases |s|
  {
    if n == 0 || |s| < |pat| then s
    else if s[..|pat|] == pat then rep + ReplaceN(s[|pat|..], pat, rep, n - 1)
    else [s[0]] + ReplaceN(s[1..], pat, rep, n)
  }

  /** The occurrences `replace` would see (`s.count(pat)`). */
  function Count(s: string, pat: string): nat
    requires |pat| > 0
    decreases |s|
  {
    if |s| < |pat| then 0
    else if s[..|pat|] == pat then 1 + Count(s[|pat|..], pat)
    else Count(s[1..], pat)
  }

  function Min(a: nat, b: nat): nat { if a <= b then a else b }

  lemma {:induction false} MulSucc(m: nat, d: int)
    ensures (m + 1) * d == m * d + d
  {
  }

  /** A limited replace rewrites exactly min(n, count) occurrences: the
      text changes length by that many times the size difference. */
  lemma {:induction false} ReplaceNLength(s: string, pat: string, rep: string, n: nat)
    requires |pat| > 0
    ensures |ReplaceN(s, pat, rep, n)| == |s| + Min(n, Count(s, pat)) * (|rep| - |pat|)
    decreases |s|
  {
    if n == 0 || |s| < |pat| {
    } else if s[..|pat|] == pat {
      ReplaceNLength(s[|pat|..], pat, rep, n - 1);
      var m := Min(n - 1, Count(s[|pat|..], pat));
      assert Min(n, Count(s, pat)) == m + 1;
      MulSucc(m, |rep| - |pat|);
    } else {
      ReplaceNLength(s[1..], pat, rep, n);
    }
  }

  /** With a limit at least the number of occurrences, the limited replace
      is the unlimited one. */
  lemma {:induction false} ReplaceNCoversAll(s: string, pat: string, rep: string, n: nat)
    requires |pat| > 0 && n >= Count(s, pat)
    ensures ReplaceN(s, pat, rep, n) == ReplaceAll(s, pat, rep)
    decreases |s|
  {
    if |s| < |pat| {
    } else if s[..|pat|] == pat {
      ReplaceNCoversAll(s[|pat|..], pat, rep, n - 1);
    } else {
      ReplaceNCoversAll(s[1..], pat, rep, n);
    }
  }

  /** `pat` starts at no index of `s` below `k`. */
  predicate NoneBefore(s: string, pat: string, k: nat) {
    k == 0 || (!OccursAt(s, pat, k - 1) && NoneBefore(s, pat, k - 1))
  }

  /** `NoneBefore` means what it says: no occurrence starts below `k`. */
  lemma {:induction false} NoneBeforeMeaning(s: string, pat: string, k: nat)
    ensures NoneBefore(s, pat, k) <==> forall i :: 0 <= i < k ==> !OccursAt(s, pat, i)
    decreases k
  {
    if k > 0 {
      NoneBeforeMeaning(s, pat, k - 1);
    }
  }

  /** Dropping the first character moves every index down by one. */
  lemma {:induction false} NoneBeforeTail(c: char, t: string, pat: string, k: nat)
    requires NoneBefore([c] + t, pat, k + 1)
    ensures NoneBefore(t, pat, k)
    decreases k
  {
    if k > 0 {
      var s := [c] + t;
      assert !OccursAt(s, pat, k);
      assert k + |pat| <= |t| ==> t[k - 1..k - 1 + |pat|] == s[k..k + |pat|];
      NoneBeforeTail(c, t, pat, k - 1);
    }
  }

  /** A prefix in which no occurrence of `pat` starts is copied unchanged,
      and the replace goes on after it with the same limit. */
  lemma {:induction false} ReplaceNKeepsPrefix(a: string, b: string, pat: string, rep: string, n: nat)
    requires |pat| > 0 && NoneBefore(a + b, pat, |a|)
    ensures ReplaceN(a + b, pat, rep, n) == a + ReplaceN(b, pat, rep, n)
    decreases |a|
  {
    if |a| == 0 {
      assert a + b == b;
    } else if n > 0 && |a + b| >= |pat| {
      PrefixStep(a, b, pat);
      ReplaceNKeepsPrefix(a[1..], b, pat, rep, n);
      ReplaceNSkip(a[0], a[1..] + b, pat, rep, n);
      ConsAppend(a, ReplaceN(b, pat, rep, n));
    }
  }

  /** The first character of a prefix in which `pat` does not start. */
  lemma {:induction false} PrefixStep(a: string, b: string, pat: string)
    requires |a| > 0 && NoneBefore(a + b, pat, |a|)
    ensures a + b == [a[0]] + (a[1..] + b)
    ensures !OccursAt([a[0]] + (a[1..] + b), pat, 0)
    ensures NoneBefore(a[1..] + b, pat, |a| - 1)
  {
    assert a + b == [a[0]] + (a[1..] + b);
    NoneBeforeMeaning(a + b, pat, |a|);
    assert !OccursAt(a + b, pat, 0);
    NoneBeforeTail(a[0], a[1..] + b, pat, |a| - 1);
  }

  lemma {:induction false} ConsAppend(a: string, x: string)
    requires |a| > 0
    ensures [a[0]] + (a[1..] + x) == a + x
  {
    assert [a[0]] + a[1..] == a;
  }

  /** Where `pat` does not start, the first character is kept. */
  lemma {:induction false} ReplaceNSkip(c: char, t: string, pat: string, rep: string, n: nat)
    requires |pat| > 0 && n > 0 && |[c] + t| >= |pat| && !OccursAt([c] + t, pat, 0)
    ensures ReplaceN([c] + t, pat, rep, n) == [c] + ReplaceN(t, pat, rep, n)
  {
    var s := [c] + t;
    assert s[..|pat|] != pat && s[0] == c && s[1..] == t;
  }

  /** An occurrence at the start is rewritten first. */
  lemma {:induction false} ReplaceNAtStart(pat: string, rest: string, rep: string, n: nat)
    requires |pat| > 0
    ensures ReplaceN(pat + rest, pat, rep, n + 1) == rep + ReplaceN(rest, pat, rep, n)
  {
    var s := pat + rest;
    assert s[..|pat|] == pat && s[|pat|..] == rest;
  }

  /** A limited replace rewrites the first occurrence, keeps the text
      before it, and goes on after it with one replacement fewer; with no
      replacement left the text is kept. */
  lemma {:induction false} ReplaceNFirst(a: string, rest: string, pat: string, rep: string, n: nat)
    requires |pat| > 0 && NoneBefore(a + pat + rest, pat, |a|)
    ensures ReplaceN(a + pat + rest, pat, rep, n + 1) == a + rep + ReplaceN(rest, pat, rep, n)
    ensures ReplaceN(a + pat + rest, pat, rep, 0) == a + pat + rest
    ensures ReplaceN(rest, pat, rep, 0) == rest
  {
    assert a + pat + rest == a + (pat + rest);
    ReplaceNKeepsPrefix(a, pat + rest, pat, rep, n + 1);
    ReplaceNAtStart(pat, rest, rep, n);
    assert a + (rep + ReplaceN(rest, pat, rep, n)) == a + rep + ReplaceN(rest, pat, rep, n);
  }

  /** A replace limited to two rewrites the first two occurrences found
      scanning without overlap, `pat` after `a` and `pat` after `b`, and
      keeps `a`, `b` and `c`. */
  lemma {:induction false} ReplaceTwoFirst(a: string, b: string, c: string, pat: string, rep: string)
    requires |pat| > 0
    requires NoneBefore(a + pat + (b + pat + c), pat, |a|) && NoneBefore(b + pat + c, pat, |b|)
    ensures ReplaceN(a + pat + (b + pat + c), pat, rep, 2) == a + rep + (b + rep + c)
  {
    ReplaceNFirst(a, b + pat + c, pat, rep, 1);
    ReplaceNFirst(b, c, pat, rep, 0);
  }

  /** A replace rewrites the first occurrence; with no other after it, that
      is the only change. */
  lemma {:induction false} ReplaceOnlyFirst(a: string, b: string, pat: string, rep: string, n: nat)
    requires |pat| > 0 && n > 0
    requires NoneBefore(a + pat + b, pat, |a|) && !Contains(b, pat)
    ensures ReplaceN(a + pat + b, pat, rep, n) == a + rep + b
  {
    ReplaceNFirst(a, b, pat, rep, n - 1);
    ReplaceAbsent(b, pat, rep, n - 1);
  }

  /** Text with no occurrence of `pat` is left unchanged by any replace. */
  lemma {:induction false} ReplaceAbsent(s: string, pat: string, rep: string, n: nat)
    requires |pat| > 0 && !Contains(s, pat)
    ensures ReplaceAll(s, pat, rep) == s && ReplaceN(s, pat, rep, n) == s
    ensures Count(s, pat) == 0
    decreases |s|
  {
    if |s| >= |pat| {
      assert !OccursAt(s, pat, 0);
      forall i | 0 <= i <= |s| - 1 - |pat| ensures !OccursAt(s[1..], pat, i) {
        assert !OccursAt(s, pat, i + 1);
        assert s[1..][i..i + |pat|] == s[i + 1..i + 1 + |pat|];
      }
      ReplaceAbsent(s[1..], pat, rep, n);
    }
  }

  /** Text without the first character of `pat` holds no occurrence of it. */
  lemma {:induction false} AbsentFirstChar(s: string, pat: string)
    requires |pat| > 0 && forall i :: 0 <= i < |s| ==> s[i] != pat[0]
    ensures !Contains(s, pat)
  {
    forall i | 0 <= i <= |s| - |pat|
      ensures !OccursAt(s, pat, i)
    {
      assert s[i..i + |pat|][0] == s[i];
    }
  }

  /** A leading occurrence is removed, and the replace goes on after it. */
  lemma {:induction false} ReplaceLeading(pat: string, t: string)
    requires |pat| > 0
    ensures ReplaceAll(pat + t, pat, "") == ReplaceAll(t, pat, "")
  {
    var s := pat + t;
    assert s[..|pat|] == pat && s[|pat|..] == t;
  }

  /** One leading space before a word with no whitespace at its ends is
      what `strip` removes. */
  lemma {:induction false} StripLeadingSpace(s: string)
    requires s == [] || (!IsSpace(s[0]) && !IsSpace(s[|s| - 1]))
    ensures Strip(" " + s) == s
  {
    assert (" " + s)[1..] == s;
    assert LStrip(" " + s) == s;
  }

  /** Removing a unit suffix from `value + unit` gives back `value`, when the
      value cannot start an occurrence of the unit (e.g. digits before " Hz"). */
  lemma {:induction false} RemoveUnitSuffix(value: string, unit: string)
    requires |unit| > 0
    requires forall i :: 0 <= i < |value| ==> value[i] != unit[0]
    ensures ReplaceAll(value + unit, unit, "") == value
    decreases |value|
  {
    var s := value + unit;
    if |value| == 0 {
      assert s[..|unit|] == unit;
      assert s[|unit|..] == [];
    } else {
      assert s[..|unit|] != unit by { assert s[0] == value[0]; }
      assert s[1..] == value[1..] + unit;
      RemoveUnitSuffix(value[1..], unit);
    }
  }

  function LowerChar(c: char): char {
    if 'A' <= c <= 'Z' then (c as int + 32) as char else c
  }

  /** `s.lower()` on ASCII letters. */
  function Lower(s: string): (r: string)
    ensures |r| == |s|
    ensures forall i :: 0 <= i < |s| ==> r[i] == LowerChar(s[i])
  {
    seq(|s|, i requires 0 <= i < |s| => LowerChar(s[i]))
  }

  /** `s.rfind(c)`: the last index holding `c`, or -1. */
  function RFind(s: string, c: char): (r: int)
    ensures -1 <= r < |s|
    ensures r >= 0 ==> s[r] == c
    ensures forall j :: r < j < |s| ==> s[j] != c
    decreases |s|
  {
    if |s| == 0 then -1
    else if s[|s| - 1] == c then |s| - 1
    else RFind(s[..|s| - 1], c)
  }

  /** `s[:i]` with Python's reading of the end: a negative end counts from
      the back, and an end outside the text is clamped to it. */
  function PyPrefix(s: string, i: int): (r: string)
    ensures |r| == (if i >= |s| then |s| else if i >= 0 then i else if -i >= |s| then 0 else |s| + i)
    ensures r == s[..|r|]
  {
    if i >= |s| then s
    else if i >= 0 then s[..i]
    else if -i >= |s| then []
    else s[..|s| + i]
  }

  /** The last `c` of `base + [c] + tail`, when `tail` holds none, is the
      one after `base`. */
  lemma {:induction false} RFindLast(base: string, c: char, tail: string)
    requires forall j :: 0 <= j < |tail| ==> tail[j] != c
    ensures RFind(base + [c] + tail, c) == |base|
    decreases |tail|
  {
    var s := base + [c] + tail;
    if |tail| > 0 {
      var init := tail[..|tail| - 1];
      assert s[|s| - 1] == tail[|tail| - 1];
      assert s[..|s| - 1] == base + [c] + init;
      RFindLast(base, c, init);
    }
  }

  /** The first `c` of `head + [c] + rest`, when `head` holds none, is the
      one after `head`. */
  lemma {:induction false} FindFirst(head: string, c: char, rest: string)
    requires forall j :: 0 <= j < |head| ==> head[j] != c
    ensures Find(head + [c] + rest, c) == |head|
    decreases |head|
  {
    var s := head + [c] + rest;
    if |head| > 0 {
      assert s[0] == head[0];
      assert s[1..] == head[1..] + [c] + rest;
      FindFirst(head[1..], c, rest);
    }
  }

  /** The first index holding `c`, or |s| when there is none. */
  function Find(s: string, c: char): (r: nat)
    ensures r <= |s|
    ensures r < |s| ==> s[r] == c
    ensures forall j :: 0 <= j < r ==> s[j] != c
    decreases |s|
  {
    if |s| == 0 || s[0] == c then 0 else 1 + Find(s[1..], c)
  }

  /** `s.split(sep)` for a one-character separator. */
  function Split(s: string, sep: char): (parts: seq<string>)
    ensures |parts| > 0
    decreases |s|
  {
    var i := Find(s, sep);
    if i == |s| then [s] else [s[..i]] + Split(s[i + 1..], sep)
  }

  /** The text before the first separator is the first part; with no
      separator in the rest either, there are exactly two parts. */
  lemma {:induction false} SplitTwo(a: string, sep: char, b: string)
    requires forall j :: 0 <= j < |a| ==> a[j] != sep
    requires forall j :: 0 <= j < |b| ==> b[j] != sep
    ensures Split(a + [sep] + b, sep) == [a, b]
  {
    var s := a + [sep] + b;
    FindFirst(a, sep, b);
    assert s[..|a|] == a && s[|a| + 1..] == b;
    assert Find(b, sep) == |b|;
  }

  /** `sep.join(parts)`. */
  function Join(parts: seq<string>, sep: char): string
    requires |parts| > 0
    decreases |parts|
  {
    if |parts| == 1 then parts[0] else parts[0] + [sep] + Join(parts[1..], sep)
  }

  /** Splitting loses nothing: joining the parts gives the text back, and
      no part holds the separator. */
  lemma {:induction false} SplitJoin(s: string, sep: char)
    ensures Join(Split(s, sep), sep) == s
    ensures forall k, j :: 0 <= k < |Split(s, sep)| && 0 <= j < |Split(s, sep)[k]| ==> Split(s, sep)[k][j] != sep
    decreases |s|
  {
    var i := Find(s, sep);
    if i < |s| {
      SplitAt(s, sep);
      SplitJoin(s[i + 1..], sep);
      JoinCons(s[..i], Split(s[i + 1..], sep), sep);
      NoSeparatorCons(s[..i], Split(s[i + 1..], sep), sep);
    }
  }

  /** At its first separator the text falls into the part before it, the
      separator and the rest, and splitting goes on in the rest. */
  lemma {:induction false} SplitAt(s: string, sep: char)
    requires Find(s, sep) < |s|
    ensures var i := Find(s, sep);
            && s == s[..i] + [sep] + s[i + 1..]
            && Split(s, sep) == [s[..i]] + Split(s[i + 1..], sep)
            && forall j :: 0 <= j < |s[..i]| ==> s[..i][j] != sep
  {
    var i := Find(s, sep);
    assert s == s[..i] + [sep] + s[i + 1..];
  }

  /** Joining a part in front of more parts. */
  lemma {:induction false} JoinCons(p: string, rest: seq<string>, sep: char)
    requires |rest| > 0
    ensures Join([p] + rest, sep) == p + [sep] + Join(rest, sep)
  {
    var parts := [p] + rest;
    assert parts[0] == p && parts[1..] == rest;
  }

  /** No part holds the separator, with one more such part in front. */
  lemma {:induction false} NoSeparatorCons(p: string, rest: seq<string>, sep: char)
    requires forall j :: 0 <= j < |p| ==> p[j] != sep
    requires forall k, j :: 0 <= k < |rest| && 0 <= j < |rest[k]| ==> rest[k][j] != sep
    ensures forall k, j :: 0 <= k < |[p] + rest| && 0 <= j < |([p] + rest)[k]| ==> ([p] + rest)[k][j] != sep
  {
    var parts := [p] + rest;
    forall k, j | 0 <= k < |parts| && 0 <= j < |parts[k]| ensures parts[k][j] != sep {
      if k > 0 { assert parts[k] == rest[k - 1]; }
    }
  }
}
