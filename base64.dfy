/** The login URL of the SB8200 web UI: `modem_url + '?' + base64(user:pass)`,
    with the "base64" encoding of section 4 of RFC 4648 (alphabet A-Z a-z 0-9
    + /, '=' padding), and the strict decoder that shows it can be undone. */
module Base64 {
  import opened Common

  type byte = x: int | 0 <= x < 256
  type sextet = x: int | 0 <= x < 64

  /** The symbol for a 6-bit value (Table 1 of RFC 4648). */
  function Sym(v: sextet): char {
    if v < 26 then ('A' as int + v) as char
    else if v < 52 then ('a' as int + (v - 26)) as char
    else if v < 62 then ('0' as int + (v - 52)) as char
    else if v == 62 then '+'
    else '/'
  }

  predicate IsSym(c: char) {
    ('A' <= c <= 'Z') || ('a' <= c <= 'z') || ('0' <= c <= '9') || c == '+' || c == '/'
  }

  function SymValue(c: char): (v: sextet)
    requires IsSym(c)
    ensures Sym(v) == c
  {
    if 'A' <= c <= 'Z' then c as int - 'A' as int
    else if 'a' <= c <= 'z' then c as int - 'a' as int + 26
    else if '0' <= c <= '9' then c as int - '0' as int + 52
    else if c == '+' then 62
    else 63
  }

  lemma {:induction false} SymInverse(v: sextet)
    ensures IsSym(Sym(v)) && SymValue(Sym(v)) == v
  {
  }

  /** Three bytes become four symbols, 6 bits each, most significant first. */
  function EncodeBlock(b0: byte, b1: byte, b2: byte): string {
    [Sym(b0 / 4), Sym((b0 % 4) * 16 + b1 / 16), Sym((b1 % 16) * 4 + b2 / 64), Sym(b2 % 64)]
  }

  /** `base64.b64encode`: full blocks, then a final block padded with '='. */
  function Encode(bs: seq<byte>): (s: string)
    ensures |s| == 4 * ((|bs| + 2) / 3)
  {
    if |bs| >= 3 then EncodeBlock(bs[0], bs[1], bs[2]) + Encode(bs[3..])
    else if |bs| == 2 then [Sym(bs[0] / 4), Sym((bs[0] % 4) * 16 + bs[1] / 16), Sym((bs[1] % 16) * 4), '=']
    else if |bs| == 1 then [Sym(bs[0] / 4), Sym((bs[0] % 4) * 16), '=', '=']
    else []
  }

  /** The inverse of the encoding: four symbols back to up to three bytes. */
  function DecodeBlock(s: string): Option<seq<byte>>
    requires |s| == 4
  {
    if !IsSym(s[0]) || !IsSym(s[1]) then None
    else
      var c0, c1 := SymValue(s[0]), SymValue(s[1]);
      var b0: byte := c0 * 4 + c1 / 16;
      if s[2] == '=' && s[3] == '=' then Some([b0])
      else if !IsSym(s[2]) then None
      else
        var c2 := SymValue(s[2]);
        var b1: byte := (c1 % 16) * 16 + c2 / 4;
        if s[3] == '=' then Some([b0, b1])
        else if !IsSym(s[3]) then None
        else
          var c3 := SymValue(s[3]);
          Some([b0, b1, (c2 % 4) * 64 + c3])
  }

  /** Strict decoding: a whole number of blocks, padding only in the last. */
  function Decode(s: string): Option<seq<byte>>
    decreases |s|
  {
    if |s| == 0 then Some([])
    else if |s| < 4 then None
    else if |s| == 4 then DecodeBlock(s)
    else if '=' in s[..4] then None
    else
      match (DecodeBlock(s[..4]), Decode(s[4..]))
      case (Some(head), Some(tail)) => Some(head + tail)
      case _ => None
  }

  lemma {:induction false} Split(hi: int, lo: int, k: int)
    requires k == 4 || k == 16 || k == 64
    requires 0 <= lo < k
    ensures (hi * k + lo) / k == hi && (hi * k + lo) % k == lo
  {
  }

  lemma {:induction false} BlockRoundTrip(b0: byte, b1: byte, b2: byte)
    ensures DecodeBlock(EncodeBlock(b0, b1, b2)) == Some([b0, b1, b2])
  {
    var c0, c1, c2, c3 := b0 / 4, (b0 % 4) * 16 + b1 / 16, (b1 % 16) * 4 + b2 / 64, b2 % 64;
    SymInverse(c0);
    SymInverse(c1);
    SymInverse(c2);
    SymInverse(c3);
    Split(b0 % 4, b1 / 16, 16);
    Split(b1 % 16, b2 / 64, 4);
    assert c1 / 16 == b0 % 4 && c1 % 16 == b1 / 16;
    assert c2 / 4 == b1 % 16 && c2 % 4 == b2 / 64;
    var s := EncodeBlock(b0, b1, b2);
    assert s == [Sym(c0), Sym(c1), Sym(c2), Sym(c3)];
    assert DecodeBlock(s) == Some([c0 * 4 + c1 / 16, (c1 % 16) * 16 + c2 / 4, (c2 % 4) * 64 + c3]);
  }

  lemma {:induction false} PairRoundTrip(b0: byte, b1: byte)
    ensures Decode(Encode([b0, b1])) == Some([b0, b1])
  {
    var c0, c1, c2 := b0 / 4, (b0 % 4) * 16 + b1 / 16, (b1 % 16) * 4;
    SymInverse(c0);
    SymInverse(c1);
    SymInverse(c2);
    Split(b0 % 4, b1 / 16, 16);
    Split(b1 % 16, 0, 4);
    assert c1 / 16 == b0 % 4 && c1 % 16 == b1 / 16 && c2 / 4 == b1 % 16;
    var s := Encode([b0, b1]);
    assert s == [Sym(c0), Sym(c1), Sym(c2), '='];
    assert Decode(s) == DecodeBlock(s) == Some([c0 * 4 + c1 / 16, (c1 % 16) * 16 + c2 / 4]);
  }

  lemma {:induction false} SingleRoundTrip(b0: byte)
    ensures Decode(Encode([b0])) == Some([b0])
  {
    SymInverse(b0 / 4);
    SymInverse((b0 % 4) * 16);
    Split(b0 % 4, 0, 16);
  }

  lemma {:induction false} NoPadInBlock(b0: byte, b1: byte, b2: byte)
    ensures '=' !in EncodeBlock(b0, b1, b2)
  {
    SymInverse(b0 / 4);
    SymInverse((b0 % 4) * 16 + b1 / 16);
    SymInverse((b1 % 16) * 4 + b2 / 64);
    SymInverse(b2 % 64);
  }

  /** Every character of an encoding is a symbol or padding. */
  lemma {:induction false} EncodeAlphabet(bs: seq<byte>)
    ensures forall i :: 0 <= i < |Encode(bs)| ==> IsSym(Encode(bs)[i]) || Encode(bs)[i] == '='
    decreases |bs|
  {
    if |bs| >= 3 {
      var head, tail := EncodeBlock(bs[0], bs[1], bs[2]), Encode(bs[3..]);
      EncodeAlphabet(bs[3..]);
      SymInverse(bs[0] / 4);
      SymInverse((bs[0] % 4) * 16 + bs[1] / 16);
      SymInverse((bs[1] % 16) * 4 + bs[2] / 64);
      SymInverse(bs[2] % 64);
      assert Encode(bs) == head + tail;
      forall i | 0 <= i < |head + tail| ensures IsSym((head + tail)[i]) || (head + tail)[i] == '=' {
        if i >= 4 { assert (head + tail)[i] == tail[i - 4]; }
      }
    } else if |bs| == 2 {
      SymInverse(bs[0] / 4);
      SymInverse((bs[0] % 4) * 16 + bs[1] / 16);
      SymInverse((bs[1] % 16) * 4);
    } else if |bs| == 1 {
      SymInverse(bs[0] / 4);
      SymInverse((bs[0] % 4) * 16);
    }
  }

  lemma {:induction false} DecodeCons(h: string, t: string, x: seq<byte>, y: seq<byte>)
    requires |h| == 4 && '=' !in h && |t| >= 4
    requires DecodeBlock(h) == Some(x) && Decode(t) == Some(y)
    ensures Decode(h + t) == Some(x + y)
  {
    var s := h + t;
    assert s[..4] == h && s[4..] == t;
  }

  /** A full block in front of more bytes is encoded in front of their
      encoding. */
  lemma {:induction false} EncodeCons(b0: byte, b1: byte, b2: byte, rest: seq<byte>)
    ensures Encode([b0, b1, b2] + rest) == EncodeBlock(b0, b1, b2) + Encode(rest)
  {
    var bs := [b0, b1, b2] + rest;
    assert bs[0] == b0 && bs[1] == b1 && bs[2] == b2 && bs[3..] == rest;
  }

  /** One full block in front of an encoding that decodes. */
  lemma {:induction false} ConsBlock(b0: byte, b1: byte, b2: byte, rest: seq<byte>)
    requires |rest| > 0 && Decode(Encode(rest)) == Some(rest)
    ensures Decode(Encode([b0, b1, b2] + rest)) == Some([b0, b1, b2] + rest)
  {
    var head, tail := EncodeBlock(b0, b1, b2), Encode(rest);
    EncodeCons(b0, b1, b2, rest);
    NoPadInBlock(b0, b1, b2);
    BlockRoundTrip(b0, b1, b2);
    DecodeCons(head, tail, [b0, b1, b2], rest);
  }

  lemma {:induction false} LastBlock(b0: byte, b1: byte, b2: byte)
    ensures Decode(Encode([b0, b1, b2])) == Some([b0, b1, b2])
  {
    EncodeCons(b0, b1, b2, []);
    assert [b0, b1, b2] + [] == [b0, b1, b2];
    BlockRoundTrip(b0, b1, b2);
  }

  /** Decoding what `b64encode` produced gives back the bytes. */
  lemma {:induction false} DecodeEncode(bs: seq<byte>)
    ensures Decode(Encode(bs)) == Some(bs)
    decreases |bs|
  {
    if |bs| >= 3 {
      var rest := bs[3..];
      assert bs == [bs[0], bs[1], bs[2]] + rest;
      if |rest| > 0 {
        DecodeEncode(rest);
        ConsBlock(bs[0], bs[1], bs[2], rest);
      } else {
        assert bs == [bs[0], bs[1], bs[2]];
        LastBlock(bs[0], bs[1], bs[2]);
      }
    } else if |bs| == 2 {
      assert bs == [bs[0], bs[1]];
      PairRoundTrip(bs[0], bs[1]);
    } else if |bs| == 1 {
      assert bs == [bs[0]];
      SingleRoundTrip(bs[0]);
    }
  }

  /** `s.encode('ascii')`: fails on any character from 128 up. */
  function AsciiBytes(s: string): (r: Option<seq<byte>>)
    ensures r.Some? <==> forall i :: 0 <= i < |s| ==> s[i] as int < 128
    ensures r.Some? ==> |r.value| == |s| && forall i :: 0 <= i < |s| ==> r.value[i] == s[i] as int
  {
    if forall i :: 0 <= i < |s| ==> s[i] as int < 128 then
      Some(seq(|s|, i requires 0 <= i < |s| => s[i] as int as byte))
    else None
  }

  /** The text of ASCII bytes (`bytes.decode()`). */
  function AsciiText(bs: seq<byte>): (s: string)
    ensures |s| == |bs|
  {
    seq(|bs|, i requires 0 <= i < |bs| => bs[i] as char)
  }

  /** The URL `get_credential` and `start_session` request:
      `url + '?' + b64encode((username + ':' + password).encode('ascii'))`.
      A password of None breaks the concatenation; a non-ASCII character
      breaks the encoding. */
  function AuthUrl(url: string, username: string, password: Option<string>): (r: Result<string>)
    ensures password.None? ==> r == Err(TypeError)
    ensures password.Some? ==> (r.Ok? <==> AsciiBytes(username + ":" + password.value).Some?)
    ensures password.Some? && r.Err? ==> r == Err(UnicodeEncodeError)
  {
    match password
    case None => Err(TypeError)
    case Some(pw) =>
      match AsciiBytes(username + ":" + pw)
      case None => Err(UnicodeEncodeError)
      case Some(token) => Ok(url + "?" + Encode(token))
  }

  lemma {:induction false} AsciiTextOfSymbols(s: string)
    requires forall i :: 0 <= i < |s| ==> s[i] as int < 128
    ensures AsciiBytes(s).Some? && AsciiText(AsciiBytes(s).value) == s
  {
  }

  /** The query part of a login URL decodes back to `username:password`. */
  lemma {:induction false} AuthUrlRoundTrip(url: string, username: string, password: string)
    requires AuthUrl(url, username, Some(password)).Ok?
    ensures var u := AuthUrl(url, username, Some(password)).value;
      |u| > |url| && u[..|url| + 1] == url + "?"
      && Decode(u[|url| + 1..]).Some?
      && AsciiText(Decode(u[|url| + 1..]).value) == username + ":" + password
  {
    var token := AsciiBytes(username + ":" + password).value;
    var e := Encode(token);
    var u := url + "?" + e;
    assert u[|url| + 1..] == e;
    assert u[..|url| + 1] == url + "?";
    DecodeEncode(token);
    AsciiTextOfSymbols(username + ":" + password);
  }
}
