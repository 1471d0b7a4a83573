/** `encodeURIComponent` (section 19.2.6.4 of ECMA-262, 2024 edition: UTF-8 bytes of every
    character outside the unreserved set as `%XX` with upper-case hex digits)
    and the reading of a query string into name-value pairs as
    `URLSearchParams` does it (section 5.1 of the WHATWG URL Standard,
    application/x-www-form-urlencoded parsing). Strings are sequences of
    Unicode scalar values, so a lone UTF-16 surrogate, on which
    `encodeURIComponent` throws a URIError, cannot occur here.

    These are the JavaScript runtime's library functions, not code of the
    app. They are defined here in full only because the visitor page builds
    the task-list route with the encoder and the task-list page reads it back
    with the query reader, and `FacialAuthApp.AdmittedOpensOwnList` needs the
    two to agree; `DecodeEncode` and the escape lemmas serve that proof. */
module Uri {
  import opened Text

  /** The characters `encodeURIComponent` leaves as they are. */
  predicate IsUnreserved(c: char) {
    ('A' <= c <= 'Z') || ('a' <= c <= 'z') || ('0' <= c <= '9')
    || c == '-' || c == '_' || c == '.' || c == '!' || c == '~' || c == '*' || c == '\'' || c == '(' || c == ')'
  }

  function HexDigit(n: int): (c: char)
    requires 0 <= n < 16
    ensures IsUnreserved(c)
  {
    if n < 10 then ('0' as int + n) as char else ('A' as int + n - 10) as char
  }

  /** The UTF-8 encoding of one scalar value. */
  function Utf8(c: char): (r: seq<int>)
    ensures 1 <= |r| <= 4
    ensures forall i :: 0 <= i < |r| ==> 0 <= r[i] < 256
    ensures (c as int < 0x80) == (|r| == 1)
  {
    var n := c as int;
    if n < 0x80 then [n]
    else if n < 0x800 then [0xC0 + n / 64, 0x80 + n % 64]
    else if n < 0x10000 then [0xE0 + n / 4096, 0x80 + (n / 64) % 64, 0x80 + n % 64]
    else [0xF0 + n / 262144, 0x80 + (n / 4096) % 64, 0x80 + (n / 64) % 64, 0x80 + n % 64]
  }

  /** `%XX` for each byte. */
  function Escape(bytes: seq<int>): (r: string)
    requires forall i :: 0 <= i < |bytes| ==> 0 <= bytes[i] < 256
    ensures |r| == 3 * |bytes|
    ensures forall i :: 0 <= i < |r| ==> IsUnreserved(r[i]) || r[i] == '%'
  {
    if bytes == [] then []
    else ['%', HexDigit(bytes[0] / 16), HexDigit(bytes[0] % 16)] + Escape(bytes[1..])
  }

  function EncodeChar(c: char): (r: string)
    ensures forall i :: 0 <= i < |r| ==> IsUnreserved(r[i]) || r[i] == '%'
  {
    if IsUnreserved(c) then [c] else Escape(Utf8(c))
  }

  /** `encodeURIComponent(s)`. */
  function EncodeComponent(s: string): (r: string)
    ensures forall i :: 0 <= i < |r| ==> IsUnreserved(r[i]) || r[i] == '%'
  {
    if s == [] then [] else EncodeChar(s[0]) + EncodeComponent(s[1..])
  }

  /** Text made of unreserved characters passes unchanged. */
  lemma {:induction false} EncodeUnreserved(s: string)
    requires forall i :: 0 <= i < |s| ==> IsUnreserved(s[i])
    ensures EncodeComponent(s) == s
  {
    if s != [] {
      EncodeUnreserved(s[1..]);
      assert s == [s[0]] + s[1..];
    }
  }

  /** An encoded component holds none of the characters that structure a
      query: no '&', '=', '+', '#' or '?'. */
  lemma {:induction false} EncodedIsInert(s: string)
    ensures '&' !in EncodeComponent(s) && '=' !in EncodeComponent(s) && '+' !in EncodeComponent(s)
    ensures '#' !in EncodeComponent(s) && '?' !in EncodeComponent(s)
  {
    var r := EncodeComponent(s);
    assert forall i :: 0 <= i < |r| ==> r[i] != '&' && r[i] != '=' && r[i] != '+' && r[i] != '#' && r[i] != '?';
  }

  /** One `name=value` piece of a query (a piece without '=' has the empty
      value); names and values are taken as they stand, before percent
      decoding. */
  function QueryPair(piece: string): (string, string) {
    (UpTo(piece, '='), After(piece, '='))
  }

  /** The pairs of a query string: the pieces between '&', empty pieces
      skipped. */
  function QueryPairs(query: string): (r: seq<(string, string)>)
    ensures |r| <= |SplitAt(query, '&')|
  {
    Pairs(SplitAt(query, '&'))
  }

  function Pairs(pieces: seq<string>): (r: seq<(string, string)>)
    ensures |r| <= |pieces|
  {
    if pieces == [] then []
    else if pieces[0] == [] then Pairs(pieces[1..])
    else [QueryPair(pieces[0])] + Pairs(pieces[1..])
  }

  /** `params.get(key)` of `URLSearchParams`: the first value under the key. */
  function GetParam(search: seq<(string, string)>, key: string): (r: Option<string>)
    ensures r.None? <==> forall i :: 0 <= i < |search| ==> search[i].0 != key
    ensures r.Some? ==> exists i :: 0 <= i < |search| && search[i] == (key, r.value)
                                 && (forall j :: 0 <= j < i ==> search[j].0 != key)
  {
    if search == [] then None
    else if search[0].0 == key then Some(search[0].1)
    else
      var r := GetParam(search[1..], key);
      assert forall i :: 1 <= i < |search| ==> search[i] == search[1..][i - 1];
      r
  }

  lemma {:induction false} NamedPair(a: string, x: string)
    requires '=' !in a
    ensures QueryPair(a + "=" + x) == (a, x)
  {
    assert a + "=" + x == a + ['='] + x;
    SplitFirst(a, x, '=');
  }

  lemma {:induction false} PairsOfTwo(p: string, q: string)
    requires p != [] && q != []
    ensures Pairs([p, q]) == [QueryPair(p), QueryPair(q)]
  {
    var pieces := [p, q];
    assert pieces[1..] == [q];
    assert pieces[1..][1..] == [];
  }

  /** A query built as `a=x&b=y` from names and values without '&', whose
      names have no '=' and are non-empty, reads back as exactly those two
      pairs. */
  lemma {:induction false} TwoPairs(a: string, x: string, b: string, y: string)
    requires a != [] && b != []
    requires '&' !in a && '&' !in x && '&' !in b && '&' !in y && '=' !in a && '=' !in b
    ensures QueryPairs(a + "=" + x + "&" + b + "=" + y) == [(a, x), (b, y)]
  {
    var p, q := a + "=" + x, b + "=" + y;
    assert a + "=" + x + "&" + b + "=" + y == p + ['&'] + q;
    assert '&' !in p && '&' !in q;
    SplitTwo(p, q, '&');
    PairsOfTwo(p, q);
    NamedPair(a, x);
    NamedPair(b, y);
  }

  // ---------------------------------------------------------------------
  // Decoding: `decodeURIComponent` (section 19.2.6.2 of ECMA-262, 2024 edition), which
  // fails (throws URIError) on a malformed escape or an invalid UTF-8
  // sequence.
  // ---------------------------------------------------------------------

  function HexValue(c: char): Option<int> {
    if '0' <= c <= '9' then Some(c as int - '0' as int)
    else if 'A' <= c <= 'F' then Some(c as int - 'A' as int + 10)
    else if 'a' <= c <= 'f' then Some(c as int - 'a' as int + 10)
    else None
  }

  /** The byte of a `%XX` escape at the start of `s`. */
  function EscapedByte(s: string): Option<int> {
    if |s| < 3 || s[0] != '%' then None
    else match (HexValue(s[1]), HexValue(s[2]))
      case (Some(h), Some(l)) => Some(16 * h + l)
      case _ => None
  }

  /** The `k` bytes of `k` escapes at the start of `s`. */
  function EscapedBytes(s: string, k: nat): Option<seq<int>>
    decreases k
  {
    if k == 0 then Some([])
    else match EscapedByte(s)
      case None => None
      case Some(b) =>
        if |s| < 3 then None
        else match EscapedBytes(s[3..], k - 1)
          case None => None
          case Some(bs) => Some([b] + bs)
  }

  predicate IsContinuation(b: int) {
    0x80 <= b < 0xC0
  }

  /** How many bytes a sequence led by `b` has (0 when `b` cannot lead). */
  function SequenceLength(b: int): nat {
    if b < 0x80 then 1
    else if 0xC0 <= b < 0xE0 then 2
    else if 0xE0 <= b < 0xF0 then 3
    else if 0xF0 <= b < 0xF8 then 4
    else 0
  }

  /** The scalar value a complete UTF-8 sequence encodes, if it is valid:
      the shortest form, not a surrogate, at most U+10FFFF. */
  function Utf8Decode(bs: seq<int>): Option<char> {
    if |bs| == 1 && 0 <= bs[0] < 0x80 then Some(bs[0] as char)
    else if |bs| == 2 && 0xC0 <= bs[0] < 0xE0 && IsContinuation(bs[1]) then
      var n := (bs[0] - 0xC0) * 64 + (bs[1] - 0x80);
      if 0x80 <= n then Some(n as char) else None
    else if |bs| == 3 && 0xE0 <= bs[0] < 0xF0 && IsContinuation(bs[1]) && IsContinuation(bs[2]) then
      var n := (bs[0] - 0xE0) * 4096 + (bs[1] - 0x80) * 64 + (bs[2] - 0x80);
      if 0x800 <= n && !(0xD800 <= n < 0xE000) then Some(n as char) else None
    else if |bs| == 4 && 0xF0 <= bs[0] < 0xF8 && IsContinuation(bs[1]) && IsContinuation(bs[2]) && IsContinuation(bs[3]) then
      var n := (bs[0] - 0xF0) * 262144 + (bs[1] - 0x80) * 4096 + (bs[2] - 0x80) * 64 + (bs[3] - 0x80);
      if 0x10000 <= n < 0x110000 then Some(n as char) else None
    else None
  }

  function Prepend(c: char, rest: Option<string>): Option<string> {
    match rest
    case None => None
    case Some(r) => Some([c] + r)
  }

  /** `decodeURIComponent(s)`; `None` where it throws. */
  function DecodeComponent(s: string): Option<string>
    decreases |s|
  {
    if s == [] then Some([])
    else if s[0] != '%' then Prepend(s[0], DecodeComponent(s[1..]))
    else match EscapedByte(s)
      case None => None
      case Some(b) =>
        var k := SequenceLength(b);
        if k == 0 || |s| < 3 * k then None
        else match EscapedBytes(s, k)
          case None => None
          case Some(bs) =>
            match Utf8Decode(bs)
            case None => None
            case Some(c) => Prepend(c, DecodeComponent(s[3 * k..]))
  }

  lemma {:induction false} HexRoundTrip(n: int)
    requires 0 <= n < 16
    ensures HexValue(HexDigit(n)) == Some(n)
  {
  }

  lemma {:induction false} EscapedByteRoundTrip(b: int, rest: string)
    requires 0 <= b < 256
    ensures EscapedByte(['%', HexDigit(b / 16), HexDigit(b % 16)] + rest) == Some(b)
  {
    HexRoundTrip(b / 16);
    HexRoundTrip(b % 16);
  }

  lemma {:induction false} EscapedBytesRoundTrip(bs: seq<int>, rest: string)
    requires forall i :: 0 <= i < |bs| ==> 0 <= bs[i] < 256
    ensures |Escape(bs) + rest| >= 3 * |bs|
    ensures EscapedBytes(Escape(bs) + rest, |bs|) == Some(bs)
    ensures (Escape(bs) + rest)[3 * |bs|..] == rest
    decreases |bs|
  {
    if bs != [] {
      var more := bs[1..];
      var s := Escape(bs) + rest;
      EscapeHead(bs, rest);
      EscapedBytesRoundTrip(more, rest);
      EscapedBytesStep(s, |bs|, bs[0], more);
      assert [bs[0]] + more == bs;
    }
  }

  /** The first escape of `Escape(bs)` reads back as the first byte. */
  lemma {:induction false} EscapeHead(bs: seq<int>, rest: string)
    requires bs != [] && forall i :: 0 <= i < |bs| ==> 0 <= bs[i] < 256
    ensures |Escape(bs) + rest| >= 3
    ensures EscapedByte(Escape(bs) + rest) == Some(bs[0])
    ensures (Escape(bs) + rest)[3..] == Escape(bs[1..]) + rest
  {
    var tail := Escape(bs[1..]) + rest;
    var head := ['%', HexDigit(bs[0] / 16), HexDigit(bs[0] % 16)];
    assert Escape(bs) + rest == head + tail;
    EscapedByteRoundTrip(bs[0], tail);
  }

  /** One escape read, then the rest. */
  lemma {:induction false} EscapedBytesStep(s: string, k: nat, b: int, bs: seq<int>)
    requires k > 0 && |s| >= 3 && EscapedByte(s) == Some(b)
    requires EscapedBytes(s[3..], k - 1) == Some(bs)
    ensures EscapedBytes(s, k) == Some([b] + bs)
  {
  }

  lemma {:induction false} Utf8RoundTrip2(c: char)
    requires 0x80 <= c as int < 0x800
    ensures Utf8Decode(Utf8(c)) == Some(c)
  {
    var n := c as int;
    assert (n / 64) * 64 + n % 64 == n;
  }

  lemma {:induction false} Utf8RoundTrip3(c: char)
    requires 0x800 <= c as int < 0x10000
    ensures Utf8Decode(Utf8(c)) == Some(c)
  {
    var n := c as int;
    assert (n / 64) * 64 + n % 64 == n;
    assert (n / 4096) * 64 + (n / 64) % 64 == n / 64;
  }

  lemma {:induction false} Utf8RoundTrip4(c: char)
    requires 0x10000 <= c as int
    ensures Utf8Decode(Utf8(c)) == Some(c)
  {
    var n := c as int;
    assert (n / 64) * 64 + n % 64 == n;
    assert (n / 4096) * 64 + (n / 64) % 64 == n / 64;
    assert (n / 262144) * 64 + (n / 4096) % 64 == n / 4096;
  }

  /** Decoding undoes the UTF-8 encoding of every scalar value. */
  lemma {:induction false} Utf8RoundTrip(c: char)
    ensures Utf8Decode(Utf8(c)) == Some(c)
    ensures SequenceLength(Utf8(c)[0]) == |Utf8(c)|
  {
    var n := c as int;
    if n < 0x80 {
    } else if n < 0x800 {
      Utf8RoundTrip2(c);
    } else if n < 0x10000 {
      Utf8RoundTrip3(c);
    } else {
      Utf8RoundTrip4(c);
    }
  }

  lemma {:induction false} DecodeEncodedChar(c: char, rest: string)
    ensures DecodeComponent(EncodeChar(c) + rest) == Prepend(c, DecodeComponent(rest))
  {
    if IsUnreserved(c) {
      assert (EncodeChar(c) + rest)[1..] == rest;
    } else {
      var bs := Utf8(c);
      var s := Escape(bs) + rest;
      Utf8RoundTrip(c);
      EscapedBytesRoundTrip(bs, rest);
      assert s[0] == '%';
      EscapedByteRoundTrip(bs[0], s[3..]);
      assert s == ['%', HexDigit(bs[0] / 16), HexDigit(bs[0] % 16)] + s[3..];
    }
  }

  /** Decoding an encoded component gives the text back. */
  lemma {:induction false} DecodeEncode(s: string)
    ensures DecodeComponent(EncodeComponent(s)) == Some(s)
    decreases |s|
  {
    if s != [] {
      DecodeEncodedChar(s[0], EncodeComponent(s[1..]));
      DecodeEncode(s[1..]);
      assert s == [s[0]] + s[1..];
    }
  }
}
