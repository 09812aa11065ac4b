/**
 * `encodeURIComponent`, which the share links wrap around the CV address,
 * and its inverse `decodeURIComponent`. A character outside the unreserved
 * set is written as the UTF-8 bytes of its code point, each as `%XX` with
 * upper-case hexadecimal digits (section 2.1 of RFC 3986; UTF-8 as in
 * section 3 of RFC 3629).
 *
 * Dafny characters are Unicode scalar values, so the lone surrogates on
 * which `encodeURIComponent` throws cannot occur here.
 */
module Uri {
  import opened Js

  /** The characters `encodeURIComponent` leaves as they are. */
  predicate Unreserved(c: char) {
    ('A' <= c <= 'Z') || ('a' <= c <= 'z') || ('0' <= c <= '9') ||
    c == '-' || c == '_' || c == '.' || c == '!' || c == '~' || c == '*' || c == '\'' || c == '(' || c == ')'
  }

  predicate IsByte(b: int) { 0 <= b < 256 }

  predicate AreBytes(bs: seq<int>) { forall k :: 0 <= k < |bs| ==> IsByte(bs[k]) }

  /** The UTF-8 encoding of one code point: one to four bytes. */
  function Utf8(c: char): (bs: seq<int>)
    ensures 1 <= |bs| <= 4 && AreBytes(bs)
    ensures |bs| == 1 <==> c as int < 0x80
  {
    var k := c as int;
    if k < 0x80 then [k]
    else if k < 0x800 then [0xC0 + k / 64, 0x80 + k % 64]
    else if k < 0x10000 then [0xE0 + k / 4096, 0x80 + (k / 64) % 64, 0x80 + k % 64]
    else [0xF0 + k / 262144, 0x80 + (k / 4096) % 64, 0x80 + (k / 64) % 64, 0x80 + k % 64]
  }

  function HexDigit(d: int): (c: char)
    requires 0 <= d < 16
  {
    "0123456789ABCDEF"[d]
  }

  predicate IsHex(c: char) { ('0' <= c <= '9') || ('A' <= c <= 'F') || ('a' <= c <= 'f') }

  function HexValue(c: char): (d: int)
    requires IsHex(c)
    ensures 0 <= d < 16
  {
    if c <= '9' then c as int - '0' as int
    else if c <= 'F' then c as int - 'A' as int + 10
    else c as int - 'a' as int + 10
  }

  /** `%XX` for one byte. */
  function Escape(b: int): (s: string)
    requires IsByte(b)
    ensures |s| == 3 && s[0] == '%'
  {
    ['%', HexDigit(b / 16), HexDigit(b % 16)]
  }

  function EscapeAll(bs: seq<int>): (s: string)
    requires AreBytes(bs)
    ensures |s| == 3 * |bs|
  {
    if bs == [] then "" else Escape(bs[0]) + EscapeAll(bs[1..])
  }

  function EncodeChar(c: char): string {
    if Unreserved(c) then [c] else EscapeAll(Utf8(c))
  }

  /** `encodeURIComponent(s)` */
  function Encode(s: string): string {
    if s == [] then "" else EncodeChar(s[0]) + Encode(s[1..])
  }

  /** A character `encodeURIComponent` can produce: an unreserved character or `%` (the hex digits of an escape are unreserved). */
  predicate EncodedChar(c: char) { Unreserved(c) || c == '%' }

  /** The byte written as `%XX` at index i of t, if there is one. */
  function ByteAt(t: string, i: nat): (b: Option<int>)
    ensures b.Some? ==> i + 3 <= |t| && IsByte(b.value)
  {
    if i + 3 <= |t| && t[i] == '%' && IsHex(t[i + 1]) && IsHex(t[i + 2])
    then Some(HexValue(t[i + 1]) * 16 + HexValue(t[i + 2]))
    else None
  }

  /** The length of the UTF-8 sequence a leading byte announces, 0 for a byte that cannot lead one. */
  function SequenceLength(b: int): nat {
    if 0 <= b < 0x80 then 1
    else if 0xC0 <= b < 0xE0 then 2
    else if 0xE0 <= b < 0xF0 then 3
    else if 0xF0 <= b < 0xF8 then 4
    else 0
  }

  /** n consecutive `%XX` escapes from index i. */
  function ReadBytes(t: string, i: nat, n: nat): (bs: Option<seq<int>>)
    ensures bs.Some? ==> |bs.value| == n && AreBytes(bs.value) && (n > 0 ==> i + 3 * n <= |t|)
    decreases n
  {
    if n == 0 then Some([])
    else match ByteAt(t, i)
      case None => None
      case Some(b) =>
        match ReadBytes(t, i + 3, n - 1)
        case None => None
        case Some(rest) => Some([b] + rest)
  }

  predicate Continuations(bs: seq<int>) { forall k :: 1 <= k < |bs| ==> 0x80 <= bs[k] < 0xC0 }

  /** The code point a well-formed UTF-8 sequence of one to four bytes stands for. */
  function CodePoint(bs: seq<int>): int
    requires 1 <= |bs| <= 4
  {
    if |bs| == 1 then bs[0]
    else if |bs| == 2 then (bs[0] - 0xC0) * 64 + (bs[1] - 0x80)
    else if |bs| == 3 then (bs[0] - 0xE0) * 4096 + (bs[1] - 0x80) * 64 + (bs[2] - 0x80)
    else (bs[0] - 0xF0) * 262144 + (bs[1] - 0x80) * 4096 + (bs[2] - 0x80) * 64 + (bs[3] - 0x80)
  }

  predicate ScalarValue(k: int) { (0 <= k < 0xD800) || (0xE000 <= k < 0x11_0000) }

  /**
   * `decodeURIComponent(t)`: every `%XX` run that forms one shortest UTF-8
   * sequence of a scalar value becomes that character; any other `%` is a
   * URIError (None).
   */
  function Decode(t: string): (r: Option<string>)
    decreases |t|
  {
    if t == [] then Some("")
    else if t[0] != '%' then
      match Decode(t[1..])
      case None => None
      case Some(rest) => Some([t[0]] + rest)
    else
      match ByteAt(t, 0)
      case None => None
      case Some(b0) =>
        var n := SequenceLength(b0);
        if n == 0 then None
        else match ReadBytes(t, 0, n)
          case None => None
          case Some(bs) =>
            var k := CodePoint(bs);
            if !Continuations(bs) || !ScalarValue(k) || |Utf8(k as char)| != n then None
            else match Decode(t[3 * n..])
              case None => None
              case Some(rest) => Some([k as char] + rest)
  }

  lemma HexRoundTrip(b: int)
    requires IsByte(b)
    ensures HexValue(HexDigit(b / 16)) * 16 + HexValue(HexDigit(b % 16)) == b
  {
    HexDigitValue(b / 16);
    HexDigitValue(b % 16);
  }

  lemma HexDigitValue(d: int)
    requires 0 <= d < 16
    ensures IsHex(HexDigit(d)) && HexValue(HexDigit(d)) == d
  {
  }

  /** The leading byte announces the sequence's length and the others are continuation bytes. */
  lemma Utf8WellFormed(c: char)
    ensures SequenceLength(Utf8(c)[0]) == |Utf8(c)|
    ensures Continuations(Utf8(c))
    ensures CodePoint(Utf8(c)) == c as int
  {
    var k := c as int;
    if k < 0x80 {
    } else if k < 0x800 {
      Utf8Two(k);
    } else if k < 0x10000 {
      Utf8Three(k);
    } else {
      Utf8Four(k);
    }
  }

  lemma Utf8Two(k: int)
    requires 0x80 <= k < 0x800
    ensures var a, b := k / 64, k % 64; 2 <= a < 32 && 0 <= b < 64 && a * 64 + b == k
  {
  }

  lemma Utf8Three(k: int)
    requires 0x800 <= k < 0x10000
    ensures var a, b, d := k / 4096, (k / 64) % 64, k % 64;
      0 <= a < 16 && 0 <= b < 64 && 0 <= d < 64 && a * 4096 + b * 64 + d == k
  {
    var q := k / 64;
    assert q / 64 == k / 4096;
  }

  lemma Utf8Four(k: int)
    requires 0x10000 <= k < 0x11_0000
    ensures var a, b, d, e := k / 262144, (k / 4096) % 64, (k / 64) % 64, k % 64;
      0 <= a < 8 && 0 <= b < 64 && 0 <= d < 64 && 0 <= e < 64 && a * 262144 + b * 4096 + d * 64 + e == k
  {
    var q := k / 64;
    var q2 := q / 64;
    assert q2 == k / 4096;
    assert q2 / 64 == k / 262144;
  }

  lemma EscapeHead(b: int, tail: string)
    requires IsByte(b)
    ensures ByteAt(Escape(b) + tail, 0) == Some(b)
  {
    var t := Escape(b) + tail;
    var hi, lo := HexDigit(b / 16), HexDigit(b % 16);
    assert t[0] == '%' && t[1] == hi && t[2] == lo;
    HexDigitValue(b / 16);
    HexDigitValue(b % 16);
  }


  lemma {:induction false} ReadEscaped(bs: seq<int>, rest: string)
    requires AreBytes(bs)
    ensures ReadBytes(EscapeAll(bs) + rest, 0, |bs|) == Some(bs)
  {
    if bs != [] {
      var head, tail := Escape(bs[0]), EscapeAll(bs[1..]) + rest;
      assert EscapeAll(bs) + rest == head + tail;
      EscapeHead(bs[0], tail);
      ReadEscaped(bs[1..], rest);
      ReadShift(head, tail, |bs| - 1);
      assert [bs[0]] + bs[1..] == bs;
    }
  }

  /** Reading escapes past a three-character prefix is reading the text after it. */
  lemma {:induction false} ReadShift(p: string, t: string, n: nat)
    requires |p| == 3
    ensures ReadBytes(p + t, 3, n) == ReadBytes(t, 0, n)
    decreases n
  {
    if n > 0 {
      ReadShiftAt(p, t, 0, n);
    }
  }

  lemma {:induction false} ReadShiftAt(p: string, t: string, i: nat, n: nat)
    requires |p| == 3
    ensures ReadBytes(p + t, i + 3, n) == ReadBytes(t, i, n)
    decreases n
  {
    assert ByteAt(p + t, i + 3) == ByteAt(t, i) by {
      if i + 3 <= |t| {
        assert (p + t)[i + 3] == t[i] && (p + t)[i + 4] == t[i + 1] && (p + t)[i + 5] == t[i + 2];
      }
    }
    if n > 0 {
      ReadShiftAt(p, t, i + 3, n - 1);
    }
  }

  /** Decoding an encoded character followed by more text yields the character, then the rest decoded. */
  lemma DecodeEncodedChar(c: char, rest: string)
    ensures Decode(EncodeChar(c) + rest) ==
      match Decode(rest) case None => None case Some(r) => Some([c] + r)
  {
    var t := EncodeChar(c) + rest;
    if Unreserved(c) {
      assert t[0] == c && t[1..] == rest;
    } else {
      var bs := Utf8(c);
      var n := |bs|;
      ReadEscaped(bs, rest);
      HexRoundTrip(bs[0]);
      assert ByteAt(t, 0) == Some(bs[0]) by {
        assert t[..3] == Escape(bs[0]);
      }
      Utf8WellFormed(c);
      assert (CodePoint(bs) as char) == c;
      assert t[3 * n..] == rest;
    }
  }

  /** `decodeURIComponent(encodeURIComponent(s)) == s` for every string. */
  lemma {:induction false} DecodeEncode(s: string)
    ensures Decode(Encode(s)) == Some(s)
  {
    if s != [] {
      DecodeEncode(s[1..]);
      DecodeEncodedChar(s[0], Encode(s[1..]));
      assert [s[0]] + s[1..] == s;
    }
  }

  /** The encoding uses only unreserved characters and `%`, so it never contains `&`, `=`, `#`, `?`, `/` or a space. */
  lemma {:induction false} EncodeAlphabet(s: string)
    ensures forall k :: 0 <= k < |Encode(s)| ==> EncodedChar(Encode(s)[k])
  {
    if s != [] {
      EncodeAlphabet(s[1..]);
      EscapeAlphabet(Utf8(s[0]));
      var e, r := EncodeChar(s[0]), Encode(s[1..]);
      assert Encode(s) == e + r;
      forall k | 0 <= k < |e + r| ensures EncodedChar((e + r)[k]) {
        if k >= |e| { assert (e + r)[k] == r[k - |e|]; }
      }
    }
  }

  /** The encoding has no `&`, `#` or `=`, so it can stand as one query value. */
  lemma EncodeIsOneValue(s: string)
    ensures forall k :: 0 <= k < |Encode(s)| ==> Encode(s)[k] != '&' && Encode(s)[k] != '#' && Encode(s)[k] != '='
  {
    EncodeAlphabet(s);
  }

  lemma {:induction false} EscapeAlphabet(bs: seq<int>)
    requires AreBytes(bs)
    ensures forall k :: 0 <= k < |EscapeAll(bs)| ==> EncodedChar(EscapeAll(bs)[k])
  {
    if bs != [] {
      EscapeAlphabet(bs[1..]);
      var e, r := Escape(bs[0]), EscapeAll(bs[1..]);
      forall k | 0 <= k < |e + r| ensures EncodedChar((e + r)[k]) {
        if k >= |e| { assert (e + r)[k] == r[k - |e|]; }
      }
    }
  }

  /** Unreserved text is left unchanged. */
  lemma {:induction false} EncodeUnreserved(s: string)
    requires forall k :: 0 <= k < |s| ==> Unreserved(s[k])
    ensures Encode(s) == s
  {
    if s != [] {
      EncodeUnreserved(s[1..]);
      assert [s[0]] + s[1..] == s;
    }
  }

  lemma EncodeExamples()
    ensures Encode("a b") == "a%20b"
    ensures Encode("/") == "%2F"
    ensures Encode(":") == "%3A"
    ensures Encode("é") == "%C3%A9"
  {
    EncodeCharExamples();
    assert "a b"[1..] == " b" && " b"[1..] == "b";
    assert Encode("b") == "b";
    assert Encode(" b") == "%20b";
    assert Encode("a b") == "a" + "%20b";
  }

  lemma EncodeCharExamples()
    ensures EncodeChar(' ') == "%20" && EncodeChar('/') == "%2F" && EncodeChar(':') == "%3A"
    ensures EncodeChar('é') == "%C3%A9"
  {
    EscapeExamples();
    assert Utf8(' ') == [0x20] && Utf8('/') == [0x2F] && Utf8(':') == [0x3A];
    assert Utf8('é') == [0xC3, 0xA9];
  }

  lemma EscapeExamples()
    ensures Escape(0x20) == "%20" && Escape(0x2F) == "%2F" && Escape(0x3A) == "%3A"
    ensures Escape(0xC3) == "%C3" && Escape(0xA9) == "%A9"
  {
  }

}
