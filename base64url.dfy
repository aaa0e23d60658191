/**
 * Base64 with the URL- and filename-safe alphabet and `=` padding (section 5
 * of RFC 4648), as Go's `base64.URLEncoding` encodes and decodes it.
 *
 * The decoder follows Go's non-strict mode: carriage returns and line feeds
 * are skipped wherever they occur, the text must consist of whole four-character
 * quanta, padding may only close the final quantum (`xx==` or `xxx=`), and the
 * unused low bits of a padded quantum are ignored.
 */
module Base64Url {
  import opened Wrappers

  type byte = x: int | 0 <= x < 256

  /** The character that stands for the six-bit value v. */
  function SextetChar(v: int): (c: char)
    requires 0 <= v < 64
    ensures c != '\r' && c != '\n' && c != '='
  {
    if v < 26 then ('A' as int + v) as char
    else if v < 52 then ('a' as int + (v - 26)) as char
    else if v < 62 then ('0' as int + (v - 52)) as char
    else if v == 62 then '-'
    else '_'
  }

  /** The six-bit value of an alphabet character; None for any other character. */
  function CharSextet(c: char): (r: Option<int>)
    ensures r.Some? ==> 0 <= r.value < 64 && SextetChar(r.value) == c
  {
    if 'A' <= c <= 'Z' then Some(c as int - 'A' as int)
    else if 'a' <= c <= 'z' then Some(c as int - 'a' as int + 26)
    else if '0' <= c <= '9' then Some(c as int - '0' as int + 52)
    else if c == '-' then Some(62)
    else if c == '_' then Some(63)
    else None
  }

  predicate InAlphabet(c: char) {
    CharSextet(c).Some?
  }

  lemma SextetRoundTrip(v: int)
    requires 0 <= v < 64
    ensures CharSextet(SextetChar(v)) == Some(v)
  {
  }

  /** Three bytes as four characters. */
  function EncodeGroup(b0: byte, b1: byte, b2: byte): string {
    [SextetChar(b0 / 4), SextetChar((b0 % 4) * 16 + b1 / 16),
     SextetChar((b1 % 16) * 4 + b2 / 64), SextetChar(b2 % 64)]
  }

  /** `base64.URLEncoding.EncodeToString`. */
  function Encode(b: seq<byte>): (s: string)
    decreases |b|
  {
    if |b| == 0 then ""
    else if |b| == 1 then [SextetChar(b[0] / 4), SextetChar((b[0] % 4) * 16), '=', '=']
    else if |b| == 2 then
      [SextetChar(b[0] / 4), SextetChar((b[0] % 4) * 16 + b[1] / 16), SextetChar((b[1] % 16) * 4), '=']
    else EncodeGroup(b[0], b[1], b[2]) + Encode(b[3..])
  }

  /** The input with every carriage return and line feed removed. */
  function StripNewlines(s: string): (r: string)
    ensures |r| <= |s|
    ensures forall i :: 0 <= i < |r| ==> r[i] != '\r' && r[i] != '\n'
    ensures forall i :: 0 <= i < |s| && s[i] != '\r' && s[i] != '\n' ==> s[i] in r
    decreases |s|
  {
    if |s| == 0 then ""
    else if s[0] == '\r' || s[0] == '\n' then StripNewlines(s[1..])
    else [s[0]] + StripNewlines(s[1..])
  }

  /** A quantum of four alphabet characters, with no padding. */
  function DecodeFull(c0: char, c1: char, c2: char, c3: char): Option<seq<byte>> {
    match (CharSextet(c0), CharSextet(c1), CharSextet(c2), CharSextet(c3))
    case (Some(a), Some(b), Some(c), Some(d)) =>
      Some([a * 4 + b / 16, (b % 16) * 16 + c / 4, (c % 4) * 64 + d])
    case _ => None
  }

  /** The last quantum, which may end in `==` or `=`. */
  function DecodeFinal(c0: char, c1: char, c2: char, c3: char): Option<seq<byte>> {
    match (CharSextet(c0), CharSextet(c1))
    case (Some(a), Some(b)) =>
      if c2 == '=' && c3 == '=' then Some([a * 4 + b / 16])
      else if c3 == '=' then
        match CharSextet(c2)
        case Some(c) => Some([a * 4 + b / 16, (b % 16) * 16 + c / 4])
        case None => None
      else DecodeFull(c0, c1, c2, c3)
    case _ => None
  }

  /** Decoding once carriage returns and line feeds are gone. */
  function DecodeQuanta(q: string): Option<seq<byte>>
    decreases |q|
  {
    if |q| == 0 then Some([])
    else if |q| < 4 then None
    else if |q| == 4 then DecodeFinal(q[0], q[1], q[2], q[3])
    else
      match DecodeFull(q[0], q[1], q[2], q[3])
      case None => None
      case Some(g) =>
        match DecodeQuanta(q[4..])
        case None => None
        case Some(rest) => Some(g + rest)
  }

  /** `base64.URLEncoding.DecodeString`: None where Go reports a CorruptInputError. */
  function Decode(s: string): (r: Option<seq<byte>>)
    ensures r.Some? <==> WellPadded(StripNewlines(s))
  {
    DecodeAcceptsWellPadded(StripNewlines(s));
    DecodeQuanta(StripNewlines(s))
  }

  /**
   * An independent description of the accepted texts: whole quanta of
   * alphabet characters, where a `=` may stand only in the last position, or
   * in the last two.
   */
  predicate WellPadded(q: string) {
    && |q| % 4 == 0
    && forall i :: 0 <= i < |q| ==>
         InAlphabet(q[i]) || (q[i] == '=' && (i == |q| - 1 || (i == |q| - 2 && q[|q| - 1] == '=')))
  }

  /** The line-break filter works piecewise: text on either side of a cut is filtered on its own. */
  lemma {:induction false} StripAppend(a: string, b: string)
    ensures StripNewlines(a + b) == StripNewlines(a) + StripNewlines(b)
    decreases |a|
  {
    if |a| == 0 {
      assert a + b == b;
    } else {
      assert (a + b)[0] == a[0];
      assert (a + b)[1..] == a[1..] + b;
      StripAppend(a[1..], b);
    }
  }

  /** A line break is ignored wherever it stands in the text. */
  lemma LineBreakIgnored(a: string, c: char, b: string)
    requires c == '\r' || c == '\n'
    ensures Decode(a + [c] + b) == Decode(a + b)
  {
    assert [c][1..] == "";
    assert StripNewlines([c]) == "";
    StripAppend(a + [c], b);
    StripAppend(a, [c]);
    StripAppend(a, b);
    assert StripNewlines(a + [c] + b) == StripNewlines(a) + StripNewlines(b);
  }

  lemma {:induction false} StripWithoutNewlines(s: string)
    requires forall i :: 0 <= i < |s| ==> s[i] != '\r' && s[i] != '\n'
    ensures StripNewlines(s) == s
    decreases |s|
  {
    if |s| > 0 {
      StripWithoutNewlines(s[1..]);
    }
  }

  lemma {:induction false} EncodingHasNoNewlines(b: seq<byte>)
    ensures forall i :: 0 <= i < |Encode(b)| ==> Encode(b)[i] != '\r' && Encode(b)[i] != '\n'
    decreases |b|
  {
    if |b| > 2 {
      EncodingHasNoNewlines(b[3..]);
      assert Encode(b) == EncodeGroup(b[0], b[1], b[2]) + Encode(b[3..]);
    }
  }

  lemma Split16(h: int, l: int)
    requires 0 <= l < 16
    ensures (h * 16 + l) / 16 == h && (h * 16 + l) % 16 == l
  {
  }

  lemma Split4(h: int, l: int)
    requires 0 <= l < 4
    ensures (h * 4 + l) / 4 == h && (h * 4 + l) % 4 == l
  {
  }

  /** The bit arithmetic of one quantum: the sextets give the bytes back. */
  lemma GroupBytes(b0: byte, b1: byte, b2: byte)
    ensures var a, b, c, d := b0 / 4, (b0 % 4) * 16 + b1 / 16, (b1 % 16) * 4 + b2 / 64, b2 % 64;
      && a * 4 + b / 16 == b0
      && (b % 16) * 16 + c / 4 == b1
      && (c % 4) * 64 + d == b2
  {
    Split16(b0 % 4, b1 / 16);
    Split4(b1 % 16, b2 / 64);
  }

  lemma GroupRoundTrip(b0: byte, b1: byte, b2: byte)
    ensures var g := EncodeGroup(b0, b1, b2);
      DecodeFull(g[0], g[1], g[2], g[3]) == Some([b0, b1, b2])
      && DecodeFinal(g[0], g[1], g[2], g[3]) == Some([b0, b1, b2])
  {
    var a, b, c, d := b0 / 4, (b0 % 4) * 16 + b1 / 16, (b1 % 16) * 4 + b2 / 64, b2 % 64;
    SextetRoundTrip(a);
    SextetRoundTrip(b);
    SextetRoundTrip(c);
    SextetRoundTrip(d);
    GroupBytes(b0, b1, b2);
  }

  lemma OneByteRoundTrip(b: seq<byte>)
    requires |b| == 1
    ensures DecodeQuanta(Encode(b)) == Some(b)
  {
    var a, x := b[0] / 4, (b[0] % 4) * 16;
    var s := Encode(b);
    assert s == [SextetChar(a), SextetChar(x), '=', '='];
    SextetRoundTrip(a);
    SextetRoundTrip(x);
    assert x / 16 == b[0] % 4;
    assert DecodeFinal(s[0], s[1], s[2], s[3]) == Some([a * 4 + x / 16]);
    assert [a * 4 + x / 16] == b;
  }

  /** The final quantum of two bytes, `=`-padded, decodes back to them. */
  lemma TwoBytesFinal(b0: byte, b1: byte)
    ensures DecodeFinal(SextetChar(b0 / 4), SextetChar((b0 % 4) * 16 + b1 / 16), SextetChar((b1 % 16) * 4), '=')
         == Some([b0, b1])
  {
    var a, x, y := b0 / 4, (b0 % 4) * 16 + b1 / 16, (b1 % 16) * 4;
    SextetRoundTrip(a);
    SextetRoundTrip(x);
    SextetRoundTrip(y);
    GroupBytes(b0, b1, 0);
  }

  lemma TwoBytesRoundTrip(b: seq<byte>)
    requires |b| == 2
    ensures DecodeQuanta(Encode(b)) == Some(b)
  {
    var s := Encode(b);
    assert s == [SextetChar(b[0] / 4), SextetChar((b[0] % 4) * 16 + b[1] / 16), SextetChar((b[1] % 16) * 4), '='];
    TwoBytesFinal(b[0], b[1]);
    assert [b[0], b[1]] == b;
  }

  /** A full quantum in front of decodable text decodes to its three bytes in front. */
  lemma DecodeQuantaCons(g: string, x: seq<byte>, rest: string, y: seq<byte>)
    requires |g| == 4
    requires DecodeFull(g[0], g[1], g[2], g[3]) == Some(x) && DecodeFinal(g[0], g[1], g[2], g[3]) == Some(x)
    requires DecodeQuanta(rest) == Some(y)
    ensures DecodeQuanta(g + rest) == Some(x + y)
  {
    var q := g + rest;
    assert q[0] == g[0] && q[1] == g[1] && q[2] == g[2] && q[3] == g[3];
    if |rest| == 0 {
      assert q == g && y == [] && x + y == x;
    } else {
      assert q[4..] == rest;
    }
  }

  lemma LongRoundTripStep(b: seq<byte>)
    requires |b| >= 3
    requires DecodeQuanta(Encode(b[3..])) == Some(b[3..])
    ensures DecodeQuanta(Encode(b)) == Some(b)
  {
    var g := EncodeGroup(b[0], b[1], b[2]);
    assert Encode(b) == g + Encode(b[3..]);
    GroupRoundTrip(b[0], b[1], b[2]);
    DecodeQuantaCons(g, [b[0], b[1], b[2]], Encode(b[3..]), b[3..]);
    assert [b[0], b[1], b[2]] + b[3..] == b;
  }

  lemma {:induction false} DecodeEncodeQuanta(b: seq<byte>)
    ensures DecodeQuanta(Encode(b)) == Some(b)
    decreases |b|
  {
    if |b| == 1 {
      OneByteRoundTrip(b);
    } else if |b| == 2 {
      TwoBytesRoundTrip(b);
    } else if |b| >= 3 {
      DecodeEncodeQuanta(b[3..]);
      LongRoundTripStep(b);
    }
  }

  /** Decoding an encoding gives back the bytes that were encoded. */
  lemma DecodeEncode(b: seq<byte>)
    ensures Decode(Encode(b)) == Some(b)
  {
    EncodingHasNoNewlines(b);
    StripWithoutNewlines(Encode(b));
    DecodeEncodeQuanta(b);
  }

  /** A last quantum is accepted exactly when it is well padded. */
  lemma FinalAcceptsWellPadded(q: string)
    requires |q| == 4
    ensures DecodeFinal(q[0], q[1], q[2], q[3]).Some? <==> WellPadded(q)
  {
    if WellPadded(q) {
      assert InAlphabet(q[0]) && InAlphabet(q[1]);
      assert q[2] == '=' ==> q[3] == '=';
    }
  }

  /** A longer text is well padded exactly when its first quantum is four alphabet characters and the rest is well padded. */
  lemma WellPaddedCons(q: string)
    requires |q| > 4
    ensures WellPadded(q) <==>
      InAlphabet(q[0]) && InAlphabet(q[1]) && InAlphabet(q[2]) && InAlphabet(q[3]) && WellPadded(q[4..])
  {
    var rest := q[4..];
    if InAlphabet(q[0]) && InAlphabet(q[1]) && InAlphabet(q[2]) && InAlphabet(q[3]) && WellPadded(rest) {
      forall i | 0 <= i < |q|
        ensures InAlphabet(q[i]) || (q[i] == '=' && (i == |q| - 1 || (i == |q| - 2 && q[|q| - 1] == '=')))
      {
        if i >= 4 {
          assert q[i] == rest[i - 4];
        }
      }
    }
    if WellPadded(q) {
      assert InAlphabet(q[0]) && InAlphabet(q[1]) && InAlphabet(q[2]) && InAlphabet(q[3]);
      forall i | 0 <= i < |rest|
        ensures InAlphabet(rest[i]) || (rest[i] == '=' && (i == |rest| - 1 || (i == |rest| - 2 && rest[|rest| - 1] == '=')))
      {
        assert rest[i] == q[i + 4];
      }
    }
  }

  /** The decoder accepts a newline-free text exactly when it is well padded. */
  lemma {:induction false} DecodeAcceptsWellPadded(q: string)
    ensures DecodeQuanta(q).Some? <==> WellPadded(q)
    decreases |q|
  {
    if |q| == 4 {
      FinalAcceptsWellPadded(q);
    } else if |q| > 4 {
      DecodeAcceptsWellPadded(q[4..]);
      WellPaddedCons(q);
    }
  }

  /** Go's EncodedLen: four characters for every started group of three bytes. */
  lemma {:induction false} EncodedLength(b: seq<byte>)
    ensures |Encode(b)| == 4 * ((|b| + 2) / 3)
    decreases |b|
  {
    if |b| > 2 {
      EncodedLength(b[3..]);
      assert Encode(b) == EncodeGroup(b[0], b[1], b[2]) + Encode(b[3..]);
    }
  }

  /** Each quantum yields at most three bytes. */
  lemma {:induction false} DecodedLength(q: string)
    requires DecodeQuanta(q).Some?
    ensures 4 * |DecodeQuanta(q).value| <= 3 * |q|
    decreases |q|
  {
    if |q| > 4 {
      DecodedLength(q[4..]);
    }
  }
}
