/**
 Base64 with the URL-safe alphabet (RFC 4648 section 5), as the token and cursor
 codecs use it: Python's encoder, its lenient decoder, and the padding that is
 stripped from a segment and restored before decoding.
 */
module Base64Url {
  import opened Common

  type byte = x: int | 0 <= x < 256

  type sextet = x: int | 0 <= x < 64

  // ---------------------------------------------------------------- alphabet

  function Letter(v: sextet): char {
    if v < 26 then ('A' as int + v) as char
    else if v < 52 then ('a' as int + (v - 26)) as char
    else if v < 62 then ('0' as int + (v - 52)) as char
    else if v == 62 then '-'
    else '_'
  }

  /** The decoder also takes the standard alphabet's two letters; None for any other character. */
  function Value(c: char): Option<sextet> {
    if 'A' <= c <= 'Z' then Some(c as int - 'A' as int)
    else if 'a' <= c <= 'z' then Some(c as int - 'a' as int + 26)
    else if '0' <= c <= '9' then Some(c as int - '0' as int + 52)
    else if c == '-' || c == '+' then Some(62)
    else if c == '_' || c == '/' then Some(63)
    else None
  }

  lemma ValueOfLetter(v: sextet)
    ensures Value(Letter(v)) == Some(v) && Letter(v) != '='
  {
  }

  // ---------------------------------------------------------------- encoder

  /** The letters of one group of up to three bytes, without padding. */
  function Group(b: seq<byte>): string
    requires 1 <= |b| <= 3
  {
    var b1 := if |b| > 1 then b[1] else 0;
    var b2 := if |b| > 2 then b[2] else 0;
    [Letter(b[0] / 4), Letter(b[0] % 4 * 16 + b1 / 16)]
    + (if |b| > 1 then [Letter(b1 % 16 * 4 + b2 / 64)] else [])
    + (if |b| > 2 then [Letter(b2 % 64)] else [])
  }

  function Pads(n: nat): string {
    seq(n, _ => '=')
  }

  /** `base64.urlsafe_b64encode` */
  function Encode(b: seq<byte>): string {
    if b == [] then ""
    else if |b| <= 3 then Group(b) + Pads(3 - |b|)
    else Group(b[..3]) + Encode(b[3..])
  }

  function StripPads(s: string): string {
    if s != "" && s[|s| - 1] == '=' then StripPads(s[..|s| - 1]) else s
  }

  /** `_encode_base64url_segment` */
  function EncodeSegment(b: seq<byte>): string {
    StripPads(Encode(b))
  }

  // ---------------------------------------------------------------- decoder

  /** Bytes so far, letters of the open group read, its bits not yet in a byte, pads seen in a row. */
  datatype Decoder = Decoder(out: seq<byte>, quad: nat, left: nat, pads: nat) {
    ghost predicate Valid() {
      quad < 4 && left < 64 && (quad == 2 ==> left < 16) && (quad == 3 ==> left < 4)
    }

    function Take(v: sextet): Decoder
      requires Valid()
    {
      match quad
      case 0 => Decoder(out, 1, v, 0)
      case 1 => Decoder(out + [left * 4 + v / 16], 2, v % 16, 0)
      case 2 => Decoder(out + [left * 16 + v / 4], 3, v % 4, 0)
      case 3 => Decoder(out + [left * 64 + v], 0, 0, 0)
    }
  }

  /** The decoder's loop: other characters are skipped, and enough padding ends it. */
  function Feed(d: Decoder, s: string): Option<seq<byte>>
    requires d.Valid()
    decreases |s|
  {
    if s == "" then (if d.quad == 0 then Some(d.out) else None)
    else if s[0] == '=' then
      if d.quad >= 2 && d.quad + d.pads + 1 >= 4 then Some(d.out)
      else Feed(if d.quad >= 2 then d.(pads := d.pads + 1) else d, s[1..])
    else match Value(s[0])
      case None => Feed(d, s[1..])
      case Some(v) => Feed(d.Take(v), s[1..])
  }

  predicate IsAscii(s: string) {
    forall i :: 0 <= i < |s| ==> s[i] < '\U{80}'
  }

  /** `base64.urlsafe_b64decode`; None where it raises. */
  function Decode(s: string): Option<seq<byte>> {
    if IsAscii(s) then Feed(Decoder([], 0, 0, 0), s) else None
  }

  /** `-len % 4` pad characters, with Python's remainder. */
  function Repad(s: string): string {
    s + Pads((4 - |s| % 4) % 4)
  }

  /** `_decode_base64url_segment` */
  function DecodeSegment(s: string): Option<seq<byte>> {
    Decode(Repad(s))
  }

  // ---------------------------------------------------------------- letters of a group

  lemma {:induction false} FeedLetter(d: Decoder, v: sextet, rest: string)
    requires d.Valid()
    ensures Feed(d, [Letter(v)] + rest) == Feed(d.Take(v), rest)
  {
    ValueOfLetter(v);
    assert ([Letter(v)] + rest)[1..] == rest;
  }

  /** The sextets of three bytes put together again. */
  lemma SextetsRejoin(b0: byte, b1: byte, b2: byte)
    ensures b0 / 4 * 4 + (b0 % 4 * 16 + b1 / 16) / 16 == b0
    ensures (b0 % 4 * 16 + b1 / 16) % 16 * 16 + (b1 % 16 * 4 + b2 / 64) / 4 == b1
    ensures (b1 % 16 * 4 + b2 / 64) % 4 * 64 + b2 % 64 == b2
  {
  }

  /** Two letters leave one byte, and the next byte's upper half open. */
  lemma {:induction false} FeedTwo(d: Decoder, b0: byte, b1: byte, rest: string)
    requires d.Valid() && d.quad == 0
    ensures Feed(d, [Letter(b0 / 4), Letter(b0 % 4 * 16 + b1 / 16)] + rest) == Feed(Decoder(d.out + [b0], 2, b1 / 16, 0), rest)
  {
    var v0, v1 := b0 / 4, b0 % 4 * 16 + b1 / 16;
    SextetsRejoin(b0, b1, 0);
    assert [Letter(v0), Letter(v1)] + rest == [Letter(v0)] + ([Letter(v1)] + rest);
    FeedLetter(d, v0, [Letter(v1)] + rest);
    FeedLetter(d.Take(v0), v1, rest);
    assert d.Take(v0).Take(v1) == Decoder(d.out + [b0], 2, b1 / 16, 0);
  }

  /** A third letter leaves a second byte. */
  lemma {:induction false} FeedThird(out: seq<byte>, b1: byte, b2: byte, rest: string)
    ensures Feed(Decoder(out, 2, b1 / 16, 0), [Letter(b1 % 16 * 4 + b2 / 64)] + rest)
            == Feed(Decoder(out + [b1], 3, b2 / 64, 0), rest)
  {
    SextetsRejoin(0, b1, b2);
    FeedLetter(Decoder(out, 2, b1 / 16, 0), b1 % 16 * 4 + b2 / 64, rest);
  }

  /** A whole group gives its three bytes back. */
  lemma {:induction false} FeedWhole(d: Decoder, b: seq<byte>, rest: string)
    requires d.Valid() && d.quad == 0 && |b| == 3
    ensures Feed(d, Group(b) + rest) == Feed(Decoder(d.out + b, 0, 0, 0), rest)
  {
    var l2, l3 := Letter(b[1] % 16 * 4 + b[2] / 64), Letter(b[2] % 64);
    GroupOfThree(b, rest);
    FeedTwo(d, b[0], b[1], [l2] + ([l3] + rest));
    FeedThird(d.out + [b[0]], b[1], b[2], [l3] + rest);
    FeedFourth(d.out + [b[0]] + [b[1]], b[2], rest);
    assert d.out + [b[0]] + [b[1]] + [b[2]] == d.out + b;
  }

  lemma {:induction false} FeedFourth(out: seq<byte>, b2: byte, rest: string)
    ensures Feed(Decoder(out, 3, b2 / 64, 0), [Letter(b2 % 64)] + rest) == Feed(Decoder(out + [b2], 0, 0, 0), rest)
  {
    SextetsRejoin(0, 0, b2);
    FeedLetter(Decoder(out, 3, b2 / 64, 0), b2 % 64, rest);
  }

  lemma {:induction false} GroupOfThree(b: seq<byte>, rest: string)
    requires |b| == 3
    ensures Group(b) + rest
            == [Letter(b[0] / 4), Letter(b[0] % 4 * 16 + b[1] / 16)]
               + ([Letter(b[1] % 16 * 4 + b[2] / 64)] + ([Letter(b[2] % 64)] + rest))
  {
  }

  /** So does a short last group with its padding. */
  lemma {:induction false} FeedShort(d: Decoder, b: seq<byte>)
    requires d.Valid() && d.quad == 0 && 1 <= |b| <= 2
    ensures Feed(d, Group(b) + Pads(3 - |b|)) == Some(d.out + b)
  {
    if |b| == 1 {
      assert Group(b) + Pads(2) == [Letter(b[0] / 4), Letter(b[0] % 4 * 16 + 0 / 16)] + "==";
      FeedTwo(d, b[0], 0, "==");
      assert "=="[1..] == "=";
      assert d.out + [b[0]] == d.out + b;
    } else {
      var r2 := [Letter(b[1] % 16 * 4 + 0 / 64)] + "=";
      assert Group(b) + Pads(1) == [Letter(b[0] / 4), Letter(b[0] % 4 * 16 + b[1] / 16)] + r2;
      FeedTwo(d, b[0], b[1], r2);
      FeedThird(d.out + [b[0]], b[1], 0, "=");
      assert d.out + [b[0]] + [b[1]] == d.out + b;
    }
  }

  lemma {:induction false} FeedEncoded(d: Decoder, b: seq<byte>)
    requires d.Valid() && d.quad == 0
    ensures Feed(d, Encode(b)) == Some(d.out + b)
    decreases |b|
  {
    if b == [] {
      assert d.out + b == d.out;
    } else if |b| == 3 {
      FeedWhole(d, b, "");
      assert Group(b) + Pads(0) == Group(b) + "";
    } else if |b| < 3 {
      FeedShort(d, b);
    } else {
      var next := Decoder(d.out + b[..3], 0, 0, 0);
      FeedWhole(d, b[..3], Encode(b[3..]));
      FeedEncoded(next, b[3..]);
      assert d.out + b[..3] + b[3..] == d.out + b;
    }
  }

  // ---------------------------------------------------------------- shape of encoded text

  /** A letter of the URL-safe alphabet. */
  predicate IsUrlSafe(c: char) {
    'A' <= c <= 'Z' || 'a' <= c <= 'z' || '0' <= c <= '9' || c == '-' || c == '_'
  }

  predicate AllUrlSafe(s: string) {
    forall i :: 0 <= i < |s| ==> IsUrlSafe(s[i])
  }

  /** How many pads end the encoding of `n` bytes. */
  function PadCount(n: nat): nat {
    (3 - n % 3) % 3
  }

  /** The encoding without its padding. */
  function Letters(b: seq<byte>): string {
    if b == [] then "" else if |b| <= 3 then Group(b) else Group(b[..3]) + Letters(b[3..])
  }

  /** How many letters `n` bytes take. */
  function LetterCount(n: nat): nat {
    (4 * n + 2) / 3
  }

  lemma CountsStep(n: nat)
    requires n >= 3
    ensures PadCount(n) == PadCount(n - 3)
    ensures LetterCount(n) == LetterCount(n - 3) + 4
  {
  }

  lemma {:induction false} Regroup<T>(a: seq<T>, b: seq<T>, c: seq<T>)
    ensures (a + b) + c == a + (b + c)
  {
  }

  lemma {:induction false} EncodeIsLettersAndPads(b: seq<byte>)
    ensures Encode(b) == Letters(b) + Pads(PadCount(|b|))
    decreases |b|
  {
    if b == [] {
    } else if |b| > 3 {
      CountsStep(|b|);
      EncodeIsLettersAndPads(b[3..]);
      Regroup(Group(b[..3]), Letters(b[3..]), Pads(PadCount(|b|)));
    }
  }

  lemma {:induction false} GroupShape(b: seq<byte>)
    requires 1 <= |b| <= 3
    ensures |Group(b)| == LetterCount(|b|) && AllUrlSafe(Group(b))
  {
  }

  lemma {:induction false} SafeAppend(a: string, b: string)
    requires AllUrlSafe(a) && AllUrlSafe(b)
    ensures AllUrlSafe(a + b)
  {
  }

  /** Letters of the URL-safe alphabet only, as many as RFC 4648 says. */
  lemma {:induction false} LettersShape(b: seq<byte>)
    ensures |Letters(b)| == LetterCount(|b|)
    ensures AllUrlSafe(Letters(b))
    decreases |b|
  {
    if b == [] {
    } else if |b| <= 3 {
      GroupShape(b);
    } else {
      CountsStep(|b|);
      GroupShape(b[..3]);
      LettersShape(b[3..]);
      SafeAppend(Group(b[..3]), Letters(b[3..]));
    }
  }

  lemma PadArithmetic(n: nat)
    ensures (4 - LetterCount(n) % 4) % 4 == PadCount(n)
  {
    var q, r := n / 3, n % 3;
    assert (4 * n + 2) / 3 == 4 * q + (4 * r + 2) / 3;
  }

  lemma {:induction false} StripPadsOf(s: string, n: nat)
    requires s != "" ==> s[|s| - 1] != '='
    ensures StripPads(s + Pads(n)) == s
  {
    if n == 0 {
      assert s + Pads(0) == s;
    } else {
      assert (s + Pads(n))[..|s| + n - 1] == s + Pads(n - 1);
      StripPadsOf(s, n - 1);
    }
  }

  lemma {:induction false} NoPadAtEnd(b: seq<byte>)
    ensures var l := Letters(b); |l| == LetterCount(|b|) && (l != "" ==> l[|l| - 1] != '=')
  {
    LettersShape(b);
    var l := Letters(b);
    if l != "" {
      assert IsUrlSafe(l[|l| - 1]);
    }
  }

  /** Stripping the padding and restoring it from the length is the identity on encoded text. */
  lemma {:induction false} RepadUndoesStrip(b: seq<byte>)
    ensures EncodeSegment(b) == Letters(b)
    ensures Repad(EncodeSegment(b)) == Encode(b)
  {
    EncodeIsLettersAndPads(b);
    NoPadAtEnd(b);
    PadArithmetic(|b|);
    StripPadsOf(Letters(b), PadCount(|b|));
  }

  lemma {:induction false} EncodedIsAscii(b: seq<byte>)
    ensures IsAscii(Encode(b))
  {
    EncodeIsLettersAndPads(b);
    LettersShape(b);
    forall i | 0 <= i < |Letters(b)| ensures Letters(b)[i] < '\U{80}' {
      assert IsUrlSafe(Letters(b)[i]);
    }
  }

  // ---------------------------------------------------------------- round trips

  /** Decoding undoes encoding, for every byte string. */
  lemma {:induction false} DecodeUndoesEncode(b: seq<byte>)
    ensures Decode(Encode(b)) == Some(b)
  {
    EncodedIsAscii(b);
    FeedEncoded(Decoder([], 0, 0, 0), b);
    assert [] + b == b;
  }

  /** And it does so when the padding is stripped in between. */
  lemma {:induction false} SegmentRoundTrip(b: seq<byte>)
    ensures DecodeSegment(EncodeSegment(b)) == Some(b)
  {
    RepadUndoesStrip(b);
    DecodeUndoesEncode(b);
  }

  // ---------------------------------------------------------------- known texts

  /** The test vectors of RFC 4648 section 10, and the two letters that make the alphabet URL-safe. */
  lemma KnownTexts()
    ensures Encode([102]) == "Zg=="
    ensures Encode([102, 111]) == "Zm8="
    ensures Encode([102, 111, 111]) == "Zm9v"
    ensures Encode([102, 111, 111, 98]) == "Zm9vYg=="
    ensures Encode([251, 255]) == "-_8="
  {
    assert [102, 111, 111, 98][3..] == [98] && [102, 111, 111, 98][..3] == [102, 111, 111];
    assert Group([102, 111, 111]) == "Zm9v";
    assert Encode([98]) == "Yg==";
  }

  /** The decoder reads the standard alphabet's letters too, and passes over what is no letter. */
  lemma {:induction false} DecoderIsLenient(d: Decoder, c: char, rest: string)
    requires d.Valid() && c != '='
    requires !('A' <= c <= 'Z') && !('a' <= c <= 'z') && !('0' <= c <= '9') && c !in ['-', '_', '+', '/']
    ensures Feed(d, "+" + rest) == Feed(d, "-" + rest) && Feed(d, "/" + rest) == Feed(d, "_" + rest)
    ensures Feed(d, [c] + rest) == Feed(d, rest)
  {
    assert ("+" + rest)[1..] == rest == ("-" + rest)[1..];
    assert ("/" + rest)[1..] == rest == ("_" + rest)[1..];
    assert ([c] + rest)[1..] == rest;
  }
}
