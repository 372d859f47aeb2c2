/**
 Signed anonymous identity tokens (api/application/services/anon_identity.py):
 minting and verifying. JSON, HMAC-SHA256, UUID parsing and the clock are
 parameters.
 */
module AnonIdentity {
  import opened Common
  import opened Text
  import opened Base64Url

  const TOKEN_VERSION: int := 1
  const FRESHNESS_SECONDS: int := 90 * 24 * 60 * 60
  const SKEW_SECONDS: int := 60

  datatype Claims = Claims(subject: string, issuedAt: int, version: int)

  /** A value of the decoded payload. Python's True and 1.0 equal 1. */
  datatype Field = Missing | Str(s: string) | Int(n: int) | Bool(b: bool) | FloatOne | Other

  datatype Payload = NotJson | NotAnObject | Object(sub: Field, iat: Field, ver: Field)

  datatype Crypto = Crypto(
    serialize: Claims -> seq<byte>,
    parse: seq<byte> -> Payload,
    hmac: (seq<byte>, seq<byte>) -> seq<byte>,
    isUuid4: string -> bool)

  predicate IsDot(c: char) { c == '.' }

  predicate IsOne(f: Field) {
    f == Int(1) || f == Bool(true) || f == FloatOne
  }

  // ---------------------------------------------------------------- operations

  /** An absent or empty subject is replaced by a fresh one. */
  function ChosenSubject(subject: Option<string>, newId: string): string {
    if subject.Some? && subject.value != "" then subject.value else newId
  }

  /** `mint_anonymous_identity_token` */
  function Mint(crypto: Crypto, secret: seq<byte>, now: int, subject: Option<string>, newId: string): string {
    var payload := crypto.serialize(Claims(ChosenSubject(subject, newId), now, TOKEN_VERSION));
    EncodeSegment(payload) + "." + EncodeSegment(crypto.hmac(secret, payload))
  }

  /** What a signed payload says at a given time. */
  function ReadClaims(crypto: Crypto, payload: seq<byte>, now: int): Option<Claims> {
    match crypto.parse(payload)
    case NotJson => None
    case NotAnObject => None
    case Object(sub, iat, ver) =>
      if !sub.Str? || !crypto.isUuid4(sub.s) || !iat.Int? || !IsOne(ver) then None
      else
        var age := now - iat.n;
        if age <= FRESHNESS_SECONDS && age >= -SKEW_SECONDS then Some(Claims(sub.s, iat.n, 1)) else None
  }

  /** The two segments of a token, decoded. */
  function Segments(token: string): Option<(seq<byte>, seq<byte>)> {
    var parts := SplitOn(IsDot, token);
    if |parts| != 2 then None
    else match DecodeSegment(parts[0])
      case None => None
      case Some(payload) =>
        match DecodeSegment(parts[1])
        case None => None
        case Some(signature) => Some((payload, signature))
  }

  /** `verify_anonymous_identity_token` */
  function Verify(crypto: Crypto, token: string, secret: seq<byte>, now: int): Option<Claims> {
    match Segments(token)
    case None => None
    case Some((payload, signature)) =>
      if crypto.hmac(secret, payload) != signature then None else ReadClaims(crypto, payload, now)
  }

  // ---------------------------------------------------------------- properties

  lemma {:induction false} SegmentHasNoDot(b: seq<byte>)
    ensures forall i :: 0 <= i < |EncodeSegment(b)| ==> !IsDot(EncodeSegment(b)[i])
  {
    RepadUndoesStrip(b);
    LettersShape(b);
    forall i | 0 <= i < |EncodeSegment(b)| ensures !IsDot(EncodeSegment(b)[i]) {
      assert IsUrlSafe(Letters(b)[i]);
    }
  }

  /** Any two byte strings joined as a token come apart again. */
  lemma {:induction false} SegmentsUndoJoin(payload: seq<byte>, signature: seq<byte>)
    ensures Segments(EncodeSegment(payload) + "." + EncodeSegment(signature)) == Some((payload, signature))
  {
    SegmentHasNoDot(payload);
    SegmentHasNoDot(signature);
    SplitInTwo(IsDot, EncodeSegment(payload), '.', EncodeSegment(signature));
    SegmentRoundTrip(payload);
    SegmentRoundTrip(signature);
  }

  /** JSON text parses back to what it was made of, for these claims. */
  ghost predicate PayloadRoundTrips(crypto: Crypto, c: Claims) {
    crypto.parse(crypto.serialize(c)) == Object(Str(c.subject), Int(c.issuedAt), Int(c.version))
  }

  /**
   A minted token verifies, with its own claims, exactly when the two secrets sign
   its payload alike, its subject is a version 4 UUID, and it is at most 60 seconds
   in the future and 90 days in the past.
   */
  lemma {:induction false} MintedVerifiesExactly(
    crypto: Crypto, mintSecret: seq<byte>, secret: seq<byte>, t: int, subject: Option<string>, newId: string, now: int)
    requires PayloadRoundTrips(crypto, Claims(ChosenSubject(subject, newId), t, TOKEN_VERSION))
    ensures var c := Claims(ChosenSubject(subject, newId), t, TOKEN_VERSION);
            var payload := crypto.serialize(c);
            Verify(crypto, Mint(crypto, mintSecret, t, subject, newId), secret, now)
            == if crypto.hmac(mintSecret, payload) == crypto.hmac(secret, payload)
                  && crypto.isUuid4(c.subject) && -60 <= now - t <= 7776000
               then Some(c) else None
  {
    var payload := crypto.serialize(Claims(ChosenSubject(subject, newId), t, TOKEN_VERSION));
    SegmentsUndoJoin(payload, crypto.hmac(mintSecret, payload));
  }

  /** With the right secret and a fresh UUID, the window of acceptance is exactly [t - 60, t + 90 days]. */
  lemma {:induction false} FreshTokenWindow(crypto: Crypto, secret: seq<byte>, t: int, newId: string, now: int)
    requires crypto.isUuid4(newId) && PayloadRoundTrips(crypto, Claims(newId, t, TOKEN_VERSION))
    ensures Verify(crypto, Mint(crypto, secret, t, None, newId), secret, now).Some? <==> t - 60 <= now <= t + 90 * 86400
  {
    MintedVerifiesExactly(crypto, secret, secret, t, None, newId, now);
  }

  /** Whatever token is accepted carries the signature of its own payload and was issued inside the window. */
  lemma {:induction false} AcceptedIsSignedAndFresh(crypto: Crypto, token: string, secret: seq<byte>, now: int)
    requires Verify(crypto, token, secret, now).Some?
    ensures exists payload, signature ::
              && Segments(token) == Some((payload, signature)) && crypto.hmac(secret, payload) == signature
              && ReadClaims(crypto, payload, now) == Verify(crypto, token, secret, now)
    ensures var c := Verify(crypto, token, secret, now).value;
            crypto.isUuid4(c.subject) && c.version == TOKEN_VERSION && -60 <= now - c.issuedAt <= 7776000
  {
    var (payload, signature) := Segments(token).value;
    assert crypto.hmac(secret, payload) == signature;
  }

  /**
   A token that is accepted once, wherever it came from, is from then on and
   before answered like the one minted for its claims: accepted with them at
   exactly the times from 60 seconds before to 90 days after its issue.
   */
  lemma {:induction false} AcceptedIsLikeMinted(
    crypto: Crypto, token: string, secret: seq<byte>, at: int, c: Claims, newId: string, now: int)
    requires Verify(crypto, token, secret, at) == Some(c)
    requires PayloadRoundTrips(crypto, c) && !crypto.isUuid4("")
    ensures Verify(crypto, token, secret, now) == Verify(crypto, Mint(crypto, secret, c.issuedAt, Some(c.subject), newId), secret, now)
    ensures Verify(crypto, token, secret, now) == if -60 <= now - c.issuedAt <= 7776000 then Some(c) else None
  {
    AcceptedIsSignedAndFresh(crypto, token, secret, at);
    MintedVerifiesExactly(crypto, secret, secret, c.issuedAt, Some(c.subject), newId, now);
  }

  /** A payload says this subject was issued this moment, as version one. */
  predicate Says(crypto: Crypto, payload: seq<byte>, subject: string, issuedAt: int) {
    && crypto.parse(payload).Object?
    && crypto.parse(payload).sub == Str(subject) && crypto.parse(payload).iat == Int(issuedAt)
    && crypto.parse(payload).ver in [Int(1), Bool(true), FloatOne]
  }

  predicate NoDot(s: string) {
    forall i :: 0 <= i < |s| ==> s[i] != '.'
  }

  /** The token is two segments around its only dot, which decode to these bytes. */
  ghost predicate TwoSegments(token: string, payload: seq<byte>, signature: seq<byte>) {
    exists a, b ::
      && NoDot(a) && NoDot(b) && token == a + "." + b
      && DecodeSegment(a) == Some(payload) && DecodeSegment(b) == Some(signature)
  }

  lemma {:induction false} SegmentsExactly(token: string, payload: seq<byte>, signature: seq<byte>)
    ensures Segments(token) == Some((payload, signature)) <==> TwoSegments(token, payload, signature)
  {
    if TwoSegments(token, payload, signature) {
      var a, b :| NoDot(a) && NoDot(b) && token == a + "." + b
                  && DecodeSegment(a) == Some(payload) && DecodeSegment(b) == Some(signature);
      SplitInTwo(IsDot, a, '.', b);
    }
    if Segments(token) == Some((payload, signature)) {
      var a, b := TwoPartsAreAround(token);
      assert NoDot(a) && NoDot(b);
    }
  }

  lemma {:induction false} TwoPartsAreAround(token: string) returns (a: string, b: string)
    requires |SplitOn(IsDot, token)| == 2
    ensures SplitOn(IsDot, token) == [a, b] && token == a + "." + b && NoDot(a) && NoDot(b)
  {
    var i := Find(IsDot, token);
    FindFacts(IsDot, token);
    a, b := token[..i], token[i + 1..];
    FindFacts(IsDot, b);
    assert SplitOn(IsDot, token) == [a] + SplitOn(IsDot, b);
    assert |SplitOn(IsDot, b)| == 1;
    assert Find(IsDot, b) == |b|;
    assert token == a + [token[i]] + b;
  }

  /**
   What makes any token acceptable: two segments, the second the signature of the
   first under this secret, whose payload names a version 4 UUID, was issued at most
   60 seconds ahead and 90 days ago, and is of version one. Nothing else counts.
   */
  lemma {:induction false} VerifiesExactly(crypto: Crypto, token: string, secret: seq<byte>, now: int, c: Claims)
    ensures Verify(crypto, token, secret, now) == Some(c) <==>
            && c.version == 1 && crypto.isUuid4(c.subject) && -60 <= now - c.issuedAt <= 7776000
            && exists payload :: TwoSegments(token, payload, crypto.hmac(secret, payload)) && Says(crypto, payload, c.subject, c.issuedAt)
  {
    if Verify(crypto, token, secret, now) == Some(c) {
      var (payload, signature) := Segments(token).value;
      SegmentsExactly(token, payload, signature);
      assert Says(crypto, payload, c.subject, c.issuedAt);
    }
    if payload :| TwoSegments(token, payload, crypto.hmac(secret, payload)) && Says(crypto, payload, c.subject, c.issuedAt) {
      SegmentsExactly(token, payload, crypto.hmac(secret, payload));
    }
  }
}
