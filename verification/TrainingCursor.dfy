/**
 The training-history cursor (api/application/training_history.py): a moment in
 integer microseconds and a session id, printed, encoded and taken apart again.
 UTF-8 is a parameter.
 */
module TrainingCursor {
  import opened Common
  import opened Text
  import Base64Url
  import Decimal

  /** `str.encode` and `bytes.decode`; None where they raise. */
  datatype Utf8 = Utf8(encode: string -> Option<seq<Base64Url.byte>>, decode: seq<Base64Url.byte> -> Option<string>)

  /** Decoding undoes encoding on this text. */
  ghost predicate RoundTrips(utf8: Utf8, s: string) {
    utf8.encode(s).Some? && utf8.decode(utf8.encode(s).value) == Some(s)
  }

  predicate IsBar(c: char) { c == '|' }

  function Raw(micros: int, sessionId: string): string {
    Decimal.Show(micros) + "|" + sessionId
  }

  /** `encode_training_cursor`; None when the text cannot be encoded. */
  function Encode(utf8: Utf8, micros: int, sessionId: string): Option<string> {
    match utf8.encode(Raw(micros, sessionId))
    case None => None
    case Some(b) => Some(Base64Url.EncodeSegment(b))
  }

  /** `parse_training_cursor`; None where it raises ValueError. */
  function Parse(utf8: Utf8, value: string): Option<(int, string)> {
    match Base64Url.Decode(Base64Url.Repad(value))
    case None => None
    case Some(b) =>
      match utf8.decode(b)
      case None => None
      case Some(raw) =>
        var i := Find(IsBar, raw);
        if i == |raw| then None
        else match Decimal.Read(raw[..i])
          case None => None
          case Some(micros) =>
            if micros < 0 || raw[i + 1..] == "" then None else Some((micros, raw[i + 1..]))
  }

  /** The first bar of the raw text is the one after the digits, whatever the session id holds. */
  lemma {:induction false} RawSplits(micros: int, sessionId: string)
    ensures var raw := Raw(micros, sessionId); var i := Find(IsBar, raw);
            i < |raw| && raw[..i] == Decimal.Show(micros) && raw[i + 1..] == sessionId
  {
    var m := Decimal.Show(micros);
    Decimal.ShowHolds(micros, '|');
    FindIs(IsBar, Raw(micros, sessionId), |m|);
  }

  /**
   A cursor reads back as the moment and the id it was made of exactly when the
   moment is not negative and the id not empty; otherwise reading it is an error.
   */
  lemma {:induction false} ParseUndoesEncode(utf8: Utf8, micros: int, sessionId: string)
    requires RoundTrips(utf8, Raw(micros, sessionId))
    ensures Encode(utf8, micros, sessionId).Some?
    ensures Parse(utf8, Encode(utf8, micros, sessionId).value)
            == if micros >= 0 && sessionId != "" then Some((micros, sessionId)) else None
  {
    Base64Url.SegmentRoundTrip(utf8.encode(Raw(micros, sessionId)).value);
    RawSplits(micros, sessionId);
    Decimal.ReadUndoesShow(micros);
  }

  /** Different positions never share a cursor. */
  lemma {:induction false} EncodeIsInjective(utf8: Utf8, m1: int, s1: string, m2: int, s2: string)
    requires RoundTrips(utf8, Raw(m1, s1)) && RoundTrips(utf8, Raw(m2, s2))
    requires Encode(utf8, m1, s1) == Encode(utf8, m2, s2)
    ensures m1 == m2 && s1 == s2
  {
    Base64Url.SegmentRoundTrip(utf8.encode(Raw(m1, s1)).value);
    Base64Url.SegmentRoundTrip(utf8.encode(Raw(m2, s2)).value);
    RawSplits(m1, s1);
    RawSplits(m2, s2);
    Decimal.ReadUndoesShow(m1);
    Decimal.ReadUndoesShow(m2);
  }

  /** What a cursor is made of: the microseconds in decimal digits, a bar, and the id as it is. */
  lemma RawIs(micros: int, sessionId: string)
    ensures Raw(micros, sessionId) == Decimal.Show(micros) + "|" + sessionId
    ensures Decimal.Show(42) == "42" && Decimal.Show(-7) == "-7" && Decimal.Show(0) == "0"
    ensures micros >= 1 ==> forall d :: 0 <= d < 10 ==>
              Decimal.Show(10 * micros + d) == Decimal.Show(micros) + [Decimal.Digit(d)]
  {
  }
}
