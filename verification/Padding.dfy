/** Record padding: sampled lengths, self-describing suffixes, and their removal. */
module Padding {
  import opened Basics
  import opened Results

  const U16: nat := 0x1_0000
  const USIZE_MAX: nat := 0xFFFF_FFFF_FFFF_FFFF

  type u16 = n: nat | n < U16
  type usize = n: nat | n <= USIZE_MAX

  datatype TrafficError = InvalidPaddingRange | PaddedFrameTooShort | PaddingLengthOutOfRange

  datatype Profile = Profile(min: u16, max: u16)

  /** Every profile comes from here; an empty range is refused. */
  function NewProfile(min: u16, max: u16): Result<Profile, TrafficError> {
    if max < min then Err(InvalidPaddingRange) else Ok(Profile(min, max))
  }

  // ----- sampling, with machine arithmetic -----

  function AsU16(n: nat): u16 {
    n % U16
  }

  /** u16 addition and subtraction as the machine does them without checks. */
  function WrapAdd(a: u16, b: u16): u16 {
    (a + b) % U16
  }

  function WrapSub(a: u16, b: u16): u16 {
    (a - b) % U16
  }

  function SaturatingSub(a: u16, b: u16): u16 {
    if a >= b then a - b else 0
  }

  function Clamp(x: u16, lo: u16, hi: u16): u16 {
    if x < lo then lo else if x > hi then hi else x
  }

  function Min(a: nat, b: nat): nat {
    if a < b then a else b
  }

  const OBSERVED: seq<u16> :=
    [64, 83, 91, 132, 144, 191, 286, 339, 469, 519, 569, 713, 735, 1353, 1440, 1459, 1500, 1500]

  /** One sampling's random draws; `offset` is reduced to the span it is drawn from. */
  datatype Draws = Draws(roll: nat, pick: nat, bucket: nat, offset: nat)

  predicate Drawn(d: Draws) {
    d.roll < 100 && d.pick < |OBSERVED| && d.bucket < 100
  }

  function CappedSpan(span: u16, bucket: nat): u16 {
    if bucket < 70 then Min(span, 64) else if bucket < 92 then Min(span, 256) else span
  }

  /** An observed packet size is aimed for when it leaves room above the floor. */
  predicate Aims(p: Profile, payload: nat, d: Draws)
    requires d.pick < |OBSERVED|
  {
    p.min != p.max && d.roll < 55 && payload + 2 + p.min < OBSERVED[d.pick]
  }

  function Sample(p: Profile, payload: nat, d: Draws): u16
    requires d.pick < |OBSERVED|
  {
    if p.min == p.max then p.min
    else if Aims(p, payload, d) then
      Clamp(SaturatingSub(SaturatingSub(OBSERVED[d.pick], AsU16(payload)), 2), p.min, p.max)
    else
      var span := CappedSpan(WrapSub(p.max, p.min), d.bucket);
      WrapAdd(p.min, d.offset % (span + 1))
  }

  /** Every sample is in the profile's range: neither the span nor the sum ever wraps. */
  lemma SampleIsInRange(p: Profile, payload: nat, d: Draws)
    requires NewProfile(p.min, p.max) == Ok(p) && Drawn(d)
    ensures p.min <= Sample(p, payload, d) <= p.max
  {
  }

  /** An observed target is hit exactly unless the profile's maximum is reached first. */
  lemma TargetIsHit(p: Profile, payload: nat, d: Draws)
    requires NewProfile(p.min, p.max) == Ok(p) && Drawn(d) && Aims(p, payload, d)
    ensures var r := Sample(p, payload, d);
            payload + r + 2 == OBSERVED[d.pick] || (r == p.max && payload + r + 2 < OBSERVED[d.pick])
  {
    assert forall i :: 0 <= i < |OBSERVED| ==> OBSERVED[i] <= 1500;
  }

  // ----- frames -----

  function BigEndian(n: u16): seq<byte> {
    [(n / 256) as byte, (n % 256) as byte]
  }

  function FromBigEndian(hi: byte, lo: byte): u16 {
    hi as int * 256 + lo as int
  }

  lemma BigEndianReadsBack(n: u16, hi: byte, lo: byte)
    ensures FromBigEndian(BigEndian(n)[0], BigEndian(n)[1]) == n
    ensures BigEndian(FromBigEndian(hi, lo)) == [hi, lo]
  {
  }

  /** `n` drawn bytes, then `n` in the two bytes there are for it. */
  function Suffix(n: nat, noise: nat -> byte): seq<byte> {
    seq(n, i requires 0 <= i < n => noise(i)) + BigEndian(AsU16(n))
  }

  function Trailer(frame: seq<byte>): u16
    requires |frame| >= 2
  {
    FromBigEndian(frame[|frame| - 2], frame[|frame| - 1])
  }

  function UnpaddedLen(frame: seq<byte>): (r: Result<nat, TrafficError>)
    ensures r.Ok? ==> r.value + 2 <= |frame|
  {
    if |frame| < 2 then Err(PaddedFrameTooShort)
    else if Trailer(frame) + 2 > |frame| then Err(PaddingLengthOutOfRange)
    else Ok(|frame| - Trailer(frame) - 2)
  }

  function Remove(frame: seq<byte>): Result<seq<byte>, TrafficError> {
    var n := UnpaddedLen(frame);
    if n.Err? then Err(n.error) else Ok(frame[..n.value])
  }

  lemma SuffixTrailer(before: seq<byte>, n: nat, noise: nat -> byte)
    ensures Trailer(before + Suffix(n, noise)) == AsU16(n)
  {
    var frame := before + Suffix(n, noise);
    BigEndianReadsBack(AsU16(n), 0, 0);
    assert Suffix(n, noise)[n] == BigEndian(AsU16(n))[0] && Suffix(n, noise)[n + 1] == BigEndian(AsU16(n))[1];
    assert frame[|frame| - 2] == BigEndian(AsU16(n))[0] && frame[|frame| - 1] == BigEndian(AsU16(n))[1];
  }

  /** Removal undoes a suffix if and only if the trailer can count its padding; every writer clamps to that. */
  lemma RemoveInverts(before: seq<byte>, n: nat, noise: nat -> byte)
    ensures Remove(before + Suffix(n, noise)) == Ok(before) <==> n < U16
  {
    var frame := before + Suffix(n, noise);
    SuffixTrailer(before, n, noise);
    if n < U16 {
      assert frame[..|before|] == before;
    }
  }

  lemma AcceptedSplits(frame: seq<byte>, plain: seq<byte>) returns (pad: seq<byte>)
    requires Remove(frame) == Ok(plain)
    ensures |pad| < U16 && frame == plain + (pad + BigEndian(|pad|))
  {
    var (k, n) := (UnpaddedLen(frame).value, Trailer(frame));
    pad := frame[k..k + n];
    TrailerIsLast(frame);
    assert frame[k + n..] == BigEndian(|pad|);
    CutsInThree(frame, k, n);
  }

  lemma TrailerIsLast(frame: seq<byte>)
    requires |frame| >= 2
    ensures frame[|frame| - 2..] == BigEndian(Trailer(frame))
  {
    BigEndianReadsBack(0, frame[|frame| - 2], frame[|frame| - 1]);
  }

  lemma CutsInThree(frame: seq<byte>, k: nat, n: nat)
    requires k + n <= |frame|
    ensures frame == frame[..k] + (frame[k..k + n] + frame[k + n..])
  {
  }

  lemma SplitIsAccepted(frame: seq<byte>, plain: seq<byte>, pad: seq<byte>)
    requires |pad| < U16 && frame == plain + (pad + BigEndian(|pad|))
    ensures Remove(frame) == Ok(plain)
  {
    var noise := (i: nat) => if i < |pad| then pad[i] else 0;
    assert pad + BigEndian(|pad|) == Suffix(|pad|, noise);
    RemoveInverts(plain, |pad|, noise);
  }

  /** A frame is accepted if and only if it is a plaintext, some pad bytes, and their count. */
  lemma AcceptedFramesSplit(frame: seq<byte>, plain: seq<byte>)
    ensures Remove(frame) == Ok(plain)
            <==> exists pad: seq<byte> :: |pad| < U16 && frame == plain + (pad + BigEndian(|pad|))
  {
    if Remove(frame) == Ok(plain) {
      var pad := AcceptedSplits(frame, plain);
    }
    forall pad: seq<byte> | |pad| < U16 && frame == plain + (pad + BigEndian(|pad|)) ensures Remove(frame) == Ok(plain) {
      SplitIsAccepted(frame, plain, pad);
    }
  }

  // ----- writers -----

  class Buffer {
    var bytes: seq<byte>

    constructor (bytes: seq<byte>)
      ensures this.bytes == bytes
    {
      this.bytes := bytes;
    }
  }

  method WriteSuffix(out: Buffer, n: nat, noise: nat -> byte)
    modifies out
    ensures out.bytes == old(out.bytes) + Suffix(n, noise)
  {
    if n != 0 {
      out.bytes := out.bytes + seq(n, i requires 0 <= i < n => noise(i));
    }
    out.bytes := out.bytes + BigEndian(AsU16(n));
  }

  method ApplyInto(p: Profile, payload: seq<byte>, d: Draws, noise: nat -> byte, out: Buffer)
    requires Drawn(d)
    modifies out
    ensures out.bytes == old(out.bytes) + payload + Suffix(Sample(p, |payload|, d), noise)
    ensures Remove(out.bytes) == Ok(old(out.bytes) + payload)
  {
    var n := Sample(p, |payload|, d);
    out.bytes := out.bytes + payload;
    RemoveInverts(out.bytes, n, noise);
    WriteSuffix(out, n, noise);
  }

  method ApplySuffixInto(p: Profile, payloadLen: nat, d: Draws, noise: nat -> byte, out: Buffer)
    requires Drawn(d)
    modifies out
    ensures out.bytes == old(out.bytes) + Suffix(Sample(p, payloadLen, d), noise)
    ensures Remove(out.bytes) == Ok(old(out.bytes))
  {
    var n := Sample(p, payloadLen, d);
    RemoveInverts(out.bytes, n, noise);
    WriteSuffix(out, n, noise);
  }

  function SaturatingAdd(a: usize, b: usize): usize {
    Min(a + b, USIZE_MAX)
  }

  /** Profile padding and extra padding in one suffix, clamped to what the trailer can count. */
  method WriteExtraPaddedSuffix(p: Profile, payloadLen: nat, extra: usize, d: Draws, noise: nat -> byte, out: Buffer)
    requires Drawn(d)
    modifies out
    ensures out.bytes == old(out.bytes) + Suffix(Min(Sample(p, payloadLen, d) + extra, U16 - 1), noise)
    ensures Remove(out.bytes) == Ok(old(out.bytes))
  {
    var n := Min(SaturatingAdd(Sample(p, payloadLen, d), extra), U16 - 1);
    RemoveInverts(out.bytes, n, noise);
    WriteSuffix(out, n, noise);
  }

  method WriteExactSuffix(n: usize, noise: nat -> byte, out: Buffer)
    modifies out
    ensures out.bytes == old(out.bytes) + Suffix(Min(n, U16 - 1), noise)
    ensures Remove(out.bytes) == Ok(old(out.bytes))
  {
    RemoveInverts(out.bytes, Min(n, U16 - 1), noise);
    WriteSuffix(out, Min(n, U16 - 1), noise);
  }

  method RemoveInPlace(padded: Buffer) returns (error: Option<TrafficError>)
    modifies padded
    ensures error.None? ==> Remove(old(padded.bytes)) == Ok(padded.bytes)
    ensures error.Some? ==> Remove(old(padded.bytes)) == Err(error.value) && padded.bytes == old(padded.bytes)
  {
    var n := UnpaddedLen(padded.bytes);
    if n.Err? {
      return Some(n.error);
    }
    padded.bytes := padded.bytes[..n.value];
    return None;
  }
}
