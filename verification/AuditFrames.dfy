/**
 The frame of the audit ledger: magic, version, flags, payload length, sequence,
 previous hash, payload, hash. `FrameBytes` is `encode_frame`; `ParseFrame` is the
 part of the scan loop that looks at one frame of the remaining bytes.
 */
module AuditFrames {
  import opened Bytes
  import opened AuditTypes

  const ZERO_HASH: Hash := Be(0, 32)

  /** "SPAUDIT\0" */
  const MAGIC: seq<Byte> := [83, 80, 65, 85, 68, 73, 84, 0]

  datatype Frame = Frame(sequence: nat, previous: Hash, payload: seq<Byte>)

  /** What the frame's hash covers: version, sequence, previous hash, payload. */
  function HashInput(f: Frame): (s: seq<Byte>)
    ensures |s| == 42 + |f.payload|
  {
    Be(1, 2) + Be(f.sequence, 8) + f.previous + f.payload
  }

  function Digest(env: Env, f: Frame): (h: Hash)
  {
    env.hash(HashInput(f))
  }

  function Header(f: Frame): (s: seq<Byte>)
    ensures |s| == HEADER_LEN
  {
    MAGIC + Be(1, 2) + Be(0, 2) + Be(|f.payload|, 4) + Be(f.sequence, 8) + f.previous
  }

  function FrameBytes(env: Env, f: Frame): (s: seq<Byte>)
    ensures |s| == HEADER_LEN + |f.payload| + HASH_LEN
  {
    Header(f) + f.payload + Digest(env, f)
  }

  /** The frames of one segment file, back to back. */
  function FileBytes(env: Env, frames: seq<Frame>): (s: seq<Byte>)
  {
    if frames == [] then [] else FrameBytes(env, frames[0]) + FileBytes(env, frames[1..])
  }

  /** What the fixed-width fields of a frame can hold. */
  predicate Fits(f: Frame) {
    f.sequence < U64_SPAN && |f.payload| < U32_SPAN
  }

  /** Six fixed-width fields side by side, each at its offset. */
  lemma FieldOffsets(s: seq<Byte>, a: seq<Byte>, b: seq<Byte>, c: seq<Byte>, d: seq<Byte>, e: seq<Byte>, h: seq<Byte>)
    requires |a| == 8 && |b| == 2 && |c| == 2 && |d| == 4 && |e| == 8 && |h| == 32 && |s| >= 56
    ensures s[..56] == a + b + c + d + e + h <==>
            s[..8] == a && s[8..10] == b && s[10..12] == c && s[12..16] == d && s[16..24] == e && s[24..56] == h
  {
    var t := s[..56];
    assert t[..8] == s[..8] && t[8..10] == s[8..10] && t[10..12] == s[10..12];
    assert t[12..16] == s[12..16] && t[16..24] == s[16..24] && t[24..56] == s[24..56];
    if s[..8] == a && s[8..10] == b && s[10..12] == c && s[12..16] == d && s[16..24] == e && s[24..56] == h {
      assert t == t[..8] + t[8..10] + t[10..12] + t[12..16] + t[16..24] + t[24..56];
    }
    if t == a + b + c + d + e + h {
      var u := a + b + c + d + e + h;
      assert u[..8] == a && u[8..10] == b && u[10..12] == c;
      assert u[12..16] == d && u[16..24] == e && u[24..56] == h;
    }
  }

  /** The header fields, as the scan loop slices them out of the remaining bytes. */
  lemma HeaderFields(f: Frame, rest: seq<Byte>)
    requires Fits(f)
    requires |rest| >= HEADER_LEN && rest[..HEADER_LEN] == Header(f)
    ensures rest[..8] == MAGIC
    ensures FromBe(rest[8..10]) == 1
    ensures FromBe(rest[10..12]) == 0
    ensures FromBe(rest[12..16]) == |f.payload|
    ensures FromBe(rest[16..24]) == f.sequence
    ensures rest[24..56] == f.previous
  {
    SpanValues();
    var version, flags, length, sequence := Be(1, 2), Be(0, 2), Be(|f.payload|, 4), Be(f.sequence, 8);
    BeRoundTrip(1, 2);
    BeRoundTrip(0, 2);
    BeRoundTrip(|f.payload|, 4);
    BeRoundTrip(f.sequence, 8);
    FieldOffsets(rest, MAGIC, version, flags, length, sequence, f.previous);
  }

  /** Conversely the six fields determine the header. */
  lemma HeaderFromFields(f: Frame, rest: seq<Byte>)
    requires |rest| >= HEADER_LEN
    requires rest[..8] == MAGIC
    requires FromBe(rest[8..10]) == 1
    requires FromBe(rest[10..12]) == 0
    requires FromBe(rest[12..16]) == |f.payload|
    requires FromBe(rest[16..24]) == f.sequence
    requires rest[24..56] == f.previous
    ensures rest[..HEADER_LEN] == Header(f)
    ensures Fits(f)
  {
    SpanValues();
    BeInverse(rest[8..10]);
    BeInverse(rest[10..12]);
    BeInverse(rest[12..16]);
    BeInverse(rest[16..24]);
    FieldOffsets(rest, MAGIC, Be(1, 2), Be(0, 2), Be(|f.payload|, 4), Be(f.sequence, 8), f.previous);
  }

  lemma {:induction false} FileBytesConcat(env: Env, a: seq<Frame>, b: seq<Frame>)
    ensures FileBytes(env, a + b) == FileBytes(env, a) + FileBytes(env, b)
  {
    if a == [] {
      assert a + b == b;
    } else {
      FileBytesConcat(env, a[1..], b);
      assert (a + b)[1..] == a[1..] + b;
      Assoc(FrameBytes(env, a[0]), FileBytes(env, a[1..]), FileBytes(env, b));
    }
  }

  lemma FileBytesSnoc(env: Env, a: seq<Frame>, f: Frame)
    ensures FileBytes(env, a + [f]) == FileBytes(env, a) + FrameBytes(env, f)
  {
    FileBytesConcat(env, a, [f]);
    assert FileBytes(env, [f]) == FrameBytes(env, f) + FileBytes(env, []);
  }

  /** The frame hashes commit to the fields: equal hash inputs mean equal frames. */
  lemma HashInputInjective(f: Frame, g: Frame)
    requires Fits(f) && Fits(g)
    requires HashInput(f) == HashInput(g)
    ensures f == g
  {
    SpanValues();
    BeRoundTrip(f.sequence, 8);
    BeRoundTrip(g.sequence, 8);
    assert Be(f.sequence, 8) == HashInput(f)[2..10];
    assert Be(g.sequence, 8) == HashInput(g)[2..10];
    assert f.previous == HashInput(f)[10..42];
    assert g.previous == HashInput(g)[10..42];
    assert f.payload == HashInput(f)[42..];
    assert g.payload == HashInput(g)[42..];
  }
}
