/**
 `encode_manifest` and `decode_manifest` as the program runs them: a buffer that grows
 and a cursor that advances, with a loop for every list.
 */
module ManifestCodec {
  import opened Bytes
  import opened Wire
  import opened Manifest

  // ----- decoding -----

  /** A cursor, by the bytes it has yet to read. */
  class Cursor {
    var rest: seq<Byte>

    constructor (bytes: seq<Byte>)
      ensures rest == bytes
    {
      rest := bytes;
    }

    method Exact(n: nat) returns (r: Result<seq<Byte>, Fault>)
      modifies this
      ensures match ReadExact(old(rest), n, FormatInvalid)
              case Lost(f) => r == Err(f)
              case Got(v, b) => r == Ok(v) && rest == b
    {
      if |rest| < n {
        return Err(FormatInvalid);
      }
      r := Ok(rest[..n]);
      rest := rest[n..];
    }

    method Int(w: nat) returns (r: Result<nat, Fault>)
      modifies this
      ensures match ReadInt(old(rest), w, FormatInvalid)
              case Lost(f) => r == Err(f)
              case Got(v, b) => r == Ok(v) && rest == b
    {
      var e := Exact(w);
      if e.Err? {
        return Err(e.error);
      }
      return Ok(FromBe(e.value));
    }

    method One() returns (r: Result<Byte, Fault>)
      modifies this
      ensures match ReadByte(old(rest))
              case Lost(f) => r == Err(f)
              case Got(v, b) => r == Ok(v) && rest == b
    {
      var e := Exact(1);
      if e.Err? {
        return Err(e.error);
      }
      return Ok(e.value[0]);
    }

    method String(max: nat) returns (r: Result<Text, Fault>)
      modifies this
      ensures match ReadText(old(rest), max, FormatInvalid)
              case Lost(f) => r == Err(f)
              case Got(v, b) => r == Ok(v) && rest == b
    {
      var n := Int(4);
      if n.Err? {
        return Err(n.error);
      }
      if n.value > max {
        return Err(LimitExceeded);
      }
      var e := Exact(n.value);
      if e.Err? {
        return Err(e.error);
      }
      if !Utf8(e.value) {
        return Err(FormatInvalid);
      }
      return Ok(e.value);
    }

    /** A counted list of references. */
    method Refs(limits: Limits) returns (r: Result<seq<Text>, Fault>)
      modifies this
      ensures match ReadRefs(old(rest), limits)
              case Lost(f) => r == Err(f)
              case Got(v, b) => r == Ok(v) && rest == b
    {
      var n := Int(4);
      if n.Err? {
        return Err(n.error);
      }
      if n.value > limits.maxArtifacts {
        return Err(LimitExceeded);
      }
      r := Texts(n.value, TextReader(MAX_TEXT));
    }

    /** The loop over n strings; `read` is `String` as a function. */
    method Texts(n: nat, ghost read: seq<Byte> -> Got<Text>) returns (r: Result<seq<Text>, Fault>)
      requires IsReader(read)
      modifies this
      ensures match ReadAll(read, old(rest), n)
              case Lost(f) => r == Err(f)
              case Got(v, b) => r == Ok(v) && rest == b
    {
      ReadByLoop(read, rest, n);
      var texts: seq<Text>, left := [], n;
      while left > 0
        invariant ReadMore(read, [], old(rest), n) == ReadMore(read, texts, rest, left)
      {
        var s := StringAs(read);
        if s.Err? {
          return Err(s.error);
        }
        texts := texts + [s.value];
        left := left - 1;
      }
      return Ok(texts);
    }

    method StringAs(ghost read: seq<Byte> -> Got<Text>) returns (r: Result<Text, Fault>)
      requires IsReader(read)
      modifies this
      ensures match read(old(rest))
              case Lost(f) => r == Err(f)
              case Got(v, b) => r == Ok(v) && rest == b
    {
      assert read(rest) == ReadText(rest, MAX_TEXT, FormatInvalid);
      r := String(MAX_TEXT);
    }

    /** The loop over n artifacts; `read` is `Describe` as a function. */
    method Descriptors(n: nat, limits: Limits, ghost read: seq<Byte> -> Got<Artifact>)
      returns (r: Result<seq<Artifact>, Fault>)
      requires IsArtifactReader(read, limits)
      modifies this
      ensures match ReadAll(read, old(rest), n)
              case Lost(f) => r == Err(f)
              case Got(v, b) => r == Ok(v) && rest == b
    {
      ReadByLoop(read, rest, n);
      var artifacts: seq<Artifact>, left := [], n;
      while left > 0
        invariant ReadMore(read, [], old(rest), n) == ReadMore(read, artifacts, rest, left)
      {
        var a := DescribeAs(limits, read);
        if a.Err? {
          return Err(a.error);
        }
        artifacts := artifacts + [a.value];
        left := left - 1;
      }
      return Ok(artifacts);
    }

    method DescribeAs(limits: Limits, ghost read: seq<Byte> -> Got<Artifact>) returns (r: Result<Artifact, Fault>)
      requires IsArtifactReader(read, limits)
      modifies this
      ensures match read(old(rest))
              case Lost(f) => r == Err(f)
              case Got(v, b) => r == Ok(v) && rest == b
    {
      assert read(rest) == ReadArtifact(rest, limits);
      r := Describe(limits);
    }

    method Describe(limits: Limits) returns (r: Result<Artifact, Fault>)
      modifies this
      ensures match ReadArtifact(old(rest), limits)
              case Lost(f) => r == Err(f)
              case Got(v, b) => r == Ok(v) && rest == b
    {
      var id := One();
      if id.Err? {
        return Err(id.error);
      }
      var kind := KindOf(id.value);
      if kind.None? {
        return Err(FormatInvalid);
      }
      var logicalId := String(MAX_TEXT);
      if logicalId.Err? {
        return Err(logicalId.error);
      }
      var path := String(limits.maxPath);
      if path.Err? {
        return Err(path.error);
      }
      r := DescribeEnd(kind.value, logicalId.value, path.value);
    }

    method DescribeEnd(kind: Kind, logicalId: Text, path: Text) returns (r: Result<Artifact, Fault>)
      modifies this
      ensures match ReadArtifactEnd(kind, logicalId, path, old(rest))
              case Lost(f) => r == Err(f)
              case Got(v, b) => r == Ok(v) && rest == b
    {
      var length := Int(8);
      if length.Err? {
        return Err(length.error);
      }
      var sha256 := Exact(32);
      if sha256.Err? {
        return Err(sha256.error);
      }
      var mode := One();
      if mode.Err? || mode.value > 1 {
        return Err(FormatInvalid);
      }
      var required := One();
      if required.Err? || required.value > 1 {
        return Err(FormatInvalid);
      }
      return Ok(Artifact(kind, logicalId, path, length.value, sha256.value,
                         if mode.value == 1 then OwnerOnly else Public,
                         required.value == 1));
    }
  }

  ghost predicate IsReader(read: seq<Byte> -> Got<Text>) {
    forall b {:trigger ReadText(b, MAX_TEXT, FormatInvalid)} :: read(b) == ReadText(b, MAX_TEXT, FormatInvalid)
  }

  ghost predicate IsArtifactReader(read: seq<Byte> -> Got<Artifact>, limits: Limits) {
    forall b {:trigger ReadArtifact(b, limits)} :: read(b) == ReadArtifact(b, limits)
  }

  method DecodeHead(c: Cursor) returns (r: Result<Head, Fault>)
    modifies c
    ensures match ReadHead(old(c.rest))
            case Lost(f) => r == Err(f)
            case Got(v, b) => r == Ok(v) && c.rest == b
  {
    var schema := c.Int(4);
    if schema.Err? {
      return Err(schema.error);
    }
    var archiveId := c.String(MAX_TEXT);
    if archiveId.Err? {
      return Err(archiveId.error);
    }
    var createdAt := c.Int(8);
    if createdAt.Err? {
      return Err(createdAt.error);
    }
    var appVersion := c.String(MAX_TEXT);
    if appVersion.Err? {
      return Err(appVersion.error);
    }
    var layout := c.Int(4);
    if layout.Err? {
      return Err(layout.error);
    }
    var revision := c.String(MAX_TEXT);
    if revision.Err? {
      return Err(revision.error);
    }
    var admin := c.One();
    if admin.Err? {
      return Err(admin.error);
    }
    return Ok(Head(schema.value, archiveId.value, createdAt.value, appVersion.value, layout.value, revision.value,
                   admin.value));
  }

  method DecodeTail(c: Cursor, h: Head, certificateRefs: seq<Text>, trustRefs: seq<Text>, limits: Limits)
    returns (r: Result<Manifest, Fault>)
    modifies c
    ensures r == DecodeEnd(h, certificateRefs, trustRefs, old(c.rest), limits)
  {
    var count := c.Int(4);
    if count.Err? {
      return Err(count.error);
    }
    if count.value > limits.maxArtifacts {
      return Err(LimitExceeded);
    }
    var total := c.Int(8);
    if total.Err? {
      return Err(total.error);
    }
    if total.value > limits.maxTotal {
      return Err(LimitExceeded);
    }
    var artifacts := c.Descriptors(count.value, limits, ArtifactReader(limits));
    if artifacts.Err? {
      return Err(artifacts.error);
    }
    var digest := c.Exact(32);
    if digest.Err? {
      return Err(digest.error);
    }
    if c.rest != [] {
      return Err(FormatInvalid);
    }
    return Ok(Manifest(h.schema, h.archiveId, h.createdAt, h.appVersion, h.layout, h.revision, h.admin != 0,
                       certificateRefs, trustRefs, count.value, total.value, artifacts.value, digest.value));
  }

  /** `decode_manifest` */
  method DecodeManifest(encoded: seq<Byte>, limits: Limits) returns (r: Result<Manifest, Fault>)
    ensures r == Decode(encoded, limits)
  {
    var c := new Cursor(encoded);
    var h := DecodeHead(c);
    if h.Err? {
      return Err(h.error);
    }
    var certificateRefs := c.Refs(limits);
    if certificateRefs.Err? {
      return Err(certificateRefs.error);
    }
    var trustRefs: seq<Text> := [];
    if h.value.schema >= 2 {
      var refs := c.Refs(limits);
      if refs.Err? {
        return Err(refs.error);
      }
      trustRefs := refs.value;
    }
    r := DecodeTail(c, h.value, certificateRefs.value, trustRefs, limits);
  }

  // ----- encoding -----

  /** `put_string` */
  method PutText(out: seq<Byte>, s: Text) returns (r: Result<seq<Byte>, Fault>)
    ensures r == if |s| < U32_SPAN then Ok(out + PrintText(s, [])) else Err(WriteFailed)
  {
    if |s| >= U32_SPAN {
      return Err(WriteFailed);
    }
    assert out + PrintText(s, []) == (out + Be(|s|, 4)) + s;
    return Ok((out + Be(|s|, 4)) + s);
  }

  predicate Short(ss: seq<Text>) {
    forall i :: 0 <= i < |ss| ==> |ss[i]| < U32_SPAN
  }

  /** A count and the strings after it. */
  method PutRefs(out: seq<Byte>, refs: seq<Text>) returns (r: Result<seq<Byte>, Fault>)
    ensures r == if |refs| < U32_SPAN && Short(refs) then Ok(out + PrintRefs(refs, [])) else Err(WriteFailed)
  {
    if |refs| >= U32_SPAN {
      return Err(WriteFailed);
    }
    TextPrefixes();
    var start := out + Be(|refs|, 4);
    var buffer, i := start, 0;
    assert buffer == start + PrintTexts(refs[..0], []);
    while i < |refs|
      invariant i <= |refs| && Short(refs[..i])
      invariant buffer == start + PrintTexts(refs[..i], [])
    {
      var put := PutText(buffer, refs[i]);
      if put.Err? {
        return put;
      }
      AllSnoc(PrintText, refs, i);
      Assoc(start, PrintTexts(refs[..i], []), PrintText(refs[i], []));
      buffer := put.value;
      i := i + 1;
    }
    assert refs[..i] == refs;
    Assoc(out, Be(|refs|, 4), PrintTexts(refs, []));
    return Ok(buffer);
  }

  predicate ArtifactWritable(a: Artifact) {
    !a.kind.Unknown? && |a.logicalId| < U32_SPAN && |a.path| < U32_SPAN
  }

  method PutArtifact(out: seq<Byte>, a: Artifact) returns (r: Result<seq<Byte>, Fault>)
    ensures r == if ArtifactWritable(a) then Ok(out + PrintArtifact(a, [])) else Err(WriteFailed)
  {
    if a.kind.Unknown? {
      return Err(WriteFailed);
    }
    var b1 := out + [KindId(a.kind)];
    var b2 := PutText(b1, a.logicalId);
    if b2.Err? {
      return b2;
    }
    var b3 := PutText(b2.value, a.path);
    if b3.Err? {
      return b3;
    }
    var end := Be(a.length, 8) + (a.sha256 + ([Flag(a.mode == OwnerOnly)] + [Flag(a.required)]));
    PrintedArtifact(out, a, end);
    return Ok(b3.value + end);
  }

  lemma {:induction false} PrintedArtifact(out: seq<Byte>, a: Artifact, end: seq<Byte>)
    requires end == Be(a.length, 8) + (a.sha256 + ([Flag(a.mode == OwnerOnly)] + [Flag(a.required)]))
    ensures out + PrintArtifact(a, [])
         == ((out + [KindId(a.kind)]) + PrintText(a.logicalId, []) + PrintText(a.path, [])) + end
  {
    assert [Flag(a.required)] + [] == [Flag(a.required)];
    assert [] + end == end;
    TextThen(a.path, [], end);
    var p := PrintText(a.path, end);
    assert [] + p == p;
    TextThen(a.logicalId, [], p);
    var k, i, q := [KindId(a.kind)], PrintText(a.logicalId, []), PrintText(a.path, []);
    assert PrintArtifact(a, []) == k + (i + (q + end));
    FiveParts(out, k, i, q, end);
  }

  lemma FiveParts(a: seq<Byte>, b: seq<Byte>, c: seq<Byte>, d: seq<Byte>, e: seq<Byte>)
    ensures a + (b + (c + (d + e))) == ((a + b) + c + d) + e
  {
    Assoc(a + b + c, d, e);
    Assoc(a + b, c, d + e);
    Assoc(a, b, c + (d + e));
  }

  ghost predicate IsPrinter(put: (Artifact, seq<Byte>) -> seq<Byte>) {
    forall a, rest {:trigger PrintArtifact(a, rest)} :: put(a, rest) == PrintArtifact(a, rest)
  }

  method PutArtifactAs(out: seq<Byte>, a: Artifact, ghost put: (Artifact, seq<Byte>) -> seq<Byte>)
    returns (r: Result<seq<Byte>, Fault>)
    requires IsPrinter(put)
    ensures r == if ArtifactWritable(a) then Ok(out + put(a, [])) else Err(WriteFailed)
  {
    assert put(a, []) == PrintArtifact(a, []);
    r := PutArtifact(out, a);
  }

  predicate AllWritable(xs: seq<Artifact>) {
    forall i :: 0 <= i < |xs| ==> ArtifactWritable(xs[i])
  }

  /** The loop over the artifacts; `put` is `PutArtifact` as a function. */
  method PutArtifacts(out: seq<Byte>, xs: seq<Artifact>, ghost put: (Artifact, seq<Byte>) -> seq<Byte>)
    returns (r: Result<seq<Byte>, Fault>)
    requires IsPrinter(put) && Prefixes(put)
    ensures r == if AllWritable(xs) then Ok(out + PrintAll(put, xs, [])) else Err(WriteFailed)
  {
    var buffer, i := out, 0;
    assert buffer == out + PrintAll(put, xs[..0], []);
    while i < |xs|
      invariant i <= |xs| && forall j :: 0 <= j < i ==> ArtifactWritable(xs[j])
      invariant buffer == out + PrintAll(put, xs[..i], [])
    {
      var next := PutArtifactAs(buffer, xs[i], put);
      if next.Err? {
        return next;
      }
      AllSnoc(put, xs, i);
      Assoc(out, PrintAll(put, xs[..i], []), put(xs[i], []));
      buffer := next.value;
      i := i + 1;
    }
    assert xs[..i] == xs;
    return Ok(buffer);
  }

  /** What the types of the numeric fields hold. */
  predicate Typed(m: Manifest) {
    && m.schema < U32_SPAN && m.createdAt < U64_SPAN && m.layout < U32_SPAN
    && m.artifactCount < U32_SPAN && m.total < U64_SPAN
    && forall i :: 0 <= i < |m.artifacts| ==> m.artifacts[i].length < U64_SPAN
  }

  method EncodeHead(h: Head) returns (r: Result<seq<Byte>, Fault>)
    ensures r == if |h.archiveId| < U32_SPAN && |h.appVersion| < U32_SPAN && |h.revision| < U32_SPAN
                 then Ok(PrintHead(h, [])) else Err(WriteFailed)
  {
    var b1 := PutText(Be(h.schema, 4), h.archiveId);
    if b1.Err? {
      return b1;
    }
    var b2 := PutText(b1.value + Be(h.createdAt, 8), h.appVersion);
    if b2.Err? {
      return b2;
    }
    var b3 := PutText(b2.value + Be(h.layout, 4), h.revision);
    if b3.Err? {
      return b3;
    }
    PrintedHead(h);
    return Ok(b3.value + [h.admin]);
  }

  lemma {:induction false} PrintedHead(h: Head)
    ensures PrintHead(h, [])
         == (((Be(h.schema, 4) + PrintText(h.archiveId, [])) + Be(h.createdAt, 8) + PrintText(h.appVersion, []))
             + Be(h.layout, 4) + PrintText(h.revision, [])) + [h.admin]
  {
    var e := [h.admin];
    TextThen(h.revision, [], e);
    assert e + [] == e && [] + e == e;
    var r := PrintText(h.revision, []) + e;
    var c := Be(h.layout, 4) + r;
    TextThen(h.appVersion, [], c);
    assert [] + c == c;
    var d := Be(h.createdAt, 8) + (PrintText(h.appVersion, []) + c);
    TextThen(h.archiveId, [], d);
    assert [] + d == d;
    HeadParts(Be(h.schema, 4), PrintText(h.archiveId, []), Be(h.createdAt, 8), PrintText(h.appVersion, []),
              Be(h.layout, 4), PrintText(h.revision, []), e);
  }

  lemma HeadParts(a: seq<Byte>, b: seq<Byte>, c: seq<Byte>, d: seq<Byte>, e: seq<Byte>, f: seq<Byte>, g: seq<Byte>)
    ensures a + (b + (c + (d + (e + (f + g))))) == (((a + b) + c + d) + e + f) + g
  {
    FiveParts(a + b, c, d, e, f + g);
    Assoc(a, b, c + (d + (e + (f + g))));
    Assoc(((a + b) + c + d) + e, f, g);
  }

  predicate RefsShort(refs: seq<Text>) {
    |refs| < U32_SPAN && Short(refs)
  }

  predicate PartsWritable(m: Manifest) {
    && |m.archiveId| < U32_SPAN && |m.appVersion| < U32_SPAN && |m.revision| < U32_SPAN
    && RefsShort(m.certificateRefs) && (m.schema >= 2 ==> RefsShort(m.trustRefs)) && AllWritable(m.artifacts)
  }

  lemma {:induction false} WritableIs(m: Manifest)
    requires Typed(m)
    ensures Writable(m) <==> PartsWritable(m)
  {
    if Writable(m) {
      forall i | 0 <= i < |m.artifacts| ensures ArtifactWritable(m.artifacts[i]) {
      }
    }
    if PartsWritable(m) {
      forall i | 0 <= i < |m.artifacts|
        ensures && !m.artifacts[i].kind.Unknown? && m.artifacts[i].length < U64_SPAN
                && |m.artifacts[i].logicalId| < U32_SPAN && |m.artifacts[i].path| < U32_SPAN
      {
        assert ArtifactWritable(m.artifacts[i]);
      }
    }
  }

  lemma {:induction false} Encoded(m: Manifest, includeDigest: bool)
    requires Typed(m)
    ensures Encode(m, includeDigest)
         == if PartsWritable(m) then Ok(PrintBody(m, Flag(m.adminInitialized), if includeDigest then m.digest else []))
            else Err(WriteFailed)
  {
    WritableIs(m);
  }

  /** Everything before the artifacts. */
  method EncodeFront(m: Manifest) returns (r: Result<seq<Byte>, Fault>)
    ensures r == if && |m.archiveId| < U32_SPAN && |m.appVersion| < U32_SPAN && |m.revision| < U32_SPAN
                    && RefsShort(m.certificateRefs) && (m.schema >= 2 ==> RefsShort(m.trustRefs))
                 then Ok((((PrintHead(HeadOf(m, Flag(m.adminInitialized)), []) + PrintRefs(m.certificateRefs, []))
                           + PrintTrust(m.schema, m.trustRefs, [])) + Be(m.artifactCount, 4)) + Be(m.total, 8))
                 else Err(WriteFailed)
  {
    var head := EncodeHead(HeadOf(m, Flag(m.adminInitialized)));
    if head.Err? {
      return head;
    }
    var b1 := PutRefs(head.value, m.certificateRefs);
    if b1.Err? {
      return b1;
    }
    var b2 := b1.value;
    if m.schema >= 2 {
      var trust := PutRefs(b2, m.trustRefs);
      if trust.Err? {
        return trust;
      }
      b2 := trust.value;
    } else {
      assert b2 + [] == b2;
    }
    return Ok((b2 + Be(m.artifactCount, 4)) + Be(m.total, 8));
  }

  /** `encode_manifest` */
  method EncodeManifest(m: Manifest, includeDigest: bool) returns (r: Result<seq<Byte>, Fault>)
    requires Typed(m)
    ensures r == Encode(m, includeDigest)
  {
    Encoded(m, includeDigest);
    var front := EncodeFront(m);
    if front.Err? {
      return front;
    }
    ArtifactPrefixes();
    var body := PutArtifacts(front.value, m.artifacts, PrintArtifact);
    if body.Err? {
      return body;
    }
    BodyParts(m, Flag(m.adminInitialized), if includeDigest then m.digest else []);
    return Ok(body.value + if includeDigest then m.digest else []);
  }

  /** The body, piece by piece. */
  lemma {:induction false} BodyParts(m: Manifest, admin: Byte, rest: seq<Byte>)
    ensures PrintBody(m, admin, rest)
         == ((((PrintHead(HeadOf(m, admin), []) + PrintRefs(m.certificateRefs, []))
             + PrintTrust(m.schema, m.trustRefs, []))
              + Be(m.artifactCount, 4)) + Be(m.total, 8)) + PrintArtifacts(m.artifacts, []) + rest
  {
    ArtifactsThen(m.artifacts, rest);
    var a := PrintArtifacts(m.artifacts, []) + rest;
    var b := Be(m.artifactCount, 4) + (Be(m.total, 8) + a);
    TrustThen(m.schema, m.trustRefs, [], b);
    assert [] + b == b;
    var c := PrintTrust(m.schema, m.trustRefs, []) + b;
    RefsThen(m.certificateRefs, [], c);
    assert [] + c == c;
    var d := PrintRefs(m.certificateRefs, []) + c;
    HeadThen(HeadOf(m, admin), [], d);
    assert [] + d == d;
    HeadParts(PrintHead(HeadOf(m, admin), []), PrintRefs(m.certificateRefs, []), PrintTrust(m.schema, m.trustRefs, []),
              Be(m.artifactCount, 4), Be(m.total, 8), PrintArtifacts(m.artifacts, []), rest);
  }
}
