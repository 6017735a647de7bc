/**
 The backup manifest: `encode_manifest` and `decode_manifest`. The functions are the
 format; the methods of `ManifestCodec` build the buffer and advance the cursor in loops,
 and are proved to compute them.
 */
module Manifest {
  import opened Bytes
  import opened Wire

  datatype Kind =
    | ConfigRevision | ConfigRevisionPointer | CertificateChain | CertificatePrivateKey | CertificateMetadata
    | AdminPasswordHash | TrustBundleRoots | TrustBundleMetadata | AuditLedgerSegment
    | Unknown(id: nat)

  datatype Mode = Public | OwnerOnly

  datatype Artifact = Artifact(kind: Kind, logicalId: Text, path: Text, length: nat, sha256: Hash, mode: Mode,
                               required: bool)

  datatype Manifest = Manifest(
    schema: nat,
    archiveId: Text,
    createdAt: nat,
    appVersion: Text,
    layout: nat,
    revision: Text,
    adminInitialized: bool,
    certificateRefs: seq<Text>,
    trustRefs: seq<Text>,
    artifactCount: nat,
    total: nat,
    artifacts: seq<Artifact>,
    digest: Hash)

  datatype Limits = Limits(maxArtifacts: nat, maxTotal: nat, maxSingle: nat, maxPath: nat, maxManifest: nat)

  /** `BackupLimits::schema_v1`, as far as the codec uses it. */
  const SCHEMA_V1 := Limits(10_000, 1024 * 1024 * 1024, 64 * 1024 * 1024, 240, 8 * 1024 * 1024)

  const MAX_TEXT: nat := 240

  /** `kind_id`, 0 for a kind that cannot be written. */
  function KindId(k: Kind): (n: Byte)
  {
    match k
    case ConfigRevision => 1
    case ConfigRevisionPointer => 2
    case CertificateChain => 3
    case CertificatePrivateKey => 4
    case CertificateMetadata => 5
    case AdminPasswordHash => 6
    case TrustBundleRoots => 7
    case TrustBundleMetadata => 8
    case AuditLedgerSegment => 9
    case Unknown(_) => 0
  }

  const KINDS: seq<Kind> := [
    ConfigRevision, ConfigRevisionPointer, CertificateChain, CertificatePrivateKey, CertificateMetadata,
    AdminPasswordHash, TrustBundleRoots, TrustBundleMetadata, AuditLedgerSegment]

  function KindOf(n: Byte): (k: Option<Kind>)
  {
    if 1 <= n <= 9 then Some(KINDS[n - 1]) else None
  }

  lemma {:induction false} KindSound(n: Byte)
    ensures KindOf(n).Some? ==> !KindOf(n).value.Unknown? && KindId(KindOf(n).value) == n
  {
    if 1 <= n <= 9 {
      assert n in {1, 2, 3, 4, 5, 6, 7, 8, 9};
    }
  }

  lemma {:induction false} KindRoundTrip(k: Kind)
    requires !k.Unknown?
    ensures KindOf(KindId(k)) == Some(k)
  {
  }

  function Flag(b: bool): (n: Byte)
  {
    if b then 1 else 0
  }

  // ----- one artifact -----

  function PrintArtifact(a: Artifact, rest: seq<Byte>): (b: seq<Byte>)
  {
    [KindId(a.kind)] + PrintText(a.logicalId, PrintText(a.path,
      Be(a.length, 8) + (a.sha256 + ([Flag(a.mode == OwnerOnly)] + ([Flag(a.required)] + rest)))))
  }

  function ReadByte(b: seq<Byte>): (g: Got<Byte>)
  {
    if b == [] then Lost(FormatInvalid) else Got(b[0], b[1..])
  }

  /** The end of an artifact: length, hash, mode and flag. */
  function ReadArtifactEnd(kind: Kind, logicalId: Text, path: Text, b: seq<Byte>): (g: Got<Artifact>)
  {
    match ReadInt(b, 8, FormatInvalid)
    case Lost(f) => Lost(f)
    case Got(length, b1) =>
      match ReadExact(b1, 32, FormatInvalid)
      case Lost(f) => Lost(f)
      case Got(sha256, b2) =>
        match ReadByte(b2)
        case Lost(f) => Lost(f)
        case Got(mode, b3) =>
          if mode > 1 then Lost(FormatInvalid)
          else
            match ReadByte(b3)
            case Lost(f) => Lost(f)
            case Got(required, rest) =>
              if required > 1 then Lost(FormatInvalid)
              else Got(Artifact(kind, logicalId, path, length, sha256, if mode == 1 then OwnerOnly else Public,
                                required == 1), rest)
  }

  function ReadArtifact(b: seq<Byte>, limits: Limits): (g: Got<Artifact>)
  {
    match ReadByte(b)
    case Lost(f) => Lost(f)
    case Got(id, b1) =>
      match KindOf(id)
      case None => Lost(FormatInvalid)
      case Some(kind) =>
        match ReadText(b1, MAX_TEXT, FormatInvalid)
        case Lost(f) => Lost(f)
        case Got(logicalId, b2) =>
          match ReadText(b2, limits.maxPath, FormatInvalid)
          case Lost(f) => Lost(f)
          case Got(path, b3) => ReadArtifactEnd(kind, logicalId, path, b3)
  }

  predicate ArtifactFits(a: Artifact, limits: Limits) {
    && !a.kind.Unknown?
    && TextFits(a.logicalId, MAX_TEXT)
    && TextFits(a.path, limits.maxPath)
    && a.length < U64_SPAN
  }

  lemma {:induction false} ByteRoundTrip(x: Byte, rest: seq<Byte>)
    ensures ReadByte([x] + rest) == Got(x, rest)
  {
  }

  lemma {:induction false} ArtifactEndRoundTrip(a: Artifact, rest: seq<Byte>)
    requires a.length < U64_SPAN
    ensures ReadArtifactEnd(a.kind, a.logicalId, a.path,
              Be(a.length, 8) + (a.sha256 + ([Flag(a.mode == OwnerOnly)] + ([Flag(a.required)] + rest))))
                == Got(a, rest)
  {
    SpanValues();
    var b2 := [Flag(a.mode == OwnerOnly)] + ([Flag(a.required)] + rest);
    IntRoundTrip(a.length, 8, a.sha256 + b2, FormatInvalid);
    ExactRoundTrip(a.sha256, b2, FormatInvalid);
    ByteRoundTrip(Flag(a.mode == OwnerOnly), [Flag(a.required)] + rest);
    ByteRoundTrip(Flag(a.required), rest);
  }

  lemma {:induction false} ArtifactRoundTrip(a: Artifact, limits: Limits, rest: seq<Byte>)
    requires ArtifactFits(a, limits)
    ensures ReadArtifact(PrintArtifact(a, rest), limits) == Got(a, rest)
  {
    var end := Be(a.length, 8) + (a.sha256 + ([Flag(a.mode == OwnerOnly)] + ([Flag(a.required)] + rest)));
    ByteRoundTrip(KindId(a.kind), PrintText(a.logicalId, PrintText(a.path, end)));
    KindRoundTrip(a.kind);
    TextRoundTrip(a.logicalId, MAX_TEXT, PrintText(a.path, end), FormatInvalid);
    TextRoundTrip(a.path, limits.maxPath, end, FormatInvalid);
    ArtifactEndRoundTrip(a, rest);
  }

  lemma {:induction false} ByteSound(b: seq<Byte>)
    ensures ReadByte(b).Got? ==> b == [ReadByte(b).value] + ReadByte(b).rest
  {
  }

  lemma {:induction false} ArtifactEndSound(kind: Kind, logicalId: Text, path: Text, b: seq<Byte>)
    ensures var g := ReadArtifactEnd(kind, logicalId, path, b);
            g.Got? ==>
              && g.value.kind == kind && g.value.logicalId == logicalId && g.value.path == path
              && g.value.length < U64_SPAN
              && b == Be(g.value.length, 8) + (g.value.sha256
                      + ([Flag(g.value.mode == OwnerOnly)] + ([Flag(g.value.required)] + g.rest)))
  {
    SpanValues();
    IntSound(b, 8, FormatInvalid);
    if ReadArtifactEnd(kind, logicalId, path, b).Got? {
      var b1 := ReadInt(b, 8, FormatInvalid).rest;
      ExactSound(b1, 32, FormatInvalid);
      var b2 := ReadExact(b1, 32, FormatInvalid).rest;
      ByteSound(b2);
      ByteSound(ReadByte(b2).rest);
    }
  }

  lemma {:induction false} ArtifactSound(b: seq<Byte>, limits: Limits)
    ensures var g := ReadArtifact(b, limits); g.Got? ==>
              ArtifactFits(g.value, limits) && b == PrintArtifact(g.value, g.rest)
  {
    if ReadArtifact(b, limits).Got? {
      ByteSound(b);
      KindSound(b[0]);
      var kind, b1 := KindOf(b[0]).value, b[1..];
      TextSound(b1, MAX_TEXT, FormatInvalid);
      var b2 := ReadText(b1, MAX_TEXT, FormatInvalid).rest;
      TextSound(b2, limits.maxPath, FormatInvalid);
      var b3 := ReadText(b2, limits.maxPath, FormatInvalid).rest;
      ArtifactEndSound(kind, ReadText(b1, MAX_TEXT, FormatInvalid).value,
                       ReadText(b2, limits.maxPath, FormatInvalid).value, b3);
    }
  }

  // ----- the list of artifacts -----

  function ArtifactReader(limits: Limits): (read: seq<Byte> -> Got<Artifact>)
  {
    b => ReadArtifact(b, limits)
  }

  function PrintArtifacts(xs: seq<Artifact>, rest: seq<Byte>): (b: seq<Byte>)
  {
    PrintAll(PrintArtifact, xs, rest)
  }

  function ReadArtifacts(b: seq<Byte>, n: nat, limits: Limits): (g: Got<seq<Artifact>>)
    ensures g.Got? ==> |g.value| == n
  {
    ReadAll(ArtifactReader(limits), b, n)
  }

  predicate ArtifactsFit(xs: seq<Artifact>, limits: Limits) {
    forall i :: 0 <= i < |xs| ==> ArtifactFits(xs[i], limits)
  }

  lemma {:induction false} ArtifactsRoundTrip(xs: seq<Artifact>, limits: Limits, rest: seq<Byte>)
    requires ArtifactsFit(xs, limits)
    ensures ReadArtifacts(PrintArtifacts(xs, rest), |xs|, limits) == Got(xs, rest)
  {
    var fits := x => ArtifactFits(x, limits);
    forall x, r | fits(x) ensures ArtifactReader(limits)(PrintArtifact(x, r)) == Got(x, r) {
      ArtifactRoundTrip(x, limits, r);
    }
    AllRoundTrip(ArtifactReader(limits), PrintArtifact, fits, xs, rest);
  }

  lemma {:induction false} ArtifactsSound(b: seq<Byte>, n: nat, limits: Limits)
    ensures var g := ReadArtifacts(b, n, limits); g.Got? ==>
              ArtifactsFit(g.value, limits) && b == PrintArtifacts(g.value, g.rest)
  {
    var fits := x => ArtifactFits(x, limits);
    forall c | ArtifactReader(limits)(c).Got?
      ensures fits(ArtifactReader(limits)(c).value)
      ensures c == PrintArtifact(ArtifactReader(limits)(c).value, ArtifactReader(limits)(c).rest)
    {
      ArtifactSound(c, limits);
    }
    AllSound(ArtifactReader(limits), PrintArtifact, fits, b, n);
  }

  // ----- the head -----

  /** The fields before the lists; the admin byte as it stands in the file. */
  datatype Head = Head(schema: nat, archiveId: Text, createdAt: nat, appVersion: Text, layout: nat, revision: Text,
                       admin: Byte)

  predicate HeadFits(h: Head) {
    && h.schema < U32_SPAN && h.createdAt < U64_SPAN && h.layout < U32_SPAN
    && TextFits(h.archiveId, MAX_TEXT) && TextFits(h.appVersion, MAX_TEXT) && TextFits(h.revision, MAX_TEXT)
  }

  function PrintHeadEnd(h: Head, rest: seq<Byte>): (b: seq<Byte>)
  {
    PrintText(h.appVersion, Be(h.layout, 4) + PrintText(h.revision, [h.admin] + rest))
  }

  function PrintHead(h: Head, rest: seq<Byte>): (b: seq<Byte>)
  {
    Be(h.schema, 4) + PrintText(h.archiveId, Be(h.createdAt, 8) + PrintHeadEnd(h, rest))
  }

  function ReadHeadEnd(schema: nat, archiveId: Text, createdAt: nat, b: seq<Byte>): (g: Got<Head>)
  {
    match ReadText(b, MAX_TEXT, FormatInvalid)
    case Lost(f) => Lost(f)
    case Got(appVersion, b1) =>
      match ReadInt(b1, 4, FormatInvalid)
      case Lost(f) => Lost(f)
      case Got(layout, b2) =>
        match ReadText(b2, MAX_TEXT, FormatInvalid)
        case Lost(f) => Lost(f)
        case Got(revision, b3) =>
          match ReadByte(b3)
          case Lost(f) => Lost(f)
          case Got(admin, rest) => Got(Head(schema, archiveId, createdAt, appVersion, layout, revision, admin), rest)
  }

  function ReadHead(b: seq<Byte>): (g: Got<Head>)
  {
    match ReadInt(b, 4, FormatInvalid)
    case Lost(f) => Lost(f)
    case Got(schema, b1) =>
      match ReadText(b1, MAX_TEXT, FormatInvalid)
      case Lost(f) => Lost(f)
      case Got(archiveId, b2) =>
        match ReadInt(b2, 8, FormatInvalid)
        case Lost(f) => Lost(f)
        case Got(createdAt, b3) => ReadHeadEnd(schema, archiveId, createdAt, b3)
  }

  lemma {:induction false} HeadRoundTrip(h: Head, rest: seq<Byte>)
    requires HeadFits(h)
    ensures ReadHead(PrintHead(h, rest)) == Got(h, rest)
  {
    SpanValues();
    var b3 := PrintHeadEnd(h, rest);
    IntRoundTrip(h.schema, 4, PrintText(h.archiveId, Be(h.createdAt, 8) + b3), FormatInvalid);
    TextRoundTrip(h.archiveId, MAX_TEXT, Be(h.createdAt, 8) + b3, FormatInvalid);
    IntRoundTrip(h.createdAt, 8, b3, FormatInvalid);
    HeadEndRoundTrip(h, rest);
  }

  lemma {:induction false} HeadEndRoundTrip(h: Head, rest: seq<Byte>)
    requires HeadFits(h)
    ensures ReadHeadEnd(h.schema, h.archiveId, h.createdAt, PrintHeadEnd(h, rest)) == Got(h, rest)
  {
    SpanValues();
    var b2 := PrintText(h.revision, [h.admin] + rest);
    TextRoundTrip(h.appVersion, MAX_TEXT, Be(h.layout, 4) + b2, FormatInvalid);
    IntRoundTrip(h.layout, 4, b2, FormatInvalid);
    TextRoundTrip(h.revision, MAX_TEXT, [h.admin] + rest, FormatInvalid);
    ByteRoundTrip(h.admin, rest);
  }

  lemma {:induction false} HeadEndSound(schema: nat, archiveId: Text, createdAt: nat, b: seq<Byte>)
    ensures var g := ReadHeadEnd(schema, archiveId, createdAt, b);
            g.Got? ==>
              && g.value.schema == schema && g.value.archiveId == archiveId && g.value.createdAt == createdAt
              && g.value.layout < U32_SPAN && TextFits(g.value.appVersion, MAX_TEXT)
              && TextFits(g.value.revision, MAX_TEXT)
              && b == PrintHeadEnd(g.value, g.rest)
  {
    if ReadHeadEnd(schema, archiveId, createdAt, b).Got? {
      SpanValues();
      TextSound(b, MAX_TEXT, FormatInvalid);
      var b1 := ReadText(b, MAX_TEXT, FormatInvalid).rest;
      IntSound(b1, 4, FormatInvalid);
      var b2 := ReadInt(b1, 4, FormatInvalid).rest;
      TextSound(b2, MAX_TEXT, FormatInvalid);
      ByteSound(ReadText(b2, MAX_TEXT, FormatInvalid).rest);
    }
  }

  lemma {:induction false} HeadSound(b: seq<Byte>)
    ensures var g := ReadHead(b); g.Got? ==> HeadFits(g.value) && b == PrintHead(g.value, g.rest)
  {
    if ReadHead(b).Got? {
      SpanValues();
      IntSound(b, 4, FormatInvalid);
      var schema, b1 := ReadInt(b, 4, FormatInvalid).value, ReadInt(b, 4, FormatInvalid).rest;
      TextSound(b1, MAX_TEXT, FormatInvalid);
      var archiveId, b2 := ReadText(b1, MAX_TEXT, FormatInvalid).value, ReadText(b1, MAX_TEXT, FormatInvalid).rest;
      IntSound(b2, 8, FormatInvalid);
      HeadEndSound(schema, archiveId, ReadInt(b2, 8, FormatInvalid).value, ReadInt(b2, 8, FormatInvalid).rest);
    }
  }

  // ----- counted lists of references -----

  function PrintRefs(refs: seq<Text>, rest: seq<Byte>): (b: seq<Byte>)
  {
    Be(|refs|, 4) + PrintTexts(refs, rest)
  }

  function ReadRefs(b: seq<Byte>, limits: Limits): (g: Got<seq<Text>>)
  {
    match ReadInt(b, 4, FormatInvalid)
    case Lost(f) => Lost(f)
    case Got(n, b1) => if n > limits.maxArtifacts then Lost(LimitExceeded) else ReadTexts(b1, n, MAX_TEXT)
  }

  predicate RefsFit(refs: seq<Text>, limits: Limits) {
    |refs| <= limits.maxArtifacts && |refs| < U32_SPAN && TextsFit(refs, MAX_TEXT)
  }

  lemma {:induction false} RefsRoundTrip(refs: seq<Text>, limits: Limits, rest: seq<Byte>)
    requires RefsFit(refs, limits)
    ensures ReadRefs(PrintRefs(refs, rest), limits) == Got(refs, rest)
  {
    SpanValues();
    IntRoundTrip(|refs|, 4, PrintTexts(refs, rest), FormatInvalid);
    TextsRoundTrip(refs, MAX_TEXT, rest);
  }

  lemma {:induction false} RefsSound(b: seq<Byte>, limits: Limits)
    ensures var g := ReadRefs(b, limits); g.Got? ==> RefsFit(g.value, limits) && b == PrintRefs(g.value, g.rest)
  {
    SpanValues();
    IntSound(b, 4, FormatInvalid);
    if ReadRefs(b, limits).Got? {
      TextsSound(ReadInt(b, 4, FormatInvalid).rest, ReadInt(b, 4, FormatInvalid).value, MAX_TEXT);
    }
  }

  /** Trust references are there from schema 2 on. */
  function PrintTrust(schema: nat, refs: seq<Text>, rest: seq<Byte>): (b: seq<Byte>)
  {
    if schema >= 2 then PrintRefs(refs, rest) else rest
  }

  function ReadTrust(b: seq<Byte>, schema: nat, limits: Limits): (g: Got<seq<Text>>)
  {
    if schema >= 2 then ReadRefs(b, limits) else Got([], b)
  }

  // ----- the manifest -----

  function HeadOf(m: Manifest, admin: Byte): (h: Head)
  {
    Head(m.schema, m.archiveId, m.createdAt, m.appVersion, m.layout, m.revision, admin)
  }

  /** Everything but the digest. */
  function PrintBody(m: Manifest, admin: Byte, rest: seq<Byte>): (b: seq<Byte>)
  {
    PrintHead(HeadOf(m, admin), PrintRefs(m.certificateRefs, PrintTrust(m.schema, m.trustRefs,
      Be(m.artifactCount, 4) + (Be(m.total, 8) + PrintArtifacts(m.artifacts, rest)))))
  }

  /** What `encode_manifest` can write at all: known kinds and 32-bit lengths. */
  predicate Writable(m: Manifest) {
    && m.schema < U32_SPAN && m.createdAt < U64_SPAN && m.layout < U32_SPAN
    && |m.archiveId| < U32_SPAN && |m.appVersion| < U32_SPAN && |m.revision| < U32_SPAN
    && |m.certificateRefs| < U32_SPAN
    && (forall i :: 0 <= i < |m.certificateRefs| ==> |m.certificateRefs[i]| < U32_SPAN)
    && (m.schema >= 2 ==>
          |m.trustRefs| < U32_SPAN && forall i :: 0 <= i < |m.trustRefs| ==> |m.trustRefs[i]| < U32_SPAN)
    && m.artifactCount < U32_SPAN && m.total < U64_SPAN
    && forall i :: 0 <= i < |m.artifacts| ==>
         && !m.artifacts[i].kind.Unknown? && m.artifacts[i].length < U64_SPAN
         && |m.artifacts[i].logicalId| < U32_SPAN && |m.artifacts[i].path| < U32_SPAN
  }

  function Encode(m: Manifest, includeDigest: bool): (r: Result<seq<Byte>, Fault>)
  {
    if Writable(m) then Ok(PrintBody(m, Flag(m.adminInitialized), if includeDigest then m.digest else []))
    else Err(WriteFailed)
  }

  /** The end of `decode_manifest`: counts, artifacts, digest, and nothing after them. */
  function DecodeEnd(h: Head, certificateRefs: seq<Text>, trustRefs: seq<Text>, b: seq<Byte>,
                     limits: Limits): (r: Result<Manifest, Fault>)
  {
    match ReadInt(b, 4, FormatInvalid)
    case Lost(f) => Err(f)
    case Got(count, b1) =>
      if count > limits.maxArtifacts then Err(LimitExceeded)
      else
        match ReadInt(b1, 8, FormatInvalid)
        case Lost(f) => Err(f)
        case Got(total, b2) =>
          if total > limits.maxTotal then Err(LimitExceeded)
          else
            match ReadArtifacts(b2, count, limits)
            case Lost(f) => Err(f)
            case Got(artifacts, b3) =>
              match ReadExact(b3, 32, FormatInvalid)
              case Lost(f) => Err(f)
              case Got(digest, rest) =>
                if rest != [] then Err(FormatInvalid)
                else Ok(Manifest(h.schema, h.archiveId, h.createdAt, h.appVersion, h.layout, h.revision, h.admin != 0,
                                 certificateRefs, trustRefs, count, total, artifacts, digest))
  }

  function Decode(b: seq<Byte>, limits: Limits): (r: Result<Manifest, Fault>)
  {
    match ReadHead(b)
    case Lost(f) => Err(f)
    case Got(h, b1) =>
      match ReadRefs(b1, limits)
      case Lost(f) => Err(f)
      case Got(certificateRefs, b2) =>
        match ReadTrust(b2, h.schema, limits)
        case Lost(f) => Err(f)
        case Got(trustRefs, b3) => DecodeEnd(h, certificateRefs, trustRefs, b3, limits)
  }

  /** A manifest that `decode_manifest` can give back. */
  predicate WithinLimits(m: Manifest, limits: Limits) {
    && HeadFits(HeadOf(m, Flag(m.adminInitialized)))
    && RefsFit(m.certificateRefs, limits)
    && (if m.schema >= 2 then RefsFit(m.trustRefs, limits) else m.trustRefs == [])
    && m.artifactCount == |m.artifacts| <= limits.maxArtifacts && m.artifactCount < U32_SPAN
    && m.total <= limits.maxTotal && m.total < U64_SPAN
    && ArtifactsFit(m.artifacts, limits)
  }

  lemma {:induction false} DecodeEndRoundTrip(m: Manifest, admin: Byte, limits: Limits)
    requires WithinLimits(m, limits) && (admin != 0 <==> m.adminInitialized)
    ensures DecodeEnd(HeadOf(m, admin), m.certificateRefs, m.trustRefs,
                      Be(m.artifactCount, 4) + (Be(m.total, 8) + PrintArtifacts(m.artifacts, m.digest)), limits)
                        == Ok(m)
  {
    SpanValues();
    IntRoundTrip(m.artifactCount, 4, Be(m.total, 8) + PrintArtifacts(m.artifacts, m.digest), FormatInvalid);
    IntRoundTrip(m.total, 8, PrintArtifacts(m.artifacts, m.digest), FormatInvalid);
    ArtifactsRoundTrip(m.artifacts, limits, m.digest);
    ExactRoundTrip(m.digest, [], FormatInvalid);
    assert m.digest + [] == m.digest;
  }

  /** Whatever nonzero byte stands for an initialised admin, the manifest is read back. */
  lemma {:induction false} BodyRoundTrip(m: Manifest, admin: Byte, limits: Limits)
    requires WithinLimits(m, limits) && (admin != 0 <==> m.adminInitialized)
    ensures Decode(PrintBody(m, admin, m.digest), limits) == Ok(m)
  {
    var b3 := Be(m.artifactCount, 4) + (Be(m.total, 8) + PrintArtifacts(m.artifacts, m.digest));
    HeadRoundTrip(HeadOf(m, admin), PrintRefs(m.certificateRefs, PrintTrust(m.schema, m.trustRefs, b3)));
    RefsRoundTrip(m.certificateRefs, limits, PrintTrust(m.schema, m.trustRefs, b3));
    if m.schema >= 2 {
      RefsRoundTrip(m.trustRefs, limits, b3);
    }
    DecodeEndRoundTrip(m, admin, limits);
  }

  /** Round trip: a manifest within the limits is written, and read back as it was. */
  lemma {:induction false} ManifestRoundTrip(m: Manifest, limits: Limits)
    requires WithinLimits(m, limits)
    ensures Encode(m, true).Ok? && Decode(Encode(m, true).value, limits) == Ok(m)
  {
    BodyRoundTrip(m, Flag(m.adminInitialized), limits);
    FitsIsWritable(m, limits);
  }

  lemma {:induction false} FitsIsWritable(m: Manifest, limits: Limits)
    requires WithinLimits(m, limits)
    ensures Writable(m)
  {
    forall i | 0 <= i < |m.artifacts|
      ensures
        && !m.artifacts[i].kind.Unknown? && m.artifacts[i].length < U64_SPAN
        && |m.artifacts[i].logicalId| < U32_SPAN && |m.artifacts[i].path| < U32_SPAN
    {
      assert ArtifactFits(m.artifacts[i], limits);
    }
  }

  lemma {:induction false} DecodeEndSound(h: Head, certificateRefs: seq<Text>, trustRefs: seq<Text>, b: seq<Byte>,
                                          limits: Limits)
    ensures var r := DecodeEnd(h, certificateRefs, trustRefs, b, limits);
            r.Ok? ==>
              && HeadOf(r.value, h.admin) == h && r.value.adminInitialized == (h.admin != 0)
              && r.value.certificateRefs == certificateRefs && r.value.trustRefs == trustRefs
              && r.value.artifactCount == |r.value.artifacts| <= limits.maxArtifacts && r.value.artifactCount < U32_SPAN
              && r.value.total <= limits.maxTotal && r.value.total < U64_SPAN && ArtifactsFit(r.value.artifacts, limits)
              && b == Be(r.value.artifactCount, 4)
                      + (Be(r.value.total, 8) + PrintArtifacts(r.value.artifacts, r.value.digest))
  {
    if DecodeEnd(h, certificateRefs, trustRefs, b, limits).Ok? {
      SpanValues();
      IntSound(b, 4, FormatInvalid);
      var count, b1 := ReadInt(b, 4, FormatInvalid).value, ReadInt(b, 4, FormatInvalid).rest;
      IntSound(b1, 8, FormatInvalid);
      var b2 := ReadInt(b1, 8, FormatInvalid).rest;
      ArtifactsSound(b2, count, limits);
      ExactSound(ReadArtifacts(b2, count, limits).rest, 32, FormatInvalid);
      var digest := DecodeEnd(h, certificateRefs, trustRefs, b, limits).value.digest;
      assert digest + [] == digest;
    }
  }

  /**
   Only encodings are accepted: what decodes is the printed manifest, but for the admin
   byte, which may be any nonzero byte.
   */
  lemma {:induction false} DecodeSound(b: seq<Byte>, limits: Limits) returns (admin: Byte)
    requires Decode(b, limits).Ok?
    ensures var m := Decode(b, limits).value;
            && WithinLimits(m, limits) && (admin != 0 <==> m.adminInitialized)
            && b == PrintBody(m, admin, m.digest)
  {
    HeadSound(b);
    var h, b1 := ReadHead(b).value, ReadHead(b).rest;
    RefsSound(b1, limits);
    var certificateRefs, b2 := ReadRefs(b1, limits).value, ReadRefs(b1, limits).rest;
    if h.schema >= 2 {
      RefsSound(b2, limits);
    }
    DecodeEndSound(h, certificateRefs, ReadTrust(b2, h.schema, limits).value, ReadTrust(b2, h.schema, limits).rest,
                   limits);
    admin := h.admin;
  }

  /** Encoding a decoded manifest gives the same bytes exactly when its admin byte was 0 or 1. */
  lemma {:induction false} ReencodesExactly(b: seq<Byte>, limits: Limits) returns (admin: Byte)
    requires Decode(b, limits).Ok?
    ensures var m := Decode(b, limits).value;
            && b == PrintBody(m, admin, m.digest)
            && (Encode(m, true) == Ok(b) <==> admin <= 1)
  {
    admin := DecodeSound(b, limits);
    var m := Decode(b, limits).value;
    ManifestRoundTrip(m, limits);
    HeadRoundTrip(HeadOf(m, admin), ReadHead(b).rest);
    AdminByte(m, admin, Flag(m.adminInitialized), limits);
  }

  /** Two bodies of a manifest are equal exactly when their admin bytes are. */
  lemma {:induction false} AdminByte(m: Manifest, x: Byte, y: Byte, limits: Limits)
    requires WithinLimits(m, limits)
    ensures PrintBody(m, x, m.digest) == PrintBody(m, y, m.digest) <==> x == y
  {
    var rest := PrintRefs(m.certificateRefs, PrintTrust(m.schema, m.trustRefs,
      Be(m.artifactCount, 4) + (Be(m.total, 8) + PrintArtifacts(m.artifacts, m.digest))));
    HeadRoundTrip(HeadOf(m, x), rest);
    HeadRoundTrip(HeadOf(m, y), rest);
  }

  /**
   The digest input commits to the manifest: manifests within limits whose encodings
   without the digest agree differ at most in the digest.
   */
  lemma {:induction false} DigestInputInjective(m: Manifest, n: Manifest, limits: Limits)
    requires WithinLimits(m, limits) && WithinLimits(n, limits)
    requires Encode(m, false) == Encode(n, false)
    ensures n == m.(digest := n.digest)
  {
    FitsIsWritable(m, limits);
    FitsIsWritable(n, limits);
    var m' := m.(digest := n.digest);
    BodyThenDigest(m', Flag(m.adminInitialized));
    BodyThenDigest(n, Flag(n.adminInitialized));
    BodySame(m, m', Flag(m.adminInitialized));
    BodyRoundTrip(m', Flag(m.adminInitialized), limits);
    BodyRoundTrip(n, Flag(n.adminInitialized), limits);
  }

  /** The body does not depend on the digest. */
  lemma {:induction false} BodySame(m: Manifest, m': Manifest, admin: Byte)
    requires m' == m.(digest := m'.digest)
    ensures PrintBody(m, admin, []) == PrintBody(m', admin, [])
  {
  }

  lemma {:induction false} BodyThenDigest(m: Manifest, admin: Byte)
    ensures PrintBody(m, admin, m.digest) == PrintBody(m, admin, []) + m.digest
  {
    var d := m.digest;
    ArtifactsThen(m.artifacts, d);
    var b4 := PrintArtifacts(m.artifacts, []);
    CountsThen(Be(m.artifactCount, 4), Be(m.total, 8), b4, d);
    var b3 := Be(m.artifactCount, 4) + (Be(m.total, 8) + b4);
    TrustThen(m.schema, m.trustRefs, b3, d);
    RefsThen(m.certificateRefs, PrintTrust(m.schema, m.trustRefs, b3), d);
    HeadThen(HeadOf(m, admin), PrintRefs(m.certificateRefs, PrintTrust(m.schema, m.trustRefs, b3)), d);
  }

  lemma CountsThen(a: seq<Byte>, b: seq<Byte>, rest: seq<Byte>, more: seq<Byte>)
    ensures a + (b + (rest + more)) == (a + (b + rest)) + more
  {
  }

  lemma {:induction false} RefsThen(refs: seq<Text>, rest: seq<Byte>, more: seq<Byte>)
    ensures PrintRefs(refs, rest + more) == PrintRefs(refs, rest) + more
  {
    TextsThen(refs, rest, more);
    Assoc(Be(|refs|, 4), PrintTexts(refs, rest), more);
  }

  lemma {:induction false} TrustThen(schema: nat, refs: seq<Text>, rest: seq<Byte>, more: seq<Byte>)
    ensures PrintTrust(schema, refs, rest + more) == PrintTrust(schema, refs, rest) + more
  {
    RefsThen(refs, rest, more);
  }

  lemma {:induction false} HeadThen(h: Head, rest: seq<Byte>, more: seq<Byte>)
    ensures PrintHead(h, rest + more) == PrintHead(h, rest) + more
  {
    var e := [h.admin] + rest;
    assert [h.admin] + (rest + more) == e + more;
    TextThen(h.revision, e, more);
    var c := Be(h.layout, 4) + PrintText(h.revision, e);
    assert Be(h.layout, 4) + (PrintText(h.revision, e) + more) == c + more;
    TextThen(h.appVersion, c, more);
    var end := PrintHeadEnd(h, rest);
    assert PrintHeadEnd(h, rest + more) == end + more;
    assert Be(h.createdAt, 8) + (end + more) == (Be(h.createdAt, 8) + end) + more;
    TextThen(h.archiveId, Be(h.createdAt, 8) + end, more);
    Assoc(Be(h.schema, 4), PrintText(h.archiveId, Be(h.createdAt, 8) + end), more);
  }

  lemma {:induction false} TextsThen(ss: seq<Text>, rest: seq<Byte>, more: seq<Byte>)
    ensures PrintTexts(ss, rest + more) == PrintTexts(ss, rest) + more
  {
    TextPrefixes();
    AllThen(PrintText, ss, rest, more);
  }

  lemma {:induction false} ArtifactThen(a: Artifact, rest: seq<Byte>, more: seq<Byte>)
    ensures PrintArtifact(a, rest + more) == PrintArtifact(a, rest) + more
  {
    var x, y := [Flag(a.mode == OwnerOnly)], [Flag(a.required)];
    assert Be(a.length, 8) + (a.sha256 + (x + (y + (rest + more))))
        == (Be(a.length, 8) + (a.sha256 + (x + (y + rest)))) + more;
    var end := Be(a.length, 8) + (a.sha256 + (x + (y + rest)));
    TextThen(a.path, end, more);
    TextThen(a.logicalId, PrintText(a.path, end), more);
    Assoc([KindId(a.kind)], PrintText(a.logicalId, PrintText(a.path, end)), more);
  }

  lemma {:induction false} ArtifactPrefixes()
    ensures Prefixes(PrintArtifact)
  {
    forall a, rest, more ensures PrintArtifact(a, rest + more) == PrintArtifact(a, rest) + more {
      ArtifactThen(a, rest, more);
    }
  }

  lemma {:induction false} ArtifactsThen(xs: seq<Artifact>, more: seq<Byte>)
    ensures PrintArtifacts(xs, more) == PrintArtifacts(xs, []) + more
  {
    ArtifactPrefixes();
    AllThen(PrintArtifact, xs, [], more);
    assert [] + more == more;
  }
}
