/**
 The body of a backup archive, as the writer emits it and the reader takes it, with the
 encryption around it left out: magic, manifest length, manifest, and one record per
 artifact.
 */
module Archive {
  import opened Bytes
  import opened Wire
  import opened Manifest

  /** "SPONZEY-BACKUP-V1\0" */
  const BODY_MAGIC: seq<Byte> := [83, 80, 79, 78, 90, 69, 89, 45, 66, 65, 67, 75, 85, 80, 45, 86, 49, 0]

  /** "REC1" */
  const RECORD_MAGIC: seq<Byte> := [82, 69, 67, 49]

  // ----- one record -----

  function PrintRecord(path: Text, payload: seq<Byte>, rest: seq<Byte>): (b: seq<Byte>)
  {
    RECORD_MAGIC + PrintText(path, Be(|payload|, 8) + (payload + rest))
  }

  /** The payload of a record, once its path is read; `total` counts the payload bytes before it. */
  function ReadPayload(b: seq<Byte>, total: nat, limits: Limits): (g: Got<seq<Byte>>)
  {
    match ReadInt(b, 8, AuthenticationFailed)
    case Lost(f) => Lost(f)
    case Got(length, b1) =>
      if length > limits.maxSingle || total + length >= U64_SPAN || total + length > limits.maxTotal then
        Lost(LimitExceeded)
      else ReadExact(b1, length, AuthenticationFailed)
  }

  function ReadRecord(b: seq<Byte>, expected: Text, total: nat, limits: Limits): (g: Got<seq<Byte>>)
  {
    match ReadExact(b, 4, AuthenticationFailed)
    case Lost(f) => Lost(f)
    case Got(magic, b1) =>
      if magic != RECORD_MAGIC then Lost(FormatInvalid)
      else
        match ReadText(b1, limits.maxPath, AuthenticationFailed)
        case Lost(f) => Lost(f)
        case Got(path, b2) =>
          match ReadPayload(b2, total, limits)
          case Lost(f) => Lost(f)
          case Got(payload, rest) => if path != expected then Lost(PathUnsafe) else Got(payload, rest)
  }

  predicate RecordFits(path: Text, payload: seq<Byte>, total: nat, limits: Limits) {
    && TextFits(path, limits.maxPath)
    && |payload| <= limits.maxSingle && |payload| < U64_SPAN
    && total + |payload| < U64_SPAN && total + |payload| <= limits.maxTotal
  }

  lemma {:induction false} RecordRoundTrip(path: Text, payload: seq<Byte>, total: nat, limits: Limits, rest: seq<Byte>)
    requires RecordFits(path, payload, total, limits)
    ensures ReadRecord(PrintRecord(path, payload, rest), path, total, limits) == Got(payload, rest)
  {
    SpanValues();
    var b2 := Be(|payload|, 8) + (payload + rest);
    ExactRoundTrip(RECORD_MAGIC, PrintText(path, b2), AuthenticationFailed);
    TextRoundTrip(path, limits.maxPath, b2, AuthenticationFailed);
    IntRoundTrip(|payload|, 8, payload + rest, AuthenticationFailed);
    ExactRoundTrip(payload, rest, AuthenticationFailed);
  }

  // ----- more bytes, fewer bytes -----

  /** With more bytes at the end a reader gives the same value. */
  predicate Stable<T(==)>(g: Got<T>, h: Got<T>, more: seq<Byte>) {
    g.Got? ==> h == Got(g.value, g.rest + more)
  }

  /** With fewer bytes it gives a value too, or finds the input cut short. */
  predicate CutShort<T>(g: Got<T>, h: Got<T>) {
    h.Got? ==> g.Got? || g == Lost(AuthenticationFailed)
  }

  lemma {:induction false} ExactStable(b: seq<Byte>, n: nat, more: seq<Byte>)
    ensures Stable(ReadExact(b, n, AuthenticationFailed), ReadExact(b + more, n, AuthenticationFailed), more)
    ensures CutShort(ReadExact(b, n, AuthenticationFailed), ReadExact(b + more, n, AuthenticationFailed))
  {
    if n <= |b| {
      assert (b + more)[..n] == b[..n] && (b + more)[n..] == b[n..] + more;
    }
  }

  lemma {:induction false} IntStable(b: seq<Byte>, w: nat, more: seq<Byte>)
    ensures Stable(ReadInt(b, w, AuthenticationFailed), ReadInt(b + more, w, AuthenticationFailed), more)
    ensures CutShort(ReadInt(b, w, AuthenticationFailed), ReadInt(b + more, w, AuthenticationFailed))
  {
    ExactStable(b, w, more);
  }

  lemma {:induction false} TextStable(b: seq<Byte>, max: nat, more: seq<Byte>)
    ensures Stable(ReadText(b, max, AuthenticationFailed), ReadText(b + more, max, AuthenticationFailed), more)
    ensures CutShort(ReadText(b, max, AuthenticationFailed), ReadText(b + more, max, AuthenticationFailed))
  {
    IntStable(b, 4, more);
    var g := ReadInt(b, 4, AuthenticationFailed);
    if g.Got? {
      ExactStable(g.rest, g.value, more);
    }
  }

  lemma {:induction false} PayloadStable(b: seq<Byte>, total: nat, limits: Limits, more: seq<Byte>)
    ensures Stable(ReadPayload(b, total, limits), ReadPayload(b + more, total, limits), more)
    ensures CutShort(ReadPayload(b, total, limits), ReadPayload(b + more, total, limits))
  {
    IntStable(b, 8, more);
    var g := ReadInt(b, 8, AuthenticationFailed);
    if g.Got? {
      ExactStable(g.rest, g.value, more);
    }
  }

  lemma {:induction false} RecordStable(b: seq<Byte>, expected: Text, total: nat, limits: Limits, more: seq<Byte>)
    ensures Stable(ReadRecord(b, expected, total, limits), ReadRecord(b + more, expected, total, limits), more)
    ensures CutShort(ReadRecord(b, expected, total, limits), ReadRecord(b + more, expected, total, limits))
  {
    ExactStable(b, 4, more);
    var g := ReadExact(b, 4, AuthenticationFailed);
    if g.Got? {
      TextStable(g.rest, limits.maxPath, more);
      var h := ReadText(g.rest, limits.maxPath, AuthenticationFailed);
      if h.Got? {
        PayloadStable(h.rest, total, limits, more);
      }
    }
  }

  // ----- the records, for any way of reading one -----

  /** A record reader: the bytes, the path expected next and the payload bytes so far. */
  type RecordReader = (seq<Byte>, Text, nat) -> Got<seq<Byte>>

  type RecordPrinter = (Text, seq<Byte>, seq<Byte>) -> seq<Byte>

  type RecordTest = (Text, seq<Byte>, nat) -> bool

  function ReadEach(read: RecordReader, b: seq<Byte>, expected: seq<Artifact>, total: nat): (g: Got<seq<seq<Byte>>>)
    ensures g.Got? ==> |g.value| == |expected|
    decreases |expected|
  {
    if expected == [] then Got([], b)
    else
      match read(b, expected[0].path, total)
      case Lost(f) => Lost(f)
      case Got(payload, b1) =>
        match ReadEach(read, b1, expected[1..], total + |payload|)
        case Lost(f) => Lost(f)
        case Got(payloads, rest) => Got([payload] + payloads, rest)
  }

  function PrintEach(put: RecordPrinter, artifacts: seq<Artifact>, payloads: seq<seq<Byte>>,
                     rest: seq<Byte>): (b: seq<Byte>)
    requires |artifacts| == |payloads|
  {
    if artifacts == [] then rest
    else put(artifacts[0].path, payloads[0], PrintEach(put, artifacts[1..], payloads[1..], rest))
  }

  predicate EachFits(fits: RecordTest, artifacts: seq<Artifact>, payloads: seq<seq<Byte>>, total: nat)
    requires |artifacts| == |payloads|
  {
    artifacts == [] ||
    (fits(artifacts[0].path, payloads[0], total)
      && EachFits(fits, artifacts[1..], payloads[1..], total + |payloads[0]|))
  }

  lemma {:induction false} EachRoundTrip(read: RecordReader, put: RecordPrinter, fits: RecordTest,
                                         artifacts: seq<Artifact>, payloads: seq<seq<Byte>>, total: nat,
                                         rest: seq<Byte>)
    requires forall path, payload, n, r ::
               fits(path, payload, n) ==> read(put(path, payload, r), path, n) == Got(payload, r)
    requires |artifacts| == |payloads| && EachFits(fits, artifacts, payloads, total)
    ensures ReadEach(read, PrintEach(put, artifacts, payloads, rest), artifacts, total) == Got(payloads, rest)
    decreases |artifacts|
  {
    if artifacts == [] {
      assert payloads == [];
    } else {
      var b1 := PrintEach(put, artifacts[1..], payloads[1..], rest);
      assert read(put(artifacts[0].path, payloads[0], b1), artifacts[0].path, total) == Got(payloads[0], b1);
      EachRoundTrip(read, put, fits, artifacts[1..], payloads[1..], total + |payloads[0]|, rest);
      assert payloads == [payloads[0]] + payloads[1..];
    }
  }

  lemma {:induction false} EachStable(read: RecordReader, b: seq<Byte>, expected: seq<Artifact>, total: nat,
                                      more: seq<Byte>)
    requires forall c, path, n ::
               Stable(read(c, path, n), read(c + more, path, n), more)
                 && CutShort(read(c, path, n), read(c + more, path, n))
    ensures Stable(ReadEach(read, b, expected, total), ReadEach(read, b + more, expected, total), more)
    ensures CutShort(ReadEach(read, b, expected, total), ReadEach(read, b + more, expected, total))
    decreases |expected|
  {
    if expected != [] {
      var g := read(b, expected[0].path, total);
      assert Stable(g, read(b + more, expected[0].path, total), more)
          && CutShort(g, read(b + more, expected[0].path, total));
      if g.Got? {
        EachStable(read, g.rest, expected[1..], total + |g.value|, more);
      }
    }
  }

  // ----- the whole body -----

  function ReaderOf(limits: Limits): (read: RecordReader)
  {
    (b: seq<Byte>, path: Text, total: nat) => ReadRecord(b, path, total, limits)
  }

  function PrintFront(encoded: seq<Byte>, rest: seq<Byte>): (b: seq<Byte>)
  {
    BODY_MAGIC + (Be(|encoded|, 8) + (encoded + rest))
  }

  /** Magic and manifest. */
  function ReadFront(b: seq<Byte>, limits: Limits): (g: Got<Manifest>)
  {
    match ReadExact(b, |BODY_MAGIC|, AuthenticationFailed)
    case Lost(f) => Lost(f)
    case Got(magic, b1) =>
      if magic != BODY_MAGIC then Lost(FormatInvalid)
      else
        match ReadInt(b1, 8, AuthenticationFailed)
        case Lost(f) => Lost(f)
        case Got(length, b2) =>
          if length > limits.maxManifest then Lost(LimitExceeded)
          else
            match ReadExact(b2, length, AuthenticationFailed)
            case Lost(f) => Lost(f)
            case Got(encoded, rest) =>
              match Decode(encoded, limits)
              case Err(f) => Lost(f)
              case Ok(m) => Got(m, rest)
  }

  /** `read_archive_records`: the manifest, and the payload of every record. */
  function ReadArchive(b: seq<Byte>, limits: Limits): (r: Result<(Manifest, seq<seq<Byte>>), Fault>)
  {
    Finish(ReadFront(b, limits), limits)
  }

  /** The records after the manifest, and nothing after them. */
  function Finish(front: Got<Manifest>, limits: Limits): (r: Result<(Manifest, seq<seq<Byte>>), Fault>)
  {
    match front
    case Lost(f) => Err(f)
    case Got(m, b) =>
      match ReadEach(ReaderOf(limits), b, m.artifacts, 0)
      case Lost(f) => Err(f)
      case Got(payloads, rest) => if rest != [] then Err(FormatInvalid) else Ok((m, payloads))
  }

  /** The body that the writer emits for a manifest and its payloads. */
  function Body(m: Manifest, payloads: seq<seq<Byte>>): (b: seq<Byte>)
    requires Encode(m, true).Ok? && |payloads| == |m.artifacts|
  {
    PrintFront(Encode(m, true).value, PrintEach(PrintRecord, m.artifacts, payloads, []))
  }

  function TestOf(limits: Limits): (fits: RecordTest)
  {
    (path: Text, payload: seq<Byte>, total: nat) => RecordFits(path, payload, total, limits)
  }

  lemma {:induction false} FrontRoundTrip(m: Manifest, limits: Limits, rest: seq<Byte>)
    requires WithinLimits(m, limits) && Encode(m, true).Ok?
    requires |Encode(m, true).value| <= limits.maxManifest && |Encode(m, true).value| < U64_SPAN
    ensures ReadFront(PrintFront(Encode(m, true).value, rest), limits) == Got(m, rest)
  {
    SpanValues();
    var encoded := Encode(m, true).value;
    ExactRoundTrip(BODY_MAGIC, Be(|encoded|, 8) + (encoded + rest), AuthenticationFailed);
    IntRoundTrip(|encoded|, 8, encoded + rest, AuthenticationFailed);
    ExactRoundTrip(encoded, rest, AuthenticationFailed);
    ManifestRoundTrip(m, limits);
  }

  /** Reading what was written gives the manifest and every payload once, in order. */
  lemma {:induction false} ArchiveRoundTrip(m: Manifest, payloads: seq<seq<Byte>>, limits: Limits)
    requires WithinLimits(m, limits) && |payloads| == |m.artifacts|
          && EachFits(TestOf(limits), m.artifacts, payloads, 0)
    requires Encode(m, true).Ok? ==> |Encode(m, true).value| <= limits.maxManifest && |Encode(m, true).value| < U64_SPAN
    ensures Encode(m, true).Ok? && ReadArchive(Body(m, payloads), limits) == Ok((m, payloads))
  {
    ManifestRoundTrip(m, limits);
    FrontRoundTrip(m, limits, PrintEach(PrintRecord, m.artifacts, payloads, []));
    var read, fits := ReaderOf(limits), TestOf(limits);
    forall path, payload, n, r | fits(path, payload, n)
      ensures read(PrintRecord(path, payload, r), path, n) == Got(payload, r)
    {
      RecordRoundTrip(path, payload, n, limits, r);
    }
    EachRoundTrip(read, PrintRecord, fits, m.artifacts, payloads, 0, []);
  }

  lemma {:induction false} FrontStable(b: seq<Byte>, limits: Limits, more: seq<Byte>)
    ensures Stable(ReadFront(b, limits), ReadFront(b + more, limits), more)
    ensures CutShort(ReadFront(b, limits), ReadFront(b + more, limits))
  {
    ExactStable(b, |BODY_MAGIC|, more);
    var g := ReadExact(b, |BODY_MAGIC|, AuthenticationFailed);
    if g.Got? {
      IntStable(g.rest, 8, more);
      var h := ReadInt(g.rest, 8, AuthenticationFailed);
      if h.Got? {
        ExactStable(h.rest, h.value, more);
      }
    }
  }

  lemma {:induction false} RecordsStable(b: seq<Byte>, expected: seq<Artifact>, limits: Limits, more: seq<Byte>)
    ensures var g, h := ReadEach(ReaderOf(limits), b, expected, 0), ReadEach(ReaderOf(limits), b + more, expected, 0);
            Stable(g, h, more) && CutShort(g, h)
  {
    var read := ReaderOf(limits);
    forall c, path, n
      ensures Stable(read(c, path, n), read(c + more, path, n), more)
           && CutShort(read(c, path, n), read(c + more, path, n))
    {
      RecordStable(c, path, n, limits, more);
    }
    EachStable(read, b, expected, 0, more);
  }

  /** An accepted body with anything after it is refused. */
  lemma {:induction false} ExtensionRejected(b: seq<Byte>, limits: Limits, more: seq<Byte>)
    requires ReadArchive(b, limits).Ok? && more != []
    ensures ReadArchive(b + more, limits) == Err(FormatInvalid)
  {
    FrontStable(b, limits, more);
    FinishExtension(ReadFront(b, limits), ReadFront(b + more, limits), limits, more);
  }

  lemma {:induction false} FinishExtension(g: Got<Manifest>, h: Got<Manifest>, limits: Limits, more: seq<Byte>)
    requires Stable(g, h, more) && Finish(g, limits).Ok? && more != []
    ensures Finish(h, limits) == Err(FormatInvalid)
  {
    RecordsStable(g.rest, g.value.artifacts, limits, more);
    assert [] + more == more;
  }

  /** Every strict prefix of an accepted body is refused as cut short. */
  lemma {:induction false} PrefixRejected(b: seq<Byte>, more: seq<Byte>, limits: Limits)
    requires ReadArchive(b + more, limits).Ok? && more != []
    ensures ReadArchive(b, limits) == Err(AuthenticationFailed)
  {
    FrontStable(b, limits, more);
    FinishPrefix(ReadFront(b, limits), ReadFront(b + more, limits), limits, more);
  }

  lemma {:induction false} FinishPrefix(g: Got<Manifest>, h: Got<Manifest>, limits: Limits, more: seq<Byte>)
    requires Stable(g, h, more) && CutShort(g, h) && Finish(h, limits).Ok? && more != []
    ensures Finish(g, limits) == Err(AuthenticationFailed)
  {
    if g.Got? {
      RecordsPrefix(g.rest, g.value.artifacts, limits, more);
    }
  }

  lemma {:induction false} RecordsPrefix(b: seq<Byte>, expected: seq<Artifact>, limits: Limits, more: seq<Byte>)
    requires more != []
    requires var h := ReadEach(ReaderOf(limits), b + more, expected, 0); h.Got? && h.rest == []
    ensures ReadEach(ReaderOf(limits), b, expected, 0) == Lost(AuthenticationFailed)
  {
    RecordsStable(b, expected, limits, more);
    CutMeansShort(ReadEach(ReaderOf(limits), b, expected, 0), ReadEach(ReaderOf(limits), b + more, expected, 0), more);
  }

  lemma {:induction false} CutMeansShort<T>(g: Got<T>, h: Got<T>, more: seq<Byte>)
    requires Stable(g, h, more) && CutShort(g, h) && h.Got? && h.rest == [] && more != []
    ensures g == Lost(AuthenticationFailed)
  {
    if g.Got? {
      assert false;
    }
  }

  // ----- the program -----

  /** `AgeBackupArchiveWriter`, as far as the body goes: the open stream, or the finished one. */
  class ArchiveWriter {
    var stream: Option<seq<Byte>>
    var finalized: Option<seq<Byte>>

    constructor ()
      ensures stream == None && finalized == None
    {
      stream, finalized := None, None;
    }

    method Open(m: Manifest) returns (failure: Option<Fault>)
      modifies this
      ensures var fits := Encode(m, true).Ok? && |Encode(m, true).value| <= SCHEMA_V1.maxManifest;
              if old(stream).None? && old(finalized).None? && fits
              then failure == None && stream == Some(PrintFront(Encode(m, true).value, [])) && finalized == None
              else failure.Some? && stream == old(stream) && finalized == old(finalized)
    {
      if stream.Some? || finalized.Some? {
        return Some(WriteFailed);
      }
      var encoded := Encode(m, true);
      if encoded.Err? {
        return Some(encoded.error);
      }
      if |encoded.value| > SCHEMA_V1.maxManifest {
        return Some(LimitExceeded);
      }
      assert encoded.value + [] == encoded.value;
      stream := Some(BODY_MAGIC + (Be(|encoded.value|, 8) + encoded.value));
      return None;
    }

    method WriteRecord(path: Text, payload: seq<Byte>) returns (failure: Option<Fault>)
      modifies `stream
      ensures if old(stream).Some? && |path| < U32_SPAN
              then failure == None && stream == Some(old(stream).value + PrintRecord(path, payload, []))
              else failure == Some(WriteFailed) && stream == old(stream)
    {
      if stream.None? || |path| >= U32_SPAN {
        return Some(WriteFailed);
      }
      assert PrintRecord(path, payload, [])
          == RECORD_MAGIC + (Be(|path|, 4) + (path + (Be(|payload|, 8) + payload))) by {
        assert payload + [] == payload;
      }
      stream := Some(stream.value + (RECORD_MAGIC + (Be(|path|, 4) + (path + (Be(|payload|, 8) + payload)))));
      return None;
    }

    method Finalize() returns (failure: Option<Fault>)
      modifies this
      ensures if old(stream).Some? then failure == None && stream == None && finalized == old(stream)
              else failure == Some(WriteFailed) && stream == None && finalized == old(finalized)
    {
      if stream.None? {
        return Some(WriteFailed);
      }
      finalized, stream := stream, None;
      return None;
    }
  }

  lemma {:induction false} PrintEachSnoc(artifacts: seq<Artifact>, payloads: seq<seq<Byte>>, i: nat)
    requires |artifacts| == |payloads| && i < |artifacts|
    ensures PrintEach(PrintRecord, artifacts[..i + 1], payloads[..i + 1], [])
         == PrintEach(PrintRecord, artifacts[..i], payloads[..i], []) + PrintRecord(artifacts[i].path, payloads[i], [])
  {
    RecordPrefixes();
    EachSnoc(PrintRecord, artifacts, payloads, i);
  }

  lemma {:induction false} RecordPrefixes()
    ensures forall path, payload, rest, more ::
              PrintRecord(path, payload, rest + more) == PrintRecord(path, payload, rest) + more
  {
    forall path, payload, rest, more
      ensures PrintRecord(path, payload, rest + more) == PrintRecord(path, payload, rest) + more
    {
      var end := Be(|payload|, 8) + (payload + rest);
      assert Be(|payload|, 8) + (payload + (rest + more)) == end + more;
      TextThen(path, end, more);
      Assoc(RECORD_MAGIC, PrintText(path, end), more);
    }
  }

  lemma {:induction false} EachThen(put: RecordPrinter, artifacts: seq<Artifact>, payloads: seq<seq<Byte>>,
                                    rest: seq<Byte>, more: seq<Byte>)
    requires |artifacts| == |payloads|
    requires forall path, payload, r, m :: put(path, payload, r + m) == put(path, payload, r) + m
    ensures PrintEach(put, artifacts, payloads, rest + more) == PrintEach(put, artifacts, payloads, rest) + more
    decreases |artifacts|
  {
    if artifacts != [] {
      EachThen(put, artifacts[1..], payloads[1..], rest, more);
    }
  }

  lemma {:induction false} EachConcat(put: RecordPrinter, a: seq<Artifact>, p: seq<seq<Byte>>, b: seq<Artifact>,
                                      q: seq<seq<Byte>>, rest: seq<Byte>)
    requires |a| == |p| && |b| == |q|
    ensures PrintEach(put, a + b, p + q, rest) == PrintEach(put, a, p, PrintEach(put, b, q, rest))
    decreases |a|
  {
    if a == [] {
      assert a + b == b && p + q == q;
    } else {
      EachConcat(put, a[1..], p[1..], b, q, rest);
      assert (a + b)[1..] == a[1..] + b && (p + q)[1..] == p[1..] + q;
    }
  }

  lemma {:induction false} EachSnoc(put: RecordPrinter, artifacts: seq<Artifact>, payloads: seq<seq<Byte>>, i: nat)
    requires |artifacts| == |payloads| && i < |artifacts|
    requires forall path, payload, r, m :: put(path, payload, r + m) == put(path, payload, r) + m
    ensures PrintEach(put, artifacts[..i + 1], payloads[..i + 1], [])
         == PrintEach(put, artifacts[..i], payloads[..i], []) + put(artifacts[i].path, payloads[i], [])
  {
    var a, p := [artifacts[i]], [payloads[i]];
    assert artifacts[..i + 1] == artifacts[..i] + a && payloads[..i + 1] == payloads[..i] + p;
    EachConcat(put, artifacts[..i], payloads[..i], a, p, []);
    assert a[1..] == [] && p[1..] == [];
    var own := put(artifacts[i].path, payloads[i], []);
    assert PrintEach(put, a, p, []) == own;
    EachThen(put, artifacts[..i], payloads[..i], [], own);
    assert [] + own == own;
  }

  /** Writing a whole archive: the manifest, then every record in the manifest's order. */
  method WriteArchive(m: Manifest, payloads: seq<seq<Byte>>) returns (r: Result<seq<Byte>, Fault>)
    requires |payloads| == |m.artifacts|
    ensures r.Ok? <==> Encode(m, true).Ok? && |Encode(m, true).value| <= SCHEMA_V1.maxManifest
    ensures r.Ok? ==> r.value == Body(m, payloads)
  {
    var writer := new ArchiveWriter();
    var refused := writer.Open(m);
    if refused.Some? {
      return Err(refused.value);
    }
    ghost var front := writer.stream.value;
    var i := 0;
    assert front + [] == front;
    while i < |payloads|
      invariant i <= |payloads| && writer.finalized == None
      invariant writer.stream == Some(front + PrintEach(PrintRecord, m.artifacts[..i], payloads[..i], []))
    {
      var failed := writer.WriteRecord(m.artifacts[i].path, payloads[i]);
      assert failed == None;
      PrintEachSnoc(m.artifacts, payloads, i);
      Assoc(front, PrintEach(PrintRecord, m.artifacts[..i], payloads[..i], []),
            PrintRecord(m.artifacts[i].path, payloads[i], []));
      i := i + 1;
    }
    assert m.artifacts[..i] == m.artifacts && payloads[..i] == payloads;
    FrontThen(Encode(m, true).value, PrintEach(PrintRecord, m.artifacts, payloads, []));
    var finished := writer.Finalize();
    return Ok(writer.finalized.value);
  }

  lemma {:induction false} FrontThen(encoded: seq<Byte>, rest: seq<Byte>)
    ensures PrintFront(encoded, rest) == PrintFront(encoded, []) + rest
  {
    assert encoded + [] == encoded;
    assert Be(|encoded|, 8) + (encoded + rest) == (Be(|encoded|, 8) + encoded) + rest;
    Assoc(BODY_MAGIC, Be(|encoded|, 8) + encoded, rest);
  }

  /** The record loop, with the payloads read so far. */
  function ReadFurther(read: RecordReader, front: seq<seq<Byte>>, b: seq<Byte>, expected: seq<Artifact>,
                       total: nat): (g: Got<seq<seq<Byte>>>)
    decreases |expected|
  {
    if expected == [] then Got(front, b)
    else
      match read(b, expected[0].path, total)
      case Lost(f) => Lost(f)
      case Got(payload, b1) => ReadFurther(read, front + [payload], b1, expected[1..], total + |payload|)
  }

  lemma {:induction false} ReadFurtherIs(read: RecordReader, front: seq<seq<Byte>>, b: seq<Byte>,
                                         expected: seq<Artifact>, total: nat)
    ensures ReadFurther(read, front, b, expected, total)
         == match ReadEach(read, b, expected, total)
            case Lost(f) => Lost(f)
            case Got(payloads, rest) => Got(front + payloads, rest)
    decreases |expected|
  {
    if expected == [] {
      assert front + [] == front;
    } else {
      match read(b, expected[0].path, total)
      case Lost(_) =>
      case Got(payload, b1) =>
        ReadFurtherIs(read, front + [payload], b1, expected[1..], total + |payload|);
        match ReadEach(read, b1, expected[1..], total + |payload|)
        case Lost(_) =>
        case Got(payloads, _) => Assoc(front, [payload], payloads);
    }
  }

  ghost predicate IsRecordReader(read: RecordReader, limits: Limits) {
    forall b, path, total: nat {:trigger ReadRecord(b, path, total, limits)} ::
      read(b, path, total) == ReadRecord(b, path, total, limits)
  }

  /** One turn of the record loop. */
  method TakeRecord(b: seq<Byte>, expected: Text, total: nat, limits: Limits, ghost read: RecordReader)
    returns (g: Got<seq<Byte>>)
    requires IsRecordReader(read, limits)
    ensures g == read(b, expected, total)
  {
    assert read(b, expected, total) == ReadRecord(b, expected, total, limits);
    if |b| < 4 {
      return Lost(AuthenticationFailed);
    }
    if b[..4] != RECORD_MAGIC {
      return Lost(FormatInvalid);
    }
    var path := ReadText(b[4..], limits.maxPath, AuthenticationFailed);
    if path.Lost? {
      return Lost(path.fault);
    }
    var length := ReadInt(path.rest, 8, AuthenticationFailed);
    if length.Lost? {
      return Lost(length.fault);
    }
    if length.value > limits.maxSingle || total + length.value >= U64_SPAN || total + length.value > limits.maxTotal {
      return Lost(LimitExceeded);
    }
    if |length.rest| < length.value {
      return Lost(AuthenticationFailed);
    }
    if path.value != expected {
      return Lost(PathUnsafe);
    }
    return Got(length.rest[..length.value], length.rest[length.value..]);
  }

  /** The loop of `read_archive_records`. */
  method TakeRecords(b: seq<Byte>, expected: seq<Artifact>, limits: Limits, ghost read: RecordReader)
    returns (g: Got<seq<seq<Byte>>>)
    requires IsRecordReader(read, limits)
    ensures g == ReadEach(read, b, expected, 0)
  {
    ReadFurtherIs(read, [], b, expected, 0);
    var rest, payloads: seq<seq<Byte>>, total: nat, i := b, [], 0, 0;
    assert expected[0..] == expected;
    while i < |expected|
      invariant i <= |expected|
      invariant ReadFurther(read, [], b, expected, 0) == ReadFurther(read, payloads, rest, expected[i..], total)
    {
      assert expected[i..][1..] == expected[i + 1..];
      var taken := TakeRecord(rest, expected[i].path, total, limits, read);
      if taken.Lost? {
        return Lost(taken.fault);
      }
      payloads, rest, total := payloads + [taken.value], taken.rest, total + |taken.value|;
      i := i + 1;
    }
    NothingBefore(ReadEach(read, b, expected, 0));
    return Got(payloads, rest);
  }

  lemma {:induction false} NothingBefore(g: Got<seq<seq<Byte>>>)
    ensures g.Got? ==> [] + g.value == g.value
  {
  }

  /** `read_archive_records`, on the decrypted stream. */
  method ReadArchiveRecords(b: seq<Byte>, limits: Limits) returns (r: Result<(Manifest, seq<seq<Byte>>), Fault>)
    ensures r == ReadArchive(b, limits)
  {
    var front := ReadFront(b, limits);
    if front.Lost? {
      return Err(front.fault);
    }
    var records := TakeRecords(front.rest, front.value.artifacts, limits, ReaderOf(limits));
    if records.Lost? {
      return Err(records.fault);
    }
    if records.rest != [] {
      return Err(FormatInvalid);
    }
    return Ok((front.value, records.value));
  }
}
