/**
 The scan as the program runs it: two nested loops that keep the previous hash, the
 expected sequence and the growing vectors, proved to compute the parser of
 `AuditScan` and, from its frames, everything the running ledger holds in memory.
 */
module AuditReader {
  import opened Bytes
  import opened AuditTypes
  import opened AuditFrames
  import opened AuditLog
  import opened AuditScan
  import opened AuditAppend

  datatype Loaded = Loaded(
    records: seq<View>,
    owners: seq<nat>,
    segments: seq<Segment>,
    head: Head,
    lastHash: Hash,
    currentBytes: nat,
    recovered: bool,
    disk: Disk)

  /** What the loops carry from frame to frame. */
  datatype Cursor = Cursor(
    previous: Hash,
    expected: nat,
    records: seq<View>,
    owners: seq<nat>,
    checkpoints: seq<Pruned>,
    anchor: Option<(nat, Hash)>)

  /** The anchor kept for the first frame of a pruned ledger. */
  function AnchorOf(first: nat, fs: seq<Frame>): (a: Option<(nat, Hash)>)
  {
    if fs != [] && first > 1 then Some((fs[0].sequence, fs[0].previous)) else None
  }

  /** The cursor after these frames. */
  predicate At(env: Env, first: nat, c: Cursor, fs: seq<Frame>) {
    && Decoded(env, fs)
    && c.previous == LastHash(env, fs)
    && c.expected == NextSequence(fs)
    && c.records == Views(env, fs)
    && c.checkpoints == Checkpoints(env, fs)
    && c.anchor == AnchorOf(first, fs)
  }

  /** The cursor moves past a frame. */
  function Advance(env: Env, first: nat, c: Cursor, f: Frame, number: nat): (c': Cursor)
    requires env.decode(f.payload).Ok?
  {
    Cursor(
      Digest(env, f),
      f.sequence + 1,
      c.records + [View(f.sequence, RecordOf(env, f))],
      c.owners + [number],
      c.checkpoints + match PrunedOf(env, f) case None => [] case Some(p) => [p],
      if c.records == [] && first > 1 then Some((f.sequence, f.previous)) else c.anchor)
  }

  lemma {:induction false} AdvanceKeepsAt(env: Env, first: nat, c: Cursor, fs: seq<Frame>, f: Frame, number: nat)
    requires At(env, first, c, fs) && env.decode(f.payload).Ok?
    ensures At(env, first, Advance(env, first, c, f, number), fs + [f])
  {
    ViewsSnoc(env, fs, f);
    CheckpointsSnoc(env, fs, f);
  }

  datatype Turn = Took(frame: Frame, end: nat) | Broke(anchor: Option<(nat, Hash)>) | Refused(code: Code)

  /** One turn of the inner loop, with the program's own variables. */
  method ReadFrame(env: Env, opts: Options, first: nat, ghost fs: seq<Frame>, c: Cursor, bytes: seq<Byte>, offset: nat)
    returns (t: Turn)
    requires At(env, first, c, fs)
    requires offset < |bytes|
    ensures match LookAt(env, opts, first, fs, bytes[offset..])
            case Bad(code) => t == Refused(code)
            case Torn(orphan) => t.Broke? && (if orphan then t.anchor.Some? && fs == [] else t.anchor == c.anchor)
            case Next(f) => t == Took(f, offset + |FrameBytes(env, f)|) && t.end <= |bytes|
  {
    var rest := bytes[offset..];
    if |bytes| - offset < HEADER_LEN + HASH_LEN {
      return Broke(c.anchor);
    }
    if rest[..8] != MAGIC {
      return Refused(InteriorCorruption);
    }
    var version, flags, length := FromBe(rest[8..10]), FromBe(rest[10..12]), FromBe(rest[12..16]);
    var sequence, framePrevious := FromBe(rest[16..24]), rest[24..56];
    if version != 1 {
      return Refused(UnsupportedVersion);
    }
    if flags != 0 {
      return Refused(InteriorCorruption);
    }
    var anchor, expected, previous := c.anchor, c.expected, c.previous;
    if c.records == [] && first > 1 {
      anchor, expected, previous := Some((sequence, framePrevious)), sequence, framePrevious;
    }
    if framePrevious != previous {
      return Refused(ChainMismatch);
    }
    if sequence != expected {
      return Refused(SequenceInvalid);
    }
    if length > opts.maxPayload {
      return Refused(RecordTooLarge);
    }
    if |c.records| >= opts.maxScan {
      return Refused(CapacityReached);
    }
    var end := HEADER_LEN + length + HASH_LEN;
    if offset + end > |bytes| {
      return Broke(anchor);
    }
    var frame := Frame(sequence, previous, rest[HEADER_LEN..HEADER_LEN + length]);
    if Digest(env, frame) != rest[end - HASH_LEN..end] {
      return Refused(ChainMismatch);
    }
    match env.decode(frame.payload) {
      case Err(code) =>
        return Refused(code);
      case Ok(_) =>
        if sequence + 1 >= U64_SPAN {
          return Refused(SequenceInvalid);
        }
        return Took(frame, offset + end);
    }
  }

  /** A frame more in the file: the bytes read and the owners noted so far. */
  lemma {:induction false} TookFrame(env: Env, opts: Options, first: nat, before: seq<Frame>, fs: seq<Frame>, f: Frame,
                                     bytes: seq<Byte>, offset: nat)
    requires opts.maxPayload <= MAX_PAYLOAD_BYTES
    requires before <= fs && offset <= |bytes| && bytes[..offset] == FileBytes(env, fs[|before|..])
    requires LookAt(env, opts, first, fs, bytes[offset..]) == Next(f)
    ensures var end := offset + |FrameBytes(env, f)|;
            && end <= |bytes|
            && bytes[..end] == FileBytes(env, (fs + [f])[|before|..])
            && bytes[offset..][|FrameBytes(env, f)|..] == bytes[end..]
  {
    LookAtSound(env, opts, first, fs, bytes[offset..]);
    FileBytesSnoc(env, fs[|before|..], f);
    assert (fs + [f])[|before|..] == fs[|before|..] + [f];
    TakeMore(bytes, offset, |FrameBytes(env, f)|);
  }

  lemma TakeMore<T>(s: seq<T>, i: nat, n: nat)
    requires i + n <= |s|
    ensures s[..i + n] == s[..i] + s[i..][..n]
    ensures s[i..][n..] == s[i + n..]
  {
  }

  /** The inner loop at some offset: what is before it has been read, and the rest decides the outcome. */
  ghost predicate Reading(env: Env, opts: Options, first: nat, mayCut: bool, before: seq<Frame>, bytes: seq<Byte>,
                          fs: seq<Frame>, offset: nat) {
    && offset <= |bytes| && before <= fs
    && bytes[..offset] == FileBytes(env, fs[|before|..])
    && ScanRest(env, opts, first, mayCut, before, bytes) == ScanRest(env, opts, first, mayCut, fs, bytes[offset..])
  }

  lemma {:induction false} ReadingStart(env: Env, opts: Options, first: nat, mayCut: bool, before: seq<Frame>,
                                        bytes: seq<Byte>)
    ensures Reading(env, opts, first, mayCut, before, bytes, before, 0)
  {
    assert bytes[0..] == bytes;
    assert before[|before|..] == [];
  }

  lemma {:induction false} ReadingStep(env: Env, opts: Options, first: nat, mayCut: bool, before: seq<Frame>,
                                       bytes: seq<Byte>, fs: seq<Frame>, offset: nat, f: Frame, fs': seq<Frame>,
                                       end: nat)
    requires opts.maxPayload <= MAX_PAYLOAD_BYTES && fs' == fs + [f] && end == offset + |FrameBytes(env, f)|
    requires Reading(env, opts, first, mayCut, before, bytes, fs, offset) && offset < |bytes|
    requires LookAt(env, opts, first, fs, bytes[offset..]) == Next(f)
    ensures offset < end && Reading(env, opts, first, mayCut, before, bytes, fs', end)
  {
    TookFrame(env, opts, first, before, fs, f, bytes, offset);
    ScanRestNext(env, opts, first, mayCut, fs, bytes[offset..], f);
    assert before <= fs';
    assert bytes[offset..][|FrameBytes(env, f)|..] == bytes[end..];
    assert ScanRest(env, opts, first, mayCut, before, bytes) == ScanRest(env, opts, first, mayCut, fs', bytes[end..]);
  }

  lemma {:induction false} ScanRestNext(env: Env, opts: Options, first: nat, mayCut: bool, fs: seq<Frame>,
                                        rest: seq<Byte>, f: Frame)
    requires rest != [] && LookAt(env, opts, first, fs, rest) == Next(f) && |FrameBytes(env, f)| <= |rest|
    ensures ScanRest(env, opts, first, mayCut, fs, rest)
         == ScanRest(env, opts, first, mayCut, fs + [f], rest[|FrameBytes(env, f)|..])
  {
  }

  /** How the loop ends: the scan's own result, and the bytes that stay in the file. */
  lemma {:induction false} ReadingEnd(env: Env, opts: Options, first: nat, mayCut: bool, before: seq<Frame>,
                                      bytes: seq<Byte>, fs: seq<Frame>, offset: nat)
    requires Reading(env, opts, first, mayCut, before, bytes, fs, offset)
    ensures offset == |bytes| ==>
              ScanRest(env, opts, first, mayCut, before, bytes) == Ok((fs, Whole))
                && bytes == FileBytes(env, fs[|before|..])
    ensures offset < |bytes| ==>
              match LookAt(env, opts, first, fs, bytes[offset..])
              case Bad(code) => ScanRest(env, opts, first, mayCut, before, bytes) == Err(code)
              case Torn(orphan) =>
                ScanRest(env, opts, first, mayCut, before, bytes)
                == if mayCut then Ok((fs, Tail(orphan))) else Err(TrailingFrameIncomplete)
              case Next(_) => true
  {
    if offset == |bytes| {
      assert bytes[..offset] == bytes;
    }
  }

  /** What reading a file returns, against the parser. */
  ghost predicate FileRead(env: Env, opts: Options, first: nat, mayCut: bool, before: seq<Frame>, start: Cursor,
                           number: nat, bytes: seq<Byte>, r: Result<Cursor, Code>, kept: seq<Byte>, cut: bool) {
    match ScanRest(env, opts, first, mayCut, before, bytes)
    case Err(code) => r == Err(code)
    case Ok((fs, c)) =>
      && r.Ok? && cut == c.Tail?
      && kept == FileBytes(env, fs[|before|..])
      && r.value.owners == start.owners + Repeat(number, |fs| - |before|)
      && At(env, first, r.value.(anchor := AnchorOf(first, fs)), fs)
      && (if c == Tail(true) then fs == [] && r.value.anchor.Some? else r.value.anchor == AnchorOf(first, fs))
  }

  /** The inner loop so far. */
  ghost predicate Read(env: Env, opts: Options, first: nat, mayCut: bool, before: seq<Frame>, start: Cursor,
                       number: nat, bytes: seq<Byte>, fs: seq<Frame>, c: Cursor, offset: nat) {
    && Reading(env, opts, first, mayCut, before, bytes, fs, offset)
    && At(env, first, c, fs)
    && c.owners == start.owners + Repeat(number, |fs| - |before|)
  }

  lemma {:induction false} ReadStart(env: Env, opts: Options, first: nat, mayCut: bool, before: seq<Frame>,
                                     start: Cursor, number: nat, bytes: seq<Byte>)
    requires At(env, first, start, before)
    ensures Read(env, opts, first, mayCut, before, start, number, bytes, before, start, 0)
  {
    ReadingStart(env, opts, first, mayCut, before, bytes);
  }

  lemma {:induction false} ReadOn(env: Env, opts: Options, first: nat, mayCut: bool, before: seq<Frame>, start: Cursor,
                                  number: nat, bytes: seq<Byte>, fs: seq<Frame>, c: Cursor, offset: nat, f: Frame,
                                  fs': seq<Frame>, c': Cursor, end: nat)
    requires opts.maxPayload <= MAX_PAYLOAD_BYTES && offset < |bytes|
    requires Read(env, opts, first, mayCut, before, start, number, bytes, fs, c, offset)
    requires LookAt(env, opts, first, fs, bytes[offset..]) == Next(f) && env.decode(f.payload).Ok?
    requires fs' == fs + [f] && c' == Advance(env, first, c, f, number) && end == offset + |FrameBytes(env, f)|
    ensures offset < end <= |bytes| && Read(env, opts, first, mayCut, before, start, number, bytes, fs', c', end)
  {
    ReadingStep(env, opts, first, mayCut, before, bytes, fs, offset, f, fs', end);
    AdvanceKeepsAt(env, first, c, fs, f, number);
    OneMoreOwner(start.owners, number, |fs| - |before|);
    assert |fs'| - |before| == |fs| - |before| + 1;
  }

  lemma {:induction false} OneMoreOwner(owners: seq<nat>, number: nat, n: nat)
    ensures (owners + Repeat(number, n)) + [number] == owners + Repeat(number, n + 1)
  {
  }

  lemma {:induction false} ReadBad(env: Env, opts: Options, first: nat, mayCut: bool, before: seq<Frame>, start: Cursor,
                                   number: nat, bytes: seq<Byte>, fs: seq<Frame>, c: Cursor, offset: nat, code: Code)
    requires offset < |bytes| && Read(env, opts, first, mayCut, before, start, number, bytes, fs, c, offset)
    requires var look := LookAt(env, opts, first, fs, bytes[offset..]);
             look == Bad(code) || (look.Torn? && !mayCut && code == TrailingFrameIncomplete)
    ensures FileRead(env, opts, first, mayCut, before, start, number, bytes, Err(code), bytes, false)
  {
    ReadingEnd(env, opts, first, mayCut, before, bytes, fs, offset);
  }

  lemma {:induction false} ReadTorn(env: Env, opts: Options, first: nat, before: seq<Frame>, start: Cursor,
                                    number: nat, bytes: seq<Byte>, fs: seq<Frame>, c: Cursor, offset: nat,
                                    orphan: bool, anchor: Option<(nat, Hash)>)
    requires offset < |bytes| && Read(env, opts, first, true, before, start, number, bytes, fs, c, offset)
    requires LookAt(env, opts, first, fs, bytes[offset..]) == Torn(orphan)
    requires if orphan then anchor.Some? && fs == [] else anchor == c.anchor
    ensures FileRead(env, opts, first, true, before, start, number, bytes, Ok(c.(anchor := anchor)), bytes[..offset],
                     true)
  {
    ReadingEnd(env, opts, first, true, before, bytes, fs, offset);
    FileReadIs(env, opts, first, true, before, start, number, bytes, fs, Tail(orphan), c, anchor, bytes[..offset]);
  }

  lemma {:induction false} FileReadIs(env: Env, opts: Options, first: nat, mayCut: bool, before: seq<Frame>,
                                      start: Cursor, number: nat, bytes: seq<Byte>, fs: seq<Frame>, k: Cut, c: Cursor,
                                      anchor: Option<(nat, Hash)>, kept: seq<Byte>)
    requires ScanRest(env, opts, first, mayCut, before, bytes) == Ok((fs, k)) && before <= fs && At(env, first, c, fs)
    requires kept == FileBytes(env, fs[|before|..]) && c.owners == start.owners + Repeat(number, |fs| - |before|)
    requires if k == Tail(true) then fs == [] && anchor.Some? else anchor == c.anchor
    ensures FileRead(env, opts, first, mayCut, before, start, number, bytes, Ok(c.(anchor := anchor)), kept, k.Tail?)
  {
    assert c.(anchor := anchor).(anchor := AnchorOf(first, fs)) == c;
  }

  lemma {:induction false} ReadWhole(env: Env, opts: Options, first: nat, mayCut: bool, before: seq<Frame>,
                                     start: Cursor, number: nat, bytes: seq<Byte>, fs: seq<Frame>, c: Cursor,
                                     offset: nat)
    requires offset == |bytes| && Read(env, opts, first, mayCut, before, start, number, bytes, fs, c, offset)
    ensures FileRead(env, opts, first, mayCut, before, start, number, bytes, Ok(c), bytes, false)
  {
    ReadingEnd(env, opts, first, mayCut, before, bytes, fs, offset);
    assert c.(anchor := AnchorOf(first, fs)) == c;
  }

  datatype Progress = Going(c: Cursor, offset: nat) | Finished(r: Result<Cursor, Code>, kept: seq<Byte>, cut: bool)

  /** The body of the inner loop. */
  method ReadTurn(env: Env, opts: Options, first: nat, mayCut: bool, ghost before: seq<Frame>, ghost start: Cursor,
                  number: nat, bytes: seq<Byte>, ghost fs: seq<Frame>, c: Cursor, offset: nat)
    returns (p: Progress, ghost fs': seq<Frame>)
    requires opts.maxPayload <= MAX_PAYLOAD_BYTES && offset < |bytes|
    requires Read(env, opts, first, mayCut, before, start, number, bytes, fs, c, offset)
    ensures p.Going? ==>
              offset < p.offset <= |bytes|
                && Read(env, opts, first, mayCut, before, start, number, bytes, fs', p.c, p.offset)
    ensures p.Finished? ==> FileRead(env, opts, first, mayCut, before, start, number, bytes, p.r, p.kept, p.cut)
  {
    var turn := ReadFrame(env, opts, first, fs, c, bytes, offset);
    ghost var look := LookAt(env, opts, first, fs, bytes[offset..]);
    fs' := fs;
    match turn {
      case Refused(code) =>
        ReadBad(env, opts, first, mayCut, before, start, number, bytes, fs, c, offset, code);
        return Finished(Err(code), bytes, false), fs;
      case Broke(anchor) =>
        if !mayCut {
          ReadBad(env, opts, first, mayCut, before, start, number, bytes, fs, c, offset, TrailingFrameIncomplete);
          return Finished(Err(TrailingFrameIncomplete), bytes, false), fs;
        }
        ReadTorn(env, opts, first, before, start, number, bytes, fs, c, offset, look.orphan, anchor);
        return Finished(Ok(c.(anchor := anchor)), bytes[..offset], true), fs;
      case Took(frame, end) =>
        LookAtSound(env, opts, first, fs, bytes[offset..]);
        var c' := Advance(env, first, c, frame, number);
        fs' := fs + [frame];
        ReadOn(env, opts, first, mayCut, before, start, number, bytes, fs, c, offset, frame, fs', c', end);
        p := Going(c', end);
    }
  }

  /** The inner loop: the frames of one file. */
  method ReadFile(env: Env, opts: Options, first: nat, mayCut: bool, ghost before: seq<Frame>, start: Cursor,
                  number: nat, bytes: seq<Byte>)
    returns (r: Result<Cursor, Code>, kept: seq<Byte>, cut: bool)
    requires opts.maxPayload <= MAX_PAYLOAD_BYTES
    requires At(env, first, start, before)
    ensures FileRead(env, opts, first, mayCut, before, start, number, bytes, r, kept, cut)
  {
    var c, offset := start, 0;
    ghost var fs := before;
    ReadStart(env, opts, first, mayCut, before, start, number, bytes);
    while offset < |bytes|
      invariant offset <= |bytes|
      invariant Read(env, opts, first, mayCut, before, start, number, bytes, fs, c, offset)
    {
      var p: Progress;
      p, fs := ReadTurn(env, opts, first, mayCut, before, start, number, bytes, fs, c, offset);
      if p.Finished? {
        return p.r, p.kept, p.cut;
      }
      c, offset := p.c, p.offset;
    }
    ReadWhole(env, opts, first, mayCut, before, start, number, bytes, fs, c, offset);
    return Ok(c), bytes, false;
  }

  // ----- the outer loop -----

  /** The descriptor pushed after a file, from the vectors before and after it. */
  function Described(start: Cursor, c: Cursor, number: nat, kept: seq<Byte>): (d: Segment)
  {
    var n, m := |start.records|, |c.records|;
    Segment(
      number,
      if n < m then c.records[n].sequence else start.expected,
      if n < m then c.records[m - 1].sequence else 0,
      c.previous,
      |kept|)
  }

  /** The outer loop so far: the vectors and files are those of the segments read. */
  ghost predicate Scanned(env: Env, first: nat, done: Log, cut: Cut, c: Cursor, segments: seq<Segment>, kept: Disk) {
    && At(env, first, c.(anchor := AnchorOf(first, Flat(done))), Flat(done))
    && c.owners == Owners(done)
    && segments == Segments(env, done)
    && kept == Render(env, done)
    && (if cut == Tail(true) then Flat(done) == [] && c.anchor.Some? else c.anchor == AnchorOf(first, Flat(done)))
  }

  lemma {:induction false} DescribedIs(env: Env, first: nat, before: seq<Frame>, fs: seq<Frame>, start: Cursor,
                                       c: Cursor, number: nat, kept: seq<Byte>)
    requires before <= fs && At(env, first, start, before) && At(env, first, c.(anchor := AnchorOf(first, fs)), fs)
    requires kept == FileBytes(env, fs[|before|..])
    ensures Described(start, c, number, kept) == SegmentOf(env, before, Seg(number, fs[|before|..]))
  {
    assert before + fs[|before|..] == fs;
  }

  lemma {:induction false} RenderSnoc(env: Env, log: Log, s: Seg)
    ensures Render(env, log + [s]) == Render(env, log) + [FileOf(env, s)]
  {
  }

  lemma {:induction false} NextFile(env: Env, opts: Options, first: nat, mayCut: bool, done: Log,
                                    segments: seq<Segment>, files: Disk, start: Cursor, number: nat, bytes: seq<Byte>,
                                    c: Cursor, kept: seq<Byte>, cut: bool)
    returns (s: Seg, k: Cut)
    requires Scanned(env, first, done, Whole, start, segments, files)
    requires FileRead(env, opts, first, mayCut, Flat(done), start, number, bytes, Ok(c), kept, cut)
    ensures ScanRest(env, opts, first, mayCut, Flat(done), bytes).Ok?
    ensures var r := ScanRest(env, opts, first, mayCut, Flat(done), bytes).value;
            s == Seg(number, r.0[|Flat(done)|..]) && k == r.1 && cut == k.Tail?
    ensures Scanned(env, first, done + [s], k, c, segments + [Described(start, c, number, kept)],
                    files + [File(number, kept)])
  {
    var before := Flat(done);
    var fs := ScanRest(env, opts, first, mayCut, before, bytes).value.0;
    s, k := Seg(number, fs[|before|..]), ScanRest(env, opts, first, mayCut, before, bytes).value.1;
    assert start.(anchor := AnchorOf(first, before)) == start;
    DescribedIs(env, first, before, fs, start, c, number, kept);
    NextLog(env, done, s, fs);
  }

  /** The log with one more segment. */
  lemma {:induction false} NextLog(env: Env, done: Log, s: Seg, fs: seq<Frame>)
    requires Flat(done) <= fs && s.frames == fs[|Flat(done)|..]
    ensures Flat(done + [s]) == fs
    ensures Owners(done + [s]) == Owners(done) + Repeat(s.number, |fs| - |Flat(done)|)
    ensures Segments(env, done + [s]) == Segments(env, done) + [SegmentOf(env, Flat(done), s)]
    ensures Render(env, done + [s]) == Render(env, done) + [FileOf(env, s)]
  {
    FlatSnoc(done, s);
    assert Flat(done) + fs[|Flat(done)|..] == fs;
    OwnersSnoc(done, s);
    SegmentsSnoc(env, done, s);
    RenderSnoc(env, done, s);
  }

  /** One file of the outer loop, in the parser. */
  lemma {:induction false} ScanFilesStep(env: Env, opts: Options, first: nat, allowRecovery: bool, done: Log,
                                         disk: Disk, i: nat)
    requires i < |disk|
    ensures var mayCut := allowRecovery && i + 1 == |disk|;
            ScanFiles(env, opts, first, allowRecovery, done, disk[i..])
            == match ScanRest(env, opts, first, mayCut, Flat(done), disk[i].bytes)
               case Err(code) => Err(code)
               case Ok((fs, cut)) =>
                 var done' := done + [Seg(disk[i].number, fs[|Flat(done)|..])];
                 if i + 1 == |disk| then Ok((done', cut))
                 else ScanFiles(env, opts, first, allowRecovery, done', disk[i + 1..])
  {
    assert disk[i..][1..] == disk[i + 1..];
  }

  /** What a ledger holds in memory, and its files, for a log. */
  function Image(env: Env, generation: nat, log: Log, cut: bool): (m: Loaded)
    requires log != [] && Decoded(env, Flat(log))
  {
    Loaded(Views(env, Flat(log)), Owners(log), Segments(env, log), Head(generation, LastSequence(Flat(log))),
           LastHash(env, Flat(log)), CurrentBytes(env, log), cut, Render(env, log))
  }

  /** `first_segment.saturating_sub(1)` */
  function Generation(first: nat): (n: nat)
  {
    if first == 0 then 0 else first - 1
  }

  /** What the scan returns, against the parser. */
  ghost predicate Loads(env: Env, opts: Options, allowRecovery: bool, disk: Disk, r: Result<Loaded, Code>)
    requires disk != []
  {
    match Scan(env, opts, allowRecovery, disk)
    case Err(code) => r == Err(code)
    case Ok((log, cut)) =>
      log != [] && Decoded(env, Flat(log)) && r == Ok(Image(env, Generation(disk[0].number), log, cut))
  }

  /** The test on the retained anchor. */
  predicate AnchorHolds(c: Cursor) {
    c.anchor.Some? ==>
      exists i :: 0 <= i < |c.checkpoints| && Vouches(c.checkpoints[i], c.anchor.value.0, c.anchor.value.1)
  }

  lemma {:induction false} AnchorTest(env: Env, first: nat, done: Log, k: Cut, c: Cursor, segments: seq<Segment>,
                                      kept: Disk)
    requires Scanned(env, first, done, k, c, segments, kept)
    ensures AnchorHolds(c) <==> k != Tail(true) && Anchored(env, first, Flat(done))
  {
    var fs := Flat(done);
    assert c.checkpoints == Checkpoints(env, fs);
    if k == Tail(true) {
      assert c.checkpoints == [];
    }
  }

  function Collect(first: nat, c: Cursor, segments: seq<Segment>, kept: Disk, cut: bool): (m: Loaded)
    requires segments != []
  {
    Loaded(c.records, c.owners, segments,
           Head(Generation(first), if c.records == [] then 0 else c.records[|c.records| - 1].sequence),
           c.previous, segments[|segments| - 1].bytes, cut, kept)
  }

  lemma {:induction false} CollectIs(env: Env, first: nat, done: Log, k: Cut, c: Cursor, segments: seq<Segment>,
                                     kept: Disk)
    requires done != [] && Scanned(env, first, done, k, c, segments, kept)
    ensures Decoded(env, Flat(done)) && segments != []
    ensures Collect(first, c, segments, kept, k.Tail?) == Image(env, Generation(first), done, k.Tail?)
  {
    SegmentsAt(env, done, |done| - 1);
  }

  lemma {:induction false} LoadsEnd(env: Env, opts: Options, allowRecovery: bool, disk: Disk, done: Log, k: Cut,
                                    c: Cursor, segments: seq<Segment>, kept: Disk)
    requires disk != [] && done != [] && segments != []
    requires Scanned(env, disk[0].number, done, k, c, segments, kept)
    requires ScanFiles(env, opts, disk[0].number, allowRecovery, [], disk) == Ok((done, k))
    ensures Loads(env, opts, allowRecovery, disk,
                  if AnchorHolds(c) then Ok(Collect(disk[0].number, c, segments, kept, k.Tail?))
                  else Err(ChainMismatch))
  {
    AnchorTest(env, disk[0].number, done, k, c, segments, kept);
    CollectIs(env, disk[0].number, done, k, c, segments, kept);
  }

  lemma {:induction false} ScannedStart(env: Env, first: nat, c: Cursor)
    requires c == Cursor(ZERO_HASH, 1, [], [], [], None)
    ensures Scanned(env, first, [], Whole, c, [], [])
  {
    assert c.(anchor := AnchorOf(first, [])) == c;
  }

  /** The vectors of the outer loop. */
  datatype Vectors = Vectors(c: Cursor, segments: seq<Segment>, kept: Disk, recovered: bool)

  /** The outer loop before file i. */
  ghost predicate Scanning(env: Env, opts: Options, allowRecovery: bool, disk: Disk, i: nat, v: Vectors, done: Log,
                           k: Cut)
    requires i <= |disk| && disk != []
  {
    && |done| == i && |v.segments| == i && v.recovered == k.Tail? && (i < |disk| ==> k == Whole)
    && Scanned(env, disk[0].number, done, k, v.c, v.segments, v.kept)
    && ScanFiles(env, opts, disk[0].number, allowRecovery, [], disk)
       == if i < |disk| then ScanFiles(env, opts, disk[0].number, allowRecovery, done, disk[i..]) else Ok((done, k))
  }

  /** The body of the outer loop. */
  method ScanFile(env: Env, opts: Options, allowRecovery: bool, disk: Disk, i: nat, v: Vectors, ghost done: Log)
    returns (r: Result<Vectors, Code>, ghost done': Log, ghost k': Cut)
    requires i < |disk| && opts.maxPayload <= MAX_PAYLOAD_BYTES
    requires Scanning(env, opts, allowRecovery, disk, i, v, done, Whole)
    ensures r.Ok? ==> Scanning(env, opts, allowRecovery, disk, i + 1, r.value, done', k')
    ensures r.Err? ==> Loads(env, opts, allowRecovery, disk, Err(r.error))
  {
    var first, mayCut := disk[0].number, allowRecovery && i + 1 == |disk|;
    done', k' := done, Whole;
    ScanFilesStep(env, opts, first, allowRecovery, done, disk, i);
    assert v.c.(anchor := AnchorOf(first, Flat(done))) == v.c;
    var read, bytes, cut := ReadFile(env, opts, first, mayCut, Flat(done), v.c, disk[i].number, disk[i].bytes);
    if read.Err? {
      return Err(read.error), done, Whole;
    }
    ghost var s;
    s, k' := NextFile(env, opts, first, mayCut, done, v.segments, v.kept, v.c, disk[i].number, disk[i].bytes,
                      read.value, bytes, cut);
    done' := done + [s];
    return Ok(Vectors(read.value, v.segments + [Described(v.c, read.value, disk[i].number, bytes)],
                      v.kept + [File(disk[i].number, bytes)], cut)), done', k';
  }

  /** The scan of the segment files: the whole of `scan_segments`. */
  method ScanSegments(env: Env, opts: Options, allowRecovery: bool, disk: Disk) returns (r: Result<Loaded, Code>)
    requires disk != [] && opts.maxPayload <= MAX_PAYLOAD_BYTES
    ensures Loads(env, opts, allowRecovery, disk, r)
  {
    var first := disk[0].number;
    var v := Vectors(Cursor(ZERO_HASH, 1, [], [], [], None), [], [], false);
    ghost var done: Log, k := [], Whole;
    ScannedStart(env, first, v.c);
    assert disk[0..] == disk;
    var i := 0;
    while i < |disk|
      invariant i <= |disk| && Scanning(env, opts, allowRecovery, disk, i, v, done, k)
    {
      var next: Result<Vectors, Code>;
      next, done, k := ScanFile(env, opts, allowRecovery, disk, i, v, done);
      if next.Err? {
        return Err(next.error);
      }
      v, i := next.value, i + 1;
    }
    LoadsEnd(env, opts, allowRecovery, disk, done, k, v.c, v.segments, v.kept);
    if !AnchorHolds(v.c) {
      return Err(ChainMismatch);
    }
    return Ok(Collect(first, v.c, v.segments, v.kept, v.recovered));
  }
}
