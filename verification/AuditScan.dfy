/**
 `scan_segments` as a parser from segment files to the log they stand for. The parser
 keeps only the frames taken so far; everything else the scan collects (record views,
 segment descriptors, head, hashes) is a function of the frames.

 Main results: the parser reads back exactly what was rendered, it cuts exactly a torn
 tail, and it accepts nothing else.
 */
module AuditScan {
  import opened Bytes
  import opened AuditTypes
  import opened AuditFrames
  import opened AuditLog

  /**
   The frame at the front of the remaining bytes. A torn frame may have shown a whole
   header before it broke off; for the first frame of a pruned ledger the scan then
   already holds an anchor, which `orphan` records.
   */
  datatype Look = Torn(orphan: bool) | Bad(code: Code) | Next(frame: Frame)

  datatype Cut = Whole | Tail(orphan: bool)

  function LookAt(env: Env, opts: Options, first: nat, fs: seq<Frame>, rest: seq<Byte>): (r: Look)
    ensures r.Next? ==> |FrameBytes(env, r.frame)| <= |rest|
  {
    if |rest| < HEADER_LEN + HASH_LEN then Torn(false)
    else if rest[..8] != MAGIC then Bad(InteriorCorruption)
    else if FromBe(rest[8..10]) != 1 then Bad(UnsupportedVersion)
    else if FromBe(rest[10..12]) != 0 then Bad(InteriorCorruption)
    else
      var anchor := fs == [] && first > 1;
      var previous := if anchor then rest[24..56] else LastHash(env, fs);
      var expected := if anchor then FromBe(rest[16..24]) else NextSequence(fs);
      if rest[24..56] != previous then Bad(ChainMismatch)
      else if FromBe(rest[16..24]) != expected then Bad(SequenceInvalid)
      else TakeFrame(env, opts, |fs|, anchor, expected, previous, rest)
  }

  /** The rest of the turn, once the header matches the chain: length, hash and payload. */
  function TakeFrame(env: Env, opts: Options, taken: nat, anchor: bool, expected: nat, previous: Hash,
                     rest: seq<Byte>): (r: Look)
    requires |rest| >= HEADER_LEN + HASH_LEN
    ensures r.Next? ==> |FrameBytes(env, r.frame)| <= |rest|
  {
    var length := FromBe(rest[12..16]);
    if length > opts.maxPayload then Bad(RecordTooLarge)
    else if taken >= opts.maxScan then Bad(CapacityReached)
    else if HEADER_LEN + length + HASH_LEN > |rest| then Torn(anchor)
    else
      var end := HEADER_LEN + length + HASH_LEN;
      var frame := Frame(expected, previous, rest[HEADER_LEN..HEADER_LEN + length]);
      if Digest(env, frame) != rest[end - HASH_LEN..end] then Bad(ChainMismatch)
      else if env.decode(frame.payload).Err? then Bad(env.decode(frame.payload).error)
      else if expected + 1 >= U64_SPAN then Bad(SequenceInvalid)
      else Next(frame)
  }

  /** The inner loop over one file: all frames taken so far, and whether a tail was cut. */
  function ScanRest(env: Env, opts: Options, first: nat, mayCut: bool, fs: seq<Frame>, rest: seq<Byte>):
    (r: Result<(seq<Frame>, Cut), Code>)
    ensures r.Ok? ==> fs <= r.value.0 && (r.value.1.Tail? ==> mayCut)
    decreases |rest|
  {
    if rest == [] then Ok((fs, Whole))
    else
      match LookAt(env, opts, first, fs, rest)
      case Bad(code) => Err(code)
      case Torn(orphan) => if mayCut then Ok((fs, Tail(orphan))) else Err(TrailingFrameIncomplete)
      case Next(frame) =>
        ScanRest(env, opts, first, mayCut, fs + [frame], rest[|FrameBytes(env, frame)|..])
  }

  /** The outer loop: the segments read so far, extended by the remaining files. */
  function ScanFiles(env: Env, opts: Options, first: nat, allowRecovery: bool, log: Log, files: Disk):
    (r: Result<(Log, Cut), Code>)
    ensures r.Ok? ==> |r.value.0| == |log| + |files| && (r.value.1.Tail? ==> allowRecovery)
    decreases |files|
  {
    if files == [] then Ok((log, Whole))
    else
      var before := Flat(log);
      match ScanRest(env, opts, first, allowRecovery && |files| == 1, before, files[0].bytes)
      case Err(code) => Err(code)
      case Ok((fs, cut)) =>
        var log' := log + [Seg(files[0].number, fs[|before|..])];
        if |files| == 1 then Ok((log', cut))
        else ScanFiles(env, opts, first, allowRecovery, log', files[1..])
  }

  /** After the loops: a pruned ledger needs a checkpoint that vouches for its first frame. */
  function Conclude(env: Env, first: nat, r: Result<(Log, Cut), Code>): (o: Result<(Log, bool), Code>)
  {
    match r
    case Err(code) => Err(code)
    case Ok((log, cut)) =>
      if cut == Tail(true) || !Anchored(env, first, Flat(log)) then Err(ChainMismatch)
      else Ok((log, cut.Tail?))
  }

  /** The scan: the log of the files, and whether a torn tail was cut off the last one. */
  function Scan(env: Env, opts: Options, allowRecovery: bool, disk: Disk): (r: Result<(Log, bool), Code>)
    requires disk != []
    ensures r.Ok? ==> |r.value.0| == |disk| && (r.value.1 ==> allowRecovery)
  {
    var first := disk[0].number;
    Conclude(env, first, ScanFiles(env, opts, first, allowRecovery, [], disk))
  }

  // ----- reading back what was rendered -----

  /** f may come next after fs: it continues the chain, or it is the anchor of a pruned ledger. */
  predicate Continues(env: Env, first: nat, fs: seq<Frame>, f: Frame) {
    || (fs == [] && first > 1)
    || (f.previous == LastHash(env, fs) && f.sequence == NextSequence(fs))
  }

  /** Where the parts of a rendered frame lie in the remaining bytes. */
  lemma FrameBytesParts(env: Env, f: Frame, rest: seq<Byte>, n: nat)
    requires HEADER_LEN <= n <= |FrameBytes(env, f)| && n <= |rest|
    requires rest[..n] == FrameBytes(env, f)[..n]
    ensures rest[..HEADER_LEN] == Header(f)
    ensures n == |FrameBytes(env, f)| ==> rest[HEADER_LEN..HEADER_LEN + |f.payload|] == f.payload
    ensures n == |FrameBytes(env, f)| ==> rest[n - HASH_LEN..n] == Digest(env, f)
  {
    var b := FrameBytes(env, f);
    assert rest[..HEADER_LEN] == rest[..n][..HEADER_LEN];
    assert b[..n][..HEADER_LEN] == b[..HEADER_LEN] == Header(f);
    if n == |b| {
      assert b[..n] == b;
      assert rest[HEADER_LEN..HEADER_LEN + |f.payload|] == rest[..n][HEADER_LEN..HEADER_LEN + |f.payload|];
      assert b[HEADER_LEN..HEADER_LEN + |f.payload|] == f.payload;
      assert rest[n - HASH_LEN..n] == rest[..n][n - HASH_LEN..];
      assert b[n - HASH_LEN..] == Digest(env, f);
    }
  }

  /** The scan takes a rendered frame that continues the chain, whatever follows it. */
  lemma LookAtFrame(env: Env, opts: Options, first: nat, fs: seq<Frame>, f: Frame, tail: seq<Byte>)
    requires Storable(env, opts, f)
    requires |fs| < opts.maxScan
    requires Continues(env, first, fs, f)
    ensures LookAt(env, opts, first, fs, FrameBytes(env, f) + tail) == Next(f)
  {
    var n := |FrameBytes(env, f)|;
    var rest := FrameBytes(env, f) + tail;
    assert rest[..n] == FrameBytes(env, f)[..n];
    FrameBytesParts(env, f, rest, n);
    HeaderFields(f, rest);
  }

  /** Any strict, non-empty prefix of the next frame is seen as torn. */
  lemma LookAtTorn(env: Env, opts: Options, first: nat, fs: seq<Frame>, f: Frame, n: nat)
    requires Storable(env, opts, f)
    requires |fs| < opts.maxScan
    requires f.previous == LastHash(env, fs) && f.sequence == NextSequence(fs)
    requires first > 1 ==> fs != []
    requires 0 < n < |FrameBytes(env, f)|
    ensures LookAt(env, opts, first, fs, FrameBytes(env, f)[..n]) == Torn(false)
  {
    var rest := FrameBytes(env, f)[..n];
    if n >= HEADER_LEN + HASH_LEN {
      assert rest[..n] == rest;
      FrameBytesParts(env, f, rest, n);
      HeaderFields(f, rest);
    }
  }

  /** In a chain, the frame after a prefix continues it. */
  lemma ContinuesAt(env: Env, opts: Options, first: nat, fs: seq<Frame>, more: seq<Frame>)
    requires Chain(env, opts, first, fs + more)
    requires more != []
    ensures Continues(env, first, fs, more[0])
    ensures Storable(env, opts, more[0])
  {
    var all := fs + more;
    assert all[|fs|] == more[0];
    if fs != [] {
      assert FollowsAt(env, all, |fs|);
      assert all[|fs| - 1] == fs[|fs| - 1];
    }
  }

  lemma FileBytesCons(env: Env, more: seq<Frame>, tail: seq<Byte>)
    requires more != []
    ensures FileBytes(env, more) + tail == FrameBytes(env, more[0]) + (FileBytes(env, more[1..]) + tail)
  {
    Assoc(FrameBytes(env, more[0]), FileBytes(env, more[1..]), tail);
  }

  /** One turn of the inner loop over the first of some rendered frames. */
  lemma ScanStep(env: Env, opts: Options, first: nat, mayCut: bool, fs: seq<Frame>, more: seq<Frame>, tail: seq<Byte>)
    requires more != []
    requires Storable(env, opts, more[0])
    requires |fs| < opts.maxScan
    requires Continues(env, first, fs, more[0])
    ensures ScanRest(env, opts, first, mayCut, fs, FileBytes(env, more) + tail)
         == ScanRest(env, opts, first, mayCut, fs + [more[0]], FileBytes(env, more[1..]) + tail)
  {
    var rest := FileBytes(env, more[1..]) + tail;
    FileBytesCons(env, more, tail);
    LookAtFrame(env, opts, first, fs, more[0], rest);
    Seam(FrameBytes(env, more[0]), rest);
  }

  /** The inner loop runs through rendered frames and goes on with what follows them. */
  lemma {:induction false} ScanFrames(env: Env, opts: Options, first: nat, mayCut: bool, fs: seq<Frame>,
                                      more: seq<Frame>, tail: seq<Byte>)
    requires Chain(env, opts, first, fs + more)
    requires |fs + more| <= opts.maxScan
    ensures ScanRest(env, opts, first, mayCut, fs, FileBytes(env, more) + tail)
         == ScanRest(env, opts, first, mayCut, fs + more, tail)
    decreases |more|
  {
    if more == [] {
      assert fs + more == fs;
      assert FileBytes(env, more) + tail == tail;
    } else {
      ContinuesAt(env, opts, first, fs, more);
      ScanStep(env, opts, first, mayCut, fs, more, tail);
      assert (fs + [more[0]]) + more[1..] == fs + more;
      ScanFrames(env, opts, first, mayCut, fs + [more[0]], more[1..], tail);
    }
  }

  /** f is the frame an append to fs would write next, and the scan has room for it. */
  predicate NextFrame(env: Env, opts: Options, first: nat, fs: seq<Frame>, f: Frame) {
    && Storable(env, opts, f)
    && f.sequence == NextSequence(fs)
    && f.previous == LastHash(env, fs)
    && |fs| < opts.maxScan
    && (first > 1 ==> fs != [])
  }

  /** The files of a log whose last file also holds some bytes that are not a whole frame. */
  function RenderTail(env: Env, log: Log, tail: seq<Byte>): (d: Disk)
    requires log != []
    ensures |d| == |log|
    ensures forall i :: 0 <= i < |log| ==> d[i].number == log[i].number
  {
    var m := |log| - 1;
    Render(env, log[..m]) + [File(log[m].number, FileBytes(env, log[m].frames) + tail)]
  }

  lemma RenderTailNone(env: Env, log: Log)
    requires log != []
    ensures RenderTail(env, log, []) == Render(env, log)
  {
    var m := |log| - 1;
    assert FileBytes(env, log[m].frames) + [] == FileBytes(env, log[m].frames);
    assert log == log[..m] + [log[m]];
  }

  /** The bytes after the last whole frame break off inside a frame. */
  predicate TornAt(env: Env, opts: Options, first: nat, fs: seq<Frame>, tail: seq<Byte>) {
    tail != [] && LookAt(env, opts, first, fs, tail) == Torn(false)
  }

  /** What the scan says of a log followed by a torn tail. */
  function ScanOutcome(log: Log, tail: seq<Byte>, allowRecovery: bool): (r: Result<(Log, Cut), Code>)
  {
    if tail == [] then Ok((log, Whole))
    else if allowRecovery then Ok((log, Tail(false)))
    else Err(TrailingFrameIncomplete)
  }

  /** The last file: its frames are read, a torn tail is cut or refused. */
  lemma ScanLastFile(env: Env, opts: Options, first: nat, allowRecovery: bool, done: Log, s: Seg, tail: seq<Byte>)
    requires Chain(env, opts, first, Flat(done) + s.frames)
    requires |Flat(done) + s.frames| <= opts.maxScan
    requires tail == [] || TornAt(env, opts, first, Flat(done) + s.frames, tail)
    ensures ScanFiles(env, opts, first, allowRecovery, done, RenderTail(env, [s], tail))
         == ScanOutcome(done + [s], tail, allowRecovery)
  {
    var before := Flat(done);
    ScanFrames(env, opts, first, allowRecovery, before, s.frames, tail);
    Seam(before, s.frames);
    assert Seg(s.number, s.frames) == s;
  }

  /** A file that is not the last one. */
  lemma ScanInnerFile(env: Env, opts: Options, first: nat, allowRecovery: bool, done: Log, s: Seg, later: Disk)
    requires Chain(env, opts, first, Flat(done) + s.frames)
    requires |Flat(done) + s.frames| <= opts.maxScan
    requires later != []
    ensures ScanFiles(env, opts, first, allowRecovery, done, [FileOf(env, s)] + later)
         == ScanFiles(env, opts, first, allowRecovery, done + [s], later)
  {
    var before := Flat(done);
    ScanFrames(env, opts, first, false, before, s.frames, []);
    assert FileBytes(env, s.frames) + [] == FileBytes(env, s.frames);
    Seam(before, s.frames);
    Seam([FileOf(env, s)], later);
    assert Seg(s.number, s.frames) == s;
  }

  lemma ChainPrefix(env: Env, opts: Options, first: nat, fs: seq<Frame>, more: seq<Frame>)
    requires Chain(env, opts, first, fs + more)
    ensures Chain(env, opts, first, fs)
  {
    var all := fs + more;
    forall i | 0 < i < |fs| ensures FollowsAt(env, fs, i) {
      assert FollowsAt(env, all, i);
    }
    forall i | 0 <= i < |fs| ensures Storable(env, opts, fs[i]) {
      assert Storable(env, opts, all[i]);
    }
  }

  lemma RenderTailCons(env: Env, log: Log, tail: seq<Byte>)
    requires |log| > 1
    ensures RenderTail(env, log, tail) == [FileOf(env, log[0])] + RenderTail(env, log[1..], tail)
  {
    var m := |log| - 1;
    assert log[..m] == [log[0]] + log[1..][..m - 1];
  }

  /** The files of a log are read back as that log, file by file. */
  lemma {:induction false} ScanRendered(env: Env, opts: Options, first: nat, allowRecovery: bool,
                                        done: Log, todo: Log, tail: seq<Byte>)
    requires todo != []
    requires Chain(env, opts, first, Flat(done + todo))
    requires |Flat(done + todo)| <= opts.maxScan
    requires tail == [] || TornAt(env, opts, first, Flat(done + todo), tail)
    ensures ScanFiles(env, opts, first, allowRecovery, done, RenderTail(env, todo, tail))
         == ScanOutcome(done + todo, tail, allowRecovery)
    decreases |todo|
  {
    var s, later := todo[0], todo[1..];
    FlatSnoc(done, s);
    if later == [] {
      assert todo == [s];
      ScanLastFile(env, opts, first, allowRecovery, done, s, tail);
    } else {
      assert (done + [s]) + later == done + todo;
      FlatConcat(done + [s], later);
      ChainPrefix(env, opts, first, Flat(done + [s]), Flat(later));
      RenderTailCons(env, todo, tail);
      ScanInnerFile(env, opts, first, allowRecovery, done, s, RenderTail(env, later, tail));
      ScanRendered(env, opts, first, allowRecovery, done + [s], later, tail);
    }
  }

  lemma ConcludeOutcome(env: Env, log: Log, tail: seq<Byte>, allowRecovery: bool)
    requires log != [] && Anchored(env, log[0].number, Flat(log))
    ensures Conclude(env, log[0].number, ScanOutcome(log, tail, allowRecovery))
         == if tail == [] || allowRecovery then Ok((log, tail != [])) else Err(TrailingFrameIncomplete)
  {
  }

  /** A log the scan accepts: chained, anchored and within the startup record limit. */
  predicate Acceptable(env: Env, opts: Options, log: Log) {
    && log != []
    && Chain(env, opts, log[0].number, Flat(log))
    && Anchored(env, log[0].number, Flat(log))
    && |Flat(log)| <= opts.maxScan
  }

  /** Completeness: the scan of an acceptable log, whole or with a torn tail. */
  lemma ScanComplete(env: Env, opts: Options, allowRecovery: bool, log: Log, tail: seq<Byte>)
    requires Acceptable(env, opts, log)
    requires tail == [] || TornAt(env, opts, log[0].number, Flat(log), tail)
    ensures Scan(env, opts, allowRecovery, RenderTail(env, log, tail))
         == if tail == [] || allowRecovery then Ok((log, tail != [])) else Err(TrailingFrameIncomplete)
  {
    var first := log[0].number;
    assert [] + log == log;
    ScanRendered(env, opts, first, allowRecovery, [], log, tail);
    ConcludeOutcome(env, log, tail, allowRecovery);
  }

  /** Files whose chain holds but whose first frame nothing vouches for are refused. */
  lemma {:induction false} ScanUnanchored(env: Env, opts: Options, allowRecovery: bool, log: Log)
    requires log != [] && Chain(env, opts, log[0].number, Flat(log)) && |Flat(log)| <= opts.maxScan
    requires !Anchored(env, log[0].number, Flat(log))
    ensures Scan(env, opts, allowRecovery, RenderTail(env, log, [])) == Err(ChainMismatch)
  {
    var first := log[0].number;
    assert [] + log == log;
    ScanRendered(env, opts, first, allowRecovery, [], log, []);
    assert Conclude(env, first, ScanOutcome(log, [], allowRecovery)) == Err(ChainMismatch);
  }

  /**
   Reopening reads the ledger back: the scan of the files of an acceptable log is that
   log, with nothing cut.
   */
  lemma ReopenReadsBack(env: Env, opts: Options, allowRecovery: bool, log: Log)
    requires Acceptable(env, opts, log)
    ensures Scan(env, opts, allowRecovery, Render(env, log)) == Ok((log, false))
  {
    ScanComplete(env, opts, allowRecovery, log, []);
    RenderTailNone(env, log);
  }

  /**
   Any strict prefix of the next frame, however long, is cut off exactly when recovery
   is allowed; without recovery the ledger does not open.
   */
  lemma TornFrameIsCut(env: Env, opts: Options, allowRecovery: bool, log: Log, f: Frame, n: nat)
    requires Acceptable(env, opts, log)
    requires NextFrame(env, opts, log[0].number, Flat(log), f)
    requires 0 < n < |FrameBytes(env, f)|
    ensures Scan(env, opts, allowRecovery, RenderTail(env, log, FrameBytes(env, f)[..n]))
         == if allowRecovery then Ok((log, true)) else Err(TrailingFrameIncomplete)
  {
    LookAtTorn(env, opts, log[0].number, Flat(log), f, n);
    ScanComplete(env, opts, allowRecovery, log, FrameBytes(env, f)[..n]);
  }

  // ----- nothing else is accepted -----

  /** A frame the scan takes is the rendering of a storable frame that continues the chain. */
  lemma LookAtSound(env: Env, opts: Options, first: nat, fs: seq<Frame>, rest: seq<Byte>)
    requires opts.maxPayload <= MAX_PAYLOAD_BYTES
    requires LookAt(env, opts, first, fs, rest).Next?
    ensures var f := LookAt(env, opts, first, fs, rest).frame;
            && rest[..|FrameBytes(env, f)|] == FrameBytes(env, f)
            && Storable(env, opts, f)
            && Continues(env, first, fs, f)
            && |fs| < opts.maxScan
  {
    var f := LookAt(env, opts, first, fs, rest).frame;
    HeaderFromFields(f, rest);
    var n := |f.payload|;
    ThreeParts(rest, HEADER_LEN, n, HASH_LEN);
  }

  lemma ThreeParts<T>(s: seq<T>, a: nat, b: nat, c: nat)
    requires a + b + c <= |s|
    ensures s[..a + b + c] == s[..a] + s[a..a + b] + s[a + b..a + b + c]
  {
  }

  /** The frames a scan of one file adds, and the bytes it leaves over. */
  lemma {:induction false} ScanRestSound(env: Env, opts: Options, first: nat, mayCut: bool, fs: seq<Frame>,
                                         rest: seq<Byte>)
    returns (more: seq<Frame>, tail: seq<Byte>)
    requires opts.maxPayload <= MAX_PAYLOAD_BYTES
    requires ScanRest(env, opts, first, mayCut, fs, rest).Ok?
    requires Chain(env, opts, first, fs) && |fs| <= opts.maxScan
    ensures var r := ScanRest(env, opts, first, mayCut, fs, rest).value;
            && r.0 == fs + more
            && rest == FileBytes(env, more) + tail
            && Chain(env, opts, first, fs + more)
            && |fs + more| <= opts.maxScan
            && (r.1 == Whole ==> tail == [])
            && (r.1 == Tail(false) ==> mayCut && TornAt(env, opts, first, fs + more, tail))
    decreases |rest|
  {
    if rest == [] {
      more, tail := [], [];
      assert fs + more == fs;
    } else if LookAt(env, opts, first, fs, rest).Torn? {
      more, tail := [], rest;
      assert fs + more == fs;
      assert FileBytes(env, more) + tail == rest;
    } else {
      var f := LookAt(env, opts, first, fs, rest).frame;
      LookAtSound(env, opts, first, fs, rest);
      ChainContinues(env, opts, first, fs, f);
      var rest' := rest[|FrameBytes(env, f)|..];
      var later: seq<Frame>;
      later, tail := ScanRestSound(env, opts, first, mayCut, fs + [f], rest');
      more := [f] + later;
      Assoc(fs, [f], later);
      FileBytesCons(env, more, tail);
      assert more[1..] == later;
      assert rest == FrameBytes(env, f) + rest';
    }
  }

  lemma ChainContinues(env: Env, opts: Options, first: nat, fs: seq<Frame>, f: Frame)
    requires Chain(env, opts, first, fs) && Storable(env, opts, f)
    requires Continues(env, first, fs, f)
    ensures Chain(env, opts, first, fs + [f])
  {
    if fs != [] || first <= 1 {
      ChainSnoc(env, opts, first, fs, f);
    }
  }

  /** The segment read from the first of some files, and the bytes left over if it is the last. */
  lemma ScanFileSound(env: Env, opts: Options, first: nat, allowRecovery: bool, done: Log, files: Disk)
    returns (s: Seg, left: seq<Byte>)
    requires opts.maxPayload <= MAX_PAYLOAD_BYTES
    requires files != [] && ScanFiles(env, opts, first, allowRecovery, done, files).Ok?
    requires Chain(env, opts, first, Flat(done)) && |Flat(done)| <= opts.maxScan
    ensures files[0] == File(s.number, FileBytes(env, s.frames) + left)
    ensures Chain(env, opts, first, Flat(done + [s])) && |Flat(done + [s])| <= opts.maxScan
    ensures var r := ScanFiles(env, opts, first, allowRecovery, done, files);
            if |files| == 1 then
              && r.value.0 == done + [s]
              && (r.value.1 == Whole ==> left == [])
              && (r.value.1 == Tail(false) ==> allowRecovery && TornAt(env, opts, first, Flat(done + [s]), left))
            else
              left == [] && r == ScanFiles(env, opts, first, allowRecovery, done + [s], files[1..])
  {
    var before, last := Flat(done), |files| == 1;
    var more: seq<Frame>;
    more, left := ScanRestSound(env, opts, first, allowRecovery && last, before, files[0].bytes);
    s := Seg(files[0].number, more);
    Seam(before, more);
    FlatSnoc(done, s);
  }

  /** The segments a scan of some files adds, and the bytes it leaves over in the last one. */
  lemma {:induction false} ScanFilesSound(env: Env, opts: Options, first: nat, allowRecovery: bool, done: Log,
                                          files: Disk)
    returns (todo: Log, tail: seq<Byte>)
    requires opts.maxPayload <= MAX_PAYLOAD_BYTES
    requires files != [] && ScanFiles(env, opts, first, allowRecovery, done, files).Ok?
    requires Chain(env, opts, first, Flat(done)) && |Flat(done)| <= opts.maxScan
    ensures todo != [] && files == RenderTail(env, todo, tail)
    ensures Chain(env, opts, first, Flat(done + todo)) && |Flat(done + todo)| <= opts.maxScan
    ensures var r := ScanFiles(env, opts, first, allowRecovery, done, files).value;
            && r.0 == done + todo
            && (r.1 == Whole ==> tail == [])
            && (r.1 == Tail(false) ==> allowRecovery && TornAt(env, opts, first, Flat(done + todo), tail))
    decreases |files|
  {
    var s, left := ScanFileSound(env, opts, first, allowRecovery, done, files);
    if |files| == 1 {
      todo, tail := [s], left;
      assert files == [files[0]];
      assert RenderTail(env, [s], left) == [files[0]];
    } else {
      var later: Log;
      later, tail := ScanFilesSound(env, opts, first, allowRecovery, done + [s], files[1..]);
      todo := [s] + later;
      Assoc(done, [s], later);
      ConsRender(env, s, later, tail, files);
    }
  }

  lemma ConsRender(env: Env, s: Seg, later: Log, tail: seq<Byte>, files: Disk)
    requires later != [] && files != []
    requires files[0] == File(s.number, FileBytes(env, s.frames) + [])
    requires files[1..] == RenderTail(env, later, tail)
    ensures files == RenderTail(env, [s] + later, tail)
  {
    var todo := [s] + later;
    RenderTailCons(env, todo, tail);
    Seam([s], later);
    assert FileBytes(env, s.frames) + [] == FileBytes(env, s.frames);
    assert files == [files[0]] + files[1..];
  }

  /**
   Soundness: what the scan accepts is the rendering of an acceptable log, and what it
   cuts off, only when recovery is allowed, is a frame that breaks off.
   */
  lemma ScanSound(env: Env, opts: Options, allowRecovery: bool, disk: Disk) returns (tail: seq<Byte>)
    requires opts.maxPayload <= MAX_PAYLOAD_BYTES
    requires disk != [] && Scan(env, opts, allowRecovery, disk).Ok?
    ensures var (log, cut) := Scan(env, opts, allowRecovery, disk).value;
            && Acceptable(env, opts, log)
            && log[0].number == disk[0].number
            && disk == RenderTail(env, log, tail)
            && (if cut then allowRecovery && TornAt(env, opts, log[0].number, Flat(log), tail) else tail == [])
  {
    var first := disk[0].number;
    var todo;
    todo, tail := ScanFilesSound(env, opts, first, allowRecovery, [], disk);
    assert [] + todo == todo;
  }

  /** The files open exactly when they hold an acceptable log, with a torn tail at most when recovery is allowed. */
  lemma ScanAcceptsExactly(env: Env, opts: Options, allowRecovery: bool, disk: Disk)
    requires opts.maxPayload <= MAX_PAYLOAD_BYTES
    requires disk != []
    ensures Scan(env, opts, allowRecovery, disk).Ok? <==>
            exists log: Log, tail: seq<Byte> ::
              && Acceptable(env, opts, log)
              && disk == RenderTail(env, log, tail)
              && (tail == [] || (allowRecovery && TornAt(env, opts, log[0].number, Flat(log), tail)))
  {
    if Scan(env, opts, allowRecovery, disk).Ok? {
      var tail := ScanSound(env, opts, allowRecovery, disk);
      var log := Scan(env, opts, allowRecovery, disk).value.0;
      assert Acceptable(env, opts, log) && disk == RenderTail(env, log, tail);
    }
    forall log: Log, tail: seq<Byte> |
      && Acceptable(env, opts, log)
      && disk == RenderTail(env, log, tail)
      && (tail == [] || (allowRecovery && TornAt(env, opts, log[0].number, Flat(log), tail)))
      ensures Scan(env, opts, allowRecovery, disk).Ok?
    {
      ScanComplete(env, opts, allowRecovery, log, tail);
    }
  }
}
