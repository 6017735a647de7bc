/**
 The journal of an offline upgrade: `key=value` lines, read back through a reader
 that refuses more than 4096 bytes.
 */
module UpgradeJournal {
  import opened Bytes
  import opened Wire
  import opened Journals

  datatype UpgradeState = Prepared | Draining | Stopped | Switched | Ready | Committed | RollingBack | RolledBack

  datatype Journal = Journal(
    operation: seq<Byte>, state: UpgradeState, backup: seq<Byte>, previous: seq<Byte>, target: seq<Byte>)

  const READ_LIMIT: nat := 4096

  /** `sha256:` */
  const PREFIX: seq<Byte> := [115, 104, 97, 50, 53, 54, 58]

  predicate HexDigit(c: Byte) {
    48 <= c <= 57 || 97 <= c <= 102 || 65 <= c <= 70
  }

  function Digits(v: seq<Byte>): (digits: seq<Byte>)
  {
    if PREFIX <= v then v[7..] else v
  }

  predicate Digest(v: seq<Byte>) {
    |Digits(v)| == 64 && forall i :: 0 <= i < 64 ==> HexDigit(Digits(v)[i])
  }

  predicate Valid(j: Journal) {
    j.operation != [] && j.backup != [] && Digest(j.previous) && Digest(j.target)
  }

  /** The identifiers are strings. */
  predicate Typed(j: Journal) {
    Utf8(j.operation) && Utf8(j.backup)
  }

  /** version, operation, state, backup, previous, target */
  const KEYS: seq<seq<Byte>> := [
    [118, 101, 114, 115, 105, 111, 110],
    [111, 112, 101, 114, 97, 116, 105, 111, 110],
    [115, 116, 97, 116, 101],
    [98, 97, 99, 107, 117, 112],
    [112, 114, 101, 118, 105, 111, 117, 115],
    [116, 97, 114, 103, 101, 116]]

  const ONE: seq<Byte> := [49]
  const PREPARED: seq<Byte> := [112, 114, 101, 112, 97, 114, 101, 100]
  const DRAINING: seq<Byte> := [100, 114, 97, 105, 110, 105, 110, 103]
  const STOPPED: seq<Byte> := [115, 116, 111, 112, 112, 101, 100]
  const SWITCHED: seq<Byte> := [115, 119, 105, 116, 99, 104, 101, 100]
  const READY: seq<Byte> := [114, 101, 97, 100, 121]
  const COMMITTED: seq<Byte> := [99, 111, 109, 109, 105, 116, 116, 101, 100]
  const ROLLING_BACK: seq<Byte> := [114, 111, 108, 108, 105, 110, 103, 95, 98, 97, 99, 107]
  const ROLLED_BACK: seq<Byte> := [114, 111, 108, 108, 101, 100, 95, 98, 97, 99, 107]

  function StateName(s: UpgradeState): (w: seq<Byte>)
  {
    match s
    case Prepared => PREPARED
    case Draining => DRAINING
    case Stopped => STOPPED
    case Switched => SWITCHED
    case Ready => READY
    case Committed => COMMITTED
    case RollingBack => ROLLING_BACK
    case RolledBack => ROLLED_BACK
  }

  function StateOf(w: seq<Byte>): (s: Option<UpgradeState>)
  {
    if w == PREPARED then Some(Prepared)
    else if w == DRAINING then Some(Draining)
    else if w == STOPPED then Some(Stopped)
    else if w == SWITCHED then Some(Switched)
    else if w == READY then Some(Ready)
    else if w == COMMITTED then Some(Committed)
    else if w == ROLLING_BACK then Some(RollingBack)
    else if w == ROLLED_BACK then Some(RolledBack)
    else None
  }

  function ValuesOf(j: Journal): (vs: seq<seq<Byte>>)
    ensures |vs| == 6
  {
    [ONE, Hex(j.operation), StateName(j.state), Hex(j.backup), j.previous, j.target]
  }

  /** `persist_upgrade_journal`: the text that is written, or nothing when the journal is refused. */
  function Persist(j: Journal): (text: Option<seq<Byte>>)
  {
    if Valid(j) then Some(PrintJournal(KEYS, ValuesOf(j))) else None
  }

  /** The journal that a key map of this size with these values stands for. */
  function Interpret(size: nat, vs: seq<Option<seq<Byte>>>, operation: seq<Byte>): (r: Loaded<Journal>)
    requires |vs| == 6
  {
    if vs[0] != Some(ONE) || size != 6 || vs[2].None? || StateOf(vs[2].value).None? then Unresolved
    else
      match Identifier(vs[1])
      case Unresolved => Unresolved
      case Panicked => Panicked
      case Loaded(op) =>
        match Identifier(vs[3])
        case Unresolved => Unresolved
        case Panicked => Panicked
        case Loaded(backup) =>
          if vs[4].None? || vs[5].None? then Unresolved
          else
            var j := Journal(op, StateOf(vs[2].value).value, backup, vs[4].value, vs[5].value);
            if Valid(j) && op == operation then Loaded(j) else Unresolved
  }

  /** `load_upgrade_journal`, of a journal file with these bytes. */
  function Load(text: seq<Byte>, operation: seq<Byte>): (r: Loaded<Journal>)
  {
    if |text| > READ_LIMIT then Unresolved
    else
      match LoadValues(text, KEYS)
      case None => Unresolved
      case Some((size, vs)) => Interpret(size, vs, operation)
  }

  /** The bytes a journal takes: every identifier byte takes two. */
  function Size(j: Journal): (n: nat)
  {
    54 + 2 * |j.operation| + |StateName(j.state)| + 2 * |j.backup| + |j.previous| + |j.target|
  }

  // ----- the round trip -----

  lemma {:induction false} KeysAreWords()
    ensures Words(KEYS) && |KEYS| == 6
  {
    forall i | 0 <= i < |KEYS| ensures Plain(KEYS[i]) && EQUALS !in KEYS[i] {
      KeyIsPlain(i);
    }
    KeyLengths();
  }

  lemma {:induction false} KeyIsPlain(i: nat)
    requires i < |KEYS|
    ensures Plain(KEYS[i]) && EQUALS !in KEYS[i]
  {
    assert forall c :: c in KEYS[i] ==> 97 <= c <= 122;
  }

  lemma {:induction false} KeyLengths()
    ensures |KEYS| == 6 && |KEYS[0]| == 7 && |KEYS[1]| == 9 && |KEYS[2]| == 5 && |KEYS[3]| == 6 && |KEYS[4]| == 8
         && |KEYS[5]| == 6
    ensures forall i, j :: 0 <= i < j < |KEYS| ==> KEYS[i] != KEYS[j]
  {
    assert KEYS[3][0] != KEYS[5][0];
  }

  lemma {:induction false} StateRoundTrip(s: UpgradeState)
    ensures StateOf(StateName(s)) == Some(s) && Plain(StateName(s))
  {
    assert |PREPARED| == 8 && |DRAINING| == 8 && |STOPPED| == 7 && |SWITCHED| == 8 && |READY| == 5;
    assert |COMMITTED| == 9 && |ROLLING_BACK| == 12 && |ROLLED_BACK| == 11;
    assert PREPARED[0] != DRAINING[0] && PREPARED[0] != SWITCHED[0] && DRAINING[0] != SWITCHED[0];
  }

  lemma {:induction false} DigestPlain(v: seq<Byte>)
    requires Digest(v)
    ensures Plain(v)
  {
    var digits := Digits(v);
    forall i | 0 <= i < |v| ensures 32 < v[i] <= 0x7F {
      if PREFIX <= v && i < 7 {
        assert v[i] == PREFIX[i];
      } else {
        assert HexDigit(digits[i - (|v| - 64)]);
      }
    }
  }

  lemma {:induction false} ValuesOneLine(j: Journal)
    requires Valid(j)
    ensures forall i :: 0 <= i < 6 ==> OneLine(ValuesOf(j)[i])
  {
    HexPlain(j.operation);
    HexPlain(j.backup);
    StateRoundTrip(j.state);
    DigestPlain(j.previous);
    DigestPlain(j.target);
    forall i | 0 <= i < 6 ensures OneLine(ValuesOf(j)[i]) {
      PlainIsOneLine(ValuesOf(j)[i]);
    }
  }

  lemma {:induction false} PrintedLength(fs: seq<Field>)
    requires |fs| == 6
    ensures |PrintFields(fs)|
         == 12 + |fs[0].key| + |fs[0].value| + |fs[1].key| + |fs[1].value| + |fs[2].key| + |fs[2].value|
                               + |fs[3].key| + |fs[3].value| + |fs[4].key| + |fs[4].value| + |fs[5].key| + |fs[5].value|
  {
    LengthFrom(fs, 0);
    LengthFrom(fs, 1);
    LengthFrom(fs, 2);
    LengthFrom(fs, 3);
    LengthFrom(fs, 4);
    LengthFrom(fs, 5);
    assert fs[0..] == fs && fs[6..] == [];
  }

  lemma {:induction false} LengthFrom(fs: seq<Field>, i: nat)
    requires i < |fs|
    ensures |PrintFields(fs[i..])| == |fs[i].key| + |fs[i].value| + 2 + |PrintFields(fs[i + 1..])|
  {
    assert fs[i..][1..] == fs[i + 1..];
  }

  lemma {:induction false} PersistedSize(j: Journal)
    ensures |PrintJournal(KEYS, ValuesOf(j))| == Size(j)
  {
    PrintedLength(FieldsOf(KEYS, ValuesOf(j)));
    KeyLengths();
    HexPlain(j.operation);
    HexPlain(j.backup);
  }

  lemma {:induction false} InterpretValues(j: Journal, vs: seq<Option<seq<Byte>>>, operation: seq<Byte>)
    requires Valid(j) && Typed(j)
    requires |vs| == 6 && forall i :: 0 <= i < 6 ==> vs[i] == Some(ValuesOf(j)[i])
    ensures Interpret(6, vs, operation) == if operation == j.operation then Loaded(j) else Unresolved
  {
    StateRoundTrip(j.state);
    IdentifierRoundTrip(j.operation);
    IdentifierRoundTrip(j.backup);
  }

  /** What was persisted loads under its own operation id exactly when it takes no more than 4096 bytes. */
  lemma {:induction false} UpgradeRoundTrip(j: Journal, operation: seq<Byte>)
    requires Typed(j)
    ensures Persist(j).Some? <==> Valid(j)
    ensures Persist(j).Some? ==>
              Load(Persist(j).value, operation) == if operation == j.operation && Size(j) <= READ_LIMIT then Loaded(j)
              else Unresolved
  {
    if Valid(j) {
      PersistedSize(j);
      KeysAreWords();
      ValuesOneLine(j);
      JournalRoundTrip(KEYS, ValuesOf(j));
      InterpretValues(j, seq(6, i requires 0 <= i < 6 => Some(ValuesOf(j)[i])), operation);
    }
  }

  /** A backup id of 2048 bytes: the journal is accepted and written, and cannot be read back. */
  lemma {:induction false} LongBackupIsLost(j: Journal)
    requires Valid(j) && Typed(j) && |j.backup| >= 2048
    ensures Persist(j).Some? && Load(Persist(j).value, j.operation) == Unresolved
  {
    UpgradeRoundTrip(j, j.operation);
  }

  lemma {:induction false} LongBackupExists() returns (j: Journal)
    ensures Valid(j) && Typed(j) && |j.backup| == 2048
  {
    var digest := seq(64, i => 48 as Byte);
    assert digest[0] != PREFIX[0];
    assert Digits(digest) == digest;
    j := Journal([97], Prepared, seq(2048, i => 97 as Byte), digest, digest);
    AsciiUtf8(j.operation);
    AsciiUtf8(j.backup);
  }

  // ----- where loading panics -----

  /** The text has the shape of a journal of this version, whatever its identifiers are. */
  predicate Shaped(text: seq<Byte>) {
    && |text| <= READ_LIMIT && LoadValues(text, KEYS).Some?
    && var (size, vs) := LoadValues(text, KEYS).value;
    && vs[0] == Some(ONE) && size == 6 && vs[2].Some? && StateOf(vs[2].value).Some?
  }

  /** Loading panics exactly when the operation cuts a character, or is readable and the backup does. */
  lemma {:induction false} LoadPanicsExactly(text: seq<Byte>, operation: seq<Byte>)
    ensures Load(text, operation) == Panicked <==>
              && Shaped(text)
              && var vs := LoadValues(text, KEYS).value.1;
              || (vs[1].Some? && Cut(vs[1].value))
              || (Identifier(vs[1]).Loaded? && vs[3].Some? && Cut(vs[3].value))
  {
    if Shaped(text) {
      var vs := LoadValues(text, KEYS).value.1;
      IdentifierPanics(vs[1]);
      IdentifierPanics(vs[3]);
    }
  }

  /** Whole texts on which loading panics: any short enough journal with such a value for its operation. */
  lemma {:induction false} PanickingText(j: Journal, operation: seq<Byte>)
    requires Valid(j) && Size(j) + 4 <= READ_LIMIT
    ensures Load(PrintJournal(KEYS, ValuesOf(j)[1 := WIDE]), operation) == Panicked
  {
    var values := ValuesOf(j)[1 := WIDE];
    WideIsCut();
    ValuesOneLine(j);
    KeysAreWords();
    JournalRoundTrip(KEYS, values);
    StateRoundTrip(j.state);
    var text := PrintJournal(KEYS, values);
    PrintedLength(FieldsOf(KEYS, values));
    PrintedLength(FieldsOf(KEYS, ValuesOf(j)));
    PersistedSize(j);
    var vs := LoadValues(text, KEYS).value.1;
    assert vs[0] == Some(values[0]) && vs[1] == Some(values[1]) && vs[2] == Some(values[2]);
    LoadPanicsExactly(text, operation);
  }
}
