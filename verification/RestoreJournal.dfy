/**
 The journal of a restore transaction: `key=value` lines with the identifiers in hexadecimal.
 */
module RestoreJournal {
  import opened Bytes
  import opened Wire
  import opened Journals

  datatype TxState = Prepared | TargetMoved | StagePublished

  datatype Transaction = Transaction(ids: Ids, state: TxState)
  datatype Ids = Ids(operation: seq<Byte>, archive: seq<Byte>, target: seq<Byte>, stage: seq<Byte>, rollback: seq<Byte>)

  /** `validate_transaction_values`, for one value. */
  predicate ValidName(v: seq<Byte>) {
    && v != [] && 47 !in v && 92 !in v && 0 !in v
    && v != [46] && v != [46, 46]
  }

  predicate ValidNames(ids: Ids) {
    ValidName(ids.operation) && ValidName(ids.archive) && ValidName(ids.target) && ValidName(ids.stage)
      && ValidName(ids.rollback)
  }

  /** The identifiers are strings. */
  predicate Typed(ids: Ids) {
    Utf8(ids.operation) && Utf8(ids.archive) && Utf8(ids.target) && Utf8(ids.stage) && Utf8(ids.rollback)
  }

  /** version, operation, archive, target, stage, rollback, state */
  const KEYS: seq<seq<Byte>> := [
    [118, 101, 114, 115, 105, 111, 110],
    [111, 112, 101, 114, 97, 116, 105, 111, 110],
    [97, 114, 99, 104, 105, 118, 101],
    [116, 97, 114, 103, 101, 116],
    [115, 116, 97, 103, 101],
    [114, 111, 108, 108, 98, 97, 99, 107],
    [115, 116, 97, 116, 101]]

  const ONE: seq<Byte> := [49]
  const PREPARED: seq<Byte> := [112, 114, 101, 112, 97, 114, 101, 100]
  const TARGET_MOVED: seq<Byte> := [116, 97, 114, 103, 101, 116, 95, 109, 111, 118, 101, 100]
  const STAGE_PUBLISHED: seq<Byte> := [115, 116, 97, 103, 101, 95, 112, 117, 98, 108, 105, 115, 104, 101, 100]

  function StateName(s: TxState): (w: seq<Byte>)
  {
    match s
    case Prepared => PREPARED
    case TargetMoved => TARGET_MOVED
    case StagePublished => STAGE_PUBLISHED
  }

  function StateOf(w: seq<Byte>): (s: Option<TxState>)
  {
    if w == PREPARED then Some(Prepared)
    else if w == TARGET_MOVED then Some(TargetMoved)
    else if w == STAGE_PUBLISHED then Some(StagePublished)
    else None
  }

  function Listed(ids: Ids): (ws: seq<seq<Byte>>)
    ensures |ws| == 5
  {
    [ids.operation, ids.archive, ids.target, ids.stage, ids.rollback]
  }

  function Hexes(ws: seq<seq<Byte>>): (vs: seq<seq<Byte>>)
    ensures |vs| == |ws|
  {
    seq(|ws|, i requires 0 <= i < |ws| => Hex(ws[i]))
  }

  function ValuesOf(t: Transaction): (vs: seq<seq<Byte>>)
    ensures |vs| == 7
  {
    [ONE] + Hexes(Listed(t.ids)) + [StateName(t.state)]
  }

  /** `persist`: the text that is written, or nothing when an identifier is refused. */
  function Persist(t: Transaction): (text: Option<seq<Byte>>)
  {
    if ValidNames(t.ids) then Some(PrintJournal(KEYS, ValuesOf(t))) else None
  }

  /** The identifiers, decoded in order up to the first that fails. */
  function Decoded(vs: seq<Option<seq<Byte>>>): (r: Loaded<seq<seq<Byte>>>)
    ensures r.Loaded? ==> |r.value| == |vs|
  {
    if vs == [] then Loaded([])
    else
      match Identifier(vs[0])
      case Unresolved => Unresolved
      case Panicked => Panicked
      case Loaded(v) =>
        match Decoded(vs[1..])
        case Unresolved => Unresolved
        case Panicked => Panicked
        case Loaded(rest) => Loaded([v] + rest)
  }

  /** The transaction that a key map of this size with these values stands for. */
  function Interpret(size: nat, vs: seq<Option<seq<Byte>>>, operation: seq<Byte>): (r: Loaded<Transaction>)
    requires |vs| == 7
  {
    if vs[0] != Some(ONE) || size != 7 || vs[6].None? || StateOf(vs[6].value).None? then Unresolved
    else
      match Decoded(vs[1..6])
      case Unresolved => Unresolved
      case Panicked => Panicked
      case Loaded(v) =>
        var ids := Ids(v[0], v[1], v[2], v[3], v[4]);
        if ValidNames(ids) && ids.operation == operation then Loaded(Transaction(ids, StateOf(vs[6].value).value))
        else Unresolved
  }

  /** `load`, of a journal file with these bytes. */
  function Load(text: seq<Byte>, operation: seq<Byte>): (r: Loaded<Transaction>)
  {
    match LoadValues(text, KEYS)
    case None => Unresolved
    case Some((size, vs)) => Interpret(size, vs, operation)
  }

  // ----- the round trip -----

  lemma {:induction false} KeysAreWords()
    ensures Words(KEYS) && |KEYS| == 7
  {
    KeysAreDifferent();
    forall i | 0 <= i < |KEYS| ensures Plain(KEYS[i]) && EQUALS !in KEYS[i] {
      KeyIsPlain(i);
    }
  }

  lemma {:induction false} KeyIsPlain(i: nat)
    requires i < |KEYS|
    ensures Plain(KEYS[i]) && EQUALS !in KEYS[i]
  {
    assert forall c :: c in KEYS[i] ==> 97 <= c <= 122;
  }

  lemma {:induction false} KeysAreDifferent()
    ensures forall i, j :: 0 <= i < j < |KEYS| ==> KEYS[i] != KEYS[j]
  {
    assert |KEYS[0]| == 7 && |KEYS[1]| == 9 && |KEYS[2]| == 7 && |KEYS[3]| == 6 && |KEYS[4]| == 5 && |KEYS[5]| == 8
        && |KEYS[6]| == 5;
    assert KEYS[0][0] != KEYS[2][0] && KEYS[4][3] != KEYS[6][3];
  }

  lemma {:induction false} StateRoundTrip(s: TxState)
    ensures StateOf(StateName(s)) == Some(s) && Plain(StateName(s))
  {
    assert |PREPARED| == 8 && |TARGET_MOVED| == 12 && |STAGE_PUBLISHED| == 15;
  }

  lemma {:induction false} DecodedAll(ws: seq<seq<Byte>>, vs: seq<Option<seq<Byte>>>)
    requires forall i :: 0 <= i < |ws| ==> Utf8(ws[i])
    requires |vs| == |ws| && forall i :: 0 <= i < |ws| ==> vs[i] == Some(Hex(ws[i]))
    ensures Decoded(vs) == Loaded(ws)
  {
    if ws != [] {
      IdentifierRoundTrip(ws[0]);
      DecodedAll(ws[1..], vs[1..]);
      assert ws == [ws[0]] + ws[1..];
    }
  }

  lemma {:induction false} ValuesOneLine(t: Transaction)
    ensures forall i :: 0 <= i < 7 ==> OneLine(ValuesOf(t)[i])
  {
    forall w ensures OneLine(Hex(w)) {
      HexPlain(w);
      PlainIsOneLine(Hex(w));
    }
    StateRoundTrip(t.state);
    PlainIsOneLine(StateName(t.state));
    PlainIsOneLine(ONE);
  }

  lemma {:induction false} InterpretValues(t: Transaction, vs: seq<Option<seq<Byte>>>, operation: seq<Byte>)
    requires ValidNames(t.ids) && Typed(t.ids)
    requires |vs| == 7 && forall i :: 0 <= i < 7 ==> vs[i] == Some(ValuesOf(t)[i])
    ensures Interpret(7, vs, operation) == if operation == t.ids.operation then Loaded(t) else Unresolved
  {
    StateRoundTrip(t.state);
    forall i | 0 <= i < 5 ensures vs[1..6][i] == Some(Hex(Listed(t.ids)[i])) {
      assert ValuesOf(t)[i + 1] == Hexes(Listed(t.ids))[i];
    }
    DecodedAll(Listed(t.ids), vs[1..6]);
  }

  /** Loading what was persisted gives the transaction under its own operation id, and is refused under any other. */
  lemma {:induction false} TransactionRoundTrip(t: Transaction, operation: seq<Byte>)
    requires Typed(t.ids)
    ensures Persist(t).Some? <==> ValidNames(t.ids)
    ensures Persist(t).Some? ==>
              Load(Persist(t).value, operation) == if operation == t.ids.operation then Loaded(t) else Unresolved
  {
    if ValidNames(t.ids) {
      KeysAreWords();
      ValuesOneLine(t);
      JournalRoundTrip(KEYS, ValuesOf(t));
      InterpretValues(t, seq(7, i requires 0 <= i < 7 => Some(ValuesOf(t)[i])), operation);
    }
  }

  lemma {:induction false} DecodedAreStrings(vs: seq<Option<seq<Byte>>>)
    requires Decoded(vs).Loaded?
    ensures forall i :: 0 <= i < |vs| ==> Utf8(Decoded(vs).value[i])
  {
    if vs != [] {
      DecodedAreStrings(vs[1..]);
      var ws := Decoded(vs).value;
      forall i | 0 <= i < |vs| ensures Utf8(ws[i]) {
        if i > 0 {
          assert ws[i] == Decoded(vs[1..]).value[i - 1];
        }
      }
    }
  }

  /** Whatever text a journal was loaded from, it is one that can be persisted and loaded again. */
  lemma {:induction false} LoadedPersists(text: seq<Byte>, operation: seq<Byte>)
    requires Load(text, operation).Loaded?
    ensures var t := Load(text, operation).value;
            t.ids.operation == operation && Persist(t).Some? && Load(Persist(t).value, operation) == Loaded(t)
  {
    var (size, vs) := LoadValues(text, KEYS).value;
    DecodedAreStrings(vs[1..6]);
    TransactionRoundTrip(Load(text, operation).value, operation);
  }

  // ----- where loading panics -----

  /** The text has the shape of a journal of this version, whatever its identifiers are. */
  predicate Shaped(text: seq<Byte>) {
    && LoadValues(text, KEYS).Some?
    && var (size, vs) := LoadValues(text, KEYS).value;
    && vs[0] == Some(ONE) && size == 7 && vs[6].Some? && StateOf(vs[6].value).Some?
  }

  /** The i-th value is the first that is no identifier, and it cuts a character. */
  predicate CutIn(vs: seq<Option<seq<Byte>>>, i: nat)
    requires i < |vs|
  {
    vs[i].Some? && Cut(vs[i].value) && forall j :: 0 <= j < i ==> Identifier(vs[j]).Loaded?
  }

  lemma {:induction false} DecodedPanics(vs: seq<Option<seq<Byte>>>)
    ensures Decoded(vs) == Panicked <==> exists i :: 0 <= i < |vs| && CutIn(vs, i)
  {
    if vs != [] {
      IdentifierPanics(vs[0]);
      DecodedPanics(vs[1..]);
      if Identifier(vs[0]).Loaded? {
        if i :| 0 <= i < |vs[1..]| && CutIn(vs[1..], i) {
          assert forall j :: 1 <= j < i + 1 ==> vs[j] == vs[1..][j - 1];
          assert CutIn(vs, i + 1);
        }
        if i :| 0 <= i < |vs| && CutIn(vs, i) {
          assert CutIn(vs[1..], i - 1);
        }
      } else if Identifier(vs[0]).Panicked? {
        assert CutIn(vs, 0);
      }
    }
  }

  /** Loading panics exactly when the first of the five identifiers that is not readable cuts a character. */
  lemma {:induction false} LoadPanicsExactly(text: seq<Byte>, operation: seq<Byte>)
    ensures Load(text, operation) == Panicked <==>
              Shaped(text) && exists i :: 0 <= i < 5 && CutIn(LoadValues(text, KEYS).value.1[1..6], i)
  {
    if Shaped(text) {
      DecodedPanics(LoadValues(text, KEYS).value.1[1..6]);
    }
  }

  /** Whole texts on which loading panics: any journal with such a value for its operation. */
  lemma {:induction false} PanickingText(t: Transaction, operation: seq<Byte>)
    ensures Load(PrintJournal(KEYS, ValuesOf(t)[1 := WIDE]), operation) == Panicked
  {
    var values := ValuesOf(t)[1 := WIDE];
    WideIsCut();
    ValuesOneLine(t);
    KeysAreWords();
    JournalRoundTrip(KEYS, values);
    StateRoundTrip(t.state);
    var text := PrintJournal(KEYS, values);
    var vs := LoadValues(text, KEYS).value.1;
    assert vs[0] == Some(values[0]) && vs[1] == Some(values[1]) && vs[6] == Some(values[6]);
    assert CutIn(vs[1..6], 0);
    LoadPanicsExactly(text, operation);
  }
}
