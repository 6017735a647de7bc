/**
 The two durable journals: lines of `key=value`, identifiers in hexadecimal. Writing a
 valid journal and loading it under its own operation id gives it back; under any other
 id it is refused.
 */
module Journals {
  import opened Bytes
  import opened Wire

  // ----- hexadecimal -----

  function HexDigit(n: nat): (c: Byte)
    requires n < 16
  {
    if n < 10 then 48 + n else 87 + n
  }

  function Hex(b: seq<Byte>): (s: seq<Byte>)
    ensures |s| == 2 * |b|
  {
    if b == [] then [] else [HexDigit(b[0] / 16), HexDigit(b[0] % 16)] + Hex(b[1..])
  }

  function Nibble(c: Byte): (n: Option<nat>)
    ensures n.Some? ==> n.value < 16
  {
    if 48 <= c <= 57 then Some(c - 48)
    else if 97 <= c <= 102 then Some(c - 87)
    else if 65 <= c <= 70 then Some(c - 55)
    else None
  }

  /** `u8::from_str_radix` of two characters: a plus sign may stand for the first digit. */
  function Pair(a: Byte, b: Byte): (x: Option<Byte>)
  {
    match Nibble(b)
    case None => None
    case Some(low) =>
      if a == 43 then Some(low)
      else
        match Nibble(a)
        case None => None
        case Some(high) => Some(16 * high + low)
  }

  /** The bytes; or not hexadecimal; or a slice that would cut a character, which panics. */
  datatype Decoded = Read(bytes: seq<Byte>) | Invalid | Panic

  function DecodePairs(v: seq<Byte>): (d: Decoded)
    requires |v| % 2 == 0
  {
    if v == [] then Read([])
    else
      match Pair(v[0], v[1])
      case None => if |v| > 2 && Tail(v[2]) then Panic else Invalid
      case Some(x) =>
        match DecodePairs(v[2..])
        case Read(bytes) => Read([x] + bytes)
        case Invalid => Invalid
        case Panic => Panic
  }

  /** `decode_hex`, without the final check that the bytes are a string. */
  function DecodeHex(v: seq<Byte>): (d: Decoded)
  {
    if |v| % 2 != 0 then Invalid else DecodePairs(v)
  }

  lemma {:induction false} DigitRoundTrip(x: Byte)
    ensures Pair(HexDigit(x / 16), HexDigit(x % 16)) == Some(x)
  {
  }

  lemma {:induction false} HexRoundTrip(b: seq<Byte>)
    ensures DecodeHex(Hex(b)) == Read(b)
  {
    if b != [] {
      DigitRoundTrip(b[0]);
      HexRoundTrip(b[1..]);
      DecodeCons(HexDigit(b[0] / 16), HexDigit(b[0] % 16), Hex(b[1..]), b[0], b[1..]);
      HeadTail(b);
    }
  }

  lemma HeadTail<T>(s: seq<T>)
    requires s != []
    ensures s == [s[0]] + s[1..]
  {
  }

  lemma {:induction false} DecodeCons(high: Byte, low: Byte, rest: seq<Byte>, x: Byte, bytes: seq<Byte>)
    requires Pair(high, low) == Some(x) && |rest| % 2 == 0 && DecodePairs(rest) == Read(bytes)
    ensures |[high, low] + rest| % 2 == 0 && DecodePairs([high, low] + rest) == Read([x] + bytes)
  {
    assert ([high, low] + rest)[2..] == rest;
  }

  function PairAt(v: seq<Byte>, k: nat): (x: Option<Byte>)
    requires 2 * k + 1 < |v|
  {
    Pair(v[2 * k], v[2 * k + 1])
  }

  /** The k-th pair is the first that is not hexadecimal, and the character in it goes on after it. */
  predicate CutAt(v: seq<Byte>, k: nat)
    requires |v| % 2 == 0
  {
    && 2 * k + 2 < |v| && Tail(v[2 * k + 2]) && PairAt(v, k).None?
    && forall i :: 0 <= i < k ==> PairAt(v, i).Some?
  }

  predicate Cut(v: seq<Byte>) {
    |v| % 2 == 0 && exists k :: 0 <= k < |v| / 2 && CutAt(v, k)
  }

  lemma {:induction false} CutStep(v: seq<Byte>)
    requires |v| % 2 == 0 && v != [] && Pair(v[0], v[1]).Some?
    ensures Cut(v) <==> Cut(v[2..])
  {
    if Cut(v) {
      var k :| 0 <= k < |v| / 2 && CutAt(v, k);
      assert PairAt(v, 0).Some?;
      forall i | 0 <= i < k - 1 ensures PairAt(v[2..], i).Some? {
        assert PairAt(v, i + 1).Some?;
      }
      assert CutAt(v[2..], k - 1);
    }
    if Cut(v[2..]) {
      var k :| 0 <= k < |v[2..]| / 2 && CutAt(v[2..], k);
      forall i | 0 <= i < k + 1 ensures PairAt(v, i).Some? {
        if i > 0 {
          assert PairAt(v[2..], i - 1).Some?;
        }
      }
      assert CutAt(v, k + 1);
    }
  }

  lemma {:induction false} CutHere(v: seq<Byte>)
    requires |v| % 2 == 0 && v != [] && Pair(v[0], v[1]).None?
    ensures Cut(v) <==> |v| > 2 && Tail(v[2])
  {
    if Cut(v) {
      var k :| 0 <= k < |v| / 2 && CutAt(v, k);
      assert PairAt(v, 0).None?;
    }
    if |v| > 2 && Tail(v[2]) {
      assert CutAt(v, 0);
    }
  }

  /** Decoding panics exactly when the first pair that is not hexadecimal cuts a character. */
  lemma {:induction false} PanicsExactly(v: seq<Byte>)
    ensures DecodeHex(v) == Panic <==> Cut(v)
  {
    if |v| % 2 == 0 && v != [] {
      if Pair(v[0], v[1]).Some? {
        CutStep(v);
        PanicsExactly(v[2..]);
      } else {
        CutHere(v);
      }
    }
  }

  /** A value on one line of a UTF-8 journal that cuts a character. */
  const WIDE: seq<Byte> := [97, 0xC3, 0xA9, 97]

  lemma {:induction false} WideIsCut()
    ensures OneLine(WIDE) && Cut(WIDE)
  {
    assert WIDE[1..] == [0xC3, 0xA9, 97] && WIDE[1..][2..] == [97] && [97][1..] == [];
    assert CutAt(WIDE, 0);
  }

  // ----- lines -----

  const LINE_FEED: Byte := 10
  const CARRIAGE_RETURN: Byte := 13
  const EQUALS: Byte := 61

  function IndexOf(s: seq<Byte>, x: Byte): (r: Option<nat>)
    ensures r.Some? ==> r.value < |s| && s[r.value] == x && x !in s[..r.value]
    ensures r.None? ==> x !in s
  {
    if s == [] then None
    else if s[0] == x then Some(0)
    else
      match IndexOf(s[1..], x)
      case None => None
      case Some(i) => assert s[..i + 1] == [s[0]] + s[1..][..i]; Some(i + 1)
  }

  /** A line without its ending: the carriage return before the line feed goes too. */
  function Stripped(line: seq<Byte>): (s: seq<Byte>)
  {
    if line != [] && line[|line| - 1] == CARRIAGE_RETURN then line[..|line| - 1] else line
  }

  /** `str::lines` */
  function Lines(s: seq<Byte>): (ls: seq<seq<Byte>>)
    decreases |s|
  {
    if s == [] then []
    else
      match IndexOf(s, LINE_FEED)
      case None => [s]
      case Some(i) => [Stripped(s[..i])] + Lines(s[i + 1..])
  }

  /** `split_once('=')` */
  function SplitOnce(line: seq<Byte>): (r: Option<(seq<Byte>, seq<Byte>)>)
  {
    match IndexOf(line, EQUALS)
    case None => None
    case Some(i) => Some((line[..i], line[i + 1..]))
  }

  type Values = map<seq<Byte>, seq<Byte>>

  /** The loop that fills the key map: every line has a key, and no key comes twice. */
  function Collect(ls: seq<seq<Byte>>, m: Values): (r: Option<Values>)
    decreases |ls|
  {
    if ls == [] then Some(m)
    else
      match SplitOnce(ls[0])
      case None => None
      case Some((key, value)) => if key in m then None else Collect(ls[1..], m[key := value])
  }

  /** The same loop as the program runs it. */
  method FillMap(text: seq<Byte>) returns (r: Option<Values>)
    ensures r == Collect(Lines(text), map[])
  {
    var values: Values, lines, i := map[], Lines(text), 0;
    assert lines[0..] == lines;
    while i < |lines|
      invariant i <= |lines|
      invariant Collect(lines, map[]) == Collect(lines[i..], values)
    {
      assert lines[i..][1..] == lines[i + 1..];
      var split := SplitOnce(lines[i]);
      if split.None? {
        return None;
      }
      var (key, value) := split.value;
      if key in values {
        return None;
      }
      values := values[key := value];
      i := i + 1;
    }
    return Some(values);
  }

  // ----- printing fields -----

  datatype Field = Field(key: seq<Byte>, value: seq<Byte>)

  function LineOf(f: Field): (s: seq<Byte>)
  {
    f.key + ([EQUALS] + f.value)
  }

  function PrintFields(fs: seq<Field>): (s: seq<Byte>)
  {
    if fs == [] then [] else LineOf(fs[0]) + ([LINE_FEED] + PrintFields(fs[1..]))
  }

  predicate Clean(f: Field) {
    && EQUALS !in f.key && LINE_FEED !in f.key
    && LINE_FEED !in f.value && CARRIAGE_RETURN !in f.value
  }

  lemma {:induction false} IndexAfter(a: seq<Byte>, x: Byte, b: seq<Byte>)
    requires x !in a
    ensures IndexOf(a + ([x] + b), x) == Some(|a|)
  {
    if a == [] {
      assert a + ([x] + b) == [x] + b;
    } else {
      assert (a + ([x] + b))[1..] == a[1..] + ([x] + b);
      IndexAfter(a[1..], x, b);
    }
  }

  lemma {:induction false} SplitParts(a: seq<Byte>, x: Byte, b: seq<Byte>)
    ensures (a + ([x] + b))[..|a|] == a && (a + ([x] + b))[|a| + 1..] == b
  {
  }

  lemma {:induction false} SplitField(f: Field)
    requires Clean(f)
    ensures SplitOnce(LineOf(f)) == Some((f.key, f.value))
  {
    IndexAfter(f.key, EQUALS, f.value);
    SplitParts(f.key, EQUALS, f.value);
  }

  /** The lines of the printed fields are the fields. */
  function FieldLines(fs: seq<Field>): (ls: seq<seq<Byte>>)
  {
    if fs == [] then [] else [LineOf(fs[0])] + FieldLines(fs[1..])
  }

  lemma {:induction false} LineClean(f: Field)
    requires Clean(f)
    ensures LINE_FEED !in LineOf(f) && Stripped(LineOf(f)) == LineOf(f)
  {
    var line := LineOf(f);
    if f.value == [] {
      assert line[|line| - 1] == EQUALS;
    } else {
      assert line[|line| - 1] == f.value[|f.value| - 1];
    }
  }

  lemma {:induction false} LinesOfFields(fs: seq<Field>)
    requires forall i :: 0 <= i < |fs| ==> Clean(fs[i])
    ensures Lines(PrintFields(fs)) == FieldLines(fs)
  {
    if fs != [] {
      LineClean(fs[0]);
      LinesCons(LineOf(fs[0]), PrintFields(fs[1..]));
      LinesOfFields(fs[1..]);
    }
  }

  lemma {:induction false} LinesCons(line: seq<Byte>, rest: seq<Byte>)
    requires LINE_FEED !in line
    ensures Lines(line + ([LINE_FEED] + rest)) == [Stripped(line)] + Lines(rest)
  {
    IndexAfter(line, LINE_FEED, rest);
    SplitParts(line, LINE_FEED, rest);
  }

  predicate Distinct(fs: seq<Field>) {
    forall i, j :: 0 <= i < j < |fs| ==> fs[i].key != fs[j].key
  }

  /** The map that holds exactly these fields. */
  ghost predicate HoldsFields(m: Values, fs: seq<Field>) {
    && (forall i :: 0 <= i < |fs| ==> fs[i].key in m && m[fs[i].key] == fs[i].value)
    && (forall k :: k in m ==> exists i :: 0 <= i < |fs| && fs[i].key == k)
    && |m| == |fs|
  }

  lemma {:induction false} CollectFields(done: seq<Field>, todo: seq<Field>, m: Values)
    requires HoldsFields(m, done) && Distinct(done + todo)
    requires forall i :: 0 <= i < |todo| ==> Clean(todo[i])
    ensures var r := Collect(FieldLines(todo), m); r.Some? && HoldsFields(r.value, done + todo)
    decreases |todo|
  {
    if todo == [] {
      assert done + todo == done;
    } else {
      var f := todo[0];
      Regroup(done, todo);
      NewKey(done, todo, m);
      OneMore(done, f, m);
      CollectCons(f, todo[1..], m);
      CollectFields(done + [f], todo[1..], m[f.key := f.value]);
    }
  }

  lemma Regroup<T>(a: seq<T>, b: seq<T>)
    requires b != []
    ensures a + b == (a + [b[0]]) + b[1..]
    ensures b == [b[0]] + b[1..]
  {
  }

  lemma {:induction false} CollectCons(f: Field, later: seq<Field>, m: Values)
    requires Clean(f) && f.key !in m
    ensures Collect(FieldLines([f] + later), m) == Collect(FieldLines(later), m[f.key := f.value])
  {
    SplitField(f);
    assert ([f] + later)[1..] == later;
    assert ([LineOf(f)] + FieldLines(later))[1..] == FieldLines(later);
  }

  lemma {:induction false} NewKey(done: seq<Field>, todo: seq<Field>, m: Values)
    requires HoldsFields(m, done) && Distinct(done + todo) && todo != []
    ensures todo[0].key !in m
  {
    var all := done + todo;
    assert all[|done|] == todo[0];
    forall k | k in m ensures k != todo[0].key {
      var i :| 0 <= i < |done| && done[i].key == k;
      assert all[i] == done[i];
    }
  }

  lemma {:induction false} OneMore(done: seq<Field>, f: Field, m: Values)
    requires HoldsFields(m, done) && f.key !in m
    ensures HoldsFields(m[f.key := f.value], done + [f])
  {
    var m', all := m[f.key := f.value], done + [f];
    assert all[|done|] == f;
    forall i | 0 <= i < |all| ensures all[i].key in m' && m'[all[i].key] == all[i].value {
      if i < |done| {
        assert all[i] == done[i];
      }
    }
    forall k | k in m' ensures exists i :: 0 <= i < |all| && all[i].key == k {
      if k != f.key {
        var i :| 0 <= i < |done| && done[i].key == k;
        assert all[i] == done[i];
      }
    }
    assert m'.Keys == m.Keys + {f.key};
  }

  /** Loading the printed fields: the map holds exactly them. */
  lemma {:induction false} FieldsRoundTrip(fs: seq<Field>)
    requires Distinct(fs) && forall i :: 0 <= i < |fs| ==> Clean(fs[i])
    ensures var r := Collect(Lines(PrintFields(fs)), map[]); r.Some? && HoldsFields(r.value, fs)
  {
    LinesOfFields(fs);
    assert [] + fs == fs;
    CollectFields([], fs, map[]);
  }

  // ----- a journal as a list of values under fixed keys -----

  predicate Plain(s: seq<Byte>) {
    forall i :: 0 <= i < |s| ==> 32 < s[i] <= 0x7F
  }

  /** Keys that a journal may use: different words without `=`. */
  predicate Words(keys: seq<seq<Byte>>) {
    && (forall i :: 0 <= i < |keys| ==> Plain(keys[i]) && EQUALS !in keys[i])
    && (forall i, j :: 0 <= i < j < |keys| ==> keys[i] != keys[j])
  }

  function FieldsOf(keys: seq<seq<Byte>>, values: seq<seq<Byte>>): (fs: seq<Field>)
    requires |keys| == |values|
  {
    seq(|keys|, i requires 0 <= i < |keys| => Field(keys[i], values[i]))
  }

  /** What `values.get` answers for each key. */
  function Gather(m: Values, keys: seq<seq<Byte>>): (vs: seq<Option<seq<Byte>>>)
    ensures |vs| == |keys|
  {
    seq(|keys|, i requires 0 <= i < |keys| => if keys[i] in m then Some(m[keys[i]]) else None)
  }

  /** The text of a journal with these keys and values. */
  function PrintJournal(keys: seq<seq<Byte>>, values: seq<seq<Byte>>): (text: seq<Byte>)
    requires |keys| == |values|
  {
    PrintFields(FieldsOf(keys, values))
  }

  /** A loaded journal, nothing usable, or a panic while decoding. */
  datatype Loaded<T> = Loaded(value: T) | Unresolved | Panicked

  /** The size of the key map of a text and the values under these keys. */
  function LoadValues(text: seq<Byte>, keys: seq<seq<Byte>>): (r: Option<(nat, seq<Option<seq<Byte>>>)>)
    ensures r.Some? ==> |r.value.1| == |keys|
  {
    if !Utf8(text) then None
    else
      match Collect(Lines(text), map[])
      case None => None
      case Some(m) => Some((|m|, Gather(m, keys)))
  }

  /** An identifier: a missing key, bad hexadecimal and bytes that are no string are refused. */
  function Identifier(v: Option<seq<Byte>>): (r: Loaded<seq<Byte>>)
  {
    if v.None? then Unresolved
    else
      match DecodeHex(v.value)
      case Read(bytes) => if Utf8(bytes) then Loaded(bytes) else Unresolved
      case Invalid => Unresolved
      case Panic => Panicked
  }

  lemma {:induction false} IdentifierRoundTrip(v: seq<Byte>)
    requires Utf8(v)
    ensures Identifier(Some(Hex(v))) == Loaded(v)
  {
    HexRoundTrip(v);
  }

  lemma {:induction false} IdentifierPanics(v: Option<seq<Byte>>)
    ensures Identifier(v) == Panicked <==> v.Some? && Cut(v.value)
  {
    if v.Some? {
      PanicsExactly(v.value);
    }
  }

  lemma {:induction false} HexPlain(b: seq<Byte>)
    ensures Plain(Hex(b)) && |Hex(b)| == 2 * |b|
  {
    if b != [] {
      HexPlain(b[1..]);
    }
  }

  lemma {:induction false} AsciiUtf8(s: seq<Byte>)
    requires forall i :: 0 <= i < |s| ==> s[i] <= 0x7F
    ensures Utf8(s)
  {
    if s != [] {
      AsciiUtf8(s[1..]);
    }
  }

  /** A value that is a string on one line. */
  predicate OneLine(v: seq<Byte>) {
    Utf8(v) && LINE_FEED !in v && CARRIAGE_RETURN !in v
  }

  lemma {:induction false} PlainIsOneLine(v: seq<Byte>)
    requires Plain(v)
    ensures OneLine(v)
  {
    AsciiUtf8(v);
  }

  lemma {:induction false} Utf8Concat(a: seq<Byte>, b: seq<Byte>)
    requires Utf8(a) && Utf8(b)
    ensures Utf8(a + b)
    decreases |a|
  {
    if a == [] {
      assert a + b == b;
    } else {
      var n := CharLength(a);
      assert CharLength(a + b) == n;
      assert (a + b)[n..] == a[n..] + b;
      Utf8Concat(a[n..], b);
    }
  }

  lemma {:induction false} PrintedUtf8(fs: seq<Field>)
    requires forall i :: 0 <= i < |fs| ==> Utf8(fs[i].key) && Utf8(fs[i].value)
    ensures Utf8(PrintFields(fs))
  {
    if fs != [] {
      PrintedUtf8(fs[1..]);
      AsciiUtf8([LINE_FEED]);
      AsciiUtf8([EQUALS]);
      Utf8Concat([EQUALS], fs[0].value);
      Utf8Concat(fs[0].key, [EQUALS] + fs[0].value);
      Utf8Concat([LINE_FEED], PrintFields(fs[1..]));
      Utf8Concat(LineOf(fs[0]), [LINE_FEED] + PrintFields(fs[1..]));
    }
  }

  /** Loading a printed journal gives back its values, under its keys and no others. */
  lemma {:induction false} JournalRoundTrip(keys: seq<seq<Byte>>, values: seq<seq<Byte>>)
    requires |keys| == |values| && Words(keys)
    requires forall i :: 0 <= i < |values| ==> OneLine(values[i])
    ensures LoadValues(PrintJournal(keys, values), keys)
         == Some((|keys|, seq(|values|, i requires 0 <= i < |values| => Some(values[i]))))
  {
    var fs := FieldsOf(keys, values);
    forall i | 0 <= i < |fs| ensures Utf8(fs[i].key) {
      AsciiUtf8(keys[i]);
    }
    PrintedUtf8(fs);
    FieldsRoundTrip(fs);
    GatherFields(Collect(Lines(PrintFields(fs)), map[]).value, keys, values);
  }

  lemma {:induction false} GatherFields(m: Values, keys: seq<seq<Byte>>, values: seq<seq<Byte>>)
    requires |keys| == |values| && HoldsFields(m, FieldsOf(keys, values))
    ensures Gather(m, keys) == seq(|values|, i requires 0 <= i < |values| => Some(values[i]))
  {
    var fs := FieldsOf(keys, values);
    forall i | 0 <= i < |keys| ensures Gather(m, keys)[i] == Some(values[i]) {
      assert fs[i].key in m;
    }
  }
}
