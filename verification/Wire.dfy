/**
 Readers and printers of the length-prefixed formats. A printer takes what follows it,
 a reader gives back what is left, so that every pair satisfies: reading what was
 printed gives the value and the rest, and what was read is what would be printed.
 */
module Wire {
  import opened Bytes

  datatype Fault = FormatInvalid | LimitExceeded | AuthenticationFailed | PathUnsafe | WriteFailed

  datatype Got<+T> = Got(value: T, rest: seq<Byte>) | Lost(fault: Fault)

  // ----- UTF-8, by section 4 of RFC 3629 -----

  predicate Tail(b: Byte) {
    0x80 <= b <= 0xBF
  }

  /** The length of the well-formed character at the front, or 0. */
  function CharLength(s: seq<Byte>): (n: nat)
    ensures n <= |s| && n <= 4
  {
    if |s| >= 1 && s[0] <= 0x7F then 1
    else if |s| >= 2 && 0xC2 <= s[0] <= 0xDF && Tail(s[1]) then 2
    else if |s| >= 3 && Tail(s[2])
            && ((s[0] == 0xE0 && 0xA0 <= s[1] <= 0xBF) || (0xE1 <= s[0] <= 0xEC && Tail(s[1]))
                || (s[0] == 0xED && 0x80 <= s[1] <= 0x9F) || (0xEE <= s[0] <= 0xEF && Tail(s[1]))) then 3
    else if |s| >= 4 && Tail(s[2]) && Tail(s[3])
            && ((s[0] == 0xF0 && 0x90 <= s[1] <= 0xBF) || (0xF1 <= s[0] <= 0xF3 && Tail(s[1]))
                || (s[0] == 0xF4 && 0x80 <= s[1] <= 0x8F)) then 4
    else 0
  }

  predicate Utf8(s: seq<Byte>)
    decreases |s|
  {
    s == [] || (CharLength(s) > 0 && Utf8(s[CharLength(s)..]))
  }

  /** A string is its bytes, which are UTF-8. */
  type Text = seq<Byte>

  /** A string of at most max bytes, short enough for its length field. */
  predicate TextFits(s: Text, max: nat) {
    |s| <= max && |s| < U32_SPAN && Utf8(s)
  }

  // ----- the primitive fields -----

  /** `read_exact`, with the error its caller maps it to. */
  function ReadExact(b: seq<Byte>, n: nat, short: Fault): (g: Got<seq<Byte>>)
    ensures g.Got? ==> |g.value| == n
  {
    if |b| < n then Lost(short) else Got(b[..n], b[n..])
  }

  function ReadInt(b: seq<Byte>, w: nat, short: Fault): (g: Got<nat>)
  {
    match ReadExact(b, w, short)
    case Lost(f) => Lost(f)
    case Got(v, rest) => Got(FromBe(v), rest)
  }

  function ReadText(b: seq<Byte>, max: nat, short: Fault): (g: Got<Text>)
  {
    match ReadInt(b, 4, short)
    case Lost(f) => Lost(f)
    case Got(n, b1) =>
      if n > max then Lost(LimitExceeded)
      else
        match ReadExact(b1, n, short)
        case Lost(f) => Lost(f)
        case Got(v, rest) => if Utf8(v) then Got(v, rest) else Lost(FormatInvalid)
  }

  function PrintText(s: Text, rest: seq<Byte>): (b: seq<Byte>)
  {
    Be(|s|, 4) + (s + rest)
  }

  lemma {:induction false} ExactSound(b: seq<Byte>, n: nat, short: Fault)
    ensures var g := ReadExact(b, n, short); g.Got? ==> b == g.value + g.rest
  {
  }

  lemma {:induction false} ExactRoundTrip(v: seq<Byte>, rest: seq<Byte>, short: Fault)
    ensures ReadExact(v + rest, |v|, short) == Got(v, rest)
  {
    Seam(v, rest);
  }

  lemma {:induction false} IntRoundTrip(n: nat, w: nat, rest: seq<Byte>, short: Fault)
    requires n < Span(w)
    ensures ReadInt(Be(n, w) + rest, w, short) == Got(n, rest)
  {
    ExactRoundTrip(Be(n, w), rest, short);
    BeRoundTrip(n, w);
  }

  lemma {:induction false} IntSound(b: seq<Byte>, w: nat, short: Fault)
    ensures var g := ReadInt(b, w, short); g.Got? ==> g.value < Span(w) && b == Be(g.value, w) + g.rest
  {
    ExactSound(b, w, short);
    if |b| >= w {
      BeInverse(b[..w]);
    }
  }

  lemma {:induction false} TextRoundTrip(s: Text, max: nat, rest: seq<Byte>, short: Fault)
    requires TextFits(s, max)
    ensures ReadText(PrintText(s, rest), max, short) == Got(s, rest)
  {
    SpanValues();
    IntRoundTrip(|s|, 4, s + rest, short);
    ExactRoundTrip(s, rest, short);
  }

  lemma {:induction false} TextSound(b: seq<Byte>, max: nat, short: Fault)
    ensures var g := ReadText(b, max, short); g.Got? ==> TextFits(g.value, max) && b == PrintText(g.value, g.rest)
  {
    SpanValues();
    IntSound(b, 4, short);
    if ReadInt(b, 4, short).Got? {
      ExactSound(ReadInt(b, 4, short).rest, ReadInt(b, 4, short).value, short);
    }
  }

  // ----- lists -----

  /** The loop that reads n items, one after the other. */
  function ReadAll<T>(read: seq<Byte> -> Got<T>, b: seq<Byte>, n: nat): (g: Got<seq<T>>)
    ensures g.Got? ==> |g.value| == n
    decreases n
  {
    if n == 0 then Got([], b)
    else
      match read(b)
      case Lost(f) => Lost(f)
      case Got(x, b1) =>
        match ReadAll(read, b1, n - 1)
        case Lost(f) => Lost(f)
        case Got(xs, rest) => Got([x] + xs, rest)
  }

  function PrintAll<T>(put: (T, seq<Byte>) -> seq<Byte>, xs: seq<T>, rest: seq<Byte>): (b: seq<Byte>)
  {
    if xs == [] then rest else put(xs[0], PrintAll(put, xs[1..], rest))
  }

  /** The reader undoes the printer on the items that fit. */
  ghost predicate Undoes<T(!new)>(read: seq<Byte> -> Got<T>, put: (T, seq<Byte>) -> seq<Byte>, fits: T -> bool) {
    forall x, rest :: fits(x) ==> read(put(x, rest)) == Got(x, rest)
  }

  /** The reader accepts only what the printer prints. */
  ghost predicate Prints<T(!new)>(read: seq<Byte> -> Got<T>, put: (T, seq<Byte>) -> seq<Byte>, fits: T -> bool) {
    forall b :: read(b).Got? ==> fits(read(b).value) && b == put(read(b).value, read(b).rest)
  }

  predicate AllFit<T>(xs: seq<T>, fits: T -> bool) {
    forall i :: 0 <= i < |xs| ==> fits(xs[i])
  }

  lemma {:induction false} AllRoundTrip<T(!new)>(read: seq<Byte> -> Got<T>, put: (T, seq<Byte>) -> seq<Byte>,
                                                 fits: T -> bool, xs: seq<T>, rest: seq<Byte>)
    requires Undoes(read, put, fits) && AllFit(xs, fits)
    ensures ReadAll(read, PrintAll(put, xs, rest), |xs|) == Got(xs, rest)
  {
    if xs != [] {
      AllRoundTrip(read, put, fits, xs[1..], rest);
      assert read(put(xs[0], PrintAll(put, xs[1..], rest))) == Got(xs[0], PrintAll(put, xs[1..], rest));
      assert xs == [xs[0]] + xs[1..];
    }
  }

  lemma {:induction false} AllSound<T(!new)>(read: seq<Byte> -> Got<T>, put: (T, seq<Byte>) -> seq<Byte>,
                                             fits: T -> bool, b: seq<Byte>, n: nat)
    requires Prints(read, put, fits)
    ensures var g := ReadAll(read, b, n); g.Got? ==> AllFit(g.value, fits) && b == PrintAll(put, g.value, g.rest)
    decreases n
  {
    if n > 0 && ReadAll(read, b, n).Got? {
      var x, b1 := read(b).value, read(b).rest;
      AllSound(read, put, fits, b1, n - 1);
      var xs := ReadAll(read, b1, n - 1).value;
      assert ([x] + xs)[1..] == xs;
    }
  }

  /** The loop, with what it has read so far. */
  function ReadMore<T>(read: seq<Byte> -> Got<T>, front: seq<T>, b: seq<Byte>, n: nat): (g: Got<seq<T>>)
    decreases n
  {
    if n == 0 then Got(front, b)
    else
      match read(b)
      case Lost(f) => Lost(f)
      case Got(x, b1) => ReadMore(read, front + [x], b1, n - 1)
  }

  lemma {:induction false} ReadMoreIs<T>(read: seq<Byte> -> Got<T>, front: seq<T>, b: seq<Byte>, n: nat)
    ensures ReadMore(read, front, b, n)
         == match ReadAll(read, b, n)
            case Lost(f) => Lost(f)
            case Got(xs, rest) => Got(front + xs, rest)
    decreases n
  {
    if n == 0 {
      assert front + [] == front;
    } else {
      match read(b)
      case Lost(_) =>
      case Got(x, b1) =>
        ReadMoreIs(read, front + [x], b1, n - 1);
        match ReadAll(read, b1, n - 1)
        case Lost(_) =>
        case Got(xs, _) => Assoc(front, [x], xs);
    }
  }

  lemma {:induction false} ReadByLoop<T>(read: seq<Byte> -> Got<T>, b: seq<Byte>, n: nat)
    ensures ReadMore(read, [], b, n) == ReadAll(read, b, n)
  {
    ReadMoreIs(read, [], b, n);
    if ReadAll(read, b, n).Got? {
      assert [] + ReadAll(read, b, n).value == ReadAll(read, b, n).value;
    }
  }

  /** A printer only puts its own bytes in front. */
  ghost predicate Prefixes<T(!new)>(put: (T, seq<Byte>) -> seq<Byte>) {
    forall x, rest, more :: put(x, rest + more) == put(x, rest) + more
  }

  lemma {:induction false} AllThen<T(!new)>(put: (T, seq<Byte>) -> seq<Byte>, xs: seq<T>, rest: seq<Byte>,
                                            more: seq<Byte>)
    requires Prefixes(put)
    ensures PrintAll(put, xs, rest + more) == PrintAll(put, xs, rest) + more
  {
    if xs != [] {
      AllThen(put, xs[1..], rest, more);
      assert put(xs[0], PrintAll(put, xs[1..], rest) + more) == put(xs[0], PrintAll(put, xs[1..], rest)) + more;
    }
  }

  lemma {:induction false} AllConcat<T>(put: (T, seq<Byte>) -> seq<Byte>, xs: seq<T>, ys: seq<T>, rest: seq<Byte>)
    ensures PrintAll(put, xs + ys, rest) == PrintAll(put, xs, PrintAll(put, ys, rest))
  {
    if xs == [] {
      assert xs + ys == ys;
    } else {
      AllConcat(put, xs[1..], ys, rest);
      assert (xs + ys)[1..] == xs[1..] + ys;
    }
  }

  /** One more item at the end of what is printed. */
  lemma {:induction false} AllSnoc<T(!new)>(put: (T, seq<Byte>) -> seq<Byte>, xs: seq<T>, i: nat)
    requires Prefixes(put) && i < |xs|
    ensures PrintAll(put, xs[..i + 1], []) == PrintAll(put, xs[..i], []) + put(xs[i], [])
  {
    AllConcat(put, xs[..i], [xs[i]], []);
    assert xs[..i + 1] == xs[..i] + [xs[i]];
    AllThen(put, xs[..i], [], put(xs[i], []));
    assert [] + put(xs[i], []) == put(xs[i], []);
  }

  // ----- lists of strings -----

  function TextReader(max: nat): (read: seq<Byte> -> Got<Text>)
  {
    b => ReadText(b, max, FormatInvalid)
  }

  function ReadTexts(b: seq<Byte>, n: nat, max: nat): (g: Got<seq<Text>>)
    ensures g.Got? ==> |g.value| == n
  {
    ReadAll(TextReader(max), b, n)
  }

  function PrintTexts(ss: seq<Text>, rest: seq<Byte>): (b: seq<Byte>)
  {
    PrintAll(PrintText, ss, rest)
  }

  predicate TextsFit(ss: seq<Text>, max: nat) {
    forall i :: 0 <= i < |ss| ==> TextFits(ss[i], max)
  }

  lemma {:induction false} TextsRoundTrip(ss: seq<Text>, max: nat, rest: seq<Byte>)
    requires TextsFit(ss, max)
    ensures ReadTexts(PrintTexts(ss, rest), |ss|, max) == Got(ss, rest)
  {
    var fits := s => TextFits(s, max);
    forall s, r | fits(s) ensures TextReader(max)(PrintText(s, r)) == Got(s, r) {
      TextRoundTrip(s, max, r, FormatInvalid);
    }
    AllRoundTrip(TextReader(max), PrintText, fits, ss, rest);
  }

  lemma {:induction false} TextsSound(b: seq<Byte>, n: nat, max: nat)
    ensures var g := ReadTexts(b, n, max); g.Got? ==> TextsFit(g.value, max) && b == PrintTexts(g.value, g.rest)
  {
    var fits := s => TextFits(s, max);
    forall c | TextReader(max)(c).Got?
      ensures fits(TextReader(max)(c).value) && c == PrintText(TextReader(max)(c).value, TextReader(max)(c).rest)
    {
      TextSound(c, max, FormatInvalid);
    }
    AllSound(TextReader(max), PrintText, fits, b, n);
  }

  lemma {:induction false} TextThen(s: Text, rest: seq<Byte>, more: seq<Byte>)
    ensures PrintText(s, rest + more) == PrintText(s, rest) + more
  {
    assert s + (rest + more) == (s + rest) + more;
    Assoc(Be(|s|, 4), s + rest, more);
  }

  lemma {:induction false} TextPrefixes()
    ensures Prefixes(PrintText)
  {
    forall s, rest, more ensures PrintText(s, rest + more) == PrintText(s, rest) + more {
      TextThen(s, rest, more);
    }
  }
}
