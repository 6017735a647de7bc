/**
 Reading a health response: two bounded loops, one over a plain stream and one over a
 TLS session, that look for the end of the headers in what has arrived so far. Both are
 proved to give the answer of a one-shot definition on the whole stream, for every way
 the bytes are split into reads.
 */
module HealthReader {
  import opened Bytes
  import opened Wire

  const MAX_HEADER: nat := 8 * 1024

  const BUFFER: nat := 1024

  datatype Failure = ReadTimeout | MalformedResponse | ResponseTooLarge | WriteError

  /** How the stream ends: closed, timed out, another error, or a failure to write pending TLS output. */
  datatype Ending = Eof | TimedOut | Broken | FlushFailed

  function FailureOf(e: Ending): (f: Failure)
  {
    match e
    case Eof => MalformedResponse
    case TimedOut => ReadTimeout
    case Broken => MalformedResponse
    case FlushFailed => WriteError
  }

  const CR: Byte := 13
  const LF: Byte := 10

  /** The headers' blank line starts here. */
  predicate EndsAt(s: seq<Byte>, i: nat) {
    i + 4 <= |s| && s[i] == CR && s[i + 1] == LF && s[i + 2] == CR && s[i + 3] == LF
  }

  /** The first blank line, from position i on. */
  function FindEnd(s: seq<Byte>, i: nat): (r: Option<nat>)
    ensures r.Some? ==> i <= r.value && EndsAt(s, r.value) && forall j :: i <= j < r.value ==> !EndsAt(s, j)
    ensures r.None? ==> forall j :: i <= j ==> !EndsAt(s, j)
    decreases |s| - i
  {
    if i + 4 > |s| then None else if EndsAt(s, i) then Some(i) else FindEnd(s, i + 1)
  }

  // ----- the status line -----

  /** The code point of the character at the front. */
  function CodePoint(s: seq<Byte>): (c: nat)
    requires CharLength(s) > 0
  {
    var n := CharLength(s);
    var at := (i: nat) => if i < |s| then s[i] as int else 0;
    if n == 1 then s[0]
    else if n == 2 then (at(0) - 0xC0) * 64 + (at(1) - 0x80)
    else if n == 3 then (at(0) - 0xE0) * 4096 + (at(1) - 0x80) * 64 + (at(2) - 0x80)
    else (at(0) - 0xF0) * 262144 + (at(1) - 0x80) * 4096 + (at(2) - 0x80) * 64 + (at(3) - 0x80)
  }

  /** The characters of a UTF-8 string. */
  function Chars(s: seq<Byte>): (cs: seq<nat>)
    requires Utf8(s)
    decreases |s|
  {
    if s == [] then [] else [CodePoint(s)] + Chars(s[CharLength(s)..])
  }

  /** The White_Space property of Unicode, as `split_whitespace` uses it. */
  predicate Space(c: nat) {
    || 0x09 <= c <= 0x0D || c == 0x20 || c == 0x85 || c == 0xA0 || c == 0x1680
    || 0x2000 <= c <= 0x200A || c == 0x2028 || c == 0x2029 || c == 0x202F || c == 0x205F || c == 0x3000
  }

  function SkipSpaces(cs: seq<nat>): (r: seq<nat>)
    ensures |r| <= |cs|
  {
    if cs != [] && Space(cs[0]) then SkipSpaces(cs[1..]) else cs
  }

  /** The characters up to the next space. */
  function Word(cs: seq<nat>): (w: seq<nat>)
    ensures |w| <= |cs|
  {
    if cs == [] || Space(cs[0]) then [] else [cs[0]] + Word(cs[1..])
  }

  /** The next word and what follows it; an empty word when there is none. */
  function NextWord(cs: seq<nat>): (r: (seq<nat>, seq<nat>))
  {
    var t := SkipSpaces(cs);
    (Word(t), t[|Word(t)|..])
  }

  /** "HTTP/1.0" and "HTTP/1.1" */
  const HTTP_1: seq<nat> := [72, 84, 84, 80, 47, 49, 46]

  predicate Digit(c: nat) {
    48 <= c <= 57
  }

  /** The checks on the first two words. */
  function Judge(version: seq<nat>, status: seq<nat>): (r: Result<nat, Failure>)
  {
    if version == [] || status == [] then Err(MalformedResponse)
    else if !(version == HTTP_1 + [48] || version == HTTP_1 + [49]) || |status| != 3
            || !(Digit(status[0]) && Digit(status[1]) && Digit(status[2])) then Err(MalformedResponse)
    else
      var code := (status[0] - 48) * 100 + (status[1] - 48) * 10 + (status[2] - 48);
      if 100 <= code <= 599 then Ok(code) else Err(MalformedResponse)
  }

  function StatusOf(line: seq<Byte>): (r: Result<nat, Failure>)
  {
    if !Utf8(line) then Err(MalformedResponse)
    else
      var (version, rest) := NextWord(Chars(line));
      Judge(version, NextWord(rest).0)
  }

  /** The first line break. */
  function LineEnd(s: seq<Byte>, i: nat): (r: Option<nat>)
    ensures r.Some? ==> i <= r.value && r.value + 2 <= |s| && s[r.value] == CR && s[r.value + 1] == LF
    ensures forall j :: i <= j && j + 2 <= |s| && (r.Some? ==> j < r.value) ==> !(s[j] == CR && s[j + 1] == LF)
    decreases |s| - i
  {
    if i + 2 > |s| then None else if s[i] == CR && s[i + 1] == LF then Some(i) else LineEnd(s, i + 1)
  }

  /** `parse_health_status_line` */
  function ParseStatus(headers: seq<Byte>): (r: Result<nat, Failure>)
  {
    match LineEnd(headers, 0)
    case None => Err(MalformedResponse)
    case Some(n) => StatusOf(headers[..n])
  }

  // ----- the one-shot answer -----

  /** The answer for everything the peer sends before the stream ends. */
  function OneShot(s: seq<Byte>, e: Ending): (r: Result<nat, Failure>)
  {
    match FindEnd(s, 0)
    case Some(i) => if i + 4 <= MAX_HEADER then ParseStatus(s[..i + 4]) else Err(ResponseTooLarge)
    case None => if |s| > MAX_HEADER then Err(ResponseTooLarge) else Err(FailureOf(e))
  }

  /** A blank line in what has arrived is the first one of the whole stream. */
  lemma {:induction false} FindInPrefix(s: seq<Byte>, p: seq<Byte>)
    requires p <= s
    ensures FindEnd(p, 0).Some? ==> FindEnd(s, 0) == FindEnd(p, 0)
    ensures FindEnd(p, 0).None? && FindEnd(s, 0).Some? ==> FindEnd(s, 0).value + 4 > |p|
  {
    assert forall i :: 0 <= i && i + 4 <= |p| ==> (EndsAt(p, i) <==> EndsAt(s, i));
  }

  /** What a loop concludes from the bytes p so far is the one-shot answer. */
  lemma {:induction false} Concluded(s: seq<Byte>, e: Ending, p: seq<Byte>)
    requires p <= s && |p| <= MAX_HEADER + 1
    ensures FindEnd(p, 0).Some? ==>
              OneShot(s, e) == var end := FindEnd(p, 0).value + 4;
                               if end > MAX_HEADER then Err(ResponseTooLarge) else ParseStatus(p[..end])
    ensures FindEnd(p, 0).None? && |p| > MAX_HEADER ==> OneShot(s, e) == Err(ResponseTooLarge)
    ensures FindEnd(p, 0).None? && p == s && |s| <= MAX_HEADER ==> OneShot(s, e) == Err(FailureOf(e))
  {
    FindInPrefix(s, p);
    match FindEnd(p, 0)
    case Some(i) => assert p[..i + 4] == s[..i + 4];
    case None =>
  }

  // ----- the loops -----

  /** How many bytes a read returns: at least one, at most what fits and what is there. */
  function ReadSize(choice: nat, limit: nat, available: nat): (n: nat)
    requires limit > 0 && available > 0
    ensures 1 <= n <= limit && n <= available
  {
    1 + choice % (if limit < available then limit else available)
  }

  /** `read_health_status`; the i-th read returns as many bytes as `split(i)` says. */
  method ReadHealthStatus(s: seq<Byte>, e: Ending, split: nat -> nat) returns (r: Result<nat, Failure>)
    ensures r == OneShot(s, e)
  {
    var headers: seq<Byte>, turn: nat := [], 0;
    while true
      invariant headers <= s && |headers| <= MAX_HEADER && FindEnd(headers, 0).None?
      decreases |s| - |headers|
    {
      var room := MAX_HEADER + 1 - |headers|;
      var limit := if room < BUFFER then room else BUFFER;
      Concluded(s, e, headers);
      if |headers| == |s| {
        return Err(FailureOf(e));
      }
      var read := ReadSize(split(turn), limit, |s| - |headers|);
      PrefixGrows(s, headers, read);
      headers := headers + s[|headers|..|headers| + read];
      turn := turn + 1;
      Concluded(s, e, headers);
      match FindEnd(headers, 0) {
        case Some(position) =>
          var end := position + 4;
          if end > MAX_HEADER {
            return Err(ResponseTooLarge);
          }
          return ParseStatus(headers[..end]);
        case None =>
          if |headers| > MAX_HEADER {
            return Err(ResponseTooLarge);
          }
      }
    }
  }

  lemma PrefixGrows<T>(s: seq<T>, p: seq<T>, k: nat)
    requires p <= s && |p| + k <= |s|
    ensures p + s[|p|..|p| + k] <= s
  {
  }

  function Flatten(parts: seq<seq<Byte>>): (s: seq<Byte>)
  {
    if parts == [] then [] else Flatten(parts[..|parts| - 1]) + parts[|parts| - 1]
  }

  /**
   `read_tls_health_status`; `arrivals[i]` is the plaintext that the i-th network read
   puts into the session, possibly none.
   */
  method ReadTlsHealthStatus(arrivals: seq<seq<Byte>>, e: Ending) returns (r: Result<nat, Failure>)
    ensures r == OneShot(Flatten(arrivals), e)
  {
    ghost var s, seen: seq<Byte> := Flatten(arrivals), [];
    var headers: seq<Byte>, session: seq<Byte>, next := [], [], 0;
    while true
      invariant next <= |arrivals| && |headers| <= MAX_HEADER && FindEnd(headers, 0).None?
      invariant seen == Flatten(arrivals[..next]) && seen <= s && headers + session == seen
      decreases |arrivals| - next
    {
      var room := MAX_HEADER + 1 - |headers|;
      var take := if room < |session| then room else |session|;
      TakeFront(headers, session, take);
      headers, session := headers + session[..take], session[take..];
      assert headers <= seen;
      Concluded(s, e, headers);
      match FindEnd(headers, 0) {
        case Some(position) =>
          var end := position + 4;
          if end > MAX_HEADER {
            return Err(ResponseTooLarge);
          }
          return ParseStatus(headers[..end]);
        case None =>
      }
      if |headers| > MAX_HEADER {
        return Err(ResponseTooLarge);
      }
      if next == |arrivals| {
        assert arrivals[..next] == arrivals;
        return Err(FailureOf(e));
      }
      FlattenPrefix(arrivals, next + 1);
      assert arrivals[..next + 1][..next] == arrivals[..next];
      Assoc(headers, session, arrivals[next]);
      seen := seen + arrivals[next];
      session := session + arrivals[next];
      next := next + 1;
    }
  }

  lemma TakeFront<T>(a: seq<T>, b: seq<T>, k: nat)
    requires k <= |b|
    ensures (a + b[..k]) + b[k..] == a + b
  {
  }

  lemma {:induction false} FlattenPrefix(parts: seq<seq<Byte>>, k: nat)
    requires k <= |parts|
    ensures Flatten(parts[..k]) <= Flatten(parts)
    decreases |parts|
  {
    if k == |parts| {
      assert parts[..k] == parts;
    } else {
      FlattenPrefix(parts[..|parts| - 1], k);
      assert parts[..|parts| - 1][..k] == parts[..k];
    }
  }

  // ----- what the status line must look like -----

  predicate Ascii(s: seq<Byte>) {
    forall i :: 0 <= i < |s| ==> s[i] <= 0x7F
  }

  /** ASCII in front of a string changes nothing about its validity and is read as itself. */
  lemma {:induction false} AsciiPrefix(a: seq<Byte>, b: seq<Byte>)
    requires Ascii(a)
    ensures Utf8(a + b) <==> Utf8(b)
    ensures Utf8(b) ==> Chars(a + b) == a + Chars(b)
    decreases |a|
  {
    if a == [] {
      assert a + b == b;
      if Utf8(b) {
        assert [] + Chars(b) == Chars(b);
      }
    } else {
      AsciiPrefix(a[1..], b);
      assert (a + b)[1..] == a[1..] + b;
      if Utf8(b) {
        assert a + Chars(b) == [a[0]] + (a[1..] + Chars(b));
      }
    }
  }

  predicate Solid(w: seq<nat>) {
    forall i :: 0 <= i < |w| ==> !Space(w[i])
  }

  lemma {:induction false} WordIs(w: seq<nat>, rest: seq<nat>)
    requires Solid(w) && (rest == [] || Space(rest[0]))
    ensures Word(w + rest) == w
  {
    if w == [] {
      assert w + rest == rest;
    } else {
      assert (w + rest)[1..] == w[1..] + rest;
      WordIs(w[1..], rest);
    }
  }

  lemma {:induction false} NextWordIs(w: seq<nat>, rest: seq<nat>)
    requires w != [] && Solid(w) && (rest == [] || Space(rest[0]))
    ensures NextWord(w + rest) == (w, rest)
    ensures NextWord([0x20] + (w + rest)) == (w, rest)
  {
    WordIs(w, rest);
    assert SkipSpaces(w + rest) == w + rest;
    assert ([0x20] + (w + rest))[1..] == w + rest;
    Seam(w, rest);
  }

  /** A status line of section 4 of RFC 9112: version, space, three digits, space, reason phrase. */
  function StatusLine(minor: Byte, status: seq<Byte>, reason: seq<Byte>): (line: seq<Byte>)
    requires |status| == 3
  {
    ([72, 84, 84, 80, 47, 49, 46, minor] + ([32] + (status + [32]))) + reason
  }

  /**
   Every such line with a code from 100 to 599 is accepted with that code exactly when
   its reason phrase is UTF-8; other bytes, which the grammar also allows there, make
   the whole line malformed.
   */
  lemma {:induction false} StatusLineAccepted(minor: Byte, status: seq<Byte>, reason: seq<Byte>)
    requires minor == 48 || minor == 49
    requires |status| == 3 && Digit(status[0]) && Digit(status[1]) && Digit(status[2])
    ensures var code := (status[0] as int - 48) * 100 + (status[1] as int - 48) * 10 + (status[2] as int - 48);
            StatusOf(StatusLine(minor, status, reason))
            == if Utf8(reason) && 100 <= code <= 599 then Ok(code) else Err(MalformedResponse)
  {
    if Utf8(reason) {
      StatusByWords(minor, status, reason);
    } else {
      AsciiPrefix([72, 84, 84, 80, 47, 49, 46, minor] + ([32] + (status + [32])), reason);
    }
  }

  lemma {:induction false} StatusByWords(minor: Byte, status: seq<Byte>, reason: seq<Byte>)
    requires minor <= 0x7F && !Space(minor) && |status| == 3 && Ascii(status) && Utf8(reason)
    requires !Space(status[0]) && !Space(status[1]) && !Space(status[2])
    ensures StatusOf(StatusLine(minor, status, reason)) == Judge(HTTP_1 + [minor], [status[0], status[1], status[2]])
  {
    LineChars(minor, status, reason);
    LineWords(HTTP_1 + [minor], [status[0], status[1], status[2]], Chars(reason));
  }

  lemma {:induction false} LineChars(minor: Byte, status: seq<Byte>, reason: seq<Byte>)
    requires minor <= 0x7F && |status| == 3 && Ascii(status) && Utf8(reason)
    ensures Utf8(StatusLine(minor, status, reason))
    ensures Chars(StatusLine(minor, status, reason))
         == (HTTP_1 + [minor]) + ([0x20] + ([status[0], status[1], status[2]] + ([0x20] + Chars(reason))))
  {
    var front := [72, 84, 84, 80, 47, 49, 46, minor] + ([32] + (status + [32]));
    AsciiPrefix(front, reason);
    var v: seq<nat>, t: seq<nat> := HTTP_1 + [minor], [status[0], status[1], status[2]];
    var f: seq<nat> := v + ([0x20] + (t + [0x20]));
    assert front == f;
    FiveWords(v, [0x20], t, [0x20], Chars(reason));
  }

  lemma FiveWords(a: seq<nat>, b: seq<nat>, c: seq<nat>, d: seq<nat>, e: seq<nat>)
    ensures (a + (b + (c + d))) + e == a + (b + (c + (d + e)))
  {
  }

  lemma {:induction false} LineWords(v: seq<nat>, t: seq<nat>, cs: seq<nat>)
    requires v != [] && t != [] && Solid(v) && Solid(t)
    ensures var (version, rest) := NextWord(v + ([0x20] + (t + ([0x20] + cs))));
            version == v && NextWord(rest).0 == t
  {
    NextWordIs(v, [0x20] + (t + ([0x20] + cs)));
    NextWordIs(t, [0x20] + cs);
  }

  /**
   A line is accepted exactly with a version 1.0 or 1.1 word first and the three digits of
   a code from 100 to 599 second.
   */
  lemma {:induction false} AcceptedExactly(line: seq<Byte>, code: nat)
    ensures StatusOf(line) == Ok(code) <==>
              && Utf8(line) && 100 <= code <= 599
              && var (version, rest) := NextWord(Chars(line));
              && (version == HTTP_1 + [48] || version == HTTP_1 + [49])
              && NextWord(rest).0 == Digits(code)
  {
    if Utf8(line) && code <= 599 {
      var (version, rest) := NextWord(Chars(line));
      DigitsOf(NextWord(rest).0, code);
    }
  }

  /** A number below 1000 in three digits. */
  function Digits(code: nat): (ds: seq<nat>)
  {
    [48 + code / 100, 48 + code / 10 % 10, 48 + code % 10]
  }

  lemma {:induction false} DigitsOf(ds: seq<nat>, code: nat)
    requires code < 1000
    ensures ds == Digits(code) <==>
              |ds| == 3 && Digit(ds[0]) && Digit(ds[1]) && Digit(ds[2])
              && (ds[0] - 48) * 100 + (ds[1] - 48) * 10 + (ds[2] - 48) == code
  {
    DigitsValue(code);
    if |ds| == 3 && Digit(ds[0]) && Digit(ds[1]) && Digit(ds[2])
       && (ds[0] - 48) * 100 + (ds[1] - 48) * 10 + (ds[2] - 48) == code {
      SameDigits(ds[0] - 48, ds[1] - 48, ds[2] - 48, code / 100, code / 10 % 10, code % 10);
    }
  }

  lemma {:induction false} DigitsValue(code: nat)
    requires code < 1000
    ensures code / 100 < 10 && code / 10 % 10 < 10 && code % 10 < 10
    ensures code / 100 * 100 + code / 10 % 10 * 10 + code % 10 == code
  {
    assert code / 10 / 10 == code / 100;
  }

  lemma {:induction false} SameDigits(a: nat, b: nat, c: nat, x: nat, y: nat, z: nat)
    requires a < 10 && b < 10 && c < 10 && x < 10 && y < 10 && z < 10
    requires a * 100 + b * 10 + c == x * 100 + y * 10 + z
    ensures a == x && b == y && c == z
  {
  }

  /** A response the peer sends in one piece or in many: both loops accept it with its code. */
  lemma {:induction false} CompleteResponse(minor: Byte, status: seq<Byte>, reason: seq<Byte>, fields: seq<Byte>,
                                            more: seq<Byte>, e: Ending)
    requires minor == 48 || minor == 49
    requires |status| == 3 && Digit(status[0]) && Digit(status[1]) && Digit(status[2]) && Utf8(reason)
    requires 100 <= (status[0] as int - 48) * 100 + (status[1] as int - 48) * 10 + (status[2] as int - 48) <= 599
    requires var line := StatusLine(minor, status, reason);
             var headers := line + ([CR, LF] + fields);
             && LineEnd(headers, 0) == Some(|line|)
             && |headers| <= MAX_HEADER && FindEnd(headers + more, 0) == Some(|headers| - 4) && |headers| >= 4
    ensures var headers := StatusLine(minor, status, reason) + ([CR, LF] + fields);
            OneShot(headers + more, e)
            == Ok((status[0] as int - 48) * 100 + (status[1] as int - 48) * 10 + (status[2] as int - 48))
  {
    var line := StatusLine(minor, status, reason);
    var headers := line + ([CR, LF] + fields);
    StatusLineAccepted(minor, status, reason);
    Seam(headers, more);
    Seam(line, [CR, LF] + fields);
  }
}
