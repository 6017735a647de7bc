/** The state reducer of the ledger writer. */
module AuditStates {
  import opened Bytes
  import opened AuditTypes

  datatype IoState = Ready | Encoding | Appending | Syncing | PublishedHead | Recovering | Degraded | FailedClosed

  datatype IoEvent = BeginEncoding | Encoded | Appended | Synced | IoFailed

  function Transition(s: IoState, e: IoEvent): (r: Result<IoState, Code>)
  {
    match (s, e)
    case (Ready, BeginEncoding) => Ok(Encoding)
    case (PublishedHead, BeginEncoding) => Ok(Encoding)
    case (Recovering, BeginEncoding) => Ok(Encoding)
    case (Encoding, Encoded) => Ok(Appending)
    case (Appending, Appended) => Ok(Syncing)
    case (Syncing, Synced) => Ok(PublishedHead)
    case (Encoding, IoFailed) => Ok(Degraded)
    case (Appending, IoFailed) => Ok(Degraded)
    case (Syncing, IoFailed) => Ok(Degraded)
    case (Recovering, IoFailed) => Ok(Degraded)
    case (_, _) => Err(RecordInvalid)
  }

  /** Feeding events one after the other, stopping at the first that is refused. */
  function RunIo(s: IoState, es: seq<IoEvent>): (r: Result<IoState, Code>)
  {
    if es == [] then Ok(s)
    else
      match RunIo(s, es[..|es| - 1])
      case Err(code) => Err(code)
      case Ok(mid) => Transition(mid, es[|es| - 1])
  }

  /** Nothing leaves the degraded or the closed state. */
  lemma {:induction false} DegradedIsFinal(s: IoState, es: seq<IoEvent>)
    requires s == Degraded || s == FailedClosed
    ensures RunIo(s, es).Ok? <==> es == []
  {
    if es != [] {
      DegradedIsFinal(s, es[..|es| - 1]);
    }
  }

  /** A head is published only by the full sequence encode, append, sync, in this order. */
  lemma {:induction false} PublishedMeansSynced(s: IoState, es: seq<IoEvent>)
    requires s == Ready || s == Recovering
    requires RunIo(s, es) == Ok(PublishedHead)
    ensures |es| >= 4 && es[|es| - 4..] == [BeginEncoding, Encoded, Appended, Synced]
    ensures RunIo(s, es[..|es| - 4]) in {Ok(Ready), Ok(PublishedHead), Ok(Recovering)}
  {
    var n := |es|;
    assert n > 0 && RunIo(s, es[..n - 1]) == Ok(Syncing);
    Unroll(s, es[..n - 1]);
    assert es[..n - 1][..n - 2] == es[..n - 2];
    Unroll(s, es[..n - 2]);
    assert es[..n - 2][..n - 3] == es[..n - 3];
    Unroll(s, es[..n - 3]);
    assert es[..n - 3][..n - 4] == es[..n - 4];
  }

  lemma {:induction false} Unroll(s: IoState, es: seq<IoEvent>)
    requires s == Ready || s == Recovering
    requires RunIo(s, es).Ok? && RunIo(s, es).value in {Syncing, Appending, Encoding}
    ensures es != [] && RunIo(s, es[..|es| - 1]).Ok?
    ensures Transition(RunIo(s, es[..|es| - 1]).value, es[|es| - 1]) == RunIo(s, es)
  {
  }
}
