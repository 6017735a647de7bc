/**
 What the last hash of the ledger commits to. No assumption is made about the hash
 function: either the two ledgers agree frame by frame, or the frames themselves
 exhibit a collision, two different hash inputs with the same digest.
 */
module AuditCommitment {
  import opened AuditTypes
  import opened AuditFrames
  import opened AuditLog
  import opened AuditScan

  /** Frames f and g are different inputs of the hash with one digest. */
  predicate Collide(env: Env, f: Frame, g: Frame) {
    HashInput(f) != HashInput(g) && Digest(env, f) == Digest(env, g)
  }

  predicate Collision(env: Env, a: seq<Frame>, b: seq<Frame>) {
    exists i, j :: 0 <= i < |a| && 0 <= j < |b| && Collide(env, a[i], b[j])
  }

  function Last(fs: seq<Frame>, k: nat): (r: seq<Frame>)
    requires k <= |fs|
  {
    fs[|fs| - k..]
  }

  /**
   Backwards from an equal last hash: the last k frames agree, or a collision shows.
   This is the commitment of a pruned ledger too, whose first frame is not the root.
   */
  lemma {:induction false} SuffixCommitment(env: Env, opts: Options, a: seq<Frame>, b: seq<Frame>, k: nat)
    requires Linked(env, a) && AllStorable(env, opts, a)
    requires Linked(env, b) && AllStorable(env, opts, b)
    requires k <= |a| && k <= |b|
    requires k > 0 ==> Digest(env, a[|a| - 1]) == Digest(env, b[|b| - 1])
    ensures Last(a, k) == Last(b, k) || Collision(env, a, b)
  {
    if k > 0 && !Collision(env, a, b) {
      var m, n := |a| - 1, |b| - 1;
      assert !Collide(env, a[m], b[n]);
      assert Storable(env, opts, a[m]) && Storable(env, opts, b[n]);
      HashInputInjective(a[m], b[n]);
      if k > 1 {
        assert FollowsAt(env, a, m) && FollowsAt(env, b, n);
        NoCollisionBefore(env, a, b);
        LinkedPrefix(env, opts, a);
        LinkedPrefix(env, opts, b);
        SuffixCommitment(env, opts, a[..m], b[..n], k - 1);
        assert Last(a, k) == Last(a[..m], k - 1) + [a[m]];
        assert Last(b, k) == Last(b[..n], k - 1) + [b[n]];
      } else {
        assert Last(a, 1) == [a[m]] && Last(b, 1) == [b[n]];
      }
    }
  }

  lemma NoCollisionBefore(env: Env, a: seq<Frame>, b: seq<Frame>)
    requires a != [] && b != [] && !Collision(env, a, b)
    ensures !Collision(env, a[..|a| - 1], b[..|b| - 1])
  {
    var a', b' := a[..|a| - 1], b[..|b| - 1];
    forall i, j | 0 <= i < |a'| && 0 <= j < |b'| ensures !Collide(env, a'[i], b'[j]) {
      assert !Collide(env, a[i], b[j]);
    }
  }

  lemma LinkedPrefix(env: Env, opts: Options, fs: seq<Frame>)
    requires fs != [] && Linked(env, fs) && AllStorable(env, opts, fs)
    ensures Linked(env, fs[..|fs| - 1]) && AllStorable(env, opts, fs[..|fs| - 1])
  {
    var gs := fs[..|fs| - 1];
    forall i | 0 < i < |gs| ensures FollowsAt(env, gs, i) {
      assert FollowsAt(env, fs, i);
    }
  }

  /** From the root, frame i carries sequence i + 1. */
  lemma {:induction false} RootedSequence(env: Env, opts: Options, fs: seq<Frame>, i: nat)
    requires Chain(env, opts, 1, fs) && i < |fs|
    ensures fs[i].sequence == i + 1
  {
    if i > 0 {
      RootedSequence(env, opts, fs, i - 1);
      assert FollowsAt(env, fs, i);
    }
  }

  /**
   Two sets of files the scan accepts from segment 1, whatever their segment
   boundaries, with the same head sequence and the same last hash hold the same frames
   in the same order, or they exhibit a hash collision.
   */
  lemma ChainCommitment(env: Env, opts: Options, disk1: Disk, disk2: Disk)
    requires opts.maxPayload <= MAX_PAYLOAD_BYTES
    requires disk1 != [] && disk1[0].number == 1 && Scan(env, opts, false, disk1).Ok?
    requires disk2 != [] && disk2[0].number == 1 && Scan(env, opts, false, disk2).Ok?
    requires var a, b := Flat(Scan(env, opts, false, disk1).value.0), Flat(Scan(env, opts, false, disk2).value.0);
             LastSequence(a) == LastSequence(b) && LastHash(env, a) == LastHash(env, b)
    ensures var a, b := Flat(Scan(env, opts, false, disk1).value.0), Flat(Scan(env, opts, false, disk2).value.0);
            a == b || Collision(env, a, b)
  {
    var tail1 := ScanSound(env, opts, false, disk1);
    var tail2 := ScanSound(env, opts, false, disk2);
    var a := Flat(Scan(env, opts, false, disk1).value.0);
    var b := Flat(Scan(env, opts, false, disk2).value.0);
    SameFrames(env, opts, a, b);
  }

  lemma SameFrames(env: Env, opts: Options, a: seq<Frame>, b: seq<Frame>)
    requires Chain(env, opts, 1, a) && Chain(env, opts, 1, b)
    requires LastSequence(a) == LastSequence(b) && LastHash(env, a) == LastHash(env, b)
    ensures a == b || Collision(env, a, b)
  {
    if a != [] {
      RootedSequence(env, opts, a, |a| - 1);
    }
    if b != [] {
      RootedSequence(env, opts, b, |b| - 1);
    }
    assert |a| == |b|;
    SuffixCommitment(env, opts, a, b, |a|);
    assert Last(a, |a|) == a && Last(b, |b|) == b;
  }
}
