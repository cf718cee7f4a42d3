/** The hash-chained handshake ledger (internal/aiplane/ledger.go). The digest is a
    parameter: the theorems say what a break of the chain would cost it. */
module Ledger {

  datatype Handshake = Handshake(
    seqNo: int,
    submissionId: string,
    provider: string,
    evidenceHash: string,
    proposalHash: string,
    outcome: string,
    needsHuman: bool,
    accepted: int,
    citedFactIds: seq<string>,
    retrievalTiers: seq<string>,
    prevHash: string,
    hash: string)

  type Digest = Handshake -> string

  /** The entry hash binds every field except the hash itself. */
  function Seal(digest: Digest, h: Handshake): string {
    digest(h.(hash := ""))
  }

  datatype Chain = Chain(entries: seq<Handshake>, head: string)

  function Appended(digest: Digest, c: Chain, h: Handshake): Chain {
    var stamped := h.(seqNo := |c.entries|, prevHash := c.head);
    var sealed_ := stamped.(hash := Seal(digest, stamped));
    Chain(c.entries + [sealed_], sealed_.hash)
  }

  function AppendAll(digest: Digest, c: Chain, hs: seq<Handshake>): Chain
    decreases |hs|
  {
    if hs == [] then c else AppendAll(digest, Appended(digest, c, hs[0]), hs[1..])
  }

  /** The hash an entry at `i` must name as its predecessor. */
  function LinkBefore(entries: seq<Handshake>, i: nat): string
    requires i <= |entries|
  {
    if i == 0 then "" else entries[i - 1].hash
  }

  ghost predicate EntryVerifies(digest: Digest, entries: seq<Handshake>, i: nat)
    requires i < |entries|
  {
    && entries[i].seqNo == i
    && entries[i].prevHash == LinkBefore(entries, i)
    && entries[i].hash == Seal(digest, entries[i])
  }

  ghost predicate Verifies(digest: Digest, c: Chain) {
    && (forall i :: 0 <= i < |c.entries| ==> EntryVerifies(digest, c.entries, i))
    && c.head == LinkBefore(c.entries, |c.entries|)
  }

  ghost predicate VerifiesAgainst(digest: Digest, c: Chain, count: int, head: string) {
    Verifies(digest, c) && |c.entries| == count && c.head == head
  }

  datatype Fault =
    | BadSeq(at: nat) | BrokenLink(at: nat) | Tampered(at: nat) | HeadMismatch
    | CountMismatch | AnchorMismatch

  datatype Check = Sound | Faulty(fault: Fault)

  class Log {
    var entries: seq<Handshake>
    var lastHash: string
    const digest: Digest

    constructor (digest: Digest)
      ensures State() == Chain([], "") && this.digest == digest
    {
      entries, lastHash := [], "";
      this.digest := digest;
    }

    ghost function State(): Chain
      reads this
    {
      Chain(entries, lastHash)
    }

    /** Stamps the sequence number and the predecessor, whatever the caller had set. */
    method Append(h: Handshake) returns (stored: Handshake)
      modifies this
      ensures State() == Appended(digest, old(State()), h)
      ensures stored == entries[|entries| - 1]
    {
      stored := h.(seqNo := |entries|, prevHash := lastHash);
      stored := stored.(hash := Seal(digest, stored));
      entries := entries + [stored];
      lastHash := stored.hash;
    }

    method Verify() returns (r: Check)
      ensures r.Sound? <==> Verifies(digest, State())
      ensures r.Faulty? && r.fault.Tampered? ==>
                r.fault.at < |entries| && entries[r.fault.at].hash != Seal(digest, entries[r.fault.at])
    {
      var prev := "";
      for i := 0 to |entries|
        invariant prev == LinkBefore(entries, i)
        invariant forall j :: 0 <= j < i ==> EntryVerifies(digest, entries, j)
      {
        var h := entries[i];
        if h.seqNo != i {
          assert !EntryVerifies(digest, entries, i);
          return Faulty(BadSeq(i));
        }
        if h.prevHash != prev {
          assert !EntryVerifies(digest, entries, i);
          return Faulty(BrokenLink(i));
        }
        if h.hash != Seal(digest, h) {
          assert !EntryVerifies(digest, entries, i);
          return Faulty(Tampered(i));
        }
        prev := h.hash;
      }
      if prev != lastHash {
        return Faulty(HeadMismatch);
      }
      return Sound;
    }

    /** The check that binds the chain to an anchor kept elsewhere. */
    method VerifyAgainst(count: int, head: string) returns (r: Check)
      ensures r.Sound? <==> VerifiesAgainst(digest, State(), count, head)
    {
      r := Verify();
      if r.Sound? {
        if |entries| != count {
          return Faulty(CountMismatch);
        }
        if lastHash != head {
          return Faulty(AnchorMismatch);
        }
      }
    }
  }

  // ---- Honest chains verify ----

  lemma AppendKeepsVerified(digest: Digest, c: Chain, h: Handshake)
    requires Verifies(digest, c)
    ensures Verifies(digest, Appended(digest, c, h))
  {
    var d := Appended(digest, c, h);
    forall i | 0 <= i < |d.entries|
      ensures EntryVerifies(digest, d.entries, i)
    {
      assert i < |c.entries| ==> EntryVerifies(digest, c.entries, i) && d.entries[i] == c.entries[i];
    }
  }

  /** Every run of appends verifies, whatever the callers put into the stamped fields. */
  lemma {:induction false} HonestRunsVerify(digest: Digest, c: Chain, hs: seq<Handshake>)
    requires Verifies(digest, c)
    ensures Verifies(digest, AppendAll(digest, c, hs))
    ensures |AppendAll(digest, c, hs).entries| == |c.entries| + |hs|
    decreases |hs|
  {
    if hs != [] {
      AppendKeepsVerified(digest, c, hs[0]);
      HonestRunsVerify(digest, Appended(digest, c, hs[0]), hs[1..]);
    }
  }

  /** So does every prefix of a verified chain once its head is re-pointed: on its own the
      chain cannot show that its tail was cut off. */
  lemma TruncationVerifies(digest: Digest, c: Chain, n: nat)
    requires Verifies(digest, c) && n <= |c.entries|
    ensures Verifies(digest, Chain(c.entries[..n], LinkBefore(c.entries, n)))
  {
    forall i | 0 <= i < n
      ensures EntryVerifies(digest, c.entries[..n], i)
    {
      assert EntryVerifies(digest, c.entries, i);
    }
  }

  // ---- Tamper evidence ----

  /** A break of the digest found among the entries of two chains: two different records
      with one hash, or a record with the empty hash. */
  ghost predicate DigestBroken(digest: Digest, a: seq<Handshake>, b: seq<Handshake>) {
    || (exists x, y :: x in a && y in b && x.(hash := "") != y.(hash := "") && Seal(digest, x) == Seal(digest, y))
    || (exists x :: (x in a || x in b) && Seal(digest, x) == "")
  }

  lemma DigestBrokenGrows(digest: Digest, a: seq<Handshake>, b: seq<Handshake>, n: nat, m: nat)
    requires n <= |a| && m <= |b| && DigestBroken(digest, a[..n], b[..m])
    ensures DigestBroken(digest, a, b)
  {
    if x, y :| x in a[..n] && y in b[..m] && x.(hash := "") != y.(hash := "") && Seal(digest, x) == Seal(digest, y) {
      assert x in a && y in b;
    } else {
      var x :| (x in a[..n] || x in b[..m]) && Seal(digest, x) == "";
      assert x in a || x in b;
    }
  }

  /** Two verified chains with the same head are entry-for-entry identical, or the digest is
      broken by records that stand in them. Nothing is assumed of the digest. */
  lemma {:induction false} SameHeadSameChain(digest: Digest, a: Chain, b: Chain)
    requires Verifies(digest, a) && Verifies(digest, b) && a.head == b.head
    ensures a == b || DigestBroken(digest, a.entries, b.entries)
    decreases |a.entries|
  {
    var n, m := |a.entries|, |b.entries|;
    if n == 0 && m == 0 {
      assert a.entries == b.entries;
    } else if n == 0 {
      EmptyHeadBreaks(digest, b, a);
    } else if m == 0 {
      EmptyHeadBreaks(digest, a, b);
    } else {
      var x, y := a.entries[n - 1], b.entries[m - 1];
      assert EntryVerifies(digest, a.entries, n - 1) && EntryVerifies(digest, b.entries, m - 1);
      assert Seal(digest, x) == x.hash == y.hash == Seal(digest, y);
      if x.(hash := "") != y.(hash := "") {
        assert x in a.entries && y in b.entries;
      } else {
        assert x == y && n == m;
        var a', b' := Chain(a.entries[..n - 1], x.prevHash), Chain(b.entries[..m - 1], y.prevHash);
        TruncationVerifies(digest, a, n - 1);
        TruncationVerifies(digest, b, m - 1);
        SameHeadSameChain(digest, a', b');
        if a' == b' {
          assert a.entries == a.entries[..n - 1] + [x] && b.entries == b.entries[..m - 1] + [y];
        } else {
          DigestBrokenGrows(digest, a.entries, b.entries, n - 1, m - 1);
        }
      }
    }
  }

  lemma EmptyHeadBreaks(digest: Digest, a: Chain, b: Chain)
    requires Verifies(digest, a) && a.entries != [] && a.head == ""
    ensures DigestBroken(digest, a.entries, b.entries) && DigestBroken(digest, b.entries, a.entries)
  {
    var x := a.entries[|a.entries| - 1];
    assert EntryVerifies(digest, a.entries, |a.entries| - 1);
    assert x in a.entries && Seal(digest, x) == "";
  }

  ghost predicate GoodDigest(digest: Digest) {
    && (forall x, y :: digest(x) == digest(y) ==> x == y)
    && (forall x :: digest(x) != "")
  }

  /** With a sound digest the anchored check pins the whole chain: whatever a store writer
      substituted passes against the anchor of an honest run exactly when it is that run. */
  lemma AnchorPinsChain(digest: Digest, hs: seq<Handshake>, c: Chain)
    requires GoodDigest(digest)
    ensures var honest := AppendAll(digest, Chain([], ""), hs);
            VerifiesAgainst(digest, c, |honest.entries|, honest.head) <==> c == honest
  {
    var honest := AppendAll(digest, Chain([], ""), hs);
    HonestRunsVerify(digest, Chain([], ""), hs);
    if Verifies(digest, c) && c.head == honest.head {
      SameHeadSameChain(digest, c, honest);
    }
  }

  /** What the anchored head is worth by itself: a chain that has lost its tail still verifies,
      and passes against the original head, with whatever count, only if records that stand in
      it break the digest. */
  lemma AnchorCatchesTruncation(digest: Digest, c: Chain, n: nat, count: int)
    requires Verifies(digest, c) && n < |c.entries|
    ensures var cut := Chain(c.entries[..n], LinkBefore(c.entries, n));
            && Verifies(digest, cut)
            && (VerifiesAgainst(digest, cut, count, c.head) ==> DigestBroken(digest, cut.entries, c.entries))
  {
    TruncationVerifies(digest, c, n);
    var cut := Chain(c.entries[..n], LinkBefore(c.entries, n));
    if cut.head == c.head {
      SameHeadSameChain(digest, cut, c);
    }
  }

  /** Whatever the digest, a cut chain never passes an anchor that counts what was cut off, with
      whatever head. */
  lemma CountCatchesTruncation(digest: Digest, c: Chain, k: nat, lastHash: string, head: string)
    requires k < |c.entries|
    ensures !VerifiesAgainst(digest, Chain(c.entries[..k], lastHash), |c.entries|, head)
  {
  }

  // ---- Records are kept as they were handed in ----

  /** The same record but for its place in the chain. */
  predicate SameRecord(a: Handshake, b: Handshake) {
    a.(seqNo := b.seqNo, prevHash := b.prevHash, hash := b.hash) == b
  }

  /** However many records follow, the earlier entries stay as they were, and each new one is
      its caller's record in every field but its number, its link and its hash. */
  lemma {:induction false} AppendAllKeepsRecords(digest: Digest, c: Chain, hs: seq<Handshake>)
    ensures var d, n := AppendAll(digest, c, hs), |c.entries|;
            && |d.entries| == n + |hs| && d.entries[..n] == c.entries
            && forall i :: 0 <= i < |hs| ==> SameRecord(d.entries[n + i], hs[i])
    decreases |hs|
  {
    if hs != [] {
      var b, n := Appended(digest, c, hs[0]), |c.entries|;
      AppendAllKeepsRecords(digest, b, hs[1..]);
      var d := AppendAll(digest, b, hs[1..]);
      assert d.entries[..n] == d.entries[..n + 1][..n];
      forall i | 0 <= i < |hs|
        ensures SameRecord(d.entries[n + i], hs[i])
      {
        if i == 0 {
          assert d.entries[n] == d.entries[..n + 1][n];
        } else {
          assert SameRecord(d.entries[n + 1 + (i - 1)], hs[1..][i - 1]);
        }
      }
    }
  }
}
