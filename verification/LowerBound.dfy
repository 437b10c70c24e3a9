/** How low the byte counter can go. A warm batch that shrinks its scopes gives the bytes back when it
    reserves, before its scopes have shrunk; until its commits are done the counter may be too low by
    that much, and no lower. */
module LowerBound {
  import opened Types
  import opened ScopeSpec
  import opened Protocol
  import opened ProtocolSafety

  /** What a thread in the middle of a write has reserved for it. */
  function WriteDelta(pc: Pc): int {
    if pc.Reserved? then pc.delta else 0
  }

  /** What a warm batch has reserved for the scopes it has not committed yet: new bytes less old
      snapshots, and the overhead of scopes it is going to create. */
  function Outstanding(pc: Pc): int {
    if pc.Committing? && |pc.snaps| == |pc.plans| then Pending(pc.plans, pc.snaps, pc.done) else 0
  }

  function Creation(pc: Pc): int {
    if pc.Creating? then SCOPE_OVERHEAD else 0
  }

  lemma {:induction false} LedgerSplits(pcs: seq<Pc>)
    ensures Sum(pcs, Ledger) == Sum(pcs, WriteDelta) + Sum(pcs, Outstanding) + Sum(pcs, Creation)
  {
    if pcs != [] {
      LedgerSplits(pcs[1..]);
    }
  }

  lemma {:induction false} SumAtLeastZero<T>(xs: seq<T>, f: T -> int)
    requires forall i :: 0 <= i < |xs| ==> f(xs[i]) >= 0
    ensures Sum(xs, f) >= 0
  {
    if xs != [] {
      assert forall i :: 0 <= i < |xs[1..]| ==> xs[1..][i] == xs[i + 1];
      SumAtLeastZero(xs[1..], f);
    }
  }

  /** The buffer a reserved write is about to change, and by how much. */
  predicate WriteOk(bufs: seq<Buf>, pc: Pc) {
    pc.Reserved? ==>
      pc.b < |bufs| && bufs[pc.b].mapped && ScopeBytes(pc.after) == ScopeBytes(bufs[pc.b].scope) + pc.delta
  }

  predicate WritesApart(pcs: seq<Pc>) {
    forall t, u :: 0 <= t < u < |pcs| && pcs[t].Reserved? && pcs[u].Reserved? ==> pcs[t].b != pcs[u].b
  }

  lemma {:induction false} OverheadAtLeast(bufs: seq<Buf>)
    ensures Sum(bufs, Charge) >= SCOPE_OVERHEAD * Sum(bufs, One)
  {
    if bufs != [] {
      OverheadAtLeast(bufs[1..]);
    }
  }

  /** Reserved writes are covered by the scopes they belong to: carried out one after the other, they
      leave scopes that each cost at least their overhead. */
  lemma {:induction false} WritesAreCovered(bufs: seq<Buf>, pcs: seq<Pc>)
    requires WritesApart(pcs) && forall t :: 0 <= t < |pcs| ==> WriteOk(bufs, pcs[t])
    ensures Sum(bufs, Charge) + Sum(pcs, WriteDelta) >= SCOPE_OVERHEAD * Sum(bufs, One)
    decreases |pcs|
  {
    hide SizeSum;
    if pcs == [] {
      OverheadAtLeast(bufs);
    } else {
      var pc, rest := pcs[0], pcs[1..];
      assert forall i :: 0 <= i < |rest| ==> rest[i] == pcs[i + 1];
      if pc.Reserved? {
        var buf := bufs[pc.b].(scope := pc.after);
        SumUpdate(bufs, pc.b, buf, Charge);
        SumUpdate(bufs, pc.b, buf, One);
        WritesAreCovered(bufs[pc.b := buf], rest);
      } else {
        WritesAreCovered(bufs, rest);
      }
    }
  }

  lemma {:induction false} SafeWrites(s: State)
    requires Safe(s)
    ensures WritesApart(s.pcs) && forall t :: 0 <= t < |s.pcs| ==> WriteOk(s.bufs, s.pcs[t])
  {
    hide WellFormed, NamesUnique, ShardLocksExclusive, DetachedOnlyInBulk, RoomToRecreate, SizeSum, ScopeBytes;
    forall t, u | 0 <= t < u < |s.pcs| && s.pcs[t].Reserved? && s.pcs[u].Reserved? ensures s.pcs[t].b != s.pcs[u].b {
      assert LocksBuf(s.pcs[t], s.pcs[t].b);
      assert !LocksBuf(s.pcs[u], s.pcs[t].b);
    }
    forall t | 0 <= t < |s.pcs| ensures WriteOk(s.bufs, s.pcs[t]) {
      assert PointerOk(s.bufs, s.pcs[t]);
    }
  }

  /** The counter is at least the overhead of the mapped scopes plus what the warm batches in flight
      still owe. */
  lemma {:induction false} BoundedBelow(s: State)
    requires Safe(s) && Balanced(s)
    ensures s.total >= SCOPE_OVERHEAD * Sum(s.bufs, One) + Sum(s.pcs, Outstanding)
  {
    hide Sum, Charge, Ledger, WriteDelta, Outstanding, Creation, Safe, WriteOk, WritesApart;
    SafeWrites(s);
    WritesAreCovered(s.bufs, s.pcs);
    LedgerSplits(s.pcs);
    CreationsCost(s.pcs);
  }

  lemma CreationsCost(pcs: seq<Pc>)
    ensures Sum(pcs, Creation) >= 0
  {
    SumAtLeastZero(pcs, Creation);
  }

  lemma MappedCount(bufs: seq<Buf>)
    ensures Sum(bufs, One) >= 0
  {
    SumAtLeastZero(bufs, One);
  }

  /** In every state of every run: the counter falls below zero only while some warm batch is reserved,
      not fully committed, and owes more bytes than it will add; and never lower than what all such
      batches owe together, less the overhead of the mapped scopes. */
  lemma {:induction false} NeverBelowOutstanding(states: seq<State>, steps: seq<Step>, i: nat)
    requires IsRun(states, steps) && i < |states|
    ensures states[i].total >= SCOPE_OVERHEAD * Sum(states[i].bufs, One) + Sum(states[i].pcs, Outstanding)
    ensures states[i].total < 0 ==>
      exists t :: 0 <= t < |states[i].pcs| && states[i].pcs[t].Committing? && Outstanding(states[i].pcs[t]) < 0
    ensures (forall t :: 0 <= t < |states[i].pcs| ==> Outstanding(states[i].pcs[t]) >= 0) ==> states[i].total >= 0
  {
    hide Safe, Balanced, IsRun, Pending;
    RunIsSafe(states, steps, i);
    BoundedBelow(states[i]);
    MappedCount(states[i].bufs);
    var pcs := states[i].pcs;
    if forall t :: 0 <= t < |pcs| ==> Outstanding(pcs[t]) >= 0 {
      SumAtLeastZero(pcs, Outstanding);
    }
  }
}
