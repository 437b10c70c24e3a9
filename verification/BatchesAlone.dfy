/** A warm request, a wipe or a rebuild that nobody races with: its steps, snapshots and commits included,
    bring the store exactly where the specification of the whole request says. */
module BatchesAlone {
  import opened Types
  import opened ScopeSpec
  import opened Protocol
  import opened ProtocolAlone
  import StoreSpec
  import StoreLaws
  import BulkSpec

  /** The store after the first `k` scopes of the batch, one exchanged after the other. */
  function Laid(m: StoreSpec.Mem, batch: seq<Batched>, k: nat): StoreSpec.Mem
    requires k <= |batch|
  {
    if k == 0 then m else StoreSpec.Exchanged(Laid(m, batch, k - 1), batch[k - 1].name, batch[k - 1].built)
  }

  function PlansOf(batch: seq<Batched>, k: nat): map<string, Scope>
    requires k <= |batch|
  {
    if k == 0 then map[] else PlansOf(batch, k - 1)[batch[k - 1].name := batch[k - 1].built]
  }

  lemma {:induction false} LaidScopes(m: StoreSpec.Mem, batch: seq<Batched>, k: nat)
    requires k <= |batch|
    ensures Laid(m, batch, k).scopes == m.scopes + PlansOf(batch, k)
    ensures forall n :: n in PlansOf(batch, k) <==> exists i :: 0 <= i < k && batch[i].name == n
    ensures Laid(m, batch, k) == m.(scopes := Laid(m, batch, k).scopes, total := Laid(m, batch, k).total,
      items := Laid(m, batch, k).items, count := Laid(m, batch, k).count)
  {
    hide SizeSum;
    if k == 0 {
      assert m.scopes + map[] == m.scopes;
    } else {
      LaidScopes(m, batch, k - 1);
      var n, b := batch[k - 1].name, batch[k - 1].built;
      assert m.scopes + PlansOf(batch, k - 1)[n := b] == (m.scopes + PlansOf(batch, k - 1))[n := b];
    }
  }

  /** What the batch leaves is what the specification lays over the store. */
  lemma {:induction false} LaidIsWithScopes(m: StoreSpec.Mem, batch: seq<Batched>, k: nat)
    requires k <= |batch| && StoreSpec.StoreOk(m)
    ensures Laid(m, batch, k) == BulkSpec.WithScopes(m, m.scopes + PlansOf(batch, k))
  {
    LaidScopes(m, batch, k);
    LaidTotals(m, batch, k);
    hide StoreSpec.TotalBytes, StoreSpec.TotalItems, StoreSpec.StoreOk;
  }

  lemma {:induction false} LaidTotals(m: StoreSpec.Mem, batch: seq<Batched>, k: nat)
    requires k <= |batch| && StoreSpec.StoreOk(m)
    ensures var e := Laid(m, batch, k);
      e.total == StoreSpec.TotalBytes(e.scopes) && e.items == StoreSpec.TotalItems(e.scopes) && e.count == |e.scopes|
  {
    hide StoreSpec.TotalBytes, StoreSpec.TotalItems, StoreSpec.Exchanged;
    if k > 0 {
      LaidTotals(m, batch, k - 1);
      ExchangedTotals(Laid(m, batch, k - 1), batch[k - 1].name, batch[k - 1].built);
    }
  }

  lemma {:induction false} ExchangedTotals(m: StoreSpec.Mem, n: string, after: Scope)
    requires m.total == StoreSpec.TotalBytes(m.scopes) && m.items == StoreSpec.TotalItems(m.scopes)
    requires m.count == |m.scopes|
    ensures var e := StoreSpec.Exchanged(m, n, after);
      e.total == StoreSpec.TotalBytes(e.scopes) && e.items == StoreSpec.TotalItems(e.scopes) && e.count == |e.scopes|
  {
    hide StoreSpec.TotalBytes, StoreSpec.TotalItems, SizeSum;
    StoreSpec.TotalsSet(m.scopes, n, after);
    StoreLaws.NothingCostsNothing();
    assert m.scopes[n := after].Keys == m.scopes.Keys + {n};
  }

  // ---------- Snapshots ----------

  function SnapFor(m: StoreSpec.Mem, n: string): Snap {
    if n in m.scopes then Snap(ScopeBytes(m.scopes[n]), false) else Snap(0, true)
  }

  function SnapsOf(m: StoreSpec.Mem, batch: seq<Batched>, k: nat): seq<Snap>
    requires k <= |batch|
  {
    seq(k, i requires 0 <= i < k => SnapFor(m, batch[i].name))
  }

  lemma {:induction false} SnapAll(s: State, m: StoreSpec.Mem, t: nat, batch: seq<Batched>, k: nat)
    returns (steps: seq<Step>)
    requires Shows(s, m) && AllIdle(s) && t < |s.pcs| && k <= |batch|
    ensures Reaches(At(s, t, Snapping(batch, [])), steps, At(s, t, Snapping(batch, SnapsOf(m, batch, k))))
  {
    hide Shows, Reaches, SnapFor;
    if k == 0 {
      steps := [];
      assert SnapsOf(m, batch, 0) == [];
      Nowhere(At(s, t, Snapping(batch, [])));
    } else {
      steps := SnapAll(s, m, t, batch, k - 1);
      var more := SnapOne(s, m, t, batch, k - 1);
      ReachOn(At(s, t, Snapping(batch, [])), steps, At(s, t, Snapping(batch, SnapsOf(m, batch, k - 1))), more,
        At(s, t, Snapping(batch, SnapsOf(m, batch, k))));
      steps := steps + more;
    }
  }

  lemma Nowhere(s: State)
    ensures Reaches(s, [], s)
  {
  }

  lemma {:induction false} SnapOne(s: State, m: StoreSpec.Mem, t: nat, batch: seq<Batched>, k: nat)
    returns (steps: seq<Step>)
    requires Shows(s, m) && AllIdle(s) && t < |s.pcs| && k < |batch|
    ensures Reaches(At(s, t, Snapping(batch, SnapsOf(m, batch, k))), steps,
      At(s, t, Snapping(batch, SnapsOf(m, batch, k + 1))))
  {
    hide SizeSum;
    var s1, n := At(s, t, Snapping(batch, SnapsOf(m, batch, k))), batch[k].name;
    var at := FindMapped(s, m, n);
    steps := [WarmSnap(t, at)];
    OneStep(s1, WarmSnap(t, at));
    assert SnapsOf(m, batch, k) + [SnapFor(m, n)] == SnapsOf(m, batch, k + 1);
    var pc := Snapping(batch, SnapsOf(m, batch, k + 1));
    assert s1.pcs[t := pc] == s.pcs[t := pc];
  }

  lemma FindMapped(s: State, m: StoreSpec.Mem, n: string) returns (at: Option<nat>)
    requires Shows(s, m)
    ensures MappedAt(s.bufs, n, at) && (at.Some? <==> n in m.scopes)
    ensures at.Some? ==> s.bufs[at.value].scope == m.scopes[n] && !s.bufs[at.value].detached
  {
    if n in m.scopes {
      var b := Mapped(s, m, n);
      at := Some(b);
    } else {
      at := None;
    }
  }

  // ---------- The reservation ----------

  lemma {:induction false} UntouchedYet(m: StoreSpec.Mem, batch: seq<Batched>, k: nat)
    requires k < |batch| && DistinctNames(batch)
    ensures var n, e := batch[k].name, Laid(m, batch, k);
      (n in e.scopes <==> n in m.scopes) && (n in m.scopes ==> e.scopes[n] == m.scopes[n])
  {
    LaidScopes(m, batch, k);
  }

  /** What is still to be reserved is what the rest of the batch will change the store by. */
  lemma {:induction false} PendingIs(m: StoreSpec.Mem, batch: seq<Batched>, k: nat)
    requires k <= |batch| && DistinctNames(batch)
    ensures Pending(batch, SnapsOf(m, batch, |batch|), k) == Laid(m, batch, |batch|).total - Laid(m, batch, k).total
    decreases |batch| - k
  {
    if k < |batch| {
      PendingIs(m, batch, k + 1);
      UntouchedYet(m, batch, k);
      StoreLaws.NothingCostsNothing();
      hide SizeSum;
      assert Laid(m, batch, k + 1) == StoreSpec.Exchanged(Laid(m, batch, k), batch[k].name, batch[k].built);
    }
  }

  // ---------- The commits ----------

  /** The scopes of the first `k` are exchanged; the bytes of all are reserved, the new scopes uncounted. */
  ghost predicate Midway(s: State, m: StoreSpec.Mem, t: nat, batch: seq<Batched>, k: nat)
    requires k <= |batch|
  {
    var laid := Laid(m, batch, k);
    && t < |s.pcs| && (forall u :: 0 <= u < |s.pcs| && u != t ==> s.pcs[u] == Idle)
    && laid.count >= m.count
    && s.pcs[t] == Committing(batch, SnapsOf(m, batch, |batch|), k, laid.count - m.count)
    && Shows(s.(total := laid.total, scopes := laid.count), laid)
    && s.total == Laid(m, batch, |batch|).total && s.scopes == m.count
  }

  /** The scope was stored and is overwritten. */
  lemma {:induction false} CommitStored(s: State, m: StoreSpec.Mem, t: nat, batch: seq<Batched>, k: nat, b: nat)
    returns (s': State)
    requires k < |batch| && DistinctNames(batch) && Midway(s, m, t, batch, k)
    requires batch[k].name in m.scopes && b < |s.bufs| && s.bufs[b].mapped && s.bufs[b].name == batch[k].name
    ensures Enabled(s, WarmCommit(t, Some(b))) && s' == Apply(s, WarmCommit(t, Some(b)))
    ensures Midway(s', m, t, batch, k + 1)
  {
    hide SizeSum, StoreSpec.Exchanged;
    var laid, n, built := Laid(m, batch, k), batch[k].name, batch[k].built;
    UntouchedYet(m, batch, k);
    s' := Apply(s, WarmCommit(t, Some(b)));
    var shown := s.(total := laid.total, scopes := laid.count);
    var p := Ready(SizeSum(built.items) - SizeSum(s.bufs[b].scope.items), built, 0, false);
    Committed(shown, laid, t, b, p);
    ExchangedCount(laid, n, built);
    SameShown(Done(shown, t, b, p), s'.(total := Laid(m, batch, k + 1).total, scopes := Laid(m, batch, k + 1).count),
      Laid(m, batch, k + 1));
  }

  lemma ExchangedCount(m: StoreSpec.Mem, n: string, after: Scope)
    ensures var e := StoreSpec.Exchanged(m, n, after);
      && e.count == m.count + (if n in m.scopes then 0 else 1)
      && e.total == m.total + SizeSum(after.items) - (if n in m.scopes then SizeSum(m.scopes[n].items) else 0)
                    + (if n in m.scopes then 0 else SCOPE_OVERHEAD)
      && e.items == m.items + |after.items| - (if n in m.scopes then |m.scopes[n].items| else 0)
      && e.scopes == m.scopes[n := after] && e.cfg == m.cfg && e.codec == m.codec
  {
    StoreLaws.NothingCostsNothing();
    hide SizeSum;
  }

  /** Showing a store is about buffers and counters only. */
  lemma SameShown(a: State, b: State, m: StoreSpec.Mem)
    requires Shows(a, m) && b == a.(pcs := b.pcs)
    ensures Shows(b, m)
  {
  }

  lemma {:induction false} AddedShows(s: State, m: StoreSpec.Mem, n: string, built: Scope, s': State)
    requires Shows(s, m) && n !in m.scopes
    requires var e := StoreSpec.Exchanged(m, n, built);
      s' == s.(pcs := s'.pcs, bufs := s.bufs + [Buf(n, built, true, false)], total := e.total, items := e.items,
               scopes := e.count)
    ensures Shows(s', StoreSpec.Exchanged(m, n, built))
  {
    hide SizeSum;
    forall k | k in m.scopes ensures IsMapped(s'.bufs, k) {
      var c := Mapped(s, m, k);
      assert s'.bufs[c].mapped && s'.bufs[c].name == k;
    }
    assert s'.bufs[|s.bufs|].mapped && s'.bufs[|s.bufs|].name == n;
  }

  /** The scope was missing and is created with its content. */
  lemma {:induction false} CommitMissing(s: State, m: StoreSpec.Mem, t: nat, batch: seq<Batched>, k: nat)
    returns (s': State)
    requires k < |batch| && DistinctNames(batch) && Midway(s, m, t, batch, k)
    requires batch[k].name !in m.scopes && !IsMapped(s.bufs, batch[k].name)
    ensures Enabled(s, WarmCommit(t, None)) && s' == Apply(s, WarmCommit(t, None))
    ensures Midway(s', m, t, batch, k + 1)
  {
    hide SizeSum, StoreSpec.Exchanged;
    var laid, n, built := Laid(m, batch, k), batch[k].name, batch[k].built;
    UntouchedYet(m, batch, k);
    s' := Apply(s, WarmCommit(t, None));
    ExchangedCount(laid, n, built);
    var next := Laid(m, batch, k + 1);
    AddedShows(s.(total := laid.total, scopes := laid.count), laid, n, built,
      s'.(total := next.total, scopes := next.count));
  }

  lemma {:induction false} CommitAll(s: State, m: StoreSpec.Mem, t: nat, batch: seq<Batched>, k: nat)
    returns (steps: seq<Step>, s': State)
    requires k <= |batch| && DistinctNames(batch) && Midway(s, m, t, batch, k)
    ensures Reaches(s, steps, s') && Midway(s', m, t, batch, |batch|)
    decreases |batch| - k
  {
    hide Enabled, Apply, Laid;
    if k == |batch| {
      steps, s' := [], s;
    } else {
      var laid := Laid(m, batch, k);
      UntouchedYet(m, batch, k);
      var at := FindMapped(s.(total := laid.total, scopes := laid.count), laid, batch[k].name);
      hide Midway, Reaches;
      var s1;
      if at.Some? {
        s1 := CommitStored(s, m, t, batch, k, at.value);
      } else {
        s1 := CommitMissing(s, m, t, batch, k);
      }
      OneStep(s, WarmCommit(t, at));
      var more;
      more, s' := CommitAll(s1, m, t, batch, k + 1);
      steps := [WarmCommit(t, at)] + more;
      ReachOn(s, [WarmCommit(t, at)], s1, more, s');
    }
  }

  // ---------- Warm ----------

  /** A warm request alone: the whole batch is laid over the store if the bytes allow, or nothing happens. */
  lemma {:induction false} WarmAlone(s: State, m: StoreSpec.Mem, t: nat, batch: seq<Batched>)
    returns (steps: seq<Step>, s': State)
    requires Shows(s, m) && AllIdle(s) && t < |s.pcs| && GoodBatch(batch) && StoreSpec.StoreOk(m)
    ensures Reaches(s, steps, s') && AllIdle(s')
    ensures var e := BulkSpec.WithScopes(m, m.scopes + PlansOf(batch, |batch|));
      Shows(s', if CanReserve(m.total, m.cfg.maxStoreBytes, e.total - m.total) then e else m)
  {
    hide StoreSpec.StoreOk, GoodBatch, BulkSpec.WithScopes, Shows, Reaches, Enabled, Apply, Laid;
    LaidIsWithScopes(m, batch, |batch|);
    var s1 := LockAndSnap(s, m, t, batch);
    steps := s1.0;
    if CanReserve(m.total, m.cfg.maxStoreBytes, Laid(m, batch, |batch|).total - m.total) {
      var more;
      more, s' := ReserveAndCommit(s, m, t, batch, s1.1);
      ReachOn(s, steps, s1.1, more, s');
      steps := steps + more;
    } else {
      s' := GiveUp(s, m, t, batch, s1.1);
      ReachOn(s, steps, s1.1, [WarmFail(t)], s');
      steps := steps + [WarmFail(t)];
    }
  }

  lemma {:induction false} LockAndSnap(s: State, m: StoreSpec.Mem, t: nat, batch: seq<Batched>)
    returns (r: (seq<Step>, State))
    requires Shows(s, m) && AllIdle(s) && t < |s.pcs| && GoodBatch(batch)
    ensures r.1 == At(s, t, Snapping(batch, SnapsOf(m, batch, |batch|))) && Reaches(s, r.0, r.1)
  {
    hide Shows, GoodBatch;
    OneStep(s, WarmLock(t, batch));
    var snaps := SnapAll(s, m, t, batch, |batch|);
    hide Reaches;
    var s1 := At(s, t, Snapping(batch, SnapsOf(m, batch, |batch|)));
    ReachOn(s, [WarmLock(t, batch)], At(s, t, Snapping(batch, [])), snaps, s1);
    r := ([WarmLock(t, batch)] + snaps, s1);
  }

  lemma DistinctInGood(batch: seq<Batched>)
    requires GoodBatch(batch)
    ensures DistinctNames(batch)
  {
  }

  lemma {:induction false} ReserveAndCommit(s: State, m: StoreSpec.Mem, t: nat, batch: seq<Batched>, s1: State)
    returns (steps: seq<Step>, s': State)
    requires Shows(s, m) && AllIdle(s) && t < |s.pcs| && GoodBatch(batch)
    requires s1 == At(s, t, Snapping(batch, SnapsOf(m, batch, |batch|)))
    requires CanReserve(m.total, m.cfg.maxStoreBytes, Laid(m, batch, |batch|).total - m.total)
    ensures Reaches(s1, steps, s') && AllIdle(s') && Shows(s', Laid(m, batch, |batch|))
  {
    hide *;
    DistinctInGood(batch);
    var s2 := StartCommits(s, m, t, batch, s1);
    var commits, s3 := CommitAll(s2, m, t, batch, 0);
    ReachOn(s1, [WarmReserve(t)], s2, commits, s3);
    s' := FinishCommits(s3, m, t, batch);
    ReachOn(s1, [WarmReserve(t)] + commits, s3, [WarmDone(t)], s');
    steps := ([WarmReserve(t)] + commits) + [WarmDone(t)];
  }

  lemma {:induction false} StartCommits(s: State, m: StoreSpec.Mem, t: nat, batch: seq<Batched>, s1: State)
    returns (s2: State)
    requires Shows(s, m) && AllIdle(s) && t < |s.pcs| && DistinctNames(batch)
    requires s1 == At(s, t, Snapping(batch, SnapsOf(m, batch, |batch|)))
    requires CanReserve(m.total, m.cfg.maxStoreBytes, Laid(m, batch, |batch|).total - m.total)
    ensures Reaches(s1, [WarmReserve(t)], s2) && Midway(s2, m, t, batch, 0)
  {
    hide *;
    PendingIs(m, batch, 0);
    AllSnapped(s, m, batch);
    s2 := At(s, t, Committing(batch, SnapsOf(m, batch, |batch|), 0, 0)).(total := Laid(m, batch, |batch|).total);
    ReserveStep(s, t, batch, SnapsOf(m, batch, |batch|), s2);
    NothingCommitted(s, m, t, batch, s2);
  }

  lemma AllSnapped(s: State, m: StoreSpec.Mem, batch: seq<Batched>)
    requires Shows(s, m)
    ensures |SnapsOf(m, batch, |batch|)| == |batch| && s.total == m.total && s.cfg == m.cfg && Laid(m, batch, 0) == m
  {
  }

  lemma ReserveStep(s: State, t: nat, batch: seq<Batched>, snaps: seq<Snap>, s2: State)
    requires t < |s.pcs| && |snaps| == |batch|
    requires CanReserve(s.total, s.cfg.maxStoreBytes, Pending(batch, snaps, 0))
    requires s2 == At(s, t, Committing(batch, snaps, 0, 0)).(total := s.total + Pending(batch, snaps, 0))
    ensures Reaches(At(s, t, Snapping(batch, snaps)), [WarmReserve(t)], s2)
  {
    hide Pending, CanReserve;
    var s1 := At(s, t, Snapping(batch, snaps));
    assert s1.pcs[t := s2.pcs[t]] == s2.pcs;
    OneStep(s1, WarmReserve(t));
  }

  lemma NothingCommitted(s: State, m: StoreSpec.Mem, t: nat, batch: seq<Batched>, s2: State)
    requires Shows(s, m) && AllIdle(s) && t < |s.pcs|
    requires s2 == At(s, t, Committing(batch, SnapsOf(m, batch, |batch|), 0, 0)).(
      total := Laid(m, batch, |batch|).total)
    ensures Midway(s2, m, t, batch, 0)
  {
    hide StoreSpec.Exchanged, SnapsOf;
    SameShown(s, s2.(total := m.total, scopes := m.count), m);
  }

  lemma {:induction false} FinishCommits(s: State, m: StoreSpec.Mem, t: nat, batch: seq<Batched>) returns (s': State)
    requires Midway(s, m, t, batch, |batch|)
    ensures Reaches(s, [WarmDone(t)], s') && AllIdle(s') && Shows(s', Laid(m, batch, |batch|))
  {
    hide Shows, Laid;
    s' := Apply(s, WarmDone(t));
    OneStep(s, WarmDone(t));
    var laid := Laid(m, batch, |batch|);
    SameShown(s.(total := laid.total, scopes := laid.count), s', laid);
  }

  lemma {:induction false} GiveUp(s: State, m: StoreSpec.Mem, t: nat, batch: seq<Batched>, s1: State)
    returns (s': State)
    requires Shows(s, m) && AllIdle(s) && t < |s.pcs| && GoodBatch(batch)
    requires s1 == At(s, t, Snapping(batch, SnapsOf(m, batch, |batch|)))
    requires !CanReserve(m.total, m.cfg.maxStoreBytes, Laid(m, batch, |batch|).total - m.total)
    ensures Reaches(s1, [WarmFail(t)], s') && AllIdle(s') && Shows(s', m)
  {
    hide SizeSum;
    DistinctInGood(batch);
    PendingIs(m, batch, 0);
    s' := Apply(s1, WarmFail(t));
    OneStep(s1, WarmFail(t));
    AtIdle(s, t, Snapping(batch, SnapsOf(m, batch, |batch|)));
  }

  // ---------- Wipe and rebuild ----------

  /** The mapped buffers below `k` are detached. */
  function DetachedBelow(bufs: seq<Buf>, k: nat): seq<Buf> {
    seq(|bufs|, i requires 0 <= i < |bufs| => if i < k && bufs[i].mapped then bufs[i].(detached := true) else bufs[i])
  }

  lemma {:induction false} DetachAll(s: State, t: nat, batch: seq<Batched>, k: nat) returns (steps: seq<Step>)
    requires AllIdle(s) && t < |s.pcs| && k <= |s.bufs|
    ensures var s1 := At(s, t, Detaching(batch)); Reaches(s1, steps, s1.(bufs := DetachedBelow(s.bufs, k)))
  {
    hide Enabled, Apply;
    var s1 := At(s, t, Detaching(batch));
    if k == 0 {
      steps := [];
      assert DetachedBelow(s.bufs, 0) == s.bufs;
    } else {
      steps := DetachAll(s, t, batch, k - 1);
      hide Reaches, AllIdle;
      var s2, s3 := s1.(bufs := DetachedBelow(s.bufs, k - 1)), s1.(bufs := DetachedBelow(s.bufs, k));
      if s.bufs[k - 1].mapped {
        DetachOne(s, t, batch, k - 1);
        ReachOn(s1, steps, s2, [BulkDetach(t, k - 1)], s3);
        steps := steps + [BulkDetach(t, k - 1)];
      } else {
        assert s3.bufs == s2.bufs;
      }
    }
  }

  lemma DetachOne(s: State, t: nat, batch: seq<Batched>, k: nat)
    requires AllIdle(s) && t < |s.pcs| && k < |s.bufs| && s.bufs[k].mapped
    ensures var s1 := At(s, t, Detaching(batch));
      Reaches(s1.(bufs := DetachedBelow(s.bufs, k)), [BulkDetach(t, k)], s1.(bufs := DetachedBelow(s.bufs, k + 1)))
  {
    var s2 := At(s, t, Detaching(batch)).(bufs := DetachedBelow(s.bufs, k));
    OneStep(s2, BulkDetach(t, k));
    assert Apply(s2, BulkDetach(t, k)).bufs == DetachedBelow(s.bufs, k + 1);
    hide Reaches;
  }

  lemma {:induction false} PlanNames(batch: seq<Batched>, k: nat)
    requires k <= |batch| && DistinctNames(batch)
    ensures forall n :: n in PlansOf(batch, k) <==> exists i :: 0 <= i < k && batch[i].name == n
    ensures forall i :: 0 <= i < k ==>
      batch[i].name in PlansOf(batch, k) && PlansOf(batch, k)[batch[i].name] == batch[i].built
  {
    if k > 0 { PlanNames(batch, k - 1); }
  }

  lemma {:induction false} PlanTotals(batch: seq<Batched>, k: nat)
    requires k <= |batch| && DistinctNames(batch)
    ensures var plans := PlansOf(batch, k);
      && StoreSpec.TotalBytes(plans) == Sum(batch[..k], PlanCharge)
      && StoreSpec.TotalItems(plans) == Sum(batch[..k], PlanItems) && |plans| == k
  {
    hide StoreSpec.TotalBytes, StoreSpec.TotalItems, SizeSum, Sum;
    if k == 0 {
      EmptySums();
    } else {
      PlanTotals(batch, k - 1);
      var plans, p := PlansOf(batch, k - 1), batch[k - 1];
      NewName(batch, k - 1);
      hide PlansOf, DistinctNames;
      StoreSpec.TotalsSet(plans, p.name, p.built);
      assert plans[p.name := p.built].Keys == plans.Keys + {p.name};
      assert batch[..k] == batch[..k - 1] + [p];
      SumPush(batch[..k - 1], p, PlanCharge);
      SumPush(batch[..k - 1], p, PlanItems);
    }
  }

  lemma NewName(batch: seq<Batched>, k: nat)
    requires k < |batch| && DistinctNames(batch)
    ensures batch[k].name !in PlansOf(batch, k)
    ensures PlansOf(batch, k + 1) == PlansOf(batch, k)[batch[k].name := batch[k].built]
  {
    PlanNames(batch, k);
  }

  lemma EmptySums()
    ensures StoreSpec.TotalBytes(map[]) == 0 && StoreSpec.TotalItems(map[]) == 0
    ensures Sum([], PlanCharge) == 0 && Sum([], PlanItems) == 0
  {
  }

  /** The buffers after the exchange: the old ones out of reach, those of the batch, the reserved ones. */
  function Swapped(s: State, batch: seq<Batched>): seq<Buf> {
    Unmapped(DetachedBelow(s.bufs, |s.bufs|)) + NewBufs(batch)
      + [Buf(EVENTS, EMPTY_SCOPE, true, false)] + [Buf(INBOX, EMPTY_SCOPE, true, false)]
  }

  lemma {:induction false} SwapAndCreate(s: State, t: nat, batch: seq<Batched>)
    returns (steps: seq<Step>, s': State)
    requires AllIdle(s) && t < |s.pcs|
    ensures Reaches(At(s, t, Detaching(batch)).(bufs := DetachedBelow(s.bufs, |s.bufs|)), steps, s')
    ensures s' == s.(bufs := Swapped(s, batch), total := Sum(batch, PlanCharge) + RESERVED_OVERHEAD,
                     items := Sum(batch, PlanItems), scopes := |batch| + |RESERVED|)
  {
    hide Sum;
    var s1 := At(s, t, Detaching(batch)).(bufs := DetachedBelow(s.bufs, |s.bufs|));
    var s2 := Apply(s1, BulkSwap(t));
    var s3 := Apply(s2, BulkCreate(t));
    var s4 := Apply(s3, BulkCreate(t));
    s' := Apply(s4, BulkDone(t));
    assert s'.pcs == s.pcs;
    OneStep(s1, BulkSwap(t));
    OneStep(s2, BulkCreate(t));
    OneStep(s3, BulkCreate(t));
    OneStep(s4, BulkDone(t));
    hide Reaches, Enabled, Apply;
    ReachOn(s1, [BulkSwap(t)], s2, [BulkCreate(t)], s3);
    ReachOn(s1, [BulkSwap(t)] + [BulkCreate(t)], s3, [BulkCreate(t)], s4);
    ReachOn(s1, [BulkSwap(t)] + [BulkCreate(t)] + [BulkCreate(t)], s4, [BulkDone(t)], s');
    steps := [BulkSwap(t)] + [BulkCreate(t)] + [BulkCreate(t)] + [BulkDone(t)];
  }

  /** The scopes a rebuild leaves. */
  function Content(batch: seq<Batched>): map<string, Scope> {
    PlansOf(batch, |batch|) + BulkSpec.RESERVED_SCOPES
  }

  lemma {:induction false} ContentIs(batch: seq<Batched>)
    requires GoodBatch(batch)
    ensures EVENTS !in PlansOf(batch, |batch|) && INBOX !in PlansOf(batch, |batch|)
    ensures forall i :: 0 <= i < |batch| ==>
      batch[i].name in Content(batch) && Content(batch)[batch[i].name] == batch[i].built
    ensures forall n :: n in Content(batch) ==>
      n == EVENTS || n == INBOX || exists i :: 0 <= i < |batch| && batch[i].name == n
    ensures Content(batch)[EVENTS] == EMPTY_SCOPE && Content(batch)[INBOX] == EMPTY_SCOPE
  {
    DistinctInGood(batch);
    PlanNames(batch, |batch|);
    assert IsReserved(EVENTS) && IsReserved(INBOX);
    hide WellFormed;
  }

  lemma {:induction false} SwappedCounters(m: StoreSpec.Mem, batch: seq<Batched>)
    requires GoodBatch(batch)
    ensures var e := BulkSpec.Reset(m, Content(batch));
      && e.total == Sum(batch, PlanCharge) + RESERVED_OVERHEAD && e.items == Sum(batch, PlanItems)
      && e.count == |batch| + |RESERVED| && e.scopes == Content(batch) && e.cfg == m.cfg && e.codec == m.codec
  {
    hide StoreSpec.TotalBytes, StoreSpec.TotalItems, Sum, WellFormed;
    DistinctInGood(batch);
    ContentIs(batch);
    PlanTotals(batch, |batch|);
    assert batch[..|batch|] == batch;
    BulkSpec.AddTwo(PlansOf(batch, |batch|), EVENTS, INBOX);
  }

  lemma {:induction false} SwappedAreContent(s: State, batch: seq<Batched>)
    requires GoodBatch(batch)
    ensures var bufs := Swapped(s, batch);
      forall b :: 0 <= b < |bufs| && bufs[b].mapped ==>
        !bufs[b].detached && bufs[b].name in Content(batch) && Content(batch)[bufs[b].name] == bufs[b].scope
  {
    ContentIs(batch);
    hide Content, GoodBatch;
  }

  lemma {:induction false} ContentIsSwapped(s: State, batch: seq<Batched>)
    requires GoodBatch(batch)
    ensures forall n :: n in Content(batch) ==> IsMapped(Swapped(s, batch), n)
  {
    ContentIs(batch);
    SwappedParts(s, batch);
    hide Content, GoodBatch, Swapped;
    forall n | n in Content(batch) ensures IsMapped(Swapped(s, batch), n) {
      if n != EVENTS && n != INBOX {
        var i :| 0 <= i < |batch| && batch[i].name == n;
        assert Swapped(s, batch)[|s.bufs| + i].name == n;
      }
    }
  }

  lemma SwappedParts(s: State, batch: seq<Batched>)
    ensures var bufs, k := Swapped(s, batch), |s.bufs|;
      && |bufs| == k + |batch| + 2
      && (forall i {:trigger bufs[k + i]} :: 0 <= i < |batch| ==>
           bufs[k + i].mapped && bufs[k + i].name == batch[i].name)
      && bufs[k + |batch|].mapped && bufs[k + |batch|].name == EVENTS
      && bufs[k + |batch| + 1].mapped && bufs[k + |batch| + 1].name == INBOX
  {
  }

  lemma {:induction false} SwappedShows(s: State, m: StoreSpec.Mem, t: nat, batch: seq<Batched>, s': State)
    requires s.cfg == m.cfg && s.codec == m.codec && GoodBatch(batch)
    requires s' == s.(bufs := Swapped(s, batch), total := Sum(batch, PlanCharge) + RESERVED_OVERHEAD,
                      items := Sum(batch, PlanItems), scopes := |batch| + |RESERVED|)
    ensures Shows(s', BulkSpec.Reset(m, Content(batch)))
  {
    hide BulkSpec.Reset, Content, Swapped, NamesUnique, IsMapped, Sum;
    SwappedCounters(m, batch);
    SwappedAreContent(s, batch);
    ContentIsSwapped(s, batch);
    SwappedNames(s, batch);
  }

  lemma {:induction false} SwappedNames(s: State, batch: seq<Batched>)
    requires GoodBatch(batch)
    ensures NamesUnique(Swapped(s, batch))
  {
    assert IsReserved(EVENTS) && IsReserved(INBOX);
  }

  /** A rebuild alone, or a wipe, which is a rebuild with nothing: a whole new content beside two empty
      reserved scopes, whatever was there before. */
  lemma {:induction false} RebuildAlone(s: State, m: StoreSpec.Mem, t: nat, batch: seq<Batched>)
    returns (steps: seq<Step>, s': State)
    requires Shows(s, m) && AllIdle(s) && t < |s.pcs| && GoodBatch(batch)
    requires Sum(batch, PlanCharge) + RESERVED_OVERHEAD <= m.cfg.maxStoreBytes
    ensures Reaches(s, steps, s') && AllIdle(s')
    ensures Shows(s', BulkSpec.Reset(m, Content(batch)))
  {
    OneStep(s, BulkLock(t, batch));
    hide *;
    var s1 := At(s, t, Detaching(batch));
    var detach := DetachAll(s, t, batch, |s.bufs|);
    var s2 := s1.(bufs := DetachedBelow(s.bufs, |s.bufs|));
    ReachOn(s, [BulkLock(t, batch)], s1, detach, s2);
    var more;
    more, s' := SwapAndCreate(s, t, batch);
    ReachOn(s, [BulkLock(t, batch)] + detach, s2, more, s');
    steps := [BulkLock(t, batch)] + detach + more;
    SwappedShows(s, m, t, batch, s');
  }
}
