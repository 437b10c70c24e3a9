/** What every step of the protocol keeps, and what follows for whole runs. */
module ProtocolSafety {
  import opened Types
  import opened ScopeSpec
  import opened Protocol

  // ---------- The byte ledger ----------

  lemma {:induction false} PcSums(pcs: seq<Pc>, t: nat, pc: Pc)
    requires t < |pcs|
    ensures Sum(pcs[t := pc], Ledger) == Sum(pcs, Ledger) - Ledger(pcs[t]) + Ledger(pc)
    ensures Sum(pcs[t := pc], Uncounted) == Sum(pcs, Uncounted) - Uncounted(pcs[t]) + Uncounted(pc)
  {
    SumUpdate(pcs, t, pc, Ledger);
    SumUpdate(pcs, t, pc, Uncounted);
  }

  lemma {:induction false} BufSums(bufs: seq<Buf>, b: nat, buf: Buf)
    requires b < |bufs|
    ensures Sum(bufs[b := buf], Charge) == Sum(bufs, Charge) - Charge(bufs[b]) + Charge(buf)
    ensures Sum(bufs[b := buf], ItemsOf) == Sum(bufs, ItemsOf) - ItemsOf(bufs[b]) + ItemsOf(buf)
    ensures Sum(bufs[b := buf], One) == Sum(bufs, One) - One(bufs[b]) + One(buf)
  {
    SumUpdate(bufs, b, buf, Charge);
    SumUpdate(bufs, b, buf, ItemsOf);
    SumUpdate(bufs, b, buf, One);
  }

  lemma {:induction false} AddSums(bufs: seq<Buf>, buf: Buf)
    ensures Sum(bufs + [buf], Charge) == Sum(bufs, Charge) + Charge(buf)
    ensures Sum(bufs + [buf], ItemsOf) == Sum(bufs, ItemsOf) + ItemsOf(buf)
    ensures Sum(bufs + [buf], One) == Sum(bufs, One) + One(buf)
  {
    SumPush(bufs, buf, Charge);
    SumPush(bufs, buf, ItemsOf);
    SumPush(bufs, buf, One);
  }

  lemma {:induction false} NewSums(batch: seq<Batched>)
    ensures Sum(NewBufs(batch), Charge) == Sum(batch, PlanCharge)
    ensures Sum(NewBufs(batch), ItemsOf) == Sum(batch, PlanItems)
    ensures Sum(NewBufs(batch), One) == |batch|
  {
    if batch != [] {
      NewSums(batch[1..]);
      assert NewBufs(batch)[1..] == NewBufs(batch[1..]);
    }
  }

  lemma {:induction false} SwapSums(bufs: seq<Buf>, batch: seq<Batched>)
    ensures Sum(Unmapped(bufs) + NewBufs(batch), Charge) == Sum(batch, PlanCharge)
    ensures Sum(Unmapped(bufs) + NewBufs(batch), ItemsOf) == Sum(batch, PlanItems)
    ensures Sum(Unmapped(bufs) + NewBufs(batch), One) == |batch|
  {
    NewSums(batch);
    SumConcat(Unmapped(bufs), NewBufs(batch), Charge);
    SumConcat(Unmapped(bufs), NewBufs(batch), ItemsOf);
    SumConcat(Unmapped(bufs), NewBufs(batch), One);
    SumZero(Unmapped(bufs), Charge);
    SumZero(Unmapped(bufs), ItemsOf);
    SumZero(Unmapped(bufs), One);
  }

  /** Once a wipe or rebuild has detached every mapped buffer, no thread has anything reserved. */
  lemma {:induction false} NothingInFlight(s: State, t: nat)
    requires Safe(s) && t < |s.pcs| && s.pcs[t].Detaching?
    requires forall b :: 0 <= b < |s.bufs| && s.bufs[b].mapped ==> s.bufs[b].detached
    ensures forall u :: 0 <= u < |s.pcs| ==> Ledger(s.pcs[u]) == 0 && Uncounted(s.pcs[u]) == 0
    ensures forall u :: 0 <= u < |s.pcs| && u != t ==> !HoldsAnyShard(s.pcs[u])
    ensures forall b :: 0 <= b < |s.bufs| ==> s.bufs[b].detached
  {
    hide WellFormed;
    forall u | 0 <= u < |s.pcs|
      ensures Ledger(s.pcs[u]) == 0 && Uncounted(s.pcs[u]) == 0 && (u != t ==> !HoldsAnyShard(s.pcs[u]))
    {
      if u != t {
        OnlyDetacher(s, t, u);
      }
    }
  }

  lemma {:induction false} OnlyDetacher(s: State, t: nat, u: nat)
    requires Safe(s) && t < |s.pcs| && u < |s.pcs| && u != t
    requires s.pcs[t].Detaching? || s.pcs[t].Recreating?
    ensures !HoldsAnyShard(s.pcs[u])
    ensures s.pcs[u].Committing? ==> Ledger(s.pcs[u]) == 0 && Uncounted(s.pcs[u]) == 0
  {
    hide WellFormed;
    var n := SomeHeldName(s.pcs[u]);
    SomeHeldNameIsHeld(s.shardOf, s.pcs[u]);
    assert HoldsShard(s.shardOf, s.pcs[t], n);
    assert !HoldsShard(s.shardOf, s.pcs[u], n);
  }

  lemma SomeHeldNameIsHeld(shardOf: string -> nat, pc: Pc)
    ensures HoldsAnyShard(pc) ==> HoldsShard(shardOf, pc, SomeHeldName(pc))
  {
    var n := SomeHeldName(pc);
    if pc.Snapping? && pc.plans != [] { assert shardOf(pc.plans[0].name) == shardOf(n); }
    if pc.Committing? && pc.plans != [] { assert shardOf(pc.plans[0].name) == shardOf(n); }
  }

  /** Every step keeps the three counters equal to the true sums plus what is in flight. */
  lemma {:induction false} StepKeepsBalance(s: State, step: Step)
    requires Safe(s) && Balanced(s) && Enabled(s, step)
    ensures Balanced(Apply(s, step))
  {
    hide Sum, SizeSum, WellFormed, PlanOf, Remove, BufLocksExclusive, ShardLocksExclusive, NamesUnique, PlansCover,
      GoodBatch, FreshFor, DetachedOnlyInBulk, RoomToRecreate, CanReserve;
    var t, pc, s' := step.t, s.pcs[step.t], Apply(s, step);
    match step
    case Rollback(_) => UnmapKeepsBalance(s, step);
    case DeleteScope(_, _) => UnmapKeepsBalance(s, step);
    case WarmCommit(_, _) => BulkKeepsBalance(s, step);
    case BulkDetach(_, _) => BulkKeepsBalance(s, step);
    case BulkSwap(_) => SwapKeepsBalance(s, step);
    case BulkCreate(_) => BulkKeepsBalance(s, step);
    case CreateInsert(_) =>
      PcSums(s.pcs, t, s'.pcs[t]);
      AddSums(s.bufs, s'.bufs[|s.bufs|]);
      EmptyBytes(EMPTY_SCOPE);
    case Commit(_) =>
      PcSums(s.pcs, t, s'.pcs[t]);
      BufSums(s.bufs, pc.b, s'.bufs[pc.b]);
    case RemoveItems(_, r) =>
      PcSums(s.pcs, t, s'.pcs[t]);
      BufSums(s.bufs, pc.b, s'.bufs[pc.b]);
    case _ => PcSums(s.pcs, t, s'.pcs[t]);
  }

  lemma {:induction false} UnmapKeepsBalance(s: State, step: Step)
    requires Safe(s) && Balanced(s) && Enabled(s, step) && (step.Rollback? || step.DeleteScope?)
    ensures Balanced(Apply(s, step))
  {
    hide Sum, SizeSum, WellFormed, PlanOf, Remove, BufLocksExclusive, ShardLocksExclusive, NamesUnique, ShardFree,
      BufFree;
    var t, pc, s' := step.t, s.pcs[step.t], Apply(s, step);
    if step.DeleteScope? {
      BufSums(s.bufs, step.target, s'.bufs[step.target]);
    } else {
      PcSums(s.pcs, t, s'.pcs[t]);
      if s.bufs[pc.b].mapped && s.bufs[pc.b].scope.items == [] {
        BufSums(s.bufs, pc.b, s'.bufs[pc.b]);
        EmptyBytes(s.bufs[pc.b].scope);
      }
    }
  }

  lemma {:induction false} BulkKeepsBalance(s: State, step: Step)
    requires Safe(s) && Balanced(s) && Enabled(s, step) && (step.WarmCommit? || step.BulkDetach? || step.BulkCreate?)
    ensures Balanced(Apply(s, step))
  {
    hide Sum, SizeSum, WellFormed, BufLocksExclusive, ShardLocksExclusive, NamesUnique, PlansCover, GoodBatch, BufFree;
    var t, pc, s' := step.t, s.pcs[step.t], Apply(s, step);
    if step.BulkDetach? {
      BufSums(s.bufs, step.target, s'.bufs[step.target]);
    } else {
      PcSums(s.pcs, t, s'.pcs[t]);
      if step.WarmCommit? && step.at.Some? {
        BufSums(s.bufs, step.at.value, s'.bufs[step.at.value]);
      } else {
        AddSums(s.bufs, s'.bufs[|s.bufs|]);
        EmptyBytes(EMPTY_SCOPE);
      }
    }
  }

  lemma {:induction false} SwapKeepsBalance(s: State, step: Step)
    requires Safe(s) && step.BulkSwap? && Enabled(s, step)
    ensures Balanced(Apply(s, step))
  {
    hide Sum, SizeSum, WellFormed, Safe, Charge, ItemsOf, One, PlanCharge, PlanItems;
    var t, pc := step.t, s.pcs[step.t];
    SwapSums(s.bufs, pc.built);
    NothingInFlight(s, t);
    SumZero(s.pcs, Ledger);
    SumZero(s.pcs, Uncounted);
    PcSums(s.pcs, t, Recreating(|RESERVED|));
  }

  lemma EmptyBytes(s: Scope)
    requires s.items == []
    ensures ScopeBytes(s) == 0
  {
  }

  // ---------- Locks and pointers ----------

  lemma MappedAfterAdd(bufs: seq<Buf>, buf: Buf, n: string)
    requires buf.mapped
    ensures IsMapped(bufs + [buf], n) <==> IsMapped(bufs, n) || n == buf.name
  {
    var bufs' := bufs + [buf];
    if n == buf.name { assert bufs'[|bufs|].mapped && bufs'[|bufs|].name == n; }
    if IsMapped(bufs, n) {
      var b :| 0 <= b < |bufs| && bufs[b].mapped && bufs[b].name == n;
      assert bufs'[b] == bufs[b];
    }
  }

  lemma MappedAfterSet(bufs: seq<Buf>, b: nat, buf: Buf, n: string)
    requires b < |bufs| && buf.name == bufs[b].name && (buf.mapped == bufs[b].mapped || n != buf.name)
    ensures IsMapped(bufs[b := buf], n) <==> IsMapped(bufs, n)
  {
    var bufs' := bufs[b := buf];
    if IsMapped(bufs, n) {
      var c :| 0 <= c < |bufs| && bufs[c].mapped && bufs[c].name == n;
      assert bufs'[c].mapped && bufs'[c].name == n;
    }
    if IsMapped(bufs', n) {
      var c :| 0 <= c < |bufs'| && bufs'[c].mapped && bufs'[c].name == n;
      assert bufs[c].mapped && bufs[c].name == n;
    }
  }

  lemma SameShard(shardOf: string -> nat, pc: Pc, n: string, m: string)
    requires shardOf(n) == shardOf(m)
    ensures HoldsShard(shardOf, pc, n) <==> HoldsShard(shardOf, pc, m)
  {
  }

  /** The one buffer a step changes in place, if any. */
  function Changed(s: State, step: Step): Option<nat>
    requires Enabled(s, step)
  {
    var pc := s.pcs[step.t];
    match step
    case Commit(_) => Some(pc.b)
    case RemoveItems(_, _) => Some(pc.b)
    case Rollback(_) => if s.bufs[pc.b].mapped && s.bufs[pc.b].scope.items == [] then Some(pc.b) else None
    case DeleteScope(_, b) => Some(b)
    case WarmCommit(_, at) => at
    case BulkDetach(_, b) => Some(b)
    case _ => None
  }

  /** What a step can do to the buffers: nothing, change one in place, add a mapped one, or swap them all. */
  lemma {:induction false} BufsAfter(s: State, step: Step)
    requires Enabled(s, step) && !step.BulkSwap?
    ensures var c, bufs' := Changed(s, step), Apply(s, step).bufs;
      && (c.Some? ==> c.value < |s.bufs| && bufs' == s.bufs[c.value := bufs'[c.value]] && |bufs'| == |s.bufs|
                      && bufs'[c.value].name == s.bufs[c.value].name)
      && (c.None? && |bufs'| == |s.bufs| ==> bufs' == s.bufs)
      && (|bufs'| > |s.bufs| ==>
           |bufs'| == |s.bufs| + 1 && bufs' == s.bufs + [bufs'[|s.bufs|]]
           && bufs'[|s.bufs|].mapped
           && HoldsShard(s.shardOf, s.pcs[step.t], bufs'[|s.bufs|].name))
      && |bufs'| >= |s.bufs|
      && (c.Some? && s.bufs[c.value].detached ==> bufs'[c.value].detached)
      && (c.Some? && bufs'[c.value].mapped != s.bufs[c.value].mapped ==>
           ShardFree(s, s.bufs[c.value].name) && s.bufs[c.value].mapped)
  {
    hide SizeSum, WellFormed, PlanOf, Remove, Sum, CanReserve, BufFree, IsMapped;
    if step.WarmCommit? && step.at.None? {
      var pc := s.pcs[step.t];
      assert PlansCover(s.shardOf, pc.plans, pc.plans[pc.done].name);
    }
  }

  /** Only the holder of a name's shard lock can map or unmap the name. */
  lemma {:induction false} NameStable(s: State, step: Step, u: nat, n: string)
    requires Safe(s) && Enabled(s, step) && u < |s.pcs| && u != step.t && HoldsShard(s.shardOf, s.pcs[u], n)
    ensures IsMapped(Apply(s, step).bufs, n) <==> IsMapped(s.bufs, n)
  {
    hide SizeSum, WellFormed, PlanOf, Remove, BufLocksExclusive, NamesUnique, PcsOk, Sum, CanReserve, BufFree, MappedAt,
      Enabled, Apply, IsMapped;
    assert step.t < |s.pcs| && !HoldsShard(s.shardOf, s.pcs[step.t], n) by { InRange(s, step); }
    assert !step.BulkSwap? by { SwapHolds(s, step, n); }
    BufsAfter(s, step);
    var c, bufs' := Changed(s, step), Apply(s, step).bufs;
    if c.Some? {
      MappedAfterSet(s.bufs, c.value, bufs'[c.value], n);
    } else if |bufs'| > |s.bufs| {
      MappedAfterAdd(s.bufs, bufs'[|s.bufs|], n);
    }
  }

  lemma InRange(s: State, step: Step)
    requires Enabled(s, step)
    ensures step.t < |s.pcs|
  {
  }

  lemma SwapHolds(s: State, step: Step, n: string)
    requires Enabled(s, step)
    ensures step.BulkSwap? ==> HoldsShard(s.shardOf, s.pcs[step.t], n)
  {
  }

  // ---------- The other threads ----------

  lemma {:induction false} ChangedIsFree(s: State, step: Step, u: nat)
    requires Safe(s) && Enabled(s, step) && u < |s.pcs| && u != step.t && Changed(s, step).Some?
    ensures !LocksBuf(s.pcs[u], Changed(s, step).value)
  {
    hide SizeSum, WellFormed, PlanOf, Remove, NamesUnique, PcsOk, Sum, CanReserve, IsMapped, ShardLocksExclusive,
      BufsOk, ShardFree;
    if step.Commit? {
      assert LocksBuf(s.pcs[step.t], s.pcs[step.t].b);
    }
  }

  lemma {:induction false} OtherPointerOk(s: State, step: Step, u: nat)
    requires Safe(s) && Enabled(s, step) && u < |s.pcs| && u != step.t
    ensures PointerOk(Apply(s, step).bufs, s.pcs[u])
  {
    hide SizeSum, ScopeBytes, WellFormed, PlanOf, Remove, NamesUnique, Sum, CanReserve, IsMapped, ShardLocksExclusive,
      ShardFree, BufFree, Apply, Enabled, LockedOk;
    if step.BulkSwap? {
      SwapLeavesDetached(s, step);
    } else {
      BufsAfter(s, step);
      if Changed(s, step).Some? {
        ChangedIsFree(s, step, u);
      }
    }
  }

  lemma {:induction false} SwapLeavesDetached(s: State, step: Step)
    requires Safe(s) && step.BulkSwap? && Enabled(s, step)
    ensures var bufs' := Apply(s, step).bufs;
      && |s.bufs| <= |bufs'| && (forall b :: 0 <= b < |s.bufs| ==> s.bufs[b].detached && bufs'[b].detached)
      && (forall u :: 0 <= u < |s.pcs| && u != step.t ==> !HoldsAnyShard(s.pcs[u]))
  {
    hide SizeSum, WellFormed, Sum, ShardLocksExclusive, NamesUnique, BufLocksExclusive;
    NothingInFlight(s, step.t);
  }

  lemma {:induction false} NewPointer(s: State, step: Step)
    requires Enabled(s, step) && !step.Lookup? && !step.CreateInsert?
    ensures var p := Pointer(Apply(s, step).pcs[step.t]); p.None? || p == Pointer(s.pcs[step.t])
  {
    hide SizeSum, WellFormed, PlanOf, Remove, Sum, CanReserve, IsMapped, ShardFree, BufFree;
  }

  lemma {:induction false} PcsAfter(s: State, step: Step)
    requires Enabled(s, step)
    ensures var s' := Apply(s, step);
      |s'.pcs| == |s.pcs| && s'.pcs == s.pcs[step.t := s'.pcs[step.t]] && s'.cfg == s.cfg && s'.shardOf == s.shardOf
  {
    hide SizeSum, WellFormed, PlanOf, Remove, Sum, CanReserve, IsMapped, ShardFree, BufFree;
  }

  lemma {:induction false} OtherLockedOk(s: State, step: Step, u: nat)
    requires Safe(s) && Enabled(s, step) && u < |s.pcs| && u != step.t
    ensures LockedOk(Apply(s, step), s.pcs[u])
  {
    hide SizeSum, WellFormed, PlanOf, Remove, NamesUnique, Sum, CanReserve, ShardFree, BufFree, Apply, Enabled, BufsOk,
      BufLocksExclusive, ShardLocksExclusive, PointerOk, HoldsAnyShard, GoodBatch;
    var s' := Apply(s, step);
    PcsAfter(s, step);
    assert LockedOk(s, s.pcs[u]);
    match s.pcs[u]
    case Creating(name) => NameStable(s, step, u, name);
    case Snapping(plans, snaps) =>
      forall i | 0 <= i < |snaps| ensures SnapOk(s', plans[i], snaps[i]) {
        assert SnapOk(s, plans[i], snaps[i]) && PlansCover(s.shardOf, plans, plans[i].name);
        NameStable(s, step, u, plans[i].name);
      }
    case Committing(plans, snaps, done, _) =>
      forall i | done <= i < |snaps| ensures SnapOk(s', plans[i], snaps[i]) {
        assert SnapOk(s, plans[i], snaps[i]) && PlansCover(s.shardOf, plans, plans[i].name);
        NameStable(s, step, u, plans[i].name);
      }
    case Recreating(left) =>
      forall j | |RESERVED| - left <= j < |RESERVED| ensures !IsMapped(s'.bufs, RESERVED[j]) {
        NameStable(s, step, u, RESERVED[j]);
      }
      forall v | 0 <= v < |s'.pcs| ensures PointsNowhereLive(s'.bufs, s'.pcs[v]) {
        RecreatingPointers(s, step, u, v);
      }
    case _ =>
  }

  /** While the reserved scopes are re-created, every pointer any thread holds is to a detached buffer. */
  lemma {:induction false} RecreatingPointers(s: State, step: Step, u: nat, v: nat)
    requires Safe(s) && Enabled(s, step) && u < |s.pcs| && u != step.t && s.pcs[u].Recreating? && v < |s.pcs|
    ensures PointsNowhereLive(Apply(s, step).bufs, Apply(s, step).pcs[v])
  {
    hide SizeSum, WellFormed, PlanOf, Remove, NamesUnique, CanReserve, IsMapped, BufFree, Apply, Enabled, BufsOk,
      BufLocksExclusive, ShardLocksExclusive, PointerOk, GoodBatch, ShardFree;
    PcsAfter(s, step);
    assert LockedOk(s, s.pcs[u]) && PointsNowhereLive(s.bufs, s.pcs[v]);
    RecreatingExcludes(s, step, u);
    BufsAfter(s, step);
    if v == step.t {
      NewPointer(s, step);
    }
  }

  lemma {:induction false} RecreatingExcludes(s: State, step: Step, u: nat)
    requires Safe(s) && Enabled(s, step) && u < |s.pcs| && u != step.t && s.pcs[u].Recreating?
    ensures !step.Lookup? && !step.CreateInsert? && !step.BulkSwap?
  {
    hide SizeSum, WellFormed, PlanOf, Remove, NamesUnique, Sum, CanReserve, IsMapped, BufFree, BufsOk,
      BufLocksExclusive, PcsOk;
    OnlyDetacher(s, u, step.t);
    assert forall n :: HoldsShard(s.shardOf, s.pcs[u], n);
  }

  // ---------- The stepping thread ----------

  lemma {:induction false} SelfPointerOk(s: State, step: Step)
    requires Safe(s) && Enabled(s, step)
    ensures PointerOk(Apply(s, step).bufs, Apply(s, step).pcs[step.t])
  {
    hide SizeSum, ScopeBytes, WellFormed, Remove, NamesUnique, Sum, CanReserve, IsMapped, ShardLocksExclusive,
      ShardFree, BufFree, BufLocksExclusive, LockedOk, PlanOf, FreshFor;
    if step.BeginWrite? {
      BegunWriteIsSound(s, step);
    }
    assert PointerOk(s.bufs, s.pcs[step.t]);
  }

  lemma {:induction false} BegunWriteIsSound(s: State, step: Step)
    requires Safe(s) && step.BeginWrite? && Enabled(s, step)
    ensures var w := Apply(s, step).pcs[step.t];
      w.Writing? && WellFormed(w.after) && ScopeBytes(w.after) == ScopeBytes(s.bufs[w.b].scope) + w.delta
  {
    hide SizeSum, WellFormed, NamesUnique, Sum, ShardLocksExclusive, BufFree, BufLocksExclusive, PlanOf, FreshFor,
      PcsOk;
    var buf := s.bufs[s.pcs[step.t].b];
    assert WellFormed(buf.scope);
    WriteIsSound(buf.scope, step.w, EnvFor(s, buf.name, step.now, step.minted));
  }

  lemma {:induction false} SnappedOk(s: State, step: Step)
    requires Safe(s) && Enabled(s, step) && (step.WarmSnap? || step.WarmReserve? || step.WarmLock?)
    ensures LockedOk(Apply(s, step), Apply(s, step).pcs[step.t])
  {
    hide SizeSum, ScopeBytes, WellFormed, NamesUnique, Sum, CanReserve, ShardLocksExclusive, ShardFree, BufFree,
      BufLocksExclusive, PointerOk, GoodBatch, BufsOk, DetachedOnlyInBulk, RoomToRecreate, Pending;
    assert LockedOk(s, s.pcs[step.t]);
  }

  lemma {:induction false} SelfLockedOk(s: State, step: Step)
    requires Safe(s) && Enabled(s, step)
    ensures LockedOk(Apply(s, step), Apply(s, step).pcs[step.t])
  {
    hide SizeSum, ScopeBytes, WellFormed, Remove, NamesUnique, Sum, CanReserve, ShardLocksExclusive, ShardFree, BufFree,
      BufLocksExclusive, PointerOk, PlanOf, FreshFor, GoodBatch, BufsOk, SnapOk, DetachedOnlyInBulk, RoomToRecreate,
      Pending;
    match step
    case WarmLock(_, _) => SnappedOk(s, step);
    case WarmSnap(_, _) => SnappedOk(s, step);
    case WarmReserve(_) => SnappedOk(s, step);
    case WarmCommit(_, at) => CommittedSnapsOk(s, step);
    case BulkSwap(_) => SwappedOk(s, step);
    case BulkCreate(_) => RecreatedOk(s, step);
    case _ => assert LockedOk(s, s.pcs[step.t]);
  }

  lemma {:induction false} CommittedSnapsOk(s: State, step: Step)
    requires Safe(s) && step.WarmCommit? && Enabled(s, step)
    ensures LockedOk(Apply(s, step), Apply(s, step).pcs[step.t])
  {
    hide SizeSum, ScopeBytes, WellFormed, NamesUnique, Sum, ShardLocksExclusive, BufFree, BufLocksExclusive, PointerOk,
      BufsOk;
    var s', pc := Apply(s, step), s.pcs[step.t];
    assert LockedOk(s, pc);
    forall i | pc.done + 1 <= i < |pc.snaps| ensures SnapOk(s', pc.plans[i], pc.snaps[i]) {
      assert SnapOk(s, pc.plans[i], pc.snaps[i]) && pc.plans[pc.done].name != pc.plans[i].name;
      if step.at.Some? {
        MappedAfterSet(s.bufs, step.at.value, s'.bufs[step.at.value], pc.plans[i].name);
      } else {
        MappedAfterAdd(s.bufs, s'.bufs[|s.bufs|], pc.plans[i].name);
      }
    }
  }

  lemma {:induction false} SwappedOk(s: State, step: Step)
    requires Safe(s) && step.BulkSwap? && Enabled(s, step)
    ensures LockedOk(Apply(s, step), Apply(s, step).pcs[step.t])
  {
    hide WellFormed;
    var s', pc := Apply(s, step), s.pcs[step.t];
    SwapLeavesDetached(s, step);
    forall j | 0 <= j < |RESERVED| ensures !IsMapped(s'.bufs, RESERVED[j]) {
      assert RESERVED[j] in RESERVED;
      assert forall b :: |s.bufs| <= b < |s'.bufs| ==> !IsReserved(s'.bufs[b].name);
    }
    forall u | 0 <= u < |s'.pcs| ensures PointsNowhereLive(s'.bufs, s'.pcs[u]) {
      assert PointerOk(s.bufs, s.pcs[u]);
    }
  }

  lemma {:induction false} RecreatedOk(s: State, step: Step)
    requires Safe(s) && step.BulkCreate? && Enabled(s, step)
    ensures LockedOk(Apply(s, step), Apply(s, step).pcs[step.t])
  {
    hide WellFormed;
    var s', pc := Apply(s, step), s.pcs[step.t];
    assert LockedOk(s, pc);
    forall j | |RESERVED| - pc.left + 1 <= j < |RESERVED| ensures !IsMapped(s'.bufs, RESERVED[j]) {
      assert EVENTS != INBOX;
      MappedAfterAdd(s.bufs, s'.bufs[|s.bufs|], RESERVED[j]);
    }
    forall u | 0 <= u < |s'.pcs| ensures PointsNowhereLive(s'.bufs, s'.pcs[u]) {
      assert PointsNowhereLive(s.bufs, s.pcs[u]);
    }
  }

  // ---------- Buffers and lock exclusion ----------

  lemma {:induction false} BulkBufsStayOk(s: State, step: Step)
    requires Safe(s) && Enabled(s, step) && (step.BulkSwap? || step.BulkDetach? || step.BulkCreate? || step.WarmCommit?)
    ensures BufsOk(Apply(s, step).bufs)
  {
    hide SizeSum, ScopeBytes, WellFormed, NamesUnique, Sum, CanReserve, ShardLocksExclusive, ShardFree, BufFree,
      BufLocksExclusive, IsMapped, DetachedOnlyInBulk, RoomToRecreate, PointerOk, SnapOk, Pending;
    assert LockedOk(s, s.pcs[step.t]);
    assert WellFormed(EMPTY_SCOPE) by { EmptyIsWellFormed(); }
    if step.BulkSwap? {
      SwapLeavesDetached(s, step);
    }
  }

  lemma {:induction false} BufsStayOk(s: State, step: Step)
    requires Safe(s) && Enabled(s, step)
    ensures BufsOk(Apply(s, step).bufs)
  {
    hide SizeSum, ScopeBytes, WellFormed, Remove, NamesUnique, Sum, CanReserve, ShardLocksExclusive, ShardFree, BufFree,
      BufLocksExclusive, PlanOf, FreshFor, IsMapped, DetachedOnlyInBulk, RoomToRecreate, LockedOk, GoodBatch, Pending;
    var pc := s.pcs[step.t];
    assert PointerOk(s.bufs, pc);
    match step
    case BulkSwap(_) => BulkBufsStayOk(s, step);
    case BulkDetach(_, _) => BulkBufsStayOk(s, step);
    case BulkCreate(_) => BulkBufsStayOk(s, step);
    case WarmCommit(_, _) => BulkBufsStayOk(s, step);
    case RemoveItems(_, r) =>
      assert WellFormed(s.bufs[pc.b].scope);
      RemovalIsSound(s.bufs[pc.b].scope, r);
    case _ => EmptyIsWellFormed();
  }

  lemma EmptyIsWellFormed()
    ensures WellFormed(EMPTY_SCOPE)
  {
  }

  lemma {:induction false} AddedNameIsNew(s: State, step: Step)
    requires Safe(s) && Enabled(s, step) && !step.BulkSwap? && |Apply(s, step).bufs| > |s.bufs|
    ensures !IsMapped(s.bufs, Apply(s, step).bufs[|s.bufs|].name)
  {
    hide SizeSum, WellFormed, Remove, NamesUnique, CanReserve, ShardLocksExclusive, ShardFree, BufFree,
      BufLocksExclusive, PlanOf, FreshFor, BufsOk;
    assert LockedOk(s, s.pcs[step.t]);
  }

  lemma {:induction false} NamesStayUnique(s: State, step: Step)
    requires Safe(s) && Enabled(s, step)
    ensures NamesUnique(Apply(s, step).bufs)
  {
    hide SizeSum, WellFormed, Remove, CanReserve, ShardLocksExclusive, ShardFree, BufFree, BufLocksExclusive, PlanOf,
      FreshFor, BufsOk;
    if step.BulkSwap? {
      assert LockedOk(s, s.pcs[step.t]);
    } else {
      if Changed(s, step).Some? { OnlyUnmaps(s, step); }
      BufsAfter(s, step);
      var bufs' := Apply(s, step).bufs;
      if |bufs'| > |s.bufs| {
        AddedNameIsNew(s, step);
      }
    }
  }

  lemma {:induction false} OnlyUnmaps(s: State, step: Step)
    requires Enabled(s, step) && !step.BulkSwap? && Changed(s, step).Some?
    ensures var c := Changed(s, step).value;
      c < |s.bufs| <= |Apply(s, step).bufs| && (Apply(s, step).bufs[c].mapped ==> s.bufs[c].mapped)
  {
    hide SizeSum, WellFormed, PlanOf, Remove, Sum, CanReserve, BufFree, IsMapped;
  }

  lemma {:induction false} LocksStayExclusive(s: State, step: Step)
    requires Safe(s) && Enabled(s, step)
    ensures BufLocksExclusive(Apply(s, step).pcs)
    ensures ShardLocksExclusive(s.shardOf, Apply(s, step).pcs)
  {
    hide SizeSum, WellFormed, PlanOf, Remove, Sum, CanReserve, IsMapped, PcsOk, BufsOk, NamesUnique, Apply, Enabled,
      LocksBuf, HoldsShard;
    var t, pcs' := step.t, Apply(s, step).pcs;
    InRange(s, step);
    PcsAfter(s, step);
    forall b: nat | LocksBuf(pcs'[t], b) ensures forall u :: 0 <= u < |s.pcs| && u != t ==> !LocksBuf(s.pcs[u], b) {
      BufLockGained(s, step, b);
    }
    forall n | HoldsShard(s.shardOf, pcs'[t], n)
      ensures forall u :: 0 <= u < |s.pcs| && u != t ==> !HoldsShard(s.shardOf, s.pcs[u], n)
    {
      ShardLockGained(s, step, n);
    }
  }

  lemma {:induction false} BufLockGained(s: State, step: Step, b: nat)
    requires Enabled(s, step) && LocksBuf(Apply(s, step).pcs[step.t], b)
    ensures LocksBuf(s.pcs[step.t], b) || BufFree(s, b)
  {
    hide SizeSum, WellFormed, PlanOf, Remove, Sum, CanReserve, IsMapped, ShardFree, BufFree;
  }

  lemma {:induction false} ShardLockGained(s: State, step: Step, n: string)
    requires Enabled(s, step) && HoldsShard(s.shardOf, Apply(s, step).pcs[step.t], n)
    ensures HoldsShard(s.shardOf, s.pcs[step.t], n) || ShardFree(s, n)
  {
    hide SizeSum, WellFormed, PlanOf, Remove, Sum, CanReserve, IsMapped, BufFree, FreshFor, Pending, MappedAt,
      GoodBatch;
    var pcs := s.pcs;
    match step
    case CreateReserve(_, name) =>
      forall u | 0 <= u < |pcs| ensures !HoldsShard(s.shardOf, pcs[u], n) { SameShard(s.shardOf, pcs[u], name, n); }
    case WarmLock(_, batch) =>
      var i :| 0 <= i < |batch| && s.shardOf(batch[i].name) == s.shardOf(n);
      forall u | 0 <= u < |pcs| ensures !HoldsShard(s.shardOf, pcs[u], n) {
        SameShard(s.shardOf, pcs[u], batch[i].name, n);
      }
    case BulkLock(_, _) =>
      forall u | 0 <= u < |pcs| ensures !HoldsShard(s.shardOf, pcs[u], n) { }
    case _ =>
  }

  // ---------- Bulk operations and the cap ----------

  lemma {:induction false} WasDetached(s: State, step: Step, b: nat)
    requires Enabled(s, step) && !step.BulkDetach?
    requires b < |Apply(s, step).bufs| && Apply(s, step).bufs[b].mapped && Apply(s, step).bufs[b].detached
    ensures !step.BulkSwap? && b < |s.bufs| && s.bufs[b].mapped && s.bufs[b].detached
  {
    hide SizeSum, WellFormed, PlanOf, Remove, Sum, CanReserve, IsMapped, ShardFree, BufFree, GoodBatch, FreshFor,
      HoldsAnyShard, Pending;
  }

  lemma {:induction false} DetachingGoesOn(s: State, step: Step, u: nat)
    requires Enabled(s, step) && u < |s.pcs| && s.pcs[u].Detaching? && !step.BulkSwap?
    ensures u < |Apply(s, step).pcs| && Apply(s, step).pcs[u].Detaching?
  {
    hide SizeSum, WellFormed, PlanOf, Remove, Sum, CanReserve, IsMapped, ShardFree, BufFree, GoodBatch, FreshFor,
      HoldsAnyShard, Pending;
  }

  lemma {:induction false} DetachedStaysInBulk(s: State, step: Step)
    requires Safe(s) && Enabled(s, step)
    ensures DetachedOnlyInBulk(Apply(s, step).bufs, Apply(s, step).pcs)
  {
    hide Enabled, Apply, PcsOk, BufsOk, NamesUnique, BufLocksExclusive, ShardLocksExclusive, RoomToRecreate;
    var s' := Apply(s, step);
    if b :| 0 <= b < |s'.bufs| && s'.bufs[b].mapped && s'.bufs[b].detached {
      if step.BulkDetach? {
        assert s'.pcs[step.t].Detaching? by { DetacherIsDetaching(s, step); }
      } else {
        WasDetached(s, step, b);
        var u :| 0 <= u < |s.pcs| && s.pcs[u].Detaching?;
        DetachingGoesOn(s, step, u);
      }
    }
  }

  lemma DetacherIsDetaching(s: State, step: Step)
    requires Enabled(s, step) && step.BulkDetach?
    ensures step.t < |Apply(s, step).pcs| && Apply(s, step).pcs[step.t].Detaching?
  {
  }

  /** No step but the re-creation itself moves the byte counter while reserved scopes are missing. */
  lemma {:induction false} RecreatingFreezesTotal(s: State, step: Step, u: nat)
    requires Safe(s) && Enabled(s, step) && u < |s.pcs| && u != step.t && s.pcs[u].Recreating?
    ensures Apply(s, step).total == s.total
  {
    hide SizeSum, WellFormed, PlanOf, Remove, Sum, CanReserve, IsMapped, NamesUnique, BufLocksExclusive, FreshFor;
    OnlyDetacher(s, u, step.t);
    assert LockedOk(s, s.pcs[u]) && PointsNowhereLive(s.bufs, s.pcs[step.t]) && PointerOk(s.bufs, s.pcs[step.t]);
    assert forall n :: HoldsShard(s.shardOf, s.pcs[u], n);
  }

  lemma {:induction false} RoomStays(s: State, step: Step)
    requires Safe(s) && Enabled(s, step)
    ensures RoomToRecreate(Apply(s, step))
  {
    hide SizeSum, WellFormed, PlanOf, Remove, CanReserve, IsMapped, NamesUnique, BufLocksExclusive, FreshFor, BufsOk,
      ShardLocksExclusive;
    var s' := Apply(s, step);
    PcsAfter(s, step);
    forall u | 0 <= u < |s'.pcs| && s'.pcs[u].Recreating?
      ensures s'.total + SCOPE_OVERHEAD * s'.pcs[u].left <= s'.cfg.maxStoreBytes
    {
      if u != step.t {
        RecreatingFreezesTotal(s, step, u);
      } else {
        assert LockedOk(s, s.pcs[u]);
      }
    }
  }

  /** Every step keeps the safety invariant: locks exclude, pointers make sense, a live buffer is the
      mapped one, and a lock holder's knowledge stays true while others run. */
  lemma {:induction false} StepKeepsSafe(s: State, step: Step)
    requires Safe(s) && Enabled(s, step)
    ensures Safe(Apply(s, step))
  {
    hide *;
    BufsStayOk(s, step);
    NamesStayUnique(s, step);
    LocksStayExclusive(s, step);
    PcsStayOk(s, step);
    DetachedStaysInBulk(s, step);
    RoomStays(s, step);
    SafeFromParts(s, step);
  }

  lemma {:induction false} SafeFromParts(s: State, step: Step)
    requires Safe(s) && Enabled(s, step)
    requires var s' := Apply(s, step);
      && BufsOk(s'.bufs) && NamesUnique(s'.bufs) && BufLocksExclusive(s'.pcs)
      && ShardLocksExclusive(s.shardOf, s'.pcs) && PcsOk(s')
      && DetachedOnlyInBulk(s'.bufs, s'.pcs) && RoomToRecreate(s')
    ensures Safe(Apply(s, step))
  {
    hide BufsOk, NamesUnique, BufLocksExclusive, ShardLocksExclusive, PcsOk, Apply, Enabled, DetachedOnlyInBulk,
      RoomToRecreate;
    PcsAfter(s, step);
  }

  lemma {:induction false} PcsStayOk(s: State, step: Step)
    requires Safe(s) && Enabled(s, step)
    ensures PcsOk(Apply(s, step))
  {
    hide Apply, Enabled, PointerOk, LockedOk, BufsOk, NamesUnique, BufLocksExclusive, ShardLocksExclusive;
    var s' := Apply(s, step);
    PcsAfter(s, step);
    forall u | 0 <= u < |s'.pcs| ensures PointerOk(s'.bufs, s'.pcs[u]) && LockedOk(s', s'.pcs[u]) {
      if u == step.t {
        SelfPointerOk(s, step);
        SelfLockedOk(s, step);
      } else {
        OtherPointerOk(s, step, u);
        OtherLockedOk(s, step, u);
      }
    }
  }

  // ---------- Who is refused ----------

  /** A thread is let through or turned away, never both and never neither: a write by the room there is at
      that moment for what it adds, a batch by the room there is for all of it, a new scope by the room for
      its overhead; and a buffer turns a write away only once detached or for what the scope itself says. */
  lemma {:induction false} DecidedAtThatMoment(s: State, t: nat, w: Write, now: int, minted: Uuid)
    requires t < |s.pcs|
    ensures var pc, free := s.pcs[t], s.cfg.maxStoreBytes - s.total;
      && (pc.Writing? ==> (Enabled(s, ReserveOk(t)) <==> pc.delta <= 0 || pc.delta <= free))
      && (pc.Writing? ==> (Enabled(s, ReserveFail(t)) <==> pc.delta > 0 && pc.delta > free))
      && (pc.Snapping? && |pc.snaps| == |pc.plans| ==> var more := Pending(pc.plans, pc.snaps, 0);
           && (Enabled(s, WarmReserve(t)) <==> more <= 0 || more <= free)
           && (Enabled(s, WarmFail(t)) <==> more > 0 && more > free))
      && (forall n :: Enabled(s, CreateReserve(t, n)) ==> SCOPE_OVERHEAD <= free)
      && (Enabled(s, RefuseWrite(t, w, now, minted)) ==> !Enabled(s, BeginWrite(t, w, now, minted)))
      && (Enabled(s, RefuseWrite(t, w, now, minted)) && !s.bufs[pc.b].detached ==>
           !PlanOf(s.bufs[pc.b].scope, w, EnvFor(s, s.bufs[pc.b].name, now, minted)).Ready?)
  {
    hide PlanOf, Pending, BufFree, FreshFor, ShardFree, IsMapped, EnvFor;
  }

  // ---------- Whole runs ----------

  lemma {:induction false} BootIsSafe(s: State)
    requires Booted(s)
    ensures Safe(s) && Balanced(s)
  {
    EmptyBytes(EMPTY_SCOPE);
    SumZero(s.pcs, Ledger);
    SumZero(s.pcs, Uncounted);
    var b0, b1 := s.bufs[0], s.bufs[1];
    assert s.bufs == [b0] + [b1];
    AddSums([b0], b1);
    AddSums([], b0);
    assert [] + [b0] == [b0];
  }

  /** In every state of every run the byte, item and scope counters are exact up to the ledger. */
  lemma {:induction false} RunIsSafe(states: seq<State>, steps: seq<Step>, i: nat)
    requires IsRun(states, steps) && i < |states|
    ensures Safe(states[i]) && Balanced(states[i])
  {
    hide Safe, Balanced, Enabled, Apply, Booted;
    if i == 0 {
      BootIsSafe(states[0]);
    } else {
      RunIsSafe(states, steps, i - 1);
      StepKeepsSafe(states[i - 1], steps[i - 1]);
      StepKeepsBalance(states[i - 1], steps[i - 1]);
    }
  }

  /** When no thread is between a reservation and its change, the counters are the true sums. */
  lemma {:induction false} QuiescentCountersAreExact(states: seq<State>, steps: seq<Step>, i: nat)
    requires IsRun(states, steps) && i < |states|
    requires forall t :: 0 <= t < |states[i].pcs| ==> !MidFlight(states[i].pcs[t])
    ensures states[i].total == Sum(states[i].bufs, Charge)
    ensures states[i].items == Sum(states[i].bufs, ItemsOf)
    ensures states[i].scopes == Sum(states[i].bufs, One)
  {
    hide IsRun, Safe, Sum;
    RunIsSafe(states, steps, i);
    SumZero(states[i].pcs, Ledger);
    SumZero(states[i].pcs, Uncounted);
  }

  /** By how much a warm commit's scope shrank after the snapshot. */
  function Shrinkage(s: State, step: Step): int
    requires Enabled(s, step)
  {
    if CommitsShrunkScope(s, step) then
      s.pcs[step.t].snaps[s.pcs[step.t].done].was - ScopeBytes(s.bufs[step.at.value].scope)
    else 0
  }

  /** A step leaves the byte counter above both its previous value and the cap if and only if it is a
      warm commit on a scope that shrank after its snapshot, too far for the cap to absorb. */
  lemma {:induction false} OvershootsExactlyOnShrunkCommits(s: State, step: Step)
    requires Safe(s) && Enabled(s, step)
    ensures Apply(s, step).total > s.total && Apply(s, step).total > s.cfg.maxStoreBytes
      <==> CommitsShrunkScope(s, step) && s.total + Shrinkage(s, step) > s.cfg.maxStoreBytes
    ensures CommitsShrunkScope(s, step) ==> Apply(s, step).total == s.total + Shrinkage(s, step)
  {
    hide SizeSum, WellFormed, PlanOf, Remove, IsMapped, ShardFree, BufFree, Safe, FreshFor, GoodBatch,
      PointsNowhereLive;
    var pc := s.pcs[step.t];
    OwnFacts(s, step.t);
    if step.RemoveItems? {
      assert WellFormed(s.bufs[pc.b].scope) by { BufIsWellFormed(s, pc.b); }
      RemovalIsSound(s.bufs[pc.b].scope, step.r);
    }
  }

  lemma OwnFacts(s: State, t: nat)
    requires Safe(s) && t < |s.pcs|
    ensures LockedOk(s, s.pcs[t]) && PointerOk(s.bufs, s.pcs[t]) && RoomToRecreate(s) && s.cfg.Sane()
  {
    hide WellFormed, NamesUnique, BufLocksExclusive, ShardLocksExclusive, BufsOk, DetachedOnlyInBulk, LockedOk,
      PointerOk, RoomToRecreate;
  }

  lemma BufIsWellFormed(s: State, b: nat)
    requires Safe(s) && b < |s.bufs|
    ensures WellFormed(s.bufs[b].scope)
  {
  }

  /** In a run in which no warm commit finds its scope shrunk, the byte counter never exceeds the cap. */
  lemma {:induction false} CapHolds(states: seq<State>, steps: seq<Step>, i: nat)
    requires IsRun(states, steps) && i < |states|
    requires forall k :: 0 <= k < |steps| ==> !CommitsShrunkScope(states[k], steps[k])
    ensures states[i].total <= states[i].cfg.maxStoreBytes
  {
    hide Safe, Balanced, Enabled, Apply;
    if i > 0 {
      CapHolds(states, steps, i - 1);
      RunIsSafe(states, steps, i - 1);
      var s, step := states[i - 1], steps[i - 1];
      PcsAfter(s, step);
      if states[i].total > s.total && states[i].total > s.cfg.maxStoreBytes {
        OvershootsExactlyOnShrunkCommits(s, step);
      }
    }
  }

  /** A write that succeeds lands in the one buffer that is mapped under its name, not in an orphan. */
  lemma {:induction false} CommitLandsInMappedBuffer(s: State, step: Step)
    requires Safe(s) && step.Commit? && Enabled(s, step)
    ensures var b, s' := s.pcs[step.t].b, Apply(s, step);
      && s.bufs[b].mapped && s'.bufs[b].mapped && !s'.bufs[b].detached
      && s'.bufs[b].scope == s.pcs[step.t].after
      && forall c :: 0 <= c < |s'.bufs| && s'.bufs[c].mapped && s'.bufs[c].name == s'.bufs[b].name ==> c == b
  {
    hide SizeSum, WellFormed, IsMapped, BufLocksExclusive, ShardLocksExclusive, DetachedOnlyInBulk, RoomToRecreate;
    assert PointerOk(s.bufs, s.pcs[step.t]);
  }

  /** A buffer that is detached yet still mapped is touched by nobody but the operation detaching it. */
  lemma {:induction false} OnlyTheDetacherTouches(s: State, step: Step, b: nat)
    requires Safe(s) && Enabled(s, step) && b < |s.bufs| && s.bufs[b].detached && Changed(s, step) == Some(b)
    ensures step.BulkDetach?
  {
    hide SizeSum, WellFormed, PlanOf, Remove, Sum, CanReserve, IsMapped, NamesUnique, BufLocksExclusive, FreshFor,
      BufFree, ShardLocksExclusive, BufsOk, GoodBatch;
    assert PointerOk(s.bufs, s.pcs[step.t]);
    if s.bufs[b].mapped {
      var u :| 0 <= u < |s.pcs| && s.pcs[u].Detaching?;
      assert forall n :: HoldsShard(s.shardOf, s.pcs[u], n);
      if u != step.t {
        OnlyDetacher(s, u, step.t);
      }
    }
  }

  /** No step changes the items of a detached buffer or moves the counters on its account: the only
      step that still touches one sets the flag again. */
  lemma {:induction false} DetachedIsFrozen(s: State, step: Step, b: nat)
    requires Safe(s) && Enabled(s, step) && b < |s.bufs| && s.bufs[b].detached
    ensures var s' := Apply(s, step);
      b < |s'.bufs| && s'.bufs[b].scope == s.bufs[b].scope && s'.bufs[b].detached
    ensures Changed(s, step) == Some(b) ==> step.BulkDetach? && Apply(s, step).total == s.total
    ensures step.ReserveOk? || step.Commit? ==> s.pcs[step.t].b != b
  {
    hide SizeSum, WellFormed, PlanOf, Remove, Sum, CanReserve, IsMapped, NamesUnique, BufLocksExclusive, FreshFor,
      BufFree, ShardLocksExclusive, BufsOk, LockedOk, GoodBatch, ShardFree;
    assert PointerOk(s.bufs, s.pcs[step.t]);
    if Changed(s, step) == Some(b) {
      OnlyTheDetacherTouches(s, step, b);
    } else if step.BulkSwap? {
      SwapLeavesDetached(s, step);
    } else {
      BufsAfter(s, step);
    }
  }

  /** Over a whole run: from the moment a buffer is detached its items never change again. */
  lemma {:induction false} DetachedForever(states: seq<State>, steps: seq<Step>, i: nat, j: nat, b: nat)
    requires IsRun(states, steps) && i <= j < |states|
    requires b < |states[i].bufs| && states[i].bufs[b].detached
    ensures b < |states[j].bufs| && states[j].bufs[b].detached && states[j].bufs[b].scope == states[i].bufs[b].scope
  {
    hide Safe, Balanced, Enabled, Apply, Booted;
    if i < j {
      DetachedForever(states, steps, i, j - 1, b);
      RunIsSafe(states, steps, j - 1);
      DetachedIsFrozen(states[j - 1], steps[j - 1], b);
    }
  }
}
