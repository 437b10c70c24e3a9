/** The store as a set of threads taking atomic steps. A step touches the shared byte counter at
    most once; everything else it does is protected by a shard lock or a buffer lock that the
    program counters say who holds. Buffer pointers may be stale: threads keep them across
    deletes, wipes and rebuilds. */
module Protocol {
  import opened Types
  import opened ScopeSpec

  /** A buffer some thread can point to. `mapped` says its shard map holds it under its name. */
  datatype Buf = Buf(name: string, scope: Scope, mapped: bool, detached: bool)

  datatype Batched = Batched(name: string, built: Scope)
  datatype Snap = Snap(was: int, isNew: bool)

  datatype Pc =
    | Idle
    | Holding(b: nat, created: bool)
    | Writing(b: nat, created: bool, delta: int, after: Scope)
    | Reserved(b: nat, delta: int, after: Scope)
    | RollingBack(b: nat)
    | Creating(name: string)
    | Snapping(plans: seq<Batched>, snaps: seq<Snap>)
    | Committing(plans: seq<Batched>, snaps: seq<Snap>, done: nat, newScopes: nat)
    | Detaching(built: seq<Batched>)
    | Recreating(left: nat)

  datatype State = State(
    cfg: Config, codec: Codec, shardOf: string -> nat,
    bufs: seq<Buf>, pcs: seq<Pc>, total: int, items: int, scopes: int)

  datatype Step =
    | Lookup(t: nat, found: nat)
    | CreateReserve(t: nat, scope: string)
    | CreateInsert(t: nat)
    | Abandon(t: nat)
    | BeginWrite(t: nat, w: Write, now: int, minted: Uuid)
    | RefuseWrite(t: nat, w: Write, now: int, minted: Uuid)
    | ReserveOk(t: nat)
    | ReserveFail(t: nat)
    | Commit(t: nat)
    | RemoveItems(t: nat, r: Removal)
    | Rollback(t: nat)
    | DeleteScope(t: nat, target: nat)
    | WarmLock(t: nat, batch: seq<Batched>)
    | WarmSnap(t: nat, at: Option<nat>)
    | WarmReserve(t: nat)
    | WarmFail(t: nat)
    | WarmCommit(t: nat, at: Option<nat>)
    | WarmDone(t: nat)
    | BulkLock(t: nat, batch: seq<Batched>)
    | BulkDetach(t: nat, target: nat)
    | BulkSwap(t: nat)
    | BulkCreate(t: nat)
    | BulkDone(t: nat)

  // ---------- Sums ----------

  function Sum<T>(xs: seq<T>, f: T -> int): int {
    if xs == [] then 0 else f(xs[0]) + Sum(xs[1..], f)
  }

  lemma {:induction false} SumConcat<T>(a: seq<T>, b: seq<T>, f: T -> int)
    ensures Sum(a + b, f) == Sum(a, f) + Sum(b, f)
  {
    if a == [] {
      assert a + b == b;
    } else {
      SumConcat(a[1..], b, f);
      assert (a + b)[1..] == a[1..] + b;
    }
  }

  lemma {:induction false} SumUpdate<T>(xs: seq<T>, i: nat, x: T, f: T -> int)
    requires i < |xs|
    ensures Sum(xs[i := x], f) == Sum(xs, f) - f(xs[i]) + f(x)
  {
    if i == 0 {
      assert xs[i := x][1..] == xs[1..];
    } else {
      SumUpdate(xs[1..], i - 1, x, f);
      assert xs[i := x][1..] == xs[1..][i - 1 := x];
    }
  }

  lemma {:induction false} SumPush<T>(xs: seq<T>, x: T, f: T -> int)
    ensures Sum(xs + [x], f) == Sum(xs, f) + f(x)
  {
    SumConcat(xs, [x], f);
    assert Sum([x], f) == f(x) + Sum([x][1..], f);
  }

  lemma {:induction false} SumZero<T>(xs: seq<T>, f: T -> int)
    requires forall i :: 0 <= i < |xs| ==> f(xs[i]) == 0
    ensures Sum(xs, f) == 0
  {
    if xs != [] {
      assert forall i :: 0 <= i < |xs[1..]| ==> xs[1..][i] == xs[i + 1];
      SumZero(xs[1..], f);
    }
  }

  function ScopeBytes(s: Scope): nat { SizeSum(s.items) }

  /** What a buffer contributes to the three store counters. */
  function Charge(b: Buf): int { if b.mapped then ScopeBytes(b.scope) + SCOPE_OVERHEAD else 0 }
  function ItemsOf(b: Buf): int { if b.mapped then |b.scope.items| else 0 }
  function One(b: Buf): int { if b.mapped then 1 else 0 }

  function PlanCharge(p: Batched): int { ScopeBytes(p.built) + SCOPE_OVERHEAD }
  function PlanItems(p: Batched): int { |p.built.items| }

  /** What a warm batch has reserved for the plans from `i` on. */
  function Pending(plans: seq<Batched>, snaps: seq<Snap>, i: nat): int
    requires |snaps| == |plans|
    decreases |plans| - i
  {
    if i >= |plans| then 0
    else
      ScopeBytes(plans[i].built) - snaps[i].was + (if snaps[i].isNew then SCOPE_OVERHEAD else 0)
      + Pending(plans, snaps, i + 1)
  }

  /** The bytes a thread has reserved for a change it has not made yet. */
  function Ledger(pc: Pc): int {
    match pc
    case Reserved(_, delta, _) => delta
    case Creating(_) => SCOPE_OVERHEAD
    case Committing(plans, snaps, done, _) => if |snaps| == |plans| then Pending(plans, snaps, done) else 0
    case _ => 0
  }

  /** New scopes a warm batch has inserted but not yet counted. */
  function Uncounted(pc: Pc): int {
    if pc.Committing? then pc.newScopes else 0
  }

  // ---------- Who holds what ----------

  predicate LocksBuf(pc: Pc, b: nat) {
    (pc.Writing? && pc.b == b) || (pc.Reserved? && pc.b == b)
  }

  predicate BufFree(s: State, b: nat) {
    forall t :: 0 <= t < |s.pcs| ==> !LocksBuf(s.pcs[t], b)
  }

  predicate PlansCover(shardOf: string -> nat, plans: seq<Batched>, name: string) {
    exists i :: 0 <= i < |plans| && shardOf(plans[i].name) == shardOf(name)
  }

  /** The thread holds the write lock of the shard that `name` belongs to. */
  predicate HoldsShard(shardOf: string -> nat, pc: Pc, name: string) {
    match pc
    case Creating(n) => shardOf(n) == shardOf(name)
    case Snapping(plans, _) => PlansCover(shardOf, plans, name)
    case Committing(plans, _, _, _) => PlansCover(shardOf, plans, name)
    case Detaching(_) => true
    case Recreating(_) => true
    case _ => false
  }

  predicate ShardFree(s: State, name: string) {
    forall t :: 0 <= t < |s.pcs| ==> !HoldsShard(s.shardOf, s.pcs[t], name)
  }

  predicate IsMapped(bufs: seq<Buf>, name: string) {
    exists b :: 0 <= b < |bufs| && bufs[b].mapped && bufs[b].name == name
  }

  predicate MappedAt(bufs: seq<Buf>, name: string, at: Option<nat>) {
    match at
    case Some(b) => b < |bufs| && bufs[b].mapped && bufs[b].name == name
    case None => !IsMapped(bufs, name)
  }

  function EnvFor(s: State, name: string, now: int, minted: Uuid): Env {
    Env(s.codec, true, s.cfg.MaxItemsFor(name), s.cfg.MaxItemBytesFor(name), now, minted)
  }

  predicate DistinctNames(plans: seq<Batched>) {
    forall i, j :: 0 <= i < j < |plans| ==> plans[i].name != plans[j].name
  }

  predicate GoodBatch(plans: seq<Batched>) {
    && DistinctNames(plans)
    && forall i :: 0 <= i < |plans| ==> !IsReserved(plans[i].name) && WellFormed(plans[i].built)
  }

  // ---------- Steps ----------

  predicate Enabled(s: State, step: Step) {
    step.t < |s.pcs| &&
    var pc := s.pcs[step.t];
    match step
    case Lookup(t, b) => pc.Idle? && b < |s.bufs| && s.bufs[b].mapped && ShardFree(s, s.bufs[b].name)
    case CreateReserve(t, name) =>
      pc.Idle? && ShardFree(s, name) && !IsMapped(s.bufs, name)
        && CanReserve(s.total, s.cfg.maxStoreBytes, SCOPE_OVERHEAD)
    case CreateInsert(t) => pc.Creating?
    case Abandon(t) => pc.Holding?
    case BeginWrite(t, w, now, minted) =>
      pc.Holding? && pc.b < |s.bufs| && BufFree(s, pc.b) && !s.bufs[pc.b].detached &&
      var env := EnvFor(s, s.bufs[pc.b].name, now, minted);
      FreshFor(s.bufs[pc.b].scope, w, env) && PlanOf(s.bufs[pc.b].scope, w, env).Ready?
    case RefuseWrite(t, w, now, minted) =>
      pc.Holding? && pc.b < |s.bufs| && BufFree(s, pc.b) &&
      (s.bufs[pc.b].detached || !PlanOf(s.bufs[pc.b].scope, w, EnvFor(s, s.bufs[pc.b].name, now, minted)).Ready?)
    case ReserveOk(t) => pc.Writing? && CanReserve(s.total, s.cfg.maxStoreBytes, pc.delta)
    case ReserveFail(t) => pc.Writing? && !CanReserve(s.total, s.cfg.maxStoreBytes, pc.delta)
    case Commit(t) => pc.Reserved? && pc.b < |s.bufs|
    case RemoveItems(t, r) => pc.Holding? && pc.b < |s.bufs| && BufFree(s, pc.b) && !s.bufs[pc.b].detached
    case Rollback(t) => pc.RollingBack? && pc.b < |s.bufs| && ShardFree(s, s.bufs[pc.b].name) && BufFree(s, pc.b)
    case DeleteScope(t, b) =>
      pc.Idle? && b < |s.bufs| && s.bufs[b].mapped && !IsReserved(s.bufs[b].name) && ShardFree(s, s.bufs[b].name)
        && BufFree(s, b)
    case WarmLock(t, batch) => pc.Idle? && GoodBatch(batch)
      && forall i :: 0 <= i < |batch| ==> ShardFree(s, batch[i].name)
    case WarmSnap(t, at) =>
      pc.Snapping? && |pc.snaps| < |pc.plans| && MappedAt(s.bufs, pc.plans[|pc.snaps|].name, at)
        && (at.Some? ==> BufFree(s, at.value))
    case WarmReserve(t) =>
      pc.Snapping? && |pc.snaps| == |pc.plans|
      && CanReserve(s.total, s.cfg.maxStoreBytes, Pending(pc.plans, pc.snaps, 0))
    case WarmFail(t) =>
      pc.Snapping? && |pc.snaps| == |pc.plans|
      && !CanReserve(s.total, s.cfg.maxStoreBytes, Pending(pc.plans, pc.snaps, 0))
    case WarmCommit(t, at) =>
      pc.Committing? && pc.done < |pc.plans| == |pc.snaps| && MappedAt(s.bufs, pc.plans[pc.done].name, at)
        && (at.Some? ==> BufFree(s, at.value))
    case WarmDone(t) => pc.Committing? && pc.done == |pc.plans|
    case BulkLock(t, batch) =>
      pc.Idle? && GoodBatch(batch) && Sum(batch, PlanCharge) + RESERVED_OVERHEAD <= s.cfg.maxStoreBytes
      && (forall u :: 0 <= u < |s.pcs| ==> !HoldsAnyShard(s.pcs[u]))
    case BulkDetach(t, b) => pc.Detaching? && b < |s.bufs| && s.bufs[b].mapped && BufFree(s, b)
    case BulkSwap(t) => pc.Detaching? && forall b :: 0 <= b < |s.bufs| && s.bufs[b].mapped ==> s.bufs[b].detached
    case BulkCreate(t) => pc.Recreating? && 0 < pc.left <= |RESERVED|
    case BulkDone(t) => pc.Recreating? && pc.left == 0
  }

  predicate HoldsAnyShard(pc: Pc) {
    || pc.Creating? || pc.Detaching? || pc.Recreating?
    || ((pc.Snapping? || pc.Committing?) && pc.plans != [])
  }

  /** A name whose shard a lock-holding thread certainly holds. */
  function SomeHeldName(pc: Pc): string {
    match pc
    case Creating(n) => n
    case Snapping(plans, _) => if plans == [] then "" else plans[0].name
    case Committing(plans, _, _, _) => if plans == [] then "" else plans[0].name
    case _ => ""
  }

  function At(s: State, t: nat, pc: Pc): State
    requires t < |s.pcs|
  {
    s.(pcs := s.pcs[t := pc])
  }

  function SetBuf(s: State, b: nat, buf: Buf): State
    requires b < |s.bufs|
  {
    s.(bufs := s.bufs[b := buf])
  }

  function AddBuf(s: State, name: string, built: Scope): State {
    s.(bufs := s.bufs + [Buf(name, built, true, false)])
  }

  function Unmapped(bufs: seq<Buf>): seq<Buf> {
    seq(|bufs|, i requires 0 <= i < |bufs| => bufs[i].(mapped := false))
  }

  function NewBufs(batch: seq<Batched>): seq<Buf> {
    seq(|batch|, i requires 0 <= i < |batch| => Buf(batch[i].name, batch[i].built, true, false))
  }

  /** A failed write gives up, or goes on to roll back the scope it created for nothing. */
  function GaveUp(pc: Pc): Pc
    requires pc.Holding? || pc.Writing?
  {
    if pc.created then RollingBack(pc.b) else Idle
  }

  function Apply(s: State, step: Step): State
    requires Enabled(s, step)
  {
    var t, pc := step.t, s.pcs[step.t];
    match step
    case Lookup(_, b) => At(s, t, Holding(b, false))
    case CreateReserve(_, name) => At(s, t, Creating(name)).(total := s.total + SCOPE_OVERHEAD)
    case CreateInsert(_) => AddBuf(At(s, t, Holding(|s.bufs|, true)), pc.name, EMPTY_SCOPE).(scopes := s.scopes + 1)
    case Abandon(_) => At(s, t, Idle)
    case BeginWrite(_, w, now, minted) =>
      var p := PlanOf(s.bufs[pc.b].scope, w, EnvFor(s, s.bufs[pc.b].name, now, minted));
      At(s, t, Writing(pc.b, pc.created, p.delta, p.after))
    case RefuseWrite(_, w, now, minted) => At(s, t, GaveUp(pc))
    case ReserveOk(_) => At(s, t, Reserved(pc.b, pc.delta, pc.after)).(total := s.total + pc.delta)
    case ReserveFail(_) => At(s, t, GaveUp(pc))
    case Commit(_) =>
      var buf := s.bufs[pc.b];
      SetBuf(At(s, t, Idle), pc.b, buf.(scope := pc.after)).(items := s.items + |pc.after.items| - |buf.scope.items|)
    case RemoveItems(_, r) =>
      var buf := s.bufs[pc.b];
      var rest := Remove(buf.scope, r);
      SetBuf(At(s, t, Idle), pc.b, buf.(scope := rest)).(
        total := s.total + ScopeBytes(rest) - ScopeBytes(buf.scope),
        items := s.items + |rest.items| - |buf.scope.items|)
    case Rollback(_) =>
      var buf := s.bufs[pc.b];
      if buf.mapped && buf.scope.items == [] then
        SetBuf(At(s, t, Idle), pc.b, buf.(mapped := false, detached := true)).(
          total := s.total - SCOPE_OVERHEAD, scopes := s.scopes - 1)
      else At(s, t, Idle)
    case DeleteScope(_, b) =>
      var buf := s.bufs[b];
      SetBuf(s, b, buf.(mapped := false, detached := true)).(
        total := s.total - (ScopeBytes(buf.scope) + SCOPE_OVERHEAD),
        items := s.items - |buf.scope.items|, scopes := s.scopes - 1)
    case WarmLock(_, batch) => At(s, t, Snapping(batch, []))
    case WarmSnap(_, at) =>
      var snap := if at.Some? then Snap(ScopeBytes(s.bufs[at.value].scope), false) else Snap(0, true);
      At(s, t, Snapping(pc.plans, pc.snaps + [snap]))
    case WarmReserve(_) =>
      At(s, t, Committing(pc.plans, pc.snaps, 0, 0)).(total := s.total + Pending(pc.plans, pc.snaps, 0))
    case WarmFail(_) => At(s, t, Idle)
    case WarmCommit(_, at) =>
      var plan := pc.plans[pc.done];
      if at.Some? then
        var buf := s.bufs[at.value];
        SetBuf(At(s, t, pc.(done := pc.done + 1)), at.value, buf.(scope := plan.built)).(
          total := s.total - (ScopeBytes(buf.scope) - pc.snaps[pc.done].was),
          items := s.items + |plan.built.items| - |buf.scope.items|)
      else
        AddBuf(At(s, t, pc.(done := pc.done + 1, newScopes := pc.newScopes + 1)), plan.name, plan.built).(
          items := s.items + |plan.built.items|)
    case WarmDone(_) => At(s, t, Idle).(scopes := s.scopes + pc.newScopes)
    case BulkLock(_, batch) => At(s, t, Detaching(batch))
    case BulkDetach(_, b) => SetBuf(s, b, s.bufs[b].(detached := true))
    case BulkSwap(_) =>
      At(s, t, Recreating(|RESERVED|)).(
        bufs := Unmapped(s.bufs) + NewBufs(pc.built),
        total := Sum(pc.built, PlanCharge), items := Sum(pc.built, PlanItems), scopes := |pc.built|)
    case BulkCreate(_) =>
      AddBuf(At(s, t, Recreating(pc.left - 1)), RESERVED[|RESERVED| - pc.left], EMPTY_SCOPE).(
        total := s.total + SCOPE_OVERHEAD, scopes := s.scopes + 1)
    case BulkDone(_) => At(s, t, Idle)
  }

  // ---------- The invariant ----------

  /** The buffer pointer a thread keeps, if any. */
  function Pointer(pc: Pc): Option<nat> {
    match pc
    case Holding(b, _) => Some(b)
    case Writing(b, _, _, _) => Some(b)
    case Reserved(b, _, _) => Some(b)
    case RollingBack(b) => Some(b)
    case _ => None
  }

  predicate PointsNowhereLive(bufs: seq<Buf>, pc: Pc) {
    var p := Pointer(pc);
    p.Some? ==> p.value < |bufs| && bufs[p.value].detached
  }

  /** Pointers are to buffers that exist; a locked buffer is live and still what the plan was made from. */
  predicate PointerOk(bufs: seq<Buf>, pc: Pc) {
    match pc
    case Holding(b, _) => b < |bufs|
    case RollingBack(b) => b < |bufs|
    case Writing(b, _, delta, after) =>
      b < |bufs| && !bufs[b].detached && WellFormed(after) && ScopeBytes(after) == ScopeBytes(bufs[b].scope) + delta
    case Reserved(b, delta, after) =>
      b < |bufs| && !bufs[b].detached && WellFormed(after) && ScopeBytes(after) == ScopeBytes(bufs[b].scope) + delta
    case _ => true
  }

  /** A snapshot still knows whether its scope exists: nobody else could map or unmap the name. */
  ghost predicate SnapOk(s: State, plan: Batched, snap: Snap) {
    (snap.isNew <==> !IsMapped(s.bufs, plan.name)) && (snap.isNew ==> snap.was == 0)
  }

  ghost predicate LockedOk(s: State, pc: Pc) {
    match pc
    case Creating(name) => !IsMapped(s.bufs, name)
    case Snapping(plans, snaps) =>
      GoodBatch(plans) && |snaps| <= |plans| && forall i :: 0 <= i < |snaps| ==> SnapOk(s, plans[i], snaps[i])
    case Committing(plans, snaps, done, newScopes) =>
      GoodBatch(plans) && done <= |plans| == |snaps| && newScopes <= done
        && forall i :: done <= i < |snaps| ==> SnapOk(s, plans[i], snaps[i])
    case Detaching(built) => GoodBatch(built) && Sum(built, PlanCharge) + RESERVED_OVERHEAD <= s.cfg.maxStoreBytes
    case Recreating(left) =>
      && left <= |RESERVED|
      && (forall j :: |RESERVED| - left <= j < |RESERVED| ==> !IsMapped(s.bufs, RESERVED[j]))
      && (forall u :: 0 <= u < |s.pcs| ==> PointsNowhereLive(s.bufs, s.pcs[u]))
    case _ => true
  }

  predicate BufsOk(bufs: seq<Buf>) {
    forall b :: 0 <= b < |bufs| ==> WellFormed(bufs[b].scope) && (bufs[b].detached || bufs[b].mapped)
  }

  predicate NamesUnique(bufs: seq<Buf>) {
    forall a, b :: 0 <= a < b < |bufs| && bufs[a].mapped && bufs[b].mapped ==> bufs[a].name != bufs[b].name
  }

  ghost predicate BufLocksExclusive(pcs: seq<Pc>) {
    forall t, u, b :: 0 <= t < u < |pcs| && LocksBuf(pcs[t], b) ==> !LocksBuf(pcs[u], b)
  }

  ghost predicate ShardLocksExclusive(shardOf: string -> nat, pcs: seq<Pc>) {
    forall t, u, n :: 0 <= t < |pcs| && 0 <= u < |pcs| && t != u && HoldsShard(shardOf, pcs[t], n) ==>
      !HoldsShard(shardOf, pcs[u], n)
  }

  ghost predicate PcsOk(s: State) {
    forall t :: 0 <= t < |s.pcs| ==> PointerOk(s.bufs, s.pcs[t]) && LockedOk(s, s.pcs[t])
  }

  /** A buffer is both mapped and detached only while a wipe or rebuild is under way. */
  predicate DetachedOnlyInBulk(bufs: seq<Buf>, pcs: seq<Pc>) {
    (exists b :: 0 <= b < |bufs| && bufs[b].mapped && bufs[b].detached) ==>
      exists t :: 0 <= t < |pcs| && pcs[t].Detaching?
  }

  /** While the reserved scopes are being re-created there is room for those still missing. */
  predicate RoomToRecreate(s: State) {
    forall t :: 0 <= t < |s.pcs| && s.pcs[t].Recreating? ==>
      s.total + SCOPE_OVERHEAD * s.pcs[t].left <= s.cfg.maxStoreBytes
  }

  ghost predicate Safe(s: State) {
    && s.cfg.Sane()
    && DetachedOnlyInBulk(s.bufs, s.pcs)
    && RoomToRecreate(s)
    && BufsOk(s.bufs) && NamesUnique(s.bufs)
    && BufLocksExclusive(s.pcs) && ShardLocksExclusive(s.shardOf, s.pcs)
    && PcsOk(s)
  }

  /** The store counters are exact once the ledger of reserved but uncommitted changes is added. */
  predicate Balanced(s: State) {
    && s.total == Sum(s.bufs, Charge) + Sum(s.pcs, Ledger)
    && s.items == Sum(s.bufs, ItemsOf)
    && s.scopes + Sum(s.pcs, Uncounted) == Sum(s.bufs, One)
  }

  // ---------- Runs ----------

  /** A store just booted: the two reserved scopes, empty, and no thread in the middle of anything. */
  predicate Booted(s: State) {
    && s.cfg.Sane()
    && s.bufs == [Buf(EVENTS, EMPTY_SCOPE, true, false), Buf(INBOX, EMPTY_SCOPE, true, false)]
    && (forall t :: 0 <= t < |s.pcs| ==> s.pcs[t] == Idle)
    && s.total == RESERVED_OVERHEAD && s.items == 0 && s.scopes == |RESERVED|
  }

  ghost predicate IsRun(states: seq<State>, steps: seq<Step>) {
    && |states| == |steps| + 1
    && Booted(states[0])
    && forall i :: 0 <= i < |steps| ==> Enabled(states[i], steps[i]) && states[i + 1] == Apply(states[i], steps[i])
  }

  /** A warm commit finds less in the scope than its snapshot did. */
  predicate CommitsShrunkScope(s: State, step: Step)
    requires Enabled(s, step)
  {
    var pc := s.pcs[step.t];
    step.WarmCommit? && step.at.Some? && ScopeBytes(s.bufs[step.at.value].scope) < pc.snaps[pc.done].was
  }

  predicate MidFlight(pc: Pc) {
    pc.Reserved? || pc.Creating? || pc.Committing?
  }
}
