/** A thread that nobody races with: its steps, one after the other, bring the store exactly where the
    specification of the whole operation says, creation and rollback of scopes included. */
module ProtocolAlone {
  import opened Types
  import opened ScopeSpec
  import opened Protocol
  import StoreSpec
  import StoreLaws

  ghost predicate Reaches(s: State, steps: seq<Step>, s': State)
    decreases |steps|
  {
    if steps == [] then s' == s
    else Enabled(s, steps[0]) && Reaches(Apply(s, steps[0]), steps[1..], s')
  }

  lemma {:induction false} ReachOn(a: State, xs: seq<Step>, b: State, ys: seq<Step>, c: State)
    requires Reaches(a, xs, b) && Reaches(b, ys, c)
    ensures Reaches(a, xs + ys, c)
    decreases |xs|
  {
    hide Enabled, Apply;
    if xs == [] {
      assert xs + ys == ys;
    } else {
      ReachOn(Apply(a, xs[0]), xs[1..], b, ys, c);
      assert (xs + ys)[1..] == xs[1..] + ys;
    }
  }

  lemma OneStep(s: State, step: Step)
    requires Enabled(s, step)
    ensures Reaches(s, [step], Apply(s, step))
  {
    hide Enabled, Apply;
    assert [step][1..] == [];
    assert Reaches(Apply(s, step), [], Apply(s, step));
  }

  predicate AllIdle(s: State) {
    forall t :: 0 <= t < |s.pcs| ==> s.pcs[t] == Idle
  }

  /** The mapped buffers are the scopes of the store, each under its name, and the counters agree. */
  ghost predicate Shows(s: State, m: StoreSpec.Mem) {
    && s.cfg == m.cfg && s.codec == m.codec && s.total == m.total && s.items == m.items && s.scopes == m.count
    && NamesUnique(s.bufs)
    && (forall b :: 0 <= b < |s.bufs| && s.bufs[b].mapped ==>
         !s.bufs[b].detached && s.bufs[b].name in m.scopes && m.scopes[s.bufs[b].name] == s.bufs[b].scope)
    && (forall n :: n in m.scopes ==> IsMapped(s.bufs, n))
  }

  lemma Mapped(s: State, m: StoreSpec.Mem, n: string) returns (b: nat)
    requires Shows(s, m) && n in m.scopes
    ensures b < |s.bufs| && s.bufs[b].mapped && !s.bufs[b].detached && s.bufs[b].name == n
    ensures s.bufs[b].scope == m.scopes[n]
  {
    b :| 0 <= b < |s.bufs| && s.bufs[b].mapped && s.bufs[b].name == n;
  }

  // ---------- Writing to a buffer the thread holds ----------

  /** The thread holds buffer `b`, and no other thread is doing anything. */
  predicate Alone(s: State, t: nat, b: nat, created: bool) {
    && t < |s.pcs| && s.pcs[t] == Holding(b, created) && (forall u :: 0 <= u < |s.pcs| && u != t ==> s.pcs[u] == Idle)
    && b < |s.bufs| && !s.bufs[b].detached
  }

  function PlanHeld(s: State, b: nat, w: Write, now: int, minted: Uuid): Plan
    requires b < |s.bufs|
  {
    PlanOf(s.bufs[b].scope, w, EnvFor(s, s.bufs[b].name, now, minted))
  }

  function Done(s: State, t: nat, b: nat, p: Plan): State
    requires t < |s.pcs| && b < |s.bufs| && p.Ready?
  {
    s.(pcs := s.pcs[t := Idle], bufs := s.bufs[b := s.bufs[b].(scope := p.after)], total := s.total + p.delta,
       items := s.items + |p.after.items| - |s.bufs[b].scope.items|)
  }

  lemma {:induction false} HeldWrite(s: State, t: nat, b: nat, created: bool, w: Write, now: int, minted: Uuid)
    returns (steps: seq<Step>, s': State)
    requires Alone(s, t, b, created) && FreshFor(s.bufs[b].scope, w, EnvFor(s, s.bufs[b].name, now, minted))
    ensures Reaches(s, steps, s')
    ensures var p := PlanHeld(s, b, w, now, minted);
      s' == if p.Ready? && CanReserve(s.total, s.cfg.maxStoreBytes, p.delta) then Done(s, t, b, p)
            else At(s, t, if created then RollingBack(b) else Idle)
  {
    hide PlanOf, FreshFor, CanReserve, EnvFor, WellFormed, Apply, Reaches;
    var p := PlanHeld(s, b, w, now, minted);
    if !p.Ready? {
      var step := RefuseWrite(t, w, now, minted);
      steps, s' := [step], At(s, t, if created then RollingBack(b) else Idle);
      Refuses(s, t, b, created, step);
    } else {
      var begin := BeginWrite(t, w, now, minted);
      var s1 := At(s, t, Writing(b, created, p.delta, p.after));
      Begins(s, t, b, created, begin);
      var more;
      more, s' := Settles(s, t, b, created, p);
      steps := [begin] + more;
      ReachOn(s, [begin], s1, more, s');
    }
  }

  lemma Refuses(s: State, t: nat, b: nat, created: bool, step: Step)
    requires Alone(s, t, b, created) && step.RefuseWrite? && step.t == t && Enabled(s, step)
    ensures Reaches(s, [step], At(s, t, if created then RollingBack(b) else Idle))
  {
    hide PlanOf, FreshFor, CanReserve, EnvFor, WellFormed;
    OneStep(s, step);
  }

  lemma Begins(s: State, t: nat, b: nat, created: bool, step: Step)
    requires Alone(s, t, b, created) && step.BeginWrite? && step.t == t && Enabled(s, step)
    ensures var p := PlanHeld(s, b, step.w, step.now, step.minted);
      p.Ready? && Reaches(s, [step], At(s, t, Writing(b, created, p.delta, p.after)))
  {
    hide PlanOf, FreshFor, CanReserve, EnvFor, WellFormed;
    OneStep(s, step);
  }

  lemma {:induction false} Settles(s: State, t: nat, b: nat, created: bool, p: Plan)
    returns (steps: seq<Step>, s': State)
    requires Alone(s, t, b, created) && p.Ready?
    ensures Reaches(At(s, t, Writing(b, created, p.delta, p.after)), steps, s')
    ensures s' == if CanReserve(s.total, s.cfg.maxStoreBytes, p.delta) then Done(s, t, b, p)
                  else At(s, t, if created then RollingBack(b) else Idle)
  {
    hide CanReserve, PlanOf;
    var s1 := At(s, t, Writing(b, created, p.delta, p.after));
    if CanReserve(s.total, s.cfg.maxStoreBytes, p.delta) {
      hide *;
      steps, s' := [ReserveOk(t)] + [Commit(t)], Done(s, t, b, p);
      var s2 := Reserves(s, t, b, created, p);
      Commits(s, t, b, created, p, s2);
      ReachOn(s1, [ReserveOk(t)], s2, [Commit(t)], s');
    } else {
      s' := At(s, t, if created then RollingBack(b) else Idle);
      steps := [ReserveFail(t)];
      assert s1.pcs[t := s'.pcs[t]] == s'.pcs;
      OneStep(s1, ReserveFail(t));
    }
  }

  lemma Reserves(s: State, t: nat, b: nat, created: bool, p: Plan) returns (s2: State)
    requires Alone(s, t, b, created) && p.Ready? && CanReserve(s.total, s.cfg.maxStoreBytes, p.delta)
    ensures s2 == At(s, t, Reserved(b, p.delta, p.after)).(total := s.total + p.delta)
    ensures Reaches(At(s, t, Writing(b, created, p.delta, p.after)), [ReserveOk(t)], s2)
  {
    hide CanReserve, PlanOf;
    var s1 := At(s, t, Writing(b, created, p.delta, p.after));
    s2 := At(s, t, Reserved(b, p.delta, p.after)).(total := s.total + p.delta);
    assert s1.pcs[t := s2.pcs[t]] == s2.pcs;
    OneStep(s1, ReserveOk(t));
  }

  lemma Commits(s: State, t: nat, b: nat, created: bool, p: Plan, s2: State)
    requires Alone(s, t, b, created) && p.Ready?
    requires s2 == At(s, t, Reserved(b, p.delta, p.after)).(total := s.total + p.delta)
    ensures Reaches(s2, [Commit(t)], Done(s, t, b, p))
  {
    assert s2.pcs[t := Idle] == s.pcs[t := Idle];
    OneStep(s2, Commit(t));
  }

  // ---------- Writing to a scope ----------

  lemma {:induction false} Committed(s: State, m: StoreSpec.Mem, t: nat, b: nat, p: Plan)
    requires Shows(s, m) && t < |s.pcs| && b < |s.bufs| && s.bufs[b].mapped && p.Ready?
    requires SizeSum(p.after.items) == SizeSum(s.bufs[b].scope.items) + p.delta
    ensures Shows(Done(s, t, b, p), StoreSpec.Exchanged(m, s.bufs[b].name, p.after))
  {
    hide SizeSum;
    var s', m' := Done(s, t, b, p), StoreSpec.Exchanged(m, s.bufs[b].name, p.after);
    forall n | n in m'.scopes ensures IsMapped(s'.bufs, n) {
      var c := Mapped(s, m, n);
      assert s'.bufs[c].mapped && s'.bufs[c].name == n;
    }
  }

  lemma AtIdle(s: State, t: nat, pc: Pc)
    requires AllIdle(s) && t < |s.pcs|
    ensures At(At(s, t, pc), t, Idle) == s
  {
    assert s.pcs[t := pc][t := Idle] == s.pcs;
  }

  function PlanAt(m: StoreSpec.Mem, n: string, w: Write, now: int, minted: Uuid): Plan {
    PlanOf(StoreSpec.ScopeAt(m, n), w, StoreSpec.EnvFor(m, n, now, minted))
  }

  /** What the validators and the store invariant give a write. */
  ghost predicate CanWrite(m: StoreSpec.Mem, n: string, w: Write, now: int, minted: Uuid) {
    var s, p := StoreSpec.ScopeAt(m, n), PlanAt(m, n, w, now, minted);
    && FreshFor(s, w, StoreSpec.EnvFor(m, n, now, minted))
    && (p.Ready? ==> SizeSum(p.after.items) == SizeSum(s.items) + p.delta)
  }

  lemma {:induction false} AdmittedCanWrite(m: StoreSpec.Mem, n: string, w: Write, now: int, minted: Uuid)
    requires StoreLaws.Admitted(m, n, w) && StoreSpec.StoreOk(m) && ScopeSpec.Fresh(StoreSpec.ScopeAt(m, n), minted)
    ensures CanWrite(m, n, w, now, minted)
  {
    hide StoreSpec.StoreOk, PlanOf, WellFormed, FreshFor, SizeSum, StoreLaws.Admitted, ScopeSpec.Fresh;
    StoreLaws.AdmittedIsFresh(m, n, w, now, minted);
    StoreLaws.ScopeIsOk(m, n);
    var s, env := StoreSpec.ScopeAt(m, n), StoreSpec.EnvFor(m, n, now, minted);
    if PlanOf(s, w, env).Ready? { WriteIsSound(s, w, env); }
  }

  /** The store after a write, told by its plan. */
  lemma TryWriteIs(m: StoreSpec.Mem, n: string, w: Write, now: int, minted: Uuid)
    ensures var fee, max, p := StoreSpec.CreationFee(m, n), m.cfg.maxStoreBytes, PlanAt(m, n, w, now, minted);
      StoreSpec.TryWrite(m, n, w, now, minted).mem ==
        if CanReserve(m.total, max, fee) && p.Ready? && CanReserve(m.total + fee, max, p.delta)
        then StoreSpec.Exchanged(m, n, p.after) else m
  {
    hide PlanOf, StoreSpec.Exchanged;
  }

  /** The buffer of a stored scope, and the thread holding it. */
  lemma {:induction false} LookUp(s: State, m: StoreSpec.Mem, t: nat, n: string) returns (b: nat, s1: State)
    requires Shows(s, m) && AllIdle(s) && t < |s.pcs| && n in m.scopes
    ensures b < |s.bufs| && s.bufs[b].mapped && s.bufs[b].name == n && s.bufs[b].scope == m.scopes[n]
    ensures s1 == At(s, t, Holding(b, false)) && Alone(s1, t, b, false) && Reaches(s, [Lookup(t, b)], s1)
    ensures s.cfg == m.cfg && s.codec == m.codec && s.total == m.total
  {
    b := Mapped(s, m, n);
    s1 := At(s, t, Holding(b, false));
    OneStep(s, Lookup(t, b));
  }

  lemma SamePlanHeld(s: State, m: StoreSpec.Mem, b: nat, n: string, w: Write, now: int, minted: Uuid)
    requires b < |s.bufs| && s.bufs[b].name == n && s.bufs[b].scope == StoreSpec.ScopeAt(m, n)
    requires s.cfg == m.cfg && s.codec == m.codec
    ensures PlanHeld(s, b, w, now, minted) == PlanAt(m, n, w, now, minted)
    ensures EnvFor(s, n, now, minted) == StoreSpec.EnvFor(m, n, now, minted)
  {
    hide PlanOf;
  }

  lemma {:induction false} WriteToStored(s: State, m: StoreSpec.Mem, t: nat, n: string, w: Write, now: int,
    minted: Uuid) returns (steps: seq<Step>, s': State)
    requires Shows(s, m) && AllIdle(s) && t < |s.pcs| && n in m.scopes && CanWrite(m, n, w, now, minted)
    requires m.total <= m.cfg.maxStoreBytes
    ensures Reaches(s, steps, s') && AllIdle(s') && Shows(s', StoreSpec.TryWrite(m, n, w, now, minted).mem)
  {
    TryWriteIs(m, n, w, now, minted);
    hide PlanOf, FreshFor, SizeSum, StoreSpec.TryWrite, StoreSpec.Exchanged, Enabled, Apply, Shows, Reaches, EnvFor,
      StoreSpec.EnvFor;
    var b, s1 := LookUp(s, m, t, n);
    SamePlanHeld(s, m, b, n, w, now, minted);
    SamePlanHeld(s1, m, b, n, w, now, minted);
    var more;
    more, s' := HeldWrite(s1, t, b, false, w, now, minted);
    steps := [Lookup(t, b)] + more;
    ReachOn(s, [Lookup(t, b)], s1, more, s');
    AtIdle(s, t, Holding(b, false));
    var p := PlanAt(m, n, w, now, minted);
    if p.Ready? && CanReserve(s.total, s.cfg.maxStoreBytes, p.delta) {
      Committed(s, m, t, b, p);
      DoneAlike(s, t, b, p, Holding(b, false));
    }
  }

  lemma DoneAlike(s: State, t: nat, b: nat, p: Plan, pc: Pc)
    requires AllIdle(s) && t < |s.pcs| && b < |s.bufs| && p.Ready?
    ensures Done(At(s, t, pc), t, b, p) == Done(s, t, b, p) && AllIdle(Done(s, t, b, p))
  {
    assert s.pcs[t := pc][t := Idle] == s.pcs[t := Idle] == s.pcs;
  }

  /** A scope just created, empty and held by its creator. */
  lemma {:induction false} CreateScope(s: State, m: StoreSpec.Mem, t: nat, n: string)
    returns (steps: seq<Step>, s': State)
    requires Shows(s, m) && AllIdle(s) && t < |s.pcs| && n !in m.scopes
    requires CanReserve(s.total, s.cfg.maxStoreBytes, SCOPE_OVERHEAD)
    ensures Reaches(s, steps, s') && Alone(s', t, |s.bufs|, true)
    ensures s' == At(s, t, Holding(|s.bufs|, true)).(bufs := s.bufs + [Buf(n, EMPTY_SCOPE, true, false)],
                    total := s.total + SCOPE_OVERHEAD, scopes := s.scopes + 1)
  {
    var s1 := Apply(s, CreateReserve(t, n));
    s' := Apply(s1, CreateInsert(t));
    assert s'.pcs == s.pcs[t := Holding(|s.bufs|, true)];
    OneStep(s, CreateReserve(t, n));
    OneStep(s1, CreateInsert(t));
    ReachOn(s, [CreateReserve(t, n)], s1, [CreateInsert(t)], s');
    steps := [CreateReserve(t, n)] + [CreateInsert(t)];
  }

  /** The store with an empty scope `n`, shown by one more buffer. */
  lemma {:induction false} CreatedShows(s: State, m: StoreSpec.Mem, t: nat, n: string, s1: State)
    requires Shows(s, m) && AllIdle(s) && t < |s.pcs| && n !in m.scopes
    requires s1 == s.(bufs := s.bufs + [Buf(n, EMPTY_SCOPE, true, false)],
                      total := s.total + SCOPE_OVERHEAD, scopes := s.scopes + 1)
    ensures Shows(s1, StoreSpec.Exchanged(m, n, EMPTY_SCOPE))
  {
    hide SizeSum;
    forall k | k in m.scopes ensures IsMapped(s1.bufs, k) {
      var c := Mapped(s, m, k);
      assert s1.bufs[c].mapped && s1.bufs[c].name == k;
    }
    assert s1.bufs[|s.bufs|].mapped && s1.bufs[|s.bufs|].name == n;
  }

  lemma ExchangedTwice(m: StoreSpec.Mem, n: string, after: Scope)
    requires n !in m.scopes
    ensures StoreSpec.Exchanged(StoreSpec.Exchanged(m, n, EMPTY_SCOPE), n, after) == StoreSpec.Exchanged(m, n, after)
  {
    hide SizeSum;
    assert m.scopes[n := EMPTY_SCOPE][n := after] == m.scopes[n := after];
    assert SizeSum(EMPTY_SCOPE.items) == 0 by { StoreLaws.NothingCostsNothing(); }
  }

  /** Taking the empty scope back leaves nothing but a buffer nobody can reach. */
  lemma {:induction false} RollBack(s: State, m: StoreSpec.Mem, t: nat, n: string, s1: State) returns (s': State)
    requires Shows(s, m) && AllIdle(s) && t < |s.pcs|
    requires s1 == s.(pcs := s.pcs[t := RollingBack(|s.bufs|)], bufs := s.bufs + [Buf(n, EMPTY_SCOPE, true, false)],
                      total := s.total + SCOPE_OVERHEAD, scopes := s.scopes + 1)
    ensures Reaches(s1, [Rollback(t)], s') && AllIdle(s') && Shows(s', m)
  {
    s' := Apply(s1, Rollback(t));
    OneStep(s1, Rollback(t));
    assert s'.pcs == s.pcs;
    forall k | k in m.scopes ensures IsMapped(s'.bufs, k) {
      var c := Mapped(s, m, k);
      assert s'.bufs[c] == s.bufs[c];
    }
  }

  lemma {:induction false} WriteToMissing(s: State, m: StoreSpec.Mem, t: nat, n: string, w: Write, now: int,
    minted: Uuid) returns (steps: seq<Step>, s': State)
    requires Shows(s, m) && AllIdle(s) && t < |s.pcs| && n !in m.scopes && CanWrite(m, n, w, now, minted)
    ensures Reaches(s, steps, s') && AllIdle(s') && Shows(s', StoreSpec.TryWrite(m, n, w, now, minted).mem)
  {
    assert s.total == m.total && s.cfg == m.cfg && s.codec == m.codec;
    TryWriteIs(m, n, w, now, minted);
    hide PlanOf, FreshFor, SizeSum, StoreSpec.TryWrite, StoreSpec.Exchanged, Enabled, Apply, Shows, EnvFor,
      StoreSpec.EnvFor;
    if !CanReserve(m.total, m.cfg.maxStoreBytes, SCOPE_OVERHEAD) {
      steps, s' := [], s;
    } else {
      hide Reaches;
      var create, s1 := CreateScope(s, m, t, n);
      var b := |s.bufs|;
      SamePlanHeld(s1, m, b, n, w, now, minted);
      var write, s2 := HeldWrite(s1, t, b, true, w, now, minted);
      ReachOn(s, create, s1, write, s2);
      steps, s' := create + write, s2;
      var p := PlanAt(m, n, w, now, minted);
      if p.Ready? && CanReserve(s1.total, s1.cfg.maxStoreBytes, p.delta) {
        CreatedAndWritten(s, m, t, n, s1, p);
      } else {
        assert s1.pcs[t := RollingBack(b)] == s.pcs[t := RollingBack(b)];
        s' := RollBack(s, m, t, n, s2);
        ReachOn(s, create + write, s2, [Rollback(t)], s');
        steps := (create + write) + [Rollback(t)];
      }
    }
  }

  lemma {:induction false} CreatedAndWritten(s: State, m: StoreSpec.Mem, t: nat, n: string, s1: State, p: Plan)
    requires Shows(s, m) && AllIdle(s) && t < |s.pcs| && n !in m.scopes && p.Ready?
    requires s1 == At(s, t, Holding(|s.bufs|, true)).(bufs := s.bufs + [Buf(n, EMPTY_SCOPE, true, false)],
                      total := s.total + SCOPE_OVERHEAD, scopes := s.scopes + 1)
    requires SizeSum(p.after.items) == SizeSum(EMPTY_SCOPE.items) + p.delta
    ensures var s' := Done(s1, t, |s.bufs|, p); AllIdle(s') && Shows(s', StoreSpec.Exchanged(m, n, p.after))
  {
    hide SizeSum, Shows, StoreSpec.Exchanged;
    var s0 := s.(bufs := s.bufs + [Buf(n, EMPTY_SCOPE, true, false)],
                 total := s.total + SCOPE_OVERHEAD, scopes := s.scopes + 1);
    CreatedShows(s, m, t, n, s0);
    Committed(s0, StoreSpec.Exchanged(m, n, EMPTY_SCOPE), t, |s.bufs|, p);
    ExchangedTwice(m, n, p.after);
    assert s1.pcs[t := Idle] == s0.pcs[t := Idle] == s.pcs;
  }

  /** A write that nobody races with, on whatever scope, refused or not: afterwards the store is the one the
      specification gives, and if a scope was created for nothing it is gone again. */
  lemma {:induction false} WriteAlone(s: State, m: StoreSpec.Mem, t: nat, n: string, w: Write, now: int, minted: Uuid)
    returns (steps: seq<Step>, s': State)
    requires Shows(s, m) && AllIdle(s) && t < |s.pcs|
    requires StoreSpec.StoreOk(m) && StoreLaws.Admitted(m, n, w) && ScopeSpec.Fresh(StoreSpec.ScopeAt(m, n), minted)
    ensures Reaches(s, steps, s') && AllIdle(s') && Shows(s', StoreSpec.TryWrite(m, n, w, now, minted).mem)
  {
    hide *;
    AdmittedCanWrite(m, n, w, now, minted);
    StoreLaws.ScopeIsOk(m, n);
    if n in m.scopes {
      steps, s' := WriteToStored(s, m, t, n, w, now, minted);
    } else {
      steps, s' := WriteToMissing(s, m, t, n, w, now, minted);
    }
  }

  // ---------- Removing ----------

  /** A removal from a stored scope. */
  lemma {:induction false} RemoveAlone(s: State, m: StoreSpec.Mem, t: nat, n: string, r: Removal)
    returns (steps: seq<Step>, s': State)
    requires Shows(s, m) && AllIdle(s) && t < |s.pcs| && n in m.scopes
    ensures Reaches(s, steps, s') && AllIdle(s') && Shows(s', StoreSpec.TryRemove(m, n, r).mem)
  {
    hide Remove, SizeSum, Shows;
    var b, s1 := LookUp(s, m, t, n);
    var rest := Remove(m.scopes[n], r);
    s' := Apply(s1, RemoveItems(t, r));
    OneStep(s1, RemoveItems(t, r));
    ReachOn(s, [Lookup(t, b)], s1, [RemoveItems(t, r)], s');
    steps := [Lookup(t, b)] + [RemoveItems(t, r)];
    var p := Ready(SizeSum(rest.items) - SizeSum(m.scopes[n].items), rest, 0, false);
    Committed(s, m, t, b, p);
    DoneAlike(s, t, b, p, Holding(b, false));
    assert s' == Done(s, t, b, p);
  }

  /** Deleting a stored scope. */
  lemma {:induction false} DeleteScopeAlone(s: State, m: StoreSpec.Mem, t: nat, n: string)
    returns (steps: seq<Step>, s': State)
    requires Shows(s, m) && AllIdle(s) && t < |s.pcs| && n in m.scopes && !IsReserved(n)
    ensures Reaches(s, steps, s') && AllIdle(s') && Shows(s', StoreSpec.Dropped(m, n))
  {
    hide SizeSum, Shows, IsReserved, StoreSpec.Dropped, Reaches;
    var b := Mapped(s, m, n);
    s' := WithoutScope(s, b);
    steps := [DeleteScope(t, b)];
    OneStep(s, DeleteScope(t, b));
    WithoutShows(s, m, b);
  }

  function WithoutScope(s: State, b: nat): State
    requires b < |s.bufs|
  {
    s.(bufs := s.bufs[b := s.bufs[b].(mapped := false, detached := true)],
       total := s.total - (ScopeBytes(s.bufs[b].scope) + SCOPE_OVERHEAD),
       items := s.items - |s.bufs[b].scope.items|, scopes := s.scopes - 1)
  }

  lemma {:induction false} WithoutShows(s: State, m: StoreSpec.Mem, b: nat)
    requires Shows(s, m) && b < |s.bufs| && s.bufs[b].mapped
    ensures Shows(WithoutScope(s, b), StoreSpec.Dropped(m, s.bufs[b].name))
  {
    hide SizeSum;
    var s' := WithoutScope(s, b);
    forall k | k in m.scopes && k != s.bufs[b].name ensures IsMapped(s'.bufs, k) {
      var c := Mapped(s, m, k);
      assert s'.bufs[c] == s.bufs[c];
    }
  }
}
