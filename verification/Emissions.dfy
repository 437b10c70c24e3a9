/** Commits and their events apart: a mutation commits under its scope's lock, and its event is written
    after the lock is released, so other commits, other events and whole wipes can fall in between. */
module Emissions {
  import opened Types
  import opened ScopeSpec
  import opened Validation
  import opened StoreSpec
  import opened StoreLaws
  import opened BulkSpec
  import opened Replay

  /** A thread between operations, or one whose mutation has committed and whose event is still to be
      written. */
  datatype Pc = Resting | Announcing(ev: WriteEvent)

  /** `carried` counts the events that were still to be written when `_events` was last reset, and
      `history` lists the events of the mutations since then in the order of their commits. */
  datatype State = State(mem: Mem, pcs: seq<Pc>, carried: nat, history: seq<WriteEvent>)

  datatype Step =
    | Mutate(t: nat, c: Command, tick: Tick)
    | Replace(t: nat, built: map<string, Scope>, tick: Tick)
    | Announce(t: nat, tick: Tick)
    | Restart(scopes: map<string, Scope>)

  // ---------- Steps ----------

  /** A mutation or its event per step; a wipe or rebuild gives the store a whole new content. */
  ghost predicate Enabled(s: State, step: Step) {
    match step
    case Mutate(t, c, tick) => t < |s.pcs| && s.pcs[t].Resting? && FromClientCommand(c) && FreshTick(s.mem, tick)
    case Replace(t, built, tick) =>
      && t < |s.pcs| && s.pcs[t].Resting? && built != map[]
      && (forall n :: n in built ==> !IsReserved(n) && WellFormed(built[n]) && ItemsFit(s.mem.cfg, n, built[n]))
      && CanReserve(s.mem.total, s.mem.cfg.maxStoreBytes, WithScopes(s.mem, s.mem.scopes + built).total - s.mem.total)
    case Announce(t, tick) =>
      t < |s.pcs| && s.pcs[t].Announcing? && EVENTS in s.mem.scopes && Fresh(s.mem.scopes[EVENTS], tick.eventUuid)
    case Restart(scopes) =>
      && EVENTS in scopes && INBOX in scopes && scopes[EVENTS] == EMPTY_SCOPE
      && (forall n :: n in scopes ==> WellFormed(scopes[n]) && ItemsFit(s.mem.cfg, n, scopes[n]))
      && TotalBytes(scopes) <= s.mem.cfg.maxStoreBytes
  }

  /** The state after a commit: its event is pending unless events are off. */
  function Committed(s: State, t: nat, mem: Mem, ev: WriteEvent): State
    requires t < |s.pcs|
  {
    var counted := mem.(commits := s.mem.commits + 1);
    if mem.cfg.events == Off then s.(mem := counted)
    else s.(mem := counted, pcs := s.pcs[t := Announcing(ev)], history := s.history + [ev])
  }

  ghost function Apply(s: State, step: Step): State
    requires Enabled(s, step)
  {
    match step
    case Mutate(t, c, tick) =>
      var d := Mutation(s.mem, c, tick);
      if d.changed && Target(c) != EVENTS then Committed(s, t, d.mem, EventFor(c, d.item, tick)) else s.(mem := d.mem)
    case Replace(t, built, tick) => Committed(s, t, WithScopes(s.mem, s.mem.scopes + built), WarmEvent(tick.now))
    case Announce(t, tick) => s.(mem := Written(s.mem, s.pcs[t].ev, tick), pcs := s.pcs[t := Resting])
    case Restart(scopes) => State(Reset(s.mem, scopes), s.pcs, PendingIn(s.pcs), [])
  }

  /** How many events are still to be written. */
  function PendingIn(pcs: seq<Pc>): nat {
    if pcs == [] then 0 else (if pcs[0].Announcing? then 1 else 0) + PendingIn(pcs[1..])
  }

  lemma {:induction false} PendingAfter(pcs: seq<Pc>, t: nat, pc: Pc)
    requires t < |pcs|
    ensures PendingIn(pcs[t := pc]) == PendingIn(pcs)
      - (if pcs[t].Announcing? then 1 else 0) + (if pc.Announcing? then 1 else 0)
  {
    if t == 0 {
      assert pcs[t := pc][1..] == pcs[1..];
    } else {
      PendingAfter(pcs[1..], t - 1, pc);
      assert pcs[t := pc][1..] == pcs[1..][t - 1 := pc];
    }
  }

  lemma {:induction false} NothingPending(pcs: seq<Pc>)
    ensures PendingIn(pcs) == 0 <==> forall t :: 0 <= t < |pcs| ==> pcs[t].Resting?
  {
    if pcs != [] {
      NothingPending(pcs[1..]);
      assert pcs == [pcs[0]] + pcs[1..];
    }
  }

  // ---------- The accounts ----------

  /** Events written or dropped since the reset. */
  function Settled(m: Mem): int
    requires EVENTS in m.scopes
  {
    m.scopes[EVENTS].lastSeq + (m.drops - m.dropsBefore)
  }

  /** Every commit since the reset, and every event carried over it, is written, dropped or pending. */
  predicate Accounts(s: State) {
    && Logged(s.mem)
    && (if s.mem.cfg.events == Off then s.carried == 0 && PendingIn(s.pcs) == 0 && Settled(s.mem) == 0
        else s.mem.commits + s.carried == Settled(s.mem) + PendingIn(s.pcs))
  }

  ghost predicate Inv(s: State) {
    StoreOk(s.mem) && Accounts(s) && forall t :: 0 <= t < |s.pcs| && s.pcs[t].Announcing? ==>
      s.pcs[t].ev.scope != EVENTS
  }

  lemma DropIsLogged(m: Mem)
    requires Logged(m)
    ensures var m' := m.(drops := m.drops + 1); Logged(m') && Settled(m') == Settled(m) + 1
  {
  }

  lemma PushIsLogged(m: Mem, m': Mem, rec: WriteEvent, e: Entry)
    requires Logged(m) && e.payload == m.marshal(rec)
    requires EVENTS in m'.scopes && m'.scopes[EVENTS] == Pushed(m.scopes[EVENTS], e)
    requires m'.marshal == m.marshal && m'.drops == m.drops && m'.dropsBefore == m.dropsBefore
      && m'.log == m.log + [rec]
    ensures Logged(m') && Settled(m') == Settled(m) + 1
  {
  }

  lemma {:induction false} WrittenKeeps(m: Mem, ev: WriteEvent, t: Tick)
    requires StoreOk(m) && Logged(m) && EVENTS in m.scopes && Fresh(m.scopes[EVENTS], t.eventUuid)
    ensures var m' := Written(m, ev, t);
      && StoreOk(m') && Logged(m') && Settled(m') == Settled(m) + 1 && OnlyScope(m, m', EVENTS)
      && m'.cfg == m.cfg && m'.codec == m.codec && m'.commits == m.commits && m'.drops >= m.drops
      && (m'.drops == m.drops ==> m'.log == m.log + [Recorded(m, ev)])
      && (m'.drops != m.drops ==> m'.log == m.log)
  {
    hide StoreOk, TryWrite, Fresh, OnlyScope, Logged, Settled, EventEntry, EventItem, Recorded, Pushed;
    EventIsPushed(m, ev, t);
    var w := ScopeSpec.Append(EventItem(m, ev));
    TryWriteLeaves(m, EVENTS, w, t.eventNow, t.eventUuid);
    var d, m' := TryWrite(m, EVENTS, w, t.eventNow, t.eventUuid), Written(m, ev, t);
    if d.error.Some? {
      DropIsLogged(m);
      StoreOkIgnores(m, m');
      SameScopes(m, m, m');
    } else {
      PushIsLogged(m, m', Recorded(m, ev), EventEntry(m, ev, t));
      StoreOkIgnores(d.mem, m');
      OnlyScopeIgnores(m, d.mem, m, m');
    }
  }

  /** A commit is one more pending event, or nothing to account for. */
  lemma {:induction false} CommittedKeeps(s: State, t: nat, mem: Mem, ev: WriteEvent)
    requires Inv(s) && t < |s.pcs| && s.pcs[t].Resting? && ev.scope != EVENTS
    requires StoreOk(mem) && mem.cfg == s.mem.cfg && Logged(mem.(commits := s.mem.commits + 1))
    requires Settled(mem.(commits := s.mem.commits + 1)) == Settled(s.mem)
    ensures Inv(Committed(s, t, mem, ev))
  {
    hide StoreOk, Logged, Settled;
    PendingAfter(s.pcs, t, Announcing(ev));
    StoreOkIgnores(mem, mem.(commits := s.mem.commits + 1));
  }

  lemma {:induction false} MutateKeeps(s: State, step: Step)
    requires Inv(s) && step.Mutate? && Enabled(s, step)
    ensures Inv(Apply(s, step))
  {
    hide StoreOk, FreshTick, Mutation, Logged, Mutates, Settled, EventFor, FromClientCommand, Committed;
    var m, c, tick := s.mem, step.c, step.tick;
    var d := Mutation(m, c, tick);
    MutationKeeps(m, c, tick);
    MutationFields(m, c, tick);
    MutatedIsLogged(m, d.mem);
    if d.changed && Target(c) != EVENTS {
      EventTarget(m, c, tick);
      CommittedKeeps(s, step.t, d.mem, EventFor(c, d.item, tick));
    }
  }

  lemma MutatedIsLogged(m: Mem, m': Mem)
    requires Logged(m) && Mutates(m, m')
    ensures Logged(m') && Settled(m') == Settled(m) && m'.commits == m.commits && m'.cfg == m.cfg
    ensures Logged(m'.(commits := m.commits + 1)) && Settled(m'.(commits := m.commits + 1)) == Settled(m)
  {
  }

  lemma {:induction false} ReplaceKeeps(s: State, step: Step)
    requires Inv(s) && step.Replace? && Enabled(s, step)
    ensures Inv(Apply(s, step))
  {
    hide StoreOk, WithScopes, WellFormed, ItemsFit, Logged, Settled, PendingIn, IsReserved, Committed, CanReserve;
    LaidOverKeeps(s.mem, step.built);
    assert WarmEvent(step.tick.now).scope != EVENTS;
    CommittedKeeps(s, step.t, WithScopes(s.mem, s.mem.scopes + step.built), WarmEvent(step.tick.now));
  }

  lemma {:induction false} LaidOverKeeps(m: Mem, built: map<string, Scope>)
    requires StoreOk(m) && Logged(m)
    requires forall n :: n in built ==> !IsReserved(n) && WellFormed(built[n]) && ItemsFit(m.cfg, n, built[n])
    requires var m' := WithScopes(m, m.scopes + built); CanReserve(m.total, m.cfg.maxStoreBytes, m'.total - m.total)
    ensures var m' := WithScopes(m, m.scopes + built);
      && StoreOk(m') && Logged(m'.(commits := m.commits + 1)) && Settled(m'.(commits := m.commits + 1)) == Settled(m)
      && m'.scopes[EVENTS] == m.scopes[EVENTS] && m'.cfg == m.cfg
  {
    hide WellFormed, ItemsFit;
  }

  lemma {:induction false} RestartKeeps(s: State, step: Step)
    requires Inv(s) && step.Restart? && Enabled(s, step)
    ensures Inv(Apply(s, step))
  {
    ScopeIsSane(s.mem);
    ResetKeeps(s.mem, step.scopes);
    hide StoreOk, WellFormed, ItemsFit;
  }

  /** Every step keeps the accounts. */
  lemma {:induction false} StepKeepsInv(s: State, step: Step)
    requires Inv(s) && Enabled(s, step)
    ensures Inv(Apply(s, step))
  {
    hide StoreOk, Logged, Written, Fresh, OnlyScope, Mutation, WithScopes, Reset, Settled, Recorded, Committed,
      FreshTick;
    match step
    case Mutate(_, _, _) => MutateKeeps(s, step);
    case Replace(_, _, _) => ReplaceKeeps(s, step);
    case Announce(t, tick) =>
      WrittenKeeps(s.mem, s.pcs[t].ev, tick);
      PendingAfter(s.pcs, t, Resting);
    case Restart(_) => RestartKeeps(s, step);
  }

  /** A wipe is a step of this machine. */
  lemma {:induction false} WipeIsAStep(s: State)
    requires Inv(s)
    ensures Enabled(s, Restart(RESERVED_SCOPES)) && Apply(s, Restart(RESERVED_SCOPES)).mem == Wipe(s.mem)
  {
    hide TotalBytes, TotalItems, WellFormed, ItemsFit, Logged, StoreOk, PendingIn;
    ScopeIsSane(s.mem);
    WipeFits(s.mem);
    InstalledIsARestart(s.mem, map[]);
    assert map[] + RESERVED_SCOPES == RESERVED_SCOPES;
  }

  /** A rebuild that succeeds is a step of this machine. */
  lemma {:induction false} RebuildIsAStep(s: State, grouped: Batch, now: int, mints: map<string, seq<Uuid>>)
    requires Inv(s) && Matched(grouped, mints) && BatchFromClient(grouped)
      && Rebuild(s.mem, grouped, now, mints).error.None?
    ensures var step := Restart(BuiltScopes(s.mem, grouped, now, mints) + RESERVED_SCOPES);
      Enabled(s, step) && Apply(s, step).mem == Rebuild(s.mem, grouped, now, mints).mem
  {
    hide TotalBytes, TotalItems, WellFormed, ItemsFit, BuiltScopes, Logged, StoreOk, PendingIn, BatchFromClient,
      Matched, Verdict, IsReserved;
    ScopeIsSane(s.mem);
    BuiltScopesAreOk(s.mem, ToRebuild, grouped, now, mints);
    InstalledIsARestart(s.mem, BuiltScopes(s.mem, grouped, now, mints));
  }

  /** The store once thread `t` has written its event, if one is pending. */
  function Announced(s: State, t: nat, tick: Tick): Mem
    requires t < |s.pcs|
  {
    if s.pcs[t].Announcing? then Written(s.mem, s.pcs[t].ev, tick) else s.mem
  }

  lemma CommittedThenAnnounced(s: State, t: nat, mem: Mem, ev: WriteEvent, tick: Tick)
    requires t < |s.pcs| && s.pcs[t].Resting? && ev.scope != EVENTS && mem.commits == s.mem.commits
    ensures Announced(Committed(s, t, mem, ev), t, tick) == Emit(mem, ev, tick)
  {
    hide Written;
  }

  /** A command is its commit and its event, one right after the other. */
  lemma {:induction false} CommandIsTwoSteps(s: State, step: Step)
    requires Inv(s) && step.Mutate? && Enabled(s, step)
    ensures var s' := Apply(s, step);
      && (s'.pcs[step.t].Announcing? ==> Enabled(s', Announce(step.t, step.tick)))
      && Announced(s', step.t, step.tick) == Exec(s.mem, step.c, step.tick).mem
  {
    hide StoreOk, Fresh, Mutation, Logged, Settled, EventFor, FromClientCommand, Written;
    var m, c, tick := s.mem, step.c, step.tick;
    var d := Mutation(m, c, tick);
    MutationKeeps(m, c, tick);
    MutationFields(m, c, tick);
    EventsExist(m);
    EventsExist(d.mem);
    if d.changed { EventTarget(m, c, tick); }
  }

  /** A warm request that succeeds is a commit of this machine and its event, one right after the other. */
  lemma {:induction false} WarmIsAStep(s: State, t: nat, grouped: Batch, now: int, mints: map<string, seq<Uuid>>,
    tick: Tick)
    requires Inv(s) && t < |s.pcs| && s.pcs[t].Resting? && Matched(grouped, mints) && BatchFromClient(grouped)
    requires Warm(s.mem, grouped, now, mints, tick).error.None? && grouped != map[]
    ensures var built := BuiltScopes(s.mem, grouped, now, mints);
      && Enabled(s, Replace(t, built, tick))
      && Announced(Apply(s, Replace(t, built, tick)), t, tick) == Warm(s.mem, grouped, now, mints, tick).mem
  {
    hide TotalBytes, WellFormed, ItemsFit, Logged, StoreOk, PendingIn, BatchFromClient, Verdict, IsReserved,
      BuiltScopes, LaidOver, WithScopes, CanReserve, Committed, Announced, Matched, Settled, Emit;
    ScopeIsSane(s.mem);
    var built := BuiltScopes(s.mem, grouped, now, mints);
    BuiltScopesAreOk(s.mem, ToWarm, grouped, now, mints);
    LaidOverReserves(s.mem, built, tick);
    WithScopesLeaves(s.mem, s.mem.scopes + built);
    CommittedThenAnnounced(s, t, WithScopes(s.mem, s.mem.scopes + built), WarmEvent(tick.now), tick);
  }

  lemma LaidOverReserves(m: Mem, built: map<string, Scope>, t: Tick)
    requires LaidOver(m, built, t).error.None?
    ensures CanReserve(m.total, m.cfg.maxStoreBytes, WithScopes(m, m.scopes + built).total - m.total)
    ensures built != map[] ==>
      LaidOver(m, built, t).mem == Emit(WithScopes(m, m.scopes + built), WarmEvent(t.now), t)
  {
    hide WithScopes, CanReserve, Emit;
  }

  lemma {:induction false} WipeFits(m: Mem)
    requires m.cfg.Sane()
    ensures TotalBytes(RESERVED_SCOPES) <= m.cfg.maxStoreBytes
    ensures RESERVED_SCOPES.Keys == {EVENTS, INBOX} && RESERVED_SCOPES[EVENTS] == EMPTY_SCOPE == RESERVED_SCOPES[INBOX]
    ensures forall n :: WellFormed(EMPTY_SCOPE) && ItemsFit(m.cfg, n, EMPTY_SCOPE)
  {
    WipeIsBoot(m);
    EmptyIsOk(m.cfg, EVENTS);
  }

  lemma {:induction false} InstalledIsARestart(m: Mem, built: map<string, Scope>)
    requires m.cfg.Sane()
    requires forall n :: n in built ==> !IsReserved(n) && WellFormed(built[n]) && ItemsFit(m.cfg, n, built[n])
    ensures var all := built + RESERVED_SCOPES;
      && EVENTS in all && INBOX in all && all[EVENTS] == EMPTY_SCOPE
      && forall n :: n in all ==> WellFormed(all[n]) && ItemsFit(m.cfg, n, all[n])
  {
    WipeFits(m);
    hide WellFormed, ItemsFit;
  }

  // ---------- Whole runs ----------

  predicate Booted(s: State) {
    && s.carried == 0 && s.history == [] && (forall t :: 0 <= t < |s.pcs| ==> s.pcs[t].Resting?)
    && s.mem.log == [] && s.mem.commits == 0 && s.mem.drops == s.mem.dropsBefore
  }

  ghost predicate IsRun(states: seq<State>, steps: seq<Step>) {
    && |states| == |steps| + 1
    && Booted(states[0]) && Kept(states[0].mem)
    && forall i :: 0 <= i < |steps| ==> Enabled(states[i], steps[i]) && states[i + 1] == Apply(states[i], steps[i])
  }

  lemma BootedIsInv(s: State)
    requires Booted(s) && Kept(s.mem)
    ensures Inv(s)
  {
    hide StoreOk;
    NothingPending(s.pcs);
  }

  /** In every state of every run, however commits, emissions, batches and wipes interleave: commits since
      the last reset and emissions carried over it are together the entries, drops and pending events. */
  lemma {:induction false} EventsAreAccountedFor(states: seq<State>, steps: seq<Step>, i: nat)
    requires IsRun(states, steps) && i < |states|
    ensures Inv(states[i])
  {
    hide Inv, Enabled, Apply, Booted, Kept;
    if i == 0 {
      BootedIsInv(states[0]);
    } else {
      EventsAreAccountedFor(states, steps, i - 1);
      StepKeepsInv(states[i - 1], steps[i - 1]);
    }
  }

  /** How many events were pending at the last reset before state `i`. */
  function PendingAtReset(states: seq<State>, steps: seq<Step>, i: nat): nat
    requires i <= |steps| < |states|
  {
    if i == 0 then 0
    else if steps[i - 1].Restart? then PendingIn(states[i - 1].pcs)
    else PendingAtReset(states, steps, i - 1)
  }

  lemma {:induction false} CarriedIsPendingAtReset(states: seq<State>, steps: seq<Step>, i: nat)
    requires IsRun(states, steps) && i < |states|
    ensures states[i].carried == PendingAtReset(states, steps, i)
  {
    hide Kept, Enabled, Mutation, Written, WithScopes, Reset, PendingIn;
    if i > 0 {
      CarriedIsPendingAtReset(states, steps, i - 1);
      assert states[i] == Apply(states[i - 1], steps[i - 1]);
    }
  }

  /** With events on and nothing pending, the commits since the last reset are exactly the entries and
      drops since then if and only if no event was pending at that reset. */
  lemma {:induction false} PlainEquationExactly(states: seq<State>, steps: seq<Step>, i: nat)
    requires IsRun(states, steps) && i < |states| && states[i].mem.cfg.events != Off
    requires forall t :: 0 <= t < |states[i].pcs| ==> states[i].pcs[t].Resting?
    ensures EVENTS in states[i].mem.scopes
    ensures states[i].mem.commits == Settled(states[i].mem) <==> PendingAtReset(states, steps, i) == 0
  {
    hide IsRun, StoreOk;
    EventsAreAccountedFor(states, steps, i);
    CarriedIsPendingAtReset(states, steps, i);
    NothingPending(states[i].pcs);
  }

  // ---------- The stream and the history ----------

  function Own(pc: Pc): multiset<WriteEvent> {
    if pc.Announcing? then multiset{pc.ev} else multiset{}
  }

  function PendingEvents(pcs: seq<Pc>): multiset<WriteEvent> {
    if pcs == [] then multiset{} else Own(pcs[0]) + PendingEvents(pcs[1..])
  }

  lemma {:induction false} EventsAfter(pcs: seq<Pc>, t: nat, pc: Pc)
    requires t < |pcs|
    ensures PendingEvents(pcs[t := pc]) + Own(pcs[t]) == PendingEvents(pcs) + Own(pc)
  {
    hide Own;
    if t == 0 {
      assert pcs[t := pc][1..] == pcs[1..];
    } else {
      EventsAfter(pcs[1..], t - 1, pc);
      assert pcs[t := pc][1..] == pcs[1..][t - 1 := pc];
      var before, after := PendingEvents(pcs[1..]), PendingEvents(pcs[1..][t - 1 := pc]);
      assert (Own(pcs[0]) + after) + Own(pcs[t]) == Own(pcs[0]) + (after + Own(pcs[t]));
      assert (Own(pcs[0]) + before) + Own(pc) == Own(pcs[0]) + (before + Own(pc));
    }
  }

  lemma {:induction false} NoEventsPending(pcs: seq<Pc>)
    requires forall t :: 0 <= t < |pcs| ==> pcs[t].Resting?
    ensures PendingEvents(pcs) == multiset{}
  {
    if pcs != [] {
      NoEventsPending(pcs[1..]);
    }
  }

  /** The events committed are those in the stream and those still to be written. */
  predicate SameEvents(s: State) {
    multiset(s.history) == multiset(s.mem.log) + PendingEvents(s.pcs)
  }

  lemma OneMore(h: multiset<WriteEvent>, l: multiset<WriteEvent>, p: multiset<WriteEvent>, p': multiset<WriteEvent>,
    ev: WriteEvent)
    requires h == l + p && p' + multiset{} == p + multiset{ev}
    ensures h + multiset{ev} == l + p'
  {
    assert p' == p + multiset{ev};
    assert l + (p + multiset{ev}) == (l + p) + multiset{ev};
  }

  lemma OneWritten(h: multiset<WriteEvent>, l: multiset<WriteEvent>, p: multiset<WriteEvent>,
    p': multiset<WriteEvent>, ev: WriteEvent)
    requires h == l + p && p' + multiset{ev} == p + multiset{}
    ensures h == (l + multiset{ev}) + p'
  {
    assert p == p' + multiset{ev};
    assert l + (p' + multiset{ev}) == (l + multiset{ev}) + p';
  }

  lemma {:induction false} CommittedEvents(s: State, t: nat, mem: Mem, ev: WriteEvent)
    requires t < |s.pcs| && s.pcs[t].Resting? && mem.cfg.events == Full && mem.log == s.mem.log && SameEvents(s)
    ensures SameEvents(Committed(s, t, mem, ev))
  {
    hide PendingEvents;
    EventsAfter(s.pcs, t, Announcing(ev));
    assert multiset(s.history + [ev]) == multiset(s.history) + multiset{ev};
    OneMore(multiset(s.history), multiset(s.mem.log), PendingEvents(s.pcs),
      PendingEvents(s.pcs[t := Announcing(ev)]), ev);
  }

  lemma {:induction false} StepKeepsEvents(s: State, step: Step)
    requires Inv(s) && Enabled(s, step) && !step.Restart? && s.mem.cfg.events == Full
    ensures Apply(s, step).mem.drops >= s.mem.drops && Apply(s, step).mem.cfg == s.mem.cfg
    ensures SameEvents(s) && Apply(s, step).mem.drops == s.mem.drops ==> SameEvents(Apply(s, step))
  {
    hide StoreOk, FreshTick, Fresh, Mutation, Logged, Settled, PendingIn, EventFor, Written, WithScopes, PendingEvents,
      OnlyScope;
    match step
    case Mutate(t, c, tick) =>
      var d := Mutation(s.mem, c, tick);
      MutationFields(s.mem, c, tick);
      if SameEvents(s) { CommittedEvents(s, t, d.mem, EventFor(c, d.item, tick)); }
    case Replace(t, built, tick) =>
      WithScopesLeaves(s.mem, s.mem.scopes + built);
      if SameEvents(s) { CommittedEvents(s, t, WithScopes(s.mem, s.mem.scopes + built), WarmEvent(tick.now)); }
    case Announce(t, tick) =>
      var ev := s.pcs[t].ev;
      WrittenKeeps(s.mem, ev, tick);
      EventsAfter(s.pcs, t, Resting);
      assert multiset(s.mem.log + [ev]) == multiset(s.mem.log) + multiset{ev};
      if SameEvents(s) {
        OneWritten(multiset(s.history), multiset(s.mem.log), PendingEvents(s.pcs),
          PendingEvents(s.pcs[t := Resting]), ev);
      }
  }

  lemma WithScopesLeaves(m: Mem, scopes: map<string, Scope>)
    ensures var m' := WithScopes(m, scopes);
      m'.cfg == m.cfg && m'.drops == m.drops && m'.log == m.log && m'.commits == m.commits
  {
    hide TotalBytes, TotalItems;
  }

  /** In full mode, without a reset or a drop, the stream of a run at rest is its history in some order:
      nothing is missing, nothing comes twice, only the order can differ. */
  lemma {:induction false} StreamIsHistory(states: seq<State>, steps: seq<Step>, i: nat)
    requires IsRun(states, steps) && i < |states| && forall k :: 0 <= k < |steps| ==> !steps[k].Restart?
    requires states[0].mem.cfg.events == Full
    ensures states[i].mem.cfg == states[0].mem.cfg && states[i].mem.drops >= states[0].mem.drops
    ensures states[i].mem.drops == states[0].mem.drops ==> SameEvents(states[i])
    ensures states[i].mem.drops == states[0].mem.drops
      && (forall t :: 0 <= t < |states[i].pcs| ==> states[i].pcs[t].Resting?)
      ==> multiset(states[i].history) == multiset(states[i].mem.log)
  {
    hide Inv, Enabled, Apply, Kept, PendingEvents;
    if i == 0 {
      NoEventsPending(states[0].pcs);
    } else {
      StreamIsHistory(states, steps, i - 1);
      EventsAreAccountedFor(states, steps, i - 1);
      StepKeepsEvents(states[i - 1], steps[i - 1]);
    }
    if forall t :: 0 <= t < |states[i].pcs| ==> states[i].pcs[t].Resting? {
      NoEventsPending(states[i].pcs);
    }
  }

  // ---------- Replay in the order of commits ----------

  /** Steps of a run that can be replayed: repeatable mutations, and emissions whenever they come. */
  predicate Replayable(step: Step) {
    step.Announce? || (step.Mutate? && Repeatable(step.c))
  }

  lemma {:induction false} AnnounceMirrors(s: State, r: Mem, step: Step)
    requires Inv(s) && step.Announce? && Enabled(s, step) && Mirrors(s.mem, r)
    ensures Mirrors(Apply(s, step).mem, r)
    ensures Apply(s, step).history == s.history
  {
    hide StoreOk, Logged, Written, Fresh, Mirrors, Settled, PendingIn;
    WrittenKeeps(s.mem, s.pcs[step.t].ev, step.tick);
    EventsExist(Apply(s, step).mem);
    MirrorsIgnore(s.mem, r, Apply(s, step).mem, r);
  }

  /** A repeatable mutation leaves its record in the history and can be repeated on a mirror, or leaves
      the mirror one. */
  lemma {:induction false} MutateMirrors(s: State, r: Mem, step: Step, t': Tick)
    requires Inv(s) && step.Mutate? && Enabled(s, step) && Repeatable(step.c) && Mirrors(s.mem, r) && StoreOk(r)
    requires s.mem.cfg.events == Full
    ensures var s' := Apply(s, step);
      if s'.history == s.history then Mirrors(s'.mem, r)
      else
        && |s'.history| == |s.history| + 1 && s'.history[..|s.history|] == s.history
        && Replayed(s'.history[|s.history|]) == step.c
        && Exec(r, step.c, t').error.None? && Mirrors(s'.mem, Exec(r, step.c, t').mem)
  {
    hide StoreOk, FreshTick, Mirrors, Mutation, Logged, Settled, PendingIn, Exec, EventFor, Replayed, Repeatable;
    var m, c, tick := s.mem, step.c, step.tick;
    var d := Mutation(m, c, tick);
    RepeatableIsFromClient(c);
    MutationKeeps(m, c, tick);
    MutationFields(m, c, tick);
    var s' := Apply(s, step);
    if d.changed && Target(c) != EVENTS {
      RecordIsTheCommand(m, c, tick);
      RepeatOne(m, r, c, tick, t');
      assert s'.history == s.history + [EventFor(c, d.item, tick)];
      MirrorsIgnore(d.mem, Mutation(r, c, t').mem, s'.mem, Exec(r, c, t').mem);
    } else {
      MirrorsIgnore(m, r, s'.mem, r);
    }
  }

  lemma RepeatableIsFromClient(c: Command)
    requires Repeatable(c)
    ensures FromClientCommand(c)
  {
  }

  lemma HistoryGrows(s: State, step: Step)
    requires Enabled(s, step) && Replayable(step)
    ensures Apply(s, step).history == s.history || |Apply(s, step).history| == |s.history| + 1
    ensures s.history <= Apply(s, step).history
    ensures Apply(s, step).mem.cfg == s.mem.cfg
  {
    hide FreshTick, Fresh, Repeatable, EventFor;
    if step.Mutate? {
      MutationConfig(s.mem, step.c, step.tick);
    } else {
      TryWriteLeaves(s.mem, EVENTS, ScopeSpec.Append(EventItem(s.mem, s.pcs[step.t].ev)), step.tick.eventNow,
        step.tick.eventUuid);
    }
    hide Mutation, TryWrite;
  }

  lemma MutationConfig(m: Mem, c: Command, t: Tick)
    ensures Mutation(m, c, t).mem.cfg == m.cfg
  {
    hide PlanOf, Remove, ValidateWriteItem, ValidateUpsertItem, ValidateUpdateItem, SizeSum;
  }

  /** The events committed so far, carried out in the order of their commits on a mirror, are never refused
      and mirror the store at this moment: whatever was written, dropped or is still pending. */
  lemma {:induction false} HistoryReplays(states: seq<State>, steps: seq<Step>, i: nat, r: Mem, rts: seq<Tick>)
    requires IsRun(states, steps) && i < |states| && forall k :: 0 <= k < |steps| ==> Replayable(steps[k])
    requires states[0].mem.cfg.events == Full && Mirrors(states[0].mem, r) && Kept(r)
    requires |rts| >= |states[i].history| && MintsFresh(r, Commands(states[i].history), rts)
    ensures var replay := Commands(states[i].history);
      && states[i].mem.cfg == states[0].mem.cfg
      && (forall k :: 0 <= k < |replay| ==> FromClientCommand(replay[k]))
      && NeverRefused(r, replay, rts) && Mirrors(states[i].mem, Executed(r, replay, rts))
  {
    hide Inv, Enabled, Apply, Mirrors, Kept, MintsFresh, NeverRefused, Replayed, Exec, FreshTick, Commands,
      FromClientCommand;
    if i == 0 {
      assert states[0].history == [];
      NothingToReplay(r, rts);
    } else {
      var s, step := states[i - 1], steps[i - 1];
      EventsAreAccountedFor(states, steps, i - 1);
      HistoryGrows(s, step);
      var before, after := Commands(s.history), Commands(states[i].history);
      if states[i].history != s.history {
        HistoryPush(s.history, states[i].history);
        MintsFreshPrefix(r, after, rts);
      }
      CommandsLength(s.history);
      HistoryReplays(states, steps, i - 1, r, rts);
      RunIsSound(r, before, rts);
      var y := Executed(r, before, rts);
      assert StoreOk(y) by { KeptIsOk(y); }
      if step.Announce? {
        AnnounceMirrors(s, y, step);
      } else if states[i].history == s.history {
        MutateMirrors(s, y, step, Tick(0, Uuid([]), 0, Uuid([])));
      } else {
        MutateMirrors(s, y, step, rts[|before|]);
        RepeatableIsFromClient(step.c);
        RefusedPush(r, before, step.c, rts);
      }
    }
  }

  lemma KeptIsOk(m: Mem)
    requires Kept(m)
    ensures StoreOk(m)
  {
  }

  lemma CommandsLength(a: seq<WriteEvent>)
    ensures |Commands(a)| == |a|
  {
  }

  lemma HistoryPush(a: seq<WriteEvent>, b: seq<WriteEvent>)
    requires a <= b && |b| == |a| + 1
    ensures |Commands(a)| == |a| && |Commands(b)| == |b|
    ensures Commands(b) == Commands(a) + [Replayed(b[|a|])] && Commands(b)[..|b| - 1] == Commands(a)
  {
    hide Replayed;
  }

  /** A run whose events were written in the order of their commits, without a drop, can be replayed from
      its event stream, however its commits and emissions were interleaved. */
  lemma {:induction false} CommitOrderReplays(states: seq<State>, steps: seq<Step>, r: Mem, rts: seq<Tick>)
    requires IsRun(states, steps) && forall k :: 0 <= k < |steps| ==> Replayable(steps[k])
    requires states[0].mem.cfg.events == Full && Mirrors(states[0].mem, r) && Kept(r)
    requires var last := states[|steps|];
      last.mem.log == last.history && |rts| >= |last.mem.log| && MintsFresh(r, Commands(last.mem.log), rts)
    ensures var last := states[|steps|];
      NeverRefused(r, Commands(last.mem.log), rts) && Mirrors(last.mem, Executed(r, Commands(last.mem.log), rts))
  {
    hide Enabled, Apply, Booted, Replayable, Mirrors, Kept, MintsFresh, NeverRefused, Commands, Executed;
    HistoryReplays(states, steps, |steps|, r, rts);
  }
}
