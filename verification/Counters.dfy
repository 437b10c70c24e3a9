/** One counter under any interleaving of additions, overwrites and removals. Additions on an existing
    cell run under the scope's read lock and race through compare-and-swap; creating, promoting and
    overwriting run under the write lock. */
module Counters {
  import opened Types
  import opened ScopeSpec
  import opened Budgets

  /** What the scope stores under the id: nothing, an ordinary item, or a pointer to a cell. */
  datatype Slot = Absent | Plain(payload: Bytes) | Counting(cell: nat)

  /** The two atomics, and what has happened to them: the additions that went through and the
      timestamps that were published. */
  datatype Cell = Cell(value: int, ts: int, start: int, adds: seq<int>, born: int, stamps: seq<int>)

  datatype Pc =
    | Idle
    | Waiting(add: int)
    | Loading(cell: nat, add: int, fast: bool)
    | Swapping(cell: nat, add: int, fast: bool, seen: int)
    | Stamping(cell: nat, now: int, fast: bool)
    | Publishing(cell: nat, now: int, fast: bool, seen: int)

  /** What an observer of the id sees happen, in order. */
  datatype Event = Added(add: int) | Overwritten(payload: Bytes) | Removed

  datatype State = State(codec: Codec, slot: Slot, cells: seq<Cell>, pcs: seq<Pc>, detached: bool, bytes: int,
    history: seq<Event>)

  datatype Step =
    | Begin(t: nat, add: int)
    | EnterSlow(t: nat)
    | Promote(t: nat, room: bool, now: int)
    | Create(t: nat, room: bool, now: int)
    | GiveUp(t: nat)
    | Load(t: nat)
    | Swap(t: nat, now: int)
    | Stamp(t: nat)
    | Publish(t: nat)
    | Overwrite(payload: Bytes)
    | Remove
    | Detach

  // ---------- Locks ----------

  predicate OnCell(pc: Pc) {
    pc.Loading? || pc.Swapping? || pc.Stamping? || pc.Publishing?
  }

  predicate NobodyInside(s: State) {
    forall t :: 0 <= t < |s.pcs| ==> !OnCell(s.pcs[t])
  }

  predicate NoWriterInside(s: State) {
    forall t :: 0 <= t < |s.pcs| && OnCell(s.pcs[t]) ==> s.pcs[t].fast
  }

  // ---------- Steps ----------

  predicate InRange(v: int) {
    -MAX_COUNTER <= v <= MAX_COUNTER
  }

  predicate Enabled(s: State, step: Step) {
    match step
    case Begin(t, add) => t < |s.pcs| && s.pcs[t].Idle? && NoWriterInside(s) && add != 0 && InRange(add)
    case EnterSlow(t) => t < |s.pcs| && s.pcs[t].Waiting? && NobodyInside(s) && !s.detached && s.slot.Counting?
    case Promote(t, _, _) => t < |s.pcs| && s.pcs[t].Waiting? && NobodyInside(s) && !s.detached && s.slot.Plain?
    case Create(t, _, _) => t < |s.pcs| && s.pcs[t].Waiting? && NobodyInside(s) && !s.detached && s.slot.Absent?
    case GiveUp(t) => t < |s.pcs| && s.pcs[t].Waiting? && NobodyInside(s) && s.detached
    case Load(t) => t < |s.pcs| && s.pcs[t].Loading? && s.pcs[t].cell < |s.cells|
    case Swap(t, _) => t < |s.pcs| && s.pcs[t].Swapping? && s.pcs[t].cell < |s.cells|
    case Stamp(t) => t < |s.pcs| && s.pcs[t].Stamping? && s.pcs[t].cell < |s.cells|
    case Publish(t) => t < |s.pcs| && s.pcs[t].Publishing? && s.pcs[t].cell < |s.cells|
    case Overwrite(_) => NobodyInside(s) && !s.detached
    case Remove => NobodyInside(s) && !s.detached
    case Detach => NobodyInside(s)
  }

  function At(s: State, t: nat, pc: Pc): State
    requires t < |s.pcs|
  {
    s.(pcs := s.pcs[t := pc])
  }

  function SetCell(s: State, k: nat, c: Cell): State
    requires k < |s.cells|
  {
    s.(cells := s.cells[k := c])
  }

  /** A fresh cell takes the place of whatever the slot held. */
  function Install(s: State, value: int, now: int): State {
    s.(slot := Counting(|s.cells|), cells := s.cells + [Cell(value, now, value, [], now, [])],
       bytes := s.bytes + COUNTER_CELL_OVERHEAD - SlotCost(s.codec, s.slot))
  }

  /** The payload part of what the slot costs. */
  function SlotCost(codec: Codec, slot: Slot): nat {
    match slot
    case Absent => 0
    case Plain(p) => |p| + RenderLen(PrecomputeRender(codec, p))
    case Counting(_) => COUNTER_CELL_OVERHEAD
  }

  function Apply(s: State, step: Step): State
    requires Enabled(s, step)
  {
    match step
    case Begin(t, add) =>
      if !s.detached && s.slot.Counting? then At(s, t, Loading(s.slot.cell, add, true)) else At(s, t, Waiting(add))
    case EnterSlow(t) => At(s, t, Loading(s.slot.cell, s.pcs[t].add, false))
    case Promote(t, room, now) =>
      var v := ParseCounterValue(s.codec, s.slot.payload);
      var add := s.pcs[t].add;
      if v.None? || !InRange(v.value + add) || !room then At(s, t, Idle)
      else Install(At(s, t, Idle), v.value + add, now).(history := s.history + [Added(add)])
    case Create(t, room, now) =>
      var add := s.pcs[t].add;
      if !room then At(s, t, Idle) else Install(At(s, t, Idle), add, now).(history := s.history + [Added(add)])
    case GiveUp(t) => At(s, t, Idle)
    case Load(t) =>
      var pc := s.pcs[t];
      var cur := s.cells[pc.cell].value;
      if !InRange(cur + pc.add) then At(s, t, Idle) else At(s, t, Swapping(pc.cell, pc.add, pc.fast, cur))
    case Swap(t, now) =>
      var pc := s.pcs[t];
      var c := s.cells[pc.cell];
      if c.value == pc.seen then
        SetCell(At(s, t, Stamping(pc.cell, now, pc.fast)), pc.cell,
          c.(value := pc.seen + pc.add, adds := c.adds + [pc.add])).(
          history := s.history + [Added(pc.add)])
      else At(s, t, Loading(pc.cell, pc.add, pc.fast))
    case Stamp(t) =>
      var pc := s.pcs[t];
      var c := s.cells[pc.cell];
      if pc.now <= c.ts then SetCell(At(s, t, Idle), pc.cell, c.(stamps := c.stamps + [pc.now]))
      else At(s, t, Publishing(pc.cell, pc.now, pc.fast, c.ts))
    case Publish(t) =>
      var pc := s.pcs[t];
      var c := s.cells[pc.cell];
      if c.ts == pc.seen then SetCell(At(s, t, Idle), pc.cell, c.(ts := pc.now, stamps := c.stamps + [pc.now]))
      else At(s, t, Stamping(pc.cell, pc.now, pc.fast))
    case Overwrite(payload) =>
      s.(slot := Plain(payload), bytes := s.bytes + SlotCost(s.codec, Plain(payload)) - SlotCost(s.codec, s.slot),
         history := s.history + [Overwritten(payload)])
    case Remove => s.(slot := Absent, bytes := s.bytes - SlotCost(s.codec, s.slot), history := s.history + [Removed])
    case Detach => s.(detached := true)
  }

  // ---------- What the history says ----------

  /** The integer an observer expects, if the id holds one. */
  datatype Seen = Nothing | NotACounter | Value(v: int)

  function Reading(codec: Codec, p: Bytes): Seen {
    var v := ParseCounterValue(codec, p);
    if v.Some? then Value(v.value) else NotACounter
  }

  function Next(codec: Codec, before: Seen, e: Event): Seen {
    match e
    case Added(add) => Value(if before.Value? then before.v + add else add)
    case Overwritten(payload) => Reading(codec, payload)
    case Removed => Nothing
  }

  /** One event after another, as a plain sequential counter would have it. */
  function Expected(codec: Codec, history: seq<Event>): Seen {
    if history == [] then Nothing
    else Next(codec, Expected(codec, history[..|history| - 1]), history[|history| - 1])
  }

  function Held(s: State): Seen
    requires s.slot.Counting? ==> s.slot.cell < |s.cells|
  {
    match s.slot
    case Absent => Nothing
    case Plain(p) => Reading(s.codec, p)
    case Counting(k) => Value(s.cells[k].value)
  }

  lemma ExpectedPush(codec: Codec, history: seq<Event>, e: Event)
    ensures Expected(codec, history + [e]) == Next(codec, Expected(codec, history), e)
  {
    assert (history + [e])[..|history|] == history;
  }

  // ---------- The invariant ----------

  function SumOf(xs: seq<int>): int {
    if xs == [] then 0 else SumOf(xs[..|xs| - 1]) + xs[|xs| - 1]
  }

  function Latest(born: int, stamps: seq<int>): int {
    if stamps == [] then born else Max(Latest(born, stamps[..|stamps| - 1]), stamps[|stamps| - 1])
  }

  predicate CellOk(c: Cell) {
    && InRange(c.value)
    && c.value == c.start + SumOf(c.adds)
    && c.ts == Latest(c.born, c.stamps)
  }

  /** A thread at work on a cell holds a lock that keeps the cell in its slot. */
  predicate PcOk(s: State, pc: Pc) {
    match pc
    case Idle => true
    case Waiting(add) => InRange(add)
    case Loading(k, add, _) => s.slot == Counting(k) && k < |s.cells| && InRange(add)
    case Swapping(k, add, _, seen) => s.slot == Counting(k) && k < |s.cells| && InRange(add) && InRange(seen + add)
    case Stamping(k, _, _) => s.slot == Counting(k) && k < |s.cells|
    case Publishing(k, now, _, seen) => s.slot == Counting(k) && k < |s.cells| && seen < now
  }

  predicate Inv(s: State) {
    && (s.slot.Counting? ==> s.slot.cell < |s.cells|)
    && (forall k :: 0 <= k < |s.cells| ==> CellOk(s.cells[k]))
    && (forall t :: 0 <= t < |s.pcs| ==> PcOk(s, s.pcs[t]))
    && Held(s) == Expected(s.codec, s.history)
    && s.bytes == SlotCost(s.codec, s.slot)
  }

  lemma SumOfPush(xs: seq<int>, x: int)
    ensures SumOf(xs + [x]) == SumOf(xs) + x
  {
    assert (xs + [x])[..|xs|] == xs;
  }

  lemma LatestPush(born: int, stamps: seq<int>, now: int)
    ensures Latest(born, stamps + [now]) == Max(Latest(born, stamps), now)
  {
    assert (stamps + [now])[..|stamps|] == stamps;
  }

  lemma {:induction false} LockedStepKeepsInv(s: State, step: Step)
    requires Inv(s) && Enabled(s, step) && (step.Promote? || step.Create? || step.Overwrite? || step.Remove?)
    ensures Inv(Apply(s, step))
  {
    hide ParseCounterValue, PrecomputeRender, SumOf, Latest, Expected;
    FreshCell();
    match step
    case Promote(t, _, _) => ExpectedPush(s.codec, s.history, Added(s.pcs[t].add));
    case Create(t, _, _) => ExpectedPush(s.codec, s.history, Added(s.pcs[t].add));
    case Overwrite(p) => ExpectedPush(s.codec, s.history, Overwritten(p));
    case Remove => ExpectedPush(s.codec, s.history, Removed);
  }

  lemma {:induction false} SwapKeepsInv(s: State, step: Step)
    requires Inv(s) && Enabled(s, step) && step.Swap?
    ensures Inv(Apply(s, step))
  {
    hide ParseCounterValue, PrecomputeRender, SumOf, Latest, Expected;
    ExpectedPush(s.codec, s.history, Added(s.pcs[step.t].add));
    SumOfPush(s.cells[s.pcs[step.t].cell].adds, s.pcs[step.t].add);
  }

  lemma {:induction false} StampKeepsInv(s: State, step: Step)
    requires Inv(s) && Enabled(s, step) && (step.Stamp? || step.Publish?)
    ensures Inv(Apply(s, step))
  {
    hide ParseCounterValue, PrecomputeRender, SumOf, Latest, Expected;
    var pc := s.pcs[step.t];
    LatestPush(s.cells[pc.cell].born, s.cells[pc.cell].stamps, pc.now);
  }

  /** Every step keeps the invariant. */
  lemma {:induction false} StepKeepsInv(s: State, step: Step)
    requires Inv(s) && Enabled(s, step)
    ensures Inv(Apply(s, step))
  {
    hide ParseCounterValue, PrecomputeRender, SumOf, Latest, Expected;
    if step.Promote? || step.Create? || step.Overwrite? || step.Remove? {
      LockedStepKeepsInv(s, step);
    } else if step.Swap? {
      SwapKeepsInv(s, step);
    } else if step.Stamp? || step.Publish? {
      StampKeepsInv(s, step);
    }
  }

  lemma FreshCell()
    ensures SumOf([]) == 0 && forall born :: Latest(born, []) == born
  {
  }

  // ---------- Whole runs ----------

  predicate Untouched(s: State) {
    s.slot == Absent && s.cells == [] && s.history == [] && s.bytes == 0
      && forall t :: 0 <= t < |s.pcs| ==> s.pcs[t] == Idle
  }

  ghost predicate IsRun(states: seq<State>, steps: seq<Step>) {
    && |states| == |steps| + 1
    && Untouched(states[0])
    && forall i :: 0 <= i < |steps| ==> Enabled(states[i], steps[i]) && states[i + 1] == Apply(states[i], steps[i])
  }

  /** In every state of every run: what the id holds is what its history says, so no addition is lost
      or counted twice whatever races with it; every cell holds its start plus all its successful
      additions, in range, stamped with the latest timestamp published; and the bytes are exact. */
  lemma {:induction false} CounterRun(states: seq<State>, steps: seq<Step>, i: nat)
    requires IsRun(states, steps) && i < |states|
    ensures Inv(states[i])
  {
    hide Inv, Enabled, Apply, Untouched;
    if i == 0 {
      FreshIsInv(states[0]);
    } else {
      CounterRun(states, steps, i - 1);
      StepKeepsInv(states[i - 1], steps[i - 1]);
    }
  }

  /** A thread that works on a cell under the write lock is alone there, and nobody works on a cell of a
      detached scope. */
  predicate LocksHold(s: State) {
    && (forall t, u :: 0 <= t < |s.pcs| && 0 <= u < |s.pcs| && t != u && OnCell(s.pcs[t]) && !s.pcs[t].fast ==>
         !OnCell(s.pcs[u]))
    && (s.detached ==> NobodyInside(s))
  }

  lemma {:induction false} StepKeepsLocks(s: State, step: Step)
    requires LocksHold(s) && Enabled(s, step)
    ensures LocksHold(Apply(s, step))
  {
    hide ParseCounterValue, PrecomputeRender;
  }

  /** In every run the locks hold; so once a scope is detached, whatever step is taken, the id holds what it held:
      no addition, overwrite or removal goes through any more. */
  lemma {:induction false} DetachedIsFrozen(states: seq<State>, steps: seq<Step>, i: nat)
    requires IsRun(states, steps) && i < |states|
    ensures LocksHold(states[i])
    ensures i < |steps| && states[i].detached ==>
      states[i + 1] == states[i].(pcs := states[i + 1].pcs) && !steps[i].Swap?
  {
    hide ParseCounterValue, PrecomputeRender;
    if i > 0 {
      DetachedIsFrozen(states, steps, i - 1);
      StepKeepsLocks(states[i - 1], steps[i - 1]);
    }
    if i < |steps| && states[i].detached {
      FrozenStep(states[i], steps[i]);
    }
  }

  lemma {:induction false} FrozenStep(s: State, step: Step)
    requires LocksHold(s) && s.detached && Enabled(s, step)
    ensures Apply(s, step) == s.(pcs := Apply(s, step).pcs) && !step.Swap?
  {
    hide ParseCounterValue, PrecomputeRender;
  }

  lemma FreshIsInv(s: State)
    requires Untouched(s)
    ensures Inv(s)
  {
  }

  /** An addition whose compare-and-swap succeeds is made to the cell the id points to at that moment, and
      adds exactly its increment to what the id holds; the loop's arithmetic stays within 64 bits. */
  lemma {:induction false} AdditionsLand(s: State, step: Step)
    requires Inv(s) && Enabled(s, step)
    ensures step.Load? ==> var sum := s.cells[s.pcs[step.t].cell].value + s.pcs[step.t].add;
      IsInt64(sum) && Wrap64(sum) == sum
    ensures step.Swap? && Apply(s, step).history != s.history ==>
      && s.slot == Counting(s.pcs[step.t].cell)
      && Held(s).Value? && Held(Apply(s, step)) == Value(Held(s).v + s.pcs[step.t].add)
  {
    hide Expected, SumOf, Latest;
  }

  /** An addition is refused as an overflow only when, at that moment, the sum is out of range, and then
      nothing but the thread's own progress changes. Additions to a cell never move the bytes. */
  lemma {:induction false} RefusalsChangeNothing(s: State, step: Step)
    requires Inv(s) && Enabled(s, step)
    ensures step.Load? && Apply(s, step).pcs[step.t].Idle? ==>
      && Held(s).Value? && !InRange(Held(s).v + s.pcs[step.t].add)
      && Apply(s, step) == s.(pcs := Apply(s, step).pcs)
    ensures !step.Promote? && !step.Create? && !step.Overwrite? && !step.Remove? ==> Apply(s, step).bytes == s.bytes
  {
    hide Expected, SumOf, Latest;
  }

  // ---------- The sequential counter ----------

  /** What a scope holds under an id. */
  function HeldIn(codec: Codec, items: seq<Entry>, id: string): Seen {
    var at := FindId(items, id);
    if at.None? then Nothing
    else if items[at.value].counter.Some? then Value(items[at.value].counter.value.value)
    else Reading(codec, items[at.value].payload)
  }

  /** The addition that a scope carries out in one piece is the same event: it succeeds on nothing, on an
      integer and on a counter, and adds exactly its increment; it is refused for what the id holds
      only when that is no integer or the sum would be out of range. */
  lemma {:induction false} SequentialAddition(s: Scope, scope: string, id: string, add: int, env: Env)
    requires WellFormed(s) && ScopeSpec.Fresh(s, env.minted) && id != ""
    ensures var p, before := PlanCounterAdd(s, scope, id, add, env), HeldIn(env.codec, s.items, id);
      && (p.Ready? ==> HeldIn(env.codec, p.after.items, id) == Next(env.codec, before, Added(add)))
      && (p == Refused(CounterPayload) <==> before == NotACounter)
      && ((exists c :: p == Refused(CounterOverflow(c, add))) <==> before.Value? && !InRange(before.v + add))
  {
    var p := PlanCounterAdd(s, scope, id, add, env);
    if p.Ready? {
      CounterIsSound(s, scope, id, add, env);
      assert p.after.items[p.at].id == id;
      FindIdIs(p.after.items, p.at);
    } else if HeldIn(env.codec, s.items, id).Value? {
      assert p == Refused(CounterOverflow(HeldIn(env.codec, s.items, id).v, add));
    }
  }

  // ---------- One thread alone ----------

  ghost predicate Reaches(s: State, steps: seq<Step>, s': State)
    decreases |steps|
  {
    if steps == [] then s' == s
    else Enabled(s, steps[0]) && Reaches(Apply(s, steps[0]), steps[1..], s')
  }

  /** The id is stored in the scope as the slot says. */
  predicate Stores(s: State, items: seq<Entry>, id: string) {
    var at := FindId(items, id);
    match s.slot
    case Absent => at.None?
    case Plain(payload) =>
      && at.Some? && items[at.value].counter.None?
      && items[at.value].payload == payload && items[at.value].render == PrecomputeRender(s.codec, payload)
    case Counting(k) =>
      at.Some? && k < |s.cells| && items[at.value].counter == Some(Counter(s.cells[k].value, s.cells[k].ts))
  }

  /** Nobody else is at work on the id, and the thread is about to add to it. */
  ghost predicate AboutToAdd(s: State, t: nat, sc: Scope, id: string, add: int, env: Env) {
    && t < |s.pcs| && s.pcs[t].Idle? && NobodyInside(s) && !s.detached && add != 0 && InRange(add)
    && WellFormed(sc) && ScopeSpec.Fresh(sc, env.minted) && id != "" && Stores(s, sc.items, id)
    && env.codec == s.codec && !OverCount(env, |sc.items| + 1)
  }

  /** The outcome of an addition made alone is the one the scope has when it adds in one piece: the number, its
      timestamp and the bytes, or nothing at all. */
  ghost predicate AddedAlone(s: State, s': State, t: nat, sc: Scope, scope: string, id: string, add: int, env: Env,
    room: bool)
    requires t < |s.pcs|
  {
    var p := PlanCounterAdd(sc, scope, id, add, env);
    if p.Ready? && room then
      && p.at < |p.after.items| && Stores(s', p.after.items, id) && s'.pcs == s.pcs
      && s'.history == s.history + [Added(add)]
      && s'.bytes == s.bytes + if p.created then PayloadCost(p.after.items[p.at]) else p.delta
    else s' == s
  }

  lemma {:induction false} AloneOnNothing(s: State, t: nat, sc: Scope, scope: string, id: string, add: int, env: Env,
    room: bool) returns (steps: seq<Step>, s': State)
    requires AboutToAdd(s, t, sc, id, add, env) && s.slot.Absent?
    ensures Reaches(s, steps, s') && AddedAlone(s, s', t, sc, scope, id, add, env, room)
  {
    var s1 := Apply(s, Begin(t, add));
    assert s1 == At(s, t, Waiting(add));
    s' := Apply(s1, Create(t, room, env.now));
    steps := [Begin(t, add), Create(t, room, env.now)];
    TwoSteps(s, steps, s');
    assert s.pcs[t := Waiting(add)][t := Idle] == s.pcs;
    var p := PlanCounterAdd(sc, scope, id, add, env);
    CounterIsSound(sc, scope, id, add, env);
    FindIdIs(p.after.items, p.at);
  }

  lemma TwoSteps(s: State, steps: seq<Step>, s': State)
    requires |steps| == 2 && Enabled(s, steps[0]) && Enabled(Apply(s, steps[0]), steps[1])
    requires s' == Apply(Apply(s, steps[0]), steps[1])
    ensures Reaches(s, steps, s')
  {
    hide Enabled, Apply;
    assert steps[1..][0] == steps[1] && steps[1..][1..] == [];
    assert Reaches(s', [], s');
    assert Reaches(Apply(s, steps[0]), steps[1..], s');
  }

  lemma {:induction false} AloneOnItem(s: State, t: nat, sc: Scope, scope: string, id: string, add: int, env: Env,
    room: bool) returns (steps: seq<Step>, s': State)
    requires AboutToAdd(s, t, sc, id, add, env) && s.slot.Plain?
    ensures Reaches(s, steps, s') && AddedAlone(s, s', t, sc, scope, id, add, env, room)
  {
    hide PrecomputeRender;
    var s1 := Apply(s, Begin(t, add));
    assert s1 == At(s, t, Waiting(add));
    s' := Apply(s1, Promote(t, room, env.now));
    steps := [Begin(t, add), Promote(t, room, env.now)];
    TwoSteps(s, steps, s');
    assert s.pcs[t := Waiting(add)][t := Idle] == s.pcs;
    var p := PlanCounterAdd(sc, scope, id, add, env);
    if p.Ready? {
      CounterIsSound(sc, scope, id, add, env);
      FindIdIs(p.after.items, p.at);
    }
  }

  lemma {:induction false} AloneOnCell(s: State, t: nat, sc: Scope, scope: string, id: string, add: int, env: Env)
    returns (steps: seq<Step>, s': State)
    requires AboutToAdd(s, t, sc, id, add, env) && s.slot.Counting?
    ensures Reaches(s, steps, s') && AddedAlone(s, s', t, sc, scope, id, add, env, true)
  {
    var k := s.slot.cell;
    var c, s1 := s.cells[k], Apply(s, Begin(t, add));
    assert s1 == At(s, t, Loading(k, add, true));
    if !InRange(c.value + add) {
      steps, s' := [Begin(t, add), Load(t)], s;
      assert s.pcs[t := Loading(k, add, true)][t := Idle] == s.pcs;
      TwoSteps(s, steps, s');
    } else {
      steps, s' := CellSteps(s, t, add, env.now);
      CellIsStored(s, s', sc, scope, id, add, env);
    }
  }

  /** A successful turn of both compare-and-swap loops. */
  lemma {:induction false} CellSteps(s: State, t: nat, add: int, now: int) returns (steps: seq<Step>, s': State)
    requires t < |s.pcs| && s.pcs[t].Idle? && NobodyInside(s) && !s.detached && add != 0 && InRange(add)
    requires s.slot.Counting? && s.slot.cell < |s.cells| && InRange(s.cells[s.slot.cell].value + add)
    ensures Reaches(s, steps, s') && s'.pcs == s.pcs && s'.slot == s.slot && s'.bytes == s.bytes
    ensures s'.history == s.history + [Added(add)] && |s'.cells| == |s.cells| && s'.codec == s.codec
    ensures var k := s.slot.cell;
      s'.cells[k].value == s.cells[k].value + add && s'.cells[k].ts == Max(s.cells[k].ts, now)
  {
    var k := s.slot.cell;
    var c := s.cells[k];
    var s1, s2 := Apply(s, Begin(t, add)), At(s, t, Swapping(k, add, true, c.value));
    assert s1 == At(s, t, Loading(k, add, true));
    assert Apply(s1, Load(t)) == s2 by { assert s1.pcs[t := s2.pcs[t]] == s2.pcs; }
    var s3 := Apply(s2, Swap(t, now));
    assert s3.pcs == s.pcs[t := Stamping(k, now, true)];
    var s4 := Apply(s3, Stamp(t));
    if now <= c.ts {
      steps, s' := [Begin(t, add), Load(t), Swap(t, now), Stamp(t)], s4;
      assert Reaches(s, steps, s') by { StepByStep(steps, [s, s1, s2, s3, s4]); }
    } else {
      s' := Apply(s4, Publish(t));
      steps := [Begin(t, add), Load(t), Swap(t, now), Stamp(t), Publish(t)];
      assert Reaches(s, steps, s') by { StepByStep(steps, [s, s1, s2, s3, s4, s']); }
    }
    assert s'.pcs == s.pcs;
  }

  lemma {:induction false} CellIsStored(s: State, s': State, sc: Scope, scope: string, id: string, add: int, env: Env)
    requires WellFormed(sc) && ScopeSpec.Fresh(sc, env.minted) && id != "" && Stores(s, sc.items, id)
    requires s.slot.Counting? && s.slot.cell < |s.cells| && InRange(s.cells[s.slot.cell].value + add)
    requires s'.slot == s.slot && |s'.cells| == |s.cells|
    requires var k := s.slot.cell;
      s'.cells[k].value == s.cells[k].value + add && s'.cells[k].ts == Max(s.cells[k].ts, env.now)
    ensures var p := PlanCounterAdd(sc, scope, id, add, env);
      p.Ready? && p.at < |p.after.items| && !p.created && p.delta == 0 && Stores(s', p.after.items, id)
  {
    var p := PlanCounterAdd(sc, scope, id, add, env);
    CounterIsSound(sc, scope, id, add, env);
    FindIdIs(p.after.items, p.at);
  }

  lemma {:induction false} StepByStep(steps: seq<Step>, states: seq<State>)
    requires |states| == |steps| + 1
    requires forall i :: 0 <= i < |steps| ==>
      Enabled(states[i], steps[i]) && states[i + 1] == Apply(states[i], steps[i])
    ensures Reaches(states[0], steps, states[|steps|])
    decreases |steps|
  {
    hide Enabled, Apply;
    if steps != [] {
      var rest, later := steps[1..], states[1..];
      assert forall i :: 0 <= i < |rest| ==> rest[i] == steps[i + 1];
      StepByStep(rest, later);
    }
  }

  /** A thread that nobody races with brings about exactly what the scope does in one piece. */
  lemma {:induction false} AdditionAlone(s: State, t: nat, sc: Scope, scope: string, id: string, add: int, env: Env,
    room: bool) returns (steps: seq<Step>, s': State)
    requires AboutToAdd(s, t, sc, id, add, env)
    ensures Reaches(s, steps, s') && AddedAlone(s, s', t, sc, scope, id, add, env, room || s.slot.Counting?)
  {
    hide *;
    match s.slot
    case Absent => steps, s' := AloneOnNothing(s, t, sc, scope, id, add, env, room);
    case Plain(_) => steps, s' := AloneOnItem(s, t, sc, scope, id, add, env, room);
    case Counting(_) => steps, s' := AloneOnCell(s, t, sc, scope, id, add, env);
  }
}
