/** Lock ordering: shard locks in ascending order, then at most one buffer lock, and the subscription lock
    with nothing else held. Reader/writer locks prefer writers: a waiting writer keeps new readers out. */
module Locks {
  import opened Types

  const NUM_SHARDS := 32

  datatype Lock = Shard(i: nat) | Buffer(b: nat) | Subscribers
  datatype Mode = Read | Write
  datatype Action = Acquire(lock: Lock, mode: Mode) | Release(lock: Lock)

  /** What a thread still has to do, what it holds, and whether it has announced itself as the next
      writer of the lock it is about to acquire. */
  datatype Thread = Thread(rest: seq<Action>, held: map<Lock, Mode>, announced: bool)

  function Rank(l: Lock): nat {
    match l
    case Shard(i) => i
    case Buffer(_) => NUM_SHARDS
    case Subscribers => NUM_SHARDS + 1
  }

  // ---------- Threads taking steps ----------

  function HeldBy(th: Thread, l: Lock): Option<Mode> {
    if l in th.held then Some(th.held[l]) else None
  }

  predicate WantsWrite(th: Thread, l: Lock) {
    th.announced && th.rest != [] && th.rest[0] == Acquire(l, Write)
  }

  predicate NobodyHolds(s: seq<Thread>, l: Lock) {
    forall u :: 0 <= u < |s| ==> l !in s[u].held
  }

  /** The head of the thread's program can be carried out, or announced, right now. */
  predicate CanStep(s: seq<Thread>, t: nat) {
    t < |s| && s[t].rest != [] &&
    match s[t].rest[0]
    case Release(_) => true
    case Acquire(l, Read) => forall u :: 0 <= u < |s| ==> HeldBy(s[u], l) != Some(Write) && !WantsWrite(s[u], l)
    case Acquire(l, Write) =>
      if s[t].announced then NobodyHolds(s, l)
      else forall u :: 0 <= u < |s| ==> HeldBy(s[u], l) != Some(Write) && !WantsWrite(s[u], l)
  }

  function Step(s: seq<Thread>, t: nat): seq<Thread>
    requires CanStep(s, t)
  {
    var th := s[t];
    s[t :=
      match th.rest[0]
      case Release(l) => Thread(th.rest[1..], th.held - {l}, false)
      case Acquire(l, mode) =>
        if mode == Write && !th.announced then th.(announced := true)
        else Thread(th.rest[1..], th.held[l := mode], false)]
  }

  // ---------- The discipline ----------

  /** Every lock is acquired above all locks held, once, and released in the end. */
  predicate Disciplined(held: map<Lock, Mode>, rest: seq<Action>)
    decreases |rest|
  {
    if rest == [] then held == map[]
    else
      match rest[0]
      case Acquire(l, mode) => (forall h :: h in held ==> Rank(h) < Rank(l)) && Disciplined(held[l := mode], rest[1..])
      case Release(l) => l in held && Disciplined(held - {l}, rest[1..])
  }

  predicate AllDisciplined(s: seq<Thread>) {
    forall t :: 0 <= t < |s| ==> Disciplined(s[t].held, s[t].rest)
  }

  /** A writer shares its lock with nobody. */
  predicate Exclusive(s: seq<Thread>) {
    forall t, u, l :: 0 <= t < |s| && 0 <= u < |s| && t != u && l in s[t].held && l in s[u].held ==>
      s[t].held[l] == Read && s[u].held[l] == Read
  }

  lemma {:induction false} StepKeepsDiscipline(s: seq<Thread>, t: nat)
    requires AllDisciplined(s) && CanStep(s, t)
    ensures AllDisciplined(Step(s, t))
  {
  }

  lemma {:induction false} StepKeepsExclusive(s: seq<Thread>, t: nat)
    requires Exclusive(s) && CanStep(s, t)
    ensures Exclusive(Step(s, t))
  {
    var s' := Step(s, t);
    forall u, l | 0 <= u < |s| && u != t && l in s'[t].held && l in s[u].held
      ensures s'[t].held[l] == Read && s[u].held[l] == Read
    {
      if l in s[t].held && s'[t].held[l] == s[t].held[l] {
      } else {
        assert s[t].rest[0] == Acquire(l, s'[t].held[l]);
        assert HeldBy(s[u], l).Some?;
      }
    }
  }

  // ---------- Deadlock freedom ----------

  /** The lock a thread is waiting for, as a rank; releasing counts as waiting for nothing. */
  function WaitsAt(th: Thread): int {
    if th.rest != [] && th.rest[0].Acquire? then Rank(th.rest[0].lock) else -1
  }

  function Highest(s: seq<Thread>, n: nat): (m: nat)
    requires 0 < n <= |s|
    ensures m < n && forall u :: 0 <= u < n ==> WaitsAt(s[u]) <= WaitsAt(s[m])
  {
    if n == 1 then 0
    else
      var m := Highest(s, n - 1);
      if WaitsAt(s[n - 1]) > WaitsAt(s[m]) then n - 1 else m
  }

  /** A thread that holds a lock is releasing something, or waits for a higher lock. */
  lemma HolderWaitsHigher(th: Thread, l: Lock)
    requires Disciplined(th.held, th.rest) && l in th.held
    ensures th.rest != [] && (th.rest[0].Release? || WaitsAt(th) > Rank(l))
  {
  }

  /** Whenever some disciplined thread has not finished, some thread can step. */
  lemma {:induction false} SomebodyCanStep(s: seq<Thread>)
    requires AllDisciplined(s) && exists u :: 0 <= u < |s| && s[u].rest != []
    ensures exists t :: 0 <= t < |s| && CanStep(s, t)
  {
    var unfinished :| 0 <= unfinished < |s| && s[unfinished].rest != [];
    if u :| 0 <= u < |s| && s[u].rest != [] && s[u].rest[0].Release? {
      assert CanStep(s, u);
      return;
    }
    var t := Highest(s, |s|);
    assert WaitsAt(s[unfinished]) >= 0;
    var l := s[t].rest[0].lock;
    forall u | 0 <= u < |s| ensures l !in s[u].held {
      if l in s[u].held { HolderWaitsHigher(s[u], l); }
    }
    if u :| 0 <= u < |s| && WantsWrite(s[u], l) {
      assert CanStep(s, u);
    } else {
      assert CanStep(s, t);
    }
  }

  /** At most one thread is the next writer of a lock. */
  ghost predicate OneNextWriter(s: seq<Thread>) {
    forall t, u, l :: 0 <= t < u < |s| && WantsWrite(s[t], l) ==> !WantsWrite(s[u], l)
  }

  lemma {:induction false} StepKeepsNextWriter(s: seq<Thread>, t: nat)
    requires OneNextWriter(s) && CanStep(s, t)
    ensures OneNextWriter(Step(s, t))
  {
  }

  lemma {:induction false} WriterIsNext(s: seq<Thread>, u: nat, l: Lock, t: nat)
    requires OneNextWriter(s) && u < |s| && WantsWrite(s[u], l) && t != u && CanStep(s, t)
    ensures Step(s, t)[u] == s[u] && (l in Step(s, t)[t].held ==> l in s[t].held)
    ensures (forall v :: 0 <= v < |s| ==> l !in s[v].held) ==> CanStep(s, u)
  {
    if s[t].rest[0] == Acquire(l, Write) {
      assert s[t].announced ==> WantsWrite(s[t], l);
    }
  }

  /** Every step brings some thread closer to its end, so every run is finite. */
  function Work(s: seq<Thread>): nat {
    if s == [] then 0 else 2 * |s[0].rest| + (if s[0].announced then 0 else 1) + Work(s[1..])
  }

  lemma {:induction false} WorkAt(s: seq<Thread>, t: nat, th: Thread)
    requires t < |s|
    ensures Work(s[t := th]) == Work(s)
      - 2 * |s[t].rest| - (if s[t].announced then 0 else 1) + 2 * |th.rest| + (if th.announced then 0 else 1)
  {
    if t == 0 {
      assert s[t := th][1..] == s[1..];
    } else {
      WorkAt(s[1..], t - 1, th);
      assert s[t := th][1..] == s[1..][t - 1 := th];
    }
  }

  lemma StepDoesWork(s: seq<Thread>, t: nat)
    requires CanStep(s, t)
    ensures Work(Step(s, t)) < Work(s)
  {
    WorkAt(s, t, Step(s, t)[t]);
  }

  // ---------- What the operations acquire ----------

  function Guarded(l: Lock, mode: Mode): seq<Action> {
    [Acquire(l, mode), Release(l)]
  }

  /** Each buffer in turn, one at a time. */
  function EachBuffer(buffers: seq<nat>, mode: Mode): seq<Action> {
    if buffers == [] then [] else Guarded(Buffer(buffers[0]), mode) + EachBuffer(buffers[1..], mode)
  }

  function AcquireAll(shards: seq<nat>): seq<Action> {
    if shards == [] then [] else [Acquire(Shard(shards[0]), Write)] + AcquireAll(shards[1..])
  }

  function ReleaseAll(shards: seq<nat>): seq<Action> {
    if shards == [] then [] else [Release(Shard(shards[0]))] + ReleaseAll(shards[1..])
  }

  datatype Operation =
    | Lookup(shard: nat)
    | OnBuffer(buffer: nat, mode: Mode)
    | CreateScope(shard: nat)
    | CleanUp(shard: nat, buffer: nat)
    | DropScope(shard: nat, buffer: nat)
    | WarmShards(shards: seq<nat>, snapshots: seq<nat>, commits: seq<nat>)
    | AllShards(detached: seq<nat>)
    | WithSubscribers(mode: Mode)

  /** The lock actions of one operation, in the order the program takes them. */
  function Program(op: Operation): seq<Action> {
    match op
    case Lookup(i) => Guarded(Shard(i), Read)
    case OnBuffer(b, mode) => Guarded(Buffer(b), mode)
    case CreateScope(i) => Guarded(Shard(i), Read) + Guarded(Shard(i), Write)
    case CleanUp(i, b) => [Acquire(Shard(i), Write), Acquire(Buffer(b), Write), Release(Buffer(b)), Release(Shard(i))]
    case DropScope(i, b) => [Acquire(Shard(i), Write), Acquire(Buffer(b), Write), Release(Buffer(b)), Release(Shard(i))]
    case WarmShards(shards, snapshots, commits) =>
      AcquireAll(shards) + (EachBuffer(snapshots, Read) + (EachBuffer(commits, Write) + ReleaseAll(shards)))
    case AllShards(detached) =>
      var all := seq(NUM_SHARDS, i => i);
      AcquireAll(all) + (EachBuffer(detached, Write) + ReleaseAll(all))
    case WithSubscribers(mode) => Guarded(Subscribers, mode)
  }

  predicate Ascending(shards: seq<nat>) {
    (forall i, j :: 0 <= i < j < |shards| ==> shards[i] < shards[j])
      && forall i :: 0 <= i < |shards| ==> shards[i] < NUM_SHARDS
  }

  predicate ShardsExist(op: Operation) {
    match op
    case Lookup(i) => i < NUM_SHARDS
    case CreateScope(i) => i < NUM_SHARDS
    case CleanUp(i, _) => i < NUM_SHARDS
    case DropScope(i, _) => i < NUM_SHARDS
    case WarmShards(shards, _, _) => Ascending(shards)
    case _ => true
  }

  function Script(ops: seq<Operation>): seq<Action> {
    if ops == [] then [] else Program(ops[0]) + Script(ops[1..])
  }

  /** The map of shards held for writing. */
  function Holding(shards: seq<nat>): map<Lock, Mode> {
    map i | 0 <= i < |shards| :: Shard(shards[i]) := Write
  }

  lemma GuardedIsDisciplined(held: map<Lock, Mode>, l: Lock, mode: Mode, rest: seq<Action>)
    requires Disciplined(held, rest) && forall h :: h in held ==> Rank(h) < Rank(l)
    ensures Disciplined(held, Guarded(l, mode) + rest)
  {
    var all := Guarded(l, mode) + rest;
    assert all[1..] == [Release(l)] + rest && all[1..][1..] == rest;
    assert held[l := mode] - {l} == held;
  }

  lemma {:induction false} EachBufferIsDisciplined(held: map<Lock, Mode>, buffers: seq<nat>, mode: Mode,
    rest: seq<Action>)
    requires Disciplined(held, rest) && forall h :: h in held ==> Rank(h) < NUM_SHARDS
    ensures Disciplined(held, EachBuffer(buffers, mode) + rest)
  {
    if buffers == [] {
      assert [] + rest == rest;
    } else {
      EachBufferIsDisciplined(held, buffers[1..], mode, rest);
      GuardedIsDisciplined(held, Buffer(buffers[0]), mode, EachBuffer(buffers[1..], mode) + rest);
      assert EachBuffer(buffers, mode) + rest
        == Guarded(Buffer(buffers[0]), mode) + (EachBuffer(buffers[1..], mode) + rest);
    }
  }

  lemma AscendingTail(shards: seq<nat>)
    requires Ascending(shards) && shards != []
    ensures Ascending(shards[1..]) && forall i :: i in shards[1..] ==> shards[0] < i
  {
  }

  lemma {:induction false} AcquireAllIsDisciplined(held: map<Lock, Mode>, shards: seq<nat>, rest: seq<Action>)
    requires Ascending(shards) && (shards != [] ==> forall h :: h in held ==> Rank(h) < shards[0])
    requires Disciplined(held + Holding(shards), rest)
    ensures Disciplined(held, AcquireAll(shards) + rest)
    decreases |shards|
  {
    hide Holding, Disciplined;
    if shards == [] {
      assert held + Holding([]) == held by { HoldingNothing(); }
      assert [] + rest == rest;
    } else {
      AscendingTail(shards);
      var more := held[Shard(shards[0]) := Write];
      AddingFirst(held, shards);
      AcquireAllIsDisciplined(more, shards[1..], rest);
      AcquireFirst(held, Shard(shards[0]), AcquireAll(shards[1..]) + rest);
      assert AcquireAll(shards) + rest == [Acquire(Shard(shards[0]), Write)] + (AcquireAll(shards[1..]) + rest);
    }
  }

  lemma AcquireFirst(held: map<Lock, Mode>, l: Lock, rest: seq<Action>)
    requires Disciplined(held[l := Write], rest) && forall h :: h in held ==> Rank(h) < Rank(l)
    ensures Disciplined(held, [Acquire(l, Write)] + rest)
  {
    assert ([Acquire(l, Write)] + rest)[1..] == rest;
  }

  lemma AddingFirst(held: map<Lock, Mode>, shards: seq<nat>)
    requires Ascending(shards) && shards != []
    ensures held[Shard(shards[0]) := Write] + Holding(shards[1..]) == held + Holding(shards)
  {
    HoldingFirst(shards);
  }

  lemma HoldingNothing()
    ensures Holding([]) == map[]
  {
  }

  lemma HoldingFirst(shards: seq<nat>)
    requires Ascending(shards) && shards != []
    ensures Holding(shards) == Holding(shards[1..])[Shard(shards[0]) := Write]
      && Shard(shards[0]) !in Holding(shards[1..])
  {
    assert shards == [shards[0]] + shards[1..];
  }

  lemma {:induction false} ReleaseAllIsDisciplined(shards: seq<nat>, rest: seq<Action>)
    requires Ascending(shards) && Disciplined(map[], rest)
    ensures Disciplined(Holding(shards), ReleaseAll(shards) + rest)
  {
    if shards == [] {
      assert Holding([]) == map[];
      assert [] + rest == rest;
    } else {
      AscendingTail(shards);
      ReleaseAllIsDisciplined(shards[1..], rest);
      HoldingFirst(shards);
      assert Shard(shards[0]) !in Holding(shards[1..]);
      assert Holding(shards) - {Shard(shards[0])} == Holding(shards[1..]);
      assert (ReleaseAll(shards) + rest)[1..] == ReleaseAll(shards[1..]) + rest;
    }
  }

  /** A batch that takes its shards, visits buffers and lets go. */
  lemma {:induction false} BatchIsDisciplined(shards: seq<nat>, first: seq<nat>, firstMode: Mode, second: seq<nat>,
    rest: seq<Action>)
    requires Ascending(shards) && Disciplined(map[], rest)
    ensures Disciplined(map[],
      AcquireAll(shards) + (EachBuffer(first, firstMode) + (EachBuffer(second, Write) + (ReleaseAll(shards) + rest))))
  {
    var held := Holding(shards);
    ReleaseAllIsDisciplined(shards, rest);
    EachBufferIsDisciplined(held, second, Write, ReleaseAll(shards) + rest);
    EachBufferIsDisciplined(held, first, firstMode, EachBuffer(second, Write) + (ReleaseAll(shards) + rest));
    assert map[] + held == held;
    AcquireAllIsDisciplined(map[], shards,
      EachBuffer(first, firstMode) + (EachBuffer(second, Write) + (ReleaseAll(shards) + rest)));
  }

  lemma NestedIsDisciplined(i: nat, b: nat, rest: seq<Action>)
    requires i < NUM_SHARDS && Disciplined(map[], rest)
    ensures Disciplined(map[],
      [Acquire(Shard(i), Write), Acquire(Buffer(b), Write), Release(Buffer(b)), Release(Shard(i))] + rest)
  {
    var held: map<Lock, Mode> := map[Shard(i) := Write];
    assert held - {Shard(i)} == map[];
    assert ([Release(Shard(i))] + rest)[1..] == rest;
    GuardedIsDisciplined(held, Buffer(b), Write, [Release(Shard(i))] + rest);
    var all := [Acquire(Shard(i), Write), Acquire(Buffer(b), Write), Release(Buffer(b)), Release(Shard(i))] + rest;
    assert all[1..] == Guarded(Buffer(b), Write) + ([Release(Shard(i))] + rest);
    assert map[][Shard(i) := Write] == held;
  }

  lemma Regroup(a: seq<Action>, b: seq<Action>, c: seq<Action>, d: seq<Action>, rest: seq<Action>)
    ensures (a + (b + (c + d))) + rest == a + (b + (c + (d + rest)))
  {
  }

  /** Every operation of the program obeys the lock order. */
  lemma {:induction false} ProgramIsDisciplined(op: Operation, rest: seq<Action>)
    requires ShardsExist(op) && Disciplined(map[], rest)
    ensures Disciplined(map[], Program(op) + rest)
  {
    hide Disciplined, Guarded, AcquireAll, ReleaseAll;
    match op
    case Lookup(i) => GuardedIsDisciplined(map[], Shard(i), Read, rest);
    case OnBuffer(b, mode) => GuardedIsDisciplined(map[], Buffer(b), mode, rest);
    case CreateScope(i) =>
      GuardedIsDisciplined(map[], Shard(i), Write, rest);
      GuardedIsDisciplined(map[], Shard(i), Read, Guarded(Shard(i), Write) + rest);
      assert Program(op) + rest == Guarded(Shard(i), Read) + (Guarded(Shard(i), Write) + rest);
    case CleanUp(i, b) => NestedIsDisciplined(i, b, rest);
    case DropScope(i, b) => NestedIsDisciplined(i, b, rest);
    case WarmShards(shards, snapshots, commits) =>
      BatchIsDisciplined(shards, snapshots, Read, commits, rest);
      Regroup(AcquireAll(shards), EachBuffer(snapshots, Read), EachBuffer(commits, Write), ReleaseAll(shards), rest);
    case AllShards(detached) =>
      var all := seq(NUM_SHARDS, i => i);
      BatchIsDisciplined(all, [], Read, detached, rest);
      assert EachBuffer([], Read) == [];
      Regroup(AcquireAll(all), [], EachBuffer(detached, Write), ReleaseAll(all), rest);
      assert [] + (EachBuffer(detached, Write) + ReleaseAll(all)) == EachBuffer(detached, Write) + ReleaseAll(all);
    case WithSubscribers(mode) => GuardedIsDisciplined(map[], Subscribers, mode, rest);
  }

  lemma {:induction false} ScriptIsDisciplined(ops: seq<Operation>)
    requires forall i :: 0 <= i < |ops| ==> ShardsExist(ops[i])
    ensures Disciplined(map[], Script(ops))
  {
    if ops != [] {
      ScriptIsDisciplined(ops[1..]);
      ProgramIsDisciplined(ops[0], Script(ops[1..]));
    }
  }

  // ---------- Whole runs ----------

  function Started(scripts: seq<seq<Operation>>): seq<Thread> {
    seq(|scripts|, t requires 0 <= t < |scripts| => Thread(Script(scripts[t]), map[], false))
  }

  predicate IsRun(scripts: seq<seq<Operation>>, states: seq<seq<Thread>>, turns: seq<nat>) {
    && |states| == |turns| + 1
    && states[0] == Started(scripts)
    && forall i :: 0 <= i < |turns| ==> CanStep(states[i], turns[i]) && states[i + 1] == Step(states[i], turns[i])
  }

  lemma {:induction false} RunKeepsDiscipline(scripts: seq<seq<Operation>>, states: seq<seq<Thread>>,
    turns: seq<nat>, i: nat)
    requires forall t, j :: 0 <= t < |scripts| && 0 <= j < |scripts[t]| ==> ShardsExist(scripts[t][j])
    requires IsRun(scripts, states, turns) && i < |states|
    ensures AllDisciplined(states[i]) && Exclusive(states[i]) && Work(states[i]) + i <= Work(states[0])
  {
    hide CanStep, Step, Disciplined, Work;
    if i == 0 {
      forall t | 0 <= t < |scripts| ensures Disciplined(map[], Script(scripts[t])) {
        ScriptIsDisciplined(scripts[t]);
      }
    } else {
      RunKeepsDiscipline(scripts, states, turns, i - 1);
      StepKeepsDiscipline(states[i - 1], turns[i - 1]);
      StepKeepsExclusive(states[i - 1], turns[i - 1]);
      StepDoesWork(states[i - 1], turns[i - 1]);
    }
  }

  /** However many threads run whatever operations, and however their steps interleave: writers exclude,
      as long as anybody has work left somebody can step, and no run is longer than the work there is. */
  lemma {:induction false} NoDeadlock(scripts: seq<seq<Operation>>, states: seq<seq<Thread>>, turns: seq<nat>, i: nat)
    requires forall t, j :: 0 <= t < |scripts| && 0 <= j < |scripts[t]| ==> ShardsExist(scripts[t][j])
    requires IsRun(scripts, states, turns) && i < |states|
    ensures Exclusive(states[i])
    ensures (exists t :: 0 <= t < |states[i]| && states[i][t].rest != []) ==>
      exists t :: 0 <= t < |states[i]| && CanStep(states[i], t)
    ensures |turns| <= Work(states[0])
  {
    hide CanStep, Step, Disciplined, Work, IsRun;
    RunKeepsDiscipline(scripts, states, turns, i);
    RunLength(scripts, states, turns);
    if exists t :: 0 <= t < |states[i]| && states[i][t].rest != [] {
      SomebodyCanStep(states[i]);
    }
  }

  lemma {:induction false} RunKeepsNextWriter(scripts: seq<seq<Operation>>, states: seq<seq<Thread>>,
    turns: seq<nat>, i: nat)
    requires IsRun(scripts, states, turns) && i < |states|
    ensures OneNextWriter(states[i])
  {
    hide CanStep, Step;
    if i > 0 {
      RunKeepsNextWriter(scripts, states, turns, i - 1);
      StepKeepsNextWriter(states[i - 1], turns[i - 1]);
    }
  }

  /** A writer that has announced itself is not overtaken: from then on, in every run, nobody else enters its
      lock, by whatever step, and once those inside have left it can go in. */
  lemma {:induction false} NobodyOvertakes(scripts: seq<seq<Operation>>, states: seq<seq<Thread>>, turns: seq<nat>,
    i: nat, u: nat, l: Lock)
    requires IsRun(scripts, states, turns) && i < |turns| && turns[i] != u
    requires u < |states[i]| && WantsWrite(states[i][u], l)
    ensures turns[i] < |states[i]| == |states[i + 1]|
    ensures l in states[i + 1][turns[i]].held ==> l in states[i][turns[i]].held
    ensures WantsWrite(states[i + 1][u], l)
    ensures (forall v :: 0 <= v < |states[i]| ==> l !in states[i][v].held) ==> CanStep(states[i], u)
  {
    RunKeepsNextWriter(scripts, states, turns, i);
    WriterIsNext(states[i], u, l, turns[i]);
  }

  lemma RunLength(scripts: seq<seq<Operation>>, states: seq<seq<Thread>>, turns: seq<nat>)
    requires forall t, j :: 0 <= t < |scripts| && 0 <= j < |scripts[t]| ==> ShardsExist(scripts[t][j])
    requires IsRun(scripts, states, turns)
    ensures |turns| <= Work(states[0])
  {
    RunKeepsDiscipline(scripts, states, turns, |turns|);
  }

  /** The order matters: a thread that reached from a buffer back to its shard would deadlock with one
      that deletes the scope. */
  lemma WrongOrderDeadlocks(i: nat, b: nat)
    requires i < NUM_SHARDS
    ensures var up := Thread([Acquire(Shard(i), Write), Release(Shard(i)), Release(Buffer(b))],
      map[Buffer(b) := Write], true);
      var down := Thread([Acquire(Buffer(b), Write), Release(Buffer(b)), Release(Shard(i))], map[Shard(i) := Write],
        true);
      !CanStep([up, down], 0) && !CanStep([up, down], 1) && !Disciplined(up.held, up.rest)
  {
    var up := Thread([Acquire(Shard(i), Write), Release(Shard(i)), Release(Buffer(b))], map[Buffer(b) := Write], true);
    var down := Thread([Acquire(Buffer(b), Write), Release(Buffer(b)), Release(Shard(i))], map[Shard(i) := Write],
      true);
    assert Shard(i) in down.held && Buffer(b) in up.held;
    assert [up, down][0] == up && [up, down][1] == down;
  }

  // ---------- Which shards a batch needs ----------

  /** The shards of a batch of scopes, in ascending order, each once, and no others. */
  method ShardsForScopes(shardOf: string -> nat, scopes: seq<string>) returns (shards: seq<nat>)
    requires forall scope :: shardOf(scope) < NUM_SHARDS
    ensures Ascending(shards)
    ensures forall i :: i in shards <==> exists k :: 0 <= k < |scopes| && shardOf(scopes[k]) == i
  {
    var seen := new bool[NUM_SHARDS](_ => false);
    for k := 0 to |scopes|
      invariant forall i :: 0 <= i < NUM_SHARDS ==> (seen[i] <==> exists j :: 0 <= j < k && shardOf(scopes[j]) == i)
    {
      seen[shardOf(scopes[k])] := true;
    }
    shards := [];
    for i := 0 to NUM_SHARDS
      invariant Ascending(shards) && forall j :: 0 <= j < |shards| ==> shards[j] < i
      invariant forall j :: j in shards <==> 0 <= j < i && seen[j]
    {
      if seen[i] {
        shards := shards + [i];
      }
    }
  }
}
