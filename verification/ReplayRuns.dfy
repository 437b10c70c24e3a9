/** Concrete runs from boot: where replay works, where it does not, and what a wipe between a commit and
    its event does to the accounts. */
module ReplayRuns {
  import opened Types
  import opened Uuids
  import opened ScopeSpec
  import opened Validation
  import opened StoreSpec
  import opened StoreLaws
  import opened BulkSpec
  import opened Replay
  import opened ReplayLimits
  import opened Emissions

  // ---------- A small store ----------

  function Small(events: EventsMode): Config {
    Config(10, 0x1_0000, 1000, events, 10, 1000)
  }

  const SMALL := Small(Off)

  /** Distinct v7 values. */
  function MintNo(n: byte): (u: Uuid)
    ensures IsV7(u) && u.bytes[0] == n
  {
    Uuid([n, 0, 0, 0, 0, 0, 0x70, 0, 0x80, 0, 0, 0, 0, 0, 0, 0])
  }

  function TickNo(n: byte): Tick {
    Tick(n as int, MintNo(n), n as int, MintNo(255))
  }

  const ONE: Bytes := [0x31]
  const TWO: Bytes := [0x32]

  function Put(payload: Bytes): Command {
    StoreSpec.Upsert(Entry("a", "x", 0, 0, None, payload, None, None))
  }

  /** The scope a first upsert of `payload` leaves. */
  function Holding(payload: Bytes, n: byte): (s: Scope)
    ensures |s.items| == 1
  {
    Scope([Entry("a", "x", 1, n as int, Some(MintNo(n)), payload, None, None)], 1, Some(MintNo(n)), Some(MintNo(n)))
  }

  predicate Lenient(codec: Codec) {
    codec.keyOk("a") && codec.keyOk("x") && codec.payloadOk(ONE) && codec.payloadOk(TWO)
  }

  lemma NotRendered(codec: Codec, payload: Bytes)
    requires payload in [ONE, TWO]
    ensures RenderFor(codec, payload, None) == None
  {
  }

  lemma FirstPlan(codec: Codec, payload: Bytes, n: byte)
    requires payload in [ONE, TWO]
    ensures PlanOf(EMPTY_SCOPE, ScopeSpec.Upsert(Put(payload).item), Env(codec, true, 10, 1000, n as int, MintNo(n)))
      == Ready(87, Holding(payload, n), 0, true)
  {
    hide MintNo, RenderFor;
    NotRendered(codec, payload);
    assert [] + Holding(payload, n).items == Holding(payload, n).items;
  }

  lemma PutIsValid(codec: Codec, payload: Bytes)
    requires Lenient(codec) && payload in [ONE, TWO]
    ensures ValidateUpsertItem(codec, Put(payload).item, SMALL.maxItemBytes) == Ok(Put(payload).item)
  {
    hide RenderFor;
    NotRendered(codec, payload);
    assert "a" !in RESERVED;
  }

  lemma {:induction false} FirstPut(events: EventsMode, codec: Codec, marshal: WriteEvent -> Bytes, payload: Bytes,
    n: byte)
    requires Lenient(codec) && payload in [ONE, TWO]
    ensures var m := Boot(Small(events), codec, marshal); var d := Mutation(m, Put(payload), TickNo(n));
      d.changed && d.mem == Exchanged(m, "a", Holding(payload, n)) && "a" !in m.scopes
      && d.item == Some(Holding(payload, n).items[0])
  {
    hide MintNo, ValidateUpsertItem, PlanOf, Exchanged, Holding;
    PutIsValid(codec, payload);
    FirstPlan(codec, payload, n);
    assert "a" !in Boot(Small(events), codec, marshal).scopes;
  }

  /** The store after one upsert from boot: sound, and no other mint in use. */
  lemma {:induction false} AfterFirstPut(codec: Codec, marshal: WriteEvent -> Bytes, payload: Bytes, n: byte)
    requires Lenient(codec) && payload in [ONE, TWO]
    ensures var m := Boot(SMALL, codec, marshal); var x := Exec(m, Put(payload), TickNo(n)).mem;
      && Kept(m) && FreshTick(m, TickNo(n)) && Recordable(m, Put(payload), TickNo(n))
      && Kept(x) && x.cfg == SMALL && x.codec == codec && "a" in x.scopes && x.scopes["a"] == Holding(payload, n)
      && forall k: byte :: k != n && n != 255 ==> FreshTick(x, TickNo(k))
  {
    hide StoreOk, Conserved, SizeSum;
    var m, c, t := Boot(SMALL, codec, marshal), Put(payload), TickNo(n);
    BootIsOk(SMALL, codec, marshal);
    FirstPut(Off, codec, marshal, payload, n);
    assert FreshTick(m, t);
    assert "a" != EVENTS;
    ExecKeeps(m, c, t);
    EmitFields(Mutation(m, c, t).mem, EventFor(c, Mutation(m, c, t).item, t), t);
  }

  /** The scope a second upsert of the same id leaves. */
  function Rewritten(payload: Bytes): (s: Scope)
    ensures |s.items| == 1
  {
    Scope([Entry("a", "x", 1, 2, Some(MintNo(1)), payload, None, None)], 1, Some(MintNo(1)), Some(MintNo(1)))
  }

  lemma SecondPlan(codec: Codec, first: Bytes, second: Bytes)
    requires first in [ONE, TWO] && second in [ONE, TWO]
    ensures PlanOf(Holding(first, 1), ScopeSpec.Upsert(Put(second).item), Env(codec, true, 10, 1000, 2, MintNo(2)))
      == Ready(0, Rewritten(second), 0, false)
  {
    hide MintNo, RenderFor;
    NotRendered(codec, second);
    assert FindId(Holding(first, 1).items, "x") == Some(0);
    assert Holding(first, 1).items[0 := Rewritten(second).items[0]] == Rewritten(second).items;
  }

  lemma {:induction false} SecondPut(codec: Codec, first: Bytes, second: Bytes, x: Mem, events: EventsMode)
    requires Lenient(codec) && first in [ONE, TWO] && second in [ONE, TWO]
    requires x.cfg == Small(events) && x.codec == codec && "a" in x.scopes && x.scopes["a"] == Holding(first, 1)
    ensures var d := Mutation(x, Put(second), TickNo(2));
      d.changed && d.mem == Exchanged(x, "a", Rewritten(second)) && d.item == Some(Rewritten(second).items[0])
  {
    hide MintNo, ValidateUpsertItem, PlanOf, Exchanged, Holding, Rewritten;
    PutIsValid(codec, second);
    SecondPlan(codec, first, second);
  }

  lemma {:induction false} PutTwice(codec: Codec, marshal: WriteEvent -> Bytes, first: Bytes, second: Bytes)
    requires Lenient(codec) && first in [ONE, TWO] && second in [ONE, TWO]
    ensures var m, ts := Boot(SMALL, codec, marshal), [TickNo(1), TickNo(2)];
      var x := Executed(m, [Put(first), Put(second)], ts);
      && MintsFresh(m, [Put(first), Put(second)], ts)
      && "a" in x.scopes && x.scopes["a"] == Rewritten(second)
  {
    hide FreshTick, Holding, Recordable, TickNo, MintNo, Kept, Mutation, Emit, Rewritten;
    var m, ts, cs := Boot(SMALL, codec, marshal), [TickNo(1), TickNo(2)], [Put(first), Put(second)];
    AfterFirstPut(codec, marshal, first, 1);
    var y := Exec(m, Put(first), TickNo(1)).mem;
    assert [Put(first)][..0] == [] && cs[..0] == [] && cs[..1] == [Put(first)];
    assert Executed(m, [Put(first)], ts) == y;
    SecondPut(codec, first, second, y, Off);
    var d := Mutation(y, Put(second), TickNo(2));
    EmitFields(d.mem, EventFor(Put(second), d.item, TickNo(2)), TickNo(2));
  }

  /** Two upserts of one id, from boot, in the two orders. */
  lemma {:induction false} SwapFromBoot(codec: Codec, marshal: WriteEvent -> Bytes)
    requires Lenient(codec)
    ensures var m, ts := Boot(SMALL, codec, marshal), [TickNo(1), TickNo(2)];
      !Mirrors(Executed(m, [Put(ONE), Put(TWO)], ts), Executed(m, [Put(TWO), Put(ONE)], ts))
  {
    hide Executed, MintsFresh;
    PutTwice(codec, marshal, ONE, TWO);
    PutTwice(codec, marshal, TWO, ONE);
    DifferentContents();
  }

  lemma DifferentContents()
    ensures !SameScope(Rewritten(TWO), Rewritten(ONE)) && "a" != EVENTS
  {
    assert !SameEntry(Rewritten(TWO).items[0], Rewritten(ONE).items[0]);
  }

  lemma OwnUuids(codec: Codec)
    requires Lenient(codec)
    ensures FindUuid(Holding(ONE, 1).items, MintNo(1)) == Some(0) && FindUuid(Holding(ONE, 2).items, MintNo(1)) == None
    ensures !Fresh(Holding(ONE, 1), MintNo(1)) && DeleteOk(codec, "a", "", 0, Some(MintNo(1))) && "a" != EVENTS
  {
    hide MintNo;
  }

  /** An item appended on both sides under its own uuid each, then deleted by the original's uuid. */
  lemma {:induction false} UuidFromBoot(codec: Codec, marshal: WriteEvent -> Bytes)
    requires Lenient(codec)
    ensures var b, u := Boot(SMALL, codec, marshal), MintNo(1);
      var m, r := Exec(b, Put(ONE), TickNo(1)).mem, Exec(b, Put(ONE), TickNo(2)).mem;
      Mirrors(m, r) && !Mirrors(Exec(m, ByUuid("a", u), TickNo(3)).mem, Exec(r, ByUuid("a", u), TickNo(3)).mem)
  {
    var b, u := Boot(SMALL, codec, marshal), MintNo(1);
    var m, r := Exec(b, Put(ONE), TickNo(1)).mem, Exec(b, Put(ONE), TickNo(2)).mem;
    hide *;
    SmallFacts(Off, codec, marshal, ONE);
    BootsMirror(SMALL, codec, marshal);
    AfterFirstPut(codec, marshal, ONE, 1);
    AfterFirstPut(codec, marshal, ONE, 2);
    OwnUuids(codec);
    RepeatMirrors(b, b, Put(ONE), TickNo(1), TickNo(2));
    UuidDeletionReplays(m, r, "a", u, TickNo(3), TickNo(3));
  }

  // ---------- Where replay works ----------

  /** Events are short JSON objects. */
  ghost predicate Terse(marshal: WriteEvent -> Bytes) {
    forall e :: 0 < |marshal(e)| <= 100 && marshal(e)[0] == 0x7B
  }

  lemma {:induction false} EventFits(s: Scope, codec: Codec, marshal: WriteEvent -> Bytes, ev: WriteEvent, env: Env)
    requires Terse(marshal) && env.codec == codec && env.attached && env.maxItems == 0
      && env.maxItemBytes == 1000 + EVENTS_ENVELOPE
    ensures var p := PlanOf(s, ScopeSpec.Append(Entry(EVENTS, "", 0, 0, None, marshal(ev), None, None)), env);
      p.Ready? && 0 < p.delta <= 191
  {
    assert 0 < |marshal(ev)| <= 100 && marshal(ev)[0] == 0x7B;
  }

  /** At boot no uuid is in use, so any mint is fresh. */
  lemma RunOfOne(cfg: Config, codec: Codec, marshal: WriteEvent -> Bytes, c: Command, t: Tick)
    ensures var m := Boot(cfg, codec, marshal);
      FreshTick(m, t) && MintsFresh(m, [c], [t]) && Executed(m, [c], [t]) == Exec(m, c, t).mem
  {
    hide Exec;
    var m := Boot(cfg, codec, marshal);
    assert [c][..0] == [] && Executed(m, [], [t]) == m;
  }

  /** The replay theorem applies to a run that does something: one upsert in full mode from boot leaves one
      record, drops nothing, and its replay mirrors it. */
  lemma {:induction false} OneRecordReplays(codec: Codec, marshal: WriteEvent -> Bytes)
    requires Lenient(codec) && Terse(marshal)
    ensures var m, r := Boot(Small(Full), codec, marshal), Boot(Small(Off), codec, marshal);
      var x, replay := Executed(m, [Put(ONE)], [TickNo(1)]), Commands(Executed(m, [Put(ONE)], [TickNo(1)]).log);
      x.drops == 0 && replay == [Put(ONE)] && Mirrors(x, Executed(r, replay, [TickNo(2)]))
  {
    var m, r := Boot(Small(Full), codec, marshal), Boot(Small(Off), codec, marshal);
    var c, t := Put(ONE), TickNo(1);
    hide *;
    SmallFacts(Full, codec, marshal, ONE);
    OneRecord(codec, marshal);
    RunOfOne(Small(Full), codec, marshal, c, t);
    RunOfOne(Small(Off), codec, marshal, c, TickNo(2));
    StepLog(m, c, t);
    OneCommand(Exec(m, c, t).mem.log, c);
    ReplayFromBoot(Small(Full), codec, marshal, [c], [t], [TickNo(2)]);
  }

  lemma SmallFacts(events: EventsMode, codec: Codec, marshal: WriteEvent -> Bytes, payload: Bytes)
    ensures var m := Boot(Small(events), codec, marshal);
      && m.cfg == Small(events) && m.cfg.events == events && m.log == [] && m.drops == 0 && Kept(m)
      && Small(events).Sane() && Small(Full).(events := Off) == Small(Off) && SMALL == Small(Off)
      && SMALL.(events := Off) == SMALL
      && Repeatable(Put(payload)) && FromClientCommand(Put(payload)) && Target(Put(payload)) == "a" != EVENTS
  {
    BootIsOk(Small(events), codec, marshal);
  }

  lemma OneCommand(log: seq<WriteEvent>, c: Command)
    requires |log| == 1 && Replayed(log[0]) == c
    ensures Commands(log) == [c]
  {
  }

  lemma {:induction false} OneRecord(codec: Codec, marshal: WriteEvent -> Bytes)
    requires Lenient(codec) && Terse(marshal)
    ensures Exec(Boot(Small(Full), codec, marshal), Put(ONE), TickNo(1)).mem.drops == 0
    ensures Recordable(Boot(Small(Full), codec, marshal), Put(ONE), TickNo(1))
  {
    var m, c, t := Boot(Small(Full), codec, marshal), Put(ONE), TickNo(1);
    FirstPut(Full, codec, marshal, ONE, 1);
    var d := Mutation(m, c, t);
    var ev := EventFor(c, d.item, t);
    EventFits(EMPTY_SCOPE, codec, marshal, ev, EnvFor(d.mem, EVENTS, t.eventNow, t.eventUuid));
    assert d.mem.scopes[EVENTS] == EMPTY_SCOPE && d.mem.total == 2048 + 1024 + 87 by {
      assert "a" != EVENTS;
      assert SizeSum(Holding(ONE, 1).items) == Size(Holding(ONE, 1).items[0]) + SizeSum(Holding(ONE, 1).items[1..]);
    }
    hide PlanOf, Mutation, Put, MintNo, Holding;
  }

  // ---------- A wipe between a commit and its event ----------

  function TwoThreads(codec: Codec, marshal: WriteEvent -> Bytes): State {
    State(Boot(Small(Full), codec, marshal), [Resting, Resting], 0, [])
  }

  /** One thread commits, the store is wiped, and only then the thread writes its event. */
  const CARRIED: seq<Step> := [Mutate(0, Put(ONE), TickNo(1)), Restart(RESERVED_SCOPES), Announce(0, TickNo(2))]

  lemma FirstStep(codec: Codec, marshal: WriteEvent -> Bytes)
    requires Lenient(codec)
    ensures var s, step := TwoThreads(codec, marshal), Mutate(0, Put(ONE), TickNo(1));
      var ev := ItemEvent(OpUpsert, Holding(ONE, 1).items[0]);
      && Booted(s) && Kept(s.mem) && Enabled(s, step)
      && Apply(s, step)
         == State(Exchanged(s.mem, "a", Holding(ONE, 1)).(commits := 1), [Announcing(ev), Resting], 0, [ev])
  {
    hide Mutation, StoreOk, Conserved, SizeSum, Holding, MintNo;
    SmallFacts(Full, codec, marshal, ONE);
    FirstPut(Full, codec, marshal, ONE, 1);
    RunOfOne(Small(Full), codec, marshal, Put(ONE), TickNo(1));
    assert [Resting, Resting][0 := Announcing(ItemEvent(OpUpsert, Holding(ONE, 1).items[0]))]
      == [Announcing(ItemEvent(OpUpsert, Holding(ONE, 1).items[0])), Resting];
  }

  /** A run at rest whose commits since the wipe are not the entries and drops since then: there were no
      commits, and one event that the wipe found pending. */
  lemma {:induction false} WipeBreaksTheEquation(codec: Codec, marshal: WriteEvent -> Bytes)
    requires Lenient(codec)
    ensures exists states: seq<State> ::
      && IsRun(states, CARRIED) && states[0] == TwoThreads(codec, marshal)
      && (forall t :: 0 <= t < |states[3].pcs| ==> states[3].pcs[t].Resting?)
      && PendingAtReset(states, CARRIED, 3) == 1
      && EVENTS in states[3].mem.scopes && states[3].mem.commits == 0 && Settled(states[3].mem) == 1
  {
    hide Mutation, StoreOk, Exchanged, Holding, MintNo, Written, WithScopes, Logged, ItemEvent, TwoThreads, TickNo, Put,
      Kept, Enabled, Apply, Accounts, Settled, Booted, PendingIn;
    FirstStep(codec, marshal);
    var s0, s1 := TwoThreads(codec, marshal), Apply(TwoThreads(codec, marshal), CARRIED[0]);
    BootedIsInv(s0);
    StepKeepsInv(s0, CARRIED[0]);
    WipeIsAStep(s1);
    var s2 := Apply(s1, CARRIED[1]);
    StepKeepsInv(s1, CARRIED[1]);
    Wiped(s1);
    LateEvent(s2, CARRIED[2]);
    var s3 := Apply(s2, CARRIED[2]);
    PendingOne(s1.pcs);
    var states := [s0, s1, s2, s3];
    assert forall i :: 0 <= i < |CARRIED| ==>
      Enabled(states[i], CARRIED[i]) && states[i + 1] == Apply(states[i], CARRIED[i]);
    assert PendingAtReset(states, CARRIED, 3) == PendingAtReset(states, CARRIED, 2) == 1;
    assert IsRun(states, CARRIED);
  }

  lemma PendingOne(pcs: seq<Pc>)
    requires |pcs| == 2 && pcs[0].Announcing? && pcs[1].Resting?
    ensures PendingIn(pcs) == 1
  {
    assert pcs[1..] == [Resting] && [Resting][1..] == [];
  }

  lemma Wiped(s: State)
    requires Enabled(s, Restart(RESERVED_SCOPES)) && Apply(s, Restart(RESERVED_SCOPES)).mem == Wipe(s.mem)
    ensures var s' := Apply(s, Restart(RESERVED_SCOPES));
      && EVENTS in s'.mem.scopes && s'.mem.scopes[EVENTS] == EMPTY_SCOPE && s'.pcs == s.pcs
      && s'.mem.commits == 0 && Settled(s'.mem) == 0
  {
  }

  /** Any event written into an empty event scope, or dropped, settles one. */
  lemma {:induction false} LateEvent(s: State, step: Step)
    requires Inv(s) && step == Announce(0, TickNo(2)) && |s.pcs| == 2 && s.pcs[0].Announcing? && s.pcs[1].Resting?
    requires EVENTS in s.mem.scopes && s.mem.scopes[EVENTS] == EMPTY_SCOPE && s.mem.commits == 0 && Settled(s.mem) == 0
    ensures Enabled(s, step)
    ensures var s' := Apply(s, step);
      && s'.pcs == [Resting, Resting] && EVENTS in s'.mem.scopes && s'.mem.commits == 0 && Settled(s'.mem) == 1
  {
    hide StoreOk, Logged, Written, Settled, TickNo;
    WrittenKeeps(s.mem, s.pcs[0].ev, step.tick);
    EventsExist(Apply(s, step).mem);
  }

  // ---------- Two commits recorded in the other order ----------

  /** Both threads commit, then the second one writes its event before the first. */
  const CROSSED: seq<Step> := [
    Mutate(0, Put(ONE), TickNo(1)), Mutate(1, Put(TWO), TickNo(2)), Announce(1, Late(3)), Announce(0, Late(4))]

  function Late(n: byte): Tick {
    Tick(n as int, MintNo(n), n as int, MintNo(n))
  }

  function EventOne(): WriteEvent { ItemEvent(OpUpsert, Holding(ONE, 1).items[0]) }
  function EventTwo(): WriteEvent { ItemEvent(OpUpsert, Rewritten(TWO).items[0]) }

  /** The store after both commits, before any event. */
  function BothIn(codec: Codec, marshal: WriteEvent -> Bytes): Mem {
    var m := Boot(Small(Full), codec, marshal);
    Exchanged(Exchanged(m, "a", Holding(ONE, 1)).(commits := 1), "a", Rewritten(TWO)).(commits := 2)
  }

  lemma OneInFacts(codec: Codec, marshal: WriteEvent -> Bytes)
    ensures var m := Exchanged(Boot(Small(Full), codec, marshal), "a", Holding(ONE, 1)).(commits := 1);
      && m.cfg == Small(Full) && m.codec == codec && "a" in m.scopes && m.scopes["a"] == Holding(ONE, 1)
      && m.commits == 1
      && FreshTick(m, TickNo(2))
  {
    hide SizeSum;
  }

  lemma {:induction false} SecondStep(codec: Codec, marshal: WriteEvent -> Bytes)
    requires Lenient(codec)
    ensures var m := Exchanged(Boot(Small(Full), codec, marshal), "a", Holding(ONE, 1)).(commits := 1);
      var s, step := State(m, [Announcing(EventOne()), Resting], 0, [EventOne()]), Mutate(1, Put(TWO), TickNo(2));
      && Enabled(s, step)
      && Apply(s, step) == State(BothIn(codec, marshal), [Announcing(EventOne()), Announcing(EventTwo())], 0,
           [EventOne(), EventTwo()])
  {
    hide Mutation, Exchanged, Holding, Rewritten, MintNo, FreshTick, StoreOk, Conserved, Boot, TickNo, Kept, Lenient;
    OneInFacts(codec, marshal);
    var m := Exchanged(Boot(Small(Full), codec, marshal), "a", Holding(ONE, 1)).(commits := 1);
    SecondPut(codec, ONE, TWO, m, Full);
    SmallFacts(Full, codec, marshal, TWO);
    ExchangedConfig(m, Rewritten(TWO));
    assert [Announcing(EventOne()), Resting][1 := Announcing(EventTwo())]
      == [Announcing(EventOne()), Announcing(EventTwo())];
    assert [EventOne()] + [EventTwo()] == [EventOne(), EventTwo()];
  }

  lemma ExchangedConfig(m: Mem, after: Scope)
    ensures Exchanged(m, "a", after).cfg == m.cfg
  {
    hide SizeSum;
  }

  /** A short event is written, not dropped, while there is room. */
  lemma {:induction false} ShortEventIsWritten(m: Mem, ev: WriteEvent, t: Tick)
    requires StoreOk(m) && Logged(m) && m.cfg == Small(Full) && Terse(m.marshal) && m.total <= 10000
    requires EVENTS in m.scopes && Fresh(m.scopes[EVENTS], t.eventUuid)
    ensures var m' := Written(m, ev, t);
      && m'.log == m.log + [ev] && m'.total <= m.total + 191 && m'.marshal == m.marshal && m'.cfg == m.cfg
      && m'.drops == m.drops
  {
    hide StoreOk, Logged, PlanOf, Exchanged, Fresh, OnlyScope, Settled, Terse;
    WrittenKeeps(m, ev, t);
    EventFits(m.scopes[EVENTS], m.codec, m.marshal, ev, EnvFor(m, EVENTS, t.eventNow, t.eventUuid));
    var w := ScopeSpec.Append(EventItem(m, ev));
    TryWriteLeaves(m, EVENTS, w, t.eventNow, t.eventUuid);
    WrittenTotal(m, w, t);
  }

  /** What a write adds to the byte counter is what it reserved. */
  lemma {:induction false} WrittenTotal(m: Mem, w: Write, t: Tick)
    requires StoreOk(m) && EVENTS in m.scopes && Fresh(m.scopes[EVENTS], t.eventUuid)
    requires w.Append? && w.req.scope == EVENTS && w.req.uuid.None?
    ensures var d, p := TryWrite(m, EVENTS, w, t.eventNow, t.eventUuid),
      PlanOf(m.scopes[EVENTS], w, EnvFor(m, EVENTS, t.eventNow, t.eventUuid));
      d.changed ==> p.Ready? && d.mem.total == m.total + p.delta
  {
    if TryWrite(m, EVENTS, w, t.eventNow, t.eventUuid).changed {
      ReadyWriteKeeps(m, EVENTS, w, t.eventNow, t.eventUuid);
    }
    hide PlanOf, WellFormed, StoreOk, Fresh;
  }

  lemma {:induction false} BothInFacts(codec: Codec, marshal: WriteEvent -> Bytes)
    ensures var m := BothIn(codec, marshal);
      && m.cfg == Small(Full) && m.codec == codec && m.marshal == marshal && m.log == [] && m.total == 3159
      && m.drops == 0
      && EVENTS in m.scopes && m.scopes[EVENTS] == EMPTY_SCOPE && "a" in m.scopes && m.scopes["a"] == Rewritten(TWO)
  {
    hide MintNo;
    assert "a" != EVENTS && "a" != INBOX;
    assert SizeSum(Holding(ONE, 1).items) == 87 by {
      assert SizeSum(Holding(ONE, 1).items) == Size(Holding(ONE, 1).items[0]) + SizeSum(Holding(ONE, 1).items[1..]);
    }
    assert SizeSum(Rewritten(TWO).items) == 87 by {
      assert SizeSum(Rewritten(TWO).items) == Size(Rewritten(TWO).items[0]) + SizeSum(Rewritten(TWO).items[1..]);
    }
  }

  /** After one event the event scope holds that event's uuid only. */
  lemma {:induction false} NextIsFresh(m: Mem, ev: WriteEvent, t: Tick, u: Uuid)
    requires StoreOk(m) && EVENTS in m.scopes && m.scopes[EVENTS] == EMPTY_SCOPE && u != t.eventUuid
    ensures var m' := Written(m, ev, t); EVENTS in m'.scopes && Fresh(m'.scopes[EVENTS], u)
  {
    EventIsPushed(m, ev, t);
    hide StoreOk, TryWrite, OnlyScope, EventItem, Recorded;
  }

  lemma CommandsOfEvents()
    ensures Commands([EventTwo(), EventOne()]) == [Put(TWO), Put(ONE)]
  {
    hide MintNo;
    ItemRecord(OpUpsert, Holding(ONE, 1).items[0], Put(ONE).item);
    ItemRecord(OpUpsert, Rewritten(TWO).items[0], Put(TWO).item);
    hide Replayed;
  }

  /** The two late steps of the crossed run. */
  lemma {:induction false} CrossedEvents(codec: Codec, marshal: WriteEvent -> Bytes)
    requires Terse(marshal) && StoreOk(BothIn(codec, marshal)) && Logged(BothIn(codec, marshal))
    ensures var m2 := BothIn(codec, marshal);
      var m3 := Written(m2, EventTwo(), Late(3));
      var m4 := Written(m3, EventOne(), Late(4));
      && EVENTS in m2.scopes && Fresh(m2.scopes[EVENTS], Late(3).eventUuid)
      && EVENTS in m3.scopes && Fresh(m3.scopes[EVENTS], Late(4).eventUuid)
      && m4.log == [EventTwo(), EventOne()] && m4.cfg == Small(Full) && m4.drops == m2.drops == 0
      && "a" in m4.scopes && m4.scopes["a"] == Rewritten(TWO)
  {
    BothInFacts(codec, marshal);
    hide StoreOk, Logged, Written, BothIn, EventOne, EventTwo, Rewritten, MintNo, Small, Settled, Terse;
    var m2 := BothIn(codec, marshal);
    ShortEventIsWritten(m2, EventTwo(), Late(3));
    WrittenKeeps(m2, EventTwo(), Late(3));
    NextIsFresh(m2, EventTwo(), Late(3), MintNo(4));
    var m3 := Written(m2, EventTwo(), Late(3));
    ShortEventIsWritten(m3, EventOne(), Late(4));
    WrittenKeeps(m3, EventOne(), Late(4));
    assert [] + [EventTwo()] == [EventTwo()] && [EventTwo()] + [EventOne()] == [EventTwo(), EventOne()];
    assert "a" != EVENTS;
  }

  lemma {:induction false} CrossedStates(codec: Codec, marshal: WriteEvent -> Bytes) returns (states: seq<State>)
    requires Lenient(codec) && Terse(marshal)
    ensures IsRun(states, CROSSED) && states[0] == TwoThreads(codec, marshal)
    ensures states[4].pcs == [Resting, Resting] && states[4].mem.drops == states[0].mem.drops
    ensures states[4].history == [EventOne(), EventTwo()] && states[4].mem.log == [EventTwo(), EventOne()]
    ensures "a" in states[4].mem.scopes && states[4].mem.scopes["a"] == Rewritten(TWO)
  {
    hide Mutation, StoreOk, Exchanged, Holding, MintNo, Written, WithScopes, Logged, TwoThreads, TickNo, Put, Kept,
      Settled, Booted, PendingIn, BothIn, EventFor, FreshTick, Fresh, Rewritten, Target, FromClientCommand;
    FirstStep(codec, marshal);
    SecondStep(codec, marshal);
    FreshMem(codec, marshal);
    var s0 := TwoThreads(codec, marshal);
    var s1 := Apply(s0, CROSSED[0]);
    BootedIsInv(s0);
    StepKeepsInv(s0, CROSSED[0]);
    var s2 := Apply(s1, CROSSED[1]);
    StepKeepsInv(s1, CROSSED[1]);
    CrossedEvents(codec, marshal);
    var s3 := Apply(s2, CROSSED[2]);
    var s4 := Apply(s3, CROSSED[3]);
    states := [s0, s1, s2, s3, s4];
    assert forall i :: 0 <= i < |CROSSED| ==>
      Enabled(states[i], CROSSED[i]) && states[i + 1] == Apply(states[i], CROSSED[i]);
  }

  /** A run from boot, at rest and without a drop, whose events were recorded in the order opposite to
      their commits, and whose event stream does not replay to the store it came from. */
  lemma {:induction false} CrossedRun(codec: Codec, marshal: WriteEvent -> Bytes)
    requires Lenient(codec) && Terse(marshal)
    ensures exists states: seq<State> ::
      && IsRun(states, CROSSED) && states[0] == TwoThreads(codec, marshal)
      && states[4].pcs == [Resting, Resting] && states[4].mem.drops == states[0].mem.drops
      && states[4].history == [EventOne(), EventTwo()] && states[4].mem.log == [EventTwo(), EventOne()]
      && !Mirrors(states[4].mem, Executed(Boot(Small(Off), codec, marshal), Commands(states[4].mem.log),
           [TickNo(1), TickNo(2)]))
  {
    hide Commands, Executed, SameScope, Rewritten, EventOne, EventTwo, MintsFresh, Enabled, Apply, Booted, Kept,
      TwoThreads;
    var states := CrossedStates(codec, marshal);
    CommandsOfEvents();
    PutTwice(codec, marshal, TWO, ONE);
    DifferentContents();
  }

  lemma FreshMem(codec: Codec, marshal: WriteEvent -> Bytes)
    ensures TwoThreads(codec, marshal).mem == Boot(Small(Full), codec, marshal)
      && TwoThreads(codec, marshal).mem.drops == 0
    ensures EventOne() == ItemEvent(OpUpsert, Holding(ONE, 1).items[0])
    ensures CROSSED[0] == Mutate(0, Put(ONE), TickNo(1))
  {
  }
}
