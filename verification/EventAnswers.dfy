/** What a command leaves in the event stream: which event, in which mode with which payload, and when exactly
    it is dropped instead. */
module EventAnswers {
  import opened Types
  import opened ScopeSpec
  import opened Validation
  import opened StoreSpec
  import opened StoreLaws
  import opened ScopeAnswers
  import opened BulkSpec
  import opened Answers

  /** In notify mode payloads stay out of the event stream. */
  function Told(m: Mem, payload: Bytes): Bytes {
    if m.cfg.events == Notify then [] else payload
  }

  /** What a command that answered `d` is announced as: the request, and what only the cache knows of an item
      it stored. */
  function Announcement(m: Mem, c: Command, d: Done, t: Tick): WriteEvent {
    match c
    case Append(item) =>
      WriteEvent(OpAppend, item.scope, item.id, NewestAt(m, item.scope) + 1, t.now, Some(t.minted),
                 Told(m, item.payload), 0, 0)
    case Upsert(item) =>
      if d.item.None? then NO_EVENT
      else WriteEvent(OpUpsert, item.scope, item.id, d.item.value.seqNo, t.now, d.item.value.uuid,
                      Told(m, item.payload), 0, 0)
    case Update(item) =>
      WriteEvent(OpUpdate, item.scope, item.id, item.seqNo, 0, item.uuid, Told(m, item.payload), 0, 0)
    case CounterAdd(n, id, add) => WriteEvent(OpCounterAdd, n, id, 0, 0, None, [], add, 0)
    case Delete(n, id, seqNo, uuid) => WriteEvent(OpDelete, n, id, seqNo, 0, uuid, [], 0, 0)
    case DeleteUpTo(n, maxSeq, uuid) => WriteEvent(OpDeleteUpTo, n, "", 0, 0, uuid, [], 0, maxSeq)
    case DeleteScope(n) => WriteEvent(OpDeleteScope, n, "", 0, t.now, None, [], 0, 0)
  }

  /** The entry an event becomes. */
  function EventStored(m: Mem, ev: WriteEvent, t: Tick): Entry {
    Entry(EVENTS, "", NewestAt(m, EVENTS) + 1, t.eventNow, Some(t.eventUuid),
          m.marshal(ev), RenderFor(m.codec, m.marshal(ev), None), None)
  }

  function EventCap(m: Mem): int {
    var larger := if m.cfg.maxItemBytes > m.cfg.inboxMaxItemBytes then m.cfg.maxItemBytes else m.cfg.inboxMaxItemBytes;
    if larger + 1024 > MAX_INT64 then MAX_INT64 else larger + 1024
  }

  /** The event is the new last entry of `_events`, or one more drop if it is too large or the store has no
      room for it. There is no cap on the number of events. */
  ghost predicate ToldOrDropped(m: Mem, m': Mem, ev: WriteEvent, t: Tick) {
    var e := EventStored(m, ev, t);
    if Size(e) > EventCap(m) || NoRoom(m, Size(e)) then
      m'.drops == m.drops + 1 && m'.log == m.log && m'.scopes == m.scopes && m'.total == m.total
    else
      && m'.drops == m.drops && m'.log == m.log + [ev] && ItemsAt(m', EVENTS) == ItemsAt(m, EVENTS) + [e]
  }

  lemma {:induction false} EventPlanned(m: Mem, ev: WriteEvent, t: Tick)
    requires EVENTS in m.scopes
    ensures var s, env, e := ScopeAt(m, EVENTS), StoreSpec.EnvFor(m, EVENTS, t.eventNow, t.eventUuid),
      EventStored(m, Recorded(m, ev), t);
      var p := PlanOf(s, ScopeSpec.Append(EventItem(m, ev)), env);
      if Size(e) > EventCap(m) then p.Refused? else PlansNew(m, EVENTS, p, e)
  {
    var s, env := ScopeAt(m, EVENTS), StoreSpec.EnvFor(m, EVENTS, t.eventNow, t.eventUuid);
    var w := ScopeSpec.Append(EventItem(m, ev));
    AppendRefusals(s, EventItem(m, ev), env);
    if PlanOf(s, w, env).Ready? { NewItemIsAdded(s, w, env); }
    hide RenderFor, PlanOf, UniqueIds, Overwrites, Recorded;
  }

  lemma {:induction false} EventIsWritten(m: Mem, ev: WriteEvent, t: Tick)
    requires EVENTS in m.scopes && m.total <= m.cfg.maxStoreBytes
    ensures ToldOrDropped(m, Written(m, ev, t), Recorded(m, ev), t)
  {
    var w := ScopeSpec.Append(EventItem(m, ev));
    EventPlanned(m, ev, t);
    WriteAnswer(m, EVENTS, w, t.eventNow, t.eventUuid);
    TryWriteLeaves(m, EVENTS, w, t.eventNow, t.eventUuid);
    hide PlanOf, TryWrite, RenderFor, Size, Recorded, EventCap, EventStored, EventItem;
  }

  lemma {:induction false} AnnouncedAsSaid(m: Mem, c: Command, t: Tick)
    requires StoreOk(m) && Conserved(m) && FreshTick(m, t) && FromClientCommand(c) && Mutation(m, c, t).changed
    requires c.Append? || c.Upsert? ==> WrittenAsAsked(m, c, Mutation(m, c, t), t)
    ensures var d := Mutation(m, c, t); Recorded(m, EventFor(c, d.item, t)) == Announcement(m, c, d, t)
  {
    hide StoreOk, Conserved, FreshTick, Mutation;
  }

  /** The item written has the address, stamp and payload that were asked for. */
  predicate WrittenAsAsked(m: Mem, c: Command, d: Done, t: Tick)
    requires c.Append? || c.Upsert?
  {
    && d.item.Some? && d.item.value.scope == c.item.scope && d.item.value.id == c.item.id
    && d.item.value.ts == t.now && d.item.value.payload == c.item.payload
    && (c.Append? ==> d.item.value.seqNo == NewestAt(m, c.item.scope) + 1 && d.item.value.uuid == Some(t.minted))
  }

  lemma {:induction false} AppendedAsAsked(m: Mem, item: Entry, t: Tick, d: Done)
    requires d.changed && NewItemAnswered(d, m, item, t)
    ensures WrittenAsAsked(m, StoreSpec.Append(item), d, t) && WrittenAsAsked(m, StoreSpec.Upsert(item), d, t)
  {
    hide RenderFor, StoredSize, NoRoom, HasId;
  }

  lemma {:induction false} ReplacedAsAsked(m: Mem, item: Entry, t: Tick, d: Done, i: nat)
    requires StoreOk(m) && i < |ItemsAt(m, item.scope)| && ItemsAt(m, item.scope)[i].id == item.id
    requires d.changed
    requires ReplacedAnswered(d, m, item.scope, i, Rewritten(m, ItemsAt(m, item.scope)[i], item.payload, t))
    ensures WrittenAsAsked(m, StoreSpec.Upsert(item), d, t)
  {
    Belong(m, item.scope);
    hide StoreOk, RenderFor, Size, NoRoom;
  }

  lemma RefusedIsUnchanged(d: Done, m: Mem, e: WriteError)
    ensures RefusedWith(d, m, e) ==> !d.changed
  {
  }

  lemma {:induction false} ItemIsAsAsked(m: Mem, c: Command, t: Tick)
    requires StoreOk(m) && Conserved(m) && FreshTick(m, t) && FromClientCommand(c) && Exec(m, c, t).changed
    requires c.Append? || c.Upsert?
    ensures WrittenAsAsked(m, c, Exec(m, c, t), t)
  {
    assert FromClient(c.item);
    assert UpsertAccepted(m, c.item) ==> c.item.id != "";
    hide *;
    var d, items := Exec(m, c, t), ItemsAt(m, c.item.scope);
    RefusedIsUnchanged(d, m, InvalidInput);
    if c.Append? {
      AppendAnswer(m, c.item, t);
      AppendedAsAsked(m, c.item, t, d);
    } else {
      UpsertAnswer(m, c.item, t);
      if HasId(items, c.item.id) {
        var i := Holder(items, c.item.id);
        ReplacedAsAsked(m, c.item, t, d, i);
      } else {
        AppendedAsAsked(m, c.item, t, d);
      }
    }
  }

  lemma Holder(items: seq<Entry>, id: string) returns (i: nat)
    requires HasId(items, id)
    ensures i < |items| && items[i].id == id
  {
    i :| 0 <= i < |items| && items[i].id == id;
  }

  lemma Belong(m: Mem, n: string)
    requires StoreOk(m)
    ensures forall i :: 0 <= i < |ItemsAt(m, n)| ==> ItemsAt(m, n)[i].scope == n
  {
    forall i | 0 <= i < |ItemsAt(m, n)| ensures ItemsAt(m, n)[i].scope == n {
      assert ItemsAt(m, n)[i] in m.scopes[n].items;
    }
  }

  lemma {:induction false} EmitAnswer(m: Mem, ev: WriteEvent, t: Tick)
    requires EVENTS in m.scopes && m.total <= m.cfg.maxStoreBytes
    ensures var m' := Emit(m, ev, t);
      if ev.scope == EVENTS || m.cfg.events == Off then m'.log == m.log && m'.drops == m.drops
      else ToldOrDropped(m, m', Recorded(m, ev), t)
  {
    var m1 := m.(commits := m.commits + 1);
    EventIsWritten(m1, ev, t);
    hide Written, ToldOrDropped;
    if ev.scope != EVENTS && m.cfg.events != Off {
      CommitsAreNotTold(m, m1, Emit(m, ev, t), Recorded(m, ev), t);
    }
  }

  /** The store between a mutation and its event. */
  lemma {:induction false} ReadyToTell(m: Mem, c: Command, t: Tick)
    requires StoreOk(m) && Conserved(m) && FreshTick(m, t) && FromClientCommand(c) && Exec(m, c, t).changed
    ensures var d := Mutation(m, c, t);
      && d.mem.log == m.log && d.mem.drops == m.drops && d.mem.cfg == m.cfg
      && EVENTS in d.mem.scopes && d.mem.total <= d.mem.cfg.maxStoreBytes
      && d.changed && EventFor(c, d.item, t).scope == Target(c)
      && Exec(m, c, t).mem == Emit(d.mem, EventFor(c, d.item, t), t)
  {
    MutationKeeps(m, c, t);
    EventTarget(m, c, t);
    ScopeIsOrdered(Mutation(m, c, t).mem, EVENTS);
    hide StoreOk, Conserved, FreshTick, Mutation, EventFor, WellFormed, Emit;
  }

  lemma {:induction false} ToldAsSaid(m: Mem, c: Command, t: Tick)
    requires StoreOk(m) && Conserved(m) && FreshTick(m, t) && FromClientCommand(c) && Exec(m, c, t).changed
    ensures var d := Mutation(m, c, t); Recorded(m, EventFor(c, d.item, t)) == Announcement(m, c, Exec(m, c, t), t)
  {
    AnswerIsMutation(m, c, t);
    hide StoreOk, Conserved, FreshTick, Exec, Mutation, EventFor, Announcement, WrittenAsAsked, Recorded;
    if c.Append? || c.Upsert? { ItemIsAsAsked(m, c, t); }
    SameAnnouncement(m, c, Mutation(m, c, t), Exec(m, c, t), t);
    AnnouncedAsSaid(m, c, t);
  }

  lemma SameAnnouncement(m: Mem, c: Command, d: Done, e: Done, t: Tick)
    requires d.item == e.item
    ensures Announcement(m, c, d, t) == Announcement(m, c, e, t)
    ensures (c.Append? || c.Upsert?) && WrittenAsAsked(m, c, e, t) ==> WrittenAsAsked(m, c, d, t)
  {
  }

  /** A command that changed something is announced once, by exactly what it asked for and the address of the
      item it stored, or dropped exactly when the event does not fit. Changes of `_events` itself, and any
      change while events are off, leave the stream alone. */
  lemma {:induction false} EventAnswer(m: Mem, c: Command, t: Tick)
    requires StoreOk(m) && Conserved(m) && FreshTick(m, t) && FromClientCommand(c) && Exec(m, c, t).changed
    ensures var d, e := Mutation(m, c, t), Exec(m, c, t);
      && d.mem.log == m.log && d.mem.drops == m.drops
      && if Target(c) == EVENTS || m.cfg.events == Off then e.mem.log == m.log && e.mem.drops == m.drops
         else ToldOrDropped(d.mem, e.mem, Announcement(m, c, e, t), t)
  {
    hide *;
    ReadyToTell(m, c, t);
    EmitAnswer(Mutation(m, c, t).mem, EventFor(c, Mutation(m, c, t).item, t), t);
    ToldAsSaid(m, c, t);
    RecordedAlike(m, Mutation(m, c, t).mem, EventFor(c, Mutation(m, c, t).item, t));
  }

  lemma RecordedAlike(m: Mem, m': Mem, ev: WriteEvent)
    requires m'.cfg == m.cfg
    ensures Recorded(m', ev) == Recorded(m, ev)
  {
  }

  lemma CommitsAreNotTold(m: Mem, m1: Mem, m': Mem, ev: WriteEvent, t: Tick)
    requires m1 == m.(commits := m.commits + 1) && ToldOrDropped(m1, m', ev, t)
    ensures ToldOrDropped(m, m', ev, t)
  {
    hide RenderFor, Size;
  }

  /** A warm request that succeeds is announced once, however many scopes it named; one that named none is not. */
  lemma {:induction false} WarmEventAnswer(m: Mem, grouped: Batch, now: int, mints: map<string, seq<Uuid>>, t: Tick)
    requires StoreOk(m) && Conserved(m) && FreshTick(m, t) && Matched(grouped, mints) && BatchFromClient(grouped)
    requires Warm(m, grouped, now, mints, t).error.None?
    ensures var e, laid := Warm(m, grouped, now, mints, t).mem,
      WithScopes(m, m.scopes + BuiltScopes(m, grouped, now, mints));
      if grouped == map[] || m.cfg.events == Off then e.log == m.log && e.drops == m.drops
      else ToldOrDropped(laid, e, WriteEvent(OpWarm, "", "", 0, t.now, None, [], 0, 0), t)
           && laid.log == m.log && laid.drops == m.drops
  {
    hide StoreOk, Conserved, FreshTick, BatchFromClient, Verdict, WithScopes, Emit, ToldOrDropped, WellFormed, ItemsFit,
      CanReserve;
    var built := BuiltScopes(m, grouped, now, mints);
    BulkSpec.ScopeIsSane(m);
    BuiltScopesAreOk(m, ToWarm, grouped, now, mints);
    OverlayKeeps(m, built);
    var laid := WithScopes(m, m.scopes + built);
    OverlayLeaves(m, m.scopes + built);
    ScopeIsOrdered(laid, EVENTS);
    EventsExist(laid);
    EmitAnswer(laid, WarmEvent(t.now), t);
  }

  lemma OverlayLeaves(m: Mem, scopes: map<string, Scope>)
    ensures var m' := WithScopes(m, scopes); m'.log == m.log && m'.drops == m.drops && m'.cfg == m.cfg
  {
    hide TotalBytes, TotalItems;
  }
}
