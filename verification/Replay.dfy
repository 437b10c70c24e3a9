/** Replaying the event stream: the records a store wrote in full mode, carried out in order against an
    empty store, rebuild every scope but `_events`. */
module Replay {
  import opened Types
  import opened ScopeSpec
  import opened Validation
  import opened StoreSpec
  import opened StoreLaws
  import opened BulkSpec

  // ---------- Stores that agree but for what the cache mints ----------

  predicate SameValue(a: Option<Counter>, b: Option<Counter>) {
    (a.None? && b.None?) || (a.Some? && b.Some? && a.value.value == b.value.value)
  }

  /** Equal in everything a client chose: timestamps and uuids may differ. */
  predicate SameEntry(a: Entry, b: Entry) {
    && a.scope == b.scope && a.id == b.id && a.seqNo == b.seqNo
    && a.payload == b.payload && a.render == b.render && SameValue(a.counter, b.counter)
    && (a.uuid.Some? <==> b.uuid.Some?)
  }

  predicate SameItems(a: seq<Entry>, b: seq<Entry>) {
    |a| == |b| && forall i :: 0 <= i < |a| ==> SameEntry(a[i], b[i])
  }

  predicate SameScope(a: Scope, b: Scope) {
    SameItems(a.items, b.items) && a.lastSeq == b.lastSeq
  }

  /** The replica holds every scope of the original, and an event stream of its own that is empty. */
  ghost predicate Mirrors(m: Mem, r: Mem) {
    && r.cfg == m.cfg.(events := Off) && r.codec == m.codec
    && EVENTS in m.scopes && EVENTS in r.scopes && r.scopes[EVENTS] == EMPTY_SCOPE
    && (forall n :: n in m.scopes <==> n in r.scopes)
    && forall n :: n in m.scopes && n != EVENTS ==> SameScope(m.scopes[n], r.scopes[n])
  }

  // ---------- Simulation of the list operations ----------

  lemma {:induction false} SameFindId(a: seq<Entry>, b: seq<Entry>, id: string)
    requires SameItems(a, b)
    ensures FindId(a, id) == FindId(b, id)
  {
    if a != [] && id != "" && a[0].id != id {
      SameFindId(a[1..], b[1..], id);
    }
  }

  lemma {:induction false} SameFindSeq(a: seq<Entry>, b: seq<Entry>, n: nat)
    requires SameItems(a, b)
    ensures FindSeq(a, n) == FindSeq(b, n)
  {
    if a != [] && a[0].seqNo != n {
      SameFindSeq(a[1..], b[1..], n);
    }
  }

  lemma {:induction false} SameSizes(a: seq<Entry>, b: seq<Entry>)
    requires SameItems(a, b)
    ensures SizeSum(a) == SizeSum(b)
  {
    if a != [] {
      SameSizes(a[1..], b[1..]);
    }
  }

  lemma {:induction false} SameAfter(a: seq<Entry>, b: seq<Entry>, n: nat)
    requires SameItems(a, b)
    ensures SameItems(After(a, n), After(b, n))
  {
    if a != [] {
      SameAfter(a[1..], b[1..], n);
    }
  }

  lemma {:induction false} SameInsert(a: Scope, b: Scope, req: Entry, ea: Env, eb: Env)
    requires SameScope(a, b) && eb == ea.(now := eb.now, minted := eb.minted) && ea.attached && req.uuid.None?
    ensures var p, q := PlanInsert(a, req, ea), PlanInsert(b, req, eb);
      p.Ready? ==> q.Ready? && q.delta == p.delta && SameScope(p.after, q.after)
  {
    hide RenderFor;
  }

  lemma {:induction false} SameReplace(a: Scope, b: Scope, i: nat, payload: Bytes, render: Option<Bytes>, ea: Env,
    eb: Env)
    requires SameScope(a, b) && eb == ea.(now := eb.now, minted := eb.minted) && i < |a.items|
    ensures var p, q := PlanReplace(a, i, payload, render, ea), PlanReplace(b, i, payload, render, eb);
      p.Ready? && q.Ready? && q.delta == p.delta && SameScope(p.after, q.after)
    ensures var p, q := PlanChecked(a, i, payload, render, ea), PlanChecked(b, i, payload, render, eb);
      p.Ready? ==> p == PlanReplace(a, i, payload, render, ea) && q == PlanReplace(b, i, payload, render, eb)
  {
    hide RenderFor;
  }

  lemma {:induction false} SameCounterAdd(a: Scope, b: Scope, scope: string, id: string, add: int, ea: Env, eb: Env)
    requires SameScope(a, b) && eb == ea.(now := eb.now, minted := eb.minted) && ea.attached
    ensures var p, q := PlanCounterAdd(a, scope, id, add, ea), PlanCounterAdd(b, scope, id, add, eb);
      p.Ready? ==> q.Ready? && q.delta == p.delta && SameScope(p.after, q.after)
  {
    hide ParseCounterValue;
    SameFindId(a.items, b.items, id);
  }

  /** The same write planned against two copies of a scope costs the same and leaves two copies. */
  lemma {:induction false} SamePlan(a: Scope, b: Scope, w: Write, ea: Env, eb: Env)
    requires SameScope(a, b) && eb == ea.(now := eb.now, minted := eb.minted) && ea.attached
    requires !w.UpdateUuid? && (w.Append? || w.Upsert? ==> w.req.uuid.None?)
    ensures var p, q := PlanOf(a, w, ea), PlanOf(b, w, eb);
      p.Ready? ==> q.Ready? && q.delta == p.delta && SameScope(p.after, q.after)
  {
    hide PlanInsert, PlanReplace, PlanChecked, PlanCounterAdd, SameItems, FindId, FindSeq;
    assert |a.items| == |b.items| by { SameLength(a.items, b.items); }
    match w
    case Append(req) =>
      SameFindId(a.items, b.items, req.id);
      SameInsert(a, b, req, ea, eb);
    case Upsert(req) =>
      SameFindId(a.items, b.items, req.id);
      SameInsert(a, b, req, ea, eb);
      var at := FindId(a.items, req.id);
      if at.Some? { SameReplace(a, b, at.value, req.payload, req.render, ea, eb); }
    case UpdateId(id, payload, render) =>
      SameFindId(a.items, b.items, id);
      var at := FindId(a.items, id);
      if at.Some? { SameReplace(a, b, at.value, payload, render, ea, eb); }
    case UpdateSeq(n, payload, render) =>
      SameFindSeq(a.items, b.items, n);
      var at := FindSeq(a.items, n);
      if at.Some? { SameReplace(a, b, at.value, payload, render, ea, eb); }
    case CounterAdd(scope, id, add) => SameCounterAdd(a, b, scope, id, add, ea, eb);
  }

  lemma SameLength(a: seq<Entry>, b: seq<Entry>)
    requires SameItems(a, b)
    ensures |a| == |b|
  {
  }

  lemma {:induction false} SameRemove(a: Scope, b: Scope, r: Removal)
    requires SameScope(a, b) && !r.DeleteUuid? && !r.UpToUuid?
    ensures SameScope(Remove(a, r), Remove(b, r))
  {
    match r
    case DeleteId(id) => SameFindId(a.items, b.items, id);
    case DeleteSeq(n) => SameFindSeq(a.items, b.items, n);
    case UpToSeq(n) => SameAfter(a.items, b.items, n);
  }

  /** A client cannot tell a scope from its copy by reading: every address it can choose finds the same place,
      and what is shown there has the same id, number, payload and render bytes. */
  lemma {:induction false} CopiesReadAlike(codec: Codec, a: Scope, b: Scope, i: nat, x: Entry, y: Entry)
    requires SameScope(a, b) && i < |a.items|
    ensures |b.items| == |a.items| && b.lastSeq == a.lastSeq
    ensures forall id :: FindId(a.items, id) == FindId(b.items, id)
    ensures forall n :: FindSeq(a.items, n) == FindSeq(b.items, n)
    ensures SeenAs(codec, a.items[i], x) && SeenAs(codec, b.items[i], y) ==>
      x.scope == y.scope && x.id == y.id && x.seqNo == y.seqNo && x.payload == y.payload && x.render == y.render
  {
    forall id ensures FindId(a.items, id) == FindId(b.items, id) { SameFindId(a.items, b.items, id); }
    forall n ensures FindSeq(a.items, n) == FindSeq(b.items, n) { SameFindSeq(a.items, b.items, n); }
  }

  // ---------- One command on both stores ----------

  lemma {:induction false} SmallerTotals(small: map<string, Scope>, big: map<string, Scope>)
    requires small.Keys == big.Keys
    requires forall n :: n in small ==> Footprint(small[n]) <= Footprint(big[n])
    ensures TotalBytes(small) <= TotalBytes(big)
    decreases |small|
  {
    hide Footprint, TotalBytes;
    if small == map[] {
      assert big == map[];
    } else {
      var k :| k in small;
      TotalsMinus(small, k);
      TotalsMinus(big, k);
      SmallerTotals(small - {k}, big - {k});
    }
  }

  /** The replica never holds more bytes: it has everything but the events. */
  lemma {:induction false} ReplicaIsSmaller(m: Mem, r: Mem)
    requires StoreOk(m) && StoreOk(r) && Mirrors(m, r)
    ensures r.total <= m.total
  {
    hide SizeSum, TotalBytes, SameScope;
    forall n | n in r.scopes ensures Footprint(r.scopes[n]) <= Footprint(m.scopes[n]) {
      if n == EVENTS {
        EmptyCosts();
      } else {
        SameFootprint(m.scopes[n], r.scopes[n]);
      }
    }
    assert r.scopes.Keys == m.scopes.Keys;
    SmallerTotals(r.scopes, m.scopes);
  }

  lemma SameFootprint(a: Scope, b: Scope)
    requires SameScope(a, b)
    ensures Footprint(a) == Footprint(b)
  {
    SameSizes(a.items, b.items);
  }

  lemma MirroredScope(m: Mem, r: Mem, n: string)
    requires Mirrors(m, r) && n != EVENTS
    ensures SameScope(ScopeAt(m, n), ScopeAt(r, n)) && CreationFee(m, n) == CreationFee(r, n)
    ensures forall now, minted, now', minted' ::
      EnvFor(r, n, now', minted') == EnvFor(m, n, now, minted).(now := now', minted := minted')
  {
  }

  /** The two stores without their event streams, after the same scope changed in both. */
  lemma {:induction false} MirrorsAfter(m: Mem, r: Mem, n: string, a: Scope, b: Scope)
    requires Mirrors(m, r) && n != EVENTS && SameScope(a, b)
    ensures Mirrors(Exchanged(m, n, a), Exchanged(r, n, b))
  {
    hide SameScope, SizeSum;
  }

  lemma {:induction false} SameTryWrite(m: Mem, r: Mem, n: string, w: Write, now: int, minted: Uuid, now': int,
    minted': Uuid)
    requires Mirrors(m, r) && r.total <= m.total && n != EVENTS && TryWrite(m, n, w, now, minted).changed
    requires !w.UpdateUuid? && (w.Append? || w.Upsert? ==> w.req.uuid.None?)
    ensures var d, e := TryWrite(m, n, w, now, minted), TryWrite(r, n, w, now', minted');
      e.changed && e.error.None? && Mirrors(d.mem, e.mem)
  {
    MirroredScope(m, r, n);
    var a, b := ScopeAt(m, n), ScopeAt(r, n);
    var ea, eb := EnvFor(m, n, now, minted), EnvFor(r, n, now', minted');
    SamePlan(a, b, w, ea, eb);
    assert r.cfg.maxStoreBytes == m.cfg.maxStoreBytes;
    hide Mirrors, PlanOf, SameScope, EnvFor, Exchanged, ScopeAt, CreationFee;
    MirrorsAfter(m, r, n, PlanOf(a, w, ea).after, PlanOf(b, w, eb).after);
  }

  lemma {:induction false} SameTryRemove(m: Mem, r: Mem, n: string, x: Removal)
    requires Mirrors(m, r) && n != EVENTS && TryRemove(m, n, x).changed && !x.DeleteUuid? && !x.UpToUuid?
    ensures var d, e := TryRemove(m, n, x), TryRemove(r, n, x);
      e.changed && e.error.None? && Mirrors(d.mem, e.mem)
  {
    MirroredScope(m, r, n);
    assert n in r.scopes;
    SameRemove(m.scopes[n], r.scopes[n], x);
    assert SameLengths(m.scopes[n], r.scopes[n]) && SameLengths(Remove(m.scopes[n], x), Remove(r.scopes[n], x));
    hide Mirrors, Remove, SameScope, Exchanged;
    MirrorsAfter(m, r, n, Remove(m.scopes[n], x), Remove(r.scopes[n], x));
  }

  predicate SameLengths(a: Scope, b: Scope) {
    |a.items| == |b.items|
  }

  /** Commands a record can repeat: those that do not name an item by its uuid. */
  predicate Repeatable(c: Command) {
    && FromClientCommand(c)
    && (c.Update? ==> c.item.uuid.None?)
    && (c.Delete? || c.DeleteUpTo? ==> c.uuid.None?)
  }

  lemma {:induction false} ValidatedAlike(m: Mem, r: Mem, c: Command)
    requires Mirrors(m, r)
    ensures c.Append? ==>
      ValidateWriteItem(m.codec, c.item, ToAppend, m.cfg.MaxItemBytesFor(c.item.scope))
      == ValidateWriteItem(r.codec, c.item, ToAppend, r.cfg.MaxItemBytesFor(c.item.scope))
    ensures c.CounterAdd? ==> (CounterAddOk(m.codec, c.scope, c.id, c.add, m.cfg.MaxItemBytesFor(c.scope))
      <==> CounterAddOk(r.codec, c.scope, c.id, c.add, r.cfg.MaxItemBytesFor(c.scope)))
    ensures r.codec == m.codec && r.cfg.maxItemBytes == m.cfg.maxItemBytes
  {
  }

  /** A repeatable command that changed the original changes the replica in the same way. */
  lemma {:induction false} SameMutation(m: Mem, r: Mem, c: Command, t: Tick, t': Tick)
    requires Mirrors(m, r) && r.total <= m.total && Repeatable(c) && Target(c) != EVENTS && Mutation(m, c, t).changed
    ensures var d, e := Mutation(m, c, t), Mutation(r, c, t');
      e.changed && e.error.None? && Mirrors(d.mem, e.mem)
  {
    ValidatedAlike(m, r, c);
    hide Mirrors, TryWrite, TryRemove, ValidateWriteItem, ValidateUpsertItem, ValidateUpdateItem, CounterAddOk,
      DeleteOk, DeleteUpToOk, DeleteScopeOk, Dropped;
    match c
    case Append(item) =>
      var it := ValidateWriteItem(m.codec, item, ToAppend, m.cfg.MaxItemBytesFor(item.scope)).value;
      assert it.uuid.None? by { AppendHasNoUuid(m, item); }
      SameTryWrite(m, r, item.scope, ScopeSpec.Append(it), t.now, t.minted, t'.now, t'.minted);
    case Upsert(item) =>
      var it := ValidateUpsertItem(m.codec, item, m.cfg.maxItemBytes).value;
      assert it.uuid.None? by { UpsertHasNoUuid(m, item); }
      SameTryWrite(m, r, item.scope, ScopeSpec.Upsert(it), t.now, t.minted, t'.now, t'.minted);
    case Update(item) =>
      var it := ValidateUpdateItem(m.codec, item, m.cfg.maxItemBytes).value;
      assert item.scope in r.scopes by { SameNames(m, r); }
      SameTryWrite(m, r, item.scope, UpdateOf(it), t.now, t.minted, t'.now, t'.minted);
    case CounterAdd(scope, id, add) =>
      SameTryWrite(m, r, scope, ScopeSpec.CounterAdd(scope, id, add), t.now, t.minted, t'.now, t'.minted);
    case Delete(scope, id, seqNo, uuid) => SameTryRemove(m, r, scope, RemovalOf(id, seqNo, uuid));
    case DeleteUpTo(scope, maxSeq, uuid) => SameTryRemove(m, r, scope, PrefixOf(maxSeq, uuid));
    case DeleteScope(scope) =>
      assert scope in r.scopes by { SameNames(m, r); }
      MirrorsWithout(m, r, scope);
  }

  lemma AppendHasNoUuid(m: Mem, item: Entry)
    requires ValidateWriteItem(m.codec, item, ToAppend, m.cfg.MaxItemBytesFor(item.scope)).Ok?
    ensures item.uuid.None? && item.seqNo == 0 && item.ts == 0
  {
  }

  lemma UpsertHasNoUuid(m: Mem, item: Entry)
    requires ValidateUpsertItem(m.codec, item, m.cfg.maxItemBytes).Ok?
    ensures item.uuid.None? && item.seqNo == 0 && item.ts == 0 && item.id != ""
  {
  }

  lemma SameNames(m: Mem, r: Mem)
    requires Mirrors(m, r)
    ensures forall n :: n in m.scopes <==> n in r.scopes
  {
  }

  lemma MirrorsWithout(m: Mem, r: Mem, n: string)
    requires Mirrors(m, r) && n in m.scopes && n in r.scopes && n != EVENTS
    ensures Mirrors(Dropped(m, n), Dropped(r, n))
  {
    hide SameScope, SizeSum;
  }

  // ---------- Records ----------

  /** The command a record stands for. A warm record names nothing that could be repeated: what it
      stands for here is refused. */
  function Replayed(ev: WriteEvent): Command {
    match ev.op
    case OpAppend => StoreSpec.Append(Entry(ev.scope, ev.id, 0, 0, None, ev.payload, None, None))
    case OpUpsert => StoreSpec.Upsert(Entry(ev.scope, ev.id, 0, 0, None, ev.payload, None, None))
    case OpUpdate => Update(Entry(ev.scope, ev.id, ev.seqNo, 0, ev.uuid, ev.payload, None, None))
    case OpCounterAdd => StoreSpec.CounterAdd(ev.scope, ev.id, ev.add)
    case OpDelete => Delete(ev.scope, ev.id, ev.seqNo, ev.uuid)
    case OpDeleteUpTo => DeleteUpTo(ev.scope, ev.maxSeq, ev.uuid)
    case OpDeleteScope => DeleteScope(ev.scope)
    case OpWarm => Delete("", "", 0, None)
  }

  /** What the item of an append or upsert carries into its record. */
  lemma {:induction false} StoredCarriesRequest(s: Scope, w: Write, env: Env)
    requires w.Append? || w.Upsert?
    ensures var p := PlanOf(s, w, env);
      p.Ready? ==>
        p.at < |p.after.items| && p.after.items[p.at].id == w.req.id && p.after.items[p.at].payload == w.req.payload
  {
    hide RenderFor;
  }

  lemma {:induction false} WrittenCarriesRequest(m: Mem, n: string, w: Write, now: int, minted: Uuid)
    requires (w.Append? || w.Upsert?) && TryWrite(m, n, w, now, minted).changed
    ensures var e := TryWrite(m, n, w, now, minted).item;
      e.Some? && e.value.id == w.req.id && e.value.payload == w.req.payload
  {
    hide PlanOf, Exchanged, ScopeAt, EnvFor;
    StoredCarriesRequest(ScopeAt(m, n), w, EnvFor(m, n, now, minted));
  }

  lemma {:induction false} ItemCarriesRequest(m: Mem, c: Command, t: Tick)
    requires (c.Append? || c.Upsert?) && Mutation(m, c, t).changed
    ensures var e := Mutation(m, c, t).item; e.Some? && e.value.id == c.item.id && e.value.payload == c.item.payload
    ensures c.item.uuid.None? && c.item.seqNo == 0 && c.item.ts == 0
  {
    hide TryWrite, RenderFor;
    if c.Append? {
      AppendHasNoUuid(m, c.item);
      var it := ValidateWriteItem(m.codec, c.item, ToAppend, m.cfg.MaxItemBytesFor(c.item.scope)).value;
      hide ValidateWriteItem;
      WrittenCarriesRequest(m, c.item.scope, ScopeSpec.Append(it), t.now, t.minted);
    } else {
      UpsertHasNoUuid(m, c.item);
      var it := ValidateUpsertItem(m.codec, c.item, m.cfg.maxItemBytes).value;
      hide ValidateUpsertItem;
      WrittenCarriesRequest(m, c.item.scope, ScopeSpec.Upsert(it), t.now, t.minted);
    }
  }

  lemma UpdateHasNoTs(m: Mem, c: Command, t: Tick)
    requires c.Update? && Mutation(m, c, t).changed
    ensures c.item.ts == 0
  {
    hide TryWrite, CheckItemSize;
  }

  lemma ItemRecord(op: Op, e: Entry, item: Entry)
    requires (op == OpAppend || op == OpUpsert) && FromClient(item)
    requires item.uuid.None? && item.seqNo == 0 && item.ts == 0
    requires e.scope == item.scope && e.id == item.id && e.payload == item.payload
    ensures Replayed(ItemEvent(op, e)) == if op == OpAppend then StoreSpec.Append(item) else StoreSpec.Upsert(item)
  {
  }

  lemma AddressRecord(c: Command, t: Tick)
    requires !c.Append? && !c.Upsert? && FromClientCommand(c) && (c.Update? ==> c.item.ts == 0)
    ensures Replayed(EventFor(c, None, t)) == c && forall e :: EventFor(c, e, t) == EventFor(c, None, t)
  {
  }

  /** A record written in full says exactly which command to repeat. */
  lemma {:induction false} RecordIsTheCommand(m: Mem, c: Command, t: Tick)
    requires StoreOk(m) && FreshTick(m, t) && FromClientCommand(c) && Mutation(m, c, t).changed
    ensures Replayed(EventFor(c, Mutation(m, c, t).item, t)) == c
  {
    hide Mutation, StoreOk, FreshTick, Replayed, ItemEvent, UpdateEvent, NO_EVENT;
    if c.Append? || c.Upsert? {
      WrittenItem(m, c, t);
      ItemCarriesRequest(m, c, t);
      ItemRecord(if c.Append? then OpAppend else OpUpsert, Mutation(m, c, t).item.value, c.item);
    } else {
      if c.Update? {
        UpdateHasNoTs(m, c, t);
      }
      AddressRecord(c, t);
    }
  }

  // ---------- Runs ----------

  /** The store after a sequence of commands. */
  function Executed(m: Mem, cs: seq<Command>, ts: seq<Tick>): Mem
    requires |ts| >= |cs|
  {
    if cs == [] then m else Exec(Executed(m, cs[..|cs| - 1], ts), cs[|cs| - 1], ts[|cs| - 1]).mem
  }

  /** The mint never hands out a uuid that is in use along the run. */
  predicate MintsFresh(m: Mem, cs: seq<Command>, ts: seq<Tick>)
    requires |ts| >= |cs|
  {
    forall i :: 0 <= i < |cs| ==> FreshTick(Executed(m, cs[..i], ts), ts[i])
  }

  predicate NeverRefused(m: Mem, cs: seq<Command>, ts: seq<Tick>)
    requires |ts| >= |cs|
  {
    forall i :: 0 <= i < |cs| ==> Exec(Executed(m, cs[..i], ts), cs[i], ts[i]).error.None?
  }

  function Commands(log: seq<WriteEvent>): seq<Command> {
    seq(|log|, i requires 0 <= i < |log| => Replayed(log[i]))
  }

  lemma {:induction false} EmitFields(m: Mem, ev: WriteEvent, t: Tick)
    ensures var e := Emit(m, ev, t);
      && e.cfg == m.cfg && e.codec == m.codec && e.drops >= m.drops
      && (ev.scope == EVENTS ==> e == m)
      && (m.cfg.events == Off ==> e == if ev.scope == EVENTS then m else m.(commits := m.commits + 1))
      && (m.cfg.events == Full && ev.scope != EVENTS && e.drops == m.drops ==> e.log == m.log + [ev])
  {
    var m1 := m.(commits := m.commits + 1);
    TryWriteLeaves(m1, EVENTS, ScopeSpec.Append(EventItem(m, ev)), t.eventNow, t.eventUuid);
    hide TryWrite;
  }

  /** Mirroring does not look at the event stream or at the bookkeeping. */
  lemma MirrorsIgnore(m: Mem, r: Mem, m': Mem, r': Mem)
    requires Mirrors(m, r) && m'.cfg == m.cfg && m'.codec == m.codec && EVENTS in m'.scopes
    requires forall n :: n != EVENTS ==>
      (n in m'.scopes <==> n in m.scopes) && (n in m.scopes ==> m'.scopes[n] == m.scopes[n])
    requires r'.cfg == r.cfg && r'.codec == r.codec && r'.scopes == r.scopes
    ensures Mirrors(m', r')
  {
    hide SameScope;
  }

  lemma MutationFields(m: Mem, c: Command, t: Tick)
    requires StoreOk(m) && FreshTick(m, t) && FromClientCommand(c)
    ensures var d := Mutation(m, c, t).mem;
      d.cfg == m.cfg && d.codec == m.codec && d.log == m.log && d.drops == m.drops && EVENTS in d.scopes
  {
    hide StoreOk, Mutation, FreshTick;
    MutationKeeps(m, c, t);
  }

  /** The store invariant and the event accounts together. */
  ghost predicate Kept(m: Mem) {
    StoreOk(m) && Conserved(m)
  }

  predicate Recordable(m: Mem, c: Command, t: Tick) {
    Mutation(m, c, t).changed && Target(c) != EVENTS
  }

  /** A command that changed something outside `_events` leaves its record; any other leaves none. */
  lemma {:induction false} StepLog(m: Mem, c: Command, t: Tick)
    requires Kept(m) && m.cfg.events == Full && FromClientCommand(c) && FreshTick(m, t)
    requires Exec(m, c, t).mem.drops == m.drops
    ensures var e, ev := Exec(m, c, t).mem, EventFor(c, Mutation(m, c, t).item, t);
      && Kept(e) && e.cfg == m.cfg
      && e.log == (if Recordable(m, c, t) then m.log + [ev] else m.log)
      && (Recordable(m, c, t) ==> Replayed(ev) == c)
  {
    var d := Mutation(m, c, t);
    ExecKeeps(m, c, t);
    if d.changed {
      EventTarget(m, c, t);
      MutationFields(m, c, t);
      RecordIsTheCommand(m, c, t);
      EmitFields(d.mem, EventFor(c, d.item, t), t);
      hide Mutation, Emit, StoreOk, Conserved, FreshTick, EventFor, Replayed;
    }
  }

  /** A command that leaves no record leaves the replica a mirror. */
  lemma {:induction false} IdleMirrors(m: Mem, r: Mem, c: Command, t: Tick)
    requires Kept(m) && Mirrors(m, r) && FromClientCommand(c) && FreshTick(m, t) && !Recordable(m, c, t)
    ensures Mirrors(Exec(m, c, t).mem, r)
  {
    var d, e := Mutation(m, c, t), Exec(m, c, t).mem;
    ExecKeeps(m, c, t);
    if d.changed {
      EventTarget(m, c, t);
      MutationFields(m, c, t);
      EmitFields(d.mem, EventFor(c, d.item, t), t);
      EventsExist(e);
      hide Mutation, Emit, StoreOk, Conserved, FreshTick, Mirrors, EventFor;
      MirrorsIgnore(m, r, e, r);
    }
  }

  /** Repeating the command on the replica is accepted and mirrors the original again. */
  lemma {:induction false} RepeatMirrors(m: Mem, r: Mem, c: Command, t: Tick, t': Tick)
    requires Kept(m) && Kept(r) && Mirrors(m, r) && Repeatable(c) && FreshTick(m, t) && Recordable(m, c, t)
    ensures Exec(r, c, t').error.None? && Mirrors(Exec(m, c, t).mem, Exec(r, c, t').mem)
  {
    ExecKeeps(m, c, t);
    RepeatOne(m, r, c, t, t');
    MutationFields(m, c, t);
    EmitFields(Mutation(m, c, t).mem, EventFor(c, Mutation(m, c, t).item, t), t);
    EventsExist(Exec(m, c, t).mem);
    hide Mutation, Emit, StoreOk, Conserved, FreshTick, Mirrors, EventFor;
    MirrorsIgnore(Mutation(m, c, t).mem, Mutation(r, c, t').mem, Exec(m, c, t).mem, Exec(r, c, t').mem);
  }

  lemma {:induction false} RepeatOne(m: Mem, r: Mem, c: Command, t: Tick, t': Tick)
    requires StoreOk(m) && StoreOk(r) && Mirrors(m, r) && Repeatable(c) && Target(c) != EVENTS
      && Mutation(m, c, t).changed
    ensures var e, x := Mutation(r, c, t'), Exec(r, c, t');
      && x.error.None? && e.changed && Mirrors(Mutation(m, c, t).mem, e.mem)
      && x.mem.scopes == e.mem.scopes && x.mem.cfg == e.mem.cfg && x.mem.codec == e.mem.codec
  {
    ReplicaIsSmaller(m, r);
    SameMutation(m, r, c, t, t');
    assert Mutation(r, c, t').mem.cfg.events == Off;
    hide Mutation, Mirrors, StoreOk;
    EmitFields(Mutation(r, c, t').mem, EventFor(c, Mutation(r, c, t').item, t'), t');
  }

  lemma {:induction false} DropsOnlyGrow(m: Mem, c: Command, t: Tick)
    requires Kept(m) && FreshTick(m, t) && FromClientCommand(c)
    ensures Exec(m, c, t).mem.drops >= m.drops && Exec(m, c, t).mem.cfg == m.cfg && Kept(Exec(m, c, t).mem)
  {
    ExecKeeps(m, c, t);
    MutationFields(m, c, t);
    EmitFields(Mutation(m, c, t).mem, EventFor(c, Mutation(m, c, t).item, t), t);
    hide Mutation, Emit, StoreOk, Conserved, FreshTick;
  }

  lemma MintsFreshPrefix(m: Mem, cs: seq<Command>, ts: seq<Tick>)
    requires |ts| >= |cs| > 0 && MintsFresh(m, cs, ts)
    ensures MintsFresh(m, cs[..|cs| - 1], ts) && FreshTick(Executed(m, cs[..|cs| - 1], ts), ts[|cs| - 1])
  {
    hide Executed, FreshTick;
    var front := cs[..|cs| - 1];
    assert forall i :: 0 <= i < |front| ==> front[..i] == cs[..i];
  }

  lemma {:induction false} RunIsSound(m: Mem, cs: seq<Command>, ts: seq<Tick>)
    requires Kept(m) && |ts| >= |cs| && MintsFresh(m, cs, ts) && forall i :: 0 <= i < |cs| ==> FromClientCommand(cs[i])
    ensures Kept(Executed(m, cs, ts)) && Executed(m, cs, ts).drops >= m.drops
  {
    hide Kept, MintsFresh, FreshTick, Exec;
    if cs != [] {
      var front := cs[..|cs| - 1];
      MintsFreshPrefix(m, cs, ts);
      RunIsSound(m, front, ts);
      DropsOnlyGrow(Executed(m, front, ts), cs[|cs| - 1], ts[|cs| - 1]);
    }
  }

  lemma CommandsPush(log: seq<WriteEvent>, ev: WriteEvent)
    ensures Commands(log + [ev]) == Commands(log) + [Replayed(ev)] && |Commands(log)| == |log|
    ensures (Commands(log) + [Replayed(ev)])[..|log|] == Commands(log)
  {
    hide Replayed;
  }

  lemma RefusedPush(r: Mem, cs: seq<Command>, c: Command, ts: seq<Tick>)
    requires |ts| > |cs| && NeverRefused(r, cs, ts) && Exec(Executed(r, cs, ts), c, ts[|cs|]).error.None?
    ensures NeverRefused(r, cs + [c], ts)
    ensures Executed(r, cs + [c], ts) == Exec(Executed(r, cs, ts), c, ts[|cs|]).mem
  {
    hide Exec;
    var all := cs + [c];
    assert all[..|all| - 1] == cs;
    assert forall i :: 0 <= i < |cs| ==> all[..i] == cs[..i];
    forall i | 0 <= i < |all| ensures Exec(Executed(r, all[..i], ts), all[i], ts[i]).error.None? {
      if i < |cs| { assert all[..i] == cs[..i]; }
    }
  }

  /** Any run of repeatable commands in full mode that drops no event leaves a stream whose records,
      carried out in order on an empty store without events and with the same caps, are never refused and
      rebuild every scope but `_events`: same items, ids, sequence numbers, payloads or counter values. */
  lemma {:induction false} ReplayRebuilds(m: Mem, r: Mem, cs: seq<Command>, ts: seq<Tick>, rts: seq<Tick>)
    requires Kept(m) && Kept(r) && Mirrors(m, r) && m.cfg.events == Full && m.log == []
    requires |ts| >= |cs| && MintsFresh(m, cs, ts) && forall i :: 0 <= i < |cs| ==> Repeatable(cs[i])
    requires Executed(m, cs, ts).drops == m.drops
    requires var log := Executed(m, cs, ts).log; |rts| >= |log| && MintsFresh(r, Commands(log), rts)
    ensures var e := Executed(m, cs, ts); var replay := Commands(e.log);
      && e.cfg == m.cfg && Kept(e)
      && (forall i :: 0 <= i < |replay| ==> FromClientCommand(replay[i]))
      && NeverRefused(r, replay, rts)
      && Mirrors(e, Executed(r, replay, rts))
  {
    hide Kept, MintsFresh, FreshTick, Exec, Mirrors, NeverRefused, Repeatable, Mutation, Replayed, EventFor, Recordable,
      Commands;
    if cs == [] {
      NothingToReplay(r, rts);
    } else {
      var front, c, t := cs[..|cs| - 1], cs[|cs| - 1], ts[|cs| - 1];
      var x, ev := Executed(m, front, ts), EventFor(c, Mutation(Executed(m, front, ts), c, t).item, t);
      AllFromClient(cs);
      MintsFreshPrefix(m, cs, ts);
      RunIsSound(m, front, ts);
      DropsOnlyGrow(x, c, t);
      FullAlways(m, front, ts);
      StepLog(x, c, t);
      CommandsPush(x.log, ev);
      if Recordable(x, c, t) {
        MintsFreshPrefix(r, Commands(x.log + [ev]), rts);
      }
      ReplayRebuilds(m, r, front, ts, rts);
      var replay := Commands(x.log);
      RunIsSound(r, replay, rts);
      if Recordable(x, c, t) {
        RepeatMirrors(x, Executed(r, replay, rts), c, t, rts[|replay|]);
        RefusedPush(r, replay, c, rts);
      } else {
        IdleMirrors(x, Executed(r, replay, rts), c, t);
      }
    }
  }

  lemma NothingToReplay(r: Mem, rts: seq<Tick>)
    ensures Commands([]) == [] && NeverRefused(r, [], rts)
  {
  }

  lemma AllFromClient(cs: seq<Command>)
    requires forall i :: 0 <= i < |cs| ==> Repeatable(cs[i])
    ensures forall i :: 0 <= i < |cs| ==> FromClientCommand(cs[i])
  {
  }

  lemma {:induction false} FullAlways(m: Mem, cs: seq<Command>, ts: seq<Tick>)
    requires Kept(m) && |ts| >= |cs| && MintsFresh(m, cs, ts) && forall i :: 0 <= i < |cs| ==> FromClientCommand(cs[i])
    ensures Executed(m, cs, ts).cfg == m.cfg
  {
    hide Kept, MintsFresh, FreshTick, Exec;
    if cs != [] {
      var front := cs[..|cs| - 1];
      MintsFreshPrefix(m, cs, ts);
      RunIsSound(m, front, ts);
      FullAlways(m, front, ts);
      DropsOnlyGrow(Executed(m, front, ts), cs[|cs| - 1], ts[|cs| - 1]);
    }
  }

  /** From boot, with the same caps and the events off on the replica. */
  lemma {:induction false} ReplayFromBoot(cfg: Config, codec: Codec, marshal: WriteEvent -> Bytes, cs: seq<Command>,
    ts: seq<Tick>, rts: seq<Tick>)
    requires cfg.Sane() && cfg.events == Full
    requires var m := Boot(cfg, codec, marshal);
      |ts| >= |cs| && MintsFresh(m, cs, ts) && (forall i :: 0 <= i < |cs| ==> Repeatable(cs[i]))
        && Executed(m, cs, ts).drops == 0
    requires var m, r := Boot(cfg, codec, marshal), Boot(cfg.(events := Off), codec, marshal);
      var log := Executed(m, cs, ts).log; |rts| >= |log| && MintsFresh(r, Commands(log), rts)
    ensures var m, r := Boot(cfg, codec, marshal), Boot(cfg.(events := Off), codec, marshal);
      var replay := Commands(Executed(m, cs, ts).log);
      NeverRefused(r, replay, rts) && Mirrors(Executed(m, cs, ts), Executed(r, replay, rts))
  {
    var m, r := Boot(cfg, codec, marshal), Boot(cfg.(events := Off), codec, marshal);
    BootIsOk(cfg, codec, marshal);
    BootIsOk(cfg.(events := Off), codec, marshal);
    BootsMirror(cfg, codec, marshal);
    hide MintsFresh, Exec, Mirrors, NeverRefused, Repeatable, Commands, StoreOk, Conserved;
    ReplayRebuilds(m, r, cs, ts, rts);
  }

  lemma BootsMirror(cfg: Config, codec: Codec, marshal: WriteEvent -> Bytes)
    ensures Mirrors(Boot(cfg, codec, marshal), Boot(cfg.(events := Off), codec, marshal))
  {
  }
}
