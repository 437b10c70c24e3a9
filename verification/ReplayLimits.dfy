/** Where replaying the event stream does not rebuild the store: records that name an item by its uuid, and
    records in another order than their commits. */
module ReplayLimits {
  import opened Types
  import opened Uuids
  import opened ScopeSpec
  import opened Validation
  import opened StoreSpec
  import opened StoreLaws
  import opened BulkSpec
  import opened Replay

  // ---------- When exactly ----------

  /** Removing different positions from two copies never leaves two copies. */
  lemma {:induction false} SamePositionsOnly(a: Scope, b: Scope, i: nat, j: nat)
    requires WellFormed(a) && SameScope(a, b) && i < |a.items| && j < |b.items|
    ensures SameScope(RemoveAt(a, i), RemoveAt(b, j)) <==> i == j
  {
    var a', b' := RemoveAt(a, i).items, RemoveAt(b, j).items;
    if i < j {
      assert a'[i] == a.items[i + 1] && b'[i] == b.items[i];
      assert !SameEntry(a'[i], b'[i]);
    } else if j < i {
      assert a'[j] == a.items[j] && b'[j] == b.items[j + 1];
      assert !SameEntry(a'[j], b'[j]);
    }
  }

  // ---------- One scope changed on both sides ----------

  /** A command whose whole effect outside `_events` is to give scope `n` the content `after`. */
  ghost predicate ActsOn(m: Mem, e: Mem, n: string, after: Scope) {
    var x := Exchanged(m, n, after);
    && e.cfg == m.cfg && e.codec == m.codec && EVENTS in e.scopes
    && (forall k :: k != EVENTS ==>
         (k in e.scopes <==> k in x.scopes) && (k in x.scopes ==> e.scopes[k] == x.scopes[k]))
    && (m.cfg.events == Off ==> e.scopes == x.scopes)
  }

  lemma {:induction false} CommandActsOn(m: Mem, c: Command, t: Tick, n: string, after: Scope)
    requires Kept(m) && FreshTick(m, t) && FromClientCommand(c) && n != EVENTS
    requires Mutation(m, c, t).mem == Exchanged(m, n, after)
    ensures ActsOn(m, Exec(m, c, t).mem, n, after)
  {
    hide StoreOk, Conserved, FreshTick, Emit, Mutation, Exchanged, EventFor;
    ExecKeeps(m, c, t);
    MutationFields(m, c, t);
    EmitFields(Mutation(m, c, t).mem, EventFor(c, Mutation(m, c, t).item, t), t);
    EventsExist(Exec(m, c, t).mem);
  }

  /** Two mirrors whose same scope changed still mirror if and only if the two contents do. */
  lemma {:induction false} MirrorsExactly(m: Mem, r: Mem, n: string, x: Scope, y: Scope, em: Mem, er: Mem)
    requires Mirrors(m, r) && n in m.scopes && n != EVENTS && ActsOn(m, em, n, x) && ActsOn(r, er, n, y)
    ensures Mirrors(em, er) <==> SameScope(x, y)
  {
    assert r.cfg.events == Off && n in r.scopes;
    assert n in em.scopes && em.scopes[n] == x && n in er.scopes && er.scopes[n] == y;
    hide Mirrors, SameScope, SizeSum;
    if SameScope(x, y) {
      MirrorsAfter(m, r, n, x, y);
      MirrorsIgnore(Exchanged(m, n, x), Exchanged(r, n, y), em, er);
    }
    if Mirrors(em, er) {
      MirroredScope(em, er, n);
    }
  }

  // ---------- Records that name an item by uuid ----------

  function ByUuid(n: string, u: Uuid): Command {
    Delete(n, "", 0, Some(u))
  }

  function DrainTo(n: string, u: Uuid): Command {
    DeleteUpTo(n, 0, Some(u))
  }

  /** The uuid is in use in scope `n` of the original, and addresses the same position on the replica. */
  predicate SamePosition(m: Mem, r: Mem, n: string, u: Uuid) {
    FindUuid(ScopeAt(r, n).items, u) == FindUuid(ScopeAt(m, n).items, u)
  }

  lemma RemoveUuidIs(s: Scope, u: Uuid)
    ensures var i := FindUuid(s.items, u); Remove(s, DeleteUuid(u)) == if i.Some? then RemoveAt(s, i.value) else s
  {
  }

  lemma DrainUuidIs(s: Scope, u: Uuid)
    requires WellFormed(s)
    ensures var i := FindUuid(s.items, u);
      Remove(s, UpToUuid(u)) == if i.Some? then s.(items := s.items[i.value + 1..]) else s
  {
    var i := FindUuid(s.items, u);
    if i.Some? {
      AfterIsSuffix(s.items, s.items[i.value].seqNo, i.value + 1);
    }
  }

  lemma {:induction false} DeletedAlike(a: Scope, b: Scope, u: Uuid)
    requires WellFormed(a) && SameScope(a, b) && FindUuid(a.items, u).Some?
    ensures SameScope(Remove(a, DeleteUuid(u)), Remove(b, DeleteUuid(u)))
      <==> FindUuid(b.items, u) == FindUuid(a.items, u)
  {
    RemoveUuidIs(a, u);
    RemoveUuidIs(b, u);
    var i, j := FindUuid(a.items, u), FindUuid(b.items, u);
    if j.Some? { SamePositionsOnly(a, b, i.value, j.value); }
  }

  lemma {:induction false} DrainedAlike(a: Scope, b: Scope, u: Uuid)
    requires WellFormed(a) && WellFormed(b) && SameScope(a, b) && FindUuid(a.items, u).Some?
    ensures SameScope(Remove(a, UpToUuid(u)), Remove(b, UpToUuid(u))) <==> FindUuid(b.items, u) == FindUuid(a.items, u)
  {
    DrainUuidIs(a, u);
    DrainUuidIs(b, u);
    hide WellFormed, FindUuid, Remove;
  }

  lemma RemovalActs(m: Mem, n: string, u: Uuid, t: Tick)
    requires n in m.scopes
    ensures DeleteOk(m.codec, n, "", 0, Some(u)) ==>
      Mutation(m, ByUuid(n, u), t).mem == Exchanged(m, n, Remove(m.scopes[n], DeleteUuid(u)))
    ensures DeleteUpToOk(m.codec, n, 0, Some(u)) ==>
      Mutation(m, DrainTo(n, u), t).mem == Exchanged(m, n, Remove(m.scopes[n], UpToUuid(u)))
  {
    hide DeleteOk, DeleteUpToOk, Remove, Exchanged;
  }

  lemma MirroredFacts(m: Mem, r: Mem, n: string)
    requires Kept(m) && Kept(r) && Mirrors(m, r) && n in m.scopes && n != EVENTS
    ensures n in r.scopes && r.codec == m.codec && SameScope(m.scopes[n], r.scopes[n])
    ensures WellFormed(m.scopes[n]) && WellFormed(r.scopes[n])
  {
    hide SameScope, WellFormed, ItemsFit;
  }

  /** A deletion by uuid that hits on the original replays if and only if the replica knows the item at
      the same position by that uuid. A replica that minted its own uuids does not: the record is a miss. */
  lemma {:induction false} UuidDeletionReplays(m: Mem, r: Mem, n: string, u: Uuid, t: Tick, t': Tick)
    requires Kept(m) && Kept(r) && Mirrors(m, r) && n in m.scopes && n != EVENTS && FreshTick(m, t) && FreshTick(r, t')
    requires DeleteOk(m.codec, n, "", 0, Some(u)) && FindUuid(m.scopes[n].items, u).Some?
    ensures Mirrors(Exec(m, ByUuid(n, u), t).mem, Exec(r, ByUuid(n, u), t').mem) <==> SamePosition(m, r, n, u)
  {
    hide Kept, FreshTick, Remove, WellFormed, SameScope, Mirrors, DeleteOk, FindUuid, Exchanged, Mutation, Exec;
    MirroredFacts(m, r, n);
    var a, b, c := m.scopes[n], r.scopes[n], ByUuid(n, u);
    DeletedAlike(a, b, u);
    RemovalActs(m, n, u, t);
    RemovalActs(r, n, u, t');
    CommandActsOn(m, c, t, n, Remove(a, DeleteUuid(u)));
    CommandActsOn(r, c, t', n, Remove(b, DeleteUuid(u)));
    MirrorsExactly(m, r, n, Remove(a, DeleteUuid(u)), Remove(b, DeleteUuid(u)), Exec(m, c, t).mem, Exec(r, c, t').mem);
  }

  /** A drain whose boundary is named by uuid replays if and only if the uuid cuts the replica at the
      same position. */
  lemma {:induction false} UuidDrainReplays(m: Mem, r: Mem, n: string, u: Uuid, t: Tick, t': Tick)
    requires Kept(m) && Kept(r) && Mirrors(m, r) && n in m.scopes && n != EVENTS && FreshTick(m, t) && FreshTick(r, t')
    requires DeleteUpToOk(m.codec, n, 0, Some(u)) && FindUuid(m.scopes[n].items, u).Some?
    ensures Mirrors(Exec(m, DrainTo(n, u), t).mem, Exec(r, DrainTo(n, u), t').mem) <==> SamePosition(m, r, n, u)
  {
    hide Kept, FreshTick, Remove, WellFormed, SameScope, Mirrors, DeleteUpToOk, FindUuid, Exchanged, Mutation, Exec;
    MirroredFacts(m, r, n);
    var a, b, c := m.scopes[n], r.scopes[n], DrainTo(n, u);
    DrainedAlike(a, b, u);
    RemovalActs(m, n, u, t);
    RemovalActs(r, n, u, t');
    CommandActsOn(m, c, t, n, Remove(a, UpToUuid(u)));
    CommandActsOn(r, c, t', n, Remove(b, UpToUuid(u)));
    MirrorsExactly(m, r, n, Remove(a, UpToUuid(u)), Remove(b, UpToUuid(u)), Exec(m, c, t).mem, Exec(r, c, t').mem);
  }

  // ---------- Updates by uuid ----------

  /** Storing this payload in the entry would change nothing but its timestamp. */
  predicate Unmoved(codec: Codec, e: Entry, payload: Bytes, render: Option<Bytes>) {
    e.payload == payload && e.render == RenderFor(codec, payload, render) && e.counter.None?
  }

  /** Scope `n` would take the update now: the address hits, the item fits and the bytes are there. */
  predicate Takes(m: Mem, n: string, w: Write, t: Tick) {
    var p := PlanOf(ScopeAt(m, n), w, EnvFor(m, n, t.now, t.minted));
    p.Ready? && CanReserve(m.total, m.cfg.maxStoreBytes, p.delta)
  }

  /** When an update by uuid that went ahead on the original leaves the replica a mirror: the uuid names
      the same position there, or nothing that is compared changes on either side. */
  predicate UpdateCarriesOver(m: Mem, r: Mem, n: string, w: Write, t': Tick)
    requires w.UpdateUuid?
  {
    var a, b := ScopeAt(m, n).items, ScopeAt(r, n).items;
    var i, j := FindUuid(a, w.uuid), FindUuid(b, w.uuid);
    i == j || (i.Some? && Unmoved(m.codec, a[i.value], w.payload, w.render)
               && (Takes(r, n, w, t') ==> j.Some? && Unmoved(r.codec, b[j.value], w.payload, w.render)))
  }

  /** The content an update leaves: replaced in place if it is taken. */
  function Updated(m: Mem, n: string, w: Write, t: Tick): Scope {
    if Takes(m, n, w, t) then PlanOf(ScopeAt(m, n), w, EnvFor(m, n, t.now, t.minted)).after else ScopeAt(m, n)
  }

  /** The entry an update by uuid leaves at its position. */
  lemma UpdatedEntry(m: Mem, n: string, w: Write, t: Tick)
    requires w.UpdateUuid? && Takes(m, n, w, t)
    ensures var s, i := ScopeAt(m, n), FindUuid(ScopeAt(m, n).items, w.uuid);
      && i.Some?
      && Updated(m, n, w, t) == s.(items := s.items[i.value := s.items[i.value].(
           payload := w.payload, render := RenderFor(m.codec, w.payload, w.render), ts := t.now, counter := None)])
  {
    hide RenderFor, FindUuid, Size, PayloadCost;
  }

  lemma {:induction false} OneSideUpdated(a: Scope, b: Scope, i: nat, e: Entry)
    requires SameScope(a, b) && i < |a.items|
    ensures SameScope(a.(items := a.items[i := e]), b) <==> SameEntry(e, b.items[i])
  {
  }

  lemma {:induction false} BothSidesUpdated(a: Scope, b: Scope, i: nat, j: nat, e: Entry, f: Entry)
    requires SameScope(a, b) && i < |a.items| && j < |b.items|
    ensures SameScope(a.(items := a.items[i := e]), b.(items := b.items[j := f])) <==>
      if i == j then SameEntry(e, f) else SameEntry(e, b.items[i]) && SameEntry(a.items[j], f)
  {
    var x, y := a.items[i := e], b.items[j := f];
    assert x[i] == e && y[j] == f && (i != j ==> x[j] == a.items[j] && y[i] == b.items[i]);
  }

  lemma {:induction false} UpdatedAlike(m: Mem, r: Mem, n: string, w: Write, t: Tick, t': Tick)
    requires Mirrors(m, r) && r.total <= m.total && n in m.scopes && n != EVENTS && w.UpdateUuid? && Takes(m, n, w, t)
    ensures SameScope(Updated(m, n, w, t), Updated(r, n, w, t')) <==> UpdateCarriesOver(m, r, n, w, t')
  {
    MirroredScope(m, r, n);
    var a, b := ScopeAt(m, n), ScopeAt(r, n);
    var i, j := FindUuid(a.items, w.uuid), FindUuid(b.items, w.uuid);
    assert r.codec == m.codec;
    UpdatedEntry(m, n, w, t);
    if i == j {
      TakenAlike(m, r, n, w, t, t');
    }
    hide Mirrors, FindUuid, RenderFor, ScopeAt, Updated, Takes;
    if Takes(r, n, w, t') {
      UpdatedEntry(r, n, w, t');
      BothSidesUpdated(a, b, i.value, j.value, Updated(m, n, w, t).items[i.value], Updated(r, n, w, t').items[j.value]);
    } else {
      assert Updated(r, n, w, t') == b by { NotTaken(r, n, w, t'); }
      OneSideUpdated(a, b, i.value, Updated(m, n, w, t).items[i.value]);
    }
  }

  lemma NotTaken(m: Mem, n: string, w: Write, t: Tick)
    requires !Takes(m, n, w, t)
    ensures Updated(m, n, w, t) == ScopeAt(m, n)
  {
  }

  /** At the same position the replica, which has at least as much room, takes the update too. */
  lemma {:induction false} TakenAlike(m: Mem, r: Mem, n: string, w: Write, t: Tick, t': Tick)
    requires Mirrors(m, r) && r.total <= m.total && n != EVENTS && w.UpdateUuid? && Takes(m, n, w, t)
    requires FindUuid(ScopeAt(r, n).items, w.uuid) == FindUuid(ScopeAt(m, n).items, w.uuid)
    ensures Takes(r, n, w, t')
  {
    MirroredScope(m, r, n);
    var a, b := ScopeAt(m, n), ScopeAt(r, n);
    var ea, eb := EnvFor(m, n, t.now, t.minted), EnvFor(r, n, t'.now, t'.minted);
    var i := FindUuid(a.items, w.uuid);
    assert eb == ea.(now := eb.now, minted := eb.minted) && m.cfg.maxStoreBytes == r.cfg.maxStoreBytes;
    hide FindUuid, Mirrors, PlanReplace, PlanChecked;
    SameReplace(a, b, i.value, w.payload, w.render, ea, eb);
  }

  lemma {:induction false} UpdateActs(m: Mem, item: Entry, w: Write, t: Tick)
    requires item.scope in m.scopes && ValidateUpdateItem(m.codec, item, m.cfg.maxItemBytes).Ok?
    requires w == UpdateOf(ValidateUpdateItem(m.codec, item, m.cfg.maxItemBytes).value)
    ensures var d := Mutation(m, Update(item), t);
      d.mem == Exchanged(m, item.scope, Updated(m, item.scope, w, t)) && (d.changed <==> Takes(m, item.scope, w, t))
  {
    hide ValidateUpdateItem, PlanOf, Exchanged;
    ExchangeNothing(m, item.scope);
  }

  /** An update by uuid that went ahead on the original replays if and only if the uuid names the same
      position on the replica, or nothing that is compared changes on either side. */
  lemma {:induction false} UuidUpdateReplays(m: Mem, r: Mem, item: Entry, t: Tick, t': Tick)
    requires Kept(m) && Kept(r) && Mirrors(m, r) && FreshTick(m, t) && FreshTick(r, t')
    requires FromClient(item) && item.id == "" && item.uuid.Some? && Exec(m, Update(item), t).changed
    ensures var w := UpdateUuid(item.uuid.value, item.payload, RenderFor(m.codec, item.payload, None));
      Mirrors(Exec(m, Update(item), t).mem, Exec(r, Update(item), t').mem)
      <==> UpdateCarriesOver(m, r, item.scope, w, t')
  {
    var n, c := item.scope, Update(item);
    var w := UpdateUuid(item.uuid.value, item.payload, RenderFor(m.codec, item.payload, None));
    ReplicaIsSmaller(m, r);
    SameNames(m, r);
    UpdateIsValid(m, item, t);
    assert r.codec == m.codec && r.cfg.maxItemBytes == m.cfg.maxItemBytes;
    hide Kept, FreshTick, Mirrors, ValidateUpdateItem, RenderFor, Exchanged, Takes, Updated, UpdateCarriesOver,
      IsReserved;
    UpdateActs(m, item, w, t);
    UpdateActs(r, item, w, t');
    UpdatedAlike(m, r, n, w, t, t');
    hide Mutation, Exec;
    CommandActsOn(m, c, t, n, Updated(m, n, w, t));
    CommandActsOn(r, c, t', n, Updated(r, n, w, t'));
    MirrorsExactly(m, r, n, Updated(m, n, w, t), Updated(r, n, w, t'), Exec(m, c, t).mem, Exec(r, c, t').mem);
  }

  lemma UpdateIsValid(m: Mem, item: Entry, t: Tick)
    requires FromClient(item) && item.id == "" && item.uuid.Some? && Exec(m, Update(item), t).changed
    ensures var v := ValidateUpdateItem(m.codec, item, m.cfg.maxItemBytes);
      && v.Ok? && item.scope in m.scopes && item.scope != EVENTS && Mutation(m, Update(item), t).changed
      && UpdateOf(v.value) == UpdateUuid(item.uuid.value, item.payload, RenderFor(m.codec, item.payload, None))
  {
    hide TryWrite, RenderFor, CheckItemSize;
  }

  // ---------- Records in another order than their commits ----------

  lemma {:induction false} EqualUpsertsMirror(m: Mem, r: Mem, c: Command, ts: seq<Tick>, rts: seq<Tick>)
    requires Kept(m) && Kept(r) && Mirrors(m, r) && |ts| == |rts| == 2 && c.Upsert? && FromClient(c.item)
    requires MintsFresh(m, [c, c], ts) && MintsFresh(r, [c, c], rts)
    requires Exec(m, c, ts[0]).changed && Exec(Executed(m, [c], ts), c, ts[1]).changed
    ensures Mirrors(Executed(m, [c, c], ts), Executed(r, [c, c], rts))
  {
    hide Kept, Exec, FreshTick, Mirrors, MintsFresh, Executed, Recordable;
    TwoSteps(m, c, c, ts);
    TwoSteps(r, c, c, rts);
    ChangedIsRecordable(m, c.item, ts[0]);
    ChangedIsRecordable(Executed(m, [c], ts), c.item, ts[1]);
    RepeatMirrors(m, r, c, ts[0], rts[0]);
    RepeatMirrors(Executed(m, [c], ts), Executed(r, [c], rts), c, ts[1], rts[1]);
  }

  /** Two upserts of one id, carried out one way round on the original and the other way round on a
      mirror, all four going ahead, leave mirrors if and only if their payloads are equal. */
  lemma {:induction false} SwappedUpserts(m: Mem, r: Mem, one: Entry, two: Entry, ts: seq<Tick>, rts: seq<Tick>)
    requires Kept(m) && Kept(r) && Mirrors(m, r) && |ts| == |rts| == 2
    requires FromClient(one) && FromClient(two) && one.scope == two.scope && one.id == two.id
    requires MintsFresh(m, [StoreSpec.Upsert(one), StoreSpec.Upsert(two)], ts)
    requires MintsFresh(r, [StoreSpec.Upsert(two), StoreSpec.Upsert(one)], rts)
    requires Exec(m, StoreSpec.Upsert(one), ts[0]).changed
    requires Exec(r, StoreSpec.Upsert(two), rts[0]).changed
    requires Exec(Executed(m, [StoreSpec.Upsert(one)], ts), StoreSpec.Upsert(two), ts[1]).changed
    requires Exec(Executed(r, [StoreSpec.Upsert(two)], rts), StoreSpec.Upsert(one), rts[1]).changed
    ensures Mirrors(Executed(m, [StoreSpec.Upsert(one), StoreSpec.Upsert(two)], ts),
                    Executed(r, [StoreSpec.Upsert(two), StoreSpec.Upsert(one)], rts))
      <==> one.payload == two.payload
  {
    hide Kept, Exec, FreshTick, Mirrors, MintsFresh, Executed, Recordable, SameScope;
    var c, d := StoreSpec.Upsert(one), StoreSpec.Upsert(two);
    TwoSteps(m, c, d, ts);
    TwoSteps(r, d, c, rts);
    ChangedIsRecordable(m, one, ts[0]);
    ChangedIsRecordable(r, two, rts[0]);
    LastUpsertWins(Executed(m, [c], ts), two, ts[1]);
    LastUpsertWins(Executed(r, [d], rts), one, rts[1]);
    var em, er := Executed(m, [c, d], ts), Executed(r, [d, c], rts);
    if Mirrors(em, er) {
      MirroredScope(em, er, one.scope);
      SamePayload(ScopeAt(em, one.scope), ScopeAt(er, one.scope), one.id);
    }
    if one.payload == two.payload {
      assert one == two;
      EqualUpsertsMirror(m, r, c, ts, rts);
    }
  }

  lemma SamePayload(a: Scope, b: Scope, id: string)
    requires SameScope(a, b) && FindId(a.items, id).Some?
    ensures FindId(b.items, id) == FindId(a.items, id)
    ensures b.items[FindId(a.items, id).value].payload == a.items[FindId(a.items, id).value].payload
  {
    SameFindId(a.items, b.items, id);
  }

  lemma {:induction false} ChangedIsRecordable(m: Mem, item: Entry, t: Tick)
    requires Kept(m) && FreshTick(m, t) && FromClient(item) && Exec(m, StoreSpec.Upsert(item), t).changed
    ensures Recordable(m, StoreSpec.Upsert(item), t) && item.uuid.None? && item.seqNo == 0 && item.ts == 0
  {
    ItemCarriesRequest(m, StoreSpec.Upsert(item), t);
    LastUpsertWins(m, item, t);
    hide Mutation, Kept, FreshTick;
  }

  lemma {:induction false} TwoSteps(m: Mem, c: Command, d: Command, ts: seq<Tick>)
    requires Kept(m) && |ts| == 2 && FromClientCommand(c) && FromClientCommand(d) && MintsFresh(m, [c, d], ts)
    ensures Executed(m, [c, d], ts) == Exec(Executed(m, [c], ts), d, ts[1]).mem
    ensures Kept(Executed(m, [c], ts)) && FreshTick(m, ts[0]) && FreshTick(Executed(m, [c], ts), ts[1])
    ensures Executed(m, [c], ts) == Exec(m, c, ts[0]).mem
  {
    assert [c, d][..1] == [c] && [c][..0] == [];
    MintsFreshPrefix(m, [c, d], ts);
    MintsFreshPrefix(m, [c], ts);
    hide Exec, Kept, FreshTick;
    RunIsSound(m, [c], ts);
  }

  /** After an upsert the item of that id carries its payload. */
  lemma {:induction false} LastUpsertWins(m: Mem, item: Entry, t: Tick)
    requires Kept(m) && FreshTick(m, t) && FromClient(item) && Exec(m, StoreSpec.Upsert(item), t).changed
    ensures var s := ScopeAt(Exec(m, StoreSpec.Upsert(item), t).mem, item.scope);
      item.scope != EVENTS && FindId(s.items, item.id).Some?
        && s.items[FindId(s.items, item.id).value].payload == item.payload
  {
    var c := StoreSpec.Upsert(item);
    ExecKeeps(m, c, t);
    ItemCarriesRequest(m, c, t);
    ValidatedIsAdmitted(m, c, t);
    FreshTarget(m, item.scope, t);
    var it := ValidateUpsertItem(m.codec, item, m.cfg.maxItemBytes).value;
    var w := ScopeSpec.Upsert(it);
    UpsertHasNoUuid(m, item);
    hide TryWrite, ValidateUpsertItem, Conserved, FreshTick;
    ReadyWriteKeeps(m, item.scope, w, t.now, t.minted);
    var p := PlanOf(ScopeAt(m, item.scope), w, EnvFor(m, item.scope, t.now, t.minted));
    assert item.id != "" && p.after.items[p.at].id == item.id;
    hide PlanOf, StoreOk, Emit, Admitted;
    FindIdIs(p.after.items, p.at);
  }
}
