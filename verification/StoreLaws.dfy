/** Every public operation keeps the store invariant, the per-item caps and the event accounts. */
module StoreLaws {
  import opened Types
  import opened ScopeSpec
  import opened Validation
  import opened StoreSpec

  // ---------- Per-item caps ----------

  /** What the validators guarantee about a write before it reaches its scope. */
  predicate Admitted(m: Mem, scope: string, w: Write) {
    match w
    case Append(req) => req.scope == scope && req.uuid.None?
    case Upsert(req) =>
      && req.scope == scope && req.uuid.None? && req.counter.None?
      && PreMintSize(req.(render := RenderFor(m.codec, req.payload, req.render))) <= m.cfg.MaxItemBytesFor(scope)
    case UpdateId(id, payload, render) =>
      32 + |scope| + |id| + UUID_STRING_LEN + 16 + |payload| + RenderLen(RenderFor(m.codec, payload, render))
      <= m.cfg.MaxItemBytesFor(scope)
    case UpdateSeq(_, _, _) => true
    case UpdateUuid(_, _, _) => true
    case CounterAdd(s, id, _) => s == scope && CounterItemSize(scope, id) <= m.cfg.MaxItemBytesFor(scope)
  }

  lemma {:induction false} ReplacedFits(cfg: Config, n: string, s: Scope, at: nat, e: Entry)
    requires ItemsFit(cfg, n, s) && at < |s.items|
    requires e.scope == n && e.uuid.Some? && Size(e) <= cfg.MaxItemBytesFor(n)
    ensures ItemsFit(cfg, n, s.(items := s.items[at := e]))
  {
    hide Size;
    var t := s.items[at := e];
    forall x | x in t ensures x.scope == n && x.uuid.Some? && Size(x) <= cfg.MaxItemBytesFor(n) {
      assert x == e || x in s.items;
    }
  }

  lemma {:induction false} PushedFits(m: Mem, n: string, s: Scope, e: Entry, now: int, minted: Uuid)
    requires ItemsFit(m.cfg, n, s) && !OverCount(EnvFor(m, n, now, minted), |s.items| + 1)
    requires e.scope == n && e.uuid.Some? && Size(e) <= m.cfg.MaxItemBytesFor(n)
    ensures ItemsFit(m.cfg, n, Pushed(s, e))
  {
    hide Size;
    var e' := e.(seqNo := s.lastSeq + 1);
    assert Size(e') == Size(e) by { SeqCostsNothing(e, s.lastSeq + 1); }
    forall x | x in s.items + [e'] ensures x.scope == n && x.uuid.Some? && Size(x) <= m.cfg.MaxItemBytesFor(n) {
      assert x == e' || x in s.items;
    }
  }

  lemma SeqCostsNothing(e: Entry, n: nat)
    ensures Size(e.(seqNo := n)) == Size(e)
  {
  }

  lemma {:induction false} CreatedItemFits(m: Mem, n: string, w: Write, now: int, minted: Uuid)
    requires var s := ScopeAt(m, n); WellFormed(s) && ItemsFit(m.cfg, n, s) && Admitted(m, n, w)
    requires FreshFor(ScopeAt(m, n), w, EnvFor(m, n, now, minted))
    requires PlanOf(ScopeAt(m, n), w, EnvFor(m, n, now, minted)).Ready?
    requires PlanOf(ScopeAt(m, n), w, EnvFor(m, n, now, minted)).created
    ensures ItemsFit(m.cfg, n, PlanOf(ScopeAt(m, n), w, EnvFor(m, n, now, minted)).after)
  {
    var s, env := ScopeAt(m, n), EnvFor(m, n, now, minted);
    CreatedIsPushed(s, w, env);
    hide RenderFor, WellFormed, ItemsFit, FindId, Config.MaxItemBytesFor, Config.MaxItemsFor, Fresh;
    var p := PlanOf(s, w, env);
    PushedFits(m, n, s, p.after.items[p.at].(seqNo := 0), now, minted);
  }

  lemma {:induction false} ReplacementFits(m: Mem, n: string, w: Write, now: int, minted: Uuid)
    requires var s := ScopeAt(m, n); WellFormed(s) && ItemsFit(m.cfg, n, s) && Admitted(m, n, w)
    requires FreshFor(ScopeAt(m, n), w, EnvFor(m, n, now, minted))
    requires PlanOf(ScopeAt(m, n), w, EnvFor(m, n, now, minted)).Ready?
    requires !PlanOf(ScopeAt(m, n), w, EnvFor(m, n, now, minted)).created
    ensures ItemsFit(m.cfg, n, PlanOf(ScopeAt(m, n), w, EnvFor(m, n, now, minted)).after)
  {
    var s, env := ScopeAt(m, n), EnvFor(m, n, now, minted);
    WriteIsSound(s, w, env);
    hide RenderFor, WellFormed, ItemsFit, SizeSum, Config.MaxItemBytesFor, Config.MaxItemsFor, Fresh;
    var p := PlanOf(s, w, env);
    StoredFits(m, n, p.at);
    if w.UpdateId? { assert s.items[p.at].id == w.id; }
    ReplacedFits(m.cfg, n, s, p.at, p.after.items[p.at]);
    assert p.after == s.(items := s.items[p.at := p.after.items[p.at]]);
  }

  /** The size measured by the validator, or by the scope itself, is the size the stored item has. */
  lemma {:induction false} PlannedItemFits(m: Mem, n: string, w: Write, now: int, minted: Uuid)
    requires var s := ScopeAt(m, n); WellFormed(s) && ItemsFit(m.cfg, n, s) && Admitted(m, n, w)
    requires FreshFor(ScopeAt(m, n), w, EnvFor(m, n, now, minted))
    requires PlanOf(ScopeAt(m, n), w, EnvFor(m, n, now, minted)).Ready?
    ensures ItemsFit(m.cfg, n, PlanOf(ScopeAt(m, n), w, EnvFor(m, n, now, minted)).after)
  {
    hide *;
    if PlanOf(ScopeAt(m, n), w, EnvFor(m, n, now, minted)).created {
      CreatedItemFits(m, n, w, now, minted);
    } else {
      ReplacementFits(m, n, w, now, minted);
    }
  }

  lemma StoredFits(m: Mem, n: string, i: nat)
    requires ItemsFit(m.cfg, n, ScopeAt(m, n)) && i < |ScopeAt(m, n).items|
    ensures var e := ScopeAt(m, n).items[i]; e in ScopeAt(m, n).items && e.scope == n && e.uuid.Some?
  {
  }

  lemma CreatedIsPushed(s: Scope, w: Write, env: Env)
    requires WellFormed(s) && FreshFor(s, w, env) && PlanOf(s, w, env).Ready? && PlanOf(s, w, env).created
    ensures var p := PlanOf(s, w, env); p.at < |p.after.items| && p.after == Pushed(s, p.after.items[p.at].(seqNo := 0))
  {
    WriteIsSound(s, w, env);
  }

  // ---------- One mutation ----------

  lemma {:induction false} ExchangeKeeps(m: Mem, n: string, after: Scope)
    requires StoreOk(m) && WellFormed(after) && ItemsFit(m.cfg, n, after)
    requires Exchanged(m, n, after).total <= m.cfg.maxStoreBytes
    ensures StoreOk(Exchanged(m, n, after))
  {
    hide WellFormed, ItemsFit, SizeSum;
    TotalsSet(m.scopes, n, after);
    assert SizeSum(EMPTY_SCOPE.items) == 0 by { NothingCostsNothing(); }
    assert m.scopes[n := after].Keys == m.scopes.Keys + {n};
  }

  lemma NothingCostsNothing()
    ensures SizeSum([]) == 0
  {
  }

  /** Nothing but one scope differs, and that one is not removed. */
  ghost predicate OnlyScope(before: Mem, after: Mem, n: string) {
    && (n in before.scopes ==> n in after.scopes)
    && forall k :: k != n ==>
       (k in after.scopes <==> k in before.scopes) && (k in before.scopes ==> after.scopes[k] == before.scopes[k])
  }

  lemma ExchangeIsLocal(m: Mem, n: string, after: Scope)
    ensures OnlyScope(m, Exchanged(m, n, after), n) && Exchanged(m, n, after).scopes[n] == after
  {
    hide SizeSum;
  }

  lemma {:induction false} ReadyWriteKeeps(m: Mem, n: string, w: Write, now: int, minted: Uuid)
    requires StoreOk(m) && Admitted(m, n, w) && Fresh(ScopeAt(m, n), minted) && TryWrite(m, n, w, now, minted).changed
    ensures var p := PlanOf(ScopeAt(m, n), w, EnvFor(m, n, now, minted));
      && p.Ready? && Sound(ScopeAt(m, n), p)
      && TryWrite(m, n, w, now, minted).mem == Exchanged(m, n, p.after)
      && TryWrite(m, n, w, now, minted).item == Some(p.after.items[p.at])
      && StoreOk(Exchanged(m, n, p.after))
  {
    var s, env := ScopeAt(m, n), EnvFor(m, n, now, minted);
    assert WellFormed(s) && ItemsFit(m.cfg, n, s) by { ScopeIsOk(m, n); }
    hide StoreOk, WellFormed, ItemsFit, PlanOf, SizeSum, EnvFor, Admitted, Exchanged, ScopeAt, Sound;
    var p := PlanOf(s, w, env);
    AdmittedIsFresh(m, n, w, now, minted);
    PlannedItemFits(m, n, w, now, minted);
    WriteIsSound(s, w, env);
    WithinCap(m, n, p);
    assert WellFormed(p.after) && p.at < |p.after.items| by { SoundIsWellFormed(s, p); }
    ExchangeKeeps(m, n, p.after);
  }

  lemma SoundIsWellFormed(s: Scope, p: Plan)
    requires p.Ready? && Sound(s, p)
    ensures WellFormed(p.after) && p.at < |p.after.items|
  {
  }

  lemma ScopeIsOk(m: Mem, n: string)
    requires StoreOk(m)
    ensures WellFormed(ScopeAt(m, n)) && ItemsFit(m.cfg, n, ScopeAt(m, n)) && m.total <= m.cfg.maxStoreBytes
  {
  }

  lemma {:induction false} TryWriteKeeps(m: Mem, n: string, w: Write, now: int, minted: Uuid)
    requires StoreOk(m) && Admitted(m, n, w) && Fresh(ScopeAt(m, n), minted)
    ensures var d := TryWrite(m, n, w, now, minted);
      && StoreOk(d.mem) && OnlyScope(m, d.mem, n)
      && (!d.changed ==> d.mem == m)
  {
    hide StoreOk, PlanOf, Exchanged, EnvFor, Admitted, ScopeAt, Sound;
    if TryWrite(m, n, w, now, minted).changed {
      ReadyWriteKeeps(m, n, w, now, minted);
      ExchangeIsLocal(m, n, PlanOf(ScopeAt(m, n), w, EnvFor(m, n, now, minted)).after);
    }
  }

  lemma AdmittedIsFresh(m: Mem, n: string, w: Write, now: int, minted: Uuid)
    requires Admitted(m, n, w) && Fresh(ScopeAt(m, n), minted)
    ensures FreshFor(ScopeAt(m, n), w, EnvFor(m, n, now, minted))
  {
  }

  lemma WithinCap(m: Mem, n: string, p: Plan)
    requires StoreOk(m) && p.Ready? && Sound(ScopeAt(m, n), p)
    requires CanReserve(m.total, m.cfg.maxStoreBytes, CreationFee(m, n))
    requires CanReserve(m.total + CreationFee(m, n), m.cfg.maxStoreBytes, p.delta)
    ensures Exchanged(m, n, p.after).total <= m.cfg.maxStoreBytes
  {
  }

  lemma {:induction false} RemovedFits(m: Mem, n: string, r: Removal)
    requires StoreOk(m) && n in m.scopes
    ensures var after := Remove(m.scopes[n], r);
      ItemsFit(m.cfg, n, after) && Exchanged(m, n, after).total <= m.cfg.maxStoreBytes
  {
    var s := m.scopes[n];
    RemovalIsSound(s, r);
    hide WellFormed, Remove, SizeSum, Size;
  }

  lemma {:induction false} TryRemoveKeeps(m: Mem, n: string, r: Removal)
    requires StoreOk(m)
    ensures var d := TryRemove(m, n, r);
      && StoreOk(d.mem) && OnlyScope(m, d.mem, n) && d.error.None?
      && (!d.changed ==> d.mem == m)
      && (n in m.scopes ==> n in d.mem.scopes && d.mem.scopes[n] == Remove(m.scopes[n], r))
  {
    ScopeIsOk(m, n);
    hide StoreOk, WellFormed, Remove, SizeSum, ItemsFit, Exchanged;
    if n in m.scopes {
      var s := m.scopes[n];
      var after := Remove(s, r);
      RemovalIsSound(s, r);
      RemovedFits(m, n, r);
      ExchangeKeeps(m, n, after);
      ExchangeIsLocal(m, n, after);
      if |after.items| == |s.items| {
        ExchangeNothing(m, n);
      }
    }
  }

  lemma ExchangeNothing(m: Mem, n: string)
    requires n in m.scopes
    ensures Exchanged(m, n, m.scopes[n]) == m
  {
    hide SizeSum;
    assert m.scopes[n := m.scopes[n]] == m.scopes;
  }

  lemma {:induction false} DroppedKeeps(m: Mem, n: string)
    requires StoreOk(m) && n in m.scopes && !IsReserved(n)
    ensures StoreOk(Dropped(m, n))
  {
    hide WellFormed, ItemsFit, SizeSum;
    TotalsMinus(m.scopes, n);
    assert (m.scopes - {n}).Keys == m.scopes.Keys - {n};
  }

  // ---------- Events ----------

  function EventEntry(m: Mem, ev: WriteEvent, t: Tick): (e: Entry)
    ensures e.payload == m.marshal(Recorded(m, ev))
  {
    var item := EventItem(m, ev);
    item.(ts := t.eventNow, render := RenderFor(m.codec, item.payload, None), uuid := Some(t.eventUuid))
  }

  lemma {:induction false} EventPlan(m: Mem, ev: WriteEvent, t: Tick)
    requires EVENTS in m.scopes
    ensures var s := m.scopes[EVENTS];
      var p := PlanOf(s, ScopeSpec.Append(EventItem(m, ev)), EnvFor(m, EVENTS, t.eventNow, t.eventUuid));
      !p.Miss? && (p.Ready? ==> p.after == Pushed(s, EventEntry(m, ev, t)))
  {
    hide RenderFor, Size, Config.MaxItemBytesFor, Config.MaxItemsFor;
  }

  /** An entry written to `_events` carries the marshalled event under the next sequence number. */
  lemma {:induction false} EventIsPushed(m: Mem, ev: WriteEvent, t: Tick)
    requires StoreOk(m) && Fresh(m.scopes[EVENTS], t.eventUuid)
    ensures var s, d := m.scopes[EVENTS], TryWrite(m, EVENTS, ScopeSpec.Append(EventItem(m, ev)), t.eventNow,
      t.eventUuid);
      && StoreOk(d.mem) && OnlyScope(m, d.mem, EVENTS)
      && (d.error.Some? ==> d.mem == m)
      && (d.error.None? ==> EVENTS in d.mem.scopes && d.mem.scopes[EVENTS] == Pushed(s, EventEntry(m, ev, t)))
  {
    TryWriteKeeps(m, EVENTS, ScopeSpec.Append(EventItem(m, ev)), t.eventNow, t.eventUuid);
    EventsExist(m);
    EventPlan(m, ev, t);
    hide StoreOk, PlanOf, SizeSum, Fresh, OnlyScope, EventEntry, EventItem, EnvFor, Pushed;
  }

  lemma PushConserves(m: Mem, m': Mem, rec: WriteEvent, e: Entry)
    requires Conserved(m) && m.cfg.events != Off && e.payload == m.marshal(rec)
    requires EVENTS in m'.scopes && m'.scopes[EVENTS] == Pushed(m.scopes[EVENTS], e)
    requires m'.cfg == m.cfg && m'.marshal == m.marshal && m'.drops == m.drops && m'.dropsBefore == m.dropsBefore
    requires m'.commits == m.commits + 1 && m'.log == m.log + [rec]
    ensures Conserved(m')
  {
  }

  lemma {:induction false} TryWriteLeaves(m: Mem, n: string, w: Write, now: int, minted: Uuid)
    ensures var m' := TryWrite(m, n, w, now, minted).mem;
      m' == m.(scopes := m'.scopes, total := m'.total, items := m'.items, count := m'.count)
  {
    hide PlanOf, SizeSum;
  }

  lemma {:induction false} WrittenEventKeeps(m: Mem, ev: WriteEvent, t: Tick)
    requires StoreOk(m) && Conserved(m) && Fresh(m.scopes[EVENTS], t.eventUuid) && ev.scope != EVENTS
      && m.cfg.events != Off
    ensures var m' := Emit(m, ev, t); StoreOk(m') && Conserved(m') && OnlyScope(m, m', EVENTS)
  {
    hide StoreOk, Conserved, TryWrite, OnlyScope, Fresh, EventEntry;
    var m1 := m.(commits := m.commits + 1);
    StoreOkIgnores(m, m1);
    EventIsPushed(m1, ev, t);
    TryWriteLeaves(m1, EVENTS, ScopeSpec.Append(EventItem(m, ev)), t.eventNow, t.eventUuid);
    var d := TryWrite(m1, EVENTS, ScopeSpec.Append(EventItem(m, ev)), t.eventNow, t.eventUuid);
    if d.error.Some? {
      DropConserves(m);
      StoreOkIgnores(m, Emit(m, ev, t));
      SameScopes(m, m, Emit(m, ev, t));
    } else {
      assert EVENTS in d.mem.scopes by { EventsExist(d.mem); }
      PushConserves(m, Emit(m, ev, t), Recorded(m, ev), EventEntry(m1, ev, t));
      StoreOkIgnores(d.mem, Emit(m, ev, t));
      OnlyScopeIgnores(m1, d.mem, m, Emit(m, ev, t));
    }
  }

  lemma EventsExist(m: Mem)
    requires StoreOk(m)
    ensures EVENTS in m.scopes
  {
  }

  lemma OnlyScopeIgnores(m: Mem, d: Mem, m': Mem, d': Mem)
    requires OnlyScope(m, d, EVENTS) && m'.scopes == m.scopes && d'.scopes == d.scopes
    ensures OnlyScope(m', d', EVENTS)
  {
  }

  lemma SameScopes(m: Mem, m': Mem, d: Mem)
    requires m'.scopes == d.scopes == m.scopes
    ensures OnlyScope(m', d, EVENTS)
  {
  }

  /** An emission keeps every invariant, touches no scope but `_events`, and accounts for the commit by
      exactly one entry or one drop. */
  lemma {:induction false} EmitKeeps(m: Mem, ev: WriteEvent, t: Tick)
    requires StoreOk(m) && Conserved(m) && Fresh(m.scopes[EVENTS], t.eventUuid)
    ensures var m' := Emit(m, ev, t);
      && StoreOk(m') && Conserved(m') && OnlyScope(m, m', EVENTS)
      && m'.commits == m.commits + (if ev.scope == EVENTS then 0 else 1)
  {
    hide StoreOk, TryWrite, Conserved, OnlyScope;
    var w := ScopeSpec.Append(EventItem(m, ev));
    TryWriteLeaves(m.(commits := m.commits + 1), EVENTS, w, t.eventNow, t.eventUuid);
    if ev.scope == EVENTS {
      SameScopes(m, m, m);
    } else if m.cfg.events == Off {
      OffConserves(m);
      StoreOkIgnores(m, Emit(m, ev, t));
      SameScopes(m, m, Emit(m, ev, t));
    } else {
      WrittenEventKeeps(m, ev, t);
    }
  }

  lemma DropConserves(m: Mem)
    requires Conserved(m) && m.cfg.events != Off
    ensures Conserved(m.(commits := m.commits + 1, drops := m.drops + 1))
  {
  }

  lemma OffConserves(m: Mem)
    requires Conserved(m) && m.cfg.events == Off
    ensures Conserved(m.(commits := m.commits + 1))
  {
  }

  lemma StoreOkIgnores(m: Mem, m': Mem)
    requires StoreOk(m) && m'.cfg == m.cfg && m'.scopes == m.scopes && m'.total == m.total && m'.items == m.items
      && m'.count == m.count
    ensures StoreOk(m')
  {
  }

  // ---------- Operations ----------

  function Target(c: Command): string {
    match c
    case Append(item) => item.scope
    case Upsert(item) => item.scope
    case Update(item) => item.scope
    case CounterAdd(scope, _, _) => scope
    case Delete(scope, _, _, _) => scope
    case DeleteUpTo(scope, _, _) => scope
    case DeleteScope(scope) => scope
  }

  /** The mutation part of a command, before its event. */
  ghost predicate Mutates(m: Mem, m': Mem) {
    && EVENTS in m.scopes && EVENTS in m'.scopes
    && m' == m.(scopes := m'.scopes, total := m'.total, items := m'.items, count := m'.count)
    && m'.scopes[EVENTS].lastSeq == m.scopes[EVENTS].lastSeq
    && (forall e :: e in m'.scopes[EVENTS].items ==> e in m.scopes[EVENTS].items)
  }

  lemma {:induction false} WriteMutates(m: Mem, n: string, w: Write, now: int, minted: Uuid)
    requires StoreOk(m) && Admitted(m, n, w) && Fresh(ScopeAt(m, n), minted) && n != EVENTS
    ensures var d := TryWrite(m, n, w, now, minted);
      && StoreOk(d.mem) && OnlyScope(m, d.mem, n) && Mutates(m, d.mem) && (!d.changed ==> d.mem == m)
  {
    TryWriteKeeps(m, n, w, now, minted);
    TryWriteLeaves(m, n, w, now, minted);
    assert EVENTS in m.scopes;
    hide StoreOk, TryWrite, Admitted, Fresh;
  }

  lemma {:induction false} RemoveMutates(m: Mem, n: string, r: Removal)
    requires StoreOk(m)
    ensures var d := TryRemove(m, n, r);
      && StoreOk(d.mem) && OnlyScope(m, d.mem, n) && Mutates(m, d.mem) && d.error.None? && (!d.changed ==> d.mem == m)
  {
    TryRemoveKeeps(m, n, r);
    assert EVENTS in m.scopes;
    if n in m.scopes {
      RemovalIsSound(m.scopes[n], r);
    }
    hide StoreOk, Remove, WellFormed, SizeSum;
  }

  lemma {:induction false} DropMutates(m: Mem, n: string)
    requires StoreOk(m) && n in m.scopes && !IsReserved(n)
    ensures var m' := Dropped(m, n);
      && StoreOk(m') && Mutates(m, m') && n !in m'.scopes
      && forall k :: k != n ==> (k in m'.scopes <==> k in m.scopes) && (k in m.scopes ==> m'.scopes[k] == m.scopes[k])
  {
    DroppedKeeps(m, n);
    hide StoreOk, SizeSum;
    EventsExist(m);
  }

  /** The validators give every write what the per-item caps need. */
  lemma {:induction false} ValidatedIsAdmitted(m: Mem, c: Command, t: Tick)
    requires m.cfg.Sane() && FromClientCommand(c)
    ensures c.Append? ==> var v := ValidateWriteItem(m.codec, c.item, ToAppend, m.cfg.MaxItemBytesFor(c.item.scope));
      v.Ok? ==> c.item.scope != EVENTS && Admitted(m, c.item.scope, ScopeSpec.Append(v.value))
    ensures c.Upsert? ==> var v := ValidateUpsertItem(m.codec, c.item, m.cfg.maxItemBytes);
      v.Ok? ==> c.item.scope != EVENTS && Admitted(m, c.item.scope, ScopeSpec.Upsert(v.value))
    ensures c.Update? ==> var v := ValidateUpdateItem(m.codec, c.item, m.cfg.maxItemBytes);
      v.Ok? ==> c.item.scope != EVENTS && Admitted(m, c.item.scope, UpdateOf(v.value))
    ensures c.CounterAdd? && CounterAddOk(m.codec, c.scope, c.id, c.add, m.cfg.MaxItemBytesFor(c.scope))
      ==> c.scope != EVENTS && Admitted(m, c.scope, ScopeSpec.CounterAdd(c.scope, c.id, c.add))
  {
    hide PrecomputeRender;
  }

  predicate FromClientCommand(c: Command) {
    c.Append? || c.Upsert? || c.Update? ==> FromClient(c.item)
  }

  predicate IsWrite(c: Command) {
    c.Append? || c.Upsert? || c.Update? || c.CounterAdd?
  }

  lemma {:induction false} WriteCommandKeeps(m: Mem, c: Command, t: Tick)
    requires StoreOk(m) && FreshTick(m, t) && FromClientCommand(c)
    requires IsWrite(c)
    ensures var d, n := Mutation(m, c, t), Target(c);
      && StoreOk(d.mem) && Mutates(m, d.mem)
      && (d.error.Some? ==> !d.changed) && (!d.changed ==> d.mem == m)
      && forall k :: k != n ==>
         (k in d.mem.scopes <==> k in m.scopes) && (k in m.scopes ==> d.mem.scopes[k] == m.scopes[k])
  {
    ValidatedIsAdmitted(m, c, t);
    var n := Target(c);
    FreshTarget(m, n, t);
    EventsExist(m);
    hide StoreOk, TryWrite, TryRemove, Dropped, Admitted, ValidateWriteItem, ValidateUpsertItem, ValidateUpdateItem,
      CounterAddOk, DeleteOk, DeleteUpToOk, Fresh, FreshTick;
    match c
    case Append(item) =>
      var v := ValidateWriteItem(m.codec, item, ToAppend, m.cfg.MaxItemBytesFor(item.scope));
      if v.Ok? { WriteMutates(m, n, ScopeSpec.Append(v.value), t.now, t.minted); }
    case Upsert(item) =>
      var v := ValidateUpsertItem(m.codec, item, m.cfg.maxItemBytes);
      if v.Ok? { WriteMutates(m, n, ScopeSpec.Upsert(v.value), t.now, t.minted); }
    case Update(item) =>
      var v := ValidateUpdateItem(m.codec, item, m.cfg.maxItemBytes);
      if v.Ok? { WriteMutates(m, n, UpdateOf(v.value), t.now, t.minted); }
    case CounterAdd(scope, id, add) =>
      if CounterAddOk(m.codec, scope, id, add, m.cfg.MaxItemBytesFor(scope)) {
        WriteMutates(m, n, ScopeSpec.CounterAdd(scope, id, add), t.now, t.minted);
      }
  }

  lemma {:induction false} DeleteScopeKeeps(m: Mem, c: Command, t: Tick)
    requires StoreOk(m) && FreshTick(m, t) && FromClientCommand(c)
    requires c.DeleteScope?
    ensures var d, n := Mutation(m, c, t), Target(c);
      && StoreOk(d.mem) && Mutates(m, d.mem)
      && (d.error.Some? ==> !d.changed) && (!d.changed ==> d.mem == m)
      && forall k :: k != n ==>
         (k in d.mem.scopes <==> k in m.scopes) && (k in m.scopes ==> d.mem.scopes[k] == m.scopes[k])
  {
    hide StoreOk, Dropped, Fresh, FreshTick;
    EventsExist(m);
    if DeleteScopeOk(m.codec, c.scope) && c.scope in m.scopes {
      DropMutates(m, c.scope);
    }
  }

  lemma {:induction false} RemovalCommandKeeps(m: Mem, c: Command, t: Tick)
    requires StoreOk(m) && FreshTick(m, t) && FromClientCommand(c)
    requires !IsWrite(c)
    ensures var d, n := Mutation(m, c, t), Target(c);
      && StoreOk(d.mem) && Mutates(m, d.mem)
      && (d.error.Some? ==> !d.changed) && (!d.changed ==> d.mem == m)
      && forall k :: k != n ==>
         (k in d.mem.scopes <==> k in m.scopes) && (k in m.scopes ==> d.mem.scopes[k] == m.scopes[k])
  {
    hide StoreOk, TryRemove, Fresh, FreshTick, DeleteOk, DeleteUpToOk;
    EventsExist(m);
    match c
    case Delete(scope, id, seqNo, uuid) => RemoveMutates(m, scope, RemovalOf(id, seqNo, uuid));
    case DeleteUpTo(scope, maxSeq, uuid) => RemoveMutates(m, scope, PrefixOf(maxSeq, uuid));
    case DeleteScope(_) => DeleteScopeKeeps(m, c, t);
  }

  lemma {:induction false} MutationKeeps(m: Mem, c: Command, t: Tick)
    requires StoreOk(m) && FreshTick(m, t) && FromClientCommand(c)
    ensures var d, n := Mutation(m, c, t), Target(c);
      && StoreOk(d.mem) && Mutates(m, d.mem)
      && (d.error.Some? ==> !d.changed) && (!d.changed ==> d.mem == m)
      && forall k :: k != n ==>
         (k in d.mem.scopes <==> k in m.scopes) && (k in m.scopes ==> d.mem.scopes[k] == m.scopes[k])
  {
    hide *;
    if IsWrite(c) {
      WriteCommandKeeps(m, c, t);
    } else {
      RemovalCommandKeeps(m, c, t);
    }
  }

  lemma FreshTarget(m: Mem, n: string, t: Tick)
    requires StoreOk(m) && FreshTick(m, t)
    ensures m.cfg.Sane() && Fresh(ScopeAt(m, n), t.minted)
  {
  }

  /** Every command keeps the store invariant and the event accounts; a refused or idle command changes
      nothing at all; a command changes its target scope by its mutation alone, and its event changes
      no scope but `_events`. Exactly the commands that changed another scope are accounted for. */
  lemma {:induction false} ExecKeeps(m: Mem, c: Command, t: Tick)
    requires StoreOk(m) && Conserved(m) && FreshTick(m, t) && FromClientCommand(c)
    ensures var d, e := Mutation(m, c, t), Exec(m, c, t);
      && StoreOk(e.mem) && Conserved(e.mem)
      && (e.error.Some? ==> !e.changed) && (!e.changed ==> e.mem == m)
      && (forall n :: n != EVENTS ==>
           (n in e.mem.scopes <==> n in d.mem.scopes) && (n in d.mem.scopes ==> e.mem.scopes[n] == d.mem.scopes[n]))
      && (forall n :: n != EVENTS && n != Target(c) ==>
           (n in e.mem.scopes <==> n in m.scopes) && (n in m.scopes ==> e.mem.scopes[n] == m.scopes[n]))
      && e.mem.commits == m.commits + (if e.changed && Target(c) != EVENTS then 1 else 0)
  {
    MutationKeeps(m, c, t);
    var d := Mutation(m, c, t);
    if d.changed {
      EventTarget(m, c, t);
      assert Conserved(d.mem) by { MutatesConserves(m, d.mem); }
      assert Fresh(d.mem.scopes[EVENTS], t.eventUuid) by { FreshAfter(m, d.mem, t); }
      hide StoreOk, Conserved, Mutation, Emit, Fresh, FreshTick;
      EmitKeeps(d.mem, EventFor(c, d.item, t), t);
    }
  }

  lemma MutatesConserves(m: Mem, m': Mem)
    requires Conserved(m) && Mutates(m, m')
    ensures Conserved(m')
  {
  }

  lemma FreshAfter(m: Mem, m': Mem, t: Tick)
    requires FreshTick(m, t) && Mutates(m, m')
    ensures Fresh(m'.scopes[EVENTS], t.eventUuid)
  {
    forall i | 0 <= i < |m'.scopes[EVENTS].items| ensures m'.scopes[EVENTS].items[i].uuid != Some(t.eventUuid) {
      assert m'.scopes[EVENTS].items[i] in m'.scopes[EVENTS].items;
    }
  }

  lemma {:induction false} WrittenItem(m: Mem, c: Command, t: Tick)
    requires StoreOk(m) && FreshTick(m, t) && FromClientCommand(c) && Mutation(m, c, t).changed
      && (c.Append? || c.Upsert?)
    ensures var d := Mutation(m, c, t); d.item.Some? && d.item.value.scope == Target(c)
  {
    var n := Target(c);
    ValidatedIsAdmitted(m, c, t);
    FreshTarget(m, n, t);
    var w := if c.Append?
      then ScopeSpec.Append(ValidateWriteItem(m.codec, c.item, ToAppend, m.cfg.MaxItemBytesFor(n)).value)
             else ScopeSpec.Upsert(ValidateUpsertItem(m.codec, c.item, m.cfg.maxItemBytes).value);
    WrittenScope(m, n, w, t.now, t.minted);
  }

  /** The announced scope is the scope that changed. */
  lemma {:induction false} EventTarget(m: Mem, c: Command, t: Tick)
    requires StoreOk(m) && FreshTick(m, t) && FromClientCommand(c) && Mutation(m, c, t).changed
    ensures EventFor(c, Mutation(m, c, t).item, t).scope == Target(c)
  {
    if c.Append? || c.Upsert? {
      WrittenItem(m, c, t);
    }
  }

  lemma {:induction false} WrittenScope(m: Mem, n: string, w: Write, now: int, minted: Uuid)
    requires StoreOk(m) && Admitted(m, n, w) && Fresh(ScopeAt(m, n), minted) && TryWrite(m, n, w, now, minted).changed
    ensures var d := TryWrite(m, n, w, now, minted); d.item.Some? && d.item.value.scope == n
  {
    ReadyWriteKeeps(m, n, w, now, minted);
    hide PlanOf, SizeSum, WellFormed, EnvFor, Fresh, ScopeAt, StoreOk, Admitted, TryWrite;
    var p := PlanOf(ScopeAt(m, n), w, EnvFor(m, n, now, minted));
    AllBelong(Exchanged(m, n, p.after), n);
    assert p.after.items[p.at] in p.after.items;
  }

  lemma AllBelong(m: Mem, n: string)
    requires StoreOk(m) && n in m.scopes
    ensures forall e :: e in m.scopes[n].items ==> e.scope == n
  {
  }
}
