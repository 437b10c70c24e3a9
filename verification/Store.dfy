/** The store as the program runs it: scopes are created before an item is written and rolled back when
    the write fails, events recurse into the append path, batches are loops over scopes. Every method is
    proved against what StoreSpec and BulkSpec say of the whole store. */
module Stores {
  import opened Types
  import opened Uuids
  import opened ScopeSpec
  import opened Budgets
  import opened Validation
  import opened StoreSpec
  import opened StoreLaws
  import opened BulkSpec

  class Store {
    const cfg: Config
    const codec: Codec
    const marshal: WriteEvent -> Bytes
    const budget: Budget
    var scopes: map<string, Scope>
    var scopeCount: int
    var drops: nat
    ghost var log: seq<WriteEvent>
    ghost var commits: nat
    ghost var dropsBefore: nat

    ghost function Mem(): Mem
      reads this, budget
    {
      StoreSpec.Mem(cfg, codec, marshal, scopes, budget.totalBytes, budget.totalItems, scopeCount, drops, log,
        commits, dropsBefore)
    }

    /** The budget enforces the configured cap, and the store invariants hold. */
    ghost predicate Valid()
      reads this, budget
    {
      budget.maxBytes == cfg.maxStoreBytes && StoreOk(Mem()) && Conserved(Mem())
    }

    constructor (c: Config, codec: Codec, marshal: WriteEvent -> Bytes)
      ensures Valid() && Mem() == Boot(c.WithDefaults(), codec, marshal)
      ensures fresh(budget)
    {
      var sane := c.WithDefaults();
      cfg, this.codec, this.marshal := sane, codec, marshal;
      budget := new Budget(sane.maxStoreBytes);
      scopes, scopeCount, drops := map[], 0, 0;
      log, commits, dropsBefore := [], 0, 0;
      new;
      hide StoreOk, Conserved, WithReserved;
      ReservedAreAdded(Mem());
      InitReservedScopes();
      assert map[] + RESERVED_SCOPES == RESERVED_SCOPES;
      BootIsOk(sane, codec, marshal);
    }

    /** Creates the reserved scopes that are missing; those that exist are left alone. */
    method InitReservedScopes()
      modifies this, budget
      ensures Mem() == WithReserved(old(Mem()))
    {
      hide Ensured;
      EnsureScope(EVENTS);
      EnsureScope(INBOX);
    }

    method EnsureScope(name: string)
      modifies this, budget
      ensures Mem() == Ensured(old(Mem()), name)
    {
      if name in scopes {
        ExchangeNothing(Mem(), name);
      } else {
        scopes := scopes[name := EMPTY_SCOPE];
        budget.totalBytes := budget.totalBytes + SCOPE_OVERHEAD;
        scopeCount := scopeCount + 1;
      }
    }

    // ---------- Writing to a scope created on demand ----------

    method GetOrCreateScope(name: string) returns (error: Option<WriteError>, created: bool)
      requires budget.maxBytes == cfg.maxStoreBytes
      modifies this, budget
      ensures error.None? ==>
        Mem() == Exchanged(old(Mem()), name, ScopeAt(old(Mem()), name)) && created == (name !in old(scopes))
      ensures error.Some? ==> Mem() == old(Mem()) && name !in scopes
      ensures error == if CanReserve(old(budget.totalBytes), cfg.maxStoreBytes, CreationFee(old(Mem()), name)) then None
                       else Some(StoreFull(budget.totalBytes, SCOPE_OVERHEAD, cfg.maxStoreBytes))
    {
      if name in scopes {
        ExchangeNothing(Mem(), name);
        return None, false;
      }
      var ok, current := budget.ReserveBytes(SCOPE_OVERHEAD);
      if !ok {
        return Some(StoreFull(current, SCOPE_OVERHEAD, budget.maxBytes)), false;
      }
      scopes := scopes[name := EMPTY_SCOPE];
      scopeCount := scopeCount + 1;
      return None, true;
    }

    /** Takes back a scope that was created for a write that failed. */
    method CleanupIfEmptyAndUnused(name: string)
      modifies this, budget
      ensures Mem() == if name in old(scopes) && old(scopes)[name].items == [] then Dropped(old(Mem()), name)
        else old(Mem())
    {
      if name !in scopes || |scopes[name].items| != 0 {
        return;
      }
      scopes := scopes - {name};
      budget.totalBytes := budget.totalBytes - SCOPE_OVERHEAD;
      scopeCount := scopeCount - 1;
    }

    /** The write inside the scope: planned, reserved, committed. */
    method WriteToScope(name: string, w: Write, now: int, minted: Uuid)
      returns (error: Option<WriteError>, changed: bool, item: Option<Entry>, created: bool)
      requires budget.maxBytes == cfg.maxStoreBytes && StoreOk(Mem())
      requires name in scopes && Admitted(Mem(), name, w) && Fresh(scopes[name], minted)
      modifies this, budget
      ensures var d := TryWrite(old(Mem()), name, w, now, minted);
        Mem() == d.mem && error == d.error && changed == d.changed && item == d.item && created == d.created
    {
      hide PlanOf, Admitted, Fresh, SizeSum, StoreOk;
      var env := Env(codec, true, cfg.MaxItemsFor(name), cfg.MaxItemBytesFor(name), now, minted);
      var before := scopes[name];
      ghost var m := Mem();
      match PlanOf(before, w, env)
      case Miss => return None, false, None, false;
      case Refused(e) => return Some(e), false, None, false;
      case Ready(delta, after, at, isNew) =>
        DeltaIsExact(m, name, w, now, minted);
        var ok, current := budget.ReserveBytes(delta);
        if !ok {
          return Some(StoreFull(current, delta, budget.maxBytes)), false, None, false;
        }
        scopes := scopes[name := after];
        budget.totalItems := budget.totalItems + |after.items| - |before.items|;
        return None, true, if at < |after.items| then Some(after.items[at]) else None, isNew;
    }

    /** Create the scope if need be, write, and take the scope back if the write failed: from outside,
        either the scope and the item appear together or nothing happens. */
    method WriteCreating(name: string, w: Write, now: int, minted: Uuid)
      returns (error: Option<WriteError>, changed: bool, item: Option<Entry>, created: bool)
      requires Valid() && Admitted(Mem(), name, w) && Fresh(ScopeAt(Mem(), name), minted) && !AddressesOnly(w)
      modifies this, budget
      ensures var d := TryWrite(old(Mem()), name, w, now, minted);
        Mem() == d.mem && error == d.error && changed == d.changed && item == d.item && created == d.created
    {
      hide PlanOf, Admitted, Fresh, SizeSum, StoreOk, TryWrite, Exchanged, Dropped, Conserved;
      ghost var m := Mem();
      var scopeCreated;
      error, scopeCreated := GetOrCreateScope(name);
      if error.Some? {
        NoRoomForScope(m, name, w, now, minted);
        return error, false, None, false;
      }
      CreatedIsOk(m, name, w, minted);
      CreateThenWrite(m, name, w, now, minted);
      error, changed, item, created := WriteToScope(name, w, now, minted);
      if error.Some? && scopeCreated {
        CleanupIfEmptyAndUnused(name);
      }
    }

    // ---------- Events ----------

    predicate EventsEnabled(scope: string)
      reads this
    {
      cfg.events != Off && scope != EVENTS
    }

    /** Appends the event to `_events`, or counts it as dropped. */
    method EmitEvent(ev: WriteEvent, t: Tick)
      requires Valid() && EventsEnabled(ev.scope) && Fresh(scopes[EVENTS], t.eventUuid)
      modifies this, budget
      ensures Mem() == Emit(old(Mem()), ev, t)
      decreases 1, 0
    {
      hide StoreOk, Conserved, TryWrite, Fresh;
      ghost var m := Mem();
      CountingCommits(m, EVENTS, ScopeSpec.Append(EventItem(m, ev)), t.eventNow, t.eventUuid);
      var rec := if cfg.events == Notify then ev.(payload := []) else ev;
      var item := Entry(EVENTS, "", 0, 0, None, marshal(rec), None, None);
      EventsExist(m);
      AppendedIsStored(m, item, Tick(t.eventNow, t.eventUuid, t.eventNow, t.eventUuid));
      TryWriteLeaves(m, EVENTS, ScopeSpec.Append(item), t.eventNow, t.eventUuid);
      var error, stored := AppendOneTrusted(item, Tick(t.eventNow, t.eventUuid, t.eventNow, t.eventUuid));
      commits := commits + 1;
      if error.Some? {
        drops := drops + 1;
      } else {
        log := log + [rec];
      }
    }

    /** After a mutation: its event, unless the mode or the recursion guard says no. */
    method Announce(ev: WriteEvent, t: Tick)
      requires ev.scope != EVENTS ==> Valid() && Fresh(scopes[EVENTS], t.eventUuid)
      modifies this, budget
      ensures Mem() == Emit(old(Mem()), ev, t)
      decreases if ev.scope == EVENTS then 0 else 1, 1
    {
      hide StoreOk, Conserved, TryWrite, Fresh;
      if EventsEnabled(ev.scope) {
        EmitEvent(ev, t);
      } else if ev.scope != EVENTS {
        commits := commits + 1;
      }
    }

    /** The append path below the validator: external appends and events both end here. An event is not
        announced, so the recursion is one level deep. */
    method AppendOneTrusted(item: Entry, t: Tick) returns (error: Option<WriteError>, stored: Option<Entry>)
      requires Valid() && item.uuid.None?
      requires Fresh(ScopeAt(Mem(), item.scope), t.minted) && Fresh(scopes[EVENTS], t.eventUuid)
      modifies this, budget
      ensures var d := AppendTrusted(old(Mem()), item, t); Mem() == d.mem && error == d.error && stored == d.item
      decreases if item.scope == EVENTS then 0 else 1, 2
    {
      hide StoreOk, Conserved, TryWrite, Fresh, Emit;
      var w := ScopeSpec.Append(item);
      ghost var m := Mem();
      var changed, created;
      error, changed, stored, created := WriteCreating(item.scope, w, t.now, t.minted);
      AppendedIsStored(m, item, t);
      if changed {
        Announce(ItemEvent(OpAppend, stored.value), t);
      }
    }

    // ---------- The public operations ----------

    method AppendOne(item: Entry, t: Tick) returns (error: Option<WriteError>, stored: Option<Entry>)
      requires Valid() && FreshTick(Mem(), t) && FromClient(item)
      modifies this, budget
      ensures Valid()
      ensures var d := Exec(old(Mem()), StoreSpec.Append(item), t);
        Mem() == d.mem && error == d.error && stored == d.item
    {
      hide StoreOk, Conserved, TryWrite, TryRemove, Fresh, FreshTick, Emit, Mutates, ValidateWriteItem,
        ValidateUpsertItem, ValidateUpdateItem, CounterAddOk, DeleteOk, DeleteUpToOk, DeleteScopeOk;
      ghost var m, c := Mem(), StoreSpec.Append(item);
      ExecKeeps(m, c, t);
      FreshScopes(m, item.scope, t);
      ValidatedIsAdmitted(m, c, t);
      match ValidateWriteItem(codec, item, ToAppend, cfg.MaxItemBytesFor(item.scope))
      case Err(e) => return Some(e), None;
      case Ok(it) =>
        AppendedIsStored(m, it, t);
        error, stored := AppendOneTrusted(it, t);
    }

    method UpsertOne(item: Entry, t: Tick)
      returns (error: Option<WriteError>, stored: Option<Entry>, created: bool)
      requires Valid() && FreshTick(Mem(), t) && FromClient(item)
      modifies this, budget
      ensures Valid()
      ensures var d := Exec(old(Mem()), StoreSpec.Upsert(item), t);
        Mem() == d.mem && error == d.error && stored == d.item && created == d.created
    {
      hide StoreOk, Conserved, TryWrite, TryRemove, Fresh, FreshTick, Emit, Mutates, ValidateWriteItem,
        ValidateUpsertItem, ValidateUpdateItem, CounterAddOk, DeleteOk, DeleteUpToOk, DeleteScopeOk, Admitted;
      ghost var m, c := Mem(), StoreSpec.Upsert(item);
      ExecKeeps(m, c, t);
      FreshScopes(m, item.scope, t);
      ValidatedIsAdmitted(m, c, t);
      match ValidateUpsertItem(codec, item, cfg.maxItemBytes)
      case Err(e) => return Some(e), None, false;
      case Ok(it) =>
        ReadyForEvent(m, c, t);
        var changed;
        error, changed, stored, created := WriteCreating(item.scope, ScopeSpec.Upsert(it), t.now, t.minted);
        if changed {
          Announce(ItemEvent(OpUpsert, stored.value), t);
        }
    }

    method CounterAddOne(scope: string, id: string, add: int, t: Tick)
      returns (error: Option<WriteError>, stored: Option<Entry>, created: bool)
      requires Valid() && FreshTick(Mem(), t)
      modifies this, budget
      ensures Valid()
      ensures var d := Exec(old(Mem()), StoreSpec.CounterAdd(scope, id, add), t);
        Mem() == d.mem && error == d.error && stored == d.item && created == d.created
    {
      hide StoreOk, Conserved, TryWrite, TryRemove, Fresh, FreshTick, Emit, Mutates, ValidateWriteItem,
        ValidateUpsertItem, ValidateUpdateItem, CounterAddOk, DeleteOk, DeleteUpToOk, DeleteScopeOk, Admitted;
      ghost var m, c := Mem(), StoreSpec.CounterAdd(scope, id, add);
      ExecKeeps(m, c, t);
      FreshScopes(m, scope, t);
      ValidatedIsAdmitted(m, c, t);
      if !CounterAddOk(codec, scope, id, add, cfg.MaxItemBytesFor(scope)) {
        return Some(InvalidInput), None, false;
      }
      ReadyForEvent(m, c, t);
      var changed;
      error, changed, stored, created := WriteCreating(scope, ScopeSpec.CounterAdd(scope, id, add), t.now, t.minted);
      if changed {
        Announce(NO_EVENT.(op := OpCounterAdd, scope := scope, id := id, add := add), t);
      }
    }

    /** Updates never create: a missing scope or address is a miss, and a miss is not announced. */
    method UpdateOne(item: Entry, t: Tick) returns (error: Option<WriteError>, updated: nat)
      requires Valid() && FreshTick(Mem(), t) && FromClient(item)
      modifies this, budget
      ensures Valid()
      ensures var d := Exec(old(Mem()), StoreSpec.Update(item), t);
        Mem() == d.mem && error == d.error && updated == d.hits
    {
      hide StoreOk, Conserved, TryWrite, TryRemove, Fresh, FreshTick, Emit, Mutates, ValidateWriteItem,
        ValidateUpsertItem, ValidateUpdateItem, CounterAddOk, DeleteOk, DeleteUpToOk, DeleteScopeOk, Admitted;
      ghost var m, c := Mem(), StoreSpec.Update(item);
      ExecKeeps(m, c, t);
      FreshScopes(m, item.scope, t);
      ValidatedIsAdmitted(m, c, t);
      match ValidateUpdateItem(codec, item, cfg.maxItemBytes)
      case Err(e) => return Some(e), 0;
      case Ok(it) =>
        if item.scope !in scopes {
          return None, 0;
        }
        ReadyForEvent(m, c, t);
        var changed, touched, created;
        error, changed, touched, created := WriteToScope(item.scope, UpdateOf(it), t.now, t.minted);
        HitsAre(m, item.scope, UpdateOf(it), t);
        updated := if changed then 1 else 0;
        if changed {
          Announce(UpdateEvent(item), t);
        }
    }

    method RemoveFromScope(scope: string, r: Removal) returns (removed: nat)
      requires StoreOk(Mem()) && scope in scopes
      modifies this, budget
      ensures var d := TryRemove(old(Mem()), scope, r);
        Mem() == d.mem && removed == d.hits && d.changed == (removed > 0) && d.error.None?
    {
      hide Remove, StoreOk, SizeSum;
      var before, after := scopes[scope], Remove(scopes[scope], r);
      ShorterAfter(Mem(), scope, r);
      scopes := scopes[scope := after];
      budget.totalBytes := budget.totalBytes - (SizeSum(before.items) - SizeSum(after.items));
      budget.totalItems := budget.totalItems - (|before.items| - |after.items|);
      removed := |before.items| - |after.items|;
    }

    method DeleteOne(scope: string, id: string, seqNo: nat, text: Bytes, t: Tick)
      returns (error: Option<WriteError>, deleted: nat)
      requires Valid() && FreshTick(Mem(), t)
      modifies this, budget
      ensures Valid()
      ensures text != [] && Parse(text).None? ==> Mem() == old(Mem()) && error == Some(InvalidInput) && deleted == 0
      ensures text == [] || Parse(text).Some? ==>
        var d := Exec(old(Mem()), StoreSpec.Delete(scope, id, seqNo, UuidIn(text)), t);
        Mem() == d.mem && error == d.error && deleted == d.hits
    {
      hide StoreOk, Conserved, TryWrite, TryRemove, Fresh, FreshTick, Emit, Mutates, ValidateWriteItem,
        ValidateUpsertItem, ValidateUpdateItem, CounterAddOk, DeleteOk, DeleteUpToOk, DeleteScopeOk, Admitted;
      var uuid: Option<Uuid> := None;
      if text != [] {
        uuid := ParseUuidV7(text);
        if uuid.None? {
          return Some(InvalidInput), 0;
        }
      }
      ghost var m, c := Mem(), StoreSpec.Delete(scope, id, seqNo, uuid);
      ExecKeeps(m, c, t);
      if !DeleteOk(codec, scope, id, seqNo, uuid) {
        return Some(InvalidInput), 0;
      }
      if scope !in scopes {
        NothingToRemove(m, scope, RemovalOf(id, seqNo, uuid));
        return None, 0;
      }
      ReadyForEvent(m, c, t);
      deleted := RemoveFromScope(scope, RemovalOf(id, seqNo, uuid));
      if deleted > 0 {
        Announce(NO_EVENT.(op := OpDelete, scope := scope, id := id, seqNo := seqNo, uuid := uuid), t);
      }
      return None, deleted;
    }

    method DeleteUpTo(scope: string, maxSeq: nat, text: Bytes, t: Tick)
      returns (error: Option<WriteError>, deleted: nat)
      requires Valid() && FreshTick(Mem(), t)
      modifies this, budget
      ensures Valid()
      ensures text != [] && Parse(text).None? ==> Mem() == old(Mem()) && error == Some(InvalidInput) && deleted == 0
      ensures text == [] || Parse(text).Some? ==>
        var d := Exec(old(Mem()), StoreSpec.DeleteUpTo(scope, maxSeq, UuidIn(text)), t);
        Mem() == d.mem && error == d.error && deleted == d.hits
    {
      hide StoreOk, Conserved, TryWrite, TryRemove, Fresh, FreshTick, Emit, Mutates, ValidateWriteItem,
        ValidateUpsertItem, ValidateUpdateItem, CounterAddOk, DeleteOk, DeleteUpToOk, DeleteScopeOk, Admitted;
      var uuid: Option<Uuid> := None;
      if text != [] {
        uuid := ParseUuidV7(text);
        if uuid.None? {
          return Some(InvalidInput), 0;
        }
      }
      ghost var m, c := Mem(), StoreSpec.DeleteUpTo(scope, maxSeq, uuid);
      ExecKeeps(m, c, t);
      if !DeleteUpToOk(codec, scope, maxSeq, uuid) {
        return Some(InvalidInput), 0;
      }
      if scope !in scopes {
        NothingToRemove(m, scope, PrefixOf(maxSeq, uuid));
        return None, 0;
      }
      ReadyForEvent(m, c, t);
      deleted := RemoveFromScope(scope, PrefixOf(maxSeq, uuid));
      if deleted > 0 {
        Announce(NO_EVENT.(op := OpDeleteUpTo, scope := scope, maxSeq := maxSeq, uuid := uuid), t);
      }
      return None, deleted;
    }

    method DeleteScope(scope: string, t: Tick) returns (error: Option<WriteError>, itemCount: nat, existed: bool)
      requires Valid() && FreshTick(Mem(), t)
      modifies this, budget
      ensures Valid()
      ensures var d := Exec(old(Mem()), StoreSpec.DeleteScope(scope), t);
        Mem() == d.mem && error == d.error && itemCount == d.hits && existed == d.changed
    {
      hide StoreOk, Conserved, TryWrite, TryRemove, Fresh, FreshTick, Emit, Mutates, ValidateWriteItem,
        ValidateUpsertItem, ValidateUpdateItem, CounterAddOk, DeleteOk, DeleteUpToOk, DeleteScopeOk, Admitted;
      ghost var m, c := Mem(), StoreSpec.DeleteScope(scope);
      ExecKeeps(m, c, t);
      if !DeleteScopeOk(codec, scope) {
        return Some(InvalidInput), 0, false;
      }
      if scope !in scopes {
        return None, 0, false;
      }
      ReadyForEvent(m, c, t);
      itemCount := |scopes[scope].items|;
      var scopeBytes := SizeSum(scopes[scope].items);
      scopes := scopes - {scope};
      budget.totalBytes := budget.totalBytes - (scopeBytes + SCOPE_OVERHEAD);
      budget.totalItems := budget.totalItems - itemCount;
      scopeCount := scopeCount - 1;
      Announce(NO_EVENT.(op := OpDeleteScope, scope := scope, ts := t.now), t);
      return None, itemCount, true;
    }

    // ---------- Operations on many scopes ----------

    /** Drops every scope, empties the counters and creates the reserved scopes again. */
    method Wipe() returns (scopesGone: int, itemsGone: int, bytesFreed: int)
      requires Valid()
      modifies this, budget
      ensures Valid() && Mem() == BulkSpec.Wipe(old(Mem()))
      ensures scopesGone == |old(scopes)| && itemsGone == TotalItems(old(scopes))
        && bytesFreed == TotalBytes(old(scopes))
    {
      hide Conserved, WithReserved, WellFormed, ItemsFit, TotalBytes, TotalItems;
      ghost var m := Mem();
      WipeIsBoot(m);
      scopesGone, itemsGone, bytesFreed := scopeCount, budget.totalItems, budget.totalBytes;
      budget.totalBytes, budget.totalItems, scopeCount := 0, 0, 0;
      scopes := map[];
      log, commits, dropsBefore := [], 0, drops;
      ReservedAreAdded(Mem());
      InitReservedScopes();
      assert map[] + RESERVED_SCOPES == RESERVED_SCOPES;
    }

    /** The first phase of a warm or rebuild: every scope is validated and built before anything is
        touched; scopes over their item cap are collected, any other fault ends it. */
    method BuildPlans(to: Endpoint, grouped: Batch, now: int, mints: map<string, seq<Uuid>>)
      returns (fault: Option<BulkError>, plans: map<string, Scope>)
      requires Matched(grouped, mints)
      ensures fault == Verdict(Mem(), to, grouped, now, mints)
      ensures fault.None? ==> plans == BuiltScopes(Mem(), grouped, now, mints)
    {
      hide Built, Buildable, RequestOk;
      var offenders: set<string> := {};
      var todo := grouped.Keys;
      plans := map[];
      while todo != {}
        invariant todo <= grouped.Keys
        invariant forall n :: n in grouped && n !in todo ==> !Faulty(Mem(), to, n, grouped[n], now, mints[n])
        invariant forall n :: n in offenders <==> n in grouped && n !in todo && |grouped[n]| > cfg.scopeMaxItems
        invariant forall n :: n in plans <==> n in grouped && n !in todo && n !in offenders
        invariant forall n :: n in plans ==> plans[n] == Built(codec, grouped[n], now, mints[n])
        decreases |todo|
      {
        var n :| n in todo;
        todo := todo - {n};
        if !RequestOk(codec, cfg, to, n, grouped[n]) {
          return Some(BulkInvalid), map[];
        }
        if |grouped[n]| > cfg.scopeMaxItems {
          offenders := offenders + {n};
        } else {
          if !Buildable(codec, grouped[n], now, mints[n]) {
            return Some(BulkInvalid), map[];
          }
          plans := plans[n := Built(codec, grouped[n], now, mints[n])];
        }
      }
      assert offenders == Offenders(Mem(), grouped) by { SameOffenders(Mem(), grouped, offenders); }
      fault := if offenders != {} then Some(BulkCapacity(offenders)) else None;
    }

    /** The bytes a batch will change the store by, and what each of its scopes holds now. */
    method SnapshotPlans(plans: map<string, Scope>) returns (totalDelta: int, oldBytes: map<string, int>)
      ensures totalDelta == TotalBytes(scopes + plans) - TotalBytes(scopes)
      ensures oldBytes.Keys == plans.Keys && forall n :: n in plans ==> oldBytes[n] == BytesIn(scopes, n)
    {
      hide TotalBytes, TotalItems, SizeSum;
      var todo := plans.Keys;
      totalDelta, oldBytes := 0, map[];
      NothingTakenYet(scopes, plans);
      EmptyCosts();
      while todo != {}
        invariant todo <= plans.Keys
        invariant totalDelta == TotalBytes(scopes + Taken(plans, todo)) - TotalBytes(scopes)
        invariant oldBytes.Keys == plans.Keys - todo
        invariant forall n :: n in oldBytes ==> oldBytes[n] == BytesIn(scopes, n)
        decreases |todo|
      {
        var n :| n in todo;
        TakeOne(scopes, plans, todo, n);
        todo := todo - {n};
        var was := 0;
        if n in scopes {
          was := SizeSum(scopes[n].items);
        } else {
          totalDelta := totalDelta + SCOPE_OVERHEAD;
        }
        oldBytes := oldBytes[n := was];
        totalDelta := totalDelta + SizeSum(plans[n].items) - was;
      }
      AllTaken(plans);
    }

    /** Exchanges a scope whose byte change is already reserved; only what it gained or lost since the
        snapshot is settled here. */
    method CommitReplacementPreReserved(n: string, built: Scope, oldSnapshot: int) returns (isNew: bool)
      modifies this, budget
      ensures Mem() == Replaced(old(Mem()), n, built, oldSnapshot) && isNew == (n !in old(scopes))
    {
      isNew := n !in scopes;
      var before := if isNew then EMPTY_SCOPE else scopes[n];
      EmptyCosts();
      var drift := SizeSum(before.items) - oldSnapshot;
      if drift != 0 {
        budget.totalBytes := budget.totalBytes - drift;
      }
      budget.totalItems := budget.totalItems + |built.items| - |before.items|;
      scopes := scopes[n := built];
    }

    /** The last phase of a warm request, which cannot fail: the bytes are already reserved. */
    method CommitPlans(plans: map<string, Scope>, oldBytes: map<string, int>)
      requires oldBytes.Keys == plans.Keys && forall n :: n in plans ==> oldBytes[n] == BytesIn(scopes, n)
      requires budget.totalItems == TotalItems(scopes) && scopeCount == |scopes|
      modifies this, budget
      ensures var all := old(scopes) + plans;
        Mem() == old(Mem()).(scopes := all, items := TotalItems(all), count := |all|)
    {
      hide TotalBytes, TotalItems, BytesIn, Taken, Replaced, Advanced;
      ghost var m := Mem();
      var todo := plans.Keys;
      var newScopes := 0;
      NothingAdvanced(m, plans);
      while todo != {}
        invariant todo <= plans.Keys
        invariant Mem() == Advanced(m, plans, todo)
        invariant newScopes == |Advanced(m, plans, todo).scopes| - |m.scopes|
        decreases |todo|
      {
        var n :| n in todo;
        AdvanceOne(m, plans, todo, n);
        todo := todo - {n};
        var isNew := CommitReplacementPreReserved(n, plans[n], oldBytes[n]);
        newScopes := newScopes + if isNew then 1 else 0;
      }
      AllAdvanced(m, plans);
      scopeCount := scopeCount + newScopes;
    }

    /** The middle and last phase of a warm request: the whole batch is reserved at once, then every
        scope is exchanged, or none is. */
    method ReserveAndCommit(plans: map<string, Scope>) returns (ok: bool, totalDelta: int)
      requires budget.maxBytes == cfg.maxStoreBytes && StoreOk(Mem())
      modifies this, budget
      ensures totalDelta == TotalBytes(old(scopes) + plans) - TotalBytes(old(scopes))
      ensures ok == CanReserve(old(budget.totalBytes), cfg.maxStoreBytes, totalDelta)
      ensures Mem() == if ok then WithScopes(old(Mem()), old(scopes) + plans) else old(Mem())
    {
      hide StoreOk, TotalBytes, TotalItems, BytesIn, Footprint, WithScopes, CanReserve;
      AllCommitted(Mem(), plans);
      CountersAreExact(Mem());
      var oldBytes;
      totalDelta, oldBytes := SnapshotPlans(plans);
      var current;
      ok, current := budget.ReserveBytes(totalDelta);
      if ok {
        CommitPlans(plans, oldBytes);
      }
    }

    /** The second half of a warm request. */
    method ApplyPlans(plans: map<string, Scope>, t: Tick) returns (error: Option<BulkError>)
      requires Valid() && FreshTick(Mem(), t)
      requires forall n :: n in plans ==> !IsReserved(n) && WellFormed(plans[n]) && ItemsFit(cfg, n, plans[n])
      modifies this, budget
      ensures var d := LaidOver(old(Mem()), plans, t); Mem() == d.mem && error == d.error
    {
      hide StoreOk, Conserved, TotalBytes, Fresh, FreshTick, Emit, WellFormed, ItemsFit, IsReserved, WithScopes,
        LaidOver, CanReserve;
      ghost var m := Mem();
      LaidOverCases(m, plans, t);
      var ok, totalDelta := ReserveAndCommit(plans);
      if !ok {
        return Some(BulkFull(totalDelta));
      }
      if |plans| > 0 {
        OverlayIsReady(m, plans, t);
        Announce(WarmEvent(t.now), t);
      }
      error := None;
    }

    method ReplaceScopes(grouped: Batch, now: int, mints: map<string, seq<Uuid>>, t: Tick)
      returns (r: Result<nat, BulkError>)
      requires Valid() && FreshTick(Mem(), t) && Matched(grouped, mints) && BatchFromClient(grouped)
      modifies this, budget
      ensures Valid()
      ensures var d := Warm(old(Mem()), grouped, now, mints, t);
        Mem() == d.mem && r == if d.error.Some? then Err(d.error.value) else Ok(|grouped|)
    {
      ScopeIsSane(Mem());
      hide StoreOk, Conserved, Verdict, FreshTick, LaidOver, BuiltScopes, BatchFromClient, Matched, WellFormed,
        ItemsFit, IsReserved;
      ghost var m := Mem();
      WarmKeeps(m, grouped, now, mints, t);
      var fault, plans := BuildPlans(ToWarm, grouped, now, mints);
      if fault.Some? {
        return Err(fault.value);
      }
      BuiltScopesAreOk(m, ToWarm, grouped, now, mints);
      BuiltForAll(m, grouped, now, mints);
      var error := ApplyPlans(plans, t);
      r := if error.Some? then Err(error.value) else Ok(|plans|);
    }

    /** The second half of a rebuild: the cap is checked against the new total alone, then everything
        is swapped. */
    method InstallPlans(plans: map<string, Scope>) returns (error: Option<BulkError>, totalItems: int)
      requires EVENTS !in plans && INBOX !in plans
      modifies this, budget
      ensures var d := Installed(old(Mem()), plans);
        Mem() == d.mem && error == d.error && (error.None? ==> totalItems == d.mem.items)
    {
      hide TotalBytes, TotalItems, WithReserved, Installed;
      InstalledCases(Mem(), plans);
      var totalNewBytes;
      totalItems, totalNewBytes := SumPlans(plans);
      if totalNewBytes + RESERVED_OVERHEAD > cfg.maxStoreBytes {
        return Some(BulkFull(totalNewBytes + RESERVED_OVERHEAD)), 0;
      }
      SwapIn(plans, totalItems, totalNewBytes);
      InitReservedScopes();
      error := None;
    }

    method SwapIn(plans: map<string, Scope>, totalItems: int, totalNewBytes: int)
      requires totalItems == TotalItems(plans) && totalNewBytes == TotalBytes(plans)
      modifies this, budget
      ensures Mem() == Cleared(old(Mem()), plans)
    {
      hide TotalBytes, TotalItems;
      scopes := plans;
      budget.totalBytes, budget.totalItems, scopeCount := totalNewBytes, totalItems, |plans|;
      log, commits, dropsBefore := [], 0, drops;
    }

    method RebuildAll(grouped: Batch, now: int, mints: map<string, seq<Uuid>>)
      returns (r: Result<(nat, int), BulkError>)
      requires Valid() && Matched(grouped, mints) && BatchFromClient(grouped)
      modifies this, budget
      ensures Valid()
      ensures var d := Rebuild(old(Mem()), grouped, now, mints);
        Mem() == d.mem && r == if d.error.Some? then Err(d.error.value) else Ok((|grouped|, d.mem.items))
    {
      hide StoreOk, Conserved, Verdict, Installed, BuiltScopes, BatchFromClient, Matched, WellFormed, ItemsFit,
        IsReserved;
      ghost var m := Mem();
      RebuildKeeps(m, grouped, now, mints);
      var fault, plans := BuildPlans(ToRebuild, grouped, now, mints);
      if fault.Some? {
        return Err(fault.value);
      }
      RebuiltNames(m, grouped, now, mints);
      var error, totalItems := InstallPlans(plans);
      r := if error.Some? then Err(error.value) else Ok((|plans|, totalItems));
    }

    method SumPlans(plans: map<string, Scope>) returns (totalItems: int, totalNewBytes: int)
      ensures totalItems == TotalItems(plans) && totalNewBytes == TotalBytes(plans)
    {
      hide SizeSum, TotalBytes, TotalItems;
      totalItems, totalNewBytes := 0, 0;
      var todo := plans.Keys;
      NothingTakenYet(map[], plans);
      NoScopesNoSum();
      while todo != {}
        invariant todo <= plans.Keys
        invariant totalItems == TotalItems(map[] + Taken(plans, todo))
        invariant totalNewBytes == TotalBytes(map[] + Taken(plans, todo))
        decreases |todo|
      {
        var n :| n in todo;
        TakeOne(map[], plans, todo, n);
        todo := todo - {n};
        totalItems := totalItems + |plans[n].items|;
        totalNewBytes := totalNewBytes + SizeSum(plans[n].items);
        totalNewBytes := totalNewBytes + SCOPE_OVERHEAD;
      }
      AllTaken(plans);
      assert map[] + plans == plans;
    }
  }

  // ---------- Batches taken one scope at a time ----------

  function BytesIn(scopes: map<string, Scope>, n: string): nat {
    if n in scopes then SizeSum(scopes[n].items) else 0
  }

  /** The plans already dealt with. */
  function Taken(plans: map<string, Scope>, todo: set<string>): map<string, Scope> {
    map n | n in plans && n !in todo :: plans[n]
  }

  lemma NothingTakenYet(base: map<string, Scope>, plans: map<string, Scope>)
    ensures base + Taken(plans, plans.Keys) == base
  {
  }

  lemma AllTaken(plans: map<string, Scope>)
    ensures Taken(plans, {}) == plans
  {
  }

  /** Dealing with one more plan, and what it adds to the sums. */
  lemma {:induction false} TakeOne(base: map<string, Scope>, plans: map<string, Scope>, todo: set<string>, n: string)
    requires n in todo && n in plans
    ensures var before, after := base + Taken(plans, todo), base + Taken(plans, todo - {n});
      && after == before[n := plans[n]]
      && (n in before <==> n in base) && (n in base ==> before[n] == base[n])
      && TotalBytes(after) == TotalBytes(before) - (if n in base then Footprint(base[n]) else 0) + Footprint(plans[n])
      && TotalItems(after) == TotalItems(before) - (if n in base then |base[n].items| else 0) + |plans[n].items|
  {
    hide TotalBytes, TotalItems, SizeSum;
    var before := base + Taken(plans, todo);
    assert base + Taken(plans, todo - {n}) == before[n := plans[n]];
    TotalsSet(before, n, plans[n]);
  }

  /** The store with one scope exchanged after its bytes were reserved. */
  function Replaced(m: Mem, n: string, built: Scope, oldSnapshot: int): Mem {
    m.(scopes := m.scopes[n := built], total := m.total - (BytesIn(m.scopes, n) - oldSnapshot),
       items := m.items + |built.items| - |ScopeAt(m, n).items|)
  }

  /** A warm request part of the way through its last phase. */
  ghost function Advanced(m: Mem, plans: map<string, Scope>, todo: set<string>): Mem {
    var scopes := m.scopes + Taken(plans, todo);
    m.(scopes := scopes, items := TotalItems(scopes))
  }

  lemma NothingAdvanced(m: Mem, plans: map<string, Scope>)
    requires m.items == TotalItems(m.scopes)
    ensures Advanced(m, plans, plans.Keys) == m
  {
    NothingTakenYet(m.scopes, plans);
  }

  lemma AllAdvanced(m: Mem, plans: map<string, Scope>)
    ensures var all := m.scopes + plans; Advanced(m, plans, {}) == m.(scopes := all, items := TotalItems(all))
  {
    AllTaken(plans);
  }

  /** A batch reserved and committed leaves exact counters. */
  lemma AllCommitted(m: Mem, plans: map<string, Scope>)
    requires StoreOk(m)
    ensures var all := m.scopes + plans;
      m.(scopes := all, total := m.total + (TotalBytes(all) - TotalBytes(m.scopes)), items := TotalItems(all),
        count := |all|)
      == WithScopes(m, all)
  {
    hide TotalBytes, TotalItems;
  }

  lemma {:induction false} AdvanceOne(m: Mem, plans: map<string, Scope>, todo: set<string>, n: string)
    requires n in todo && n in plans
    ensures var before, after := Advanced(m, plans, todo), Advanced(m, plans, todo - {n});
      && after == Replaced(before, n, plans[n], BytesIn(m.scopes, n))
      && |after.scopes| == |before.scopes| + if n in before.scopes then 0 else 1
  {
    hide TotalBytes, TotalItems, Taken, Footprint;
    TakeOne(m.scopes, plans, todo, n);
    OneMore(m.scopes + Taken(plans, todo), n, plans[n]);
    SameBytes(m.scopes, m.scopes + Taken(plans, todo), n);
  }

  lemma SameBytes(base: map<string, Scope>, scopes: map<string, Scope>, n: string)
    requires (n in scopes <==> n in base) && (n in base ==> scopes[n] == base[n])
    ensures BytesIn(scopes, n) == BytesIn(base, n)
  {
  }

  lemma OneMore(scopes: map<string, Scope>, n: string, s: Scope)
    ensures |scopes[n := s]| == |scopes| + if n in scopes then 0 else 1
  {
    assert scopes[n := s].Keys == scopes.Keys + {n};
  }

  lemma SameOffenders(m: Mem, grouped: Batch, offenders: set<string>)
    requires forall n :: n in offenders <==> n in grouped && |grouped[n]| > m.cfg.scopeMaxItems
    ensures offenders == Offenders(m, grouped)
  {
  }

  lemma LaidOverCases(m: Mem, plans: map<string, Scope>, t: Tick)
    requires StoreOk(m)
    ensures var d, m', added := LaidOver(m, plans, t), WithScopes(m, m.scopes + plans),
      TotalBytes(m.scopes + plans) - TotalBytes(m.scopes);
      && m'.total - m.total == added
      && (!CanReserve(m.total, m.cfg.maxStoreBytes, added) ==> d == BulkDone(m, Some(BulkFull(added))))
      && (CanReserve(m.total, m.cfg.maxStoreBytes, added) ==>
           d == BulkDone(if |plans| == 0 then m' else Emit(m', WarmEvent(t.now), t), None))
  {
    hide TotalBytes, TotalItems, Emit, WithScopes, StoreOk;
    CountersAreExact(m);
    WithScopesTotal(m, m.scopes + plans);
  }

  lemma WithScopesTotal(m: Mem, scopes: map<string, Scope>)
    ensures WithScopes(m, scopes).total == TotalBytes(scopes)
  {
  }

  /** The store holding new scopes and nothing else, before its reserved scopes are created again. */
  ghost function Cleared(m: Mem, plans: map<string, Scope>): Mem {
    m.(scopes := plans, total := TotalBytes(plans), items := TotalItems(plans), count := |plans|,
       log := [], commits := 0, dropsBefore := m.drops)
  }

  lemma {:induction false} InstalledCases(m: Mem, plans: map<string, Scope>)
    requires EVENTS !in plans && INBOX !in plans
    ensures var d, total := Installed(m, plans), TotalBytes(plans) + RESERVED_OVERHEAD;
      if total > m.cfg.maxStoreBytes then d == BulkDone(m, Some(BulkFull(total)))
      else d == BulkDone(WithReserved(Cleared(m, plans)), None) && d.mem.items == TotalItems(plans)
  {
    hide TotalBytes, TotalItems, WithReserved, Footprint;
    InstalledSums(m, plans);
  }

  lemma RebuiltNames(m: Mem, grouped: Batch, now: int, mints: map<string, seq<Uuid>>)
    requires StoreOk(m) && Matched(grouped, mints) && BatchFromClient(grouped)
      && Verdict(m, ToRebuild, grouped, now, mints).None?
    ensures var built := BuiltScopes(m, grouped, now, mints);
      EVENTS !in built && INBOX !in built && |built| == |grouped|
  {
    ScopeIsSane(m);
    hide Built, WellFormed, ItemsFit, Verdict, StoreOk, BatchFromClient;
    BuiltScopesAreOk(m, ToRebuild, grouped, now, mints);
    BuiltForAll(m, grouped, now, mints);
    assert IsReserved(EVENTS) && IsReserved(INBOX);
  }

  lemma WarmKeeps(m: Mem, grouped: Batch, now: int, mints: map<string, seq<Uuid>>, t: Tick)
    requires StoreOk(m) && Conserved(m) && FreshTick(m, t) && Matched(grouped, mints) && BatchFromClient(grouped)
    ensures var d := Warm(m, grouped, now, mints, t); StoreOk(d.mem) && Conserved(d.mem)
  {
    hide *;
    WarmIsAllOrNothing(m, grouped, now, mints, t);
  }

  lemma RebuildKeeps(m: Mem, grouped: Batch, now: int, mints: map<string, seq<Uuid>>)
    requires StoreOk(m) && Conserved(m) && Matched(grouped, mints) && BatchFromClient(grouped)
    ensures var d := Rebuild(m, grouped, now, mints); StoreOk(d.mem) && Conserved(d.mem)
  {
    hide *;
    RebuildIsTotal(m, grouped, now, mints);
  }

  lemma BuiltForAll(m: Mem, grouped: Batch, now: int, mints: map<string, seq<Uuid>>)
    requires Matched(grouped, mints)
    ensures |BuiltScopes(m, grouped, now, mints)| == |grouped|
    ensures BuiltScopes(m, grouped, now, mints) == map[] <==> grouped == map[]
  {
    hide Built;
    assert BuiltScopes(m, grouped, now, mints).Keys == grouped.Keys;
  }

  lemma NoScopesNoSum()
    ensures TotalItems(map[]) == 0 && TotalBytes(map[]) == 0
  {
  }

  lemma CountersAreExact(m: Mem)
    requires StoreOk(m)
    ensures m.total == TotalBytes(m.scopes) && m.items == TotalItems(m.scopes) && m.count == |m.scopes|
  {
  }

  /** A warmed store, before its event, is fit for the event. */
  lemma {:induction false} OverlayIsReady(m: Mem, built: map<string, Scope>, t: Tick)
    requires StoreOk(m) && Conserved(m) && FreshTick(m, t)
    requires forall n :: n in built ==> !IsReserved(n) && WellFormed(built[n]) && ItemsFit(m.cfg, n, built[n])
    requires var m' := WithScopes(m, m.scopes + built); CanReserve(m.total, m.cfg.maxStoreBytes, m'.total - m.total)
    ensures var m' := WithScopes(m, m.scopes + built);
      StoreOk(m') && Conserved(m') && EVENTS in m'.scopes && Fresh(m'.scopes[EVENTS], t.eventUuid)
  {
    FreshScopes(m, EVENTS, t);
    hide Conserved, WellFormed, ItemsFit, TotalBytes, TotalItems, Fresh, StoreOk;
    OverlayKeeps(m, built);
    EventsExist(WithScopes(m, m.scopes + built));
  }

  /** The swapped store, counted without its reserved scopes and then given them. */
  lemma {:induction false} InstalledSums(m: Mem, built: map<string, Scope>)
    requires EVENTS !in built && INBOX !in built
    ensures var m' := Reset(m, built + RESERVED_SCOPES);
      && m'.total == TotalBytes(built) + RESERVED_OVERHEAD && m'.items == TotalItems(built)
      && WithReserved(m.(scopes := built, total := TotalBytes(built), items := TotalItems(built), count := |built|,
                         log := [], commits := 0, dropsBefore := m.drops)) == m'
  {
    hide TotalBytes, TotalItems, Footprint, WithReserved;
    AddTwo(built, EVENTS, INBOX);
    ReservedAreAdded(m.(scopes := built, total := TotalBytes(built), items := TotalItems(built), count := |built|,
                        log := [], commits := 0, dropsBefore := m.drops));
  }

  /** The uuid a request carries as text, empty text meaning none. */
  ghost function UuidIn(text: Bytes): Option<Uuid> {
    if text == [] then None else Parse(text)
  }

  /** An append and its event. */
  function AppendTrusted(m: Mem, item: Entry, t: Tick): Done {
    var d := TryWrite(m, item.scope, ScopeSpec.Append(item), t.now, t.minted);
    if d.changed then d.(mem := Emit(d.mem, EventFor(StoreSpec.Append(item), d.item, t), t)) else d
  }

  /** An append that succeeded stored an item of its own scope, and left the store fit for an event. */
  lemma {:induction false} AppendedIsStored(m: Mem, item: Entry, t: Tick)
    requires StoreOk(m) && Conserved(m) && item.uuid.None? && Fresh(ScopeAt(m, item.scope), t.minted)
    ensures var d := TryWrite(m, item.scope, ScopeSpec.Append(item), t.now, t.minted);
      d.changed ==>
        && d.item.Some? && d.item.value.scope == item.scope
        && (item.scope != EVENTS ==> StoreOk(d.mem) && Conserved(d.mem) && d.mem.scopes[EVENTS] == m.scopes[EVENTS])
  {
    var n, w := item.scope, ScopeSpec.Append(item);
    var d := TryWrite(m, n, w, t.now, t.minted);
    EventsExist(m);
    if d.changed {
      hide StoreOk, Conserved, TryWrite, Fresh;
      WrittenScope(m, n, w, t.now, t.minted);
      if n != EVENTS {
        WriteMutates(m, n, w, t.now, t.minted);
        MutatesConserves(m, d.mem);
      }
    }
  }

  lemma FreshScopes(m: Mem, n: string, t: Tick)
    requires StoreOk(m) && FreshTick(m, t)
    ensures m.cfg.Sane() && Fresh(ScopeAt(m, n), t.minted) && EVENTS in m.scopes && Fresh(m.scopes[EVENTS], t.eventUuid)
  {
  }

  /** After a mutation that changed something the store is fit for the event. */
  lemma {:induction false} ReadyForEvent(m: Mem, c: Command, t: Tick)
    requires StoreOk(m) && Conserved(m) && FreshTick(m, t) && FromClientCommand(c)
    ensures var d := Mutation(m, c, t);
      && StoreOk(d.mem) && Conserved(d.mem) && EVENTS in d.mem.scopes && Fresh(d.mem.scopes[EVENTS], t.eventUuid)
      && (d.changed && (c.Append? || c.Upsert?) ==> d.item.Some? && d.item.value.scope == Target(c))
  {
    hide StoreOk, Conserved, Fresh, FreshTick, Mutation;
    MutationKeeps(m, c, t);
    MutatesConserves(m, Mutation(m, c, t).mem);
    FreshAfter(m, Mutation(m, c, t).mem, t);
    if Mutation(m, c, t).changed && (c.Append? || c.Upsert?) {
      WrittenItem(m, c, t);
    }
  }

  lemma HitsAre(m: Mem, n: string, w: Write, t: Tick)
    ensures var d := TryWrite(m, n, w, t.now, t.minted); d.hits == if d.changed then 1 else 0
  {
    hide PlanOf;
  }

  lemma NothingToRemove(m: Mem, n: string, r: Removal)
    requires n !in m.scopes
    ensures TryRemove(m, n, r) == Done(m, None, false, 0, None, false)
  {
  }

  lemma ShorterAfter(m: Mem, n: string, r: Removal)
    requires StoreOk(m) && n in m.scopes
    ensures |Remove(m.scopes[n], r).items| <= |m.scopes[n].items|
  {
    RemovalIsSound(m.scopes[n], r);
  }

  /** The ghost count of commits plays no part in a write. */
  lemma CountingCommits(m: Mem, n: string, w: Write, now: int, minted: Uuid)
    ensures var d, d1 := TryWrite(m, n, w, now, minted), TryWrite(m.(commits := m.commits + 1), n, w, now, minted);
      d1 == d.(mem := d.mem.(commits := m.commits + 1))
  {
    hide PlanOf, SizeSum;
  }

  /** The store with a scope that exists for certain. */
  function Ensured(m: Mem, name: string): Mem {
    Exchanged(m, name, ScopeAt(m, name))
  }

  function WithReserved(m: Mem): Mem {
    Ensured(Ensured(m, EVENTS), INBOX)
  }

  lemma {:induction false} ReservedAreAdded(m: Mem)
    requires EVENTS !in m.scopes && INBOX !in m.scopes
    ensures WithReserved(m) == m.(scopes := m.scopes + RESERVED_SCOPES, total := m.total + RESERVED_OVERHEAD,
      count := m.count + |RESERVED|)
    ensures WithReserved(WithReserved(m)) == WithReserved(m)
  {
    hide SizeSum;
    TwoSteps(m.scopes, EVENTS, INBOX);
    EnsuredTwice(WithReserved(m), EVENTS);
    EnsuredTwice(WithReserved(m), INBOX);
  }

  lemma EnsuredTwice(m: Mem, name: string)
    requires name in m.scopes
    ensures Ensured(m, name) == m
  {
    ExchangeNothing(m, name);
  }

  /** Updates address an item that must exist, so they never create a scope. */
  predicate AddressesOnly(w: Write) {
    w.UpdateId? || w.UpdateSeq? || w.UpdateUuid?
  }

  lemma DeltaIsExact(m: Mem, n: string, w: Write, now: int, minted: Uuid)
    requires StoreOk(m) && n in m.scopes && Admitted(m, n, w) && Fresh(m.scopes[n], minted)
    requires PlanOf(m.scopes[n], w, EnvFor(m, n, now, minted)).Ready?
    ensures var p := PlanOf(m.scopes[n], w, EnvFor(m, n, now, minted));
      SizeSum(p.after.items) == SizeSum(m.scopes[n].items) + p.delta
  {
    hide PlanOf;
    AdmittedIsFresh(m, n, w, now, minted);
    WriteIsSound(m.scopes[n], w, EnvFor(m, n, now, minted));
  }

  lemma NoRoomForScope(m: Mem, n: string, w: Write, now: int, minted: Uuid)
    requires !CanReserve(m.total, m.cfg.maxStoreBytes, CreationFee(m, n))
    ensures var d := TryWrite(m, n, w, now, minted);
      d.mem == m && !d.changed && d.item == None && !d.created
        && d.error == Some(StoreFull(m.total, CreationFee(m, n), m.cfg.maxStoreBytes))
  {
  }

  /** A store in which the scope exists, empty if it is new, is as good as the store before. */
  lemma {:induction false} CreatedIsOk(m: Mem, n: string, w: Write, minted: Uuid)
    requires StoreOk(m) && CanReserve(m.total, m.cfg.maxStoreBytes, CreationFee(m, n))
    requires Admitted(m, n, w) && Fresh(ScopeAt(m, n), minted)
    ensures var m1 := Exchanged(m, n, ScopeAt(m, n));
      StoreOk(m1) && n in m1.scopes && m1.scopes[n] == ScopeAt(m, n) && Admitted(m1, n, w)
        && Fresh(m1.scopes[n], minted)
  {
    ScopeIsOk(m, n);
    hide StoreOk, WellFormed, SizeSum, ItemsFit, RenderFor;
    ExchangeKeeps(m, n, ScopeAt(m, n));
  }

  /** Creating the scope first changes neither what the write does nor what it answers. */
  lemma {:induction false} CreateThenWrite(m: Mem, n: string, w: Write, now: int, minted: Uuid)
    requires CanReserve(m.total, m.cfg.maxStoreBytes, CreationFee(m, n)) && !AddressesOnly(w)
    ensures var m1 := Exchanged(m, n, ScopeAt(m, n));
      var d, d1 := TryWrite(m, n, w, now, minted), TryWrite(m1, n, w, now, minted);
      && d1.error == d.error && d1.changed == d.changed && d1.item == d.item && d1.created == d.created
      && (d.error.None? ==> d1.changed && d1.mem == d.mem)
      && (n in m.scopes ==> m1 == m)
      && (n !in m.scopes && d.error.Some? ==> m1.scopes[n].items == [] && Dropped(m1, n) == m)
  {
    hide SizeSum, Size, RenderFor, FindId, Config.MaxItemsFor, Config.MaxItemBytesFor;
    if n in m.scopes {
      ExchangeNothing(m, n);
    } else {
      assert m.scopes[n := EMPTY_SCOPE] - {n} == m.scopes;
      EmptyCosts();
    }
  }
}
