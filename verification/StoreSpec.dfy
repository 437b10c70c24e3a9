/** What every public operation does to the whole store, seen as a map of scopes, three counters and
    the log of emitted events. Creation and rollback of scopes, loops over batches and the order of
    counter updates do not appear here: an operation either happens in full or leaves the store alone. */
module StoreSpec {
  import opened Types
  import opened ScopeSpec
  import opened Validation

  datatype Op = OpAppend | OpUpsert | OpUpdate | OpCounterAdd | OpDelete | OpDeleteUpTo | OpWarm | OpDeleteScope

  /** One entry of the event stream; fields an operation does not use are absent. */
  datatype WriteEvent = WriteEvent(
    op: Op, scope: string, id: string, seqNo: nat, ts: int, uuid: Option<Uuid>, payload: Bytes, add: int, maxSeq: nat)

  /** The inputs an operation takes from the clock and the mint, for itself and for its event. */
  datatype Tick = Tick(now: int, minted: Uuid, eventNow: int, eventUuid: Uuid)

  /** `log` holds the events written since `_events` was last reset, `commits` how many mutations of
      other scopes happened since then, `dropsBefore` the drop counter at that moment. */
  datatype Mem = Mem(
    cfg: Config, codec: Codec, marshal: WriteEvent -> Bytes,
    scopes: map<string, Scope>, total: int, items: int, count: int, drops: nat,
    log: seq<WriteEvent>, commits: nat, dropsBefore: nat)

  /** The outcome of an operation: `hits` items written or removed, whether anything changed, and the item
      written, with whether it is new. */
  datatype Done = Done(mem: Mem, error: Option<WriteError>, changed: bool, hits: nat, item: Option<Entry>,
    created: bool)

  datatype Command =
    | Append(item: Entry)
    | Upsert(item: Entry)
    | Update(item: Entry)
    | CounterAdd(scope: string, id: string, add: int)
    | Delete(scope: string, id: string, seqNo: nat, uuid: Option<Uuid>)
    | DeleteUpTo(scope: string, maxSeq: nat, uuid: Option<Uuid>)
    | DeleteScope(scope: string)

  // ---------- Sums over scopes ----------

  function Footprint(s: Scope): int { SizeSum(s.items) + SCOPE_OVERHEAD }
  function ItemCount(s: Scope): int { |s.items| }

  ghost function TotalOf(scopes: map<string, Scope>, f: Scope -> int): int
    decreases |scopes|
  {
    if scopes == map[] then 0
    else
      var k :| k in scopes;
      f(scopes[k]) + TotalOf(scopes - {k}, f)
  }

  lemma {:induction false} TotalOfMinus(scopes: map<string, Scope>, k: string, f: Scope -> int)
    requires k in scopes
    ensures TotalOf(scopes, f) == f(scopes[k]) + TotalOf(scopes - {k}, f)
    decreases |scopes|
  {
    var j :| j in scopes && TotalOf(scopes, f) == f(scopes[j]) + TotalOf(scopes - {j}, f);
    if j != k {
      TotalOfMinus(scopes - {j}, k, f);
      TotalOfMinus(scopes - {k}, j, f);
      assert scopes - {j} - {k} == scopes - {k} - {j};
    }
  }

  lemma {:induction false} TotalOfSet(scopes: map<string, Scope>, k: string, s: Scope, f: Scope -> int)
    ensures TotalOf(scopes[k := s], f) == TotalOf(scopes, f) - (if k in scopes then f(scopes[k]) else 0) + f(s)
  {
    TotalOfMinus(scopes[k := s], k, f);
    assert scopes[k := s] - {k} == scopes - {k};
    if k in scopes {
      TotalOfMinus(scopes, k, f);
    } else {
      assert scopes - {k} == scopes;
    }
  }

  /** What the scopes cost together, and how many items they hold. */
  ghost function TotalBytes(scopes: map<string, Scope>): int { TotalOf(scopes, Footprint) }
  ghost function TotalItems(scopes: map<string, Scope>): int { TotalOf(scopes, ItemCount) }

  lemma {:induction false} TotalsMinus(scopes: map<string, Scope>, k: string)
    requires k in scopes
    ensures TotalBytes(scopes) == Footprint(scopes[k]) + TotalBytes(scopes - {k})
    ensures TotalItems(scopes) == |scopes[k].items| + TotalItems(scopes - {k})
  {
    TotalOfMinus(scopes, k, Footprint);
    TotalOfMinus(scopes, k, ItemCount);
  }

  lemma {:induction false} TotalsSet(scopes: map<string, Scope>, k: string, s: Scope)
    ensures TotalBytes(scopes[k := s]) ==
      TotalBytes(scopes) - (if k in scopes then Footprint(scopes[k]) else 0) + Footprint(s)
    ensures TotalItems(scopes[k := s]) ==
      TotalItems(scopes) - (if k in scopes then |scopes[k].items| else 0) + |s.items|
  {
    hide SizeSum;
    TotalOfSet(scopes, k, s, Footprint);
    TotalOfSet(scopes, k, s, ItemCount);
  }

  // ---------- One mutation of one scope ----------

  function EnvFor(m: Mem, scope: string, now: int, minted: Uuid): Env {
    Env(m.codec, true, m.cfg.MaxItemsFor(scope), m.cfg.MaxItemBytesFor(scope), now, minted)
  }

  function ScopeAt(m: Mem, scope: string): Scope {
    if scope in m.scopes then m.scopes[scope] else EMPTY_SCOPE
  }

  function CreationFee(m: Mem, scope: string): nat {
    if scope in m.scopes then 0 else SCOPE_OVERHEAD
  }

  /** The store with one scope's content exchanged, created if need be, all counters following. */
  function Exchanged(m: Mem, scope: string, after: Scope): Mem {
    var before := ScopeAt(m, scope);
    m.(scopes := m.scopes[scope := after],
       total := m.total + CreationFee(m, scope) + SizeSum(after.items) - SizeSum(before.items),
       items := m.items + |after.items| - |before.items|,
       count := m.count + if scope in m.scopes then 0 else 1)
  }

  /** A write to a scope that is created on demand: the scope, the item and both reservations, or
      nothing at all. */
  function TryWrite(m: Mem, scope: string, w: Write, now: int, minted: Uuid): (d: Done)
    ensures d.error.Some? ==> d.mem == m && !d.changed
  {
    var fee := CreationFee(m, scope);
    if !CanReserve(m.total, m.cfg.maxStoreBytes, fee)
    then Done(m, Some(StoreFull(m.total, fee, m.cfg.maxStoreBytes)), false, 0, None, false)
    else
      match PlanOf(ScopeAt(m, scope), w, EnvFor(m, scope, now, minted))
      case Miss => Done(m, None, false, 0, None, false)
      case Refused(e) => Done(m, Some(e), false, 0, None, false)
      case Ready(delta, after, at, created) =>
        if !CanReserve(m.total + fee, m.cfg.maxStoreBytes, delta)
        then Done(m, Some(StoreFull(m.total + fee, delta, m.cfg.maxStoreBytes)), false, 0, None, false)
        else Done(Exchanged(m, scope, after), None, true, 1,
                  if at < |after.items| then Some(after.items[at]) else None, created)
  }

  /** A removal; a missing scope has nothing to remove. */
  function TryRemove(m: Mem, scope: string, r: Removal): Done {
    if scope !in m.scopes then Done(m, None, false, 0, None, false)
    else
      var before, after := m.scopes[scope], Remove(m.scopes[scope], r);
      var hits := if |after.items| < |before.items| then |before.items| - |after.items| else 0;
      Done(Exchanged(m, scope, after), None, hits > 0, hits, None, false)
  }

  // ---------- Events ----------

  /** The item that carries an event; in notify mode the payload of the mutation stays out. */
  function Recorded(m: Mem, ev: WriteEvent): WriteEvent {
    if m.cfg.events == Notify then ev.(payload := []) else ev
  }

  function EventItem(m: Mem, ev: WriteEvent): Entry {
    Entry(EVENTS, "", 0, 0, None, m.marshal(Recorded(m, ev)), None, None)
  }

  /** An event on its way into `_events`: one more entry there, or one more counted drop. */
  function Written(m: Mem, ev: WriteEvent, t: Tick): Mem {
    var d := TryWrite(m, EVENTS, ScopeSpec.Append(EventItem(m, ev)), t.eventNow, t.eventUuid);
    if d.error.Some? then m.(drops := m.drops + 1) else d.mem.(log := m.log + [Recorded(m, ev)])
  }

  /** A mutation of another scope counted as a commit, and its event written unless events are off. */
  function Emit(m: Mem, ev: WriteEvent, t: Tick): Mem {
    if ev.scope == EVENTS then m
    else
      var m1 := m.(commits := m.commits + 1);
      if m.cfg.events == Off then m1 else Written(m1, ev, t)
  }

  const NO_EVENT := WriteEvent(OpWarm, "", "", 0, 0, None, [], 0, 0)

  function ItemEvent(op: Op, e: Entry): WriteEvent {
    WriteEvent(op, e.scope, e.id, e.seqNo, e.ts, e.uuid, e.payload, 0, 0)
  }

  function UpdateEvent(item: Entry): WriteEvent {
    NO_EVENT.(op := OpUpdate, scope := item.scope, id := item.id, seqNo := item.seqNo, uuid := item.uuid,
      payload := item.payload)
  }

  // ---------- Operations ----------

  function Refuse(m: Mem, e: WriteError): Done {
    Done(m, Some(e), false, 0, None, false)
  }

  function UpdateOf(item: Entry): Write {
    if item.id != "" then UpdateId(item.id, item.payload, item.render)
    else if item.uuid.Some? then UpdateUuid(item.uuid.value, item.payload, item.render)
    else UpdateSeq(item.seqNo, item.payload, item.render)
  }

  function RemovalOf(id: string, seqNo: nat, uuid: Option<Uuid>): Removal {
    if id != "" then DeleteId(id) else if uuid.Some? then DeleteUuid(uuid.value) else DeleteSeq(seqNo)
  }

  function PrefixOf(maxSeq: nat, uuid: Option<Uuid>): Removal {
    if uuid.Some? then UpToUuid(uuid.value) else UpToSeq(maxSeq)
  }

  function Dropped(m: Mem, scope: string): Mem
    requires scope in m.scopes
  {
    m.(scopes := m.scopes - {scope}, total := m.total - Footprint(m.scopes[scope]),
       items := m.items - |m.scopes[scope].items|, count := m.count - 1)
  }

  /** The mutation a command asks for, validated, before its event. */
  function Mutation(m: Mem, c: Command, t: Tick): Done {
    match c
    case Append(item) =>
      (match ValidateWriteItem(m.codec, item, ToAppend, m.cfg.MaxItemBytesFor(item.scope))
       case Err(e) => Refuse(m, e)
       case Ok(it) => TryWrite(m, item.scope, ScopeSpec.Append(it), t.now, t.minted))
    case Upsert(item) =>
      (match ValidateUpsertItem(m.codec, item, m.cfg.maxItemBytes)
       case Err(e) => Refuse(m, e)
       case Ok(it) => TryWrite(m, item.scope, ScopeSpec.Upsert(it), t.now, t.minted))
    case Update(item) =>
      (match ValidateUpdateItem(m.codec, item, m.cfg.maxItemBytes)
       case Err(e) => Refuse(m, e)
       case Ok(it) =>
         if item.scope !in m.scopes then Done(m, None, false, 0, None, false)
         else TryWrite(m, item.scope, UpdateOf(it), t.now, t.minted))
    case CounterAdd(scope, id, add) =>
      if !CounterAddOk(m.codec, scope, id, add, m.cfg.MaxItemBytesFor(scope)) then Refuse(m, InvalidInput)
      else TryWrite(m, scope, ScopeSpec.CounterAdd(scope, id, add), t.now, t.minted)
    case Delete(scope, id, seqNo, uuid) =>
      if !DeleteOk(m.codec, scope, id, seqNo, uuid) then Refuse(m, InvalidInput)
      else TryRemove(m, scope, RemovalOf(id, seqNo, uuid))
    case DeleteUpTo(scope, maxSeq, uuid) =>
      if !DeleteUpToOk(m.codec, scope, maxSeq, uuid) then Refuse(m, InvalidInput)
      else TryRemove(m, scope, PrefixOf(maxSeq, uuid))
    case DeleteScope(scope) =>
      if !DeleteScopeOk(m.codec, scope) then Refuse(m, InvalidInput)
      else if scope !in m.scopes then Done(m, None, false, 0, None, false)
      else Done(Dropped(m, scope), None, true, |m.scopes[scope].items|, None, false)
  }

  /** What a command that changed something announces: its inputs, never its results beyond the item. */
  function EventFor(c: Command, written: Option<Entry>, t: Tick): WriteEvent {
    match c
    case Append(item) => if written.Some? then ItemEvent(OpAppend, written.value) else ItemEvent(OpAppend, item)
    case Upsert(item) => if written.Some? then ItemEvent(OpUpsert, written.value) else ItemEvent(OpUpsert, item)
    case Update(item) => UpdateEvent(item)
    case CounterAdd(scope, id, add) => NO_EVENT.(op := OpCounterAdd, scope := scope, id := id, add := add)
    case Delete(scope, id, seqNo, uuid) => NO_EVENT.(op := OpDelete, scope := scope, id := id, seqNo := seqNo,
      uuid := uuid)
    case DeleteUpTo(scope, maxSeq, uuid) => NO_EVENT.(op := OpDeleteUpTo, scope := scope, maxSeq := maxSeq,
      uuid := uuid)
    case DeleteScope(scope) => NO_EVENT.(op := OpDeleteScope, scope := scope, ts := t.now)
  }

  function Exec(m: Mem, c: Command, t: Tick): Done {
    var d := Mutation(m, c, t);
    if d.changed then d.(mem := Emit(d.mem, EventFor(c, d.item, t), t)) else d
  }

  // ---------- The store invariant ----------

  predicate ItemsFit(cfg: Config, name: string, s: Scope) {
    && (forall e :: e in s.items ==> e.scope == name && e.uuid.Some? && Size(e) <= cfg.MaxItemBytesFor(name))
    && (cfg.MaxItemsFor(name) > 0 ==> |s.items| <= cfg.MaxItemsFor(name))
  }

  /** Every scope is well formed, every stored item within its scope's caps, and every counter exact. */
  ghost predicate StoreOk(m: Mem) {
    && m.cfg.Sane()
    && EVENTS in m.scopes && INBOX in m.scopes
    && (forall n :: n in m.scopes ==> WellFormed(m.scopes[n]) && ItemsFit(m.cfg, n, m.scopes[n]))
    && m.total == TotalBytes(m.scopes) <= m.cfg.maxStoreBytes
    && m.items == TotalItems(m.scopes)
    && m.count == |m.scopes|
  }

  /** `_events` holds what the log says and nothing else, under the sequence numbers of the log. */
  predicate Logged(m: Mem) {
    && EVENTS in m.scopes
    && m.dropsBefore <= m.drops
    && m.scopes[EVENTS].lastSeq == |m.log|
    && (forall e :: e in m.scopes[EVENTS].items ==>
         0 < e.seqNo <= |m.log| && e.payload == m.marshal(m.log[e.seqNo - 1]))
  }

  /** Every commit since `_events` was reset is an entry there or a counted drop, and nothing else
      writes there. This is what commands keep when each emits before the next commits; what holds when
      commits and emissions interleave is the subject of module Emissions. */
  predicate Conserved(m: Mem) {
    && Logged(m)
    && (m.cfg.events != Off ==> m.commits == m.scopes[EVENTS].lastSeq + (m.drops - m.dropsBefore))
    && (m.cfg.events == Off ==> m.log == [] && m.drops == m.dropsBefore)
  }

  /** The mint's part: no uuid it hands out is already in use. */
  predicate FreshTick(m: Mem, t: Tick) {
    forall n :: n in m.scopes ==> Fresh(m.scopes[n], t.minted) && Fresh(m.scopes[n], t.eventUuid)
  }

  function Boot(cfg: Config, codec: Codec, marshal: WriteEvent -> Bytes): Mem {
    Mem(cfg, codec, marshal, map[EVENTS := EMPTY_SCOPE, INBOX := EMPTY_SCOPE], RESERVED_OVERHEAD, 0, |RESERVED|, 0,
      [], 0, 0)
  }
}
