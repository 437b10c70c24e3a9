/** What a client is answered and finds afterwards, for every public command: stated in terms of the request,
    the caps and the items stored, in the order in which refusals are tried. */
module Answers {
  import opened Types
  import opened Uuids
  import opened ScopeSpec
  import opened Validation
  import opened StoreSpec
  import opened StoreLaws
  import opened ScopeAnswers
  import ScopeLaws

  // ---------- Vocabulary ----------

  function ItemsAt(m: Mem, scope: string): seq<Entry> {
    if scope in m.scopes then m.scopes[scope].items else []
  }

  function NewestAt(m: Mem, scope: string): nat {
    if scope in m.scopes then m.scopes[scope].lastSeq else 0
  }

  /** What creating the scope costs, if it has to be created. */
  function ScopeCost(m: Mem, scope: string): nat {
    if scope in m.scopes then 0 else 1024
  }

  /** The store has no room for this many more bytes. */
  predicate NoRoom(m: Mem, more: int) {
    more > 0 && m.total + more > m.cfg.maxStoreBytes
  }

  /** The item caps of the scopes a client can write to. */
  function CountCap(m: Mem, scope: string): int {
    if scope == INBOX then m.cfg.inboxMaxItems else m.cfg.scopeMaxItems
  }

  function SizeCap(m: Mem, scope: string): int {
    if scope == INBOX then m.cfg.inboxMaxItemBytes else m.cfg.maxItemBytes
  }

  /** A command leaves everything as it was. */
  ghost predicate Idle(d: Done, m: Mem) {
    d.mem == m && !d.changed && d.hits == 0 && d.item == None && !d.created
  }

  /** A command wrote one entry: its scope now has these items, and the entry is the answer. */
  predicate Wrote(d: Done, scope: string, items: seq<Entry>, e: Entry, isNew: bool) {
    && d.error == None && d.changed && d.hits == 1 && d.item == Some(e) && d.created == isNew
    && scope in d.mem.scopes && d.mem.scopes[scope].items == items
  }

  /** Two outcomes of a command on scope `n` that a client cannot tell apart there. */
  ghost predicate SameAnswer(m: Mem, n: string, d: Done, e: Done) {
    && e == d.(mem := e.mem)
    && (n in e.mem.scopes <==> n in d.mem.scopes)
    && (n in d.mem.scopes ==> e.mem.scopes[n] == d.mem.scopes[n])
    && (!d.changed ==> d.mem == e.mem == m)
  }

  /** A command's answer and its effect on its own scope are those of its mutation; the event that follows
      changes neither. */
  lemma {:induction false} AnswerIsMutation(m: Mem, c: Command, t: Tick)
    requires StoreOk(m) && Conserved(m) && FreshTick(m, t) && FromClientCommand(c)
    ensures var d, e, n := Mutation(m, c, t), Exec(m, c, t), Target(c);
      SameAnswer(m, n, d, e)
  {
    ExecKeeps(m, c, t);
    MutationKeeps(m, c, t);
    if Mutation(m, c, t).changed { EventTarget(m, c, t); }
    hide StoreOk, Conserved, FreshTick, Mutation, EventFor, Emit;
    if Target(c) == EVENTS && Mutation(m, c, t).changed {
      NothingToEmit(Mutation(m, c, t).mem, EventFor(c, Mutation(m, c, t).item, t), t);
    }
  }

  lemma NothingToEmit(m: Mem, ev: WriteEvent, t: Tick)
    requires ev.scope == EVENTS
    ensures Emit(m, ev, t) == m
  {
    hide Written;
  }

  /** A write to a scope created on demand, refusal by refusal. */
  lemma {:induction false} WriteAnswer(m: Mem, n: string, w: Write, now: int, minted: Uuid)
    ensures var d, p := TryWrite(m, n, w, now, minted), PlanOf(ScopeAt(m, n), w, StoreSpec.EnvFor(m, n, now, minted));
      var max := m.cfg.maxStoreBytes;
      if NoRoom(m, ScopeCost(m, n)) then RefusedWith(d, m, StoreFull(m.total, 1024, max))
      else if p.Miss? then d.error == None && Idle(d, m)
      else if p.Refused? then RefusedWith(d, m, p.error)
      else if p.delta > 0 && m.total + ScopeCost(m, n) + p.delta > max then
        RefusedWith(d, m, StoreFull(m.total + ScopeCost(m, n), p.delta, max))
      else if p.at < |p.after.items| then Wrote(d, n, p.after.items, p.after.items[p.at], p.created)
      else d.error == None
  {
    hide PlanOf, SizeSum;
  }

  lemma RenderedOnce(codec: Codec, payload: Bytes)
    ensures RenderFor(codec, payload, RenderFor(codec, payload, None)) == RenderFor(codec, payload, None)
  {
    hide PrecomputeRender;
  }

  // ---------- Append ----------

  predicate AppendAccepted(m: Mem, item: Entry) {
    && item.scope != "" && m.codec.keyOk(item.scope) && item.scope != EVENTS
    && (item.id != "" ==> m.codec.keyOk(item.id))
    && m.codec.payloadOk(item.payload) && item.seqNo == 0 && item.ts == 0 && item.uuid == None
    && StoredSize(m.codec, item) <= SizeCap(m, item.scope)
  }

  /** The request with its render bytes. */
  function Filled(m: Mem, item: Entry): Entry {
    item.(render := RenderFor(m.codec, item.payload, None))
  }

  /** The entry an append or a new upsert stores. */
  function Stored(m: Mem, item: Entry, t: Tick): Entry {
    Entry(item.scope, item.id, NewestAt(m, item.scope) + 1, t.now, Some(t.minted),
          item.payload, RenderFor(m.codec, item.payload, None), None)
  }

  /** What a refused write answers, and that it leaves no trace. */
  ghost predicate RefusedWith(d: Done, m: Mem, e: WriteError) {
    d.error == Some(e) && Idle(d, m)
  }

  /** A new item is refused for room for its scope, then for a full scope, then for a taken id, then for room
      for itself. Otherwise it is the new last item of its scope. */
  ghost predicate NewItemAnswered(d: Done, m: Mem, item: Entry, t: Tick) {
    var n, size, max := item.scope, StoredSize(m.codec, item), m.cfg.maxStoreBytes;
    if NoRoom(m, ScopeCost(m, n)) then RefusedWith(d, m, StoreFull(m.total, 1024, max))
    else if |ItemsAt(m, n)| >= CountCap(m, n) then RefusedWith(d, m, ScopeFull(|ItemsAt(m, n)|, CountCap(m, n)))
    else if HasId(ItemsAt(m, n), item.id) then RefusedWith(d, m, DuplicateId)
    else if NoRoom(m, ScopeCost(m, n) + size) then
      RefusedWith(d, m, StoreFull(m.total + ScopeCost(m, n), size, max))
    else Wrote(d, n, ItemsAt(m, n) + [Stored(m, item, t)], Stored(m, item, t), true)
  }

  lemma {:induction false} NewItemIsAnswered(m: Mem, item: Entry, t: Tick)
    requires m.cfg.Sane() && FromClient(item) && item.scope != EVENTS && item.uuid == None
    requires StoredSize(m.codec, item) <= SizeCap(m, item.scope)
    ensures NewItemAnswered(TryWrite(m, item.scope, ScopeSpec.Append(Filled(m, item)), t.now, t.minted), m, item, t)
    ensures !HasId(ItemsAt(m, item.scope), item.id) ==>
      NewItemAnswered(TryWrite(m, item.scope, ScopeSpec.Upsert(Filled(m, item)), t.now, t.minted), m, item, t)
  {
    hide RenderFor, StoredSize, PlanOf, TryWrite, Stored, Size, HasId, Wrote, Idle, Filled;
    NewItemPlan(m, item, t);
    StoredCosts(m, item, t);
    WriteAnswer(m, item.scope, ScopeSpec.Append(Filled(m, item)), t.now, t.minted);
    WriteAnswer(m, item.scope, ScopeSpec.Upsert(Filled(m, item)), t.now, t.minted);
  }

  lemma StoredCosts(m: Mem, item: Entry, t: Tick)
    requires FromClient(item)
    ensures Size(Stored(m, item, t)) == StoredSize(m.codec, item) > 0
  {
    hide RenderFor;
  }

  lemma SameNewItem(d: Done, e: Done, m: Mem, item: Entry, t: Tick)
    requires SameAnswer(m, item.scope, d, e)
    ensures NewItemAnswered(d, m, item, t) ==> NewItemAnswered(e, m, item, t)
    ensures forall x :: RefusedWith(d, m, x) ==> RefusedWith(e, m, x)
  {
    hide NoRoom, ItemsAt, HasId, StoredSize, Stored;
  }

  /** An append is refused for its shape first; then it is a new item. */
  lemma {:induction false} AppendAnswer(m: Mem, item: Entry, t: Tick)
    requires StoreOk(m) && Conserved(m) && FreshTick(m, t) && FromClient(item)
    ensures var d := Exec(m, StoreSpec.Append(item), t);
      if !AppendAccepted(m, item) then RefusedWith(d, m, InvalidInput) else NewItemAnswered(d, m, item, t)
  {
    AnswerIsMutation(m, StoreSpec.Append(item), t);
    ScopeIsSane(m);
    AppendIsAccepted(m, item, t);
    hide *;
    SameNewItem(Mutation(m, StoreSpec.Append(item), t), Exec(m, StoreSpec.Append(item), t), m, item, t);
    if AppendAccepted(m, item) {
      NewItemIsAnswered(m, item, t);
    }
  }

  lemma ScopeIsSane(m: Mem)
    requires StoreOk(m)
    ensures m.cfg.Sane()
  {
  }

  lemma AppendIsAccepted(m: Mem, item: Entry, t: Tick)
    requires FromClient(item)
    ensures Mutation(m, StoreSpec.Append(item), t) ==
      if !AppendAccepted(m, item) then Refuse(m, InvalidInput)
      else TryWrite(m, item.scope, ScopeSpec.Append(Filled(m, item)), t.now, t.minted)
    ensures AppendAccepted(m, item) ==> item.scope != EVENTS && item.uuid == None
                                        && StoredSize(m.codec, item) <= SizeCap(m, item.scope)
  {
    WriteItemAccepted(m.codec, item, ToAppend, m.cfg.MaxItemBytesFor(item.scope));
    hide RenderFor, StoredSize, TryWrite;
  }

  /** What the plan of an append, or of an upsert of a new id, comes to in a store. */
  lemma {:induction false} NewItemPlan(m: Mem, item: Entry, t: Tick)
    requires m.cfg.Sane() && FromClient(item) && item.scope != EVENTS && item.uuid == None
    requires StoredSize(m.codec, item) <= SizeCap(m, item.scope)
    ensures var n, it := item.scope, Filled(m, item);
      var items, s, env := ItemsAt(m, n), ScopeAt(m, n), StoreSpec.EnvFor(m, n, t.now, t.minted);
      var a, u, e := PlanOf(s, ScopeSpec.Append(it), env), PlanOf(s, ScopeSpec.Upsert(it), env), Stored(m, item, t);
      && (if |items| >= CountCap(m, n) then a == Refused(ScopeFull(|items|, CountCap(m, n)))
          else if HasId(items, item.id) then a == Refused(DuplicateId)
          else PlansNew(m, n, a, e))
      && (!HasId(items, item.id) ==>
           if |items| >= CountCap(m, n) then u == Refused(ScopeFull(|items|, CountCap(m, n)))
           else PlansNew(m, n, u, e))
  {
    var n, it := item.scope, Filled(m, item);
    var s, env := ScopeAt(m, n), StoreSpec.EnvFor(m, n, t.now, t.minted);
    RenderedOnce(m.codec, item.payload);
    AppendRefusals(s, it, env);
    UpsertRefusals(s, it, env);
    var a, u := ScopeSpec.Append(it), ScopeSpec.Upsert(it);
    if PlanOf(s, a, env).Ready? { NewItemIsAdded(s, a, env); }
    if PlanOf(s, u, env).Ready? && !HasId(s.items, it.id) { NewItemIsAdded(s, u, env); }
    hide RenderFor, PlanOf, HasId, UniqueIds, Overwrites;
  }

  /** A plan that adds the entry at the end of the scope and reserves its cost. */
  predicate PlansNew(m: Mem, n: string, p: Plan, e: Entry) {
    && p.Ready? && p.created && p.delta == Size(e)
    && p.after.items == ItemsAt(m, n) + [e] && p.at == |ItemsAt(m, n)|
  }

  // ---------- Upsert ----------

  predicate UpsertAccepted(m: Mem, item: Entry) {
    && item.scope != "" && m.codec.keyOk(item.scope) && item.scope != EVENTS && item.scope != INBOX
    && item.id != "" && m.codec.keyOk(item.id)
    && m.codec.payloadOk(item.payload) && item.seqNo == 0 && item.ts == 0 && item.uuid == None
    && StoredSize(m.codec, item) <= m.cfg.maxItemBytes
  }

  /** A stored entry with another payload: a plain item from now on, at its old address. */
  function Rewritten(m: Mem, e: Entry, payload: Bytes, t: Tick): Entry {
    e.(payload := payload, render := RenderFor(m.codec, payload, None), ts := t.now, counter := None)
  }

  /** Entry `i` becomes `e`, unless the store has no room for what that costs more. */
  ghost predicate ReplacedAnswered(d: Done, m: Mem, n: string, i: nat, e: Entry)
    requires i < |ItemsAt(m, n)|
  {
    var items := ItemsAt(m, n);
    var more := Size(e) - Size(items[i]);
    if NoRoom(m, more) then RefusedWith(d, m, StoreFull(m.total, more, m.cfg.maxStoreBytes))
    else Wrote(d, n, items[i := e], e, false)
  }

  predicate PlansChange(m: Mem, n: string, p: Plan, i: nat, e: Entry)
    requires i < |ItemsAt(m, n)|
  {
    && p.Ready? && !p.created && p.at == i && p.after.items == ItemsAt(m, n)[i := e]
    && p.delta == Size(e) - Size(ItemsAt(m, n)[i])
  }

  lemma {:induction false} ChangeIsAnswered(m: Mem, n: string, w: Write, t: Tick, i: nat, e: Entry)
    requires i < |ItemsAt(m, n)| && m.total <= m.cfg.maxStoreBytes
    requires PlansChange(m, n, PlanOf(ScopeAt(m, n), w, StoreSpec.EnvFor(m, n, t.now, t.minted)), i, e)
    ensures ReplacedAnswered(TryWrite(m, n, w, t.now, t.minted), m, n, i, e)
  {
    hide PlanOf, TryWrite, Size, Wrote, Idle;
    WriteAnswer(m, n, w, t.now, t.minted);
  }

  lemma {:induction false} OverwriteIsChange(m: Mem, n: string, p: Plan, i: nat, payload: Bytes, t: Tick)
    requires i < |ItemsAt(m, n)|
    requires Overwrites(p, ScopeAt(m, n), i, payload, RenderFor(m.codec, payload, None),
      StoreSpec.EnvFor(m, n, t.now, t.minted))
    ensures PlansChange(m, n, p, i, Rewritten(m, ItemsAt(m, n)[i], payload, t))
  {
    RenderedOnce(m.codec, payload);
    hide RenderFor, Size;
  }

  lemma UpsertIsAccepted(m: Mem, item: Entry, t: Tick)
    requires FromClient(item)
    ensures Mutation(m, StoreSpec.Upsert(item), t) ==
      if !UpsertAccepted(m, item) then Refuse(m, InvalidInput)
      else TryWrite(m, item.scope, ScopeSpec.Upsert(Filled(m, item)), t.now, t.minted)
    ensures UpsertAccepted(m, item) ==> item.scope != EVENTS && item.uuid == None && item.id != ""
                                        && StoredSize(m.codec, item) <= SizeCap(m, item.scope)
  {
    UpsertItemAccepted(m.codec, item, m.cfg.maxItemBytes);
    hide RenderFor, StoredSize, TryWrite;
  }

  lemma SameChange(m: Mem, n: string, d: Done, e: Done, i: nat, x: Entry)
    requires SameAnswer(m, n, d, e) && i < |ItemsAt(m, n)|
    ensures ReplacedAnswered(d, m, n, i, x) ==> ReplacedAnswered(e, m, n, i, x)
  {
    hide NoRoom, ItemsAt, Size;
  }

  lemma ScopeIsOrdered(m: Mem, n: string)
    requires StoreOk(m)
    ensures WellFormed(ScopeAt(m, n)) && ItemsAt(m, n) == ScopeAt(m, n).items && m.total <= m.cfg.maxStoreBytes
  {
  }

  lemma {:induction false} UpsertOfStored(m: Mem, item: Entry, t: Tick, i: nat)
    requires StoreOk(m) && FromClient(item) && UpsertAccepted(m, item)
    requires i < |ItemsAt(m, item.scope)| && ItemsAt(m, item.scope)[i].id == item.id
    ensures ReplacedAnswered(Mutation(m, StoreSpec.Upsert(item), t), m, item.scope, i,
      Rewritten(m, ItemsAt(m, item.scope)[i], item.payload, t))
  {
    var n := item.scope;
    UpsertIsAccepted(m, item, t);
    ScopeIsOrdered(m, n);
    hide StoreOk, Mutation, UpsertAccepted, PlanOf, TryWrite, RenderFor, StoredSize, Overwrites, HasId;
    UpsertRefusals(ScopeAt(m, n), Filled(m, item), StoreSpec.EnvFor(m, n, t.now, t.minted));
    var w := ScopeSpec.Upsert(Filled(m, item));
    var p := PlanOf(ScopeAt(m, n), w, StoreSpec.EnvFor(m, n, t.now, t.minted));
    OverwriteIsChange(m, n, p, i, item.payload, t);
    ChangeIsAnswered(m, n, w, t, i, Rewritten(m, ItemsAt(m, n)[i], item.payload, t));
  }

  /** An upsert is refused for its shape first. If its id is stored, that entry is overwritten in place and the
      answer is that nothing was created; otherwise it is a new item and the answer says so. */
  lemma {:induction false} UpsertAnswer(m: Mem, item: Entry, t: Tick)
    requires StoreOk(m) && Conserved(m) && FreshTick(m, t) && FromClient(item)
    ensures var d, items := Exec(m, StoreSpec.Upsert(item), t), ItemsAt(m, item.scope);
      if !UpsertAccepted(m, item) then RefusedWith(d, m, InvalidInput)
      else if !HasId(items, item.id) then NewItemAnswered(d, m, item, t)
      else forall i :: 0 <= i < |items| && items[i].id == item.id ==>
        ReplacedAnswered(d, m, item.scope, i, Rewritten(m, items[i], item.payload, t))
  {
    AnswerIsMutation(m, StoreSpec.Upsert(item), t);
    ScopeIsSane(m);
    UpsertIsAccepted(m, item, t);
    hide *;
    var d, e := Mutation(m, StoreSpec.Upsert(item), t), Exec(m, StoreSpec.Upsert(item), t);
    SameNewItem(d, e, m, item, t);
    if UpsertAccepted(m, item) {
      NewItemIsAnswered(m, item, t);
      forall i | 0 <= i < |ItemsAt(m, item.scope)| && ItemsAt(m, item.scope)[i].id == item.id
        ensures ReplacedAnswered(e, m, item.scope, i, Rewritten(m, ItemsAt(m, item.scope)[i], item.payload, t))
      {
        UpsertOfStored(m, item, t, i);
        SameChange(m, item.scope, d, e, i, Rewritten(m, ItemsAt(m, item.scope)[i], item.payload, t));
      }
    }
  }

  // ---------- Update ----------

  predicate UpdateAccepted(m: Mem, item: Entry) {
    && item.scope != "" && m.codec.keyOk(item.scope) && item.scope != EVENTS && item.scope != INBOX
    && Given(item.id, item.seqNo, item.uuid) == 1
    && (item.id != "" ==> m.codec.keyOk(item.id)) && (item.uuid.Some? ==> IsV7(item.uuid.value))
    && m.codec.payloadOk(item.payload) && item.ts == 0
    && StoredSize(m.codec, item) <= m.cfg.maxItemBytes
  }

  /** The entry has the one address that is given. */
  predicate Meant(id: string, seqNo: nat, uuid: Option<Uuid>, e: Entry) {
    if id != "" then e.id == id else if uuid.Some? then e.uuid == uuid else e.seqNo == seqNo
  }

  /** An update of entry `i`: by sequence number or uuid it is refused if the entry would become too large. */
  ghost predicate UpdateAnswered(d: Done, m: Mem, item: Entry, t: Tick, i: nat)
    requires i < |ItemsAt(m, item.scope)|
  {
    var e := Rewritten(m, ItemsAt(m, item.scope)[i], item.payload, t);
    if item.id == "" && Size(e) > m.cfg.maxItemBytes then RefusedWith(d, m, ItemTooLarge(Size(e), m.cfg.maxItemBytes))
    else ReplacedAnswered(d, m, item.scope, i, e)
  }

  lemma UpdateIsAccepted(m: Mem, item: Entry, t: Tick)
    requires FromClient(item)
    ensures Mutation(m, StoreSpec.Update(item), t) ==
      if !UpdateAccepted(m, item) then Refuse(m, InvalidInput)
      else if item.scope !in m.scopes then Done(m, None, false, 0, None, false)
      else TryWrite(m, item.scope, UpdateOf(Filled(m, item)), t.now, t.minted)
    ensures UpdateAccepted(m, item) ==> item.scope != EVENTS && item.scope != INBOX
                                        && (item.id == "" && item.uuid.None? ==> item.seqNo != 0)
  {
    UpdateItemAccepted(m.codec, item, m.cfg.maxItemBytes);
    hide RenderFor, StoredSize, TryWrite;
  }

  lemma {:induction false} UpdatePlan(m: Mem, item: Entry, t: Tick, i: nat)
    requires m.cfg.Sane() && item.scope != EVENTS && item.scope != INBOX
    requires i < |ItemsAt(m, item.scope)| && Meant(item.id, item.seqNo, item.uuid, ItemsAt(m, item.scope)[i])
    requires WellFormed(ScopeAt(m, item.scope)) && ItemsAt(m, item.scope) == ScopeAt(m, item.scope).items
    requires ItemsAt(m, item.scope)[i].uuid.Some?
    ensures var n, w := item.scope, UpdateOf(Filled(m, item));
      var env, render := StoreSpec.EnvFor(m, n, t.now, t.minted), RenderFor(m.codec, item.payload, None);
      var p := PlanOf(ScopeAt(m, n), w, env);
      if item.id != "" then Overwrites(p, ScopeAt(m, n), i, item.payload, render, env)
      else OverwritesIfSmall(p, ScopeAt(m, n), i, item.payload, render, env)
  {
    var n := item.scope;
    UpdateRefusals(ScopeAt(m, n), i, item.payload, RenderFor(m.codec, item.payload, None),
      StoreSpec.EnvFor(m, n, t.now, t.minted));
    hide PlanOf, RenderFor, Overwrites, OverwritesIfSmall, WellFormed, Config.MaxItemsFor, Config.MaxItemBytesFor;
  }

  lemma SizeOfRewritten(m: Mem, e: Entry, payload: Bytes, t: Tick)
    requires e.uuid.Some?
    ensures SizeWith(m.codec, e, payload, RenderFor(m.codec, payload, None)) == Size(Rewritten(m, e, payload, t))
  {
    RenderedOnce(m.codec, payload);
    hide RenderFor;
  }

  lemma UserCaps(m: Mem, n: string, t: Tick)
    requires m.cfg.Sane() && n != EVENTS && n != INBOX
    ensures StoreSpec.EnvFor(m, n, t.now, t.minted)
      == Env(m.codec, true, m.cfg.scopeMaxItems, m.cfg.maxItemBytes, t.now, t.minted)
  {
  }

  lemma {:induction false} UpdateOfStored(m: Mem, item: Entry, t: Tick, i: nat)
    requires StoreOk(m) && FromClient(item) && UpdateAccepted(m, item)
    requires i < |ItemsAt(m, item.scope)| && Meant(item.id, item.seqNo, item.uuid, ItemsAt(m, item.scope)[i])
    ensures UpdateAnswered(Mutation(m, StoreSpec.Update(item), t), m, item, t, i)
  {
    var n := item.scope;
    UpdateIsAccepted(m, item, t);
    ScopeIsOrdered(m, n);
    ScopeIsSane(m);
    AllHaveUuids(m, n);
    UserCaps(m, n, t);
    hide StoreOk, Mutation, UpdateAccepted, PlanOf, TryWrite, RenderFor, StoredSize, SizeWith, Overwrites, Meant,
      WellFormed, Size, UpdateOf, StoreSpec.EnvFor, Rewritten, ReplacedAnswered, PlansChange, Wrote, Idle;
    UpdatePlan(m, item, t, i);
    var w, env := UpdateOf(Filled(m, item)), StoreSpec.EnvFor(m, n, t.now, t.minted);
    var p, e := PlanOf(ScopeAt(m, n), w, env), Rewritten(m, ItemsAt(m, n)[i], item.payload, t);
    SizeOfRewritten(m, ItemsAt(m, n)[i], item.payload, t);
    if p.Ready? {
      OverwriteIsChange(m, n, p, i, item.payload, t);
      ChangeIsAnswered(m, n, w, t, i, e);
    } else {
      WriteAnswer(m, n, w, t.now, t.minted);
    }
  }

  lemma AllHaveUuids(m: Mem, n: string)
    requires StoreOk(m)
    ensures forall i :: 0 <= i < |ItemsAt(m, n)| ==> ItemsAt(m, n)[i].uuid.Some?
  {
    forall i | 0 <= i < |ItemsAt(m, n)| ensures ItemsAt(m, n)[i].uuid.Some? {
      assert ItemsAt(m, n)[i] in m.scopes[n].items;
    }
  }

  lemma {:induction false} UpdateOfNothing(m: Mem, item: Entry, t: Tick)
    requires StoreOk(m) && FromClient(item) && UpdateAccepted(m, item)
    requires forall i :: 0 <= i < |ItemsAt(m, item.scope)| ==>
      !Meant(item.id, item.seqNo, item.uuid, ItemsAt(m, item.scope)[i])
    ensures var d := Mutation(m, StoreSpec.Update(item), t); d.error == None && Idle(d, m)
  {
    var n := item.scope;
    UpdateIsAccepted(m, item, t);
    ScopeIsOrdered(m, n);
    NothingMeant(ScopeAt(m, n), Filled(m, item), StoreSpec.EnvFor(m, n, t.now, t.minted));
    hide StoreOk, Mutation, UpdateAccepted, PlanOf, TryWrite, RenderFor, StoreSpec.EnvFor, Meant, UpdateOf, WellFormed;
    if n in m.scopes {
      WriteAnswer(m, n, UpdateOf(Filled(m, item)), t.now, t.minted);
    }
  }

  lemma NothingMeant(s: Scope, item: Entry, env: Env)
    ensures (forall i :: 0 <= i < |s.items| ==> !Meant(item.id, item.seqNo, item.uuid, s.items[i])) ==>
      PlanOf(s, UpdateOf(item), env).Miss?
  {
    UpdateMisses(s, item.payload, item.render, env);
    hide PlanOf;
  }

  /** An update is refused for its shape first. It misses, without a trace, if and only if nothing has its
      address; otherwise it overwrites exactly the entry that does. */
  lemma {:induction false} UpdateAnswer(m: Mem, item: Entry, t: Tick)
    requires StoreOk(m) && Conserved(m) && FreshTick(m, t) && FromClient(item)
    ensures var d, items := Exec(m, StoreSpec.Update(item), t), ItemsAt(m, item.scope);
      if !UpdateAccepted(m, item) then RefusedWith(d, m, InvalidInput)
      else
        && ((forall i :: 0 <= i < |items| ==> !Meant(item.id, item.seqNo, item.uuid, items[i])) ==>
             d.error == None && Idle(d, m))
        && (forall i :: 0 <= i < |items| && Meant(item.id, item.seqNo, item.uuid, items[i]) ==>
             UpdateAnswered(d, m, item, t, i))
  {
    AnswerIsMutation(m, StoreSpec.Update(item), t);
    UpdateIsAccepted(m, item, t);
    var d, e := Mutation(m, StoreSpec.Update(item), t), Exec(m, StoreSpec.Update(item), t);
    var items := ItemsAt(m, item.scope);
    hide *;
    SameRefusal(m, item.scope, d, e);
    if UpdateAccepted(m, item) {
      if forall i :: 0 <= i < |items| ==> !Meant(item.id, item.seqNo, item.uuid, items[i]) {
        UpdateOfNothing(m, item, t);
      }
      forall i | 0 <= i < |items| && Meant(item.id, item.seqNo, item.uuid, items[i])
        ensures UpdateAnswered(e, m, item, t, i)
      {
        UpdateOfStored(m, item, t, i);
        SameUpdate(m, item, t, d, e, i);
      }
    }
  }

  lemma SameRefusal(m: Mem, n: string, d: Done, e: Done)
    requires SameAnswer(m, n, d, e)
    ensures forall x :: RefusedWith(d, m, x) ==> RefusedWith(e, m, x)
    ensures Idle(d, m) ==> Idle(e, m) && e.error == d.error
  {
  }

  lemma SameUpdate(m: Mem, item: Entry, t: Tick, d: Done, e: Done, i: nat)
    requires SameAnswer(m, item.scope, d, e) && i < |ItemsAt(m, item.scope)| && UpdateAnswered(d, m, item, t, i)
    ensures UpdateAnswered(e, m, item, t, i)
  {
    SameChange(m, item.scope, d, e, i, Rewritten(m, ItemsAt(m, item.scope)[i], item.payload, t));
    hide ItemsAt, Size, Rewritten, ReplacedAnswered;
  }

  // ---------- Counter add ----------

  predicate CounterAccepted(m: Mem, n: string, id: string, add: int) {
    && n != "" && m.codec.keyOk(n) && n != EVENTS && n != INBOX && id != "" && m.codec.keyOk(id)
    && add != 0 && CountsTo(add) && CounterCost(n, id) <= m.cfg.maxItemBytes
  }

  /** What every counter costs. */
  function CounterCost(n: string, id: string): nat {
    48 + |n| + |id| + 56 + 36
  }

  /** The counter an addition to a missing id creates. */
  function NewCounter(m: Mem, n: string, id: string, add: int, t: Tick): Entry {
    Entry(n, id, NewestAt(m, n) + 1, t.now, Some(t.minted), [], None, Some(Counter(add, t.now)))
  }

  /** A reader of the entry written sees this number. */
  ghost predicate SeenAsNumber(m: Mem, d: Done, number: int) {
    d.error == None ==>
      d.item.Some? && forall seen :: SeenAs(m.codec, d.item.value, seen) ==> seen.payload == m.codec.showInt(number)
  }

  /** An addition to entry `i`, which may hold no number, or one too large to add to. */
  ghost predicate AdditionAnswered(d: Done, m: Mem, n: string, i: nat, add: int, t: Tick)
    requires i < |ItemsAt(m, n)|
  {
    var e := ItemsAt(m, n)[i];
    && ((forall k :: !Reads(m.codec, e, k)) ==> RefusedWith(d, m, CounterPayload))
    && forall k :: Reads(m.codec, e, k) ==> SumAnswered(d, m, n, i, k, add, t)
  }

  /** An addition to a missing id: room for the scope, a full scope, room for the counter. */
  ghost predicate NewCounterAnswered(d: Done, m: Mem, n: string, id: string, add: int, t: Tick) {
    var e, max := NewCounter(m, n, id, add, t), m.cfg.maxStoreBytes;
    if NoRoom(m, ScopeCost(m, n)) then RefusedWith(d, m, StoreFull(m.total, 1024, max))
    else if |ItemsAt(m, n)| >= m.cfg.scopeMaxItems then
      RefusedWith(d, m, ScopeFull(|ItemsAt(m, n)|, m.cfg.scopeMaxItems))
    else if NoRoom(m, ScopeCost(m, n) + CounterCost(n, id)) then
      RefusedWith(d, m, StoreFull(m.total + ScopeCost(m, n), CounterCost(n, id), max))
    else Wrote(d, n, ItemsAt(m, n) + [e], e, true) && SeenAsNumber(m, d, add)
  }

  lemma CounterIsAccepted(m: Mem, n: string, id: string, add: int, t: Tick)
    requires m.cfg.Sane()
    ensures Mutation(m, StoreSpec.CounterAdd(n, id, add), t) ==
      if !CounterAccepted(m, n, id, add) then Refuse(m, InvalidInput)
      else TryWrite(m, n, ScopeSpec.CounterAdd(n, id, add), t.now, t.minted)
  {
    CounterAddAccepted(m.codec, n, id, add, m.cfg.MaxItemBytesFor(n));
    hide TryWrite, CounterAddOk;
  }

  /** The addition to entry `i`, which reads as `k`. */
  ghost predicate SumAnswered(d: Done, m: Mem, n: string, i: nat, k: int, add: int, t: Tick)
    requires i < |ItemsAt(m, n)|
  {
    if !CountsTo(k + add) then RefusedWith(d, m, CounterOverflow(k, add))
    else ReplacedAnswered(d, m, n, i, Summed(ItemsAt(m, n)[i], k + add, t.now)) && SeenAsNumber(m, d, k + add)
  }

  lemma {:induction false} SumPlan(m: Mem, n: string, add: int, t: Tick, i: nat, k: int)
    requires StoreOk(m) && i < |ItemsAt(m, n)| && ItemsAt(m, n)[i].id != "" && Reads(m.codec, ItemsAt(m, n)[i], k)
    ensures var w := ScopeSpec.CounterAdd(n, ItemsAt(m, n)[i].id, add);
      var p := PlanOf(ScopeAt(m, n), w, StoreSpec.EnvFor(m, n, t.now, t.minted));
      if CountsTo(k + add) then PlansChange(m, n, p, i, Summed(ItemsAt(m, n)[i], k + add, t.now))
      else p == Refused(CounterOverflow(k, add))
  {
    ScopeIsOrdered(m, n);
    hide StoreOk, PlanOf, WellFormed, Reads, Summed, Size, CountsTo;
    CounterAddsUp(ScopeAt(m, n), n, i, add, StoreSpec.EnvFor(m, n, t.now, t.minted));
  }

  lemma HoldsItems(m: Mem, n: string)
    requires StoreOk(m) && ItemsAt(m, n) != []
    ensures n in m.scopes && m.total <= m.cfg.maxStoreBytes
  {
  }

  lemma {:induction false} SumOf(m: Mem, n: string, add: int, t: Tick, i: nat, k: int)
    requires StoreOk(m) && i < |ItemsAt(m, n)| && ItemsAt(m, n)[i].id != "" && Reads(m.codec, ItemsAt(m, n)[i], k)
    ensures var d := TryWrite(m, n, ScopeSpec.CounterAdd(n, ItemsAt(m, n)[i].id, add), t.now, t.minted);
      if !CountsTo(k + add) then RefusedWith(d, m, CounterOverflow(k, add))
      else ReplacedAnswered(d, m, n, i, Summed(ItemsAt(m, n)[i], k + add, t.now)) && SeenAsNumber(m, d, k + add)
  {
    hide *;
    HoldsItems(m, n);
    SumPlan(m, n, add, t, i, k);
    var w := ScopeSpec.CounterAdd(n, ItemsAt(m, n)[i].id, add);
    if CountsTo(k + add) { AdditionLands(m, n, w, t, i, k + add); } else { RefusalIsAnswered(m, n, w, t); }
  }

  lemma {:induction false} NoNumber(m: Mem, n: string, add: int, t: Tick, i: nat)
    requires StoreOk(m) && i < |ItemsAt(m, n)| && ItemsAt(m, n)[i].id != ""
    requires forall k :: !Reads(m.codec, ItemsAt(m, n)[i], k)
    ensures var w := ScopeSpec.CounterAdd(n, ItemsAt(m, n)[i].id, add);
      RefusedWith(TryWrite(m, n, w, t.now, t.minted), m, CounterPayload)
  {
    ScopeIsOrdered(m, n);
    hide StoreOk, PlanOf, TryWrite, WellFormed, Reads, Summed, Size;
    var w, env := ScopeSpec.CounterAdd(n, ItemsAt(m, n)[i].id, add), StoreSpec.EnvFor(m, n, t.now, t.minted);
    CounterAddsUp(ScopeAt(m, n), n, i, add, env);
    RefusalIsAnswered(m, n, w, t);
  }

  lemma {:induction false} AdditionToStored(m: Mem, n: string, id: string, add: int, t: Tick, i: nat)
    requires StoreOk(m) && i < |ItemsAt(m, n)| && ItemsAt(m, n)[i].id == id != ""
    ensures AdditionAnswered(TryWrite(m, n, ScopeSpec.CounterAdd(n, id, add), t.now, t.minted), m, n, i, add, t)
  {
    hide StoreOk, TryWrite, Reads, RefusedWith, ReplacedAnswered, SeenAsNumber, Summed, CountsTo, ItemsAt;
    if forall k :: !Reads(m.codec, ItemsAt(m, n)[i], k) { NoNumber(m, n, add, t, i); }
    forall k | Reads(m.codec, ItemsAt(m, n)[i], k)
      ensures SumAnswered(TryWrite(m, n, ScopeSpec.CounterAdd(n, id, add), t.now, t.minted), m, n, i, k, add, t)
    {
      SumOf(m, n, add, t, i, k);
    }
  }

  lemma RefusalIsAnswered(m: Mem, n: string, w: Write, t: Tick)
    requires n in m.scopes
    ensures var p := PlanOf(ScopeAt(m, n), w, StoreSpec.EnvFor(m, n, t.now, t.minted));
      p.Refused? ==> RefusedWith(TryWrite(m, n, w, t.now, t.minted), m, p.error)
  {
    hide PlanOf, SizeSum;
  }

  lemma {:induction false} AdditionLands(m: Mem, n: string, w: Write, t: Tick, i: nat, sum: int)
    requires i < |ItemsAt(m, n)| && m.total <= m.cfg.maxStoreBytes
    requires PlansChange(m, n, PlanOf(ScopeAt(m, n), w, StoreSpec.EnvFor(m, n, t.now, t.minted)), i,
      Summed(ItemsAt(m, n)[i], sum, t.now))
    ensures var d := TryWrite(m, n, w, t.now, t.minted);
      ReplacedAnswered(d, m, n, i, Summed(ItemsAt(m, n)[i], sum, t.now)) && SeenAsNumber(m, d, sum)
  {
    hide PlanOf, TryWrite, Size, Summed, SeenAs;
    ChangeIsAnswered(m, n, w, t, i, Summed(ItemsAt(m, n)[i], sum, t.now));
    SumIsSeen(m.codec, ItemsAt(m, n)[i], sum, t.now);
  }

  lemma SumIsSeen(codec: Codec, e: Entry, sum: int, now: int)
    ensures forall seen :: SeenAs(codec, Summed(e, sum, now), seen) ==> seen.payload == codec.showInt(sum)
  {
  }

  lemma {:induction false} AdditionToNothing(m: Mem, n: string, id: string, add: int, t: Tick)
    requires m.cfg.Sane() && n != EVENTS && n != INBOX && !HasId(ItemsAt(m, n), id)
    ensures NewCounterAnswered(TryWrite(m, n, ScopeSpec.CounterAdd(n, id, add), t.now, t.minted), m, n, id, add, t)
  {
    UserCaps(m, n, t);
    hide PlanOf, TryWrite, StoreSpec.EnvFor, HasId;
    var w, env := ScopeSpec.CounterAdd(n, id, add), StoreSpec.EnvFor(m, n, t.now, t.minted);
    CounterStarts(ScopeAt(m, n), n, id, add, env);
    WriteAnswer(m, n, w, t.now, t.minted);
    var p := PlanOf(ScopeAt(m, n), w, env);
    if p.Ready? { assert p.after.items == ItemsAt(m, n) + [NewCounter(m, n, id, add, t)]; }
  }

  /** An addition is refused for its shape first. A stored number is added to and what readers see is the sum; a
      missing id becomes a counter, and the answer says so. */
  lemma {:induction false} CounterAnswer(m: Mem, n: string, id: string, add: int, t: Tick)
    requires StoreOk(m) && Conserved(m) && FreshTick(m, t)
    ensures var d := Exec(m, StoreSpec.CounterAdd(n, id, add), t);
      if !CounterAccepted(m, n, id, add) then RefusedWith(d, m, InvalidInput)
      else if !HasId(ItemsAt(m, n), id) then NewCounterAnswered(d, m, n, id, add, t)
      else forall i :: 0 <= i < |ItemsAt(m, n)| && ItemsAt(m, n)[i].id == id ==> AdditionAnswered(d, m, n, i, add, t)
  {
    var c := StoreSpec.CounterAdd(n, id, add);
    AnswerIsMutation(m, c, t);
    ScopeIsSane(m);
    CounterIsAccepted(m, n, id, add, t);
    var d, e := Mutation(m, c, t), Exec(m, c, t);
    if CounterAccepted(m, n, id, add) { CounterIsForUsers(m, n, id, add); }
    hide *;
    SameRefusal(m, n, d, e);
    if CounterAccepted(m, n, id, add) {
      if !HasId(ItemsAt(m, n), id) {
        AdditionToNothing(m, n, id, add, t);
        SameNewCounter(m, n, id, add, t, d, e);
      }
      forall i | 0 <= i < |ItemsAt(m, n)| && ItemsAt(m, n)[i].id == id ensures AdditionAnswered(e, m, n, i, add, t) {
        AdditionToStored(m, n, id, add, t, i);
        SameAddition(m, n, i, add, t, d, e);
      }
    }
  }

  lemma CounterIsForUsers(m: Mem, n: string, id: string, add: int)
    requires CounterAccepted(m, n, id, add)
    ensures n != EVENTS && n != INBOX && id != ""
  {
  }

  lemma SameNewCounter(m: Mem, n: string, id: string, add: int, t: Tick, d: Done, e: Done)
    requires SameAnswer(m, n, d, e) && NewCounterAnswered(d, m, n, id, add, t)
    ensures NewCounterAnswered(e, m, n, id, add, t)
  {
    hide NoRoom, ItemsAt, NewCounter, SeenAs;
  }

  lemma SameAddition(m: Mem, n: string, i: nat, add: int, t: Tick, d: Done, e: Done)
    requires SameAnswer(m, n, d, e) && i < |ItemsAt(m, n)| && AdditionAnswered(d, m, n, i, add, t)
    ensures AdditionAnswered(e, m, n, i, add, t)
  {
    forall x | ReplacedAnswered(d, m, n, i, x) ensures ReplacedAnswered(e, m, n, i, x) {
      SameChange(m, n, d, e, i, x);
    }
    hide NoRoom, ItemsAt, Size, SeenAs, ReplacedAnswered, Summed, Reads;
  }

  // ---------- Deletions ----------

  /** A removal that was carried out: of the items of scope `n` exactly those that are not `gone` are left, in
      their order, the answer is how many went, and the next number is the one it was before. */
  ghost predicate Removed(d: Done, m: Mem, n: string, gone: Entry -> bool) {
    && d.error == None && d.item == None && !d.created
    && (d.changed <==> d.hits > 0) && d.hits == |ItemsAt(m, n)| - |ItemsAt(d.mem, n)|
    && (d.hits > 0 <==> exists i :: 0 <= i < |ItemsAt(m, n)| && gone(ItemsAt(m, n)[i]))
    && (n in m.scopes <==> n in d.mem.scopes) && NewestAt(d.mem, n) == NewestAt(m, n)
    && Ordered(ItemsAt(d.mem, n))
    && forall e :: e in ItemsAt(d.mem, n) <==> e in ItemsAt(m, n) && !gone(e)
  }

  predicate DeleteAccepted(m: Mem, n: string, id: string, seqNo: nat, uuid: Option<Uuid>) {
    && n != "" && m.codec.keyOk(n) && Given(id, seqNo, uuid) == 1
    && (id != "" ==> m.codec.keyOk(id)) && (uuid.Some? ==> IsV7(uuid.value))
  }

  predicate DrainAccepted(m: Mem, n: string, maxSeq: nat, uuid: Option<Uuid>) {
    && n != "" && m.codec.keyOk(n) && Given("", maxSeq, uuid) == 1 && (uuid.Some? ==> IsV7(uuid.value))
  }

  /** The entry is at or before the boundary, given as a number or as the uuid of a stored entry. */
  predicate UpTo(items: seq<Entry>, maxSeq: nat, uuid: Option<Uuid>, e: Entry) {
    if uuid.Some? then exists i :: 0 <= i < |items| && items[i].uuid == uuid && e.seqNo <= items[i].seqNo
    else e.seqNo <= maxSeq
  }

  lemma {:induction false} RemovalAnswer(m: Mem, n: string, r: Removal, gone: Entry -> bool)
    requires StoreOk(m)
    requires forall e :: e in ItemsAt(m, n) ==> (gone(e) <==> ScopeLaws.Named(ScopeAt(m, n), r, e))
    ensures Removed(TryRemove(m, n, r), m, n, gone)
  {
    ScopeIsOrdered(m, n);
    hide StoreOk, Remove, SizeSum, WellFormed, ScopeLaws.Named;
    var s := ScopeAt(m, n);
    RemovedFromScope(s, r, gone);
    NothingToLose(s, r);
  }

  lemma NothingToLose(s: Scope, r: Removal)
    ensures s.items == [] ==> Remove(s, r).items == []
  {
  }

  lemma SameRemoval(m: Mem, n: string, d: Done, e: Done, gone: Entry -> bool)
    requires SameAnswer(m, n, d, e) && Removed(d, m, n, gone)
    ensures Removed(e, m, n, gone) && e.hits == d.hits
  {
    assert ItemsAt(d.mem, n) == ItemsAt(e.mem, n) && NewestAt(d.mem, n) == NewestAt(e.mem, n);
    hide ItemsAt, NewestAt, Ordered;
  }

  lemma RemovalsAreAccepted(m: Mem, n: string, id: string, seqNo: nat, maxSeq: nat, uuid: Option<Uuid>, t: Tick)
    ensures Mutation(m, Delete(n, id, seqNo, uuid), t) ==
      if !DeleteAccepted(m, n, id, seqNo, uuid) then Refuse(m, InvalidInput)
      else TryRemove(m, n, RemovalOf(id, seqNo, uuid))
    ensures Mutation(m, DeleteUpTo(n, maxSeq, uuid), t) ==
      if !DrainAccepted(m, n, maxSeq, uuid) then Refuse(m, InvalidInput)
      else TryRemove(m, n, PrefixOf(maxSeq, uuid))
  {
    DeletionAccepted(m.codec, n, id, seqNo, maxSeq, uuid);
    hide TryRemove;
  }

  lemma NamedAlike(m: Mem, n: string, id: string, seqNo: nat, maxSeq: nat, uuid: Option<Uuid>)
    ensures forall e :: e in ItemsAt(m, n) ==>
      (Meant(id, seqNo, uuid, e) <==> ScopeLaws.Named(ScopeAt(m, n), RemovalOf(id, seqNo, uuid), e))
    ensures forall e :: e in ItemsAt(m, n) ==>
      (UpTo(ItemsAt(m, n), maxSeq, uuid, e) <==> ScopeLaws.Named(ScopeAt(m, n), PrefixOf(maxSeq, uuid), e))
  {
  }

  lemma OneAtMost(m: Mem, n: string, id: string, seqNo: nat, uuid: Option<Uuid>)
    ensures TryRemove(m, n, RemovalOf(id, seqNo, uuid)).hits <= 1
  {
    hide SizeSum;
  }

  lemma RefuseIsRefused(m: Mem)
    ensures RefusedWith(Refuse(m, InvalidInput), m, InvalidInput)
  {
  }

  /** A deletion removes exactly the entry its one address means, and answers whether there was one. */
  lemma {:induction false} DeleteAnswer(m: Mem, n: string, id: string, seqNo: nat, uuid: Option<Uuid>, t: Tick)
    requires StoreOk(m) && Conserved(m) && FreshTick(m, t)
    ensures var d := Exec(m, Delete(n, id, seqNo, uuid), t);
      if !DeleteAccepted(m, n, id, seqNo, uuid) then RefusedWith(d, m, InvalidInput)
      else Removed(d, m, n, e => Meant(id, seqNo, uuid, e)) && d.hits <= 1
  {
    var c := Delete(n, id, seqNo, uuid);
    AnswerIsMutation(m, c, t);
    hide *;
    RemovalsAreAccepted(m, n, id, seqNo, 0, uuid, t);
    var d, e, gone := Mutation(m, c, t), Exec(m, c, t), (e: Entry) => Meant(id, seqNo, uuid, e);
    SameRefusal(m, n, d, e);
    RefuseIsRefused(m);
    if DeleteAccepted(m, n, id, seqNo, uuid) {
      NamedAlike(m, n, id, seqNo, 0, uuid);
      OneAtMost(m, n, id, seqNo, uuid);
      RemovalAnswer(m, n, RemovalOf(id, seqNo, uuid), gone);
      SameRemoval(m, n, d, e, gone);
    }
  }

  /** A drain removes exactly the entries at or before its boundary; a uuid nothing carries bounds nothing. */
  lemma {:induction false} DrainAnswer(m: Mem, n: string, maxSeq: nat, uuid: Option<Uuid>, t: Tick)
    requires StoreOk(m) && Conserved(m) && FreshTick(m, t)
    ensures var d := Exec(m, DeleteUpTo(n, maxSeq, uuid), t);
      if !DrainAccepted(m, n, maxSeq, uuid) then RefusedWith(d, m, InvalidInput)
      else Removed(d, m, n, e => UpTo(ItemsAt(m, n), maxSeq, uuid, e))
  {
    var c := DeleteUpTo(n, maxSeq, uuid);
    AnswerIsMutation(m, c, t);
    hide *;
    RemovalsAreAccepted(m, n, "", 0, maxSeq, uuid, t);
    var d, e, gone := Mutation(m, c, t), Exec(m, c, t), (e: Entry) => UpTo(ItemsAt(m, n), maxSeq, uuid, e);
    SameRefusal(m, n, d, e);
    RefuseIsRefused(m);
    if DrainAccepted(m, n, maxSeq, uuid) {
      NamedAlike(m, n, "", 0, maxSeq, uuid);
      RemovalAnswer(m, n, PrefixOf(maxSeq, uuid), gone);
      SameRemoval(m, n, d, e, gone);
    }
  }

  /** Deleting a scope removes it with every item, and answers how many there were; a missing one is a miss. */
  lemma {:induction false} DeleteScopeAnswer(m: Mem, n: string, t: Tick)
    requires StoreOk(m) && Conserved(m) && FreshTick(m, t)
    ensures var d := Exec(m, DeleteScope(n), t);
      if n == "" || !m.codec.keyOk(n) || n == EVENTS || n == INBOX then RefusedWith(d, m, InvalidInput)
      else if n !in m.scopes then d.error == None && Idle(d, m)
      else d.error == None && d.changed && d.hits == |m.scopes[n].items| && n !in d.mem.scopes
  {
    AnswerIsMutation(m, DeleteScope(n), t);
    CounterAddAccepted(m.codec, n, "", 0, 0);
    SameRefusal(m, n, Mutation(m, DeleteScope(n), t), Exec(m, DeleteScope(n), t));
    hide StoreOk, Conserved, FreshTick, Exec, DeleteScopeOk, SizeSum;
  }

  // ---------- Buffers and the store ----------

  /** What the buffer of a scope does with a write is what the store says of it: the same refusal or the same
      content, and the same total. */
  lemma {:induction false} BufferWriteIsStoreWrite(m: Mem, n: string, w: Write, now: int, minted: Uuid)
    requires StoreOk(m) && n in m.scopes && Admitted(m, n, w) && Fresh(m.scopes[n], minted)
    ensures var d, env := TryWrite(m, n, w, now, minted), StoreSpec.EnvFor(m, n, now, minted);
      var o := Effect(m.scopes[n], false, w, env, m.total, m.cfg.maxStoreBytes);
      && o.error == d.error && o.hit == d.changed && o.total == d.mem.total
      && n in d.mem.scopes && o.scope == d.mem.scopes[n]
  {
    hide *;
    assert n in m.scopes && ScopeAt(m, n) == m.scopes[n] by { StoredScope(m, n); }
    var p := PlanOf(m.scopes[n], w, StoreSpec.EnvFor(m, n, now, minted));
    if TryWrite(m, n, w, now, minted).changed {
      ReadyWriteKeeps(m, n, w, now, minted);
      SoundDelta(m.scopes[n], p);
    }
    EffectIsWrite(m, n, w, now, minted);
  }

  lemma StoredScope(m: Mem, n: string)
    requires n in m.scopes
    ensures ScopeAt(m, n) == m.scopes[n]
  {
  }

  lemma EffectIsWrite(m: Mem, n: string, w: Write, now: int, minted: Uuid)
    requires n in m.scopes
    requires var p := PlanOf(m.scopes[n], w, StoreSpec.EnvFor(m, n, now, minted));
      TryWrite(m, n, w, now, minted).changed ==>
        p.Ready? && SizeSum(p.after.items) == SizeSum(m.scopes[n].items) + p.delta
    ensures var d, env := TryWrite(m, n, w, now, minted), StoreSpec.EnvFor(m, n, now, minted);
      var o := Effect(m.scopes[n], false, w, env, m.total, m.cfg.maxStoreBytes);
      && o.error == d.error && o.hit == d.changed && o.total == d.mem.total
      && n in d.mem.scopes && o.scope == d.mem.scopes[n]
  {
    hide PlanOf, SizeSum;
  }

  lemma SoundDelta(s: Scope, p: Plan)
    requires p.Ready? && Sound(s, p)
    ensures SizeSum(p.after.items) == SizeSum(s.items) + p.delta
  {
  }
}
