/** What one scope answers, in terms of its items, its caps and the request alone: when exactly a write
    is refused and why, what it leaves, what a window shows, and when a batch can be built. */
module ScopeAnswers {
  import opened Types
  import opened ScopeSpec
  import opened Validation
  import ScopeLaws

  // ---------- Vocabulary ----------

  predicate HasId(items: seq<Entry>, id: string) {
    id != "" && exists i :: 0 <= i < |items| && items[i].id == id
  }

  /** The cap of zero stands for none. */
  predicate IsFull(items: seq<Entry>, cap: int) {
    cap > 0 && |items| >= cap
  }

  predicate TooLarge(env: Env, size: int) {
    env.attached && size > env.maxItemBytes
  }

  lemma FoundExactly(items: seq<Entry>, id: string)
    ensures FindId(items, id).Some? <==> HasId(items, id)
    ensures forall i :: 0 <= i < |items| && UniqueIds(items) && items[i].id == id != "" ==> FindId(items, id) == Some(i)
  {
    forall i | 0 <= i < |items| && UniqueIds(items) && items[i].id == id != "" ensures FindId(items, id) == Some(i) {
      FindIdIs(items, i);
    }
  }

  // ---------- Render bytes ----------

  predicate Blank(b: byte) {
    b == 0x20 || b == 0x09 || b == 0x0D || b == 0x0A
  }

  /** The first byte that is not blank is a quote. */
  predicate LooksLikeString(p: Bytes) {
    exists k :: 0 <= k < |p| && p[k] == 0x22 && forall j :: 0 <= j < k ==> Blank(p[j])
  }

  lemma {:induction false} TrimmedAt(p: Bytes) returns (k: nat)
    ensures k <= |p| && TrimLeft(p) == p[k..] && (forall j :: 0 <= j < k ==> Blank(p[j]))
    ensures k < |p| ==> !Blank(p[k])
  {
    if p != [] && Blank(p[0]) {
      var rest := TrimmedAt(p[1..]);
      k := rest + 1;
      assert forall j :: 1 <= j < |p| ==> p[j] == p[1..][j - 1];
      assert p[k..] == p[1..][rest..];
    } else {
      k := 0;
    }
  }

  /** Render bytes are kept for JSON strings only: the string decoded, whatever blanks come first. */
  lemma {:induction false} RenderedExactly(codec: Codec, payload: Bytes)
    ensures RenderFor(codec, payload, None) == if LooksLikeString(payload) then codec.jsonString(payload) else None
  {
    var k := TrimmedAt(payload);
    assert TrimLeft(payload) == payload[k..];
    assert k < |payload| ==> payload[k..][0] == payload[k];
  }

  // ---------- Refusals ----------

  /** When exactly an append is refused: a full scope first, then a taken id, then a large item. */
  lemma {:induction false} AppendRefusals(s: Scope, req: Entry, env: Env)
    ensures var p, size := PlanOf(s, Append(req), env), StoredSize(env.codec, req);
      var full, taken := IsFull(s.items, env.maxItems), HasId(s.items, req.id);
      && (p == Refused(ScopeFull(|s.items|, env.maxItems)) <==> full)
      && (p == Refused(DuplicateId) <==> !full && taken)
      && (p == Refused(ItemTooLarge(size, env.maxItemBytes)) <==> !full && !taken && TooLarge(env, size))
      && (p.Ready? <==> !full && !taken && !TooLarge(env, size))
  {
    FoundExactly(s.items, req.id);
    hide RenderFor, FindId;
  }

  /** The plan adds one entry at the end and nothing else: the request under the next number, stamped, and with
      a uuid of its own if the scope belongs to a store. */
  predicate Adds(p: Plan, s: Scope, req: Entry, env: Env) {
    && p.Ready? && p.created && p.at == |s.items| && |p.after.items| == |s.items| + 1
    && p.after.items[..|s.items|] == s.items && p.after.lastSeq == s.lastSeq + 1
    && p.after.items[p.at] == Entry(req.scope, req.id, s.lastSeq + 1, env.now,
         if env.attached && req.uuid.None? then Some(env.minted) else req.uuid,
         req.payload, RenderFor(env.codec, req.payload, req.render), None)
    && p.delta == Size(p.after.items[p.at])
  }

  lemma {:induction false} NewItemIsAdded(s: Scope, w: Write, env: Env)
    requires w.Append? || w.Upsert?
    requires PlanOf(s, w, env).Ready? && (w.Upsert? ==> !HasId(s.items, w.req.id))
    ensures Adds(PlanOf(s, w, env), s, w.req, env)
  {
    FoundExactly(s.items, w.req.id);
    hide RenderFor, FindId;
  }

  /** An upsert of a stored id is not refused by its scope; a new one like an append. */
  lemma {:induction false} UpsertRefusals(s: Scope, req: Entry, env: Env)
    ensures var p, size := PlanOf(s, Upsert(req), env), StoredSize(env.codec, req);
      var full, taken := IsFull(s.items, env.maxItems), HasId(s.items, req.id);
      && (p == Refused(ScopeFull(|s.items|, env.maxItems)) <==> !taken && full)
      && (p == Refused(ItemTooLarge(size, env.maxItemBytes)) <==> !taken && !full && TooLarge(env, size))
      && (p.Ready? <==> taken || (!full && !TooLarge(env, size)))
      && (p.Ready? ==> (p.created <==> !taken))
      && (forall i :: 0 <= i < |s.items| && UniqueIds(s.items) && s.items[i].id == req.id != "" ==>
           Overwrites(p, s, i, req.payload, req.render, env))
  {
    FoundExactly(s.items, req.id);
    hide RenderFor, FindId, UniqueIds;
  }

  /** The plan overwrites entry `i` and nothing else: a plain item with the payload and render bytes asked
      for and the present timestamp, at its old address. */
  predicate Overwrites(p: Plan, s: Scope, i: nat, payload: Bytes, render: Option<Bytes>, env: Env)
    requires i < |s.items|
  {
    && p.Ready? && p.at == i < |p.after.items| && !p.created
    && p.after == s.(items := s.items[i := p.after.items[i]])
    && SameAddress(p.after.items[i], s.items[i])
    && p.after.items[i].payload == payload && p.after.items[i].render == RenderFor(env.codec, payload, render)
    && p.after.items[i].ts == env.now && p.after.items[i].counter == None
    && p.delta == Size(p.after.items[i]) - Size(s.items[i])
  }

  lemma ReplaceOverwrites(s: Scope, i: nat, payload: Bytes, render: Option<Bytes>, env: Env)
    requires i < |s.items|
    ensures Overwrites(PlanReplace(s, i, payload, render, env), s, i, payload, render, env)
  {
    hide RenderFor;
  }

  /** The cost the entry would have with another payload. */
  function SizeWith(codec: Codec, e: Entry, payload: Bytes, render: Option<Bytes>): int {
    StoredSize(codec, e.(payload := payload, render := render)) - if e.uuid.None? then UUID_STRING_LEN else 0
  }

  /** The plan overwrites entry `i`, unless it would become too large. */
  predicate OverwritesIfSmall(p: Plan, s: Scope, i: nat, payload: Bytes, render: Option<Bytes>, env: Env)
    requires i < |s.items|
  {
    var size := SizeWith(env.codec, s.items[i], payload, render);
    if TooLarge(env, size) then p == Refused(ItemTooLarge(size, env.maxItemBytes))
    else Overwrites(p, s, i, payload, render, env)
  }

  lemma CheckedOverwrites(s: Scope, i: nat, payload: Bytes, render: Option<Bytes>, env: Env)
    requires i < |s.items|
    ensures OverwritesIfSmall(PlanChecked(s, i, payload, render, env), s, i, payload, render, env)
  {
    ReplaceOverwrites(s, i, payload, render, env);
    hide RenderFor, PlanReplace, Overwrites;
  }

  /** An update by id is never refused by its scope; by sequence number or uuid it is refused exactly when
      the stored item would become too large. */
  lemma {:induction false} UpdateRefusals(s: Scope, i: nat, payload: Bytes, render: Option<Bytes>, env: Env)
    requires WellFormed(s) && i < |s.items|
    ensures var e := s.items[i];
      && (e.id != "" ==> Overwrites(PlanOf(s, UpdateId(e.id, payload, render), env), s, i, payload, render, env))
      && OverwritesIfSmall(PlanOf(s, UpdateSeq(e.seqNo, payload, render), env), s, i, payload, render, env)
      && (e.uuid.Some? ==>
          OverwritesIfSmall(PlanOf(s, UpdateUuid(e.uuid.value, payload, render), env), s, i, payload, render, env))
  {
    if s.items[i].id != "" { FindIdIs(s.items, i); }
    FindSeqIs(s.items, i);
    if s.items[i].uuid.Some? { FindUuidIs(s.items, i); }
    ReplaceOverwrites(s, i, payload, render, env);
    CheckedOverwrites(s, i, payload, render, env);
    hide FindId, FindSeq, FindUuid, WellFormed, Overwrites, OverwritesIfSmall, PlanReplace, PlanChecked;
  }

  lemma {:induction false} UpdateMisses(s: Scope, payload: Bytes, render: Option<Bytes>, env: Env)
    ensures forall id :: PlanOf(s, UpdateId(id, payload, render), env).Miss? <==> !HasId(s.items, id)
    ensures forall n ::
      PlanOf(s, UpdateSeq(n, payload, render), env).Miss? <==> forall i :: 0 <= i < |s.items| ==> s.items[i].seqNo != n
    ensures forall u ::
      PlanOf(s, UpdateUuid(u, payload, render), env).Miss?
      <==> forall i :: 0 <= i < |s.items| ==> s.items[i].uuid != Some(u)
  {
    forall id ensures PlanOf(s, UpdateId(id, payload, render), env).Miss? <==> !HasId(s.items, id) {
      FoundExactly(s.items, id);
    }
    hide RenderFor, FindId, FindSeq, FindUuid;
  }

  predicate CountsTo(n: int) {
    -MAX_COUNTER <= n <= MAX_COUNTER
  }

  /** The number an addition starts from, if the entry is or can become a counter. */
  predicate Reads(codec: Codec, e: Entry, n: int) {
    if e.counter.Some? then n == e.counter.value.value else codec.jsonInt(e.payload) == Some(n) && CountsTo(n)
  }

  /** The entry once it counts to `sum`: under the later timestamp if it was a counter, under the present one
      if it becomes one and gives up its payload. */
  function Summed(e: Entry, sum: int, now: int): Entry {
    if e.counter.None? then e.(counter := Some(Counter(sum, now)), payload := [], render := None)
    else if e.counter.value.ts > now then e.(counter := Some(Counter(sum, e.counter.value.ts)))
    else e.(counter := Some(Counter(sum, now)))
  }

  /** An addition to a stored id: refused exactly when the item holds no number or the sum leaves the range.
      Otherwise exactly that item changes: it counts to the sum. */
  lemma {:induction false} CounterAddsUp(s: Scope, scope: string, i: nat, add: int, env: Env)
    requires WellFormed(s) && i < |s.items| && s.items[i].id != ""
    ensures var e, p := s.items[i], PlanOf(s, CounterAdd(scope, s.items[i].id, add), env);
      && (p == Refused(CounterPayload) <==> forall n :: !Reads(env.codec, e, n))
      && (forall n :: Reads(env.codec, e, n) ==>
           if !CountsTo(n + add) then p == Refused(CounterOverflow(n, add))
           else
             && p.Ready? && p.at == i < |p.after.items| == |s.items| && !p.created
             && p.after.items == s.items[i := Summed(e, n + add, env.now)]
             && p.delta == Size(Summed(e, n + add, env.now)) - Size(e))
  {
    FindIdIs(s.items, i);
    var e := s.items[i];
    var n := if e.counter.Some? then e.counter.value.value
             else if env.codec.jsonInt(e.payload).Some? then env.codec.jsonInt(e.payload).value else 0;
    assert e.counter.Some? ==> Reads(env.codec, e, n);
    assert e.counter.None? && ParseCounterValue(env.codec, e.payload).Some? ==> Reads(env.codec, e, n);
    hide FindId, WellFormed, SizeSum, Size;
  }

  /** An addition to a missing id: refused exactly by a full scope, otherwise a counter of that value. */
  lemma {:induction false} CounterStarts(s: Scope, scope: string, id: string, add: int, env: Env)
    requires !HasId(s.items, id)
    ensures var p := PlanOf(s, CounterAdd(scope, id, add), env);
      if IsFull(s.items, env.maxItems) then p == Refused(ScopeFull(|s.items|, env.maxItems))
      else
        && p.Ready? && p.created && p.at == |s.items| && |p.after.items| == |s.items| + 1
        && p.after.items[..|s.items|] == s.items && p.delta == Size(p.after.items[p.at])
        && p.after.items[p.at] == Entry(scope, id, s.lastSeq + 1, env.now,
             if env.attached then Some(env.minted) else None, [], None, Some(Counter(add, env.now)))
  {
    FoundExactly(s.items, id);
    hide FindId;
  }

  /** What was added is what is read: whoever reads the counter after an addition sees the number it started
      from plus the increment. */
  lemma {:induction false} AdditionIsRead(s: Scope, scope: string, i: nat, add: int, env: Env, n: int, seen: Entry)
    requires WellFormed(s) && i < |s.items| && s.items[i].id != "" && Reads(env.codec, s.items[i], n)
    requires PlanOf(s, CounterAdd(scope, s.items[i].id, add), env).Ready?
    ensures var p := PlanOf(s, CounterAdd(scope, s.items[i].id, add), env);
      && i < |p.after.items|
      && (SeenAs(env.codec, p.after.items[i], seen) ==> seen.id == s.items[i].id
                                                        && seen.payload == env.codec.showInt(n + add))
  {
    CounterAddsUp(s, scope, i, add, env);
    hide PlanOf, WellFormed;
  }

  // ---------- The byte budget ----------

  /** A write on a buffer: a detached buffer refuses everything; a plan that is ready is refused by the
      budget exactly when it grows the store past its cap; otherwise the store's bytes move by exactly what
      the scope's bytes moved. */
  lemma {:induction false} BudgetDecides(s: Scope, detached: bool, w: Write, env: Env, total: int, max: int)
    requires WellFormed(s) && FreshFor(s, w, env)
    ensures var p, o := PlanOf(s, w, env), Effect(s, detached, w, env, total, max);
      && (o.error == Some(ScopeDetached) <==> detached)
      && (!detached && p.Refused? ==> o.error == Some(p.error))
      && (!detached && !p.Refused? ==>
           (o.error.Some? <==> p.Ready? && env.attached && SizeSum(p.after.items) > SizeSum(s.items)
                               && total + SizeSum(p.after.items) - SizeSum(s.items) > max))
      && (o.error.Some? ==> o.scope == s && o.total == total && !o.hit)
      && (o.error.None? ==>
           && o.hit == p.Ready? && o.scope == (if p.Ready? then p.after else s)
           && o.total == total + if env.attached then SizeSum(o.scope.items) - SizeSum(s.items) else 0)
  {
    if PlanOf(s, w, env).Ready? { WriteIsSound(s, w, env); }
    PlansNeverDetach(s, w, env);
    hide PlanOf, WellFormed, SizeSum, Fresh;
  }

  lemma PlansNeverDetach(s: Scope, w: Write, env: Env)
    ensures PlanOf(s, w, env) != Refused(ScopeDetached)
  {
    hide RenderFor, FindId, FindSeq, FindUuid, Size, Pushed;
  }

  // ---------- Removals ----------

  /** A removal leaves exactly the entries that are not gone, in their order, and the cursor; it is shorter
      exactly if one of them went. */
  lemma {:induction false} RemovedFromScope(s: Scope, r: Removal, gone: Entry -> bool)
    requires WellFormed(s) && forall e :: e in s.items ==> (gone(e) <==> ScopeLaws.Named(s, r, e))
    ensures var left := Remove(s, r);
      && Ordered(left.items) && left.lastSeq == s.lastSeq && |left.items| <= |s.items|
      && (forall e :: e in left.items <==> e in s.items && !gone(e))
      && (|left.items| < |s.items| <==> exists i :: 0 <= i < |s.items| && gone(s.items[i]))
  {
    var left := Remove(s, r);
    RemovalIsSound(s, r);
    forall e ensures e in left.items <==> e in s.items && !ScopeLaws.Named(s, r, e) {
      ScopeLaws.RemovalRemovesExactly(s, r, e);
    }
    hide Remove, SizeSum, WellFormed, ScopeLaws.Named, Ordered;
    assert Ordered(left.items) && Ordered(s.items) by { BothOrdered(s, left); }
    if forall i :: 0 <= i < |s.items| ==> !gone(s.items[i]) {
      SameMembers(s.items, left.items);
    } else if |left.items| == |s.items| {
      assert left == s;
      var i :| 0 <= i < |s.items| && gone(s.items[i]);
      assert s.items[i] in s.items;
    }
  }

  lemma BothOrdered(a: Scope, b: Scope)
    requires WellFormed(a) && WellFormed(b)
    ensures Ordered(a.items) && Ordered(b.items)
  {
  }

  /** Two ascending lists of the same entries are the same. */
  lemma {:induction false} SameMembers(a: seq<Entry>, b: seq<Entry>)
    requires Ordered(a) && Ordered(b) && forall e :: e in a <==> e in b
    ensures a == b
  {
    HeadIsIn(a);
    HeadIsIn(b);
    if a != [] {
      assert a[0] == b[0];
      forall e ensures e in a[1..] <==> e in b[1..] {
        InRest(a, e);
        InRest(b, e);
      }
      SameMembers(a[1..], b[1..]);
      assert a == [a[0]] + a[1..] && b == [b[0]] + b[1..];
    }
  }

  lemma HeadIsIn(a: seq<Entry>)
    ensures a != [] ==> a[0] in a
  {
  }

  lemma InRest(a: seq<Entry>, e: Entry)
    requires Ordered(a) && a != []
    ensures e in a[1..] <==> e in a && e != a[0]
  {
    if e in a && e != a[0] {
      var i :| 0 <= i < |a| && a[i] == e;
      assert a[1..][i - 1] == e;
    }
  }

  // ---------- The uuid span ----------

  /** The first uuid a scope ever held stays; the last one is that of the newest entry written. */
  lemma {:induction false} SpanFollows(s: Scope, w: Write, env: Env)
    requires WellFormed(s) && FreshFor(s, w, env) && PlanOf(s, w, env).Ready?
    ensures var p := PlanOf(s, w, env);
      && (s.firstUuid.Some? ==> p.after.firstUuid == s.firstUuid)
      && (!p.created ==> p.after.firstUuid == s.firstUuid && p.after.lastUuid == s.lastUuid)
      && (p.created ==> |p.after.items| > 0 && var u := p.after.items[|p.after.items| - 1].uuid;
           && (u.Some? ==> p.after.lastUuid == u && p.after.firstUuid.Some?)
           && (u.Some? && s.firstUuid.None? ==> p.after.firstUuid == u)
           && (u.None? ==> p.after.firstUuid == s.firstUuid && p.after.lastUuid == s.lastUuid))
  {
    hide RenderFor, FindId, FindSeq, FindUuid, Size, WellFormed, Fresh, ParseCounterValue;
  }

  // ---------- Windows ----------

  /** The tail window: as many entries as asked for or as there are, ending `offset` entries before the
      newest, and older ones remain exactly when it does not reach the first entry. */
  lemma {:induction false} TailWindowIs(items: seq<Entry>, limit: int, offset: int)
    ensures var (out, more) := TailWindow(items, limit, offset);
      if limit <= 0 || offset < 0 || offset >= |items| then out == [] && !more
      else
        && |out| == (if limit < |items| - offset then limit else |items| - offset)
        && (forall k :: 0 <= k < |out| ==> out[k] == items[|items| - offset - |out| + k])
        && (more <==> |items| - offset - |out| > 0)
  {
  }

  /** The head window: the first entries beyond the cursor, and more remain exactly when another one
      beyond the cursor comes after the window. */
  lemma {:induction false} HeadWindowIs(items: seq<Entry>, afterSeq: nat, limit: int) returns (k: nat)
    requires Ordered(items)
    ensures k <= |items|
    ensures forall i :: 0 <= i < k ==> items[i].seqNo <= afterSeq
    ensures forall i :: k <= i < |items| ==> items[i].seqNo > afterSeq
    ensures var (out, more) := HeadWindow(items, afterSeq, limit);
      if limit <= 0 then out == [] && !more
      else if |items| - k <= limit then out == items[k..] && !more
      else out == items[k..k + limit] && more
  {
    k := Cut(items, afterSeq);
    AfterIsSuffix(items, afterSeq, k);
    hide After, Cut, Ordered;
    if 0 < limit < |items| - k {
      assert items[k..][..limit] == items[k..k + limit];
    }
  }

  // ---------- Batches ----------

  function UuidOf(req: Entry, minted: Uuid): Uuid {
    if req.uuid.Some? then req.uuid.value else minted
  }

  /** Two items of the batch ask for the same id, or would have the same uuid. */
  predicate Clash(reqs: seq<Entry>, mints: seq<Uuid>)
    requires |mints| == |reqs|
  {
    exists i, j :: 0 <= i < j < |reqs| &&
      ((reqs[i].id != "" && reqs[i].id == reqs[j].id) || UuidOf(reqs[i], mints[i]) == UuidOf(reqs[j], mints[j]))
  }

  lemma {:induction false} BuildableExactly(codec: Codec, reqs: seq<Entry>, now: int, mints: seq<Uuid>)
    requires |mints| == |reqs|
    ensures Buildable(codec, reqs, now, mints) <==> !Clash(reqs, mints)
  {
    hide RenderFor;
    var c := BuiltEntries(codec, reqs, now, mints);
    assert forall i :: 0 <= i < |reqs| ==> c[i].id == reqs[i].id && c[i].uuid == Some(UuidOf(reqs[i], mints[i]));
  }

  /** An item that comes with a batch is stored exactly as an append stores it, with the same render bytes
      and the same cost; only its number is its place in the batch. */
  lemma {:induction false} BatchedLikeAppended(s: Scope, req: Entry, env: Env, reqs: seq<Entry>, i: nat,
    mints: seq<Uuid>)
    requires i < |reqs| == |mints| && reqs[i] == req && env.minted == mints[i] && env.attached
    requires PlanOf(s, Append(req), env).Ready?
    ensures var p, b := PlanOf(s, Append(req), env), Built(env.codec, reqs, env.now, mints);
      && p.at < |p.after.items| && i < |b.items|
      && b.items[i] == p.after.items[p.at].(seqNo := i + 1)
      && Size(b.items[i]) == Size(p.after.items[p.at]) == p.delta
  {
    hide RenderFor, FindId;
  }
}
