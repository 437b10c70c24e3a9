/** What every operation on one scope does to the scope seen as a plain list of entries.
    Nothing here knows about slices, hash indexes, binary search or incremental counters. */
module ScopeSpec {
  import opened Types

  datatype Scope = Scope(items: seq<Entry>, lastSeq: nat, firstUuid: Option<Uuid>, lastUuid: Option<Uuid>)

  const EMPTY_SCOPE := Scope([], 0, None, None)

  /** What a write depends on besides the scope: the caps installed at scope creation, whether
      the scope belongs to a store, the clock and the uuid minted before the lock was taken. */
  datatype Env = Env(codec: Codec, attached: bool, maxItems: int, maxItemBytes: int, now: int, minted: Uuid)

  datatype Write =
    | Append(req: Entry)
    | Upsert(req: Entry)
    | UpdateId(id: string, payload: Bytes, render: Option<Bytes>)
    | UpdateSeq(seqNo: nat, payload: Bytes, render: Option<Bytes>)
    | UpdateUuid(uuid: Uuid, payload: Bytes, render: Option<Bytes>)
    | CounterAdd(scope: string, id: string, add: int)

  datatype Removal =
    | DeleteId(id: string)
    | DeleteSeq(seqNo: nat)
    | DeleteUuid(uuid: Uuid)
    | UpToSeq(maxSeq: nat)
    | UpToUuid(uuid: Uuid)

  /** What a write wants to do before the byte budget has been asked: nothing, be refused, or
      change the budget by `delta` and leave `after`, with the touched entry at index `at`. */
  datatype Plan =
    | Miss
    | Refused(error: WriteError)
    | Ready(delta: int, after: Scope, at: nat, created: bool)

  // ---------- Well-formed scopes ----------

  predicate Ordered(items: seq<Entry>) {
    forall i, j :: 0 <= i < j < |items| ==> items[i].seqNo < items[j].seqNo
  }

  predicate UniqueIds(items: seq<Entry>) {
    forall i, j :: 0 <= i < j < |items| && items[i].id == items[j].id ==> items[i].id == ""
  }

  predicate UniqueUuids(items: seq<Entry>) {
    forall i, j :: 0 <= i < j < |items| && items[i].uuid == items[j].uuid ==> items[i].uuid.None?
  }

  predicate WellFormed(s: Scope) {
    && Ordered(s.items)
    && UniqueIds(s.items)
    && UniqueUuids(s.items)
    && forall i :: 0 <= i < |s.items| ==> 0 < s.items[i].seqNo <= s.lastSeq
  }

  predicate Fresh(s: Scope, u: Uuid) {
    forall i :: 0 <= i < |s.items| ==> s.items[i].uuid != Some(u)
  }

  // ---------- Lookups ----------

  function FindId(items: seq<Entry>, id: string): (r: Option<nat>)
    ensures r.Some? ==> r.value < |items| && items[r.value].id == id != ""
    ensures r.None? ==> id == "" || forall i :: 0 <= i < |items| ==> items[i].id != id
  {
    if items == [] || id == "" then None
    else if items[0].id == id then Some(0)
    else
      var rest := FindId(items[1..], id);
      if rest.None? then
        assert forall i :: 1 <= i < |items| ==> items[i] == items[1..][i - 1];
        None
      else Some(rest.value + 1)
  }

  function FindSeq(items: seq<Entry>, n: nat): (r: Option<nat>)
    ensures r.Some? ==> r.value < |items| && items[r.value].seqNo == n
    ensures r.None? ==> forall i :: 0 <= i < |items| ==> items[i].seqNo != n
  {
    if items == [] then None
    else if items[0].seqNo == n then Some(0)
    else
      var rest := FindSeq(items[1..], n);
      if rest.None? then
        assert forall i :: 1 <= i < |items| ==> items[i] == items[1..][i - 1];
        None
      else Some(rest.value + 1)
  }

  function FindUuid(items: seq<Entry>, u: Uuid): (r: Option<nat>)
    ensures r.Some? ==> r.value < |items| && items[r.value].uuid == Some(u)
    ensures r.None? ==> forall i :: 0 <= i < |items| ==> items[i].uuid != Some(u)
  {
    if items == [] then None
    else if items[0].uuid == Some(u) then Some(0)
    else
      var rest := FindUuid(items[1..], u);
      if rest.None? then
        assert forall i :: 1 <= i < |items| ==> items[i] == items[1..][i - 1];
        None
      else Some(rest.value + 1)
  }

  // ---------- Writes ----------

  predicate OverCount(env: Env, proposed: nat) {
    env.maxItems > 0 && proposed > env.maxItems
  }

  /** Adds a fully formed entry at the end, giving it the next sequence number. */
  function Pushed(s: Scope, e: Entry): Scope {
    Scope(s.items + [e.(seqNo := s.lastSeq + 1)], s.lastSeq + 1,
          if e.uuid.Some? && s.firstUuid.None? then e.uuid else s.firstUuid,
          if e.uuid.Some? then e.uuid else s.lastUuid)
  }

  function PlanInsert(s: Scope, req: Entry, env: Env): Plan {
    var e := req.(counter := None, ts := env.now,
                  render := RenderFor(env.codec, req.payload, req.render),
                  uuid := if env.attached && req.uuid.None? then Some(env.minted) else req.uuid);
    if env.attached && Size(e) > env.maxItemBytes then Refused(ItemTooLarge(Size(e), env.maxItemBytes))
    else Ready(Size(e), Pushed(s, e), |s.items|, true)
  }

  function PlanAppend(s: Scope, req: Entry, env: Env): Plan {
    if OverCount(env, |s.items| + 1) then Refused(ScopeFull(|s.items|, env.maxItems))
    else if FindId(s.items, req.id).Some? then Refused(DuplicateId)
    else PlanInsert(s, req, env)
  }

  /** Replaces payload, render bytes and timestamp of the entry at `i`; a counter stops being one. */
  function PlanReplace(s: Scope, i: nat, payload: Bytes, render: Option<Bytes>, env: Env): Plan
    requires i < |s.items|
  {
    var e := s.items[i].(payload := payload, render := RenderFor(env.codec, payload, render),
      ts := env.now, counter := None);
    Ready(PayloadCost(e) - PayloadCost(s.items[i]), s.(items := s.items[i := e]), i, false)
  }

  function PlanUpsert(s: Scope, req: Entry, env: Env): Plan {
    var at := FindId(s.items, req.id);
    if at.Some? then PlanReplace(s, at.value, req.payload, req.render, env)
    else if OverCount(env, |s.items| + 1) then Refused(ScopeFull(|s.items|, env.maxItems))
    else PlanInsert(s, req, env)
  }

  /** An update through an address that does not carry the id measures the stored item again. */
  function PlanChecked(s: Scope, i: nat, payload: Bytes, render: Option<Bytes>, env: Env): Plan
    requires i < |s.items|
  {
    var e := s.items[i].(payload := payload, render := RenderFor(env.codec, payload, render), counter := None);
    if env.attached && Size(e) > env.maxItemBytes then Refused(ItemTooLarge(Size(e), env.maxItemBytes))
    else PlanReplace(s, i, payload, render, env)
  }

  function PlanCounterAdd(s: Scope, scope: string, id: string, add: int, env: Env): Plan {
    var at := FindId(s.items, id);
    if at.Some? then
      var e := s.items[at.value];
      if e.counter.Some? then
        var next := e.counter.value.value + add;
        if next > MAX_COUNTER || next < -MAX_COUNTER then Refused(CounterOverflow(e.counter.value.value, add))
        else
          var c := Counter(next, Max(e.counter.value.ts, env.now));
          Ready(0, s.(items := s.items[at.value := e.(counter := Some(c))]), at.value, false)
      else
        var current := ParseCounterValue(env.codec, e.payload);
        if current.None? then Refused(CounterPayload)
        else
          var next := current.value + add;
          if next > MAX_COUNTER || next < -MAX_COUNTER then Refused(CounterOverflow(current.value, add))
          else
            var p := e.(counter := Some(Counter(next, env.now)), payload := [], render := None);
            Ready(Size(p) - Size(e), s.(items := s.items[at.value := p]), at.value, false)
    else if OverCount(env, |s.items| + 1) then Refused(ScopeFull(|s.items|, env.maxItems))
    else
      var e := Entry(scope, id, 0, env.now, if env.attached then Some(env.minted) else None,
                     [], None, Some(Counter(add, env.now)));
      Ready(Size(e), Pushed(s, e), |s.items|, true)
  }

  function PlanOf(s: Scope, w: Write, env: Env): Plan {
    match w
    case Append(req) => PlanAppend(s, req, env)
    case Upsert(req) => PlanUpsert(s, req, env)
    case UpdateId(id, payload, render) =>
      var at := FindId(s.items, id);
      if at.Some? then PlanReplace(s, at.value, payload, render, env) else Miss
    case UpdateSeq(n, payload, render) =>
      var at := FindSeq(s.items, n);
      if at.Some? then PlanChecked(s, at.value, payload, render, env) else Miss
    case UpdateUuid(u, payload, render) =>
      var at := FindUuid(s.items, u);
      if at.Some? then PlanChecked(s, at.value, payload, render, env) else Miss
    case CounterAdd(scope, id, add) => PlanCounterAdd(s, scope, id, add, env)
  }

  // ---------- The byte budget ----------

  predicate CanReserve(total: int, max: int, delta: int) {
    delta <= 0 || delta <= max - total
  }

  datatype Outcome = Outcome(scope: Scope, total: int, error: Option<WriteError>, hit: bool)

  /** A plan carried out against the budget: all of it, or none of it. */
  function Settle(s: Scope, p: Plan, attached: bool, total: int, max: int): Outcome {
    match p
    case Miss => Outcome(s, total, None, false)
    case Refused(e) => Outcome(s, total, Some(e), false)
    case Ready(delta, after, _, _) =>
      if attached && !CanReserve(total, max, delta) then Outcome(s, total, Some(StoreFull(total, delta, max)), false)
      else Outcome(after, if attached then total + delta else total, None, true)
  }

  /** What a write does to a scope and to the store's byte counter. */
  function Effect(s: Scope, detached: bool, w: Write, env: Env, total: int, max: int): Outcome {
    if detached then Outcome(s, total, Some(ScopeDetached), false)
    else Settle(s, PlanOf(s, w, env), env.attached, total, max)
  }

  // ---------- Removals ----------

  function RemoveAt(s: Scope, i: nat): Scope
    requires i < |s.items|
  {
    s.(items := s.items[..i] + s.items[i + 1..])
  }

  /** The entries beyond a sequence number, in order. */
  function After(items: seq<Entry>, n: nat): seq<Entry> {
    if items == [] then []
    else if items[0].seqNo > n then [items[0]] + After(items[1..], n)
    else After(items[1..], n)
  }

  function Remove(s: Scope, r: Removal): Scope {
    match r
    case DeleteId(id) =>
      var at := FindId(s.items, id);
      if at.Some? then RemoveAt(s, at.value) else s
    case DeleteSeq(n) =>
      var at := FindSeq(s.items, n);
      if at.Some? then RemoveAt(s, at.value) else s
    case DeleteUuid(u) =>
      var at := FindUuid(s.items, u);
      if at.Some? then RemoveAt(s, at.value) else s
    case UpToSeq(n) => s.(items := After(s.items, n))
    case UpToUuid(u) =>
      var at := FindUuid(s.items, u);
      if at.Some? then s.(items := After(s.items, s.items[at.value].seqNo)) else s
  }

  // ---------- Facts about the list operations ----------

  lemma {:induction false} FindIdIs(items: seq<Entry>, i: nat)
    requires UniqueIds(items) && i < |items| && items[i].id != ""
    ensures FindId(items, items[i].id) == Some(i)
  {
    var r := FindId(items, items[i].id);
    assert r.Some? && items[r.value].id == items[i].id;
  }

  lemma {:induction false} FindSeqIs(items: seq<Entry>, i: nat)
    requires Ordered(items) && i < |items|
    ensures FindSeq(items, items[i].seqNo) == Some(i)
  {
    var r := FindSeq(items, items[i].seqNo);
    assert r.Some? && items[r.value].seqNo == items[i].seqNo;
  }

  lemma {:induction false} FindUuidIs(items: seq<Entry>, i: nat)
    requires UniqueUuids(items) && i < |items| && items[i].uuid.Some?
    ensures FindUuid(items, items[i].uuid.value) == Some(i)
  {
    var r := FindUuid(items, items[i].uuid.value);
    assert r.Some? && items[r.value].uuid == items[i].uuid;
  }

  /** In a well-formed scope the entries beyond `n` are a suffix: dropping a prefix is enough. */
  lemma {:induction false} AfterIsSuffix(items: seq<Entry>, n: nat, k: nat)
    requires Ordered(items) && k <= |items|
    requires forall i :: 0 <= i < k ==> items[i].seqNo <= n
    requires forall i :: k <= i < |items| ==> items[i].seqNo > n
    ensures After(items, n) == items[k..]
  {
    if items != [] {
      if k == 0 {
        assert forall i :: 0 <= i < |items[1..]| ==> items[1..][i] == items[i + 1];
        AfterIsSuffix(items[1..], n, 0);
        assert items[0..] == [items[0]] + items[1..][0..];
      } else {
        assert forall i :: 0 <= i < |items[1..]| ==> items[1..][i] == items[i + 1];
        AfterIsSuffix(items[1..], n, k - 1);
        assert items[k..] == items[1..][k - 1..];
      }
    }
  }

  /** Where the suffix beyond `n` starts. */
  function Cut(items: seq<Entry>, n: nat): (k: nat)
    requires Ordered(items)
    ensures k <= |items|
    ensures forall i :: 0 <= i < k ==> items[i].seqNo <= n
    ensures forall i :: k <= i < |items| ==> items[i].seqNo > n
  {
    if items == [] || items[0].seqNo > n then 0
    else
      assert forall i :: 0 <= i < |items[1..]| ==> items[1..][i] == items[i + 1];
      var k := 1 + Cut(items[1..], n);
      assert forall i :: 1 <= i < |items| ==> items[i] == items[1..][i - 1];
      k
  }

  lemma {:induction false} CutIs(items: seq<Entry>, n: nat, k: nat)
    requires Ordered(items) && k <= |items|
    requires forall i :: 0 <= i < k ==> items[i].seqNo <= n
    requires forall i :: k <= i < |items| ==> items[i].seqNo > n
    ensures Cut(items, n) == k
  {
    AfterIsSuffix(items, n, k);
    AfterIsSuffix(items, n, Cut(items, n));
    assert |items[k..]| == |items[Cut(items, n)..]|;
  }

  /** Choosing entries of a well-formed list in their order gives a well-formed list. */
  lemma {:induction false} SublistKeeps(items: seq<Entry>, t: seq<Entry>, i: nat, gap: nat)
    requires i + gap <= |items| && t == items[..i] + items[i + gap..]
    ensures Ordered(items) ==> Ordered(t)
    ensures UniqueIds(items) ==> UniqueIds(t)
    ensures UniqueUuids(items) ==> UniqueUuids(t)
    ensures forall k :: 0 <= k < |t| ==> t[k] in items
  {
    forall a, b | 0 <= a < b < |t|
      ensures Ordered(items) ==> t[a].seqNo < t[b].seqNo
      ensures UniqueIds(items) && t[a].id == t[b].id ==> t[a].id == ""
      ensures UniqueUuids(items) && t[a].uuid == t[b].uuid ==> t[a].uuid.None?
    {
      var a', b' := if a < i then a else a + gap, if b < i then b else b + gap;
      assert t[a] == items[a'] && t[b] == items[b'] && a' < b';
    }
  }

  /** What makes a planned write sound: the scope stays well formed, the bytes change by exactly
      the reserved delta, exactly one entry is touched, and no sequence number is reused. */
  ghost predicate Sound(s: Scope, p: Plan)
    requires p.Ready?
  {
    && WellFormed(p.after)
    && SizeSum(p.after.items) == SizeSum(s.items) + p.delta
    && p.at < |p.after.items|
    && (p.created ==> p.after.items == s.items + [p.after.items[p.at]] && p.at == |s.items|
                      && p.after.items[p.at].seqNo == p.after.lastSeq == s.lastSeq + 1)
    && (!p.created ==> p.at < |s.items| && p.after.lastSeq == s.lastSeq
                       && p.after.items == s.items[p.at := p.after.items[p.at]]
                       && SameAddress(p.after.items[p.at], s.items[p.at]))
  }

  predicate SameAddress(a: Entry, b: Entry) {
    a.scope == b.scope && a.id == b.id && a.seqNo == b.seqNo && a.uuid == b.uuid
  }

  lemma {:induction false} PushIsSound(s: Scope, e: Entry)
    requires WellFormed(s)
    requires FindId(s.items, e.id).None?
    requires e.uuid.None? || Fresh(s, e.uuid.value)
    ensures Sound(s, Ready(Size(e), Pushed(s, e), |s.items|, true))
  {
    hide SizeSum;
    var e' := e.(seqNo := s.lastSeq + 1);
    var t := s.items + [e'];
    SizeSumSnoc(s.items, e');
    forall a, b | 0 <= a < b < |t|
      ensures t[a].seqNo < t[b].seqNo
      ensures t[a].id == t[b].id ==> t[a].id == ""
      ensures t[a].uuid == t[b].uuid ==> t[a].uuid.None?
    {
      assert t[a] == s.items[a];
    }
  }

  lemma {:induction false} ReplaceIsSound(s: Scope, i: nat, e: Entry)
    requires WellFormed(s) && i < |s.items| && SameAddress(e, s.items[i])
    ensures Sound(s, Ready(PayloadCost(e) - PayloadCost(s.items[i]), s.(items := s.items[i := e]), i, false))
  {
    SizeSumUpdate(s.items, i, e);
    var t := s.items[i := e];
    forall a, b | 0 <= a < b < |t|
      ensures t[a].seqNo < t[b].seqNo
      ensures t[a].id == t[b].id ==> t[a].id == ""
      ensures t[a].uuid == t[b].uuid ==> t[a].uuid.None?
    {
      assert SameAddress(t[a], s.items[a]) && SameAddress(t[b], s.items[b]);
    }
  }

  /** A write that asks for an address no stored item has, or that brings its own uuid, must not
      collide with a stored one; minted uuids are assumed fresh. */
  predicate FreshFor(s: Scope, w: Write, env: Env) {
    && Fresh(s, env.minted)
    && (w.Append? || w.Upsert? ==> w.req.uuid.None? || Fresh(s, w.req.uuid.value))
  }

  lemma {:induction false} InsertIsSound(s: Scope, req: Entry, env: Env)
    requires WellFormed(s) && FindId(s.items, req.id).None?
    requires Fresh(s, env.minted) && (req.uuid.None? || Fresh(s, req.uuid.value))
    requires PlanInsert(s, req, env).Ready?
    ensures Sound(s, PlanInsert(s, req, env))
  {
    var e := PlanInsert(s, req, env).after.items[|s.items|];
    assert PlanInsert(s, req, env).after == Pushed(s, e);
    PushIsSound(s, e);
  }

  lemma {:induction false} CounterIsSound(s: Scope, scope: string, id: string, add: int, env: Env)
    requires WellFormed(s) && Fresh(s, env.minted)
    requires PlanCounterAdd(s, scope, id, add, env).Ready?
    ensures Sound(s, PlanCounterAdd(s, scope, id, add, env))
  {
    var p := PlanCounterAdd(s, scope, id, add, env);
    if p.created {
      PushIsSound(s, p.after.items[p.at]);
      assert p.after == Pushed(s, p.after.items[p.at]);
    } else {
      ReplaceIsSound(s, p.at, p.after.items[p.at]);
    }
  }

  lemma {:induction false} WriteIsSound(s: Scope, w: Write, env: Env)
    requires WellFormed(s) && FreshFor(s, w, env)
    requires PlanOf(s, w, env).Ready?
    ensures Sound(s, PlanOf(s, w, env))
  {
    var p := PlanOf(s, w, env);
    if w.CounterAdd? {
      CounterIsSound(s, w.scope, w.id, w.add, env);
    } else if p.created {
      InsertIsSound(s, w.req, env);
    } else {
      ReplaceIsSound(s, p.at, p.after.items[p.at]);
    }
  }

  lemma {:induction false} RemoveAtIsSound(s: Scope, i: nat)
    requires WellFormed(s) && i < |s.items|
    ensures WellFormed(RemoveAt(s, i))
    ensures SizeSum(RemoveAt(s, i).items) == SizeSum(s.items) - Size(s.items[i])
  {
    SizeSumRemove(s.items, i);
    SublistKeeps(s.items, RemoveAt(s, i).items, i, 1);
  }

  lemma {:induction false} SuffixIsSound(s: Scope, k: nat)
    requires WellFormed(s) && k <= |s.items|
    ensures WellFormed(s.(items := s.items[k..]))
  {
    var t := s.items[k..];
    assert t == s.items[..0] + s.items[0 + k..];
    SublistKeeps(s.items, t, 0, k);
    forall i | 0 <= i < |t| ensures 0 < t[i].seqNo <= s.lastSeq {
      assert t[i] == s.items[k + i];
    }
  }

  lemma {:induction false} SizeSumCut(items: seq<Entry>, k: nat)
    requires k <= |items|
    ensures SizeSum(items[k..]) == SizeSum(items) - SizeSum(items[..k])
  {
    assert items == items[..k] + items[k..];
    SizeSumConcat(items[..k], items[k..]);
  }

  lemma {:induction false} AfterIsSound(s: Scope, n: nat)
    requires WellFormed(s)
    ensures WellFormed(s.(items := After(s.items, n)))
    ensures After(s.items, n) == s.items[Cut(s.items, n)..]
    ensures SizeSum(After(s.items, n)) == SizeSum(s.items) - SizeSum(s.items[..Cut(s.items, n)])
  {
    var k := Cut(s.items, n);
    AfterIsSuffix(s.items, n, k);
    SizeSumCut(s.items, k);
    SuffixIsSound(s, k);
  }

  /** Every removal keeps the scope well formed, never costs bytes, never moves the cursor, and
      leaves the surviving entries untouched and in order. */
  lemma {:induction false} RemovalIsSound(s: Scope, r: Removal)
    requires WellFormed(s)
    ensures var t := Remove(s, r);
      && WellFormed(t)
      && SizeSum(t.items) <= SizeSum(s.items)
      && |t.items| <= |s.items|
      && t.lastSeq == s.lastSeq && t.firstUuid == s.firstUuid && t.lastUuid == s.lastUuid
      && (forall e :: e in t.items ==> e in s.items)
      && (|t.items| == |s.items| ==> t == s)
  {
    match r
    case DeleteId(id) =>
      var at := FindId(s.items, id);
      if at.Some? { RemoveAtIsSound(s, at.value); }
    case DeleteSeq(n) =>
      var at := FindSeq(s.items, n);
      if at.Some? { RemoveAtIsSound(s, at.value); }
    case DeleteUuid(u) =>
      var at := FindUuid(s.items, u);
      if at.Some? { RemoveAtIsSound(s, at.value); }
    case UpToSeq(n) => AfterIsSound(s, n);
    case UpToUuid(u) =>
      var at := FindUuid(s.items, u);
      if at.Some? { AfterIsSound(s, s.items[at.value].seqNo); }
  }

  // ---------- Reading windows ----------

  /** The newest `limit` items before the last `offset`, and whether older ones remain. */
  function TailWindow(items: seq<Entry>, limit: int, offset: int): (seq<Entry>, bool) {
    if limit <= 0 || offset < 0 || offset >= |items| then ([], false)
    else
      var end := |items| - offset;
      (items[Max(end - limit, 0)..end], end - limit > 0)
  }

  /** The oldest `limit` items beyond a sequence number, and whether newer ones remain. */
  function HeadWindow(items: seq<Entry>, afterSeq: nat, limit: int): (seq<Entry>, bool) {
    var rest := After(items, afterSeq);
    if limit <= 0 then ([], false)
    else if |rest| > limit then (rest[..limit], true)
    else (rest, false)
  }

  /** The entry a reader sees: a counter's payload and timestamp come from its cell. */
  function MaterialiseCounter(codec: Codec, e: Entry): Entry {
    if e.counter.None? then e
    else e.(payload := codec.showInt(e.counter.value.value), ts := e.counter.value.ts)
  }

  /** What `r` shows of the stored entry `e`: a counter's own number and timestamp in place of its stale
      payload and stamp; everything else as it is stored. */
  predicate SeenAs(codec: Codec, e: Entry, r: Entry) {
    && r.scope == e.scope && r.id == e.id && r.seqNo == e.seqNo && r.uuid == e.uuid && r.render == e.render
    && match e.counter
       case Some(Counter(number, stamp)) => r.payload == codec.showInt(number) && r.ts == stamp
       case None => r.payload == e.payload && r.ts == e.ts
  }

  function Materialised(codec: Codec, items: seq<Entry>): seq<Entry> {
    seq(|items|, i requires 0 <= i < |items| => MaterialiseCounter(codec, items[i]))
  }

  // ---------- Wholesale replacement ----------

  /** Item `i` of a batch as it is stored: renumbered, restamped, its uuid kept or minted. */
  function BuiltEntry(codec: Codec, req: Entry, i: nat, now: int, minted: Uuid): Entry {
    req.(counter := None, seqNo := i + 1, ts := now,
         uuid := if req.uuid.None? then Some(minted) else req.uuid,
         render := RenderFor(codec, req.payload, req.render))
  }

  function BuiltEntries(codec: Codec, reqs: seq<Entry>, now: int, mints: seq<Uuid>): seq<Entry>
    requires |mints| == |reqs|
  {
    seq(|reqs|, i requires 0 <= i < |reqs| => BuiltEntry(codec, reqs[i], i, now, mints[i]))
  }

  /** The scope a batch of items builds: the items in order, numbered from one. */
  function Built(codec: Codec, reqs: seq<Entry>, now: int, mints: seq<Uuid>): Scope
    requires |mints| == |reqs|
  {
    var c := BuiltEntries(codec, reqs, now, mints);
    if c == [] then EMPTY_SCOPE else Scope(c, |c|, c[0].uuid, c[|c| - 1].uuid)
  }

  /** A batch is refused exactly when two of its items would share an id or a uuid. */
  predicate Buildable(codec: Codec, reqs: seq<Entry>, now: int, mints: seq<Uuid>)
    requires |mints| == |reqs|
  {
    var c := BuiltEntries(codec, reqs, now, mints);
    UniqueIds(c) && UniqueUuids(c)
  }

  lemma {:induction false} BuiltIsWellFormed(codec: Codec, reqs: seq<Entry>, now: int, mints: seq<Uuid>)
    requires |mints| == |reqs| && Buildable(codec, reqs, now, mints)
    ensures WellFormed(Built(codec, reqs, now, mints))
  {
    hide RenderFor;
  }
}
