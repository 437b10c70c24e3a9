/** What the three multi-scope operations do to the whole store, and why that is sound. */
module BulkSpec {
  import opened Types
  import opened ScopeSpec
  import opened Validation
  import opened StoreSpec
  import opened StoreLaws

  datatype BulkError = BulkInvalid | BulkCapacity(offenders: set<string>) | BulkFull(added: int)
  datatype BulkDone = BulkDone(mem: Mem, error: Option<BulkError>)

  type Batch = map<string, seq<Entry>>

  /** One mint for every item of a batch, used where the item brings no uuid. */
  predicate Matched(grouped: Batch, mints: map<string, seq<Uuid>>) {
    grouped.Keys == mints.Keys && forall n :: n in grouped ==> |mints[n]| == |grouped[n]|
  }

  // ---------- Validation of a batch ----------

  predicate RequestOk(codec: Codec, cfg: Config, to: Endpoint, n: string, items: seq<Entry>) {
    && ScopeNameOk(codec, n) && !IsReserved(n)
    && forall i :: 0 <= i < |items| ==>
       ValidateWriteItem(codec, items[i], to, cfg.maxItemBytes).Ok? && items[i].scope == n
  }

  predicate TooMany(m: Mem, items: seq<Entry>) {
    |items| > m.cfg.scopeMaxItems
  }

  /** One scope of the batch is enough to refuse all of it. */
  predicate Faulty(m: Mem, to: Endpoint, n: string, items: seq<Entry>, now: int, mints: seq<Uuid>)
    requires |mints| == |items|
  {
    !RequestOk(m.codec, m.cfg, to, n, items) || (!TooMany(m, items) && !Buildable(m.codec, items, now, mints))
  }

  predicate AnyFault(m: Mem, to: Endpoint, grouped: Batch, now: int, mints: map<string, seq<Uuid>>)
    requires Matched(grouped, mints)
  {
    exists n :: n in grouped && Faulty(m, to, n, grouped[n], now, mints[n])
  }

  function Offenders(m: Mem, grouped: Batch): set<string> {
    set n | n in grouped && TooMany(m, grouped[n])
  }

  /** Invalid input wins; otherwise every scope over its item cap is reported at once. */
  function Verdict(m: Mem, to: Endpoint, grouped: Batch, now: int, mints: map<string, seq<Uuid>>): Option<BulkError>
    requires Matched(grouped, mints)
  {
    if AnyFault(m, to, grouped, now, mints) then Some(BulkInvalid)
    else if Offenders(m, grouped) != {} then Some(BulkCapacity(Offenders(m, grouped)))
    else None
  }

  function BuiltScopes(m: Mem, grouped: Batch, now: int, mints: map<string, seq<Uuid>>): map<string, Scope>
    requires Matched(grouped, mints)
  {
    map n | n in grouped :: Built(m.codec, grouped[n], now, mints[n])
  }

  // ---------- The operations ----------

  const RESERVED_SCOPES: map<string, Scope> := map[EVENTS := EMPTY_SCOPE, INBOX := EMPTY_SCOPE]

  /** The counters that belong to a set of scopes. */
  ghost function WithScopes(m: Mem, scopes: map<string, Scope>): Mem {
    m.(scopes := scopes, total := TotalBytes(scopes), items := TotalItems(scopes), count := |scopes|)
  }

  function WarmEvent(now: int): WriteEvent {
    NO_EVENT.(op := OpWarm, ts := now)
  }

  /** Scopes laid over the store, if the bytes allow, and announced unless there are none. */
  ghost function LaidOver(m: Mem, built: map<string, Scope>, t: Tick): BulkDone {
    var m' := WithScopes(m, m.scopes + built);
    if !CanReserve(m.total, m.cfg.maxStoreBytes, m'.total - m.total)
      then BulkDone(m, Some(BulkFull(m'.total - m.total)))
    else BulkDone(if built == map[] then m' else Emit(m', WarmEvent(t.now), t), None)
  }

  ghost function Warm(m: Mem, grouped: Batch, now: int, mints: map<string, seq<Uuid>>, t: Tick): BulkDone
    requires Matched(grouped, mints)
  {
    var v := Verdict(m, ToWarm, grouped, now, mints);
    if v.Some? then BulkDone(m, v) else LaidOver(m, BuiltScopes(m, grouped, now, mints), t)
  }

  /** The store with a whole new content; the event stream starts again. */
  ghost function Reset(m: Mem, scopes: map<string, Scope>): Mem {
    WithScopes(m, scopes).(log := [], commits := 0, dropsBefore := m.drops)
  }

  ghost function Wipe(m: Mem): Mem {
    Reset(m, RESERVED_SCOPES)
  }

  /** A new content beside two empty reserved scopes, if the bytes allow. */
  ghost function Installed(m: Mem, built: map<string, Scope>): BulkDone {
    var m' := Reset(m, built + RESERVED_SCOPES);
    if m'.total > m.cfg.maxStoreBytes then BulkDone(m, Some(BulkFull(m'.total))) else BulkDone(m', None)
  }

  ghost function Rebuild(m: Mem, grouped: Batch, now: int, mints: map<string, seq<Uuid>>): BulkDone
    requires Matched(grouped, mints)
  {
    var v := Verdict(m, ToRebuild, grouped, now, mints);
    if v.Some? then BulkDone(m, v) else Installed(m, BuiltScopes(m, grouped, now, mints))
  }

  // ---------- What they promise ----------

  /** The scope a batch builds holds exactly the batch: same items with their render bytes, same order,
      numbered from one, every uuid kept or minted, none twice; its span is that of its first and last item. */
  lemma {:induction false} BuiltHoldsTheBatch(codec: Codec, items: seq<Entry>, now: int, mints: seq<Uuid>)
    requires |mints| == |items| && Buildable(codec, items, now, mints)
    ensures var s := Built(codec, items, now, mints);
      && WellFormed(s) && |s.items| == |items| == s.lastSeq
      && UniqueUuids(s.items)
      && s.firstUuid == (if items == [] then None else s.items[0].uuid)
      && s.lastUuid == (if items == [] then None else s.items[|items| - 1].uuid)
      && forall i :: 0 <= i < |items| ==>
           && s.items[i].seqNo == i + 1 && s.items[i].ts == now && s.items[i].counter.None?
           && s.items[i].scope == items[i].scope && s.items[i].id == items[i].id
           && s.items[i].payload == items[i].payload
           && s.items[i].render == RenderFor(codec, items[i].payload, items[i].render)
           && s.items[i].uuid == Some(if items[i].uuid.Some? then items[i].uuid.value else mints[i])
  {
    hide RenderFor;
    BuiltIsWellFormed(codec, items, now, mints);
  }

  lemma {:induction false} BuiltFits(m: Mem, to: Endpoint, n: string, items: seq<Entry>, now: int, mints: seq<Uuid>)
    requires m.cfg.Sane() && |mints| == |items| && RequestOk(m.codec, m.cfg, to, n, items) && !TooMany(m, items)
    requires forall i :: 0 <= i < |items| ==> FromClient(items[i])
    ensures ItemsFit(m.cfg, n, Built(m.codec, items, now, mints))
  {
    var s := Built(m.codec, items, now, mints);
    forall e | e in s.items ensures e.scope == n && e.uuid.Some? && Size(e) <= m.cfg.MaxItemBytesFor(n) {
      var i :| 0 <= i < |items| && e == s.items[i];
      assert ValidateWriteItem(m.codec, items[i], to, m.cfg.maxItemBytes).Ok? && FromClient(items[i]);
      BuiltEntryFits(m, to, items[i], i, now, mints[i]);
    }
  }

  lemma {:induction false} BuiltEntryFits(m: Mem, to: Endpoint, item: Entry, i: nat, now: int, minted: Uuid)
    requires FromClient(item) && ValidateWriteItem(m.codec, item, to, m.cfg.maxItemBytes).Ok?
    ensures Size(BuiltEntry(m.codec, item, i, now, minted)) <= m.cfg.maxItemBytes
  {
    hide ValidateWriteItem, RenderFor;
    var v := ValidateWriteItem(m.codec, item, to, m.cfg.maxItemBytes).value;
    assert PreMintSize(v) <= m.cfg.maxItemBytes && v == item.(render := RenderFor(m.codec, item.payload, item.render));
  }

  predicate BatchFromClient(grouped: Batch) {
    forall n, i :: n in grouped && 0 <= i < |grouped[n]| ==> FromClient(grouped[n][i])
  }

  lemma {:induction false} BuiltScopesAreOk(m: Mem, to: Endpoint, grouped: Batch, now: int,
    mints: map<string, seq<Uuid>>)
    requires m.cfg.Sane() && Matched(grouped, mints) && BatchFromClient(grouped)
      && Verdict(m, to, grouped, now, mints).None?
    ensures var built := BuiltScopes(m, grouped, now, mints);
      && built.Keys == grouped.Keys
      && forall n :: n in built ==> !IsReserved(n) && WellFormed(built[n]) && ItemsFit(m.cfg, n, built[n])
  {
    hide WellFormed, ItemsFit, Built, Buildable, ScopeNameOk, ValidateWriteItem;
    forall n | n in grouped
      ensures !IsReserved(n) && WellFormed(Built(m.codec, grouped[n], now, mints[n]))
        && ItemsFit(m.cfg, n, Built(m.codec, grouped[n], now, mints[n]))
    {
      assert !Faulty(m, to, n, grouped[n], now, mints[n]);
      assert n !in Offenders(m, grouped);
      BuiltIsWellFormed(m.codec, grouped[n], now, mints[n]);
      BuiltFits(m, to, n, grouped[n], now, mints[n]);
    }
  }

  /** Scopes laid over a store, and the event that announces them. */
  lemma {:induction false} OverlayAndEmit(m: Mem, built: map<string, Scope>, ev: WriteEvent, t: Tick)
    requires StoreOk(m) && Conserved(m) && FreshTick(m, t) && ev.scope != EVENTS
    requires forall n :: n in built ==> !IsReserved(n) && WellFormed(built[n]) && ItemsFit(m.cfg, n, built[n])
    requires var m' := WithScopes(m, m.scopes + built); CanReserve(m.total, m.cfg.maxStoreBytes, m'.total - m.total)
    ensures var e := Emit(WithScopes(m, m.scopes + built), ev, t);
      && StoreOk(e) && Conserved(e) && e.commits == m.commits + 1
      && OnlyScope(WithScopes(m, m.scopes + built), e, EVENTS)
  {
    OverlayKeeps(m, built);
    EventsExist(m);
    assert Fresh(m.scopes[EVENTS], t.eventUuid);
    hide StoreOk, Conserved, Fresh, Emit, WellFormed, ItemsFit, OnlyScope;
    EmitKeeps(WithScopes(m, m.scopes + built), ev, t);
  }

  lemma OverlaySays(m: Mem, built: map<string, Scope>, e: Mem)
    requires OnlyScope(WithScopes(m, m.scopes + built), e, EVENTS) && EVENTS !in built
    ensures forall n :: n in built ==> n in e.scopes && e.scopes[n] == built[n]
    ensures forall n :: n !in built && n != EVENTS ==>
      (n in e.scopes <==> n in m.scopes) && (n in m.scopes ==> e.scopes[n] == m.scopes[n])
  {
  }

  /** A warm request is carried out for every scope it names or for none. On success each named scope holds
      exactly its batch, every other scope but `_events` is untouched, and the counters are the true sums. */
  lemma {:induction false} WarmIsAllOrNothing(m: Mem, grouped: Batch, now: int, mints: map<string, seq<Uuid>>, t: Tick)
    requires StoreOk(m) && Conserved(m) && FreshTick(m, t) && Matched(grouped, mints) && BatchFromClient(grouped)
    ensures var d := Warm(m, grouped, now, mints, t);
      && StoreOk(d.mem) && Conserved(d.mem)
      && (d.error.Some? ==> d.mem == m)
      && (d.error.None? ==>
           && (forall n :: n in grouped ==>
                n in d.mem.scopes && d.mem.scopes[n] == Built(m.codec, grouped[n], now, mints[n]))
           && (forall n :: n !in grouped && n != EVENTS ==>
                (n in d.mem.scopes <==> n in m.scopes) && (n in m.scopes ==> d.mem.scopes[n] == m.scopes[n]))
           && d.mem.commits == m.commits + (if grouped == map[] then 0 else 1))
  {
    hide StoreOk, Conserved, FreshTick, Built, Emit, AnyFault, Offenders, WellFormed, ItemsFit, TotalBytes, TotalItems,
      OnlyScope;
    var d := Warm(m, grouped, now, mints, t);
    if d.error.None? {
      assert m.cfg.Sane() by { ScopeIsSane(m); }
      BuiltScopesAreOk(m, ToWarm, grouped, now, mints);
      var built := BuiltScopes(m, grouped, now, mints);
      assert EVENTS !in built by { assert IsReserved(EVENTS); }
      assert built.Keys == grouped.Keys;
      if grouped == map[] {
        OverlayKeeps(m, built);
        assert m.scopes + built == m.scopes;
      } else {
        OverlayAndEmit(m, built, WarmEvent(t.now), t);
        OverlaySays(m, built, d.mem);
      }
    }
  }

  lemma {:induction false} OverlayKeeps(m: Mem, built: map<string, Scope>)
    requires StoreOk(m) && Conserved(m)
    requires forall n :: n in built ==> !IsReserved(n) && WellFormed(built[n]) && ItemsFit(m.cfg, n, built[n])
    requires var m' := WithScopes(m, m.scopes + built); CanReserve(m.total, m.cfg.maxStoreBytes, m'.total - m.total)
    ensures var m' := WithScopes(m, m.scopes + built);
      StoreOk(m') && Conserved(m') && m'.scopes[EVENTS] == m.scopes[EVENTS]
  {
    hide WellFormed, ItemsFit;
  }

  lemma {:induction false} ResetKeeps(m: Mem, scopes: map<string, Scope>)
    requires m.cfg.Sane() && EVENTS in scopes && INBOX in scopes && scopes[EVENTS] == EMPTY_SCOPE
    requires forall n :: n in scopes ==> WellFormed(scopes[n]) && ItemsFit(m.cfg, n, scopes[n])
    requires TotalBytes(scopes) <= m.cfg.maxStoreBytes
    ensures StoreOk(Reset(m, scopes)) && Conserved(Reset(m, scopes))
  {
    hide WellFormed, ItemsFit;
  }

  lemma EmptyIsOk(cfg: Config, n: string)
    ensures WellFormed(EMPTY_SCOPE) && ItemsFit(cfg, n, EMPTY_SCOPE)
  {
  }

  lemma {:induction false} AddEmpty(scopes: map<string, Scope>, a: string)
    requires a !in scopes
    ensures var one := scopes[a := EMPTY_SCOPE];
      && TotalBytes(one) == TotalBytes(scopes) + SCOPE_OVERHEAD
      && TotalItems(one) == TotalItems(scopes)
      && |one| == |scopes| + 1
  {
    hide Footprint, TotalBytes, TotalItems;
    EmptyCosts();
    TotalsSet(scopes, a, EMPTY_SCOPE);
    assert scopes[a := EMPTY_SCOPE].Keys == scopes.Keys + {a};
  }

  lemma TwoSteps(scopes: map<string, Scope>, a: string, b: string)
    requires a != b
    ensures scopes + map[a := EMPTY_SCOPE, b := EMPTY_SCOPE] == scopes[a := EMPTY_SCOPE][b := EMPTY_SCOPE]
  {
  }

  /** The sums over two empty scopes added to others. */
  lemma {:induction false} AddTwo(scopes: map<string, Scope>, a: string, b: string)
    requires a !in scopes && b !in scopes && a != b
    ensures var both := scopes + map[a := EMPTY_SCOPE, b := EMPTY_SCOPE];
      && TotalBytes(both) == TotalBytes(scopes) + RESERVED_OVERHEAD
      && TotalItems(both) == TotalItems(scopes)
      && |both| == |scopes| + 2
  {
    hide Footprint, TotalBytes, TotalItems;
    TwoSteps(scopes, a, b);
    AddEmpty(scopes, a);
    AddEmpty(scopes[a := EMPTY_SCOPE], b);
  }

  lemma EmptyCosts()
    ensures Footprint(EMPTY_SCOPE) == SCOPE_OVERHEAD
  {
  }

  /** A wipe leaves two empty reserved scopes and the counters of a fresh boot. */
  lemma {:induction false} WipeIsBoot(m: Mem)
    requires m.cfg.Sane()
    ensures StoreOk(Wipe(m)) && Conserved(Wipe(m))
    ensures var w, b := Wipe(m), Boot(m.cfg, m.codec, m.marshal);
      w.scopes == b.scopes && w.total == b.total && w.items == b.items && w.count == b.count
    ensures Wipe(m).drops == Wipe(m).dropsBefore == m.drops && Wipe(m).log == [] && Wipe(m).commits == 0
  {
    AddTwo(map[], EVENTS, INBOX);
    assert map[] + RESERVED_SCOPES == RESERVED_SCOPES;
    EmptyIsOk(m.cfg, EVENTS);
    EmptyIsOk(m.cfg, INBOX);
    ResetKeeps(m, RESERVED_SCOPES);
  }

  lemma TwoAdded(built: map<string, Scope>, a: string, b: string)
    requires a !in built && b !in built && a != b
    ensures var all := built + map[a := EMPTY_SCOPE, b := EMPTY_SCOPE];
      && all.Keys == built.Keys + {a, b} && all[a] == EMPTY_SCOPE && all[b] == EMPTY_SCOPE
      && forall n :: n in built ==> all[n] == built[n]
  {
  }

  lemma {:induction false} RebuiltKeeps(m: Mem, built: map<string, Scope>)
    requires m.cfg.Sane() && EVENTS !in built && INBOX !in built
    requires forall n :: n in built ==> WellFormed(built[n]) && ItemsFit(m.cfg, n, built[n])
    requires TotalBytes(built + RESERVED_SCOPES) <= m.cfg.maxStoreBytes
    ensures var m' := Reset(m, built + RESERVED_SCOPES);
      && StoreOk(m') && Conserved(m') && m'.scopes.Keys == built.Keys + {EVENTS, INBOX}
      && m'.scopes[EVENTS] == EMPTY_SCOPE && m'.scopes[INBOX] == EMPTY_SCOPE
      && forall n :: n in built ==> m'.scopes[n] == built[n]
  {
    hide TotalBytes, TotalItems, SizeSum, WellFormed, ItemsFit, Conserved, StoreOk, Footprint;
    EmptyIsOk(m.cfg, EVENTS);
    EmptyIsOk(m.cfg, INBOX);
    TwoAdded(built, EVENTS, INBOX);
    ResetKeeps(m, built + RESERVED_SCOPES);
  }

  /** A rebuild leaves exactly the scopes of its input, each holding exactly its batch, and two empty
      reserved scopes; when it is refused it leaves the store as it was. */
  lemma {:induction false} RebuildIsTotal(m: Mem, grouped: Batch, now: int, mints: map<string, seq<Uuid>>)
    requires StoreOk(m) && Conserved(m) && Matched(grouped, mints) && BatchFromClient(grouped)
    ensures var d := Rebuild(m, grouped, now, mints);
      && StoreOk(d.mem) && Conserved(d.mem)
      && (d.error.Some? ==> d.mem == m)
      && (d.error.None? ==>
           && d.mem.scopes.Keys == grouped.Keys + {EVENTS, INBOX} && d.mem.drops == m.drops
           && d.mem.scopes[EVENTS] == EMPTY_SCOPE && d.mem.scopes[INBOX] == EMPTY_SCOPE
           && forall n :: n in grouped ==> d.mem.scopes[n] == Built(m.codec, grouped[n], now, mints[n]))
  {
    hide TotalBytes, TotalItems, SizeSum, Built, Buildable, WellFormed, ItemsFit, RequestOk, Conserved, StoreOk,
      AnyFault;
    assert m.cfg.Sane() by { ScopeIsSane(m); }
    var d := Rebuild(m, grouped, now, mints);
    if d.error.None? {
      BuiltScopesAreOk(m, ToRebuild, grouped, now, mints);
      var built := BuiltScopes(m, grouped, now, mints);
      assert EVENTS !in built && INBOX !in built by { assert IsReserved(EVENTS) && IsReserved(INBOX); }
      RebuiltKeeps(m, built);
    }
  }

  lemma ScopeIsSane(m: Mem)
    requires StoreOk(m)
    ensures m.cfg.Sane()
  {
  }

  /** Boot is a wipe of anything. */
  lemma BootIsOk(cfg: Config, codec: Codec, marshal: WriteEvent -> Bytes)
    requires cfg.Sane()
    ensures StoreOk(Boot(cfg, codec, marshal)) && Conserved(Boot(cfg, codec, marshal))
  {
    WipeIsBoot(Boot(cfg, codec, marshal));
  }
}
