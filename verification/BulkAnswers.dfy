/** When exactly a warm or rebuild request is refused, and why: stated on the items of the batch and the caps
    alone. What an accepted batch leaves is the subject of module BulkSpec. */
module BulkAnswers {
  import opened Types
  import opened Uuids
  import opened ScopeSpec
  import opened Validation
  import opened StoreSpec
  import opened StoreLaws
  import opened ScopeAnswers
  import opened BulkSpec

  /** An item a batch may hold under scope `n`. It may bring its own uuid. */
  predicate FitsBatch(m: Mem, n: string, item: Entry) {
    && item.scope == n && (item.id != "" ==> m.codec.keyOk(item.id)) && m.codec.payloadOk(item.payload)
    && item.seqNo == 0 && item.ts == 0 && (item.uuid.Some? ==> IsV7(item.uuid.value))
    && StoredSize(m.codec, item) <= m.cfg.maxItemBytes
  }

  /** A scope of the batch with a name no client may write, an item that does not fit, or, unless it is
      over its item cap anyway, two items that clash. */
  predicate Invalid(m: Mem, n: string, items: seq<Entry>, mints: seq<Uuid>)
    requires |mints| == |items|
  {
    || n == "" || !m.codec.keyOk(n) || n == EVENTS || n == INBOX
    || (exists i :: 0 <= i < |items| && !FitsBatch(m, n, items[i]))
    || (|items| <= m.cfg.scopeMaxItems && Clash(items, mints))
  }

  predicate AnyInvalid(m: Mem, grouped: Batch, mints: map<string, seq<Uuid>>)
    requires Matched(grouped, mints)
  {
    exists n :: n in grouped && Invalid(m, n, grouped[n], mints[n])
  }

  function OverCap(m: Mem, grouped: Batch): set<string> {
    set n | n in grouped && |grouped[n]| > m.cfg.scopeMaxItems
  }

  lemma {:induction false} InvalidIsFaulty(m: Mem, to: Endpoint, n: string, items: seq<Entry>, now: int,
    mints: seq<Uuid>)
    requires to != ToAppend && |mints| == |items| && forall i :: 0 <= i < |items| ==> FromClient(items[i])
    ensures Faulty(m, to, n, items, now, mints) <==> Invalid(m, n, items, mints)
  {
    forall i | 0 <= i < |items|
      ensures n != "" && m.codec.keyOk(n) ==>
        (ValidateWriteItem(m.codec, items[i], to, m.cfg.maxItemBytes).Ok? && items[i].scope == n
         <==> FitsBatch(m, n, items[i]))
    {
      WriteItemAccepted(m.codec, items[i], to, m.cfg.maxItemBytes);
    }
    BuildableExactly(m.codec, items, now, mints);
    hide ValidateWriteItem, StoredSize, Clash, Buildable, FitsBatch;
  }

  /** A batch is refused as invalid if one of its scopes is; otherwise every scope over its item cap is
      reported at once; otherwise it is taken on. */
  lemma {:induction false} VerdictExactly(m: Mem, to: Endpoint, grouped: Batch, now: int,
    mints: map<string, seq<Uuid>>)
    requires to != ToAppend && Matched(grouped, mints) && BatchFromClient(grouped)
    ensures Verdict(m, to, grouped, now, mints) ==
      if AnyInvalid(m, grouped, mints) then Some(BulkInvalid)
      else if OverCap(m, grouped) != {} then Some(BulkCapacity(OverCap(m, grouped)))
      else None
  {
    forall n | n in grouped
      ensures Faulty(m, to, n, grouped[n], now, mints[n]) <==> Invalid(m, n, grouped[n], mints[n])
    {
      InvalidIsFaulty(m, to, n, grouped[n], now, mints[n]);
    }
    hide Faulty, Invalid;
    assert AnyFault(m, to, grouped, now, mints) <==> AnyInvalid(m, grouped, mints);
    assert Offenders(m, grouped) == OverCap(m, grouped);
  }

  /** When a warm request is refused: an invalid batch, scopes over their cap, or no room for what the batch
      adds to the store. A refusal leaves everything as it was. */
  lemma {:induction false} WarmAnswer(m: Mem, grouped: Batch, now: int, mints: map<string, seq<Uuid>>, t: Tick)
    requires StoreOk(m) && Matched(grouped, mints) && BatchFromClient(grouped)
    ensures var d, more := Warm(m, grouped, now, mints, t),
      TotalBytes(m.scopes + BuiltScopes(m, grouped, now, mints)) - TotalBytes(m.scopes);
      && (d.error.Some? ==> d.mem == m)
      && d.error ==
           if AnyInvalid(m, grouped, mints) then Some(BulkInvalid)
           else if OverCap(m, grouped) != {} then Some(BulkCapacity(OverCap(m, grouped)))
           else if more > 0 && TotalBytes(m.scopes) + more > m.cfg.maxStoreBytes then Some(BulkFull(more))
           else None
  {
    hide Verdict, AnyInvalid, OverCap, BuiltScopes, TotalBytes, TotalItems, StoreOk, Emit, LaidOver;
    VerdictExactly(m, ToWarm, grouped, now, mints);
    LaidOverAnswer(m, BuiltScopes(m, grouped, now, mints), t);
  }

  lemma LaidOverAnswer(m: Mem, built: map<string, Scope>, t: Tick)
    requires StoreOk(m)
    ensures var d, more := LaidOver(m, built, t), TotalBytes(m.scopes + built) - TotalBytes(m.scopes);
      && (d.error.Some? ==> d.mem == m)
      && d.error ==
           if more > 0 && TotalBytes(m.scopes) + more > m.cfg.maxStoreBytes then Some(BulkFull(more)) else None
  {
    hide TotalBytes, TotalItems, StoreOk, Emit, WithScopes;
    CountedTotal(m, m.scopes + built);
  }

  lemma CountedTotal(m: Mem, scopes: map<string, Scope>)
    requires StoreOk(m)
    ensures m.total == TotalBytes(m.scopes) && WithScopes(m, scopes).total == TotalBytes(scopes)
  {
    hide TotalBytes, TotalItems;
  }

  /** When a rebuild is refused: the same faults, or a new content that does not fit beside two empty reserved
      scopes. How full the store is now does not matter. */
  lemma {:induction false} RebuildAnswer(m: Mem, grouped: Batch, now: int, mints: map<string, seq<Uuid>>)
    requires Matched(grouped, mints) && BatchFromClient(grouped)
    ensures var d, bytes := Rebuild(m, grouped, now, mints), TotalBytes(BuiltScopes(m, grouped, now, mints)) + 2048;
      && (d.error.Some? ==> d.mem == m)
      && d.error ==
           if AnyInvalid(m, grouped, mints) then Some(BulkInvalid)
           else if OverCap(m, grouped) != {} then Some(BulkCapacity(OverCap(m, grouped)))
           else if bytes > m.cfg.maxStoreBytes then Some(BulkFull(bytes))
           else None
  {
    VerdictExactly(m, ToRebuild, grouped, now, mints);
    var built := BuiltScopes(m, grouped, now, mints);
    if !AnyInvalid(m, grouped, mints) {
      assert EVENTS !in built && INBOX !in built by { NoReserved(m, grouped, mints); }
      AddTwo(built, EVENTS, INBOX);
    }
    hide Verdict, AnyInvalid, OverCap, BuiltScopes, TotalBytes, TotalItems;
  }

  lemma NoReserved(m: Mem, grouped: Batch, mints: map<string, seq<Uuid>>)
    requires Matched(grouped, mints) && !AnyInvalid(m, grouped, mints)
    ensures EVENTS !in grouped && INBOX !in grouped
  {
    assert forall n :: n in grouped ==> !Invalid(m, n, grouped[n], mints[n]);
  }
}
