/** What a caller can rely on after an operation on one scope: what was written is what is read back, what
    was named is what is gone, and nothing else moved. */
module ScopeLaws {
  import opened Types
  import opened ScopeSpec

  /** The entry a removal is about. */
  predicate Named(s: Scope, r: Removal, e: Entry) {
    match r
    case DeleteId(id) => id != "" && e.id == id
    case DeleteSeq(n) => e.seqNo == n
    case DeleteUuid(u) => e.uuid == Some(u)
    case UpToSeq(n) => e.seqNo <= n
    case UpToUuid(u) => exists i :: 0 <= i < |s.items| && s.items[i].uuid == Some(u) && e.seqNo <= s.items[i].seqNo
  }

  lemma {:induction false} AfterKeepsExactly(items: seq<Entry>, n: nat, e: Entry)
    ensures e in After(items, n) <==> e in items && e.seqNo > n
  {
    if items != [] {
      AfterKeepsExactly(items[1..], n, e);
      assert items == [items[0]] + items[1..];
    }
  }

  lemma {:induction false} RemoveAtKeepsExactly(s: Scope, at: nat, e: Entry)
    requires WellFormed(s) && at < |s.items|
    ensures e in RemoveAt(s, at).items <==> e in s.items && e.seqNo != s.items[at].seqNo
  {
    var items, rest := s.items, RemoveAt(s, at).items;
    if e in items && e.seqNo != items[at].seqNo {
      var i :| 0 <= i < |items| && items[i] == e;
      assert rest[if i < at then i else i - 1] == e;
    }
    if e in rest {
      var j :| 0 <= j < |rest| && rest[j] == e;
      assert items[if j < at then j else j + 1] == e;
    }
  }

  /** A removal deletes exactly the entries it names: no survivor is named, nothing unnamed is lost. */
  lemma {:induction false} RemovalRemovesExactly(s: Scope, r: Removal, e: Entry)
    requires WellFormed(s)
    ensures e in Remove(s, r).items <==> e in s.items && !Named(s, r, e)
  {
    match r
    case DeleteId(id) =>
      var at := FindId(s.items, id);
      if at.Some? { RemoveAtKeepsExactly(s, at.value, e); OnlyOne(s, at.value, e); }
    case DeleteSeq(n) =>
      var at := FindSeq(s.items, n);
      if at.Some? { RemoveAtKeepsExactly(s, at.value, e); }
    case DeleteUuid(u) =>
      var at := FindUuid(s.items, u);
      if at.Some? { RemoveAtKeepsExactly(s, at.value, e); OnlyOne(s, at.value, e); }
    case UpToSeq(n) => AfterKeepsExactly(s.items, n, e);
    case UpToUuid(u) =>
      var at := FindUuid(s.items, u);
      if at.Some? {
        AfterKeepsExactly(s.items, s.items[at.value].seqNo, e);
        assert forall i :: 0 <= i < |s.items| && s.items[i].uuid == Some(u) ==> i == at.value;
      }
  }

  /** Within a scope an id, a uuid and a sequence number each point at one entry. */
  lemma OnlyOne(s: Scope, at: nat, e: Entry)
    requires WellFormed(s) && at < |s.items|
    ensures e in s.items ==> (e.seqNo == s.items[at].seqNo <==> e == s.items[at])
    ensures e in s.items && e.id == s.items[at].id != "" ==> e == s.items[at]
    ensures e in s.items && e.uuid == s.items[at].uuid && e.uuid.Some? ==> e == s.items[at]
  {
    if e in s.items {
      var i :| 0 <= i < |s.items| && s.items[i] == e;
    }
  }

  // ---------- Writes ----------

  /** The address a write is about, as the position it is read back from. */
  function Located(s: Scope, w: Write): Option<nat> {
    match w
    case Append(req) => FindSeq(s.items, s.lastSeq)
    case Upsert(req) => FindId(s.items, req.id)
    case UpdateId(id, _, _) => FindId(s.items, id)
    case UpdateSeq(n, _, _) => FindSeq(s.items, n)
    case UpdateUuid(u, _, _) => FindUuid(s.items, u)
    case CounterAdd(_, id, _) => FindId(s.items, id)
  }

  /** An ordinary entry with this payload, rendered and stamped. */
  predicate Shows(e: Entry, payload: Bytes, render: Option<Bytes>, env: Env) {
    e.payload == payload && e.render == RenderFor(env.codec, payload, render) && e.counter.None? && e.ts == env.now
  }

  /** What must be found there. */
  predicate Carries(e: Entry, w: Write, env: Env) {
    match w
    case Append(req) =>
      && e.scope == req.scope && e.id == req.id && Shows(e, req.payload, req.render, env)
      && e.uuid == if env.attached && req.uuid.None? then Some(env.minted) else req.uuid
    case Upsert(req) => e.id == req.id && Shows(e, req.payload, req.render, env)
    case UpdateId(_, payload, render) => Shows(e, payload, render, env)
    case UpdateSeq(_, payload, render) => Shows(e, payload, render, env)
    case UpdateUuid(_, payload, render) => Shows(e, payload, render, env)
    case CounterAdd(_, id, add) =>
      && e.id == id && e.counter.Some? && e.counter.value.ts >= env.now
      && -MAX_COUNTER <= e.counter.value.value <= MAX_COUNTER
  }

  lemma {:induction false} CounterIsReadBack(s: Scope, w: Write, env: Env)
    requires WellFormed(s) && Fresh(s, env.minted) && w.CounterAdd? && w.id != ""
      && -MAX_COUNTER <= w.add <= MAX_COUNTER
    requires PlanOf(s, w, env).Ready?
    ensures var p := PlanOf(s, w, env);
      && p.at < |p.after.items| && WellFormed(p.after) && p.after.items[p.at].id == w.id
      && Carries(p.after.items[p.at], w, env) && (p.created <==> FindId(s.items, w.id).None?)
  {
    CounterIsSound(s, w.scope, w.id, w.add, env);
    hide ParseCounterValue;
  }

  lemma {:induction false} ItemIsReadBack(s: Scope, w: Write, env: Env)
    requires WellFormed(s) && FreshFor(s, w, env) && !w.CounterAdd? && PlanOf(s, w, env).Ready?
    ensures var p := PlanOf(s, w, env);
      && p.at < |p.after.items| && WellFormed(p.after)
      && Carries(p.after.items[p.at], w, env)
      && (w.Append? ==> p.after.items[p.at].seqNo == p.after.lastSeq)
      && (w.UpdateId? ==> p.after.items[p.at].id == w.id != "")
      && (w.UpdateSeq? ==> p.after.items[p.at].seqNo == w.seqNo)
      && (w.UpdateUuid? ==> p.after.items[p.at].uuid == Some(w.uuid))
      && (p.created <==> w.Append? || (w.Upsert? && Located(s, w).None?))
  {
    WriteIsSound(s, w, env);
    hide RenderFor, WellFormed, SizeSum, Fresh;
  }

  /** A write that goes ahead is read back through the address it was made with, a scope that refuses it is
      the only other case, and only an append or a missing id makes a new entry. */
  lemma {:induction false} WriteIsReadBack(s: Scope, w: Write, env: Env)
    requires WellFormed(s) && FreshFor(s, w, env) && PlanOf(s, w, env).Ready?
    requires w.Upsert? ==> w.req.id != ""
    requires w.CounterAdd? ==> w.id != "" && -MAX_COUNTER <= w.add <= MAX_COUNTER
    ensures var p := PlanOf(s, w, env);
      && Located(p.after, w) == Some(p.at)
      && Carries(p.after.items[p.at], w, env)
      && (p.created <==> w.Append? || ((w.Upsert? || w.CounterAdd?) && Located(s, w).None?))
  {
    hide PlanOf, Shows, Fresh;
    if w.CounterAdd? { CounterIsReadBack(s, w, env); } else { ItemIsReadBack(s, w, env); }
    var p := PlanOf(s, w, env);
    match w
    case Append(_) => FindSeqIs(p.after.items, p.at);
    case Upsert(_) => FindIdIs(p.after.items, p.at);
    case UpdateId(_, _, _) => FindIdIs(p.after.items, p.at);
    case UpdateSeq(_, _, _) => FindSeqIs(p.after.items, p.at);
    case UpdateUuid(_, _, _) => FindUuidIs(p.after.items, p.at);
    case CounterAdd(_, _, _) => FindIdIs(p.after.items, p.at);
  }

  /** A write that goes ahead leaves every other entry as it was, at the same position. */
  lemma {:induction false} WriteIsLocal(s: Scope, w: Write, env: Env)
    requires WellFormed(s) && FreshFor(s, w, env) && PlanOf(s, w, env).Ready?
    ensures var p := PlanOf(s, w, env);
      && |s.items| <= |p.after.items| <= |s.items| + 1
      && (forall i :: 0 <= i < |s.items| && i != p.at ==> p.after.items[i] == s.items[i])
      && s.lastSeq <= p.after.lastSeq
  {
    WriteIsSound(s, w, env);
    hide PlanOf, WellFormed, SizeSum;
  }
}
