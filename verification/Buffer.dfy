/** One scope in memory: a growable slice of heap items and three hash indexes that alias the
    same items, with counters kept up to date step by step. Every method is proved to have
    exactly the effect module ScopeSpec gives for the plain list of entries. */
module Buffer {
  import opened Types
  import opened ScopeSpec
  import opened Budgets

  /** A heap item. Scope, id, seqNo and uuid never change after insertion; the counter cell, which
      no other object points to, is folded into the entry. */
  class Item {
    var e: Entry

    constructor (e: Entry)
      ensures this.e == e
    {
      this.e := e;
    }
  }

  function IdBytes(items: seq<Entry>): nat {
    if items == [] then 0 else |items[0].id| + IdBytes(items[1..])
  }

  lemma {:induction false} IdBytesConcat(a: seq<Entry>, b: seq<Entry>)
    ensures IdBytes(a + b) == IdBytes(a) + IdBytes(b)
  {
    if a == [] {
      assert a + b == b;
    } else {
      IdBytesConcat(a[1..], b);
      assert (a + b)[1..] == a[1..] + b;
    }
  }

  lemma {:induction false} IdBytesSnoc(s: seq<Entry>, e: Entry)
    ensures IdBytes(s + [e]) == IdBytes(s) + |e.id|
  {
    IdBytesConcat(s, [e]);
    assert IdBytes([e]) == |e.id| + IdBytes([e][1..]);
  }

  /** Only items without ids cost no id bytes. */
  lemma {:induction false} NoIdBytes(s: seq<Entry>)
    ensures IdBytes(s) == 0 <==> forall i :: 0 <= i < |s| ==> s[i].id == ""
  {
    if s != [] {
      NoIdBytes(s[1..]);
      assert s == [s[0]] + s[1..];
    }
  }

  lemma {:induction false} IdBytesSplit(s: seq<Entry>, i: nat)
    requires i < |s|
    ensures IdBytes(s) == IdBytes(s[..i]) + |s[i].id| + IdBytes(s[i + 1..])
    ensures IdBytes(s[..i] + s[i + 1..]) == IdBytes(s) - |s[i].id|
  {
    IdBytesConcat(s[..i], s[i + 1..]);
    assert s == (s[..i] + [s[i]]) + s[i + 1..];
    IdBytesConcat(s[..i] + [s[i]], s[i + 1..]);
    IdBytesSnoc(s[..i], s[i]);
  }

  lemma {:induction false} IdBytesUpdate(s: seq<Entry>, i: nat, e: Entry)
    requires i < |s| && e.id == s[i].id
    ensures IdBytes(s[i := e]) == IdBytes(s)
  {
    IdBytesSplit(s, i);
    IdBytesSplit(s[i := e], i);
    assert s[i := e][..i] == s[..i] && s[i := e][i + 1..] == s[i + 1..];
  }

  const SHRINK_MIN_CAP := 1024
  const SHRINK_SPARSE_RATIO := 4

  // ---------- Hash indexes over a slice ----------

  function SeqKey(e: Entry): Option<nat> { Some(e.seqNo) }
  function IdKey(e: Entry): Option<string> { if e.id == "" then None else Some(e.id) }
  function UuidKey(e: Entry): Option<Uuid> { e.uuid }

  /** A map with one more binding, if there is a key. */
  function Bind<K, V>(m: map<K, V>, k: Option<K>, v: V): map<K, V> {
    if k.Some? then m[k.value := v] else m
  }

  function Unbind<K, V>(m: map<K, V>, k: Option<K>): map<K, V> {
    if k.Some? then m - {k.value} else m
  }

  /** The index over the first `n` items of a slice under one of their keys. */
  ghost function Index<K>(live: seq<Item>, c: seq<Entry>, n: nat, key: Entry -> Option<K>): map<K, Item>
    requires n <= |live| && n <= |c|
  {
    if n == 0 then map[] else Bind(Index(live, c, n - 1, key), key(c[n - 1]), live[n - 1])
  }

  ghost predicate UniqueKeys<K(!new)>(c: seq<Entry>, key: Entry -> Option<K>) {
    forall i, j :: 0 <= i < j < |c| && key(c[i]).Some? ==> key(c[i]) != key(c[j])
  }

  lemma {:induction false} KeysAreUnique(s: Scope)
    requires WellFormed(s)
    ensures UniqueKeys(s.items, SeqKey) && UniqueKeys(s.items, IdKey) && UniqueKeys(s.items, UuidKey)
  {
  }

  /** Only the first `n` items matter. */
  lemma {:induction false} IndexFrame<K>(live: seq<Item>, c: seq<Entry>, live': seq<Item>, c': seq<Entry>, n: nat,
    key: Entry -> Option<K>)
    requires n <= |live| && n <= |c| && n <= |live'| && n <= |c'|
    requires forall i :: 0 <= i < n ==> live[i] == live'[i] && key(c[i]) == key(c'[i])
    ensures Index(live, c, n, key) == Index(live', c', n, key)
  {
    if n > 0 {
      IndexFrame(live, c, live', c', n - 1, key);
    }
  }

  lemma {:induction false} IndexLookup<K(!new)>(live: seq<Item>, c: seq<Entry>, n: nat, key: Entry -> Option<K>, i: nat)
    requires n <= |live| && n <= |c| && i < n && UniqueKeys(c, key) && key(c[i]).Some?
    ensures var m := Index(live, c, n, key); key(c[i]).value in m && m[key(c[i]).value] == live[i]
  {
    if i < n - 1 {
      IndexLookup(live, c, n - 1, key, i);
    }
  }

  lemma {:induction false} IndexMiss<K(!new)>(live: seq<Item>, c: seq<Entry>, n: nat, key: Entry -> Option<K>, k: K)
    requires n <= |live| && n <= |c| && forall i :: 0 <= i < n ==> key(c[i]) != Some(k)
    ensures k !in Index(live, c, n, key)
  {
    if n > 0 {
      IndexMiss(live, c, n - 1, key, k);
    }
  }

  lemma {:induction false} IndexRemove<K(!new)>(live: seq<Item>, c: seq<Entry>, live': seq<Item>, c': seq<Entry>,
                                                n: nat, key: Entry -> Option<K>, i: nat)
    requires i < n <= |live| == |c| && UniqueKeys(c, key)
    requires live' == live[..i] + live[i + 1..] && c' == c[..i] + c[i + 1..]
    ensures Index(live', c', n - 1, key) == Unbind(Index(live, c, n, key), key(c[i]))
  {
    if i == n - 1 {
      IndexFrame(live, c, live', c', n - 1, key);
      if key(c[i]).Some? {
        IndexMiss(live, c, n - 1, key, key(c[i]).value);
      }
    } else {
      IndexRemove(live, c, live', c', n - 1, key, i);
      assert live'[n - 2] == live[n - 1] && c'[n - 2] == c[n - 1];
    }
  }

  lemma {:induction false} LookupId(live: seq<Item>, s: Scope, id: string)
    requires |live| == |s.items| && WellFormed(s)
    ensures var m, at := Index(live, s.items, |live|, IdKey), FindId(s.items, id);
      (id in m <==> at.Some?) && (at.Some? ==> m[id] == live[at.value])
  {
    KeysAreUnique(s);
    var at := FindId(s.items, id);
    if at.Some? {
      IndexLookup(live, s.items, |live|, IdKey, at.value);
    } else {
      IndexMiss(live, s.items, |live|, IdKey, id);
    }
  }

  lemma {:induction false} LookupSeq(live: seq<Item>, s: Scope, n: nat)
    requires |live| == |s.items| && WellFormed(s)
    ensures var m, at := Index(live, s.items, |live|, SeqKey), FindSeq(s.items, n);
      (n in m <==> at.Some?) && (at.Some? ==> m[n] == live[at.value])
  {
    KeysAreUnique(s);
    var at := FindSeq(s.items, n);
    if at.Some? {
      IndexLookup(live, s.items, |live|, SeqKey, at.value);
    } else {
      IndexMiss(live, s.items, |live|, SeqKey, n);
    }
  }

  lemma {:induction false} LookupUuid(live: seq<Item>, s: Scope, u: Uuid)
    requires |live| == |s.items| && WellFormed(s)
    ensures var m, at := Index(live, s.items, |live|, UuidKey), FindUuid(s.items, u);
      (u in m <==> at.Some?) && (at.Some? ==> m[u] == live[at.value])
  {
    KeysAreUnique(s);
    var at := FindUuid(s.items, u);
    if at.Some? {
      IndexLookup(live, s.items, |live|, UuidKey, at.value);
    } else {
      IndexMiss(live, s.items, |live|, UuidKey, u);
    }
  }

  class ScopeBuffer {
    const codec: Codec
    const maxItems: int
    const maxItemBytes: int
    var store: Budget?
    var detached: bool
    var items: array<Item?>
    var len: nat
    var byId: map<string, Item>
    var bySeq: map<nat, Item>
    var byUuid: map<Uuid, Item>
    var lastSeq: nat
    var firstUuid: Option<Uuid>
    var lastUuid: Option<Uuid>
    var bytes: int
    var idKeyBytes: int
    var lastWriteTs: int

    ghost var live: seq<Item>
    ghost var contents: seq<Entry>
    // How many items were deleted one at a time, and how many were copied to shrink the slice.
    ghost var removed: nat
    ghost var copied: nat
    // How far the running total of id lengths is off: a rebuild does not set that total.
    ghost var idDrift: int

    // ---------- The representation invariant ----------

    /** The slice: its live part, and nothing retained behind it. */
    ghost predicate Slice()
      reads this, items
    {
      && len == |live| <= items.Length
      && (forall i :: 0 <= i < len ==> items[i] == live[i])
      && (forall i :: len <= i < items.Length ==> items[i] == null)
    }

    ghost predicate Held()
      reads this, live
    {
      |live| == |contents| && forall i :: 0 <= i < |live| ==> live[i].e == contents[i]
    }

    ghost predicate Indexed()
      reads this
      requires |live| == |contents|
    {
      && bySeq == Index(live, contents, |live|, SeqKey)
      && byId == Index(live, contents, |live|, IdKey)
      && byUuid == Index(live, contents, |live|, UuidKey)
    }

    /** The byte counter is exact, the id total is off by its drift, and the deletions so far pay for every
        copy made to shrink the slice; the slots a large slice is too long by are credit for the next copy. */
    ghost predicate Accounted()
      reads this, items
    {
      && bytes == SizeSum(contents)
      && idKeyBytes == IdBytes(contents) + idDrift
      && copied <= removed
      && (items.Length > SHRINK_MIN_CAP ==> 2 * (removed - copied) >= items.Length - 2 * len)
    }

    /** The total of id lengths, kept for statistics only, is right: in a valid buffer, exactly when its
        drift is zero. */
    ghost predicate IdsCounted()
      reads this
    {
      idKeyBytes == IdBytes(contents)
    }

    ghost predicate Valid()
      reads this, items, live
    {
      Slice() && Held() && Indexed() && Accounted() && WellFormed(State()) && (detached ==> store == null)
    }

    function Total(): int
      reads this, store
    {
      if store == null then 0 else store.totalBytes
    }

    function MaxTotal(): int
      reads this
    {
      if store == null then 0 else store.maxBytes
    }

    ghost function State(): Scope
      reads this
    {
      Scope(contents, lastSeq, firstUuid, lastUuid)
    }

    function EnvAt(now: int, minted: Uuid): Env
      reads this
    {
      Env(codec, store != null, maxItems, maxItemBytes, now, minted)
    }

    constructor (codec: Codec, maxItems: int, maxItemBytes: int, store: Budget?, now: int)
      ensures Valid()
      ensures State() == EMPTY_SCOPE && !detached && this.store == store
      ensures this.codec == codec && this.maxItems == maxItems && this.maxItemBytes == maxItemBytes
      ensures removed == copied == 0 && idDrift == 0 && lastWriteTs == now
    {
      this.codec, this.maxItems, this.maxItemBytes, this.store := codec, maxItems, maxItemBytes, store;
      detached := false;
      items, len, byId, bySeq, byUuid := new Item?[0], 0, map[], map[], map[];
      lastSeq, firstUuid, lastUuid := 0, None, None;
      bytes, idKeyBytes, lastWriteTs := 0, 0, now;
      live, contents, removed, copied, idDrift := [], [], 0, 0, 0;
    }

    /** Unlinks the buffer from its store. */
    method Detach()
      requires Valid()
      modifies this`detached, this`store
      ensures Valid() && detached && store == null
    {
      hide WellFormed, Index, SizeSum, IdBytes;
      detached := true;
      store := null;
    }

    // ---------- Searching ----------

    /** The position of the live item with this sequence number, by binary search. */
    method IndexBySeqLocked(n: nat) returns (r: Option<nat>)
      requires Slice() && Held() && Ordered(contents)
      ensures r == FindSeq(contents, n)
    {
      var lo, hi := 0, len;
      while lo < hi
        invariant 0 <= lo <= hi <= len
        invariant forall k :: 0 <= k < lo ==> contents[k].seqNo < n
        invariant forall k :: hi <= k < len ==> contents[k].seqNo >= n
      {
        var mid := (lo + hi) / 2;
        if items[mid].e.seqNo >= n {
          hi := mid;
        } else {
          lo := mid + 1;
        }
      }
      if lo < len && items[lo].e.seqNo == n {
        FindSeqIs(contents, lo);
        return Some(lo);
      }
      return None;
    }

    /** The first position whose sequence number is beyond `n`, by binary search. */
    method CutLocked(n: nat) returns (i: nat)
      requires Slice() && Held() && Ordered(contents)
      ensures i == Cut(contents, n)
    {
      var lo, hi := 0, len;
      while lo < hi
        invariant 0 <= lo <= hi <= len
        invariant forall k :: 0 <= k < lo ==> contents[k].seqNo <= n
        invariant forall k :: hi <= k < len ==> contents[k].seqNo > n
      {
        var mid := (lo + hi) / 2;
        if items[mid].e.seqNo > n {
          hi := mid;
        } else {
          lo := mid + 1;
        }
      }
      CutIs(contents, n, lo);
      return lo;
    }

    // ---------- The slice ----------

    /** Appends to the slice. A full slice moves to a longer array whose length the runtime picks. */
    method SlicePush(x: Item, growTo: nat)
      requires Slice() && growTo > len
      modifies this`items, this`len, this`live, items
      ensures Slice() && live == old(live) + [x]
      ensures items == old(items) || (fresh(items) && old(len) == old(items.Length) && items.Length == growTo)
    {
      if len == items.Length {
        var bigger := new Item?[growTo](_ => null);
        forall i | 0 <= i < len {
          bigger[i] := items[i];
        }
        items := bigger;
      }
      items[len] := x;
      len := len + 1;
      live := live + [x];
    }

    /** Shifts the tail one place down and clears the slot that became a duplicate. */
    method SliceRemove(i: nat)
      requires Slice() && i < len
      modifies this`len, this`live, items
      ensures Slice() && live == old(live[..i] + live[i + 1..])
    {
      forall k | i <= k < len - 1 {
        items[k] := items[k + 1];
      }
      items[len - 1] := null;
      len := len - 1;
      live := live[..i] + live[i + 1..];
    }

    /** A fresh array of exactly the live items from `k` on. */
    method SliceFrom(k: nat) returns (rest: array<Item?>)
      requires Slice() && k <= len
      ensures fresh(rest) && rest.Length == len - k
      ensures forall i :: 0 <= i < rest.Length ==> rest[i] == live[k + i]
    {
      rest := new Item?[len - k](_ => null);
      forall i | 0 <= i < len - k {
        rest[i] := items[k + i];
      }
    }

    // ---------- Inserting ----------

    /** What the runtime promises when it lengthens a full slice: room for one more, and for large
        slices no more than twice what is needed. */
    predicate GrowthOk(growTo: nat)
      reads this
    {
      len < growTo && (growTo > SHRINK_MIN_CAP ==> growTo <= 2 * (len + 1))
    }

    twostate predicate Framed()
      reads this
    {
      && store == old(store) && detached == old(detached)
      && (items == old(items) || fresh(items))
      && forall i :: 0 <= i < |live| ==> live[i] in old(live) || fresh(live[i])
    }

    /** A write had exactly the specified effect on the scope, on the store's counters and on the
        freshness stamps; counter activity leaves the stamps alone. */
    twostate predicate Wrote(o: Outcome, new error: Option<WriteError>, stamp: bool, now: int)
      reads this, store
    {
      && Framed()
      && State() == o.scope && Total() == o.total && error == o.error
      && lastWriteTs == (if o.hit && stamp then now else old(lastWriteTs))
      && (store != null ==>
            && store.totalItems == old(store.totalItems) + |contents| - |old(contents)|
            && store.lastWriteTs == if o.hit && stamp then Max(old(store.lastWriteTs), now) else old(store.lastWriteTs))
      && removed == old(removed) && copied == old(copied) && idDrift == old(idDrift)
    }

    /** The freshness stamps of the scope and the store move to the present exactly if something changed, and
        never back; the scope's own stamp is the last change. */
    twostate predicate Stamped(changed: bool, now: int)
      reads this, store
    {
      && store == old(store)
      && lastWriteTs == (if changed then now else old(lastWriteTs))
      && (store != null && !changed ==> store.lastWriteTs == old(store.lastWriteTs))
      && (store != null && changed ==>
            store.lastWriteTs >= now && store.lastWriteTs >= old(store.lastWriteTs)
            && (store.lastWriteTs == now || store.lastWriteTs == old(store.lastWriteTs)))
    }

    method IndexEntry(x: Item, e: Entry)
      modifies this`bySeq, this`byId, this`byUuid, this`idKeyBytes, this`firstUuid, this`lastUuid
      ensures bySeq == Bind(old(bySeq), SeqKey(e), x)
      ensures byId == Bind(old(byId), IdKey(e), x)
      ensures byUuid == Bind(old(byUuid), UuidKey(e), x)
      ensures idKeyBytes == old(idKeyBytes) + |e.id|
      ensures firstUuid == if e.uuid.Some? && old(firstUuid).None? then e.uuid else old(firstUuid)
      ensures lastUuid == if e.uuid.Some? then e.uuid else old(lastUuid)
    {
      bySeq := bySeq[e.seqNo := x];
      if e.id != "" {
        byId := byId[e.id := x];
        idKeyBytes := idKeyBytes + |e.id|;
      }
      if e.uuid.Some? {
        byUuid := byUuid[e.uuid.value := x];
        if firstUuid.None? {
          firstUuid := e.uuid;
        }
        lastUuid := e.uuid;
      }
    }

    method PushEntry(e: Entry, growTo: nat) returns (ghost x: Item)
      requires Slice() && Held() && growTo > len
      modifies this, items
      ensures Slice() && Held() && live == old(live) + [x] && fresh(x) && contents == old(contents) + [e]
      ensures items == old(items) || (fresh(items) && items.Length == growTo && old(len) == old(items.Length))
      ensures bySeq == Bind(old(bySeq), SeqKey(e), x)
      ensures byId == Bind(old(byId), IdKey(e), x)
      ensures byUuid == Bind(old(byUuid), UuidKey(e), x)
      ensures bytes == old(bytes) + Size(e) && idKeyBytes == old(idKeyBytes) + |e.id|
      ensures firstUuid == if e.uuid.Some? && old(firstUuid).None? then e.uuid else old(firstUuid)
      ensures lastUuid == if e.uuid.Some? then e.uuid else old(lastUuid)
      ensures unchanged(`lastSeq, `store, `detached, `lastWriteTs, `removed, `copied, `idDrift)
    {
      hide Size, Bind, SeqKey, IdKey, UuidKey;
      var it := new Item(e);
      x := it;
      SlicePush(it, growTo);
      IndexEntry(it, e);
      bytes := bytes + Size(e);
      contents := contents + [e];
    }

    /** Gives the entry the next sequence number and enters it in the slice and all indexes. */
    method StoreEntry(e: Entry, growTo: nat) returns (stored: Entry, ghost x: Item)
      requires Valid() && GrowthOk(growTo)
      requires FindId(contents, e.id).None? && (e.uuid.None? || Fresh(State(), e.uuid.value))
      modifies this, items
      ensures Valid()
      ensures State() == Pushed(old(State()), e) && stored == e.(seqNo := lastSeq)
        && contents == old(contents) + [stored]
      ensures live == old(live) + [x] && fresh(x)
      ensures items == old(items) || fresh(items)
      ensures unchanged(`store, `detached, `lastWriteTs, `removed, `copied, `idDrift)
    {
      hide WellFormed, Index, SizeSum, IdBytes, FindId, Size, Fresh, Bind, SeqKey, IdKey, UuidKey;
      ghost var s, live0 := State(), live;
      stored := e.(seqNo := lastSeq + 1);
      lastSeq := lastSeq + 1;
      x := PushEntry(stored, growTo);
      PushFacts(live0, s, x, e);
    }

    // ---------- Addressing and reserving ----------

    /** The id index, the slice and the binary search agree on where an id lives. */
    lemma IdAddress(id: string)
      requires Valid()
      ensures id in byId <==> FindId(contents, id).Some?
      ensures FindId(contents, id).Some? ==> var i := FindId(contents, id).value;
        byId[id] == live[i] && live[i].e == contents[i] && FindSeq(contents, contents[i].seqNo) == Some(i)
    {
      LookupId(live, State(), id);
      var at := FindId(contents, id);
      if at.Some? { FindSeqIs(contents, at.value); }
    }

    lemma SeqAddress(n: nat)
      requires Valid()
      ensures n in bySeq <==> FindSeq(contents, n).Some?
      ensures FindSeq(contents, n).Some? ==> var i := FindSeq(contents, n).value;
        bySeq[n] == live[i] && live[i].e == contents[i]
    {
      LookupSeq(live, State(), n);
    }

    lemma UuidAddress(u: Uuid)
      requires Valid()
      ensures u in byUuid <==> FindUuid(contents, u).Some?
      ensures FindUuid(contents, u).Some? ==> var i := FindUuid(contents, u).value;
        byUuid[u] == live[i] && live[i].e == contents[i] && FindSeq(contents, contents[i].seqNo) == Some(i)
    {
      LookupUuid(live, State(), u);
      var at := FindUuid(contents, u);
      if at.Some? { FindSeqIs(contents, at.value); }
    }

    method Reserve(delta: int) returns (error: Option<WriteError>)
      modifies store
      ensures store != null ==> unchanged(store`totalItems, store`lastWriteTs)
      ensures var ok := store == null || CanReserve(old(Total()), MaxTotal(), delta);
        && error == (if ok then None else Some(StoreFull(old(Total()), delta, MaxTotal())))
        && Total() == old(Total()) + if ok && store != null then delta else 0
    {
      if store != null && delta != 0 {
        var ok, current := store.ReserveBytes(delta);
        if !ok {
          return Some(StoreFull(current, delta, store.maxBytes));
        }
      }
      return None;
    }

    // ---------- Writes ----------

    method InsertNewItemLocked(req: Entry, now: int, minted: Uuid, growTo: nat) returns (r: Result<Entry, WriteError>)
      requires Valid() && GrowthOk(growTo) && FindId(contents, req.id).None?
      requires Fresh(State(), minted) && (req.uuid.None? || Fresh(State(), req.uuid.value))
      modifies this, items, store
      ensures Valid()
      ensures Wrote(old(Settle(State(), PlanInsert(State(), req, EnvAt(now, minted)), store != null, Total(),
        MaxTotal())),
                    ErrorOf(r), true, now)
      ensures r.Ok? ==> |contents| == |old(contents)| + 1 && r.value == contents[|old(contents)|]
    {
      hide WellFormed, Index, SizeSum, IdBytes, FindId, Size, Fresh, RenderFor, Pushed;
      var e := req.(counter := None, ts := now, render := RenderFor(codec, req.payload, req.render));
      if store != null && e.uuid.None? {
        e := e.(uuid := Some(minted));
      }
      var size := Size(e);
      if store != null && size > maxItemBytes {
        return Err(ItemTooLarge(size, maxItemBytes));
      }
      var error := Reserve(size);
      if error.Some? {
        return Err(error.value);
      }
      var stored, x := StoreEntry(e, growTo);
      if store != null {
        store.totalItems := store.totalItems + 1;
        store.BumpLastWriteTs(now);
      }
      lastWriteTs := now;
      return Ok(stored);
    }

    method AppendItem(req: Entry, now: int, minted: Uuid, growTo: nat) returns (r: Result<Entry, WriteError>)
      requires Valid() && GrowthOk(growTo) && FreshFor(State(), Append(req), EnvAt(now, minted))
      modifies this, items, store
      ensures Valid()
      ensures Stamped(r.Ok?, now)
      ensures Wrote(old(Effect(State(), detached, Append(req), EnvAt(now, minted), Total(), MaxTotal())), ErrorOf(r),
        true, now)
      ensures r.Ok? ==> |contents| == |old(contents)| + 1 && r.value == contents[|old(contents)|]
    {
      hide WellFormed, Index, SizeSum, IdBytes, FindId, Size, Fresh, PlanInsert;
      if detached {
        return Err(ScopeDetached);
      }
      if maxItems > 0 && len + 1 > maxItems {
        return Err(ScopeFull(len, maxItems));
      }
      IdAddress(req.id);
      if req.id != "" && req.id in byId {
        return Err(DuplicateId);
      }
      r := InsertNewItemLocked(req, now, minted, growTo);
    }

    // ---------- Replacing in place ----------

    /** Overwrites one heap item; every index that holds it sees the new entry. */
    method SetEntry(it: Item, ghost i: nat, e: Entry, delta: int)
      requires Slice() && Held() && i < len && it == live[i] && Ordered(contents)
      modifies this, it
      ensures Slice() && Held() && contents == old(contents)[i := e] && bytes == old(bytes) + delta
      ensures unchanged(`live, `items, `len, `bySeq, `byId, `byUuid, `idKeyBytes, `lastSeq, `firstUuid, `lastUuid)
      ensures unchanged(`store, `detached, `lastWriteTs, `removed, `copied, `idDrift)
    {
      it.e := e;
      contents := contents[i := e];
      bytes := bytes + delta;
    }

    method ReplaceEntry(it: Item, ghost i: nat, e: Entry, delta: int)
      requires Valid() && i < len && it == live[i] && SameAddress(e, contents[i])
      requires delta == PayloadCost(e) - PayloadCost(contents[i])
      modifies this, it
      ensures Valid() && State() == old(State()).(items := old(contents)[i := e])
      ensures unchanged(`live, `items, `store, `detached, `lastWriteTs, `removed, `copied, `idDrift)
    {
      hide Index, SizeSum, IdBytes, PayloadCost, SeqKey, IdKey, UuidKey;
      ReplaceFacts(live, State(), i, e);
      SetEntry(it, i, e, delta);
    }

    method ReplaceItemAtIndexLocked(i: nat, payload: Bytes, ts: int, render: Option<Bytes>, delta: int)
      requires Valid() && i < len
      requires delta == |payload| + RenderLen(render) - PayloadCost(contents[i])
      modifies this, live[i], store
      ensures Valid() && Framed()
      ensures State() == old(State()).(items := old(contents)[i :=
        old(contents)[i].(payload := payload, ts := ts, render := render, counter := None)])
      ensures lastWriteTs == ts && removed == old(removed) && copied == old(copied) && idDrift == old(idDrift)
      ensures store != null ==>
        unchanged(store`totalBytes, store`totalItems) && store.lastWriteTs == Max(old(store.lastWriteTs), ts)
    {
      hide WellFormed, Index, SizeSum, IdBytes;
      assert items[i] == live[i] && live[i].e == contents[i];
      var e := items[i].e.(payload := payload, ts := ts, render := render, counter := None);
      ReplaceEntry(items[i], i, e, delta);
      lastWriteTs := ts;
      if store != null {
        store.BumpLastWriteTs(ts);
      }
    }

    method UpsertById(req: Entry, now: int, minted: Uuid, growTo: nat) returns (r: Result<(Entry, bool), WriteError>)
      requires Valid() && GrowthOk(growTo) && FreshFor(State(), Upsert(req), EnvAt(now, minted))
      modifies this, items, live, store
      ensures Valid()
      ensures Stamped(r.Ok?, now)
      ensures Wrote(old(Effect(State(), detached, Upsert(req), EnvAt(now, minted), Total(), MaxTotal())), ErrorOf(r),
        true, now)
      ensures r.Ok? ==> var at := if r.value.1 then Some(|old(contents)|) else old(FindId(contents, req.id));
        at.Some? && at.value < |contents| && r.value.0 == contents[at.value]
    {
      hide WellFormed, Index, SizeSum, IdBytes, FindId, Fresh, PlanInsert, PlanReplace;
      if detached {
        return Err(ScopeDetached);
      }
      IdAddress(req.id);
      if req.id in byId {
        var replaced, i := ReplaceFound(byId[req.id], req.payload, req.render, now, FindId(contents, req.id).value,
          EnvAt(now, minted));
        if replaced.Err? {
          return Err(replaced.error);
        }
        assert live[i].e == contents[i];
        return Ok((items[i].e, false));
      }
      if maxItems > 0 && len + 1 > maxItems {
        return Err(ScopeFull(len, maxItems));
      }
      var inserted := InsertNewItemLocked(req, now, minted, growTo);
      if inserted.Err? {
        return Err(inserted.error);
      }
      return Ok((inserted.value, true));
    }

    method UpdateById(id: string, payload: Bytes, preRender: Option<Bytes>, now: int, ghost env: Env)
      returns (r: Result<nat, WriteError>)
      requires Valid() && env == EnvAt(now, env.minted)
      modifies this, live, store
      ensures Valid()
      ensures Stamped(r.Ok? && r.value > 0, now)
      ensures var o := old(Effect(State(), detached, UpdateId(id, payload, preRender), env, Total(), MaxTotal()));
        Wrote(o, ErrorOf(r), true, now) && (r.Ok? ==> r.value == if o.hit then 1 else 0)
    {
      hide WellFormed, Index, SizeSum, IdBytes, FindId, FindSeq;
      if detached {
        return Err(ScopeDetached);
      }
      IdAddress(id);
      if id !in byId {
        return Ok(0);
      }
      var existing := byId[id];
      var pos;
      r, pos := ReplaceFound(existing, payload, preRender, now, FindId(contents, id).value, env);
    }

    /** The shared second half of the update paths: reserve the difference, find the position, replace. */
    method ReplaceFound(existing: Item, payload: Bytes, preRender: Option<Bytes>, now: int, ghost i: nat,
      ghost env: Env)
      returns (r: Result<nat, WriteError>, pos: nat)
      requires Valid() && env == EnvAt(now, env.minted) && i < len && existing == live[i]
      modifies this, live, store
      ensures Valid()
      ensures Stamped(r.Ok?, now)
      ensures var o := old(Settle(State(), PlanReplace(State(), i, payload, preRender, env), store != null, Total(),
        MaxTotal()));
        Wrote(o, ErrorOf(r), true, now) && (r.Ok? ==> r.value == 1 && pos == i < len)
    {
      hide Index, SizeSum, IdBytes, FindSeq;
      FindSeqIs(contents, i);
      var render := RenderFor(codec, payload, preRender);
      var delta := |payload| + RenderLen(render) - PayloadCost(existing.e);
      var error := Reserve(delta);
      if error.Some? {
        return Err(error.value), 0;
      }
      var at := IndexBySeqLocked(existing.e.seqNo);
      assert at == Some(i);
      ReplaceItemAtIndexLocked(at.value, payload, now, render, delta);
      return Ok(1), at.value;
    }

    method UpdateBySeq(n: nat, payload: Bytes, preRender: Option<Bytes>, now: int, ghost env: Env)
      returns (r: Result<nat, WriteError>)
      requires Valid() && env == EnvAt(now, env.minted)
      modifies this, live, store
      ensures Valid()
      ensures Stamped(r.Ok? && r.value > 0, now)
      ensures var o := old(Effect(State(), detached, UpdateSeq(n, payload, preRender), env, Total(), MaxTotal()));
        Wrote(o, ErrorOf(r), true, now) && (r.Ok? ==> r.value == if o.hit then 1 else 0)
    {
      hide WellFormed, Index, SizeSum, IdBytes, FindSeq;
      if detached {
        return Err(ScopeDetached);
      }
      SeqAddress(n);
      if n !in bySeq {
        return Ok(0);
      }
      r := CheckedReplaceFound(bySeq[n], payload, preRender, now, FindSeq(contents, n).value, env);
    }

    method UpdateByUuid(u: Uuid, payload: Bytes, preRender: Option<Bytes>, now: int, ghost env: Env)
      returns (r: Result<nat, WriteError>)
      requires Valid() && env == EnvAt(now, env.minted)
      modifies this, live, store
      ensures Valid()
      ensures Stamped(r.Ok? && r.value > 0, now)
      ensures var o := old(Effect(State(), detached, UpdateUuid(u, payload, preRender), env, Total(), MaxTotal()));
        Wrote(o, ErrorOf(r), true, now) && (r.Ok? ==> r.value == if o.hit then 1 else 0)
    {
      hide WellFormed, Index, SizeSum, IdBytes, FindUuid;
      if detached {
        return Err(ScopeDetached);
      }
      UuidAddress(u);
      if u !in byUuid {
        return Ok(0);
      }
      r := CheckedReplaceFound(byUuid[u], payload, preRender, now, FindUuid(contents, u).value, env);
    }

    /** The update paths whose address does not carry the id check the stored item's size again. */
    method CheckedReplaceFound(existing: Item, payload: Bytes, preRender: Option<Bytes>, now: int, ghost i: nat,
      ghost env: Env)
      returns (r: Result<nat, WriteError>)
      requires Valid() && env == EnvAt(now, env.minted) && i < len && existing == live[i]
      modifies this, live, store
      ensures Valid()
      ensures var o := old(Settle(State(), PlanChecked(State(), i, payload, preRender, env), store != null, Total(),
        MaxTotal()));
        Wrote(o, ErrorOf(r), true, now) && (r.Ok? ==> r.value == if o.hit then 1 else 0)
    {
      hide WellFormed, Index, SizeSum, IdBytes;
      assert existing.e == contents[i];
      var candidate := existing.e.(payload := payload, render := RenderFor(codec, payload, preRender), counter := None);
      if store != null && Size(candidate) > maxItemBytes {
        return Err(ItemTooLarge(Size(candidate), maxItemBytes));
      }
      var pos;
      r, pos := ReplaceFound(existing, payload, preRender, now, i, env);
    }

    // ---------- Counters ----------

    /** The increment of an item that already is a counter: no bytes, no cursor, no freshness stamp. */
    method AtomicCounterAdd(it: Item, add: int, now: int, ghost i: nat) returns (r: Result<int, WriteError>)
      requires Valid() && i < len && it == live[i] && contents[i].counter.Some?
      modifies this, it
      ensures Valid() && Framed()
      ensures var c, next := old(contents)[i].counter.value, old(contents)[i].counter.value.value + add;
        if next > MAX_COUNTER || next < -MAX_COUNTER
        then r == Err(CounterOverflow(c.value, add)) && State() == old(State())
        else r == Ok(next) && State() == old(State()).(items :=
          old(contents)[i := old(contents)[i].(counter := Some(Counter(next, Max(c.ts, now))))])
      ensures unchanged(`lastWriteTs, `removed, `copied, `idDrift)
    {
      hide WellFormed, Index, SizeSum, IdBytes;
      assert it.e == contents[i];
      var cell := it.e.counter.value;
      var next := cell.value + add;
      if next > MAX_COUNTER || next < -MAX_COUNTER {
        return Err(CounterOverflow(cell.value, add));
      }
      ReplaceEntry(it, i, it.e.(counter := Some(Counter(next, Max(cell.ts, now)))), 0);
      return Ok(next);
    }

    method CounterAdd(scope: string, id: string, add: int, now: int, minted: Uuid, growTo: nat)
      returns (r: Result<(int, bool), WriteError>)
      requires Valid() && GrowthOk(growTo) && Fresh(State(), minted)
      modifies this, items, live, store
      ensures Valid()
      ensures Stamped(false, now)
      ensures Wrote(old(Effect(State(), detached, Write.CounterAdd(scope, id, add), EnvAt(now, minted), Total(),
        MaxTotal())), ErrorOf(r), false, now)
      ensures r.Ok? ==> var at := if r.value.1 then Some(|old(contents)|) else old(FindId(contents, id));
        at.Some? && at.value < |contents| && contents[at.value].counter.Some? && contents[at.value].id == id
          && r.value.0 == contents[at.value].counter.value.value
    {
      hide WellFormed, Index, SizeSum, IdBytes, FindId, Fresh, Size, Pushed, ParseCounterValue;
      if detached {
        return Err(ScopeDetached);
      }
      IdAddress(id);
      if id in byId {
        ghost var i := FindId(contents, id).value;
        var existing := byId[id];
        var value := CounterAddFound(existing, scope, add, now, i, EnvAt(now, minted));
        if value.Err? {
          return Err(value.error);
        }
        return Ok((value.value, false));
      }
      if maxItems > 0 && len + 1 > maxItems {
        return Err(ScopeFull(len, maxItems));
      }
      var error := CreateCounter(scope, id, add, now, minted, growTo);
      if error.Some? {
        return Err(error.value);
      }
      return Ok((add, true));
    }

    method CounterAddFound(existing: Item, ghost scope: string, add: int, now: int, ghost i: nat, ghost env: Env)
      returns (r: Result<int, WriteError>)
      requires Valid() && env == EnvAt(now, env.minted) && !detached
      requires i < len && existing == live[i] && FindId(contents, contents[i].id) == Some(i)
      modifies this, live, store
      ensures Valid()
      ensures Wrote(old(Settle(State(), PlanCounterAdd(State(), scope, contents[i].id, add, env), store != null,
        Total(), MaxTotal())), ErrorOf(r), false, now)
      ensures r.Ok? ==>
        |contents| == |old(contents)| && contents[i].counter.Some? && r.value == contents[i].counter.value.value
      ensures i < |contents| && contents[i].id == old(contents)[i].id
    {
      hide WellFormed, Index, SizeSum, IdBytes, FindId, Size, ParseCounterValue;
      assert existing.e == contents[i];
      if existing.e.counter.Some? {
        r := AtomicCounterAdd(existing, add, now, i);
      } else {
        r := Promote(existing, scope, add, now, i, env);
      }
    }

    /** Turns an item holding an integer payload into a counter. */
    method Promote(existing: Item, ghost scope: string, add: int, now: int, ghost i: nat, ghost env: Env)
      returns (r: Result<int, WriteError>)
      requires Valid() && env == EnvAt(now, env.minted) && !detached
      requires i < len && existing == live[i] && contents[i].counter.None?
        && FindId(contents, contents[i].id) == Some(i)
      modifies this, live, store
      ensures Valid()
      ensures Wrote(old(Settle(State(), PlanCounterAdd(State(), scope, contents[i].id, add, env), store != null,
        Total(), MaxTotal())), ErrorOf(r), false, now)
      ensures r.Ok? ==>
        |contents| == |old(contents)| && contents[i].counter.Some? && r.value == contents[i].counter.value.value
      ensures i < |contents| && contents[i].id == old(contents)[i].id
    {
      hide Index, SizeSum, IdBytes, FindId, FindSeq;
      assert existing.e == contents[i];
      var current := ParseCounterValue(codec, existing.e.payload);
      if current.None? {
        return Err(CounterPayload);
      }
      var next := current.value + add;
      if next > MAX_COUNTER || next < -MAX_COUNTER {
        return Err(CounterOverflow(current.value, add));
      }
      var at := IndexBySeqLocked(existing.e.seqNo);
      FindSeqIs(contents, i);
      assert at == Some(i);
      var promoted := existing.e.(counter := Some(Counter(next, now)), payload := [], render := None);
      var delta := Size(promoted) - Size(existing.e);
      var error := Reserve(delta);
      if error.Some? {
        return Err(error.value);
      }
      ReplaceEntry(items[at.value], i, promoted, delta);
      return Ok(next);
    }

    method CreateCounter(scope: string, id: string, add: int, now: int, minted: Uuid, growTo: nat)
      returns (error: Option<WriteError>)
      requires Valid() && GrowthOk(growTo) && Fresh(State(), minted) && FindId(contents, id).None?
      modifies this, items, store
      ensures Valid()
      ensures var u := if store != null then Some(minted) else None;
        var e := Entry(scope, id, 0, now, u, [], None, Some(Counter(add, now)));
        && Wrote(old(Settle(State(), Ready(Size(e), Pushed(State(), e), |contents|, true), store != null, Total(),
             MaxTotal())), error, false, now)
        && (error.None? ==>
             && |contents| == |old(contents)| + 1 && contents[|old(contents)|].id == id
             && contents[|old(contents)|].counter == Some(Counter(add, now)))
    {
      hide WellFormed, Index, SizeSum, IdBytes, FindId, Size, Fresh;
      var u := if store != null then Some(minted) else None;
      var e := Entry(scope, id, 0, now, u, [], None, Some(Counter(add, now)));
      error := Reserve(Size(e));
      if error.Some? {
        return;
      }
      var stored, x := StoreEntry(e, growTo);
      if store != null {
        store.totalItems := store.totalItems + 1;
      }
    }

    // ---------- Deleting ----------

    method UnindexEntry(e: Entry)
      modifies this`bySeq, this`byId, this`byUuid, this`idKeyBytes
      ensures bySeq == Unbind(old(bySeq), SeqKey(e))
      ensures byId == Unbind(old(byId), IdKey(e))
      ensures byUuid == Unbind(old(byUuid), UuidKey(e))
      ensures idKeyBytes == old(idKeyBytes) - |e.id|
    {
      bySeq := bySeq - {e.seqNo};
      if e.id != "" {
        byId := byId - {e.id};
        idKeyBytes := idKeyBytes - |e.id|;
      }
      if e.uuid.Some? {
        byUuid := byUuid - {e.uuid.value};
      }
    }

    method PullEntry(i: nat)
      requires Slice() && Held() && i < len
      modifies this, items
      ensures Slice() && Held()
      ensures live == old(live)[..i] + old(live)[i + 1..] && contents == old(contents)[..i] + old(contents)[i + 1..]
      ensures var e := old(contents)[i];
        && bySeq == Unbind(old(bySeq), SeqKey(e)) && byId == Unbind(old(byId), IdKey(e))
        && byUuid == Unbind(old(byUuid), UuidKey(e))
        && bytes == old(bytes) - Size(e) && idKeyBytes == old(idKeyBytes) - |e.id|
      ensures unchanged(`items, `store, `detached, `lastWriteTs, `copied, `removed, `lastSeq, `firstUuid, `lastUuid,
        `idDrift)
    {
      hide Size, Unbind, SeqKey, IdKey, UuidKey;
      var e := items[i].e;
      assert live[i].e == contents[i];
      SliceRemove(i);
      UnindexEntry(e);
      bytes := bytes - Size(e);
      contents := contents[..i] + contents[i + 1..];
    }

    /** Removes position `i` from the slice and its entry from all indexes and counters. */
    method UnlinkEntry(i: nat)
      requires Valid() && i < len
      modifies this, items
      ensures Valid() && State() == RemoveAt(old(State()), i)
      ensures live == old(live)[..i] + old(live)[i + 1..]
      ensures unchanged(`items, `store, `detached, `lastWriteTs, `copied, `idDrift) && removed == old(removed) + 1
    {
      hide WellFormed, Index, SizeSum, IdBytes, Size, Unbind, SeqKey, IdKey, UuidKey;
      RemoveFacts(live, State(), i);
      PullEntry(i);
      removed := removed + 1;
    }

    method ResetIfEmptyLocked()
      requires Valid()
      modifies this
      ensures Valid() && State() == old(State())
      ensures items == old(items) || (fresh(items) && items.Length == 0)
      ensures idDrift == if contents == [] then 0 else old(idDrift)
      ensures unchanged(`live, `store, `detached, `lastWriteTs, `removed, `copied)
    {
      hide WellFormed, SizeSum;
      if len == 0 {
        items := new Item?[0];
        bySeq, byId, byUuid := map[], map[], map[];
        idKeyBytes, idDrift := 0, 0;
      }
    }

    /** The representation with another backing array that holds the same live items and no slack. */
    method AdoptSlice(newItems: array<Item?>)
      requires Valid() && newItems.Length == len && forall i :: 0 <= i < len ==> newItems[i] == live[i]
      requires copied + len <= removed
      modifies this`items, this`copied
      ensures Valid() && items == newItems && copied == old(copied) + len
    {
      hide WellFormed, SizeSum, IdBytes, Index;
      items := newItems;
      copied := copied + len;
    }

    method RebuildIndexes(newItems: array<Item?>)
      returns (newBySeq: map<nat, Item>, newById: map<string, Item>, newByUuid: map<Uuid, Item>)
      requires Held() && newItems.Length == |live| && forall j :: 0 <= j < |live| ==> newItems[j] == live[j]
      ensures newBySeq == Index(live, contents, |live|, SeqKey)
      ensures newById == Index(live, contents, |live|, IdKey)
      ensures newByUuid == Index(live, contents, |live|, UuidKey)
    {
      newBySeq, newById, newByUuid := map[], map[], map[];
      for i := 0 to newItems.Length
        invariant newBySeq == Index(live, contents, i, SeqKey)
        invariant newById == Index(live, contents, i, IdKey)
        invariant newByUuid == Index(live, contents, i, UuidKey)
      {
        var it := newItems[i];
        assert it == live[i] && it.e == contents[i];
        newBySeq := newBySeq[it.e.seqNo := it];
        if it.e.id != "" {
          newById := newById[it.e.id := it];
        }
        if it.e.uuid.Some? {
          newByUuid := newByUuid[it.e.uuid.value := it];
        }
      }
    }

    /** Moves a sparse slice to an array of exactly its length and rebuilds the indexes over the same
        items. The credit from earlier deletions pays for every item copied. */
    method ShrinkIfSparseLocked()
      requires Valid()
      modifies this
      ensures Valid() && State() == old(State())
      ensures items == old(items) || fresh(items)
      ensures unchanged(`live, `store, `detached, `lastWriteTs, `removed, `bytes, `idKeyBytes, `idDrift)
      ensures copied == old(copied) + if old(items.Length) > SHRINK_MIN_CAP
        && len * SHRINK_SPARSE_RATIO < old(items.Length) then len else 0
    {
      hide WellFormed, SizeSum, IdBytes, Index;
      if items.Length <= SHRINK_MIN_CAP || len * SHRINK_SPARSE_RATIO >= items.Length {
        return;
      }
      var newItems := SliceFrom(0);
      var newBySeq, newById, newByUuid := RebuildIndexes(newItems);
      bySeq, byId, byUuid := newBySeq, newById, newByUuid;
      AdoptSlice(newItems);
    }

    /** What a removal leaves: the specified scope, bytes and items released to the store, stamps set. */
    twostate predicate Released(after: Scope, now: int)
      reads this, store
    {
      && store == old(store) && detached == old(detached)
      && (items == old(items) || fresh(items))
      && State() == after
      && (idDrift == old(idDrift) || (idDrift == 0 && contents == []))
      && (if |contents| == |old(contents)| then lastWriteTs == old(lastWriteTs) else lastWriteTs == now)
      && (store != null ==>
            && store.totalBytes == old(store.totalBytes) + SizeSum(contents) - old(SizeSum(contents))
            && store.totalItems == old(store.totalItems) + |contents| - |old(contents)|
            && store.lastWriteTs == if |contents| == |old(contents)| then old(store.lastWriteTs)
                 else Max(old(store.lastWriteTs), now))
    }

    method DeleteIndexLocked(i: nat, now: int)
      requires Valid() && i < len
      modifies this, items, store
      ensures Valid() && Released(RemoveAt(old(State()), i), now)
      ensures removed == old(removed) + 1
    {
      hide WellFormed, Index, IdBytes, SizeSum, Size;
      ghost var s := State();
      RemoveAtIsSound(s, i);
      assert live[i].e == contents[i];
      var removedSize := Size(items[i].e);
      UnlinkEntry(i);
      if store != null {
        store.totalBytes := store.totalBytes - removedSize;
        store.totalItems := store.totalItems - 1;
        store.BumpLastWriteTs(now);
      }
      lastWriteTs := now;
      ResetIfEmptyLocked();
      ShrinkIfSparseLocked();
    }

    method DeleteById(id: string, now: int) returns (r: Result<nat, WriteError>)
      requires Valid()
      modifies this, items, store
      ensures Valid()
      ensures Stamped(r.Ok? && r.value > 0, now)
      ensures old(detached) ==> r == Err(ScopeDetached) && Released(old(State()), now)
      ensures !old(detached) ==>
        Released(Remove(old(State()), Removal.DeleteId(id)), now) && r == Ok(|old(contents)| - |contents|)
      ensures removed == old(removed) + |old(contents)| - |contents|
    {
      hide WellFormed, Index, SizeSum, IdBytes, FindId, FindSeq;
      if detached {
        return Err(ScopeDetached);
      }
      IdAddress(id);
      if id !in byId {
        return Ok(0);
      }
      var at := FindLive(byId[id].e.seqNo);
      DeleteIndexLocked(at, now);
      return Ok(1);
    }

    /** The binary search of the delete paths, whose miss branch cannot be reached. */
    method FindLive(n: nat) returns (i: nat)
      requires Valid() && FindSeq(contents, n).Some?
      ensures FindSeq(contents, n) == Some(i) && i < len
    {
      hide Index, SizeSum, IdBytes;
      var at := IndexBySeqLocked(n);
      assert at.Some?;
      return at.value;
    }

    method DeleteBySeq(n: nat, now: int) returns (r: Result<nat, WriteError>)
      requires Valid()
      modifies this, items, store
      ensures Valid()
      ensures Stamped(r.Ok? && r.value > 0, now)
      ensures old(detached) ==> r == Err(ScopeDetached) && Released(old(State()), now)
      ensures !old(detached) ==>
        Released(Remove(old(State()), Removal.DeleteSeq(n)), now) && r == Ok(|old(contents)| - |contents|)
      ensures removed == old(removed) + |old(contents)| - |contents|
    {
      hide WellFormed, Index, SizeSum, IdBytes, FindSeq;
      if detached {
        return Err(ScopeDetached);
      }
      SeqAddress(n);
      if n !in bySeq {
        return Ok(0);
      }
      var at := FindLive(n);
      DeleteIndexLocked(at, now);
      return Ok(1);
    }

    method DeleteByUuid(u: Uuid, now: int) returns (r: Result<nat, WriteError>)
      requires Valid()
      modifies this, items, store
      ensures Valid()
      ensures Stamped(r.Ok? && r.value > 0, now)
      ensures old(detached) ==> r == Err(ScopeDetached) && Released(old(State()), now)
      ensures !old(detached) ==>
        Released(Remove(old(State()), Removal.DeleteUuid(u)), now) && r == Ok(|old(contents)| - |contents|)
      ensures removed == old(removed) + |old(contents)| - |contents|
    {
      hide WellFormed, Index, SizeSum, IdBytes, FindUuid, FindSeq;
      if detached {
        return Err(ScopeDetached);
      }
      UuidAddress(u);
      if u !in byUuid {
        return Ok(0);
      }
      var at := FindLive(byUuid[u].e.seqNo);
      DeleteIndexLocked(at, now);
      return Ok(1);
    }

    // ---------- Draining a prefix ----------

    method UnindexPrefix(k: nat) returns (freedBytes: nat, freedIdBytes: nat)
      requires Valid() && k <= len
      modifies this`bySeq, this`byId, this`byUuid
      ensures bySeq == Index(live[k..], contents[k..], |live| - k, SeqKey)
      ensures byId == Index(live[k..], contents[k..], |live| - k, IdKey)
      ensures byUuid == Index(live[k..], contents[k..], |live| - k, UuidKey)
      ensures freedBytes == SizeSum(contents[..k]) && freedIdBytes == IdBytes(contents[..k])
    {
      hide WellFormed, Index, SizeSum, IdBytes, Size;
      freedBytes, freedIdBytes := 0, 0;
      assert live[0..] == live && contents[0..] == contents && contents[..0] == [];
      EmptySums();
      for i := 0 to k
        invariant Slice() && Held()
        invariant bySeq == Index(live[i..], contents[i..], |live| - i, SeqKey)
        invariant byId == Index(live[i..], contents[i..], |live| - i, IdKey)
        invariant byUuid == Index(live[i..], contents[i..], |live| - i, UuidKey)
        invariant freedBytes == SizeSum(contents[..i]) && freedIdBytes == IdBytes(contents[..i])
      {
        PrefixStep(live, State(), i);
        var e := items[i].e;
        assert live[i].e == contents[i];
        bySeq := bySeq - {e.seqNo};
        if e.id != "" {
          byId := byId - {e.id};
          freedIdBytes := freedIdBytes + |e.id|;
        }
        if e.uuid.Some? {
          byUuid := byUuid - {e.uuid.value};
        }
        freedBytes := freedBytes + Size(e);
      }
    }

    /** The slice from position `k` on, copied to a fresh array. */
    method KeepSuffix(k: nat)
      requires Slice() && Held() && k <= len
      modifies this
      ensures Slice() && Held() && fresh(items) && items.Length == len == |live|
      ensures live == old(live)[k..] && contents == old(contents)[k..]
      ensures unchanged(`byId, `bySeq, `byUuid, `lastSeq, `firstUuid, `lastUuid, `bytes, `idKeyBytes)
      ensures unchanged(`store, `detached, `lastWriteTs, `removed, `copied, `idDrift)
    {
      var rest := SliceFrom(k);
      items, len := rest, len - k;
      live, contents := live[k..], contents[k..];
    }

    /** Drops the first `k` items: kept suffix copied to a fresh array, indexes and counters adjusted. */
    method DropPrefix(k: nat) returns (freedBytes: nat)
      requires Valid() && k <= len
      modifies this
      ensures Valid() && State() == old(State()).(items := old(contents)[k..])
      ensures fresh(items) && live == old(live)[k..]
      ensures freedBytes == old(bytes) - bytes
      ensures unchanged(`store, `detached, `lastWriteTs, `removed, `copied, `idDrift)
    {
      hide WellFormed, Index, SizeSum, IdBytes;
      var freedIdBytes;
      freedBytes, freedIdBytes := UnindexPrefix(k);
      SuffixFacts(State(), k);
      KeepSuffix(k);
      bytes := bytes - freedBytes;
      idKeyBytes := idKeyBytes - freedIdBytes;
    }

    method DeleteUpToSeqLocked(maxSeq: nat, now: int) returns (n: nat)
      requires Valid()
      modifies this, store
      ensures Valid() && Released(Remove(old(State()), UpToSeq(maxSeq)), now)
      ensures n == |old(contents)| - |contents|
      ensures removed == old(removed) && copied == old(copied)
    {
      hide WellFormed, Index, SizeSum, IdBytes, Cut, After;
      ghost var s := State();
      var k := Cut0(maxSeq);
      AfterIsSound(s, maxSeq);
      if k == 0 {
        assert contents[0..] == contents;
        return 0;
      }
      var freedBytes := DropPrefix(k);
      if store != null {
        store.totalBytes := store.totalBytes - freedBytes;
        store.totalItems := store.totalItems - k;
        store.BumpLastWriteTs(now);
      }
      lastWriteTs := now;
      ResetIfEmptyLocked();
      return k;
    }

    method Cut0(maxSeq: nat) returns (k: nat)
      requires Valid()
      ensures k == Cut(contents, maxSeq)
    {
      hide Index, SizeSum, IdBytes;
      k := CutLocked(maxSeq);
    }

    method DeleteUpToSeq(maxSeq: nat, now: int) returns (r: Result<nat, WriteError>)
      requires Valid()
      modifies this, store
      ensures Valid()
      ensures Stamped(r.Ok? && r.value > 0, now)
      ensures old(detached) ==> r == Err(ScopeDetached) && Released(old(State()), now)
      ensures !old(detached) ==>
        Released(Remove(old(State()), UpToSeq(maxSeq)), now) && r == Ok(|old(contents)| - |contents|)
      ensures removed == old(removed) && copied == old(copied)
    {
      hide WellFormed, Index, SizeSum, IdBytes;
      if detached {
        return Err(ScopeDetached);
      }
      var n := DeleteUpToSeqLocked(maxSeq, now);
      return Ok(n);
    }

    method DeleteUpToUuid(u: Uuid, now: int) returns (r: Result<nat, WriteError>)
      requires Valid()
      modifies this, store
      ensures Valid()
      ensures Stamped(r.Ok? && r.value > 0, now)
      ensures old(detached) ==> r == Err(ScopeDetached) && Released(old(State()), now)
      ensures !old(detached) ==>
        Released(Remove(old(State()), UpToUuid(u)), now) && r == Ok(|old(contents)| - |contents|)
      ensures removed == old(removed) && copied == old(copied)
    {
      hide WellFormed, Index, SizeSum, IdBytes, After, FindUuid;
      if detached {
        return Err(ScopeDetached);
      }
      UuidAddress(u);
      if u !in byUuid {
        return Ok(0);
      }
      var n := DeleteUpToSeqLocked(byUuid[u].e.seqNo, now);
      return Ok(n);
    }

    // ---------- Reading ----------

    /** The newest `limit` items after skipping `offset`, oldest first, and whether older ones remain. */
    method TailOffset(limit: int, offset: int) returns (out: seq<Entry>, hasMore: bool)
      requires Valid()
      ensures (out, hasMore) == TailWindow(Materialised(codec, contents), limit, offset)
      ensures if limit <= 0 || offset < 0 || offset >= |contents| then out == [] && !hasMore
        else
          && |out| == (if limit < |contents| - offset then limit else |contents| - offset)
          && (forall k :: 0 <= k < |out| ==> SeenAs(codec, contents[|contents| - offset - |out| + k], out[k]))
          && (hasMore <==> |out| < |contents| - offset)
    {
      hide WellFormed, Index, SizeSum, IdBytes;
      if limit <= 0 || offset < 0 || offset >= len {
        return [], false;
      }
      var end := len - offset;
      var start := end - limit;
      hasMore := start > 0;
      if start < 0 {
        start := 0;
      }
      out := CopyWindow(start, end);
    }

    /** Up to `limit` items beyond a sequence number, oldest first, and whether more remain. */
    method SinceSeq(afterSeq: nat, limit: int) returns (out: seq<Entry>, hasMore: bool)
      requires Valid()
      ensures (out, hasMore) == HeadWindow(Materialised(codec, contents), afterSeq, limit)
      ensures var k := Cut(contents, afterSeq);
        if limit <= 0 then out == [] && !hasMore
        else
          && |out| == (if limit < |contents| - k then limit else |contents| - k)
          && (forall j :: 0 <= j < |out| ==> SeenAs(codec, contents[k + j], out[j]))
          && (hasMore <==> |out| < |contents| - k)
    {
      hide WellFormed, Index, SizeSum, IdBytes, After, Cut;
      AfterIsSound(State(), afterSeq);
      MaterialisedAfter(codec, State(), afterSeq);
      if limit <= 0 || len == 0 {
        return [], false;
      }
      var idx := Cut0(afterSeq);
      if idx >= len {
        return [], false;
      }
      var available := len - idx;
      var take := available;
      hasMore := false;
      if available > limit {
        take := limit;
        hasMore := true;
      }
      out := CopyWindow(idx, idx + take);
      ghost var m := Materialised(codec, contents);
      assert m[idx..idx + take] == m[idx..][..take];
      assert take == available ==> m[idx..][..take] == m[idx..];
    }

    /** Copies items[start..end] out by value and renders the counters among them. */
    method CopyWindow(start: nat, end: nat) returns (out: seq<Entry>)
      requires Slice() && Held() && start <= end <= len
      ensures out == Materialised(codec, contents)[start..end]
      ensures |out| == end - start && forall k :: 0 <= k < |out| ==> SeenAs(codec, contents[start + k], out[k])
    {
      out := [];
      for j := start to end
        invariant |out| == j - start
        invariant forall k :: 0 <= k < |out| ==> out[k] == MaterialiseCounter(codec, contents[start + k])
      {
        assert live[j].e == contents[j];
        out := out + [MaterialiseCounter(codec, items[j].e)];
      }
    }

    method GetById(id: string) returns (r: Option<Entry>)
      requires Valid()
      ensures var at := FindId(contents, id);
        r == if at.Some? then Some(MaterialiseCounter(codec, contents[at.value])) else None
      ensures r.Some? <==> id != "" && exists i :: 0 <= i < |contents| && contents[i].id == id
      ensures forall i :: 0 <= i < |contents| && contents[i].id == id && r.Some? ==> SeenAs(codec, contents[i], r.value)
    {
      hide Index, SizeSum, IdBytes, FindId;
      IdAddress(id);
      if id !in byId {
        return None;
      }
      return Some(MaterialiseCounter(codec, byId[id].e));
    }

    method GetBySeq(n: nat) returns (r: Option<Entry>)
      requires Valid()
      ensures var at := FindSeq(contents, n);
        r == if at.Some? then Some(MaterialiseCounter(codec, contents[at.value])) else None
      ensures r.Some? <==> exists i :: 0 <= i < |contents| && contents[i].seqNo == n
      ensures forall i :: 0 <= i < |contents| && contents[i].seqNo == n ==>
        r.Some? && SeenAs(codec, contents[i], r.value)
    {
      hide Index, SizeSum, IdBytes, FindSeq;
      SeqAddress(n);
      if n !in bySeq {
        return None;
      }
      return Some(MaterialiseCounter(codec, bySeq[n].e));
    }

    method GetByUuid(u: Uuid) returns (r: Option<Entry>)
      requires Valid()
      ensures var at := FindUuid(contents, u);
        r == if at.Some? then Some(MaterialiseCounter(codec, contents[at.value])) else None
      ensures r.Some? <==> exists i :: 0 <= i < |contents| && contents[i].uuid == Some(u)
      ensures forall i :: 0 <= i < |contents| && contents[i].uuid == Some(u) ==>
        r.Some? && SeenAs(codec, contents[i], r.value)
    {
      hide Index, SizeSum, IdBytes, FindUuid;
      UuidAddress(u);
      if u !in byUuid {
        return None;
      }
      return Some(MaterialiseCounter(codec, byUuid[u].e));
    }

    // ---------- Wholesale replacement ----------

    /** Takes over a fully built state, whatever the scope held before. */
    method Adopt(r: Replacement, ghost built: seq<Item>, ghost s: Scope)
      requires copied <= removed && (detached ==> store == null) && Represents(r, built, s)
      modifies this
      ensures Valid() && State() == s && live == built && items == r.items
      ensures unchanged(`store, `detached, `lastWriteTs, `removed, `copied) && idDrift == 0
    {
      hide *;
      AdoptItems(r, built, s);
      AdoptCursor(r);
      idKeyBytes, idDrift := r.idKeyBytes, 0;
      Adopted(r, built, s);
    }

    method AdoptItems(r: Replacement, ghost built: seq<Item>, ghost s: Scope)
      modifies this
      ensures items == r.items && len == r.items.Length && live == built && contents == s.items
      ensures byId == r.byId && bySeq == r.bySeq && byUuid == r.byUuid
      ensures unchanged(`store, `detached, `lastWriteTs, `removed, `copied, `idKeyBytes, `idDrift)
    {
      items, len, live, contents := r.items, r.items.Length, built, s.items;
      byId, bySeq, byUuid := r.byId, r.bySeq, r.byUuid;
    }

    method AdoptCursor(r: Replacement)
      modifies this
      ensures lastSeq == r.lastSeq && firstUuid == r.firstUuid && lastUuid == r.lastUuid && bytes == r.bytes
      ensures unchanged(`items, `len, `live, `contents, `byId, `bySeq, `byUuid)
      ensures unchanged(`store, `detached, `lastWriteTs, `removed, `copied, `idKeyBytes, `idDrift)
    {
      lastSeq, firstUuid, lastUuid, bytes := r.lastSeq, r.firstUuid, r.lastUuid, r.bytes;
    }

    /** A buffer whose fields are those of a built state represents that state. */
    lemma Adopted(r: Replacement, built: seq<Item>, s: Scope)
      requires Represents(r, built, s)
      requires items == r.items && len == r.items.Length && live == built && contents == s.items
      requires byId == r.byId && bySeq == r.bySeq && byUuid == r.byUuid
      requires lastSeq == r.lastSeq && firstUuid == r.firstUuid && lastUuid == r.lastUuid
      requires idKeyBytes == r.idKeyBytes + idDrift && bytes == r.bytes
      requires copied <= removed && (detached ==> store == null)
      ensures Valid() && State() == s
    {
      hide WellFormed, Index, SizeSum, IdBytes;
    }

    /** What a rebuild does with a fresh buffer: it copies every field of the built state except the
        total of the id lengths. The buffer is as good as any other; only that total is off, unless no
        item has an id. */
    method InstallRebuilt(r: Replacement, ghost built: seq<Item>, ghost s: Scope)
      requires Valid() && contents == [] && idDrift == 0 && Represents(r, built, s)
      modifies this
      ensures Valid() && State() == s && live == built && items == r.items && idKeyBytes == 0
      ensures unchanged(`store, `detached, `lastWriteTs, `removed, `copied)
      ensures IdsCounted() <==> forall i :: 0 <= i < |contents| ==> contents[i].id == ""
    {
      EmptyHasNoIdBytes();
      hide *;
      AdoptItems(r, built, s);
      AdoptCursor(r);
      idDrift := -r.idKeyBytes;
      Adopted(r, built, s);
      Rebuilt(r, built, s);
    }

    lemma EmptyHasNoIdBytes()
      requires Valid() && contents == [] && idDrift == 0
      ensures idKeyBytes == 0 && copied <= removed && (detached ==> store == null)
    {
      EmptySums();
    }

    lemma Rebuilt(r: Replacement, built: seq<Item>, s: Scope)
      requires Represents(r, built, s) && contents == s.items && idKeyBytes == 0
      ensures IdsCounted() <==> forall i :: 0 <= i < |contents| ==> contents[i].id == ""
    {
      NoIdBytes(s.items);
    }

    /** Swaps the state and charges the difference to what the scope holds at this moment. */
    method CommitReplacement(r: Replacement, ghost built: seq<Item>, ghost s: Scope, now: int)
      requires Valid() && Represents(r, built, s)
      modifies this, store
      ensures Valid() && State() == s && store == old(store) && lastWriteTs == now
      ensures removed == old(removed) && copied == old(copied) && IdsCounted()
      ensures store != null ==>
        && store.totalBytes == old(store.totalBytes) + SizeSum(contents) - old(SizeSum(contents))
        && store.totalItems == old(store.totalItems) + |contents| - |old(contents)|
        && store.lastWriteTs == Max(old(store.lastWriteTs), now)
    {
      hide WellFormed, Index, SizeSum, IdBytes;
      if store != null {
        store.totalBytes := store.totalBytes + (r.bytes - bytes);
        store.totalItems := store.totalItems + (r.items.Length - len);
        store.BumpLastWriteTs(now);
      }
      Adopt(r, built, s);
      lastWriteTs := now;
    }

    /** Swaps the state when the caller has already reserved `r.bytes - oldSnapshot`: only what the
        scope gained or lost since the snapshot is settled here. */
    method CommitReplacementPreReserved(r: Replacement, ghost built: seq<Item>, ghost s: Scope, oldSnapshot: int,
      now: int)
      requires Valid() && Represents(r, built, s)
      modifies this, store
      ensures Valid() && State() == s && store == old(store) && lastWriteTs == now
      ensures removed == old(removed) && copied == old(copied) && IdsCounted()
      ensures store != null ==>
        && store.totalBytes == old(store.totalBytes) - (old(SizeSum(contents)) - oldSnapshot)
        && store.totalItems == old(store.totalItems) + |contents| - |old(contents)|
        && store.lastWriteTs == Max(old(store.lastWriteTs), now)
    {
      hide WellFormed, Index, SizeSum, IdBytes;
      if store != null {
        var drift := bytes - oldSnapshot;
        if drift != 0 {
          store.totalBytes := store.totalBytes - drift;
        }
        store.totalItems := store.totalItems + (r.items.Length - len);
        store.BumpLastWriteTs(now);
      }
      Adopt(r, built, s);
      lastWriteTs := now;
    }
  }

  lemma {:induction false} PushFacts(live: seq<Item>, s: Scope, x: Item, e: Entry)
    requires |live| == |s.items| && WellFormed(s)
    requires FindId(s.items, e.id).None? && (e.uuid.None? || Fresh(s, e.uuid.value))
    ensures var e', c := e.(seqNo := s.lastSeq + 1), Pushed(s, e).items;
      && WellFormed(Pushed(s, e))
      && SizeSum(c) == SizeSum(s.items) + Size(e')
      && IdBytes(c) == IdBytes(s.items) + |e'.id|
      && Index(live + [x], c, |c|, SeqKey) == Bind(Index(live, s.items, |live|, SeqKey), SeqKey(e'), x)
      && Index(live + [x], c, |c|, IdKey) == Bind(Index(live, s.items, |live|, IdKey), IdKey(e'), x)
      && Index(live + [x], c, |c|, UuidKey) == Bind(Index(live, s.items, |live|, UuidKey), UuidKey(e'), x)
  {
    hide WellFormed, SizeSum, IdBytes;
    var e' := e.(seqNo := s.lastSeq + 1);
    PushIsSound(s, e);
    IdBytesSnoc(s.items, e');
    IndexFrame(live, s.items, live + [x], s.items + [e'], |live|, SeqKey);
    IndexFrame(live, s.items, live + [x], s.items + [e'], |live|, IdKey);
    IndexFrame(live, s.items, live + [x], s.items + [e'], |live|, UuidKey);
  }

  lemma {:induction false} ReplaceFacts(live: seq<Item>, s: Scope, i: nat, e: Entry)
    requires |live| == |s.items| && WellFormed(s) && i < |live| && SameAddress(e, s.items[i])
    ensures var c := s.items[i := e];
      && WellFormed(s.(items := c))
      && SizeSum(c) == SizeSum(s.items) + PayloadCost(e) - PayloadCost(s.items[i])
      && IdBytes(c) == IdBytes(s.items)
      && Index(live, c, |c|, SeqKey) == Index(live, s.items, |live|, SeqKey)
      && Index(live, c, |c|, IdKey) == Index(live, s.items, |live|, IdKey)
      && Index(live, c, |c|, UuidKey) == Index(live, s.items, |live|, UuidKey)
  {
    hide WellFormed;
    ReplaceIsSound(s, i, e);
    IdBytesUpdate(s.items, i, e);
    IndexFrame(live, s.items, live, s.items[i := e], |live|, SeqKey);
    IndexFrame(live, s.items, live, s.items[i := e], |live|, IdKey);
    IndexFrame(live, s.items, live, s.items[i := e], |live|, UuidKey);
  }

  lemma {:induction false} RemoveFacts(live: seq<Item>, s: Scope, i: nat)
    requires |live| == |s.items| && WellFormed(s) && i < |live|
    ensures var e, c, live' := s.items[i], RemoveAt(s, i).items, live[..i] + live[i + 1..];
      && WellFormed(RemoveAt(s, i))
      && SizeSum(c) == SizeSum(s.items) - Size(e)
      && IdBytes(c) == IdBytes(s.items) - |e.id|
      && Index(live', c, |c|, SeqKey) == Unbind(Index(live, s.items, |live|, SeqKey), SeqKey(e))
      && Index(live', c, |c|, IdKey) == Unbind(Index(live, s.items, |live|, IdKey), IdKey(e))
      && Index(live', c, |c|, UuidKey) == Unbind(Index(live, s.items, |live|, UuidKey), UuidKey(e))
  {
    hide WellFormed, Unbind;
    KeysAreUnique(s);
    RemoveAtIsSound(s, i);
    IdBytesSplit(s.items, i);
    var c, live' := RemoveAt(s, i).items, live[..i] + live[i + 1..];
    IndexRemove(live, s.items, live', c, |live|, SeqKey, i);
    IndexRemove(live, s.items, live', c, |live|, IdKey, i);
    IndexRemove(live, s.items, live', c, |live|, UuidKey, i);
  }

  lemma EmptySums()
    ensures SizeSum([]) == 0 && IdBytes([]) == 0
  {
  }

  lemma {:induction false} SuffixFacts(s: Scope, k: nat)
    requires WellFormed(s) && k <= |s.items|
    ensures WellFormed(s.(items := s.items[k..]))
    ensures SizeSum(s.items[k..]) == SizeSum(s.items) - SizeSum(s.items[..k])
    ensures IdBytes(s.items[k..]) == IdBytes(s.items) - IdBytes(s.items[..k])
  {
    SuffixIsSound(s, k);
    SizeSumCut(s.items, k);
    assert s.items == s.items[..k] + s.items[k..];
    IdBytesConcat(s.items[..k], s.items[k..]);
  }

  lemma {:induction false} IndexDropFirst<K(!new)>(live: seq<Item>, c: seq<Entry>, i: nat, key: Entry -> Option<K>)
    requires i < |live| == |c| && UniqueKeys(c[i..], key)
    ensures Index(live[i + 1..], c[i + 1..], |live| - i - 1, key)
      == Unbind(Index(live[i..], c[i..], |live| - i, key), key(c[i]))
  {
    var a, b := live[i..], c[i..];
    assert live[i + 1..] == a[..0] + a[1..] && c[i + 1..] == b[..0] + b[1..];
    IndexRemove(a, b, live[i + 1..], c[i + 1..], |a|, key, 0);
  }

  /** Taking the oldest remaining item out of the three indexes. */
  lemma {:induction false} PrefixStep(live: seq<Item>, s: Scope, i: nat)
    requires |live| == |s.items| && WellFormed(s) && i < |live|
    ensures var e, c, n := s.items[i], s.items, |live| - i;
      && Index(live[i + 1..], c[i + 1..], n - 1, SeqKey) == Unbind(Index(live[i..], c[i..], n, SeqKey), SeqKey(e))
      && Index(live[i + 1..], c[i + 1..], n - 1, IdKey) == Unbind(Index(live[i..], c[i..], n, IdKey), IdKey(e))
      && Index(live[i + 1..], c[i + 1..], n - 1, UuidKey) == Unbind(Index(live[i..], c[i..], n, UuidKey), UuidKey(e))
      && SizeSum(c[..i + 1]) == SizeSum(c[..i]) + Size(e)
      && IdBytes(c[..i + 1]) == IdBytes(c[..i]) + |e.id|
  {
    hide WellFormed, Unbind, Index, SizeSum, IdBytes;
    SuffixIsSound(s, i);
    KeysAreUnique(s.(items := s.items[i..]));
    IndexDropFirst(live, s.items, i, SeqKey);
    IndexDropFirst(live, s.items, i, IdKey);
    IndexDropFirst(live, s.items, i, UuidKey);
    assert s.items[..i + 1] == s.items[..i] + [s.items[i]];
    SizeSumSnoc(s.items[..i], s.items[i]);
    IdBytesSnoc(s.items[..i], s.items[i]);
  }

  // ---------- Read windows ----------

  lemma {:induction false} MaterialisedAfter(codec: Codec, s: Scope, n: nat)
    requires WellFormed(s)
    ensures After(Materialised(codec, s.items), n) == Materialised(codec, s.items)[Cut(s.items, n)..]
  {
    AfterIsSuffix(Materialised(codec, s.items), n, Cut(s.items, n));
  }

  // ---------- Building a replacement ----------

  /** A scope state built off to the side: slice, indexes and totals, ready to be adopted. */
  datatype Replacement = Replacement(
    items: array<Item?>, byId: map<string, Item>, bySeq: map<nat, Item>, byUuid: map<Uuid, Item>,
    lastSeq: nat, firstUuid: Option<Uuid>, lastUuid: Option<Uuid>, idKeyBytes: int, bytes: int)

  ghost predicate Represents(r: Replacement, live: seq<Item>, s: Scope)
    reads r.items, live
  {
    && r.items.Length == |live| == |s.items|
    && (forall i :: 0 <= i < |live| ==> r.items[i] == live[i])
    && (forall i :: 0 <= i < |live| ==> live[i].e == s.items[i])
    && r.bySeq == Index(live, s.items, |live|, SeqKey)
    && r.byId == Index(live, s.items, |live|, IdKey)
    && r.byUuid == Index(live, s.items, |live|, UuidKey)
    && WellFormed(s)
    && s.lastSeq == r.lastSeq && s.firstUuid == r.firstUuid && s.lastUuid == r.lastUuid
    && r.bytes == SizeSum(s.items) && r.idKeyBytes == IdBytes(s.items)
  }

  /** The construction loop: one heap item per request, refused at the first repeated id. */
  method BuildItems(codec: Codec, reqs: seq<Entry>, now: int, mints: seq<Uuid>)
    returns (ok: bool, items: array<Item?>, bySeq: map<nat, Item>, ghost live: seq<Item>)
    requires |mints| == |reqs|
    ensures var c := BuiltEntries(codec, reqs, now, mints);
      && ok == UniqueIds(c)
      && fresh(items)
      && (ok ==> items.Length == |live| == |c| && bySeq == Index(live, c, |c|, SeqKey)
                 && forall i :: 0 <= i < |c| ==> items[i] == live[i] && live[i].e == c[i] && fresh(live[i]))
  {
    hide RenderFor, Index, BuiltEntry, SeenIds, UniqueIds;
    ghost var c := BuiltEntries(codec, reqs, now, mints);
    NoIdsSeen(c);
    var seen: set<string> := {};
    items := new Item?[|reqs|](_ => null);
    bySeq, live := map[], [];
    EmptyIndexes(live, c);
    for i := 0 to |reqs|
      invariant |live| == i
      invariant forall j :: 0 <= j < i ==> items[j] == live[j] && live[j].e == c[j] && fresh(live[j])
      invariant SeenIds(c, i, seen)
      invariant bySeq == Index(live, c, i, SeqKey)
    {
      BuiltIs(codec, reqs, now, mints, i);
      OneMoreId(c, i, seen);
      if reqs[i].id != "" {
        if reqs[i].id in seen {
          return false, items, bySeq, live;
        }
        seen := seen + {reqs[i].id};
      }
      var e := BuiltEntry(codec, reqs[i], i, now, mints[i]);
      var it := new Item(e);
      items[i] := it;
      bySeq := bySeq[e.seqNo := it];
      IndexStep(live, c, it, SeqKey);
      live := live + [it];
    }
    AllIdsSeen(c, seen);
    ok := true;
  }

  /** The ids of the first `i` entries, none of them twice. */
  ghost predicate SeenIds(c: seq<Entry>, i: nat, seen: set<string>)
    requires i <= |c|
  {
    && (forall s :: s in seen <==> s != "" && exists j :: 0 <= j < i && c[j].id == s)
    && (forall j, k :: 0 <= j < k < i && c[j].id == c[k].id ==> c[j].id == "")
  }

  lemma NoIdsSeen(c: seq<Entry>)
    ensures SeenIds(c, 0, {})
  {
  }

  lemma OneMoreId(c: seq<Entry>, i: nat, seen: set<string>)
    requires i < |c| && SeenIds(c, i, seen)
    ensures c[i].id != "" && c[i].id in seen ==> !UniqueIds(c)
    ensures c[i].id == "" ==> SeenIds(c, i + 1, seen)
    ensures c[i].id != "" && c[i].id !in seen ==> SeenIds(c, i + 1, seen + {c[i].id})
  {
    if c[i].id != "" && c[i].id in seen {
      var j :| 0 <= j < i && c[j].id == c[i].id;
    }
  }

  lemma AllIdsSeen(c: seq<Entry>, seen: set<string>)
    requires SeenIds(c, |c|, seen)
    ensures UniqueIds(c)
  {
  }

  lemma BuiltIs(codec: Codec, reqs: seq<Entry>, now: int, mints: seq<Uuid>, i: nat)
    requires |mints| == |reqs| && i < |reqs|
    ensures var c := BuiltEntries(codec, reqs, now, mints);
      |c| == |reqs| && c[i] == BuiltEntry(codec, reqs[i], i, now, mints[i]) && c[i].id == reqs[i].id
        && c[i].seqNo == i + 1
  {
  }

  method BuildReplacementState(codec: Codec, reqs: seq<Entry>, now: int, mints: seq<Uuid>)
    returns (r: Option<Replacement>, ghost live: seq<Item>)
    requires |mints| == |reqs|
    ensures r.Some? <==> Buildable(codec, reqs, now, mints)
    ensures r.Some? ==> fresh(r.value.items) && forall i :: 0 <= i < |live| ==> fresh(live[i])
    ensures r.Some? ==> Represents(r.value, live, Built(codec, reqs, now, mints))
  {
    hide Index, SizeSum, IdBytes, BuiltEntry;
    ghost var c := BuiltEntries(codec, reqs, now, mints);
    var ok, items, bySeq;
    ok, items, bySeq, live := BuildItems(codec, reqs, now, mints);
    if !ok {
      return None, live;
    }
    var byId, idKeyBytes := IndexIds(items, live, c);
    var unique, byUuid := IndexUuids(items, live, c);
    if !unique {
      return None, live;
    }
    var bytes := SumItemBytes(items, live, c);
    BuiltIsWellFormed(codec, reqs, now, mints);
    var n := items.Length;
    var first: Option<Uuid>, last: Option<Uuid> := None, None;
    if n > 0 {
      assert items[0] == live[0] && items[n - 1] == live[n - 1];
      first, last := items[0].e.uuid, items[n - 1].e.uuid;
    }
    r := Some(Replacement(items, byId, bySeq, byUuid, n, first, last, idKeyBytes, bytes));
  }

  ghost predicate Backed(items: array<Item?>, live: seq<Item>, c: seq<Entry>)
    reads items, live
  {
    items.Length == |live| == |c| && forall i :: 0 <= i < |c| ==> items[i] == live[i] && live[i].e == c[i]
  }

  method IndexIds(items: array<Item?>, ghost live: seq<Item>, ghost c: seq<Entry>)
    returns (byId: map<string, Item>, idKeyBytes: nat)
    requires Backed(items, live, c)
    ensures byId == Index(live, c, |c|, IdKey) && idKeyBytes == IdBytes(c)
  {
    byId, idKeyBytes := map[], 0;
    for i := 0 to items.Length
      invariant byId == Index(live, c, i, IdKey)
      invariant idKeyBytes == IdBytes(c[..i])
    {
      var it := items[i];
      assert it == live[i] && it.e == c[i];
      if it.e.id != "" {
        byId := byId[it.e.id := it];
        idKeyBytes := idKeyBytes + |it.e.id|;
      }
      assert c[..i + 1] == c[..i] + [c[i]];
      IdBytesSnoc(c[..i], c[i]);
    }
    assert c[..|c|] == c;
  }

  method IndexUuids(items: array<Item?>, ghost live: seq<Item>, ghost c: seq<Entry>)
    returns (unique: bool, byUuid: map<Uuid, Item>)
    requires Backed(items, live, c)
    ensures unique == UniqueUuids(c)
    ensures unique ==> byUuid == Index(live, c, |c|, UuidKey)
  {
    byUuid := map[];
    for i := 0 to items.Length
      invariant byUuid == Index(live, c, i, UuidKey)
      invariant forall u :: u in byUuid <==> exists j :: 0 <= j < i && c[j].uuid == Some(u)
      invariant forall j, k :: 0 <= j < k < i && c[j].uuid == c[k].uuid ==> c[j].uuid.None?
    {
      var it := items[i];
      assert it == live[i] && it.e == c[i];
      if it.e.uuid.Some? {
        if it.e.uuid.value in byUuid {
          ghost var j :| 0 <= j < i && c[j].uuid == c[i].uuid;
          return false, byUuid;
        }
        byUuid := byUuid[it.e.uuid.value := it];
      }
    }
    unique := true;
  }

  method SumItemBytes(items: array<Item?>, ghost live: seq<Item>, ghost c: seq<Entry>) returns (n: nat)
    requires Backed(items, live, c)
    ensures n == SizeSum(c)
  {
    hide Size;
    n := 0;
    for i := 0 to items.Length
      invariant n == SizeSum(c[..i])
    {
      var it := items[i];
      assert it == live[i] && it.e == c[i];
      n := n + Size(it.e);
      assert c[..i + 1] == c[..i] + [c[i]];
      SizeSumSnoc(c[..i], c[i]);
    }
    assert c[..|c|] == c;
  }

  lemma {:induction false} IndexStep<K>(live: seq<Item>, c: seq<Entry>, x: Item, key: Entry -> Option<K>)
    requires |live| < |c|
    ensures Index(live + [x], c, |live| + 1, key) == Bind(Index(live, c, |live|, key), key(c[|live|]), x)
  {
    IndexFrame(live, c, live + [x], c, |live|, key);
  }

  lemma EmptyIndexes(live: seq<Item>, c: seq<Entry>)
    ensures Index(live, c, 0, SeqKey) == map[]
  {
  }
}
