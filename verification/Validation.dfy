/** What the cache asks of a request before it touches any scope: sizes, addresses and reserved
    names. The shapes of keys and payloads are parameters. */
module Validation {
  import opened Types
  import opened Uuids

  datatype Endpoint = ToAppend | ToWarm | ToRebuild

  /** An item as it crosses the public boundary: the cache's own fields are cleared. */
  predicate FromClient(item: Entry) {
    item.render.None? && item.counter.None?
  }

  predicate ScopeNameOk(codec: Codec, scope: string) {
    scope != "" && codec.keyOk(scope)
  }

  predicate IdOk(codec: Codec, id: string) {
    id == "" || codec.keyOk(id)
  }

  /** The cost of an item before its uuid is minted: measured with the uuid it is going to get. */
  function PreMintSize(item: Entry): nat {
    Size(item) + if item.uuid.None? then UUID_STRING_LEN else 0
  }

  /** The item with its render bytes filled in, if its cost after the write fits the cap. */
  function CheckItemSize(codec: Codec, item: Entry, cap: int): Result<Entry, WriteError> {
    var filled := item.(render := RenderFor(codec, item.payload, item.render));
    if PreMintSize(filled) > cap then Err(InvalidInput) else Ok(filled)
  }

  predicate UuidAdmitted(item: Entry, to: Endpoint) {
    item.uuid.None? || (to != ToAppend && IsV7(item.uuid.value))
  }

  function ValidateWriteItem(codec: Codec, item: Entry, to: Endpoint, cap: int): (r: Result<Entry, WriteError>)
    ensures r.Ok? ==>
      r.value == item.(render := RenderFor(codec, item.payload, item.render)) && PreMintSize(r.value) <= cap
  {
    if !ScopeNameOk(codec, item.scope) then Err(InvalidInput)
    else if to == ToAppend && item.scope == EVENTS then Err(InvalidInput)
    else if !IdOk(codec, item.id) || !codec.payloadOk(item.payload) then Err(InvalidInput)
    else if item.seqNo != 0 || item.ts != 0 then Err(InvalidInput)
    else if !UuidAdmitted(item, to) then Err(InvalidInput)
    else CheckItemSize(codec, item, cap)
  }

  function ValidateUpsertItem(codec: Codec, item: Entry, cap: int): (r: Result<Entry, WriteError>)
    ensures r.Ok? ==>
      r.value == item.(render := RenderFor(codec, item.payload, item.render)) && PreMintSize(r.value) <= cap
  {
    if !ScopeNameOk(codec, item.scope) || IsReserved(item.scope) then Err(InvalidInput)
    else if item.id == "" || !codec.keyOk(item.id) || !codec.payloadOk(item.payload) then Err(InvalidInput)
    else if item.seqNo != 0 || item.ts != 0 || item.uuid.Some? then Err(InvalidInput)
    else CheckItemSize(codec, item, cap)
  }

  /** Exactly one of id, sequence number and uuid, and that one in shape. */
  predicate OneAddress(codec: Codec, id: string, seqNo: nat, uuid: Option<Uuid>) {
    if id != "" then seqNo == 0 && uuid.None? && codec.keyOk(id)
    else if seqNo != 0 then uuid.None?
    else uuid.Some? && IsV7(uuid.value)
  }

  function ValidateUpdateItem(codec: Codec, item: Entry, cap: int): (r: Result<Entry, WriteError>)
    ensures r.Ok? ==>
      r.value == item.(render := RenderFor(codec, item.payload, item.render)) && PreMintSize(r.value) <= cap
  {
    if !ScopeNameOk(codec, item.scope) || IsReserved(item.scope) then Err(InvalidInput)
    else if !OneAddress(codec, item.id, item.seqNo, item.uuid) then Err(InvalidInput)
    else if !codec.payloadOk(item.payload) || item.ts != 0 then Err(InvalidInput)
    else CheckItemSize(codec, item, cap)
  }

  /** The cost every counter item of this scope and id has, wherever it comes from. */
  function CounterItemSize(scope: string, id: string): nat {
    32 + |scope| + |id| + 8 + 8 + COUNTER_CELL_OVERHEAD + UUID_STRING_LEN
  }

  predicate CounterAddOk(codec: Codec, scope: string, id: string, add: int, cap: int) {
    && ScopeNameOk(codec, scope) && !IsReserved(scope)
    && id != "" && codec.keyOk(id)
    && add != 0 && -MAX_COUNTER <= add <= MAX_COUNTER
    && (cap > 0 ==> CounterItemSize(scope, id) <= cap)
  }

  predicate DeleteOk(codec: Codec, scope: string, id: string, seqNo: nat, uuid: Option<Uuid>) {
    ScopeNameOk(codec, scope) && OneAddress(codec, id, seqNo, uuid)
  }

  predicate DeleteUpToOk(codec: Codec, scope: string, maxSeq: nat, uuid: Option<Uuid>) {
    ScopeNameOk(codec, scope) && (maxSeq != 0 <==> uuid.None?) && (uuid.Some? ==> IsV7(uuid.value))
  }

  predicate DeleteScopeOk(codec: Codec, scope: string) {
    ScopeNameOk(codec, scope) && !IsReserved(scope)
  }

  // ---------- Exactly which requests are accepted ----------

  /** The cost of an item once it is stored as an ordinary item: with a uuid, whoever supplies it. */
  function StoredSize(codec: Codec, item: Entry): nat {
    32 + |item.scope| + |item.id| + UUID_STRING_LEN + 8 + 8 + |item.payload|
    + RenderLen(RenderFor(codec, item.payload, item.render))
  }

  function Given(id: string, seqNo: nat, uuid: Option<Uuid>): nat {
    (if id != "" then 1 else 0) + (if seqNo != 0 then 1 else 0) + (if uuid.Some? then 1 else 0)
  }

  lemma WriteItemAccepted(codec: Codec, item: Entry, to: Endpoint, cap: int)
    requires FromClient(item)
    ensures ValidateWriteItem(codec, item, to, cap).Ok? <==>
      && item.scope != "" && codec.keyOk(item.scope) && (item.id != "" ==> codec.keyOk(item.id))
      && codec.payloadOk(item.payload) && item.seqNo == 0 && item.ts == 0
      && (to == ToAppend ==> item.scope != EVENTS && item.uuid.None?)
      && (item.uuid.Some? ==> IsV7(item.uuid.value))
      && StoredSize(codec, item) <= cap
  {
    hide RenderFor;
  }

  lemma UpsertItemAccepted(codec: Codec, item: Entry, cap: int)
    requires FromClient(item)
    ensures ValidateUpsertItem(codec, item, cap).Ok? <==>
      && item.scope != "" && codec.keyOk(item.scope) && item.scope != EVENTS && item.scope != INBOX
      && item.id != "" && codec.keyOk(item.id)
      && codec.payloadOk(item.payload) && item.seqNo == 0 && item.ts == 0 && item.uuid.None?
      && StoredSize(codec, item) <= cap
  {
    hide RenderFor;
  }

  lemma UpdateItemAccepted(codec: Codec, item: Entry, cap: int)
    requires FromClient(item)
    ensures ValidateUpdateItem(codec, item, cap).Ok? <==>
      && item.scope != "" && codec.keyOk(item.scope) && item.scope != EVENTS && item.scope != INBOX
      && Given(item.id, item.seqNo, item.uuid) == 1
      && (item.id != "" ==> codec.keyOk(item.id)) && (item.uuid.Some? ==> IsV7(item.uuid.value))
      && codec.payloadOk(item.payload) && item.ts == 0
      && StoredSize(codec, item) <= cap
  {
    hide RenderFor;
  }

  lemma DeletionAccepted(codec: Codec, scope: string, id: string, seqNo: nat, maxSeq: nat, uuid: Option<Uuid>)
    ensures DeleteOk(codec, scope, id, seqNo, uuid) <==>
      && scope != "" && codec.keyOk(scope) && Given(id, seqNo, uuid) == 1
      && (id != "" ==> codec.keyOk(id)) && (uuid.Some? ==> IsV7(uuid.value))
    ensures DeleteUpToOk(codec, scope, maxSeq, uuid) <==>
      && scope != "" && codec.keyOk(scope) && Given("", maxSeq, uuid) == 1 && (uuid.Some? ==> IsV7(uuid.value))
  {
  }

  /** An addition is accepted if and only if it names a user scope and an id, adds something other than zero
      within the range, and the counter it may create fits the cap. A negative addition is as good as any. */
  lemma CounterAddAccepted(codec: Codec, scope: string, id: string, add: int, cap: int)
    ensures CounterAddOk(codec, scope, id, add, cap) <==>
      && scope != "" && codec.keyOk(scope) && scope != EVENTS && scope != INBOX
      && id != "" && codec.keyOk(id)
      && (-0x1F_FFFF_FFFF_FFFF <= add < 0 || 0 < add <= 0x1F_FFFF_FFFF_FFFF)
      && (cap <= 0 || 48 + |scope| + |id| + 56 + 36 <= cap)
    ensures DeleteScopeOk(codec, scope) <==> scope != "" && codec.keyOk(scope) && scope != EVENTS && scope != INBOX
  {
  }

  // ---------- Grouping a bulk request ----------

  /** The items of one scope, in the order of the request. */
  function ItemsFor(items: seq<Entry>, scope: string): seq<Entry> {
    if items == [] then []
    else
      var front := ItemsFor(items[..|items| - 1], scope);
      if items[|items| - 1].scope == scope then front + [items[|items| - 1]] else front
  }

  method GroupItemsByScope(items: seq<Entry>) returns (grouped: map<string, seq<Entry>>)
    ensures forall scope :: scope in grouped <==> ItemsFor(items, scope) != []
    ensures forall scope :: scope in grouped ==> grouped[scope] == ItemsFor(items, scope)
  {
    grouped := map[];
    for i := 0 to |items|
      invariant forall scope :: scope in grouped <==> ItemsFor(items[..i], scope) != []
      invariant forall scope :: scope in grouped ==> grouped[scope] == ItemsFor(items[..i], scope)
    {
      var item := items[i];
      assert items[..i + 1][..i] == items[..i];
      var have := if item.scope in grouped then grouped[item.scope] else [];
      grouped := grouped[item.scope := have + [item]];
    }
    assert items[..|items|] == items;
  }

  /** Grouping neither loses nor invents items. */
  lemma {:induction false} GroupingIsAPartition(items: seq<Entry>, scope: string)
    ensures multiset(ItemsFor(items, scope)) <= multiset(items)
    ensures forall e :: e in ItemsFor(items, scope) <==> e in items && e.scope == scope
  {
    if items != [] {
      var front, last := items[..|items| - 1], items[|items| - 1];
      assert items == front + [last];
      GroupingIsAPartition(front, scope);
    }
  }
}
