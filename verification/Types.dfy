/** The value types every other module shares: stored entries, what an entry costs
    against the byte budget, the errors of the write paths, and the configuration. */
module Types {

  newtype byte = x: int | 0 <= x < 256
  type Bytes = seq<byte>

  datatype Option<+T> = None | Some(value: T)
  datatype Result<+T, +E> = Ok(value: T) | Err(error: E)

  /** A UUID is sixteen raw bytes. The all-zero value, which stands for "no uuid", is `None`. */
  datatype Uuid = Uuid(bytes: Bytes)

  const EVENTS := "_events"
  const INBOX := "_inbox"
  const RESERVED := [EVENTS, INBOX]

  const COUNTER_CELL_OVERHEAD := 24 + 32
  const UUID_STRING_LEN := 36
  const SCOPE_OVERHEAD := 1024
  const RESERVED_OVERHEAD := 2 * SCOPE_OVERHEAD
  const EVENTS_ENVELOPE := 1024
  const MAX_COUNTER := 0x1F_FFFF_FFFF_FFFF
  const MAX_INT64 := 0x7FFF_FFFF_FFFF_FFFF
  const MIN_INT64 := -0x8000_0000_0000_0000

  predicate IsReserved(scope: string) {
    scope in RESERVED
  }

  /** The value and the timestamp a counter cell holds. */
  datatype Counter = Counter(value: int, ts: int)

  /** One stored item, or an item a caller asks to store. `render` is the decoded form of a
      JSON-string payload; `counter` is present exactly on counter items, whose payload is stale. */
  datatype Entry = Entry(
    scope: string, id: string, seqNo: nat, ts: int, uuid: Option<Uuid>,
    payload: Bytes, render: Option<Bytes>, counter: Option<Counter>)

  /** What the cache asks of the JSON library and of the key-shape checks. */
  datatype Codec = Codec(
    jsonString: Bytes -> Option<Bytes>,
    jsonInt: Bytes -> Option<int>,
    showInt: int -> Bytes,
    keyOk: string -> bool,
    payloadOk: Bytes -> bool)

  datatype WriteError =
    | InvalidInput
    | ScopeDetached
    | ScopeFull(count: nat, cap: int)
    | DuplicateId
    | ItemTooLarge(size: int, cap: int)
    | StoreFull(storeBytes: int, addedBytes: int, max: int)
    | CounterPayload
    | CounterOverflow(current: int, add: int)

  function RenderLen(render: Option<Bytes>): nat {
    if render.Some? then |render.value| else 0
  }

  /** The part of the cost that a payload replacement can change. */
  function PayloadCost(e: Entry): nat {
    if e.counter.Some? then COUNTER_CELL_OVERHEAD else |e.payload| + RenderLen(e.render)
  }

  /** The cost admission control charges for one item. */
  function Size(e: Entry): nat {
    32 + |e.scope| + |e.id| + (if e.uuid.Some? then UUID_STRING_LEN else 0) + 8 + 8 + PayloadCost(e)
  }

  function SizeSum(items: seq<Entry>): nat {
    if items == [] then 0 else Size(items[0]) + SizeSum(items[1..])
  }

  lemma {:induction false} SizeSumConcat(a: seq<Entry>, b: seq<Entry>)
    ensures SizeSum(a + b) == SizeSum(a) + SizeSum(b)
  {
    if a == [] {
      assert a + b == b;
    } else {
      SizeSumConcat(a[1..], b);
      assert (a + b)[1..] == a[1..] + b;
    }
  }

  lemma {:induction false} SizeSumSplit(s: seq<Entry>, i: nat)
    requires i < |s|
    ensures SizeSum(s) == SizeSum(s[..i]) + Size(s[i]) + SizeSum(s[i + 1..])
  {
    assert s == s[..i] + ([s[i]] + s[i + 1..]);
    SizeSumConcat(s[..i], [s[i]] + s[i + 1..]);
    SizeSumConcat([s[i]], s[i + 1..]);
    assert SizeSum([s[i]]) == Size(s[i]) + SizeSum([s[i]][1..]);
  }

  lemma {:induction false} SizeSumUpdate(s: seq<Entry>, i: nat, e: Entry)
    requires i < |s|
    ensures SizeSum(s[i := e]) == SizeSum(s) - Size(s[i]) + Size(e)
  {
    SizeSumSplit(s, i);
    SizeSumSplit(s[i := e], i);
    assert s[i := e][..i] == s[..i] && s[i := e][i + 1..] == s[i + 1..];
  }

  lemma {:induction false} SizeSumRemove(s: seq<Entry>, i: nat)
    requires i < |s|
    ensures SizeSum(s[..i] + s[i + 1..]) == SizeSum(s) - Size(s[i])
  {
    SizeSumSplit(s, i);
    SizeSumConcat(s[..i], s[i + 1..]);
  }

  lemma {:induction false} SizeSumSnoc(s: seq<Entry>, e: Entry)
    ensures SizeSum(s + [e]) == SizeSum(s) + Size(e)
  {
    SizeSumConcat(s, [e]);
    assert SizeSum([e]) == Size(e) + SizeSum([e][1..]);
  }

  /** The decoded form of a JSON-string payload, computed once at write time. */
  function PrecomputeRender(codec: Codec, payload: Bytes): Option<Bytes> {
    var trimmed := TrimLeft(payload);
    if trimmed == [] || trimmed[0] != 0x22 then None else codec.jsonString(payload)
  }

  function TrimLeft(p: Bytes): Bytes {
    if p != [] && p[0] in {0x20, 0x09, 0x0D, 0x0A} then TrimLeft(p[1..]) else p
  }

  /** The render bytes a write stores: the validator's when it supplied them. */
  function RenderFor(codec: Codec, payload: Bytes, preRender: Option<Bytes>): Option<Bytes> {
    if preRender.Some? then preRender else PrecomputeRender(codec, payload)
  }

  function ParseCounterValue(codec: Codec, payload: Bytes): Option<int> {
    var v := codec.jsonInt(payload);
    if v.Some? && -MAX_COUNTER <= v.value <= MAX_COUNTER then v else None
  }

  /** The answer of a write seen as an error or none. */
  function ErrorOf<T>(r: Result<T, WriteError>): Option<WriteError> {
    if r.Err? then Some(r.error) else None
  }

  function Max(a: int, b: int): int {
    if a < b then b else a
  }

  // ---------- Configuration ----------

  datatype EventsMode = Off | Notify | Full

  datatype Config = Config(
    scopeMaxItems: int, maxStoreBytes: int, maxItemBytes: int,
    events: EventsMode, inboxMaxItems: int, inboxMaxItemBytes: int)
  {
    /** The configuration with non-positive fields replaced, and room for the reserved scopes. */
    function WithDefaults(): (c: Config)
      ensures c.Sane()
      ensures Sane() ==> c == this
      ensures c.events == events
      ensures if scopeMaxItems > 0 then c.scopeMaxItems == scopeMaxItems else c.scopeMaxItems == 100000
      ensures if maxItemBytes > 0 then c.maxItemBytes == maxItemBytes else c.maxItemBytes == 1048576
      ensures if maxStoreBytes <= 0 then c.maxStoreBytes == 100 * 1048576
        else if maxStoreBytes < 2048 then c.maxStoreBytes == 2048
        else c.maxStoreBytes == maxStoreBytes
      ensures if inboxMaxItems > 0 then c.inboxMaxItems == inboxMaxItems else c.inboxMaxItems == c.scopeMaxItems
      ensures if inboxMaxItemBytes > 0 then c.inboxMaxItemBytes == inboxMaxItemBytes else c.inboxMaxItemBytes == 65536
    {
      var items := if scopeMaxItems <= 0 then 100000 else scopeMaxItems;
      Config(items,
             Max(if maxStoreBytes <= 0 then 100 * 0x10_0000 else maxStoreBytes, RESERVED_OVERHEAD),
             if maxItemBytes <= 0 then 0x10_0000 else maxItemBytes,
             events,
             if inboxMaxItems <= 0 then items else inboxMaxItems,
             if inboxMaxItemBytes <= 0 then 0x1_0000 else inboxMaxItemBytes)
    }

    predicate Sane() {
      scopeMaxItems > 0 && maxStoreBytes >= RESERVED_OVERHEAD && maxItemBytes > 0 && inboxMaxItems > 0
        && inboxMaxItemBytes > 0
    }

    /** The item-count cap of a scope; zero means no cap. */
    function MaxItemsFor(scope: string): int {
      if scope == EVENTS then 0 else if scope == INBOX then inboxMaxItems else scopeMaxItems
    }

    /** The per-item byte cap of a scope. The sum saturates at the largest int64. */
    function MaxItemBytesFor(scope: string): int {
      if scope == EVENTS then Min(Max(maxItemBytes, inboxMaxItemBytes) + EVENTS_ENVELOPE, MAX_INT64)
      else if scope == INBOX then inboxMaxItemBytes
      else maxItemBytes
    }
  }

  function Min(a: int, b: int): int {
    if a < b then a else b
  }
}
