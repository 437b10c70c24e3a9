/** A run that takes the byte counter past the cap: a warm batch snapshots a scope, the scope is then
    drained, another scope takes the freed bytes, and the warm commit adds them back unchecked. */
module Overshoot {
  import opened Types
  import opened ScopeSpec
  import opened Protocol

  const CAP := 4 * SCOPE_OVERHEAD
  const CONFIG := Config(10, CAP, CAP, Off, 10, CAP)

  function Ones(n: nat): (p: Bytes)
    ensures |p| == n
  {
    seq(n, _ => 0x31)
  }

  const ITEM := Entry("a", "", 1, 0, None, Ones(SCOPE_OVERHEAD - 49), None, None)
  const FILLED := Scope([ITEM], 1, None, None)
  const BATCH := [Batched("a", FILLED)]
  const NEW_SNAP := Snap(0, true)
  const OLD_SNAP := Snap(SCOPE_OVERHEAD, false)

  const STEPS := [
    WarmLock(1, BATCH), WarmSnap(1, None), WarmReserve(1), WarmCommit(1, None), WarmDone(1),
    Lookup(0, 2), WarmLock(1, BATCH), WarmSnap(1, Some(2)), WarmReserve(1),
    RemoveItems(0, UpToSeq(1)), CreateReserve(0, "c"), WarmCommit(1, Some(2))]

  /** The boot buffers, and scope "a" with the given content once it exists. */
  function Bufs(a: Option<Scope>): seq<Buf> {
    [Buf(EVENTS, EMPTY_SCOPE, true, false), Buf(INBOX, EMPTY_SCOPE, true, false)]
    + if a.Some? then [Buf("a", a.value, true, false)] else []
  }

  function Mid(codec: Codec, shardOf: string -> nat, a: Option<Scope>, pcs: seq<Pc>, total: int,
    items: int, scopes: int): State {
    State(CONFIG, codec, shardOf, Bufs(a), pcs, total, items, scopes)
  }

  function StatesOf(codec: Codec, shardOf: string -> nat): seq<State> {
    [ Mid(codec, shardOf, None, [Idle, Idle], 2 * SCOPE_OVERHEAD, 0, 2),
      Mid(codec, shardOf, None, [Idle, Snapping(BATCH, [])], 2 * SCOPE_OVERHEAD, 0, 2),
      Mid(codec, shardOf, None, [Idle, Snapping(BATCH, [NEW_SNAP])], 2 * SCOPE_OVERHEAD, 0, 2),
      Mid(codec, shardOf, None, [Idle, Committing(BATCH, [NEW_SNAP], 0, 0)], 4 * SCOPE_OVERHEAD, 0, 2),
      Mid(codec, shardOf, Some(FILLED), [Idle, Committing(BATCH, [NEW_SNAP], 1, 1)], 4 * SCOPE_OVERHEAD, 1, 2),
      Mid(codec, shardOf, Some(FILLED), [Idle, Idle], 4 * SCOPE_OVERHEAD, 1, 3),
      Mid(codec, shardOf, Some(FILLED), [Holding(2, false), Idle], 4 * SCOPE_OVERHEAD, 1, 3),
      Mid(codec, shardOf, Some(FILLED), [Holding(2, false), Snapping(BATCH, [])], 4 * SCOPE_OVERHEAD, 1, 3),
      Mid(codec, shardOf, Some(FILLED), [Holding(2, false), Snapping(BATCH, [OLD_SNAP])], 4 * SCOPE_OVERHEAD, 1, 3),
      Mid(codec, shardOf, Some(FILLED), [Holding(2, false), Committing(BATCH, [OLD_SNAP], 0, 0)],
        4 * SCOPE_OVERHEAD, 1, 3),
      Mid(codec, shardOf, Some(FILLED.(items := [])), [Idle, Committing(BATCH, [OLD_SNAP], 0, 0)],
        3 * SCOPE_OVERHEAD, 0, 3),
      Mid(codec, shardOf, Some(FILLED.(items := [])), [Creating("c"), Committing(BATCH, [OLD_SNAP], 0, 0)],
        4 * SCOPE_OVERHEAD, 0, 3),
      Mid(codec, shardOf, Some(FILLED), [Creating("c"), Committing(BATCH, [OLD_SNAP], 1, 0)],
        5 * SCOPE_OVERHEAD, 1, 3) ]
  }

  lemma Facts()
    ensures ScopeBytes(FILLED) == SCOPE_OVERHEAD && ScopeBytes(FILLED.(items := [])) == 0
    ensures Remove(FILLED, UpToSeq(1)) == FILLED.(items := [])
    ensures [] + [NEW_SNAP] == [NEW_SNAP] && [] + [OLD_SNAP] == [OLD_SNAP]
    ensures Pending(BATCH, [NEW_SNAP], 0) == 2 * SCOPE_OVERHEAD && Pending(BATCH, [OLD_SNAP], 0) == 0
  {
    assert SizeSum([ITEM]) == Size(ITEM) + SizeSum([ITEM][1..]);
    assert After([ITEM], 1) == After([ITEM][1..], 1);
  }

  ghost predicate Goes(codec: Codec, shardOf: string -> nat, i: nat)
    requires i < |STEPS|
  {
    var s := StatesOf(codec, shardOf);
    Enabled(s[i], STEPS[i]) && s[i + 1] == Apply(s[i], STEPS[i])
  }

  lemma Part1(codec: Codec, shardOf: string -> nat)
    requires shardOf("a") != shardOf("c")
    ensures forall i :: 0 <= i < 4 ==> Goes(codec, shardOf, i)
  {
    hide SizeSum, Remove, Pending;
    Facts();
  }

  lemma Part2(codec: Codec, shardOf: string -> nat)
    requires shardOf("a") != shardOf("c")
    ensures forall i :: 4 <= i < 8 ==> Goes(codec, shardOf, i)
  {
    hide SizeSum, Remove, Pending;
    Facts();
  }

  lemma Part3(codec: Codec, shardOf: string -> nat)
    requires shardOf("a") != shardOf("c")
    ensures forall i :: 8 <= i < 12 ==> Goes(codec, shardOf, i)
  {
    hide SizeSum, Remove, Pending;
    Facts();
  }

  /** The cap does not hold of every run: this one starts at boot and ends above it. */
  lemma WarmCanOvershoot(codec: Codec, shardOf: string -> nat)
    requires shardOf("a") != shardOf("c")
    ensures IsRun(StatesOf(codec, shardOf), STEPS)
    ensures StatesOf(codec, shardOf)[|STEPS|].total == CAP + SCOPE_OVERHEAD
    ensures StatesOf(codec, shardOf)[|STEPS|].cfg.maxStoreBytes == CAP
  {
    hide Apply, Enabled;
    Part1(codec, shardOf);
    Part2(codec, shardOf);
    Part3(codec, shardOf);
    var states := StatesOf(codec, shardOf);
    assert Booted(states[0]);
    forall i | 0 <= i < |STEPS| ensures Enabled(states[i], STEPS[i]) && states[i + 1] == Apply(states[i], STEPS[i]) {
      assert Goes(codec, shardOf, i);
    }
  }
}
