/** A run from boot that takes the byte counter below zero, to the bound exactly: a warm batch empties a
    scope and gives its bytes back when it reserves, and the scope is drained before the batch commits. */
module Undershoot {
  import opened Types
  import opened ScopeSpec
  import opened Protocol
  import opened LowerBound
  import Overshoot

  const ROOM := 64 * SCOPE_OVERHEAD
  const CONFIG := Config(10, ROOM, ROOM, Off, 10, ROOM)
  const BIG := 4 * SCOPE_OVERHEAD
  const ITEM := Entry("a", "", 1, 0, None, Overshoot.Ones(BIG - 49), None, None)
  const FULL := Scope([ITEM], 1, None, None)
  const DRAINED := Scope([], 1, None, None)
  const FILL := [Batched("a", FULL)]
  const CLEAR := [Batched("a", EMPTY_SCOPE)]
  const NEW_SNAP := Snap(0, true)
  const OLD_SNAP := Snap(BIG, false)

  const STEPS := [
    WarmLock(1, FILL), WarmSnap(1, None), WarmReserve(1), WarmCommit(1, None), WarmDone(1),
    Lookup(0, 2), WarmLock(1, CLEAR), WarmSnap(1, Some(2)), WarmReserve(1), RemoveItems(0, UpToSeq(1))]

  function Mid(codec: Codec, shardOf: string -> nat, a: Option<Scope>, pcs: seq<Pc>, total: int,
    items: int, scopes: int): State {
    State(CONFIG, codec, shardOf, Overshoot.Bufs(a), pcs, total, items, scopes)
  }

  function StatesOf(codec: Codec, shardOf: string -> nat): seq<State> {
    [ Mid(codec, shardOf, None, [Idle, Idle], 2 * SCOPE_OVERHEAD, 0, 2),
      Mid(codec, shardOf, None, [Idle, Snapping(FILL, [])], 2 * SCOPE_OVERHEAD, 0, 2),
      Mid(codec, shardOf, None, [Idle, Snapping(FILL, [NEW_SNAP])], 2 * SCOPE_OVERHEAD, 0, 2),
      Mid(codec, shardOf, None, [Idle, Committing(FILL, [NEW_SNAP], 0, 0)], 7 * SCOPE_OVERHEAD, 0, 2),
      Mid(codec, shardOf, Some(FULL), [Idle, Committing(FILL, [NEW_SNAP], 1, 1)], 7 * SCOPE_OVERHEAD, 1, 2),
      Mid(codec, shardOf, Some(FULL), [Idle, Idle], 7 * SCOPE_OVERHEAD, 1, 3),
      Mid(codec, shardOf, Some(FULL), [Holding(2, false), Idle], 7 * SCOPE_OVERHEAD, 1, 3),
      Mid(codec, shardOf, Some(FULL), [Holding(2, false), Snapping(CLEAR, [])], 7 * SCOPE_OVERHEAD, 1, 3),
      Mid(codec, shardOf, Some(FULL), [Holding(2, false), Snapping(CLEAR, [OLD_SNAP])], 7 * SCOPE_OVERHEAD, 1, 3),
      Mid(codec, shardOf, Some(FULL), [Holding(2, false), Committing(CLEAR, [OLD_SNAP], 0, 0)], 3 * SCOPE_OVERHEAD,
        1, 3),
      Mid(codec, shardOf, Some(DRAINED), [Idle, Committing(CLEAR, [OLD_SNAP], 0, 0)], -SCOPE_OVERHEAD, 0, 3) ]
  }

  lemma Facts()
    ensures ScopeBytes(FULL) == BIG && ScopeBytes(DRAINED) == 0 && ScopeBytes(EMPTY_SCOPE) == 0
    ensures Remove(FULL, UpToSeq(1)) == DRAINED
    ensures [] + [NEW_SNAP] == [NEW_SNAP] && [] + [OLD_SNAP] == [OLD_SNAP]
    ensures Pending(FILL, [NEW_SNAP], 0) == 5 * SCOPE_OVERHEAD && Pending(CLEAR, [OLD_SNAP], 0) == -4 * SCOPE_OVERHEAD
  {
    assert SizeSum([ITEM]) == Size(ITEM) + SizeSum([ITEM][1..]);
    assert After([ITEM], 1) == After([ITEM][1..], 1);
  }

  ghost predicate Goes(codec: Codec, shardOf: string -> nat, i: nat)
    requires i < |STEPS|
  {
    var s := StatesOf(codec, shardOf);
    Enabled(s[i], STEPS[i]) && s[i + 1] == Apply(s[i], STEPS[i])
  }

  lemma Part1(codec: Codec, shardOf: string -> nat)
    ensures forall i :: 0 <= i < 3 ==> Goes(codec, shardOf, i)
  {
    hide SizeSum, Remove, Pending;
    Facts();
  }

  lemma Part2(codec: Codec, shardOf: string -> nat)
    ensures forall i :: 3 <= i < 7 ==> Goes(codec, shardOf, i)
  {
    hide SizeSum, Remove, Pending;
    Facts();
  }

  lemma Part3(codec: Codec, shardOf: string -> nat)
    ensures forall i :: 7 <= i < 10 ==> Goes(codec, shardOf, i)
  {
    hide SizeSum, Remove, Pending;
    Facts();
  }

  /** What the last state owes and holds: the counter sits exactly on its bound. */
  lemma LastState(codec: Codec, shardOf: string -> nat)
    ensures var last := StatesOf(codec, shardOf)[|STEPS|];
      last.total == SCOPE_OVERHEAD * Sum(last.bufs, One) + Sum(last.pcs, Outstanding)
  {
    hide Pending;
    Facts();
    var last := StatesOf(codec, shardOf)[|STEPS|];
    SumOfThree(last.bufs, One);
    SumPush([], last.pcs[0], Outstanding);
    SumPush([last.pcs[0]], last.pcs[1], Outstanding);
    assert last.pcs == [last.pcs[0]] + [last.pcs[1]] && [] + [last.pcs[0]] == [last.pcs[0]];
    assert Outstanding(last.pcs[0]) == 0 && Outstanding(last.pcs[1]) == -4 * SCOPE_OVERHEAD;
  }

  lemma SumOfThree(bufs: seq<Buf>, f: Buf -> int)
    requires |bufs| == 3
    ensures Sum(bufs, f) == f(bufs[0]) + f(bufs[1]) + f(bufs[2])
  {
    SumPush([], bufs[0], f);
    SumPush([bufs[0]], bufs[1], f);
    SumPush([bufs[0], bufs[1]], bufs[2], f);
    assert [] + [bufs[0]] == [bufs[0]] && [bufs[0]] + [bufs[1]] == [bufs[0], bufs[1]];
    assert bufs == [bufs[0], bufs[1]] + [bufs[2]];
  }

  /** The counter is not always at least zero: this run starts at boot and ends below it. */
  lemma WarmCanUndershoot(codec: Codec, shardOf: string -> nat)
    ensures var states := StatesOf(codec, shardOf);
      && IsRun(states, STEPS)
      && states[|STEPS|].total == -SCOPE_OVERHEAD
      && states[|STEPS|].total ==
           SCOPE_OVERHEAD * Sum(states[|STEPS|].bufs, One) + Sum(states[|STEPS|].pcs, Outstanding)
  {
    hide Apply, Enabled, Sum;
    Part1(codec, shardOf);
    Part2(codec, shardOf);
    Part3(codec, shardOf);
    LastState(codec, shardOf);
    var states := StatesOf(codec, shardOf);
    assert Booted(states[0]);
    forall i | 0 <= i < |STEPS| ensures Enabled(states[i], STEPS[i]) && states[i + 1] == Apply(states[i], STEPS[i]) {
      assert Goes(codec, shardOf, i);
    }
  }
}
