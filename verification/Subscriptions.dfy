/** The wake-up channel of a reserved scope: one slot, non-blocking sends under the read lock, closed by
    the unsubscribe function under the write lock. Writers commit first and notify afterwards. */
module Subscriptions {
  import opened Types

  /** A subscription's channel, and its reader: how many items the scope had when it last read, and
      whether it has taken a token without having read since. */
  datatype Chan = Chan(scope: string, token: bool, closed: bool, awake: bool, read: nat)

  /** A writer: nothing to do, an item committed but not yet announced, or inside the read lock with
      the channel it found. */
  datatype Pc = Idle | Committed(scope: string) | Sending(scope: string, found: Option<nat>)

  /** `handles` are the unsubscribe functions handed out so far: each knows the scope's name, and
      which channel it came with. */
  datatype Handle = Handle(scope: string, chan: nat)

  datatype State = State(
    subscribers: map<string, nat>, chans: seq<Chan>, handles: seq<Handle>,
    items: map<string, nat>, pcs: seq<Pc>, panicked: bool)

  datatype Step =
    | Commit(t: nat, scope: string)
    | Enter(t: nat)
    | Send(t: nat)
    | Subscribe(scope: string)
    | Unsubscribe(h: nat)
    | Receive(k: nat)
    | Read(k: nat)

  function ItemsIn(s: State, scope: string): nat {
    if scope in s.items then s.items[scope] else 0
  }

  /** The subscription lock is held for writing only within a single step, so it is free of readers. */
  predicate NobodySending(s: State) {
    forall t :: 0 <= t < |s.pcs| ==> !s.pcs[t].Sending?
  }

  predicate Enabled(s: State, step: Step) {
    match step
    case Commit(t, scope) => t < |s.pcs| && s.pcs[t].Idle? && IsReserved(scope)
    case Enter(t) => t < |s.pcs| && s.pcs[t].Committed?
    case Send(t) => t < |s.pcs| && s.pcs[t].Sending? && (s.pcs[t].found.Some? ==> s.pcs[t].found.value < |s.chans|)
    case Subscribe(scope) => NobodySending(s)
    case Unsubscribe(h) => h < |s.handles| && NobodySending(s)
    case Receive(k) => k < |s.chans| && s.chans[k].token && !s.chans[k].awake
    case Read(k) => k < |s.chans| && s.chans[k].awake
  }

  function Lookup(s: State, scope: string): Option<nat> {
    if scope in s.subscribers then Some(s.subscribers[scope]) else None
  }

  function Apply(s: State, step: Step): State
    requires Enabled(s, step)
  {
    match step
    case Commit(t, scope) => s.(pcs := s.pcs[t := Committed(scope)], items := s.items[scope := ItemsIn(s, scope) + 1])
    case Enter(t) => s.(pcs := s.pcs[t := Sending(s.pcs[t].scope, Lookup(s, s.pcs[t].scope))])
    case Send(t) =>
      var found := s.pcs[t].found;
      var s' := s.(pcs := s.pcs[t := Idle]);
      if found.None? then s'
      else if s.chans[found.value].closed then s'.(panicked := true)
      else s'.(chans := s.chans[found.value := s.chans[found.value].(token := true)])
    case Subscribe(scope) =>
      if !IsReserved(scope) || scope in s.subscribers then s
      else s.(subscribers := s.subscribers[scope := |s.chans|],
              chans := s.chans + [Chan(scope, false, false, false, ItemsIn(s, scope))],
              handles := s.handles + [Handle(scope, |s.chans|)])
    case Unsubscribe(h) =>
      var scope := s.handles[h].scope;
      if scope !in s.subscribers then s
      else
        var k := s.subscribers[scope];
        var s' := s.(subscribers := s.subscribers - {scope});
        if k >= |s.chans| || s.chans[k].closed then s'.(panicked := true)
        else s'.(chans := s.chans[k := s.chans[k].(closed := true)])
    case Receive(k) => s.(chans := s.chans[k := s.chans[k].(token := false, awake := true)])
    case Read(k) => s.(chans := s.chans[k := s.chans[k].(awake := false, read := ItemsIn(s, s.chans[k].scope))])
  }

  // ---------- The invariant ----------

  /** A writer on its way to announce to a channel. */
  predicate Announcing(pc: Pc, scope: string, k: nat) {
    pc == Committed(scope) || pc == Sending(scope, Some(k))
  }

  predicate Covered(s: State, k: nat)
    requires k < |s.chans|
  {
    var c := s.chans[k];
    ItemsIn(s, c.scope) > c.read ==>
      c.token || c.awake || exists t :: 0 <= t < |s.pcs| && Announcing(s.pcs[t], c.scope, k)
  }

  predicate Attached(s: State, k: nat) {
    k < |s.chans| && s.chans[k].scope in s.subscribers && s.subscribers[s.chans[k].scope] == k
  }

  predicate MapOk(s: State) {
    && (forall scope :: scope in s.subscribers ==>
         s.subscribers[scope] < |s.chans| && s.chans[s.subscribers[scope]].scope == scope)
    && (forall k :: 0 <= k < |s.chans| ==> (Attached(s, k) <==> !s.chans[k].closed))
    && (forall t :: 0 <= t < |s.pcs| && s.pcs[t].Sending? ==> s.pcs[t].found == Lookup(s, s.pcs[t].scope))
    && (forall h :: 0 <= h < |s.handles| ==>
         s.handles[h].chan < |s.chans| && s.chans[s.handles[h].chan].scope == s.handles[h].scope)
  }

  /** No channel was ever sent to or closed after it was closed, and no attached reader can sleep
      through a committed item: a token, a reader about to read, or a writer about to notify covers it. */
  predicate Inv(s: State) {
    !s.panicked && MapOk(s) && forall k :: 0 <= k < |s.chans| && Attached(s, k) ==> Covered(s, k)
  }

  lemma {:induction false} SubscribeKeepsMap(s: State, step: Step)
    requires Inv(s) && Enabled(s, step) && step.Subscribe?
    ensures MapOk(Apply(s, step)) && !Apply(s, step).panicked
  {
    hide Covered, IsReserved;
  }

  lemma {:induction false} UnsubscribeKeepsMap(s: State, step: Step)
    requires Inv(s) && Enabled(s, step) && step.Unsubscribe?
    ensures MapOk(Apply(s, step)) && !Apply(s, step).panicked
  {
    hide Covered, IsReserved;
    if s.handles[step.h].scope in s.subscribers {
      assert Attached(s, s.subscribers[s.handles[step.h].scope]);
    }
  }

  lemma {:induction false} SendKeepsMap(s: State, step: Step)
    requires Inv(s) && Enabled(s, step) && step.Send?
    ensures MapOk(Apply(s, step)) && !Apply(s, step).panicked
  {
    hide Covered, IsReserved;
    if s.pcs[step.t].found.Some? {
      assert Attached(s, s.pcs[step.t].found.value);
    }
  }

  lemma {:induction false} StepKeepsMap(s: State, step: Step)
    requires Inv(s) && Enabled(s, step)
    ensures MapOk(Apply(s, step)) && !Apply(s, step).panicked
  {
    hide Covered, IsReserved;
    if step.Subscribe? {
      SubscribeKeepsMap(s, step);
    } else if step.Unsubscribe? {
      UnsubscribeKeepsMap(s, step);
    } else if step.Send? {
      SendKeepsMap(s, step);
    }
  }

  /** The writer that covered a channel before still does, unless this very step was its send. */
  lemma {:induction false} StillCovered(s: State, step: Step, k: nat)
    requires Inv(s) && Enabled(s, step) && k < |s.chans| && Attached(s, k) && Attached(Apply(s, step), k)
    ensures Covered(Apply(s, step), k)
  {
    hide IsReserved;
    var s', c := Apply(s, step), s.chans[k];
    if ItemsIn(s', c.scope) > s'.chans[k].read && !s'.chans[k].token && !s'.chans[k].awake {
      if step.Commit? && step.scope == c.scope {
        assert Announcing(s'.pcs[step.t], c.scope, k);
      } else {
        assert ItemsIn(s, c.scope) > c.read && !c.token && !c.awake;
        var t :| 0 <= t < |s.pcs| && Announcing(s.pcs[t], c.scope, k);
        assert Announcing(s'.pcs[t], c.scope, k);
      }
    }
  }

  lemma {:induction false} StepKeepsInv(s: State, step: Step)
    requires Inv(s) && Enabled(s, step)
    ensures Inv(Apply(s, step))
  {
    StepKeepsMap(s, step);
    var s' := Apply(s, step);
    forall k | 0 <= k < |s'.chans| && Attached(s', k) ensures Covered(s', k) {
      if k < |s.chans| {
        assert s'.chans[k].closed || Attached(s, k);
        StillCovered(s, step, k);
      }
    }
  }

  // ---------- Whole runs ----------

  predicate Quiet(s: State) {
    s.subscribers == map[] && s.chans == [] && s.handles == [] && !s.panicked
      && forall t :: 0 <= t < |s.pcs| ==> s.pcs[t] == Idle
  }

  predicate IsRun(states: seq<State>, steps: seq<Step>) {
    && |states| == |steps| + 1
    && Quiet(states[0])
    && forall i :: 0 <= i < |steps| ==> Enabled(states[i], steps[i]) && states[i + 1] == Apply(states[i], steps[i])
  }

  /** In every state of every run no closed channel was sent to or closed again, and every item
      committed while a subscriber is attached is covered. */
  lemma {:induction false} NoLostWakeUp(states: seq<State>, steps: seq<Step>, i: nat)
    requires IsRun(states, steps) && i < |states|
    ensures Inv(states[i])
  {
    hide Inv, Enabled, Apply, Quiet;
    if i == 0 {
      QuietIsInv(states[0]);
    } else {
      NoLostWakeUp(states, steps, i - 1);
      StepKeepsInv(states[i - 1], steps[i - 1]);
    }
  }

  lemma QuietIsInv(s: State)
    requires Quiet(s)
    ensures Inv(s)
  {
  }

  /** When no writer is between its commit and its notification, an attached reader that has not seen
      every item has a token waiting or is already awake. */
  lemma {:induction false} UnreadMeansAwake(s: State, k: nat)
    requires Inv(s) && Attached(s, k) && ItemsIn(s, s.chans[k].scope) > s.chans[k].read
    requires forall t :: 0 <= t < |s.pcs| ==> s.pcs[t] == Idle
    ensures s.chans[k].token || s.chans[k].awake
  {
    assert Covered(s, k);
  }

  // ---------- What is counted ----------

  function Commits(steps: seq<Step>, i: nat, scope: string): nat
    requires i <= |steps|
  {
    if i == 0 then 0
    else Commits(steps, i - 1, scope) + if steps[i - 1].Commit? && steps[i - 1].scope == scope then 1 else 0
  }

  function Sends(steps: seq<Step>, i: nat): nat
    requires i <= |steps|
  {
    if i == 0 then 0 else Sends(steps, i - 1) + if steps[i - 1].Send? then 1 else 0
  }

  function Receipts(steps: seq<Step>, i: nat): nat
    requires i <= |steps|
  {
    if i == 0 then 0 else Receipts(steps, i - 1) + if steps[i - 1].Receive? then 1 else 0
  }

  function Tokens(chans: seq<Chan>): nat {
    if chans == [] then 0 else (if chans[0].token then 1 else 0) + Tokens(chans[1..])
  }

  lemma {:induction false} TokensAfter(chans: seq<Chan>, k: nat, c: Chan)
    requires k < |chans|
    ensures Tokens(chans[k := c]) == Tokens(chans) - (if chans[k].token then 1 else 0) + (if c.token then 1 else 0)
  {
    if k == 0 {
      assert chans[k := c][1..] == chans[1..];
    } else {
      TokensAfter(chans[1..], k - 1, c);
      assert chans[k := c][1..] == chans[1..][k - 1 := c];
    }
  }

  lemma {:induction false} TokensPush(chans: seq<Chan>, c: Chan)
    ensures Tokens(chans + [c]) == Tokens(chans) + if c.token then 1 else 0
  {
    if chans == [] {
      assert chans + [c] == [c];
    } else {
      TokensPush(chans[1..], c);
      assert (chans + [c])[1..] == chans[1..] + [c];
    }
  }

  lemma {:induction false} StepTokens(s: State, step: Step)
    requires Inv(s) && Enabled(s, step)
    ensures Tokens(Apply(s, step).chans) <=
      Tokens(s.chans) + (if step.Send? then 1 else 0) - (if step.Receive? then 1 else 0)
  {
    hide Inv, IsReserved;
    var s' := Apply(s, step);
    if step.Subscribe? {
      TokensPush(s.chans, Chan(step.scope, false, false, false, ItemsIn(s, step.scope)));
    } else if |s'.chans| == |s.chans| && s'.chans != s.chans {
      var k := Moved(s, step);
      TokensAfter(s.chans, k, s'.chans[k]);
    }
  }

  lemma Moved(s: State, step: Step) returns (k: nat)
    requires Enabled(s, step) && !step.Subscribe? && Apply(s, step).chans != s.chans
    ensures k < |s.chans| == |Apply(s, step).chans| && Apply(s, step).chans == s.chans[k := Apply(s, step).chans[k]]
    ensures s.chans[k].token && !step.Receive? ==> Apply(s, step).chans[k].token
    ensures step.Receive? ==> s.chans[k].token && !Apply(s, step).chans[k].token
    ensures Apply(s, step).chans[k].token ==> s.chans[k].token || step.Send?
  {
    match step
    case Send(t) => k := s.pcs[t].found.value;
    case Unsubscribe(h) => k := s.subscribers[s.handles[h].scope];
    case Receive(c) => k := c;
    case Read(c) => k := c;
  }

  /** What readers have counted was really committed, and only reserved scopes are subscribed. */
  predicate Real(s: State) {
    && (forall k :: 0 <= k < |s.chans| ==> s.chans[k].read <= ItemsIn(s, s.chans[k].scope))
    && (forall scope :: scope in s.subscribers ==> IsReserved(scope))
  }

  lemma {:induction false} StepIsReal(s: State, step: Step)
    requires Enabled(s, step) && Real(s)
    ensures Real(Apply(s, step))
    ensures forall scope ::
      ItemsIn(Apply(s, step), scope) == ItemsIn(s, scope) + if step.Commit? && step.scope == scope then 1 else 0
  {
    hide IsReserved;
  }

  /** In every state of every run: the items are those committed, what a reader has counted was really
      committed, only reserved scopes are subscribed, and every wake-up was announced, so that at no point
      more were received than sent. */
  lemma {:induction false} RunCounts(states: seq<State>, steps: seq<Step>, i: nat)
    requires IsRun(states, steps) && i < |states|
    ensures forall scope :: ItemsIn(states[i], scope) == ItemsIn(states[0], scope) + Commits(steps, i, scope)
    ensures Real(states[i])
    ensures Receipts(steps, i) + Tokens(states[i].chans) <= Sends(steps, i)
  {
    hide Inv, Apply, Enabled, ItemsIn;
    if i == 0 {
      assert states[0].chans == [] && states[0].subscribers == map[];
    } else {
      RunCounts(states, steps, i - 1);
      NoLostWakeUp(states, steps, i - 1);
      hide Real, Tokens, Quiet;
      StepTokens(states[i - 1], steps[i - 1]);
      StepIsReal(states[i - 1], steps[i - 1]);
    }
  }

  // ---------- The unsubscribe function ----------

  predicate Closes(s: State, step: Step, k: nat)
    requires Enabled(s, step)
  {
    k < |s.chans| && k < |Apply(s, step).chans| && !s.chans[k].closed && Apply(s, step).chans[k].closed
  }

  /** An unsubscribe function closes a channel that is not its own if and only if its scope has since
      been subscribed again; it closes its own if and only if that is still the one attached. */
  lemma {:induction false} UnsubscribeCloses(s: State, h: nat)
    requires Inv(s) && Enabled(s, Unsubscribe(h))
    ensures var handle := s.handles[h];
      && (Closes(s, Unsubscribe(h), handle.chan) <==> Attached(s, handle.chan))
      && ((exists k :: k != handle.chan && Closes(s, Unsubscribe(h), k))
            <==> handle.scope in s.subscribers && s.subscribers[handle.scope] != handle.chan)
  {
    hide Covered;
    var handle := s.handles[h];
    if handle.scope in s.subscribers {
      var k := s.subscribers[handle.scope];
      assert Attached(s, k);
      assert Closes(s, Unsubscribe(h), k);
    }
  }

  /** A second call is a no-op as long as nobody re-subscribed. */
  lemma {:induction false} SecondUnsubscribeIsIdle(s: State, h: nat)
    requires Inv(s) && Enabled(s, Unsubscribe(h))
    ensures var s' := Apply(s, Unsubscribe(h)); Enabled(s', Unsubscribe(h)) && Apply(s', Unsubscribe(h)) == s'
  {
  }

  /** Subscribing, unsubscribing, subscribing again and calling the first unsubscribe function again
      closes the second subscriber's channel. */
  lemma {:induction false} StaleUnsubscribe(s: State)
    requires Quiet(s)
    ensures var steps := [Subscribe(INBOX), Unsubscribe(0), Subscribe(INBOX), Unsubscribe(0)];
      exists states: seq<State> :: IsRun([s] + states, steps) && |states[3].handles| == |states[3].chans| == 2
        && states[3].handles[1].chan == 1 && states[3].chans[1].closed
  {
    var steps := [Subscribe(INBOX), Unsubscribe(0), Subscribe(INBOX), Unsubscribe(0)];
    assert IsReserved(INBOX);
    var s1 := Apply(s, steps[0]);
    var s2 := Apply(s1, steps[1]);
    var s3 := Apply(s2, steps[2]);
    var s4 := Apply(s3, steps[3]);
    var states := [s1, s2, s3, s4];
    assert [s] + states == [s, s1, s2, s3, s4];
    assert |s4.handles| == |s4.chans| == 2 && s4.handles[1].chan == 1 && s4.chans[1].closed;
    assert IsRun([s] + states, steps);
  }
}
