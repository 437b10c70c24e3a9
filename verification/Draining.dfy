/** Reading a scope page by page, and consuming it: what the read windows add up to over a whole loop. */
module Draining {
  import opened Types
  import opened ScopeSpec

  // ---------- Paging through a scope that does not change ----------

  /** Head pages, each starting after the last sequence number of the page before, until no more remain. */
  function HeadPages(items: seq<Entry>, afterSeq: nat, limit: nat): seq<Entry>
    requires Ordered(items) && limit > 0
    decreases |After(items, afterSeq)|
  {
    var (page, more) := HeadWindow(items, afterSeq, limit);
    if !more then page
    else
      HeadPageAdvances(items, afterSeq, limit);
      page + HeadPages(items, page[limit - 1].seqNo, limit)
  }

  lemma {:induction false} HeadPageAdvances(items: seq<Entry>, afterSeq: nat, limit: nat)
    requires Ordered(items) && limit > 0 && HeadWindow(items, afterSeq, limit).1
    ensures var page := HeadWindow(items, afterSeq, limit).0;
      |page| == limit && After(items, page[limit - 1].seqNo) == After(items, afterSeq)[limit..]
  {
    hide After;
    var k := Cut(items, afterSeq);
    AfterIsSuffix(items, afterSeq, k);
    AfterIsSuffix(items, items[k + limit - 1].seqNo, k + limit);
    assert items[k..][..limit][limit - 1] == items[k + limit - 1];
  }

  /** Head paging returns every item beyond the start exactly once, in order; with a start of zero that is
      the whole scope. A page says that more remain if and only if some item lies beyond it. */
  lemma {:induction false} HeadPagingIsExact(s: Scope, afterSeq: nat, limit: nat)
    requires WellFormed(s) && limit > 0
    ensures HeadPages(s.items, afterSeq, limit) == After(s.items, afterSeq)
    ensures afterSeq == 0 ==> HeadPages(s.items, afterSeq, limit) == s.items
    ensures var (page, more) := HeadWindow(s.items, afterSeq, limit);
      page <= After(s.items, afterSeq) && (more <==> |page| < |After(s.items, afterSeq)|)
    decreases |After(s.items, afterSeq)|
  {
    var items := s.items;
    var (page, more) := HeadWindow(items, afterSeq, limit);
    if afterSeq == 0 {
      AfterIsSuffix(items, 0, 0);
      assert items[0..] == items;
    }
    if more {
      HeadPageAdvances(items, afterSeq, limit);
      HeadPagingIsExact(s, page[limit - 1].seqNo, limit);
    }
    hide WellFormed;
  }

  /** Tail pages from the newest end, each skipping what the pages before returned. */
  function TailPages(items: seq<Entry>, offset: nat, limit: nat): seq<Entry>
    requires limit > 0
    decreases |items| - offset
  {
    var (page, more) := TailWindow(items, limit, offset);
    if !more then page else TailPages(items, offset + limit, limit) + page
  }

  lemma PrefixSplit(items: seq<Entry>, start: nat, end: nat)
    requires start <= end <= |items|
    ensures items[..end] == items[..start] + items[start..end]
  {
  }

  /** Tail paging returns every item that was not skipped exactly once, in order. */
  lemma {:induction false} TailPagingIsExact(items: seq<Entry>, offset: nat, limit: nat)
    requires limit > 0
    ensures TailPages(items, offset, limit) == if offset <= |items| then items[..|items| - offset] else []
    ensures var (page, more) := TailWindow(items, limit, offset); more <==> |page| + offset < |items|
    decreases |items| - offset
  {
    if offset < |items| {
      var end := |items| - offset;
      var start := if end > limit then end - limit else 0;
      assert TailWindow(items, limit, offset) == (items[start..end], start > 0);
      PrefixSplit(items, start, end);
      if start > 0 {
        TailPagingIsExact(items, offset + limit, limit);
      }
    }
  }

  // ---------- Consuming a scope while it grows ----------

  /** A consumer with the batch it has read but not yet deleted: `older` is what the read said about
      items before the batch, `skipped` how many there are. `appended` is everything ever appended,
      `consumed` everything the consumer has finished with, `lost` how many items it deleted unread. */
  datatype Loop = Loop(
    scope: Scope, cursor: nat, batch: seq<Entry>, older: bool, skipped: nat,
    appended: seq<Entry>, consumed: seq<Entry>, lost: nat)

  datatype Turn = Arrive(e: Entry) | ReadHead(limit: nat) | ReadTail(limit: nat) | Trim

  predicate Possible(l: Loop, turn: Turn) {
    match turn
    case Arrive(e) => FindId(l.scope.items, e.id).None? && (e.uuid.None? || Fresh(l.scope, e.uuid.value))
    case ReadHead(limit) => l.batch == [] && limit > 0
    case ReadTail(limit) => l.batch == [] && limit > 0
    case Trim => l.batch != []
  }

  function Take(l: Loop, turn: Turn): Loop
    requires Possible(l, turn)
  {
    match turn
    case Arrive(e) =>
      var s := Pushed(l.scope, e);
      l.(scope := s, appended := l.appended + [s.items[|l.scope.items|]])
    case ReadHead(limit) => l.(batch := HeadWindow(l.scope.items, l.cursor, limit).0, older := false, skipped := 0)
    case ReadTail(limit) =>
      var (window, more) := TailWindow(l.scope.items, limit, 0);
      l.(batch := window, older := more, skipped := if more then |l.scope.items| - |window| else 0)
    case Trim =>
      var last := l.batch[|l.batch| - 1].seqNo;
      l.(scope := Remove(l.scope, UpToSeq(last)), cursor := last, batch := [], consumed := l.consumed + l.batch,
         lost := l.lost + l.skipped, skipped := 0)
  }

  /** Nothing comes twice, no sequence number was ever given out twice, and what is neither consumed nor
      stored was lost; the batch is where the read found it. */
  predicate Tracked(l: Loop) {
    && WellFormed(l.scope)
    && |l.consumed| + |l.scope.items| + l.lost == |l.appended|
    && (l.lost == 0 ==> l.consumed + l.scope.items == l.appended)
    && Ordered(l.appended)
    && (forall i :: 0 <= i < |l.appended| ==> 0 < l.appended[i].seqNo <= l.scope.lastSeq)
    && (forall i :: 0 <= i < |l.scope.items| ==> l.scope.items[i].seqNo > l.cursor)
    && l.cursor <= l.scope.lastSeq
    && l.skipped + |l.batch| <= |l.scope.items|
    && l.batch == l.scope.items[l.skipped..l.skipped + |l.batch|]
    && (l.batch != [] ==> (l.older <==> l.skipped > 0))
  }

  /** Everything ever appended is either consumed or still there. */
  predicate Lossless(l: Loop) {
    l.consumed + l.scope.items == l.appended
  }

  lemma {:induction false} ArrivalKeeps(l: Loop, e: Entry)
    requires Tracked(l) && Possible(l, Arrive(e))
    ensures Tracked(Take(l, Arrive(e)))
  {
    assert WellFormed(Pushed(l.scope, e)) by { PushIsSound(l.scope, e); }
    hide FindId, WellFormed;
    var l' := Take(l, Arrive(e));
    assert l'.consumed + l'.scope.items == l.consumed + l.scope.items + [l'.scope.items[|l.scope.items|]];
    var n := l.skipped + |l.batch|;
    assert l'.scope.items[l.skipped..n] == l.scope.items[l.skipped..n];
  }

  lemma {:induction false} ReadKeeps(l: Loop, turn: Turn)
    requires Tracked(l) && Possible(l, turn) && (turn.ReadHead? || turn.ReadTail?)
    ensures Tracked(Take(l, turn))
  {
    if turn.ReadHead? {
      assert After(l.scope.items, l.cursor) == l.scope.items by {
        AfterIsSuffix(l.scope.items, l.cursor, 0);
        assert l.scope.items[0..] == l.scope.items;
      }
    }
    hide WellFormed, After, Ordered;
  }

  /** Deleting up to the last item of a prefix deletes exactly the prefix. */
  lemma {:induction false} PrefixIsTrimmed(s: Scope, n: nat)
    requires WellFormed(s) && 0 < n <= |s.items|
    ensures var last, rest := s.items[n - 1].seqNo, s.items[n..];
      && Remove(s, UpToSeq(last)) == s.(items := rest) && WellFormed(s.(items := rest))
      && last <= s.lastSeq && forall i :: 0 <= i < |rest| ==> rest[i].seqNo > last
  {
    SuffixIsSound(s, n);
    AfterIsSuffix(s.items, s.items[n - 1].seqNo, n);
    hide After;
  }

  lemma {:induction false} TrimKeeps(l: Loop)
    requires Tracked(l) && Possible(l, Trim)
    ensures Tracked(Take(l, Trim))
  {
    hide WellFormed, Remove, Ordered;
    var items, n := l.scope.items, l.skipped + |l.batch|;
    assert l.batch[|l.batch| - 1] == items[n - 1];
    PrefixIsTrimmed(l.scope, n);
    if l.lost == 0 && l.skipped == 0 {
      assert items == l.batch + items[n..];
      assert (l.consumed + l.batch) + items[n..] == l.appended;
    }
  }

  predicate IsRun(loops: seq<Loop>, turns: seq<Turn>) {
    && |loops| == |turns| + 1
    && WellFormed(loops[0].scope) && loops[0].cursor == 0 && loops[0].batch == [] && loops[0].skipped == 0
    && loops[0].consumed == [] && loops[0].lost == 0 && loops[0].appended == loops[0].scope.items
    && forall i :: 0 <= i < |turns| ==> Possible(loops[i], turns[i]) && loops[i + 1] == Take(loops[i], turns[i])
  }

  lemma {:induction false} RunIsTracked(loops: seq<Loop>, turns: seq<Turn>, i: nat)
    requires IsRun(loops, turns) && i < |loops|
    ensures Tracked(loops[i])
  {
    hide Tracked, Possible, Take;
    if i == 0 {
      StartIsTracked(loops, turns);
    } else {
      RunIsTracked(loops, turns, i - 1);
      match turns[i - 1]
      case Arrive(e) => ArrivalKeeps(loops[i - 1], e);
      case ReadHead(_) => ReadKeeps(loops[i - 1], turns[i - 1]);
      case ReadTail(_) => ReadKeeps(loops[i - 1], turns[i - 1]);
      case Trim => TrimKeeps(loops[i - 1]);
    }
  }

  lemma StartIsTracked(loops: seq<Loop>, turns: seq<Turn>)
    requires IsRun(loops, turns)
    ensures Tracked(loops[0])
  {
    assert loops[0].consumed + loops[0].scope.items == loops[0].scope.items;
  }

  /** The turn deletes up to a batch whose read said that older items remain before it. */
  predicate TrimsPastOlder(l: Loop, turn: Turn) {
    turn.Trim? && l.older
  }

  lemma {:induction false} LostExactly(loops: seq<Loop>, turns: seq<Turn>, i: nat)
    requires IsRun(loops, turns) && i < |loops|
    ensures loops[i].lost == 0 <==> forall k :: 0 <= k < i ==> !TrimsPastOlder(loops[k], turns[k])
  {
    hide WellFormed, Ordered, Remove, FindId, Fresh, TailWindow, HeadWindow, Pushed;
    if i > 0 {
      LostExactly(loops, turns, i - 1);
      RunIsTracked(loops, turns, i - 1);
      assert Possible(loops[i - 1], turns[i - 1]) && loops[i] == Take(loops[i - 1], turns[i - 1]);
    }
  }

  /** However appends interleave with a consumer that reads from either end and deletes what it has read:
      the run has lost nothing, so that what was consumed followed by what is stored is exactly what was
      appended, in order, if and only if it never deleted up to a batch with older items before it. */
  lemma {:induction false} LosslessExactly(loops: seq<Loop>, turns: seq<Turn>, i: nat)
    requires IsRun(loops, turns) && i < |loops|
    ensures Lossless(loops[i]) <==> forall k :: 0 <= k < i ==> !TrimsPastOlder(loops[k], turns[k])
    ensures Ordered(loops[i].appended)
  {
    RunIsTracked(loops, turns, i);
    LostExactly(loops, turns, i);
    hide IsRun, WellFormed, Ordered, TrimsPastOlder;
    assert |loops[i].consumed + loops[i].scope.items| == |loops[i].consumed| + |loops[i].scope.items|;
  }

  /** A consumer that always reads from the head loses nothing, and all sequence numbers ever given out
      differ, even after the scope has been drained to empty. */
  lemma {:induction false} HeadLoopIsLossless(loops: seq<Loop>, turns: seq<Turn>, i: nat)
    requires IsRun(loops, turns) && i < |loops| && !loops[0].older
      && forall k :: 0 <= k < |turns| ==> !turns[k].ReadTail?
    ensures Lossless(loops[i]) && Ordered(loops[i].appended) && !loops[i].older
  {
    hide Lossless, Ordered;
    LosslessExactly(loops, turns, i);
    forall k | 0 <= k <= i ensures !loops[k].older {
      NeverOlder(loops, turns, k);
    }
  }

  lemma {:induction false} NeverOlder(loops: seq<Loop>, turns: seq<Turn>, k: nat)
    requires IsRun(loops, turns) && k < |loops| && !loops[0].older
      && forall j :: 0 <= j < |turns| ==> !turns[j].ReadTail?
    ensures !loops[k].older
  {
    if k > 0 {
      NeverOlder(loops, turns, k - 1);
      assert loops[k] == Take(loops[k - 1], turns[k - 1]);
    }
  }

  // ---------- A losing run ----------

  function Numbered(n: nat): Entry {
    Entry(INBOX, "", n, 0, None, [], None, None)
  }

  /** Two items are stored; the consumer reads the newest one from the tail and deletes up to it. */
  lemma {:induction false} TailLoopLoses()
    ensures var start := Loop(Scope([Numbered(1), Numbered(2)], 2, None, None), 0, [], false, 0,
      [Numbered(1), Numbered(2)], [], 0);
      exists loops: seq<Loop> ::
        && IsRun(loops, [ReadTail(1), Trim]) && loops[0] == start
        && loops[2].consumed == [Numbered(2)] && loops[2].scope.items == [] && loops[2].lost == 1
  {
    hide WellFormed, TailWindow, Remove;
    var turns := [ReadTail(1), Trim];
    var items := [Numbered(1), Numbered(2)];
    var start := Loop(Scope(items, 2, None, None), 0, [], false, 0, items, [], 0);
    TwoItems();
    PrefixIsTrimmed(start.scope, 2);
    var read := Take(start, turns[0]);
    var last := Take(read, turns[1]);
    var loops := [start, read, last];
    assert forall i :: 0 <= i < 2 ==> Possible(loops[i], turns[i]) && loops[i + 1] == Take(loops[i], turns[i]);
    assert IsRun(loops, turns);
  }

  lemma TwoItems()
    ensures var items := [Numbered(1), Numbered(2)];
      WellFormed(Scope(items, 2, None, None)) && TailWindow(items, 1, 0) == ([Numbered(2)], true)
  {
    assert [Numbered(1), Numbered(2)][1..2] == [Numbered(2)];
  }
}
