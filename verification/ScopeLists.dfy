/** Listing scopes by cursor: names are spread over shards, filtered, sorted and cut to a page; the last
    name of a page is the cursor of the next. */
module ScopeLists {
  import opened Types

  // ---------- The order of names ----------

  /** Strictly before, character by character. */
  predicate Before(a: string, b: string) {
    b != "" && (a == "" || a[0] < b[0] || (a[0] == b[0] && Before(a[1..], b[1..])))
  }

  lemma {:induction false} BeforeIsOrder(a: string, b: string)
    ensures !(Before(a, b) && Before(b, a))
    ensures Before(a, b) || Before(b, a) || a == b
    ensures !Before(a, a)
  {
    if a != "" && b != "" {
      BeforeIsOrder(a[1..], b[1..]);
      if a[0] == b[0] && a[1..] == b[1..] {
        assert a == [a[0]] + a[1..] && b == [b[0]] + b[1..];
      }
    }
    if a != "" {
      BeforeIsOrder(a[1..], a[1..]);
    }
  }

  lemma {:induction false} BeforeIsTransitive(a: string, b: string, c: string)
    requires Before(a, b) && Before(b, c)
    ensures Before(a, c)
  {
    if a != "" && a[0] == b[0] && b[0] == c[0] {
      BeforeIsTransitive(a[1..], b[1..], c[1..]);
    }
  }

  predicate Ascending(xs: seq<string>) {
    forall i, j :: 0 <= i < j < |xs| ==> Before(xs[i], xs[j])
  }

  /** An ascending list is determined by what is in it. */
  lemma {:induction false} AscendingIsUnique(xs: seq<string>, ys: seq<string>)
    requires Ascending(xs) && Ascending(ys) && forall n :: n in xs <==> n in ys
    ensures xs == ys
  {
    hide Before;
    if xs == [] {
      assert forall i :: 0 <= i < |ys| ==> ys[i] in ys;
    } else {
      assert xs[0] in xs;
      var i :| 0 <= i < |ys| && ys[i] == xs[0];
      if i > 0 {
        assert ys[0] in ys;
        var j :| 0 <= j < |xs| && xs[j] == ys[0];
        BeforeIsOrder(xs[0], ys[0]);
      }
      assert ys[0] == xs[0];
      TailHasTheRest(xs);
      TailHasTheRest(ys);
      AscendingIsUnique(xs[1..], ys[1..]);
      assert xs == [xs[0]] + xs[1..] && ys == [ys[0]] + ys[1..];
    }
  }

  lemma TailHasTheRest(xs: seq<string>)
    requires Ascending(xs) && xs != []
    ensures Ascending(xs[1..]) && forall n :: n in xs[1..] <==> n in xs && n != xs[0]
  {
    forall n | n in xs[1..] ensures n != xs[0] {
      var i :| 0 <= i < |xs[1..]| && xs[1..][i] == n;
      assert Before(xs[0], xs[i + 1]);
      BeforeIsOrder(xs[0], n);
    }
    assert xs == [xs[0]] + xs[1..];
  }

  // ---------- Sorting ----------

  /** Puts a name in its place: what sorting does to each element in turn. */
  function Insert(xs: seq<string>, n: string): seq<string> {
    if xs == [] || Before(n, xs[0]) then [n] + xs else [xs[0]] + Insert(xs[1..], n)
  }

  function SortNames(names: seq<string>): seq<string> {
    if names == [] then [] else Insert(SortNames(names[1..]), names[0])
  }

  lemma {:induction false} InsertIsAscending(xs: seq<string>, n: string)
    requires Ascending(xs) && n !in xs
    ensures Ascending(Insert(xs, n)) && forall x :: x in Insert(xs, n) <==> x in xs || x == n
  {
    hide Before;
    if xs == [] {
    } else if Before(n, xs[0]) {
      forall i | 0 <= i < |xs| ensures Before(n, xs[i]) {
        if i > 0 { BeforeIsTransitive(n, xs[0], xs[i]); }
      }
      assert Insert(xs, n) == [n] + xs by { InsertFront(xs, n); }
    } else {
      BeforeIsOrder(n, xs[0]);
      InsertIsAscending(xs[1..], n);
      InsertLater(xs, n);
      var rest := Insert(xs[1..], n);
      forall i | 0 <= i < |rest| ensures Before(xs[0], rest[i]) {
        assert rest[i] in rest;
      }
      assert xs == [xs[0]] + xs[1..];
    }
  }

  lemma InsertFront(xs: seq<string>, n: string)
    requires xs != [] && Before(n, xs[0])
    ensures Insert(xs, n) == [n] + xs
  {
  }

  lemma InsertLater(xs: seq<string>, n: string)
    requires xs != [] && !Before(n, xs[0])
    ensures Insert(xs, n) == [xs[0]] + Insert(xs[1..], n)
  {
  }

  predicate Distinct(xs: seq<string>) {
    forall i, j :: 0 <= i < j < |xs| ==> xs[i] != xs[j]
  }

  lemma {:induction false} SortingSorts(names: seq<string>)
    requires Distinct(names)
    ensures Ascending(SortNames(names)) && forall n :: n in SortNames(names) <==> n in names
  {
    hide Before, Insert;
    if names != [] {
      SortingSorts(names[1..]);
      InsertIsAscending(SortNames(names[1..]), names[0]);
      assert names == [names[0]] + names[1..];
    }
  }

  // ---------- The listing ----------

  predicate Wanted(name: string, prefix: string, after: string) {
    prefix <= name && (after == "" || Before(after, name))
  }

  /** `names` is the listing of some set of scopes: those wanted, ascending, each once. */
  ghost predicate Lists(names: seq<string>, scopes: set<string>, prefix: string, after: string) {
    Ascending(names) && forall n :: n in names <==> n in scopes && Wanted(n, prefix, after)
  }

  /** The names of a set, ascending. */
  ghost function Listing(scopes: set<string>, prefix: string, after: string): (names: seq<string>)
    ensures Lists(names, scopes, prefix, after)
  {
    ListingExists(scopes, prefix, after);
    var names :| Lists(names, scopes, prefix, after);
    names
  }

  lemma {:induction false} ListingExists(scopes: set<string>, prefix: string, after: string)
    ensures exists names :: Lists(names, scopes, prefix, after)
    decreases |scopes|
  {
    hide Before, Insert, Wanted;
    if scopes == {} {
      assert Lists([], scopes, prefix, after);
    } else {
      var n :| n in scopes;
      ListingExists(scopes - {n}, prefix, after);
      var names :| Lists(names, scopes - {n}, prefix, after);
      if Wanted(n, prefix, after) {
        InsertIsAscending(names, n);
        assert Lists(Insert(names, n), scopes, prefix, after);
      } else {
        assert Lists(names, scopes, prefix, after);
      }
    }
  }

  function Page(names: seq<string>, limit: int): (seq<string>, bool) {
    if limit <= 0 then ([], false)
    else if |names| > limit then (names[..limit], true)
    else (names, false)
  }

  function AllNames(shards: seq<set<string>>): set<string> {
    set i, n | 0 <= i < |shards| && n in shards[i] :: n
  }

  /** The names of one shard that pass the filter, in whatever order the map yields them. */
  method CollectShard(names: set<string>, prefix: string, after: string) returns (refs: seq<string>)
    ensures Distinct(refs) && forall n :: n in refs <==> n in names && Wanted(n, prefix, after)
  {
    hide Before;
    refs := [];
    var todo := names;
    while todo != {}
      invariant todo <= names && Distinct(refs)
      invariant forall n :: n in refs <==> n in names - todo && Wanted(n, prefix, after)
      decreases |todo|
    {
      var name :| name in todo;
      todo := todo - {name};
      if prefix != "" && !(prefix <= name) {
        continue;
      }
      if after != "" && !Before(after, name) {
        continue;
      }
      assert name !in refs;
      DistinctJoin(refs, [name]);
      refs := refs + [name];
    }
  }

  /** One page of the listing, whatever shard each scope lives in. */
  method ScopeList(shardOf: string -> nat, shards: seq<set<string>>, prefix: string, after: string, limit: int)
    returns (names: seq<string>, truncated: bool)
    requires forall i, n :: 0 <= i < |shards| && n in shards[i] ==> shardOf(n) == i
    ensures (names, truncated) == Page(Listing(AllNames(shards), prefix, after), limit)
  {
    hide Before, Wanted, SortNames;
    if limit <= 0 {
      return [], false;
    }
    var refs: seq<string> := [];
    for i := 0 to |shards|
      invariant Distinct(refs)
      invariant forall n :: n in refs <==> n in AllNames(shards[..i]) && Wanted(n, prefix, after)
      invariant forall n :: n in refs ==> shardOf(n) < i
    {
      var more := CollectShard(shards[i], prefix, after);
      OneMoreShard(shards, i);
      DistinctJoin(refs, more);
      refs := refs + more;
    }
    assert shards[..|shards|] == shards;
    var sorted := SortNames(refs);
    SortingSorts(refs);
    AscendingIsUnique(sorted, Listing(AllNames(shards), prefix, after));
    truncated := |sorted| > limit;
    names := if truncated then sorted[..limit] else sorted;
  }

  lemma OneMoreShard(shards: seq<set<string>>, i: nat)
    requires i < |shards|
    ensures AllNames(shards[..i + 1]) == AllNames(shards[..i]) + shards[i]
  {
    assert shards[..i + 1] == shards[..i] + [shards[i]];
    forall n | n in AllNames(shards[..i]) + shards[i] ensures n in AllNames(shards[..i + 1]) {
      if n in shards[i] {
        assert shards[..i + 1][i] == shards[i];
      } else {
        var j :| 0 <= j < |shards[..i]| && n in shards[..i][j];
        assert shards[..i + 1][j] == shards[..i][j];
      }
    }
  }

  lemma DistinctJoin(a: seq<string>, b: seq<string>)
    requires Distinct(a) && Distinct(b) && forall n :: n in a ==> n !in b
    ensures Distinct(a + b)
  {
    forall i, j | 0 <= i < j < |a + b| ensures (a + b)[i] != (a + b)[j] {
      assert i < |a| ==> (a + b)[i] in a;
      assert j >= |a| ==> (a + b)[j] in b;
    }
  }

  // ---------- Walking the pages ----------

  lemma {:induction false} CutAscending(all: seq<string>, k: nat)
    requires Ascending(all) && 0 < k < |all|
    ensures Ascending(all[k..]) && forall n :: n in all[k..] <==> n in all && Before(all[k - 1], n)
  {
    hide Before;
    forall n | n in all && Before(all[k - 1], n) ensures n in all[k..] {
      var i :| 0 <= i < |all| && all[i] == n;
      BeforeIsOrder(all[k - 1], n);
      assert k <= i;
      assert all[k..][i - k] == n;
    }
    forall n | n in all[k..] ensures n in all && Before(all[k - 1], n) {
      var i :| 0 <= i < |all[k..]| && all[k..][i] == n;
      assert all[k + i] == n;
    }
  }

  /** The page after a page starts where the page ended. */
  lemma {:induction false} NextPage(scopes: set<string>, prefix: string, after: string, limit: nat)
    requires 0 < limit < |Listing(scopes, prefix, after)| && "" !in scopes
    ensures var all := Listing(scopes, prefix, after); Listing(scopes, prefix, all[limit - 1]) == all[limit..]
  {
    hide Before;
    var all := Listing(scopes, prefix, after);
    var last := all[limit - 1];
    assert last in all && last in scopes && Wanted(last, prefix, after);
    CutAscending(all, limit);
    forall n | n in scopes && n !in all && Before(last, n) ensures !(prefix <= n) {
      if after != "" && prefix <= n {
        BeforeIsTransitive(after, last, n);
      }
    }
    AscendingIsUnique(Listing(scopes, prefix, last), all[limit..]);
  }

  /** Every page's last name fed back as the cursor, until a page is not truncated. */
  ghost function Walk(scopes: set<string>, prefix: string, after: string, limit: nat): seq<string>
    requires limit > 0 && "" !in scopes
    decreases |Listing(scopes, prefix, after)|
  {
    var (page, truncated) := Page(Listing(scopes, prefix, after), limit);
    if !truncated then page
    else
      NextPage(scopes, prefix, after, limit);
      page + Walk(scopes, prefix, page[limit - 1], limit)
  }

  /** The walk enumerates exactly the wanted scopes, in order, each once. */
  lemma {:induction false} WalkIsExact(scopes: set<string>, prefix: string, after: string, limit: nat)
    requires limit > 0 && "" !in scopes
    ensures Walk(scopes, prefix, after, limit) == Listing(scopes, prefix, after)
    decreases |Listing(scopes, prefix, after)|
  {
    var all := Listing(scopes, prefix, after);
    if |all| > limit {
      NextPage(scopes, prefix, after, limit);
      WalkIsExact(scopes, prefix, all[limit - 1], limit);
    }
  }

  /** From the empty cursor: every scope with the prefix, and no other. */
  lemma WholeWalk(scopes: set<string>, prefix: string, limit: nat)
    requires limit > 0 && "" !in scopes
    ensures var walk := Walk(scopes, prefix, "", limit);
      Ascending(walk) && forall n :: n in walk <==> n in scopes && prefix <= n
  {
    WalkIsExact(scopes, prefix, "", limit);
  }

  /** A page says that it is truncated exactly when asking again from its last name gives something. */
  lemma {:induction false} TruncatedExactly(scopes: set<string>, prefix: string, after: string, limit: nat)
    requires limit > 0 && "" !in scopes
    ensures var (page, truncated) := Page(Listing(scopes, prefix, after), limit);
      && |page| <= limit
      && (truncated ==> |page| == limit)
      && (|page| > 0 ==> (truncated <==> Listing(scopes, prefix, page[|page| - 1]) != []))
      && (|page| == 0 ==> !truncated)
  {
    var all := Listing(scopes, prefix, after);
    if limit < |all| {
      NextPage(scopes, prefix, after, limit);
    } else if all != [] {
      NothingAfterLast(scopes, prefix, after);
    }
  }

  lemma {:induction false} NothingAfterLast(scopes: set<string>, prefix: string, after: string)
    requires "" !in scopes && Listing(scopes, prefix, after) != []
    ensures var all := Listing(scopes, prefix, after); Listing(scopes, prefix, all[|all| - 1]) == []
  {
    hide Before;
    var all := Listing(scopes, prefix, after);
    var last := all[|all| - 1];
    assert last in all && last in scopes;
    var rest := Listing(scopes, prefix, last);
    if rest != [] {
      var n := rest[0];
      assert n in rest && n in scopes && Before(last, n);
      if after != "" { BeforeIsTransitive(after, last, n); }
      assert n in all;
      var i :| 0 <= i < |all| && all[i] == n;
      BeforeIsOrder(last, n);
      assert false;
    }
  }
}
