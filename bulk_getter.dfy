/** `aggregateBulkGetter`: split `[0, total)` into pages of `querySize`, fetch every page,
    retry a page until it yields a non-empty list, and concatenate the pages in page order.

    The getter is an oracle: for the page `[start, end)` it lists the outcomes of the
    successive calls `getterFn(start, end)`. When none of the listed outcomes is non-empty the
    page never resolves, and neither does the aggregate (`aggregateBulkGetter` retries
    forever). */
module BulkGetter {
  import opened Wrappers
  import opened Numerals

  /** One call of the getter: it threw (the promise rejected), or it returned a list. */
  datatype Attempt<T> = Threw | Returned(items: seq<T>)

  /** `.catch(() => [])` on a page's call: a thrown call counts as an empty result, so only a
      call that returned a non-empty list ends the retry loop. */
  function Yield<T>(a: Attempt<T>): (items: seq<T>)
    ensures items != [] <==> a.Returned? && a.items != []
    ensures items != [] ==> items == a.items
  {
    if a.Returned? then a.items else []
  }

  function Min(a: nat, b: nat): nat { if a <= b then a else b }

  /** Seconds waited before the call made after `tries` calls: `min(15, 2^tries - 1)`. The
      wait never exceeds 15 seconds and reaches that cap from the fifth call on. */
  function Backoff(tries: nat): (w: nat)
    ensures w <= 15
    ensures w == 15 <==> tries >= 4
  {
    if tries >= 4 then
      Pow2AtLeast(tries);
      Min(15, Pow(2, tries) - 1)
    else
      assert Pow(2, 0) == 1 && Pow(2, 1) == 2 && Pow(2, 2) == 4 && Pow(2, 3) == 8;
      Min(15, Pow(2, tries) - 1)
  }

  /** The waits run 0, 1, 3, 7 seconds and then stay at 15. */
  lemma {:induction false} BackoffSchedule(tries: nat)
    ensures tries == 0 ==> Backoff(tries) == 0
    ensures 0 < tries < 4 ==> Backoff(tries) == 2 * Backoff(tries - 1) + 1
    ensures tries >= 4 ==> Backoff(tries) == 15
  {
    if tries >= 4 {
      Pow2AtLeast(tries);
    } else if tries > 0 {
      assert Pow(2, tries) == 2 * Pow(2, tries - 1);
      assert Pow(2, tries - 1) <= 8 by {
        assert Pow(2, 0) == 1 && Pow(2, 1) == 2 && Pow(2, 2) == 4;
      }
    }
  }

  lemma {:induction false} Pow2AtLeast(k: nat)
    requires k >= 4
    ensures Pow(2, k) >= 16
  {
    if k > 4 { Pow2AtLeast(k - 1); }
    else { assert Pow(2, 4) == 16 by { assert Pow(2, 2) == 4; } }
  }

  /** The index of the first call that yields a non-empty list. */
  function FirstSuccess<T>(attempts: seq<Attempt<T>>): (k: Option<nat>)
    ensures k.Some? ==> k.value < |attempts| && Yield(attempts[k.value]) != []
    ensures k.Some? ==> forall j :: 0 <= j < k.value ==> Yield(attempts[j]) == []
    ensures k.None? ==> forall j :: 0 <= j < |attempts| ==> Yield(attempts[j]) == []
  {
    if |attempts| == 0 then None
    else if Yield(attempts[0]) != [] then Some(0)
    else
      match FirstSuccess(attempts[1..])
      case None => None
      case Some(k) => Some(k + 1)
  }

  /** What a page resolves to: the first non-empty result; failed and empty calls contribute
      nothing. */
  function PageOutcome<T>(attempts: seq<Attempt<T>>): (r: Option<seq<T>>)
    ensures r.Some? <==> exists k :: 0 <= k < |attempts| && Yield(attempts[k]) != []
    ensures r.Some? ==>
              r.value != [] &&
              exists k :: 0 <= k < |attempts| && r.value == Yield(attempts[k]) &&
                (forall j :: 0 <= j < k ==> Yield(attempts[j]) == [])
  {
    match FirstSuccess(attempts)
    case None => None
    case Some(k) => Some(Yield(attempts[k]))
  }

  /** How many calls a page makes before it resolves (all of them when it never does). */
  function CallsMade<T>(attempts: seq<Attempt<T>>): nat {
    match FirstSuccess(attempts)
    case None => |attempts|
    case Some(k) => k + 1
  }

  /** The retry loop of one page: wait, call, repeat while the result is empty. */
  method FetchPage<T>(attempts: seq<Attempt<T>>) returns (outcome: Option<seq<T>>, waits: seq<nat>)
    ensures outcome == PageOutcome(attempts)
    ensures |waits| == CallsMade(attempts)
    ensures forall k :: 0 <= k < |waits| ==> waits[k] == Backoff(k)
  {
    var res: seq<T> := [];
    var tries := 0;
    waits := [];
    while |res| == 0 && tries < |attempts|
      invariant 0 <= tries <= |attempts|
      invariant |waits| == tries && forall k :: 0 <= k < tries ==> waits[k] == Backoff(k)
      invariant res == [] ==> forall j :: 0 <= j < tries ==> Yield(attempts[j]) == []
      invariant res != [] ==> tries > 0 && res == Yield(attempts[tries - 1])
                              && forall j :: 0 <= j < tries - 1 ==> Yield(attempts[j]) == []
    {
      waits := waits + [Backoff(tries)];
      res := Yield(attempts[tries]);
      tries := tries + 1;
    }
    if res == [] {
      outcome := None;
    } else {
      outcome := Some(res);
    }
  }

  // ------------------------------------------------------------------ paging

  /** `ceil(total / querySize)`: the number of `i` with `i < total / querySize`. */
  function NumPages(total: nat, querySize: nat): nat
    requires querySize > 0
  {
    (total + querySize - 1) / querySize
  }

  function PageStart(i: nat, querySize: nat): nat {
    i * querySize
  }

  function PageEnd(i: nat, querySize: nat, total: nat): nat {
    Min((i + 1) * querySize, total)
  }

  lemma MulMonoRight(x: nat, y: nat, q: nat)
    ensures x <= y ==> x * q <= y * q
  {
  }

  lemma RealBelowQuotient(a: real, b: real, c: real)
    requires c > 0.0
    ensures a < b / c <==> a * c < b
  {
    assert (b / c) * c == b;
    if a < b / c {
      assert a * c < (b / c) * c;
    } else {
      assert a * c >= (b / c) * c;
    }
  }

  lemma RealGuard(i: nat, total: nat, q: nat)
    requires q > 0
    ensures (i as real) < (total as real) / (q as real) <==> i * q < total
  {
    RealBelowQuotient(i as real, total as real, q as real);
    assert (i as real) * (q as real) == (i * q) as real;
  }

  lemma NumPagesBounds(total: nat, q: nat)
    requires q > 0
    ensures NumPages(total, q) * q <= total + q - 1 < (NumPages(total, q) + 1) * q
  {
  }

  /** `aggregateBulkGetter`'s loop guard `i < total / querySize` (real division) holds exactly for
      the pages below `NumPages`. */
  lemma PageGuard(i: nat, total: nat, querySize: nat)
    requires querySize > 0
    ensures (i as real) < (total as real) / (querySize as real) <==> i * querySize < total
    ensures i * querySize < total <==> i < NumPages(total, querySize)
  {
    var q := querySize;
    var n := NumPages(total, q);
    RealGuard(i, total, q);
    NumPagesBounds(total, q);
    if i < n {
      MulMonoRight(i, n - 1, q);
      assert (n - 1) * q == n * q - q;
    } else {
      MulMonoRight(n, i, q);
    }
  }

  /** The page boundaries `[start, end)`, one pair per iteration of `aggregateBulkGetter`'s
      loop. */
  function Ranges(total: nat, querySize: nat): (rs: seq<(nat, nat)>)
    requires querySize > 0
    ensures |rs| == NumPages(total, querySize)
  {
    seq(NumPages(total, querySize), i requires 0 <= i => (PageStart(i, querySize), PageEnd(i, querySize, total)))
  }

  /** The pages are non-empty, at most `querySize` long and contiguous; the first starts at 0,
      the last ends at `total`; there are none when `total` is 0. */
  lemma PagesPartition(total: nat, querySize: nat)
    requires querySize > 0
    ensures var rs := Ranges(total, querySize);
            (|rs| == 0 <==> total == 0) &&
            (|rs| > 0 ==> rs[0].0 == 0 && rs[|rs| - 1].1 == total) &&
            (forall i :: 0 <= i < |rs| ==> rs[i].0 < rs[i].1 <= rs[i].0 + querySize) &&
            (forall i :: 0 <= i < |rs| - 1 ==> rs[i].1 == rs[i + 1].0)
  {
    var rs := Ranges(total, querySize);
    var n := |rs|;
    PageGuard(0, total, querySize);
    forall i | 0 <= i < n
      ensures rs[i].0 < rs[i].1 <= rs[i].0 + querySize
    {
      PageGuard(i, total, querySize);
      assert (i + 1) * querySize == i * querySize + querySize;
    }
    forall i | 0 <= i < n - 1
      ensures rs[i].1 == rs[i + 1].0
    {
      PageGuard(i + 1, total, querySize);
    }
    if n > 0 {
      PageGuard(n, total, querySize);
      assert n * querySize == (n - 1) * querySize + querySize;
    }
  }

  lemma DivBounds(x: nat, q: nat)
    requires q > 0
    ensures (x / q) * q <= x < (x / q + 1) * q
  {
    assert x == (x / q) * q + x % q;
    assert (x / q + 1) * q == (x / q) * q + q;
  }

  /** Two pages that both hold `x` are the same page. */
  lemma SamePage(i: nat, j: nat, q: nat, x: nat)
    requires i * q <= x < (i + 1) * q && j * q <= x < (j + 1) * q
    ensures i == j
  {
    MulMonoRight(j + 1, i, q);
    MulMonoRight(i + 1, j, q);
  }

  /** Every index below `total` lies in exactly one page, page `x / querySize`. */
  lemma PageCovers(total: nat, querySize: nat, x: nat)
    requires querySize > 0 && x < total
    ensures var rs := Ranges(total, querySize);
            x / querySize < |rs| && rs[x / querySize].0 <= x < rs[x / querySize].1
    ensures var rs := Ranges(total, querySize);
            forall i :: 0 <= i < |rs| && rs[i].0 <= x < rs[i].1 ==> i == x / querySize
  {
    var q := querySize;
    var i := x / q;
    DivBounds(x, q);
    PageGuard(i, total, q);
    var rs := Ranges(total, q);
    forall j | 0 <= j < |rs| && rs[j].0 <= x < rs[j].1
      ensures j == i
    {
      assert rs[j].0 == j * q && rs[j].1 <= (j + 1) * q;
      SamePage(i, j, q, x);
    }
  }

  // -------------------------------------------------------------- aggregation

  /** lodash `_.flatten`: concatenate one level of lists. Nothing is lost and nothing is
      added: every item of every list is in the result, and every item of the result comes
      from one of the lists. */
  function Flatten<T>(xss: seq<seq<T>>): (xs: seq<T>)
    ensures forall i, j :: 0 <= i < |xss| && 0 <= j < |xss[i]| ==> xss[i][j] in xs
    ensures forall x :: x in xs ==> exists i :: 0 <= i < |xss| && x in xss[i]
  {
    if |xss| == 0 then []
    else
      var init := xss[..|xss| - 1];
      assert forall i :: 0 <= i < |init| ==> init[i] == xss[i];
      Flatten(init) + xss[|xss| - 1]
  }

  /** Lists that are all non-empty flatten to at least one item per list. */
  lemma {:induction false} FlattenNonEmpty<T>(xss: seq<seq<T>>)
    requires forall i :: 0 <= i < |xss| ==> xss[i] != []
    ensures |Flatten(xss)| >= |xss|
  {
    if |xss| > 0 {
      FlattenNonEmpty(xss[..|xss| - 1]);
    }
  }

  lemma FlattenAppend<T>(xss: seq<seq<T>>, xs: seq<T>)
    ensures Flatten(xss + [xs]) == Flatten(xss) + xs
  {
    assert (xss + [xs])[..|xss|] == xss;
  }

  /** What each page resolves to, in page order. */
  function Outcomes<T>(getter: (nat, nat) -> seq<Attempt<T>>, rs: seq<(nat, nat)>): (os: seq<Option<seq<T>>>)
    ensures |os| == |rs|
  {
    seq(|rs|, i requires 0 <= i < |rs| => PageOutcome(getter(rs[i].0, rs[i].1)))
  }

  /** `Promise.all` over the page promises: the list of their values once every page has
      resolved, None while one of them never does. */
  function AllResolved<T>(os: seq<Option<seq<T>>>): (r: Option<seq<seq<T>>>)
    ensures r.Some? <==> forall i :: 0 <= i < |os| ==> os[i].Some?
    ensures r.Some? ==> |r.value| == |os|
  {
    if |os| == 0 then Some([])
    else
      match AllResolved(os[..|os| - 1])
      case None => None
      case Some(done) =>
        match os[|os| - 1]
        case None => None
        case Some(page) => Some(done + [page])
  }

  /** `Promise.all` resolves exactly when every page does, and then lists each page's value
      at that page's position. */
  lemma {:induction false} AllResolvedSpec<T>(os: seq<Option<seq<T>>>)
    ensures AllResolved(os).Some? <==> forall i :: 0 <= i < |os| ==> os[i].Some?
    ensures AllResolved(os).Some? ==>
              |AllResolved(os).value| == |os| && forall i :: 0 <= i < |os| ==> os[i] == Some(AllResolved(os).value[i])
  {
    if |os| > 0 {
      var init := os[..|os| - 1];
      AllResolvedSpec(init);
      assert forall i :: 0 <= i < |init| ==> init[i] == os[i];
    }
  }

  /** What `aggregateBulkGetter` resolves to, or None when it never resolves. A page only
      resolves to a non-empty list, so the result holds at least one item per page. */
  function Aggregate<T>(total: nat, querySize: nat, getter: (nat, nat) -> seq<Attempt<T>>): (r: Option<seq<T>>)
    requires querySize > 0
    ensures r.Some? ==> |r.value| >= NumPages(total, querySize)
  {
    var os := Outcomes(getter, Ranges(total, querySize));
    match AllResolved(os)
    case None => None
    case Some(pages) =>
      AllResolvedSpec(os);
      forall i | 0 <= i < |pages| ensures pages[i] != [] {
        var rs := Ranges(total, querySize);
        assert os[i] == PageOutcome(getter(rs[i].0, rs[i].1)) == Some(pages[i]);
      }
      FlattenNonEmpty(pages);
      Some(Flatten(pages))
  }

  lemma AllResolvedStep<T>(os: seq<Option<seq<T>>>, i: nat, results: seq<seq<T>>)
    requires i < |os| && AllResolved(os[..i]) == Some(results)
    ensures os[i].Some? ==> AllResolved(os[..i + 1]) == Some(results + [os[i].value])
    ensures os[i].None? ==> AllResolved(os).None?
  {
    assert os[..i + 1][..i] == os[..i];
    if os[i].None? {
      AllResolvedSpec(os);
    }
  }

  /** `aggregateBulkGetter`. The pages run one after another here; the TypeScript starts
      them all at once, which changes neither the calls made per page nor the result. */
  method AggregateBulkGetter<T>(total: nat, querySize: nat, getterFn: (nat, nat) -> seq<Attempt<T>>)
    returns (r: Option<seq<T>>)
    requires querySize > 0
    ensures r == Aggregate(total, querySize, getterFn)
  {
    ghost var os := Outcomes(getterFn, Ranges(total, querySize));
    var results: seq<seq<T>> := [];
    var i: nat := 0;
    PageGuard(i, total, querySize);
    while (i as real) < (total as real) / (querySize as real)
      invariant i <= |os|
      invariant AllResolved(os[..i]) == Some(results)
      invariant (i as real) < (total as real) / (querySize as real) <==> i < |os|
      decreases |os| - i
    {
      var start := i * querySize;
      var end := Min((i + 1) * querySize, total);
      var res, _ := FetchPage(getterFn(start, end));
      assert os[i] == res;
      AllResolvedStep(os, i, results);
      if res.None? {
        return None;
      }
      results := results + [res.value];
      i := i + 1;
      PageGuard(i, total, querySize);
    }
    assert os[..i] == os;
    r := Some(Flatten(results));
  }

  /** The aggregate resolves exactly when every page does. */
  lemma AggregateResolves<T>(total: nat, querySize: nat, getter: (nat, nat) -> seq<Attempt<T>>)
    requires querySize > 0
    ensures var rs := Ranges(total, querySize);
            Aggregate(total, querySize, getter).Some? <==>
              forall i :: 0 <= i < |rs| ==> PageOutcome(getter(rs[i].0, rs[i].1)).Some?
  {
    OutcomesResolve(getter, Ranges(total, querySize));
  }

  lemma OutcomesResolve<T>(getter: (nat, nat) -> seq<Attempt<T>>, rs: seq<(nat, nat)>)
    ensures AllResolved(Outcomes(getter, rs)).Some? <==>
              forall i :: 0 <= i < |rs| ==> PageOutcome(getter(rs[i].0, rs[i].1)).Some?
  {
    var os := Outcomes(getter, rs);
    AllResolvedSpec(os);
    assert forall i :: 0 <= i < |rs| ==> os[i] == PageOutcome(getter(rs[i].0, rs[i].1));
  }

  /** The getter serves `source`: every page resolves to exactly its slice of `source`. */
  ghost predicate ServesExactly<T>(getter: (nat, nat) -> seq<Attempt<T>>, rs: seq<(nat, nat)>, source: seq<T>) {
    forall i :: 0 <= i < |rs| ==>
      rs[i].0 <= rs[i].1 <= |source| && PageOutcome(getter(rs[i].0, rs[i].1)) == Some(source[rs[i].0..rs[i].1])
  }

  /** Concatenating the pages in page order rebuilds `source`: the result has length
      `total`, keeps the order of `source` and repeats nothing, whatever failures the pages
      retried through. */
  lemma AggregateExact<T>(total: nat, querySize: nat, getter: (nat, nat) -> seq<Attempt<T>>, source: seq<T>)
    requires querySize > 0 && |source| == total
    requires ServesExactly(getter, Ranges(total, querySize), source)
    ensures Aggregate(total, querySize, getter) == Some(source)
  {
    var rs := Ranges(total, querySize);
    PagesPartition(total, querySize);
    ContiguousPagesRebuild(getter, rs, source);
    var pages := AllResolved(Outcomes(getter, rs)).value;
    assert Aggregate(total, querySize, getter) == Some(Flatten(pages));
  }

  /** Pages that tile `source` from its start to its end, each served exactly, flatten back
      to `source`. */
  lemma ContiguousPagesRebuild<T>(getter: (nat, nat) -> seq<Attempt<T>>, rs: seq<(nat, nat)>, source: seq<T>)
    requires ServesExactly(getter, rs, source)
    requires |rs| == 0 ==> source == []
    requires |rs| > 0 ==> rs[0].0 == 0 && rs[|rs| - 1].1 == |source|
    requires forall i :: 0 <= i < |rs| - 1 ==> rs[i].1 == rs[i + 1].0
    ensures AllResolved(Outcomes(getter, rs)).Some?
    ensures Flatten(AllResolved(Outcomes(getter, rs)).value) == source
  {
    ServedPages(getter, rs, source);
    var pages := AllResolved(Outcomes(getter, rs)).value;
    if |rs| > 0 {
      FlattenSlices(source, rs, pages, |rs|);
      assert pages[..|rs|] == pages;
      assert source[..rs[|rs| - 1].1] == source;
    }
  }

  /** Pages served exactly all resolve, each to its slice of `source`. */
  lemma ServedPages<T>(getter: (nat, nat) -> seq<Attempt<T>>, rs: seq<(nat, nat)>, source: seq<T>)
    requires ServesExactly(getter, rs, source)
    ensures AllResolved(Outcomes(getter, rs)).Some?
    ensures var pages := AllResolved(Outcomes(getter, rs)).value;
            |pages| == |rs| &&
            forall i :: 0 <= i < |rs| ==> rs[i].0 <= rs[i].1 <= |source| && pages[i] == source[rs[i].0..rs[i].1]
  {
    var os := Outcomes(getter, rs);
    forall i | 0 <= i < |rs| ensures os[i] == Some(source[rs[i].0..rs[i].1]) {
      assert os[i] == PageOutcome(getter(rs[i].0, rs[i].1));
    }
    AllResolvedSpec(os);
  }

  lemma {:induction false} FlattenSlices<T>(source: seq<T>, rs: seq<(nat, nat)>, pages: seq<seq<T>>, k: nat)
    requires |pages| == |rs| && 0 < k <= |rs| && rs[0].0 == 0
    requires forall i :: 0 <= i < |rs| ==> rs[i].0 <= rs[i].1 <= |source| && pages[i] == source[rs[i].0..rs[i].1]
    requires forall i :: 0 <= i < |rs| - 1 ==> rs[i].1 == rs[i + 1].0
    ensures Flatten(pages[..k]) == source[..rs[k - 1].1]
  {
    assert pages[..k][..k - 1] == pages[..k - 1];
    if k == 1 {
      assert pages[..0] == [];
    } else {
      FlattenSlices(source, rs, pages, k - 1);
      assert source[..rs[k - 2].1] + source[rs[k - 1].0..rs[k - 1].1] == source[..rs[k - 1].1];
    }
  }

  // ------------------------------------------------------------- Promise.all

  /** `Promise.all`: each page's promise settles into its own slot, so the array it yields is
      in page order whatever order the pages complete in. `order` lists the page indices in
      completion order; every page completes. */
  method SettleInCompletionOrder<T>(results: seq<seq<T>>, order: seq<nat>) returns (settled: seq<seq<T>>)
    requires |order| == |results|
    requires forall j :: 0 <= j < |order| ==> order[j] < |results|
    requires forall i :: 0 <= i < |results| ==> i in order
    ensures settled == results
  {
    var slots := new seq<T>[|results|];
    var j := 0;
    while j < |order|
      invariant 0 <= j <= |order|
      invariant forall k :: 0 <= k < j ==> slots[order[k]] == results[order[k]]
    {
      slots[order[j]] := results[order[j]];
      j := j + 1;
    }
    forall i | 0 <= i < |results| ensures slots[i] == results[i] {
      assert i in order;
      var k :| 0 <= k < |order| && order[k] == i;
    }
    settled := slots[..];
  }
}
