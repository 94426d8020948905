/** Offset pagination as both listing handlers do it: the page of results is
    `find(filter).skip((page - 1) * limit).limit(limit)` and the page count is
    `Math.ceil(total / limit)`, where `total` is the number of matching
    documents. The collaborator's full, ordered match sequence stands for
    the database here, so `total` is its length. */
module Pagination {

  function Min(a: nat, b: nat): nat {
    if a <= b then a else b
  }

  /** `Math.ceil(total / size)` on integers: the least page count whose pages
      hold `total` items, so no page is left empty and none is missing. */
  function CeilDiv(total: nat, size: nat): (pages: nat)
    requires size >= 1
    ensures pages * size >= total
    ensures pages > 0 ==> (pages - 1) * size < total
    ensures pages == 0 <==> total == 0
  {
    var q := (total + size - 1) / size;
    var m := (total + size - 1) % size;
    assert q * size + m == total + size - 1;
    assert (q - 1) * size == q * size - size;
    q
  }

  /** `.skip(skip).limit(size)` on an ordered sequence: at most `size` items,
      taken contiguously from position `skip`, and as many as there are. */
  function Window<T>(items: seq<T>, skip: nat, size: nat): (r: seq<T>)
    ensures |r| <= size
    ensures Min(skip, |items|) + |r| <= |items|
    ensures r == items[Min(skip, |items|)..Min(skip, |items|) + |r|]
    ensures |r| < size ==> skip + |r| >= |items|
  {
    items[Min(skip, |items|)..Min(skip + size, |items|)]
  }

  /** The `pagination` object of a listing response. */
  datatype PageInfo = PageInfo(total: nat, page: nat, limit: nat, pages: nat)

  /** A listing response: the page of data and its pagination. */
  datatype Listing<T> = Listing(data: seq<T>, pagination: PageInfo)

  /** One page of the matches, with the page number and size already
      validated (`page >= 1`, `limit >= 1`). */
  function Paginate<T>(matches: seq<T>, page: nat, limit: nat): (r: Listing<T>)
    requires page >= 1 && limit >= 1
    ensures r.pagination.total == |matches| && r.pagination.page == page && r.pagination.limit == limit
    ensures r.pagination.pages * limit >= |matches|
    ensures r.pagination.pages > 0 ==> (r.pagination.pages - 1) * limit < |matches|
    ensures |r.data| <= limit
    ensures var skip := (page - 1) * limit;
            forall i :: 0 <= i < |r.data| ==> skip + i < |matches| && r.data[i] == matches[skip + i]
    ensures |r.data| < limit ==> (page - 1) * limit + |r.data| >= |matches|
  {
    Listing(Window(matches, (page - 1) * limit, limit),
            PageInfo(|matches|, page, limit, CeilDiv(|matches|, limit)))
  }

  lemma MulMonotone(a: nat, b: nat, c: nat)
    requires a <= b
    ensures a * c <= b * c
  {
  }

  /** A page holds data exactly when its number is within the page count
      reported beside it. */
  lemma {:induction false} PageNonEmptyIffWithinPages<T>(matches: seq<T>, page: nat, limit: nat)
    requires page >= 1 && limit >= 1
    ensures var r := Paginate(matches, page, limit);
            |r.data| > 0 <==> page <= r.pagination.pages
  {
    var n := |matches|;
    var pages := CeilDiv(n, limit);
    var skip := (page - 1) * limit;
    if page <= pages {
      MulMonotone(page - 1, pages - 1, limit);
      assert skip < n;
    } else {
      MulMonotone(pages, page - 1, limit);
      assert skip >= n;
    }
  }

  lemma MulSucc(a: nat, b: nat)
    ensures (a + 1) * b == a * b + b
  {
  }

  /** The last page reported is never empty and ends with the last match. */
  lemma {:induction false} LastPageEndsWithLastMatch<T>(matches: seq<T>, limit: nat)
    requires |matches| > 0 && limit >= 1
    ensures var r := Paginate(matches, CeilDiv(|matches|, limit), limit);
            |r.data| > 0 && r.data[|r.data| - 1] == matches[|matches| - 1]
  {
    var n := |matches|;
    var pages := CeilDiv(n, limit);
    var skip := (pages - 1) * limit;
    MulSucc(pages - 1, limit);
    assert skip < n && skip + limit >= n;
    var data := Window(matches, skip, limit);
    assert data == matches[skip..n];
  }

  /** The concatenation of pages 1 to `k`. */
  function FirstPages<T>(matches: seq<T>, limit: nat, k: nat): seq<T>
    requires limit >= 1
  {
    if k == 0 then [] else FirstPages(matches, limit, k - 1) + Window(matches, (k - 1) * limit, limit)
  }

  lemma {:induction false} FirstPagesArePrefix<T>(matches: seq<T>, limit: nat, k: nat)
    requires limit >= 1
    ensures FirstPages(matches, limit, k) == matches[..Min(k * limit, |matches|)]
  {
    if k > 0 {
      FirstPagesArePrefix(matches, limit, k - 1);
      var n := |matches|;
      var skip := (k - 1) * limit;
      MulSucc(k - 1, limit);
      assert skip + limit == k * limit;
      var lo, hi := Min(skip, n), Min(skip + limit, n);
      var prev := FirstPages(matches, limit, k - 1);
      assert prev == matches[..lo];
      assert FirstPages(matches, limit, k) == prev + Window(matches, skip, limit);
      assert Window(matches, skip, limit) == matches[lo..hi];
      assert matches[..lo] + matches[lo..hi] == matches[..hi];
    }
  }

  /** Walking pages 1 to `pages` returns every match once, in order: nothing
      is skipped and nothing is repeated. */
  lemma {:induction false} PagesCoverAllMatches<T>(matches: seq<T>, limit: nat)
    requires limit >= 1
    ensures FirstPages(matches, limit, CeilDiv(|matches|, limit)) == matches
  {
    FirstPagesArePrefix(matches, limit, CeilDiv(|matches|, limit));
    assert matches[..|matches|] == matches;
  }
}
