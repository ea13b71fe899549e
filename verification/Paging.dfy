/** The page layout of a request's full locations. */
module Paging {

  /** Position `p` lies in a page whose positions occupy one contiguous, page-aligned run. */
  ghost predicate PagedAt(page: nat, locs: seq<int>, p: nat)
    requires page > 0 && p < |locs|
  {
    var start := p - p % page;
    locs[start] >= 0 && locs[start] % page == 0 && locs[p] == locs[start] + p % page
  }

  /** The page layout of the first `len` full locations of a request. */
  ghost predicate Paged(page: nat, locs: seq<int>, len: nat)
    requires page > 0
  {
    len <= |locs| && forall p :: 0 <= p < len ==> PagedAt(page, locs, p)
  }
}
