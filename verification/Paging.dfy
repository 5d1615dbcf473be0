/** Reading a fixed listing page by page, by key or by offset. */
module Paging {
  import opened Common
  import opened Order
  import opened ActEngine
  import CacheHelper

  const MAX_HELPER_PAGE := 64
  const MAX_PAGE_SIZE := 1000
  const MAX_PAGE_BYTES := 1048576
  const MAX_OFFSET := 0x7fff_ffff_ffff_ffff

  // ------------------------------------------------------------------- by key

  predicate StrLt(a: string, b: string) {
    StrLe(a, b) && a != b
  }

  ghost predicate Ascending(s: seq<string>) {
    forall i, j :: 0 <= i < j < |s| ==> StrLt(s[i], s[j])
  }

  /** The pending nonces in `ORDER BY id` order. */
  ghost predicate PendingListing(s: CacheHelper.Helpers, list: seq<string>) {
    && Ascending(list)
    && (forall nonce :: nonce in list ==> nonce in s.rows && !s.rows[nonce].state.Removed?)
    && (forall nonce :: nonce in s.rows && !s.rows[nonce].state.Removed? ==> nonce in list)
  }

  datatype KeyPage = KeyPage(items: seq<string>, next: Option<string>)

  datatype PageProblem = BadLimit | BadCursor | BadOffset | TooLarge

  /** `WHERE id > ? ORDER BY id`. */
  function Beyond(list: seq<string>, after: string): seq<string> {
    if list == [] then [] else (if StrLt(after, list[0]) then [list[0]] else []) + Beyond(list[1..], after)
  }

  function Take<T>(s: seq<T>, n: nat): seq<T> {
    if |s| <= n then s else s[..n]
  }

  /** One more row than asked for is read, to learn whether there is a next page. */
  function PendingPage(list: seq<string>, after: Option<string>, limit: nat): Result<KeyPage, PageProblem> {
    if limit == 0 || limit > MAX_HELPER_PAGE then Err(BadLimit)
    else if after.Some? && !CanonicalRun(after.value) then Err(BadCursor)
    else Ok(PageOf(Take(Beyond(list, if after.Some? then after.value else ""), limit + 1), limit))
  }

  function PageOf(rows: seq<string>, limit: nat): KeyPage
    requires limit > 0
  {
    var items := Take(rows, limit);
    KeyPage(items, if |rows| > limit then Some(items[|items| - 1]) else None)
  }

  /** A page is refused exactly for a limit of none or more than 64, or for a cursor that is no nonce. */
  lemma {:induction false} PageRefused(list: seq<string>, after: Option<string>, limit: nat)
    ensures PendingPage(list, after, limit).Err? <==> limit == 0 || limit > 64 || (after.Some? && !CanonicalRun(after.value))
  {
  }

  lemma {:induction false} BeyondIsSuffix(list: seq<string>, k: nat)
    requires Ascending(list) && k < |list|
    ensures Beyond(list, list[k]) == list[k + 1..]
  {
    if k == 0 {
      BeyondAll(list[1..], list[0]);
      assert !StrLt(list[0], list[0]);
    } else {
      assert list[1..][k - 1] == list[k] && list[1..][k..] == list[k + 1..];
      assert Ascending(list[1..]);
      BeyondIsSuffix(list[1..], k - 1);
      StrLeConnected(list[0], list[k]);
      assert StrLt(list[0], list[k]);
    }
  }

  lemma {:induction false} BeyondAll(list: seq<string>, after: string)
    requires forall i :: 0 <= i < |list| ==> StrLt(after, list[i])
    ensures Beyond(list, after) == list
  {
    if list != [] {
      BeyondAll(list[1..], after);
    }
  }

  lemma {:induction false} EmptyIsLeast(s: string)
    requires s != ""
    ensures StrLt("", s)
  {
  }

  ghost predicate AllCanonical(list: seq<string>) {
    forall i :: 0 <= i < |list| ==> CanonicalRun(list[i])
  }

  /** The cursor that has read the first `k` of a listing. */
  function CursorAt(list: seq<string>, k: nat): Option<string>
    requires k <= |list|
  {
    if k == 0 then None else Some(list[k - 1])
  }

  lemma {:induction false} CursorReads(list: seq<string>, k: nat)
    requires Ascending(list) && AllCanonical(list) && k <= |list|
    ensures CursorAt(list, k).Some? ==> CanonicalRun(CursorAt(list, k).value)
    ensures Beyond(list, if CursorAt(list, k).Some? then CursorAt(list, k).value else "") == list[k..]
  {
    if k == 0 {
      forall i | 0 <= i < |list| ensures StrLt("", list[i]) {
        EmptyIsLeast(list[i]);
      }
      BeyondAll(list, "");
    } else {
      BeyondIsSuffix(list, k - 1);
    }
  }

  /** The next `n` elements from position `k`, or what is left. */
  function Slice<T>(s: seq<T>, k: nat, n: nat): seq<T>
    requires k <= |s|
  {
    if |s| - k <= n then s[k..] else s[k..k + n]
  }

  lemma {:induction false} SliceTaken<T>(s: seq<T>, k: nat, n: nat)
    requires k <= |s|
    ensures Take(Take(s[k..], n + 1), n) == Slice(s, k, n)
    ensures |Take(s[k..], n + 1)| > n <==> |s| - k > n
  {
  }

  lemma {:induction false} SliceExtends<T>(s: seq<T>, k: nat, n: nat)
    requires k <= |s|
    ensures s[..k] + Slice(s, k, n) == s[..k + |Slice(s, k, n)|]
  {
  }

  /** The page after the first `k` rows is the next slice of the listing. */
  lemma {:induction false} PageIsSlice(list: seq<string>, k: nat, limit: nat)
    requires Ascending(list) && AllCanonical(list) && k <= |list| && 1 <= limit <= MAX_HELPER_PAGE
    ensures PendingPage(list, CursorAt(list, k), limit) ==
            Ok(KeyPage(Slice(list, k, limit), if |list| - k <= limit then None else CursorAt(list, k + limit)))
  {
    CursorReads(list, k);
    PageOfSlice(list, k, limit);
  }

  lemma {:induction false} PageOfSlice(list: seq<string>, k: nat, limit: nat)
    requires k <= |list| && limit > 0
    ensures PageOf(Take(list[k..], limit + 1), limit) ==
            KeyPage(Slice(list, k, limit), if |list| - k <= limit then None else CursorAt(list, k + limit))
  {
    SliceTaken(list, k, limit);
  }

  method ReadPending(list: seq<string>, cursor: Option<string>, limit: nat, ghost done: nat) returns (page: KeyPage)
    requires Ascending(list) && AllCanonical(list) && done <= |list| && cursor == CursorAt(list, done) && 1 <= limit <= MAX_HELPER_PAGE
    ensures page == KeyPage(Slice(list, done, limit), if |list| - done <= limit then None else CursorAt(list, done + limit))
  {
    PageIsSlice(list, done, limit);
    page := PendingPage(list, cursor, limit).value;
  }

  /**
   * Following `next_nonce` from the start, under any allowed limit on each request, ends and reads
   * the whole listing once, in order.
   */
  method FollowPending(list: seq<string>, limits: nat -> nat) returns (all: seq<string>)
    requires Ascending(list) && AllCanonical(list) && forall k :: 1 <= limits(k) <= MAX_HELPER_PAGE
    ensures all == list
  {
    all := [];
    var cursor := None;
    var request: nat := 0;
    ghost var done: nat := 0;
    while true
      invariant done <= |list| && all == list[..done] && cursor == CursorAt(list, done)
      decreases |list| - done
    {
      var limit := limits(request);
      var page := ReadPending(list, cursor, limit, done);
      SliceExtends(list, done, limit);
      all := all + page.items;
      if page.next.None? {
        assert list[..|list|] == list;
        return;
      }
      cursor := page.next;
      done := done + limit;
      request := request + 1;
    }
  }

  // ---------------------------------------------------------------- by offset

  /** A row as the reader sees it: its bytes count against the page. */
  datatype Row<T> = Row(item: T, size: nat)

  datatype OffsetPage<T> = OffsetPage(items: seq<T>, next: Option<nat>)

  function Clamp(n: nat): (m: nat)
    ensures 1 <= m <= 1000
    ensures m == n || (n == 0 && m == 1) || (n > 1000 && m == 1000)
  {
    if n < 1 then 1 else if n > MAX_PAGE_SIZE then MAX_PAGE_SIZE else n
  }

  function Bytes<T>(rows: seq<Row<T>>): nat {
    if rows == [] then 0 else rows[0].size + Bytes(rows[1..])
  }

  function Items<T>(rows: seq<Row<T>>): (items: seq<T>)
    ensures |items| == |rows| && forall i :: 0 <= i < |rows| ==> items[i] == rows[i].item
  {
    seq(|rows|, i requires 0 <= i < |rows| => rows[i].item)
  }

  /** `LIMIT limit+1 OFFSET offset`. */
  function Window<T>(rows: seq<Row<T>>, offset: nat, limit: nat): seq<Row<T>> {
    if offset >= |rows| then [] else Take(rows[offset..], Clamp(limit) + 1)
  }

  function Page<T>(rows: seq<Row<T>>, offset: nat, limit: nat): Result<OffsetPage<T>, PageProblem> {
    if offset > MAX_OFFSET then Err(BadOffset)
    else
      var window := Window(rows, offset, limit);
      if Bytes(window) > MAX_PAGE_BYTES then Err(TooLarge)
      else Ok(OffsetPage(Items(Take(window, Clamp(limit))),
                         if |window| > Clamp(limit) then Some(offset + Clamp(limit)) else None))
  }

  lemma {:induction false} OffsetSlice<T>(rows: seq<Row<T>>, k: nat, limit: nat)
    requires k <= |rows| <= MAX_OFFSET && Page(rows, k, limit).Ok?
    ensures Page(rows, k, limit).value ==
            OffsetPage(Items(Slice(rows, k, Clamp(limit))), if |rows| - k <= Clamp(limit) then None else Some(k + Clamp(limit)))
  {
    SliceTaken(rows, k, Clamp(limit));
    assert Window(rows, k, limit) == Take(rows[k..], Clamp(limit) + 1);
  }

  lemma {:induction false} ItemsExtend<T>(rows: seq<Row<T>>, k: nat, n: nat)
    requires k <= |rows|
    ensures Items(rows[..k]) + Items(Slice(rows, k, n)) == Items(rows[..k + |Slice(rows, k, n)|])
  {
    SliceExtends(rows, k, n);
  }

  ghost predicate Oversize<T>(rows: seq<Row<T>>, offset: nat, limit: nat) {
    Bytes(Window(rows, offset, limit)) > 1048576
  }

  method ReadOffset<T>(rows: seq<Row<T>>, offset: nat, limit: nat) returns (page: Result<OffsetPage<T>, PageProblem>)
    requires offset <= |rows| <= MAX_OFFSET
    ensures page.Err? <==> Oversize(rows, offset, limit)
    ensures page.Err? ==> page.error == TooLarge
    ensures page.Ok? ==>
              page.value == OffsetPage(Items(Slice(rows, offset, Clamp(limit))),
                                       if |rows| - offset <= Clamp(limit) then None else Some(offset + Clamp(limit)))
  {
    page := Page(rows, offset, limit);
    if page.Ok? {
      OffsetSlice(rows, offset, limit);
    }
  }

  /** Where the `n`th page of a run starts. */
  function OffsetAt(limits: nat -> nat, n: nat): nat {
    if n == 0 then 0 else OffsetAt(limits, n - 1) + Clamp(limits(n - 1))
  }

  lemma {:induction false} OffsetsGrow(limits: nat -> nat, m: nat, n: nat)
    requires m <= n
    ensures OffsetAt(limits, m) <= OffsetAt(limits, n)
  {
    if m < n {
      OffsetsGrow(limits, m, n - 1);
    }
  }

  /** The run comes to this page unless an earlier one fails: the page before it did not reach the end. */
  ghost predicate Requested<T>(rows: seq<Row<T>>, limits: nat -> nat, n: nat) {
    n == 0 || OffsetAt(limits, n) < |rows|
  }

  ghost predicate TooBig<T>(rows: seq<Row<T>>, limits: nat -> nat, n: nat) {
    Oversize(rows, OffsetAt(limits, n), limits(n))
  }

  lemma {:induction false} OffsetNext(limits: nat -> nat, n: nat)
    ensures OffsetAt(limits, n + 1) == OffsetAt(limits, n) + Clamp(limits(n))
  {
  }

  lemma {:induction false} LastPage<T>(rows: seq<Row<T>>, limits: nat -> nat, last: nat)
    requires OffsetAt(limits, last + 1) >= |rows|
    ensures forall n: nat :: Requested(rows, limits, n) ==> n <= last
  {
    forall n: nat | Requested(rows, limits, n) ensures n <= last {
      if n > last {
        OffsetsGrow(limits, last + 1, n);
      }
    }
  }

  /**
   * Following `next_offset` from zero ends and reads the whole table once, in order, whatever the
   * requested limits, exactly when no page of that run is over its byte limit; otherwise it stops at
   * the first that is.
   */
  method FollowOffsets<T>(rows: seq<Row<T>>, limits: nat -> nat) returns (r: Result<seq<T>, PageProblem>)
    requires |rows| <= MAX_OFFSET
    ensures r.Ok? ==> r.value == Items(rows) && forall n: nat :: Requested(rows, limits, n) ==> !TooBig(rows, limits, n)
    ensures r.Err? ==>
              && r.error == TooLarge
              && exists n: nat :: Requested(rows, limits, n) && TooBig(rows, limits, n) && forall m: nat :: m < n ==> !TooBig(rows, limits, m)
  {
    var all: seq<T> := [];
    var offset: nat := 0;
    var request: nat := 0;
    while true
      invariant offset <= |rows| && all == Items(rows[..offset])
      invariant offset == OffsetAt(limits, request) && Requested(rows, limits, request)
      invariant forall m: nat :: m < request ==> !TooBig(rows, limits, m)
      decreases |rows| - offset
    {
      var page := ReadOffset(rows, offset, limits(request));
      assert TooBig(rows, limits, request) <==> page.Err?;
      if page.Err? {
        return Err(page.error);
      }
      ItemsExtend(rows, offset, Clamp(limits(request)));
      all := all + page.value.items;
      OffsetNext(limits, request);
      if page.value.next.None? {
        assert rows[..|rows|] == rows;
        LastPage(rows, limits, request);
        return Ok(all);
      }
      offset := page.value.next.value;
      request := request + 1;
    }
  }

  /** Each pending helper is listed exactly once. */
  lemma {:induction false} ListedOnce(s: CacheHelper.Helpers, list: seq<string>, nonce: string)
    requires PendingListing(s, list)
    ensures multiset(list)[nonce] == if nonce in s.rows && !s.rows[nonce].state.Removed? then 1 else 0
  {
    forall i, j | 0 <= i < j < |list| ensures list[i] != list[j] {
      assert StrLt(list[i], list[j]);
    }
    NoDupMultiset(list);
  }
}
