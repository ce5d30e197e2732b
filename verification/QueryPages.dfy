/** Pages of a navigation query: `buildPage` of navigation-query-store.ts, and what a viewer
  * reads by following its cursors. */
module QueryPages {
  import opened Prelude

  const MAX_PAGE_ROWS := 100
  const MAX_RESULT_BYTES := 252 * 1024

  datatype Cursor = Cursor(generation: string, offset: nat, query: string, scope: string)

  /** The projected collection; `rows` is whichever of its three lists the query fills. */
  datatype Materialization<T> = Materialization(rows: seq<T>, query: string, revision: string, bytes: nat)

  datatype Generation<T> =
    Generation(id: string, scope: string, view: Option<string>, content: Materialization<T>, lastAccess: int)

  datatype Range = Range(start: nat, count: nat)

  datatype Page<T> =
    Page(generation: string, start: nat, rows: seq<T>, next: Option<Cursor>, complete: bool,
         same: bool, range: Option<Range>)

  datatype Error = Busy | CursorExpired | AnchorMissing | InvalidRequest | RowTooLarge | ResponseTooLarge | LoadFailed

  datatype Answer<T> = Served(page: Page<T>) | Refused(error: Error)

  /** The serialized size of a page on top of its generation's shared fields. */
  type Measure<!T> = (Materialization<T>, Page<T>) -> nat

  /** All the size argument relies on: `true` is no longer than `false`. */
  ghost predicate Serializes<T(!new)>(measure: Measure<T>) {
    forall c, p: Page<T> :: measure(c, p.(complete := true)) <= measure(c, p.(complete := false))
  }

  function CursorAt<T>(g: Generation<T>, offset: nat): Cursor {
    Cursor(g.id, offset, g.content.query, g.scope)
  }

  /** The page as it is measured while `n` rows are in it. */
  function Draft<T>(g: Generation<T>, offset: nat, n: nat): Page<T>
    requires offset + n <= |g.content.rows|
  {
    Page(g.id, offset, g.content.rows[offset..offset + n],
         if offset + n < |g.content.rows| then Some(CursorAt(g, offset + n)) else None, false, false, None)
  }

  predicate Fits<T>(measure: Measure<T>, g: Generation<T>, p: Page<T>) {
    measure(g.content, p) <= MAX_RESULT_BYTES
  }

  /** Rows taken greedily, when `n` are in already. */
  function Taken<T>(measure: Measure<T>, g: Generation<T>, offset: nat, pageSize: nat, n: nat): (k: nat)
    requires offset + n <= |g.content.rows|
    ensures n <= k && offset + k <= |g.content.rows|
    decreases |g.content.rows| - n
  {
    if offset + n < |g.content.rows| && n < pageSize && Fits(measure, g, Draft(g, offset, n + 1)) then
      Taken(measure, g, offset, pageSize, n + 1)
    else n
  }

  function Closed<T>(g: Generation<T>, offset: nat, n: nat): Page<T>
    requires offset + n <= |g.content.rows|
  {
    Draft(g, offset, n).(complete := offset + n >= |g.content.rows|)
  }

  function PageOf<T>(measure: Measure<T>, g: Generation<T>, offset: nat, pageSize: nat): Answer<T> {
    if offset > |g.content.rows| then Refused(InvalidRequest)
    else
      var n := Taken(measure, g, offset, pageSize, 0);
      if n == 0 && offset < |g.content.rows| && pageSize > 0 then Refused(RowTooLarge)
      else if !Fits(measure, g, Closed(g, offset, n)) then Refused(ResponseTooLarge)
      else Served(Closed(g, offset, n))
  }

  /** The loop of `buildPage`: rows go in one by one, each measured with the cursor behind it. */
  method BuildPage<T>(measure: Measure<T>, g: Generation<T>, offset: nat, pageSize: nat) returns (answer: Answer<T>)
    ensures answer == PageOf(measure, g, offset, pageSize)
  {
    var rows := g.content.rows;
    if offset > |rows| {
      return Refused(InvalidRequest);
    }
    var page := Page(g.id, offset, [], None, false, false, None);
    var nextOffset := offset;
    while nextOffset < |rows| && nextOffset - offset < pageSize
      invariant offset <= nextOffset <= |rows| && nextOffset - offset <= pageSize
      invariant page == Draft(g, offset, nextOffset - offset).(next := None)
      invariant Taken(measure, g, offset, pageSize, 0) == Taken(measure, g, offset, pageSize, nextOffset - offset)
    {
      var candidate := page.(rows := page.rows + [rows[nextOffset]]);
      if nextOffset + 1 < |rows| {
        candidate := candidate.(next := Some(CursorAt(g, nextOffset + 1)));
      }
      assert candidate == Draft(g, offset, nextOffset + 1 - offset);
      if measure(g.content, candidate) > MAX_RESULT_BYTES {
        if nextOffset == offset {
          return Refused(RowTooLarge);
        }
        break;
      }
      page := page.(rows := page.rows + [rows[nextOffset]]);
      nextOffset := nextOffset + 1;
    }
    page := page.(complete := nextOffset >= |rows|);
    if !page.complete {
      page := page.(next := Some(CursorAt(g, nextOffset)));
    }
    if measure(g.content, page) > MAX_RESULT_BYTES {
      return Refused(ResponseTooLarge);
    }
    answer := Served(page);
  }

  // ---- one page ----

  lemma {:induction false} TakenFits<T(!new)>(measure: Measure<T>, g: Generation<T>, offset: nat, pageSize: nat, n: nat)
    requires offset + n <= |g.content.rows| && n <= pageSize
    requires n > 0 ==> Fits(measure, g, Draft(g, offset, n))
    ensures var k := Taken(measure, g, offset, pageSize, n);
      && k <= pageSize && (k > 0 ==> Fits(measure, g, Draft(g, offset, k)))
      && (k == pageSize || offset + k == |g.content.rows| || !Fits(measure, g, Draft(g, offset, k + 1)))
    decreases |g.content.rows| - n
  {
    if offset + n < |g.content.rows| && n < pageSize && Fits(measure, g, Draft(g, offset, n + 1)) {
      TakenFits(measure, g, offset, pageSize, n + 1);
    }
  }

  /** A served page is a run of the collection's rows within both limits, it stops early only
    * where the next row does not fit, and it is complete exactly when it reaches the end. */
  lemma ServedPage<T(!new)>(measure: Measure<T>, g: Generation<T>, offset: nat, pageSize: nat)
    requires PageOf(measure, g, offset, pageSize).Served?
    ensures var p := PageOf(measure, g, offset, pageSize).page;
      && offset + |p.rows| <= |g.content.rows| && p.rows == g.content.rows[offset..offset + |p.rows|]
      && |p.rows| <= pageSize && Fits(measure, g, p) && p.start == offset
      && (p.complete <==> offset + |p.rows| == |g.content.rows|)
      && p.next == (if p.complete then None else Some(CursorAt(g, offset + |p.rows|)))
      && (!p.complete && |p.rows| < pageSize ==> !Fits(measure, g, Draft(g, offset, |p.rows| + 1)))
      && (!p.complete && pageSize > 0 ==> |p.rows| > 0)
  {
    TakenFits(measure, g, offset, pageSize, 0);
  }

  /** A page with rows never fails its closing assertion: that page was measured already, with a
    * `complete` that is no shorter. */
  lemma ClosingAssertionHolds<T(!new)>(measure: Measure<T>, g: Generation<T>, offset: nat, pageSize: nat)
    requires Serializes(measure)
    ensures PageOf(measure, g, offset, pageSize) == Refused(ResponseTooLarge) <==>
      (&& offset <= |g.content.rows| && (offset == |g.content.rows| || pageSize == 0)
       && !Fits(measure, g, Closed(g, offset, 0)))
    ensures PageOf(measure, g, offset, pageSize) == Refused(RowTooLarge) <==>
      offset < |g.content.rows| && pageSize > 0 && !Fits(measure, g, Draft(g, offset, 1))
    ensures PageOf(measure, g, offset, pageSize) == Refused(InvalidRequest) <==> offset > |g.content.rows|
  {
    if offset <= |g.content.rows| {
      TakenFits(measure, g, offset, pageSize, 0);
      var n := Taken(measure, g, offset, pageSize, 0);
      assert Draft(g, offset, n).(complete := false) == Draft(g, offset, n);
    }
  }

  // ---- following cursors ----

  function Rows<T>(pages: seq<Page<T>>): seq<T> {
    if pages == [] then [] else Rows(pages[..|pages| - 1]) + pages[|pages| - 1].rows
  }

  /** Where the read after `pages` continues. */
  function Resume<T>(from: nat, pages: seq<Page<T>>): Option<nat> {
    if pages == [] then Some(from)
    else
      match pages[|pages| - 1].next
      case None => None
      case Some(cursor) => Some(cursor.offset)
  }

  /** Pages served one after the other, each at the cursor of the one before, with any sizes. */
  ghost predicate Walk<T>(measure: Measure<T>, g: Generation<T>, from: nat, pages: seq<Page<T>>, sizes: seq<nat>) {
    && |pages| == |sizes|
    && (pages != [] ==>
          var last := |pages| - 1;
          && Walk(measure, g, from, pages[..last], sizes[..last])
          && sizes[last] > 0
          && Resume(from, pages[..last]).Some?
          && PageOf(measure, g, Resume(from, pages[..last]).value, sizes[last]) == Served(pages[last]))
  }

  /** Every row exactly once and in order: the pages read so far are the collection up to the
    * cursor, and all of it when there is none. */
  lemma {:induction false} WalkReadsOnce<T(!new)>(measure: Measure<T>, g: Generation<T>, from: nat,
                                                  pages: seq<Page<T>>, sizes: seq<nat>)
    requires Walk(measure, g, from, pages, sizes) && from <= |g.content.rows|
    ensures from + |Rows(pages)| <= |g.content.rows|
    ensures Rows(pages) == g.content.rows[from..from + |Rows(pages)|]
    ensures Resume(from, pages) == None ==> Rows(pages) == g.content.rows[from..]
    ensures Resume(from, pages).Some? ==> Resume(from, pages).value == from + |Rows(pages)|
    ensures Resume(from, pages).Some? ==> |Rows(pages)| >= |pages|
    decreases |pages|
  {
    if pages != [] {
      hide PageOf;
      var last := |pages| - 1;
      WalkReadsOnce(measure, g, from, pages[..last], sizes[..last]);
      ServedPage(measure, g, Resume(from, pages[..last]).value, sizes[last]);
      hide Walk, Fits;
    }
  }

  /** Where a walk can go on, rows are left. */
  lemma LastIncomplete<T(!new)>(measure: Measure<T>, g: Generation<T>, from: nat, pages: seq<Page<T>>, sizes: seq<nat>)
    requires Walk(measure, g, from, pages, sizes) && from < |g.content.rows| && Resume(from, pages).Some?
    ensures from + |Rows(pages)| < |g.content.rows|
  {
    WalkReadsOnce(measure, g, from, pages, sizes);
    if pages != [] {
      var last := |pages| - 1;
      WalkReadsOnce(measure, g, from, pages[..last], sizes[..last]);
      ServedPage(measure, g, Resume(from, pages[..last]).value, sizes[last]);
      hide PageOf;
    }
  }

  /** The read after a walk fails exactly at a row whose own page is over the budget, and otherwise
    * it serves at least one more row: every walk ends within one read per row. */
  lemma WalkProceeds<T(!new)>(measure: Measure<T>, g: Generation<T>, from: nat, pages: seq<Page<T>>, sizes: seq<nat>,
                              size: nat)
    requires Serializes(measure) && size > 0
    requires Walk(measure, g, from, pages, sizes) && from < |g.content.rows| && Resume(from, pages).Some?
    ensures var offset := from + |Rows(pages)|;
      && offset < |g.content.rows|
      && (if Fits(measure, g, Draft(g, offset, 1)) then PageOf(measure, g, offset, size).Served?
          else PageOf(measure, g, offset, size) == Refused(RowTooLarge))
    ensures |pages| < |g.content.rows| - from
  {
    WalkReadsOnce(measure, g, from, pages, sizes);
    LastIncomplete(measure, g, from, pages, sizes);
    ClosingAssertionHolds(measure, g, from + |Rows(pages)|, size);
    hide Walk, Taken;
  }
}
