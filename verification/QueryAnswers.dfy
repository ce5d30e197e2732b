/** What a read is answered with, and what the store keeps of it, from the request, the index that was
  * loaded and the generations that are retained. */
module QueryAnswers {
  import opened Prelude
  import opened QueryPages
  import opened QueryStore
  import opened QueryEviction
  import opened QuerySafety
  import opened QueryResults

  // ---- a read whose index has loaded ----

  /** The generation the page names stands for the index that was just loaded: it was minted from it, or
    * it was minted before from one with the same revision. */
  ghost predicate OfLoaded<T>(w: World<T>, m: Materialization<T>, id: string, p: Page<T>) {
    && p.generation in w.minted && w.minted[p.generation].content.revision == m.revision
    && (p.generation == id ==> w.minted[id].content == m)
  }

  /** The viewer holds a range of this very revision, from this very owner. */
  predicate Held<T>(cfg: Setup<T>, r: Request<T>, revision: string) {
    r.range.Some? && r.range.value.revision == revision && r.range.value.ownerEpoch == cfg.ownerEpoch
  }

  /** Where the page starts: at the end of a range the viewer holds already, at the first row the anchor
    * matches, or at the first row. */
  ghost predicate StartsWhere<T>(cfg: Setup<T>, r: Request<T>, rows: seq<T>, revision: string, p: Page<T>) {
    if Held(cfg, r, revision) then
      && p.range.Some? && p.range.value.start == p.start == r.range.value.start
      && p.range.value.count == r.range.value.count
      && p.rows == [] && r.range.value.start + r.range.value.count <= |rows|
    else
      && p.range.None?
      && (r.anchor.None? ==> p.start == 0)
      && (r.anchor.Some? ==>
            p.start < |rows| && r.anchor.value(rows[p.start]) && forall i :: 0 <= i < p.start ==>
              !r.anchor.value(rows[i]))
  }

  lemma {:induction false} FirstMatch<T>(rows: seq<T>, matches: T -> bool, from: nat)
    requires from <= |rows|
    ensures var found := FindIndex(rows, matches, from);
      && (found.None? <==> forall i :: from <= i < |rows| ==> !matches(rows[i]))
      && (found.Some? ==> from <= found.value < |rows| && matches(rows[found.value])
                          && forall i :: from <= i < found.value ==> !matches(rows[i]))
    decreases |rows| - from
  {
    if from < |rows| && !matches(rows[from]) {
      FirstMatch(rows, matches, from + 1);
    }
  }

  /** A page holds as many rows as were asked for, unless they end or the next one does not fit. */
  ghost predicate Filled<T>(cfg: Setup<T>, g: Generation<T>, p: Page<T>, size: nat) {
    && |p.rows| <= size
    && (p.complete <==> p.start + |p.rows| >= |g.content.rows|)
    && (|p.rows| < size && p.start + |p.rows| < |g.content.rows| ==>
          cfg.measure(g.content, Draft(g, p.start, |p.rows| + 1)) > 252 * 1024)
  }

  lemma LoadedStarts<T(!new)>(cfg: Setup<T>, r: Request<T>, g: Generation<T>)
    requires ValidRequest(r) && LoadedPage(cfg, r, g).0.Served?
    ensures var p := LoadedPage(cfg, r, g).0.page;
      && p.generation == g.id && (p.same <==> r.baseline == Some(g.content.revision))
      && (p.same ==> p.rows == [] && p.complete && p.next.None? && p.range.None?)
      && (!p.same ==>
            && StartsWhere(cfg, r, g.content.rows, g.content.revision, p)
            && (p.range.None? ==> Filled(cfg, g, p, if r.pageSize.Some? then r.pageSize.value else 100)))
  {
    FirstMatch(g.content.rows, if r.anchor.Some? then r.anchor.value else (_ => true), 0);
    if r.baseline == Some(g.content.revision) {
    } else if RangeMatches(cfg, r, g) {
      ServedPage(cfg.measure, g, r.range.value.start + r.range.value.count, 0);
      hide PageOf;
    } else {
      ServedPage(cfg.measure, g, Offset(r, g).value, PageSize(r));
      hide PageOf;
    }
  }

  lemma ChosenIsLoaded<T>(w: World<T>, p: Pending<T>, m: Materialization<T>, id: string)
    requires Inv(w) && id !in w.minted
    ensures var g := Chosen(w.store, p, m, id);
      && g.content.revision == m.revision && (g.id == id ==> g.content == m)
      && (g.id != id ==>
            && (p.request.scope, p.request.query) in w.store.current
            && w.store.current[(p.request.scope, p.request.query)] == g.id && g in w.store.generations)
  {
    var key := (p.request.scope, p.request.query);
    if key in w.store.current {
      LookupFacts(w.store.generations, w.store.current[key]);
      var found := Lookup(w.store.generations, w.store.current[key]);
      if found.Some? {
        assert Kept(w.store, w.minted, found.value);
      }
    }
  }

  /** A served read shows the index it loaded: its page names a generation of that very revision, says
    * "same" exactly when the viewer has that revision already, and otherwise starts where the request
    * asks for. */
  lemma ReadShowsLoaded<T(!new)>(cfg: Setup<T>, w: World<T>, read: nat, load: Load<T>, id: string)
    requires Inv(w) && Enabled(w, Complete(read, load, id))
    requires AfterComplete(cfg, w, read, load, id).1.value.Served?
    ensures load.Index? && load.projection.Some?
    ensures var (after, answer) := AfterComplete(cfg, w, read, load, id);
      var p, r, m := answer.value.page, w.inFlight[read].request, load.projection.value;
      && OfLoaded(after, m, id, p) && (p.same <==> r.baseline == Some(m.revision))
      && (p.same ==> p.rows == [] && p.complete && p.next.None? && p.range.None?)
      && (!p.same ==> StartsWhere(cfg, r, after.minted[p.generation].content.rows, m.revision, p))
      && (!p.same && p.range.None? ==>
            Filled(cfg, after.minted[p.generation], p, if r.pageSize.Some? then r.pageSize.value else 100))
      && (p.next.Some? ==>
            (r.scope, r.query) in after.store.current && after.store.current[(r.scope, r.query)] == p.generation)
  {
    var pending := w.inFlight[read];
    var m := load.projection.value;
    ChosenIsLoaded(w, pending, m, id);
    ChosenFacts(w, pending, m, id);
    hide Chosen, Inv;
    var g := Chosen(w.store, pending, m, id);
    LoadedStarts(cfg, pending.request, g);
    var minted := Minted(w, pending, load, id)[g.id];
    assert g == minted.(lastAccess := g.lastAccess) by { assert Kept(w.store, Minted(w, pending, load, id), g); }
    assert forall p, size: nat :: Filled(cfg, g, p, size) ==> Filled(cfg, minted, p, size);
    Unminted(w, id);
    var (answer, accessed) := LoadedPage(cfg, pending.request, g);
    if answer.page.next.Some? {
      assert g in w.store.generations || g.id !in Ids(w.store.generations);
      CurrentAfter(w, pending, g, answer, accessed);
    }
    hide LoadedPage, Settle, StartsWhere, Kept, Filled;
  }

  lemma CurrentAfter<T>(w: World<T>, p: Pending<T>, g: Generation<T>, answer: Answer<T>, accessed: bool)
    requires g.id in Ids(w.store.generations) ==>
      && (p.request.scope, p.request.query) in w.store.current
      && w.store.current[(p.request.scope, p.request.query)] == g.id
    requires answer.Served? && answer.page.next.Some?
    ensures var key, current := (p.request.scope, p.request.query), Settle(w.store, p, g, answer, accessed).current;
      key in current && current[key] == g.id
  {
    hide Retain;
  }

  lemma Unminted<T>(w: World<T>, id: string)
    requires Inv(w) && id !in w.minted
    ensures id !in Ids(w.store.generations)
  {
    forall i | 0 <= i < |w.store.generations| ensures w.store.generations[i].id in w.minted {
      assert Kept(w.store, w.minted, w.store.generations[i]);
    }
  }

  /** The same at any moment of any run. */
  lemma RunShowsLoaded<T(!new)>(cfg: Setup<T>, run: Run<T>, i: nat, p: Page<T>)
    requires IsRun(cfg, run) && i < |run.events| && run.events[i].Complete? && run.answers[i] == Some(Served(p))
    ensures var e := run.events[i];
      && e.load.Index? && e.load.projection.Some? && e.read in run.worlds[i].inFlight
      && var r, m := run.worlds[i].inFlight[e.read].request, e.load.projection.value;
      && OfLoaded(run.worlds[i + 1], m, e.id, p) && (p.same <==> r.baseline == Some(m.revision))
      && (!p.same ==> StartsWhere(cfg, r, run.worlds[i + 1].minted[p.generation].content.rows, m.revision, p))
  {
    RunKept(cfg, run, i);
    assert StepAt(cfg, run, i);
    ReadShowsLoaded(cfg, run.worlds[i], run.events[i].read, run.events[i].load, run.events[i].id);
    hide Inv, StartsWhere;
  }

  // ---- when a loaded read is refused ----

  /** Exactly the refusals of a loaded read that are not about its page. */
  lemma LoadedRefusals<T(!new)>(cfg: Setup<T>, w: World<T>, read: nat, load: Load<T>, id: string)
    requires Enabled(w, Complete(read, load, id))
    ensures var p, answer := w.inFlight[read], AfterComplete(cfg, w, read, load, id).1.value;
      var closed := p.lifetime.Some? && p.lifetime.value in w.store.closedAt;
      && (load.Rejected? ==> answer == Refused(LoadFailed))
      && (load.Index? && closed ==> answer == Refused(InvalidRequest))
      && (load.Index? && !closed && load.projection.None? ==> answer == Refused(LoadFailed))
      && (load.Index? && !closed && load.projection.Some? && load.projection.value.bytes > 32 * 1024 * 1024 ==>
            answer == Refused(Busy))
      && (answer.Refused? ==> AfterComplete(cfg, w, read, load, id).0.store.current == w.store.current)
      && (load.Index? && !closed && load.projection.Some? && load.projection.value.bytes <= 32 * 1024 * 1024 ==>
            answer == LoadedPage(cfg, p.request, Chosen(w.store, p, load.projection.value, id)).0)
  {
    hide LoadedPage, Retain;
  }

  /** And those that are: an anchor no row matches, or a range that is not all there. */
  lemma PageRefusals<T(!new)>(cfg: Setup<T>, r: Request<T>, g: Generation<T>)
    requires ValidRequest(r) && r.baseline != Some(g.content.revision)
    ensures var answer := LoadedPage(cfg, r, g).0;
      var held := Held(cfg, r, g.content.revision);
      && (answer == Refused(AnchorMissing) <==>
            !held && r.anchor.Some? && forall i :: 0 <= i < |g.content.rows| ==> !r.anchor.value(g.content.rows[i]))
      && (answer == Refused(InvalidRequest) <==> held && r.range.value.start + r.range.value.count > |g.content.rows|)
  {
    FirstMatch(g.content.rows, if r.anchor.Some? then r.anchor.value else (_ => true), 0);
    hide Taken;
  }

  /** The page without rows that a viewer with the same revision gets, or with the rows of a range. */
  function Bare<T>(g: Generation<T>, start: nat, end: nat, range: Option<Range>): Page<T>
    requires end <= |g.content.rows|
  {
    Page(g.id, start, [], if end < |g.content.rows| then Some(Cursor(g.id, end, g.content.query, g.scope)) else None,
         end == |g.content.rows|, false, range)
  }

  /** A viewer that has the revision is told so, as long as the page that says it is within the limit. */
  lemma ConfirmsRevision<T(!new)>(cfg: Setup<T>, r: Request<T>, g: Generation<T>)
    requires ValidRequest(r) && r.baseline == Some(g.content.revision)
    ensures var same := Page(g.id, 0, [], None, true, true, None);
      LoadedPage(cfg, r, g).0 ==
        if cfg.measure(g.content, same) <= 252 * 1024 then Served(same) else Refused(ResponseTooLarge)
  {
    hide PageOf;
  }

  /** A viewer that holds a range of the revision has the range confirmed, with a cursor behind it, as long
    * as the page without rows is within the limit. */
  lemma ConfirmsRange<T(!new)>(cfg: Setup<T>, r: Request<T>, g: Generation<T>)
    requires ValidRequest(r) && Held(cfg, r, g.content.revision)
    requires r.range.value.start + r.range.value.count <= |g.content.rows|
    ensures var start, count := r.range.value.start, r.range.value.count;
      var page := Bare(g, start, start + count, Some(Range(start, count)));
      LoadedPage(cfg, r, g).0 ==
        if (cfg.measure(g.content, Bare(g, start + count, start + count, None)) <= 252 * 1024
            && cfg.measure(g.content, page) <= 252 * 1024)
        then Served(page) else Refused(ResponseTooLarge)
  {
    var start, count := r.range.value.start, r.range.value.count;
    EmptyPage(cfg.measure, g, start + count);
    assert LoadedPage(cfg, r, g).0 == RangePage(cfg.measure, g, r.range.value);
    hide PageOf, LoadedPage;
  }

  lemma EmptyPage<T(!new)>(measure: Measure<T>, g: Generation<T>, offset: nat)
    requires offset <= |g.content.rows|
    ensures PageOf(measure, g, offset, 0) ==
      if measure(g.content, Bare(g, offset, offset, None)) <= 252 * 1024 then Served(Bare(g, offset, offset, None))
      else Refused(ResponseTooLarge)
  {
    assert Taken(measure, g, offset, 0, 0) == 0;
    assert g.content.rows[offset..offset] == [];
    assert Closed(g, offset, 0) == Bare(g, offset, offset, None);
  }

  // ---- the first segment of a read ----

  /** A read of a view that is not known yet is admitted as long as there are fewer than 256 lifetimes, and
    * within their byte budget; it opens a lifetime of its own. */
  lemma AdmitsViews<T>(cfg: Setup<T>, s: State<T>, r: Request<T>, token: nat)
    ensures var known := r.view.None? || (r.scope, r.view.value) in s.lifetimes;
      Admit(cfg, s, r, token) ==
        if known then Some(s)
        else if (|s.lifetimes| < 256 && cfg.lifetimeBytes(s.lifetimes.Keys + {(r.scope, r.view.value)}) <= 256 * 1024)
        then Some(s.(lifetimes := s.lifetimes[(r.scope, r.view.value) := token])) else None
  {
  }

  /** What a read without a cursor is told before its index loads: its view is closed, or it waits for the
    * index, and remembers the lifetime it belongs to. */
  lemma WaitsForIndex<T>(cfg: Setup<T>, s: State<T>, r: Request<T>, now: int)
    requires ValidRequest(r) && r.cursor.None? && (r.view.Some? ==> (r.scope, r.view.value) in s.lifetimes)
    ensures Opened(cfg, s, r, now) == (s,
      if r.view.None? then Loading(Pending(r, now, None))
      else if s.lifetimes[(r.scope, r.view.value)] in s.closedAt then Answered(Refused(InvalidRequest))
      else Loading(Pending(r, now, Some(s.lifetimes[(r.scope, r.view.value)]))))
  {
  }

  /** The segment in order: validation, expiry, admission of the view, then cursor or index. */
  lemma ReadStarts<T>(cfg: Setup<T>, s: State<T>, r: Request<T>, now: int, token: nat)
    ensures !ValidRequest(r) ==> Start(cfg, s, r, now, token) == (s, Answered(Refused(InvalidRequest)))
    ensures ValidRequest(r) ==>
      var left := Expire(s, now);
      var open := Admit(cfg, left, r, token);
      && (open.None? ==> Start(cfg, s, r, now, token) == (left, Answered(Refused(Busy))))
      && (open.Some? ==> Start(cfg, s, r, now, token) == Opened(cfg, open.value, r, now))
  {
    hide Expire, Opened, ValidRequest;
  }

  /** A cursor of another requester or query, or one that is no cursor, is refused. */
  lemma ForeignCursor<T>(cfg: Setup<T>, s: State<T>, r: Request<T>, text: CursorText, now: int)
    requires ValidRequest(r)
    requires text.Malformed? || text.cursor.scope != r.scope || text.cursor.query != r.query
    ensures CursorRead(cfg, s, r, text, now) == (s, Refused(InvalidRequest))
  {
  }

  /** A cursor is text that a caller can write: one that names a generation of another requester or query
    * is refused as well, whatever it says of itself. */
  lemma RewrittenCursor<T>(cfg: Setup<T>, s: State<T>, r: Request<T>, text: CursorText, now: int, g: Generation<T>)
    requires ValidRequest(r) && text.Encoded? && Distinct(s.generations)
    requires g in s.generations && g.id == text.cursor.generation && (g.scope != r.scope || g.content.query != r.query)
    ensures CursorRead(cfg, s, r, text, now) == (s, Refused(InvalidRequest))
  {
    LookupFacts(s.generations, text.cursor.generation);
  }

  /** What a read may ask for. */
  lemma RequestBounds<T>(r: Request<T>)
    ensures ValidRequest(r) <==>
      && (r.pageSize.Some? ==> 1 <= r.pageSize.value <= 100)
      && (r.range.Some? ==> r.cursor.None? && r.baseline.None? && 0 <= r.range.value.start && 1 <= r.range.value.count)
      && (r.anchor.Some? ==> r.cursor.None? && r.baseline.None?)
    ensures ValidRequest(r) ==> PageSize(r) == if r.pageSize.Some? then r.pageSize.value else 100
  {
  }

  // ---- what stays ----

  /** Expiry drops exactly what was idle for more than a minute: generations by their last access, view
    * lifetimes by their closing. */
  lemma ExpiresExactly<T>(s: State<T>, now: int)
    ensures var after := Expire(s, now);
      && (forall g :: g in after.generations <==> g in s.generations && now - g.lastAccess <= 60_000)
      && (forall key :: key in after.current <==> key in s.current && s.current[key] in Ids(after.generations))
      && (forall key :: key in after.current ==> after.current[key] == s.current[key])
      && (forall key :: key in after.lifetimes <==>
            key in s.lifetimes
            && (s.lifetimes[key] in s.closedAt ==> now - s.closedAt[s.lifetimes[key]] <= 60_000))
      && (forall key :: key in after.lifetimes ==> after.lifetimes[key] == s.lifetimes[key])
      && after.closedAt == s.closedAt
  {
    var keep := (g: Generation<T>) => now - g.lastAccess <= IDLE_MS;
    forall g ensures g in Expire(s, now).generations <==> g in s.generations && now - g.lastAccess <= 60_000 {
      KeepMembers(s.generations, keep, g);
    }
  }

  /** Closing a view drops exactly its own generations, and from then on its lifetime is closed. */
  lemma ReleasesExactly<T>(s: State<T>, scope: string, view: string, at: int)
    ensures var after := Release(s, scope, view, at);
      && (forall g :: g in after.generations <==> g in s.generations && !(g.scope == scope && g.view == Some(view)))
      && (forall key :: key in after.current <==> key in s.current && s.current[key] in Ids(after.generations))
      && (forall key :: key in after.current ==> after.current[key] == s.current[key])
      && after.lifetimes == s.lifetimes
      && after.closedAt == if (scope, view) in s.lifetimes then s.closedAt[s.lifetimes[(scope, view)] := at]
           else s.closedAt
  {
    var keep := (g: Generation<T>) => !(g.scope == scope && g.view == Some(view));
    forall g
      ensures g in Release(s, scope, view, at).generations <==>
        g in s.generations && !(g.scope == scope && g.view == Some(view))
    {
      KeepMembers(s.generations, keep, g);
    }
  }

  /** Serving from a generation, by cursor or not, is an access: it stays for another minute. */
  lemma AccessCounts<T>(s: State<T>, id: string, now: int, g: Generation<T>)
    requires g in s.generations
    ensures var after := Touch(s.generations, id, now);
      (if g.id == id then g.(lastAccess := now) else g) in after && |after| == |s.generations|
  {
    var i :| 0 <= i < |s.generations| && s.generations[i] == g;
    assert Touch(s.generations, id, now)[i] == if g.id == id then g.(lastAccess := now) else g;
  }

  lemma CursorAccess<T>(cfg: Setup<T>, s: State<T>, r: Request<T>, text: CursorText, now: int, g: Generation<T>)
    requires ValidRequest(r) && CursorRead(cfg, s, r, text, now).1.Served? && g in s.generations
    requires text.Encoded? && g.id == text.cursor.generation
    ensures g.(lastAccess := now) in CursorRead(cfg, s, r, text, now).0.generations
  {
    LookupFacts(s.generations, text.cursor.generation);
    AccessCounts(s, text.cursor.generation, now, g);
  }

  /** A new generation takes a place without evicting any other, as long as there are fewer than eight and
    * they fit the budget together; and it is evicted from among the rest only while they do not. */
  lemma EvictsOnlyWhenFull<T(!new)>(s: State<T>, incoming: Generation<T>)
    requires Distinct(s.generations) && incoming.content.bytes <= 32 * 1024 * 1024
    ensures |s.generations| < 8 && Bytes(s.generations) + incoming.content.bytes <= 32 * 1024 * 1024 ==>
      Retain(s, incoming).generations == s.generations + [incoming]
    ensures var kept := Evict(s.generations, EvictionOrder(s), incoming);
      |kept| < 8 && Bytes(kept) + incoming.content.bytes <= 32 * 1024 * 1024
    ensures var after := Retain(s, incoming);
      && incoming in after.generations && after.lifetimes == s.lifetimes && after.closedAt == s.closedAt
      && (forall key :: key in after.current <==>
            key in s.current && s.current[key] in Ids(Evict(s.generations, EvictionOrder(s), incoming)))
      && (forall key :: key in after.current ==> after.current[key] == s.current[key])
  {
    var k := MakesRoom(s, incoming);
  }

  /** Bytes add up. */
  lemma {:induction false} BytesAddUp<T>(a: seq<Generation<T>>, b: seq<Generation<T>>)
    ensures Bytes(a + b) == Bytes(a) + Bytes(b)
    ensures forall g: Generation<T> :: Bytes([g]) == g.content.bytes
    decreases |b|
  {
    forall g: Generation<T> ensures Bytes([g]) == g.content.bytes {
      BytesAppend([], g);
      assert [] + [g] == [g];
    }
    if b == [] {
      assert a + b == a;
    } else {
      BytesAddUp(a, b[..|b| - 1]);
      assert (a + b)[..|a + b| - 1] == a + b[..|b| - 1];
    }
  }
}
