/** What viewers of the query store can rely on: cursors are honoured, followed pages add up to
  * one collection, and a closed view is served and retains nothing more. */
module QueryResults {
  import opened Prelude
  import opened QueryPages
  import opened QueryStore
  import opened QueryEviction
  import opened QuerySafety

  /** A page stands for the rows it carries, and for the range it vouches for. */
  function Span<T>(p: Page<T>): nat {
    |p.rows| + (if p.range.Some? then p.range.value.count else 0)
  }

  ghost predicate FaithfulTo<T>(g: Generation<T>, p: Page<T>) {
    && p.generation == g.id
    && (!p.same ==>
          && p.start + Span(p) <= |g.content.rows|
          && p.rows == (if p.range.Some? then [] else g.content.rows[p.start..p.start + |p.rows|])
          && (p.complete <==> p.start + Span(p) == |g.content.rows|)
          && p.next == (if p.complete then None else Some(CursorAt(g, p.start + Span(p)))))
    && (p.same ==> p.next.None?)
  }

  lemma PageFaithful<T(!new)>(measure: Measure<T>, g: Generation<T>, offset: nat, pageSize: nat)
    requires PageOf(measure, g, offset, pageSize).Served?
    ensures var p := PageOf(measure, g, offset, pageSize).page;
      FaithfulTo(g, p) && p.start == offset && p.range.None? && !p.same
  {
    ServedPage(measure, g, offset, pageSize);
  }

  lemma LoadedFaithful<T(!new)>(cfg: Setup<T>, r: Request<T>, g: Generation<T>)
    requires ValidRequest(r) && LoadedPage(cfg, r, g).0.Served?
    ensures FaithfulTo(g, LoadedPage(cfg, r, g).0.page)
  {
    if r.baseline == Some(g.content.revision) {
    } else if RangeMatches(cfg, r, g) {
      var range := r.range.value;
      PageFaithful(cfg.measure, g, range.start + range.count, 0);
      ServedPage(cfg.measure, g, range.start + range.count, 0);
    } else {
      PageFaithful(cfg.measure, g, Offset(r, g).value, PageSize(r));
    }
  }

  ghost predicate Faithful<T>(w: World<T>, p: Page<T>) {
    p.generation in w.minted && FaithfulTo(w.minted[p.generation], p)
  }

  ghost predicate Honoured<T>(w: World<T>, p: Page<T>) {
    p.next.Some? ==> p.next.value.generation in Ids(w.store.generations)
  }

  lemma MintedFaithful<T>(w: World<T>, g: Generation<T>, p: Page<T>)
    requires Kept(w.store, w.minted, g) && FaithfulTo(g, p)
    ensures Faithful(w, p)
  {
  }

  lemma CompleteServes<T(!new)>(cfg: Setup<T>, w: World<T>, read: nat, load: Load<T>, id: string)
    requires Inv(w) && Enabled(w, Complete(read, load, id))
    ensures var (after, answer) := AfterComplete(cfg, w, read, load, id);
      answer.value.Served? ==> Faithful(after, answer.value.page) && Honoured(after, answer.value.page)
  {
    var p := w.inFlight[read];
    var (after, answer) := AfterComplete(cfg, w, read, load, id);
    if answer.value.Served? {
      var m := load.projection.value;
      MintKeeps(w, id, Generation(id, p.request.scope, p.request.view, m, p.now));
      ChosenFacts(w, p, m, id);
      var g := Chosen(w.store, p, m, id);
      var minted := w.(minted := Minted(w, p, load, id));
      LoadedFaithful(cfg, p.request, g);
      SettleKeeps(minted, p, g, answer.value, LoadedPage(cfg, p.request, g).1);
      MintedFaithful(minted, g, answer.value.page);
    }
  }

  lemma CursorServes<T(!new)>(cfg: Setup<T>, w: World<T>, r: Request<T>, text: CursorText, now: int)
    requires Inv(w) && ValidRequest(r)
    ensures var (after, answer) := CursorRead(cfg, w.store, r, text, now);
      answer.Served? ==>
        && var p := answer.page;
        && Faithful(w, p) && (p.next.Some? ==> p.next.value.generation in Ids(after.generations))
        && text.Encoded? && p.generation == text.cursor.generation && p.start == text.cursor.offset
        && p.range.None? && !p.same
  {
    if text.Encoded? {
      var cursor := text.cursor;
      LookupFacts(w.store.generations, cursor.generation);
      TouchFacts(w.store.generations, cursor.generation, now);
      var found := Lookup(w.store.generations, cursor.generation);
      if found.Some? && PageOf(cfg.measure, found.value, cursor.offset, PageSize(r)).Served? {
        PageFaithful(cfg.measure, found.value, cursor.offset, PageSize(r));
        MintedFaithful(w, found.value, PageOf(cfg.measure, found.value, cursor.offset, PageSize(r)).page);
      }
    }
  }

  /** What the answer of a read with a cursor is about. */
  ghost predicate Follows<T>(r: Request<T>, p: Page<T>) {
    r.cursor.Some? ==>
      && r.cursor.value.Encoded? && p.range.None? && !p.same
      && p.generation == r.cursor.value.cursor.generation && p.start == r.cursor.value.cursor.offset
  }

  lemma OpenedServes<T(!new)>(cfg: Setup<T>, w: World<T>, r: Request<T>, now: int)
    requires Inv(w) && ValidRequest(r) && (r.view.Some? ==> (r.scope, r.view.value) in w.store.lifetimes)
    ensures var (store, started) := Opened(cfg, w.store, r, now);
      started.Answered? && started.answer.Served? ==>
        && Faithful(w, started.answer.page) && Honoured(w.(store := store), started.answer.page)
        && r.cursor.Some? && Follows(r, started.answer.page)
  {
    if r.cursor.Some? {
      CursorServes(cfg, w, r, r.cursor.value, now);
    }
    hide CursorRead, Inv, Faithful;
  }

  lemma BeginServes<T(!new)>(cfg: Setup<T>, w: World<T>, read: nat, r: Request<T>, now: int)
    requires Inv(w) && Enabled(w, Begin(read, r, now))
    ensures var (after, answer) := AfterBegin(cfg, w, read, r, now);
      answer.Some? && answer.value.Served? ==>
        && Faithful(after, answer.value.page) && Honoured(after, answer.value.page)
        && r.cursor.Some? && Follows(r, answer.value.page)
  {
    hide Opened, Inv, Expire, Admit, ValidRequest;
    var expired := w.(store := Expire(w.store, now));
    if ValidRequest(r) {
      ExpireKeeps(w, now);
      if Admit(cfg, expired.store, r, w.tokens).Some? {
        AdmitKeeps(cfg, expired, r);
        var admitted := Admit(cfg, expired.store, r, w.tokens).value;
        OpenedServes(cfg, expired.(store := admitted, tokens := w.tokens + 1), r, now);
      }
    }
  }

  /** Every served page is an exact cut of the generation it names, and the cursor it issues names
    * a generation retained at that moment. */
  lemma ServedPagesHold<T(!new)>(cfg: Setup<T>, run: Run<T>, i: nat, p: Page<T>)
    requires IsRun(cfg, run) && i < |run.events| && run.answers[i] == Some(Served(p))
    ensures Faithful(run.worlds[i + 1], p) && Honoured(run.worlds[i + 1], p)
    ensures run.events[i].Begin? ==> run.events[i].request.cursor.Some? && Follows(run.events[i].request, p)
  {
    RunKept(cfg, run, i);
    assert StepAt(cfg, run, i);
    var w := run.worlds[i];
    match run.events[i]
    case Begin(read, r, now) => BeginServes(cfg, w, read, r, now);
    case Complete(read, load, id) => CompleteServes(cfg, w, read, load, id);
    case Close(_, _, _) =>
  }

  // ---- following cursors through a run ----

  lemma MintedStays<T>(cfg: Setup<T>, w: World<T>, e: Event<T>, id: string)
    requires Enabled(w, e) && id in w.minted
    ensures var after := Step(cfg, w, e).0; id in after.minted && after.minted[id] == w.minted[id]
  {
  }

  lemma {:induction false} MintedForever<T>(cfg: Setup<T>, run: Run<T>, i: nat, j: nat, id: string)
    requires IsRun(cfg, run) && i <= j < |run.worlds| && id in run.worlds[i].minted
    ensures id in run.worlds[j].minted && run.worlds[j].minted[id] == run.worlds[i].minted[id]
    decreases j - i
  {
    hide Step;
    if i < j {
      MintedForever(cfg, run, i, j - 1, id);
      assert StepAt(cfg, run, j - 1);
      MintedStays(cfg, run.worlds[j - 1], run.events[j - 1], id);
    }
  }

  // ---- when a cursor is answered ----

  /** The read's view, if it has one, is open, or there is room to open it. */
  ghost predicate Admitted<T>(cfg: Setup<T>, s: State<T>, r: Request<T>, token: nat) {
    && Admit(cfg, s, r, token).Some?
    && (r.view.Some? && (r.scope, r.view.value) in s.lifetimes ==> OpenView(s, r.scope, r.view.value))
  }

  /** A valid read with the cursor `c`, for the requester and the query the cursor was issued to. */
  ghost predicate Presents<T>(cfg: Setup<T>, w: World<T>, e: Event<T>, c: Cursor) {
    && e.Begin? && ValidRequest(e.request) && e.request.cursor == Some(Encoded(c))
    && e.request.scope == c.scope && e.request.query == c.query
    && Admitted(cfg, Expire(w.store, e.now), e.request, w.tokens)
  }

  /** Where an issued cursor points: at a row of its generation. */
  ghost predicate Issued<T>(g: Generation<T>, c: Cursor) {
    c.generation == g.id && c.scope == g.scope && c.query == g.content.query && c.offset < |g.content.rows|
  }

  lemma CursorIssued<T>(w: World<T>, p: Page<T>)
    requires Faithful(w, p) && p.next.Some?
    ensures p.next.value.generation in w.minted && Issued(w.minted[p.next.value.generation], p.next.value)
  {
  }

  lemma StartPresented<T(!new)>(cfg: Setup<T>, w: World<T>, e: Event<T>, c: Cursor)
    requires Inv(w) && Enabled(w, e) && Presents(cfg, w, e, c) && c.generation in w.minted
      && Issued(w.minted[c.generation], c)
    ensures var kept, answer := Lookup(Expire(w.store, e.now).generations, c.generation), Step(cfg, w, e).1;
      && (kept.Some? <==> c.generation in Ids(Expire(w.store, e.now).generations))
      && answer == Some(if kept.None? then Refused(CursorExpired)
                        else PageOf(cfg.measure, kept.value, c.offset, PageSize(e.request)))
      && (kept.Some? ==> kept.value == w.minted[c.generation].(lastAccess := kept.value.lastAccess))
  {
    ExpireKeeps(w, e.now);
    var s := Expire(w.store, e.now);
    LookupFacts(s.generations, c.generation);
    hide Expire, PageOf;
    assert Lookup(s.generations, c.generation).Some? ==>
      Kept(s, w.minted, Lookup(s.generations, c.generation).value);
  }

  /** An issued cursor is answered with its page as long as its generation is retained: it expires
    * exactly with the generation, and its page fails only on a row that is too large by itself. */
  lemma CursorAnswered<T(!new)>(cfg: Setup<T>, run: Run<T>, i: nat, p: Page<T>, j: nat)
    requires IsRun(cfg, run) && i < j < |run.events| && run.answers[i] == Some(Served(p)) && p.next.Some?
    requires Serializes(cfg.measure) && Presents(cfg, run.worlds[j], run.events[j], p.next.value)
    ensures var c, s := p.next.value, Expire(run.worlds[j].store, run.events[j].now);
      if c.generation !in Ids(s.generations) then run.answers[j] == Some(Refused(CursorExpired))
      else
        && c.generation in run.worlds[i + 1].minted && Lookup(s.generations, c.generation).Some?
        && var g := Lookup(s.generations, c.generation).value;
        && g.content == run.worlds[i + 1].minted[c.generation].content && c.offset < |g.content.rows|
        && run.answers[j] == Some(PageOf(cfg.measure, g, c.offset, PageSize(run.events[j].request)))
        && (if Fits(cfg.measure, g, Draft(g, c.offset, 1)) then run.answers[j].value.Served?
            else run.answers[j] == Some(Refused(RowTooLarge)))
  {
    var c := p.next.value;
    ServedPagesHold(cfg, run, i, p);
    CursorIssued(run.worlds[i + 1], p);
    MintedForever(cfg, run, i + 1, j, c.generation);
    RunKept(cfg, run, j);
    assert StepAt(cfg, run, j);
    StartPresented(cfg, run.worlds[j], run.events[j], c);
    hide Step, Expire, Inv, PageOf;
    var kept := Lookup(Expire(run.worlds[j].store, run.events[j].now).generations, c.generation);
    if kept.Some? {
      ClosingAssertionHolds(cfg.measure, kept.value, c.offset, PageSize(run.events[j].request));
    }
  }

  // ---- chains ----

  /** Reads at the moments `at` of a run, each after the first with the cursor of the one before;
    * anything may happen in between. */
  ghost predicate Chain<T>(run: Run<T>, at: seq<nat>, pages: seq<Page<T>>) {
    && |at| == |pages| > 0 && !pages[0].same && pages[0].range.None?
    && (forall k: nat :: k < |at| ==> ServesAt(run, at, pages, k))
  }

  ghost predicate ServesAt<T>(run: Run<T>, at: seq<nat>, pages: seq<Page<T>>, k: nat) {
    && k < |at| == |pages| && at[k] < |run.events| && at[k] < |run.answers|
         && run.answers[at[k]] == Some(Served(pages[k]))
    && (k > 0 ==>
          && run.events[at[k]].Begin? && pages[k - 1].next.Some?
          && run.events[at[k]].request.cursor == Some(Encoded(pages[k - 1].next.value)))
  }

  /** A page that carries its rows, seen against what its generation was minted with. */
  ghost predicate CutOf<T>(rows: seq<T>, p: Page<T>) {
    && p.start + |p.rows| <= |rows| && p.rows == rows[p.start..p.start + |p.rows|]
    && (p.complete <==> p.start + |p.rows| == |rows|)
    && (p.next.Some? ==> p.next.value.offset == p.start + |p.rows| && p.next.value.generation == p.generation)
  }

  ghost predicate Joined<T>(before: Page<T>, p: Page<T>) {
    before.next.Some? && p.start == before.next.value.offset && p.generation == before.next.value.generation
  }

  /** What every generation of the run was minted with. */
  ghost function AllMinted<T>(run: Run<T>): map<string, Generation<T>>
    requires run.worlds != []
  {
    run.worlds[|run.worlds| - 1].minted
  }

  lemma ChainedPage<T(!new)>(cfg: Setup<T>, run: Run<T>, at: seq<nat>, pages: seq<Page<T>>, k: nat)
    requires IsRun(cfg, run) && Chain(run, at, pages) && k < |pages|
    ensures var p := pages[k];
      && p.generation in AllMinted(run) && CutOf(AllMinted(run)[p.generation].content.rows, p)
      && (k > 0 ==> Joined(pages[k - 1], p))
  {
    hide StepAt;
    assert ServesAt(run, at, pages, k);
    ServedPagesHold(cfg, run, at[k], pages[k]);
    MintedForever(cfg, run, at[k] + 1, |run.events|, pages[k].generation);
  }

  ghost predicate Linked<T>(rows: seq<T>, pages: seq<Page<T>>) {
    && (forall k :: 0 <= k < |pages| ==> CutOf(rows, pages[k]))
    && (forall j, k :: 0 <= j < k < |pages| && k == j + 1 ==> Joined(pages[j], pages[k]))
  }

  lemma {:induction false} CutsAddUp<T>(rows: seq<T>, pages: seq<Page<T>>)
    requires pages != [] && Linked(rows, pages)
    ensures var last := pages[|pages| - 1];
      var end := last.start + |last.rows|;
      && pages[0].start <= end <= |rows| && Rows(pages) == rows[pages[0].start..end]
      && (last.complete <==> end == |rows|)
    decreases |pages|
  {
    var last := |pages| - 1;
    assert CutOf(rows, pages[last]);
    hide Linked;
    ShorterLinked(rows, pages);
    if last == 0 {
      assert pages[..0] == [];
    } else {
      CutsAddUp(rows, pages[..last]);
    }
  }

  lemma ShorterLinked<T>(rows: seq<T>, pages: seq<Page<T>>)
    requires pages != [] && Linked(rows, pages)
    ensures var last := |pages| - 1;
      && Linked(rows, pages[..last])
      && (last > 0 ==> CutOf(rows, pages[last - 1]) && Joined(pages[last - 1], pages[last]))
  {
    hide CutOf, Joined;
  }

  lemma {:induction false} OneGeneration<T(!new)>(cfg: Setup<T>, run: Run<T>, at: seq<nat>, pages: seq<Page<T>>, k: nat)
    requires IsRun(cfg, run) && Chain(run, at, pages) && k < |pages|
    ensures pages[k].generation == pages[0].generation
  {
    hide StepAt, IsRun;
    if k > 0 {
      OneGeneration(cfg, run, at, pages, k - 1);
      ChainedPage(cfg, run, at, pages, k - 1);
      ChainedPage(cfg, run, at, pages, k);
    }
  }

  /** However reads overlap, the pages of a chain are consecutive cuts of one generation: together
    * they are its rows from the first page on, each once and in order, and all of them once a page
    * says it is complete. */
  lemma ChainAddsUp<T(!new)>(cfg: Setup<T>, run: Run<T>, at: seq<nat>, pages: seq<Page<T>>)
    requires IsRun(cfg, run) && Chain(run, at, pages)
    ensures var id, last := pages[0].generation, pages[|pages| - 1];
      && last.generation == id && id in AllMinted(run)
      && var rows, end := AllMinted(run)[id].content.rows, last.start + |last.rows|;
      && pages[0].start <= end <= |rows| && Rows(pages) == rows[pages[0].start..end]
      && (last.complete <==> end == |rows|)
  {
    hide StepAt, ServesAt;
    ChainedPage(cfg, run, at, pages, 0);
    OneGeneration(cfg, run, at, pages, |pages| - 1);
    var rows := AllMinted(run)[pages[0].generation].content.rows;
    forall k | 0 <= k < |pages| ensures CutOf(rows, pages[k]) && (k > 0 ==> Joined(pages[k - 1], pages[k])) {
      OneGeneration(cfg, run, at, pages, k);
      ChainedPage(cfg, run, at, pages, k);
    }
    CutsAddUp(rows, pages);
  }

  // ---- closed views ----

  /** A read whose view lifetime was closed while its index loaded. */
  ghost predicate Shut<T>(w: World<T>, read: nat) {
    && read in w.inFlight && w.inFlight[read].lifetime.Some?
    && w.inFlight[read].lifetime.value in w.store.closedAt
  }

  lemma CloseShuts<T>(cfg: Setup<T>, w: World<T>, scope: string, view: string, at: int, read: nat)
    requires Inv(w) && read in w.inFlight
    requires w.inFlight[read].request.scope == scope && w.inFlight[read].request.view == Some(view)
    ensures Shut(Step(cfg, w, Close(scope, view, at)).0, read)
  {
    assert InFlight(w.store, w.tokens, w.inFlight[read]);
  }

  lemma StartLeavesClosed<T>(cfg: Setup<T>, s: State<T>, r: Request<T>, now: int, token: nat)
    ensures Start(cfg, s, r, now, token).0.closedAt == s.closedAt
  {
    var admitted := Admit(cfg, Expire(s, now), r, token);
    if ValidRequest(r) && admitted.Some? {
      OpenedLeavesClosed(cfg, admitted.value, r, now);
    }
  }

  lemma OpenedLeavesClosed<T>(cfg: Setup<T>, s: State<T>, r: Request<T>, now: int)
    requires ValidRequest(r) && (r.view.Some? ==> (r.scope, r.view.value) in s.lifetimes)
    ensures Opened(cfg, s, r, now).0.closedAt == s.closedAt
  {
  }

  lemma FinishLeavesClosed<T>(cfg: Setup<T>, s: State<T>, p: Pending<T>, load: Load<T>, id: string)
    requires ValidRequest(p.request)
    ensures Finish(cfg, s, p, load, id).0.closedAt == s.closedAt
  {
  }

  lemma ClosedStays<T>(cfg: Setup<T>, w: World<T>, e: Event<T>)
    requires Enabled(w, e)
    ensures w.store.closedAt.Keys <= Step(cfg, w, e).0.store.closedAt.Keys
  {
    match e
    case Begin(_, r, now) => StartLeavesClosed(cfg, w.store, r, now, w.tokens);
    case Complete(read, load, id) => FinishLeavesClosed(cfg, w.store, w.inFlight[read], load, id);
    case Close(_, _, _) =>
  }

  lemma ShutStays<T>(cfg: Setup<T>, w: World<T>, e: Event<T>, read: nat)
    requires Enabled(w, e) && Shut(w, read) && !(e.Complete? && e.read == read)
    ensures Shut(Step(cfg, w, e).0, read)
  {
    ClosedStays(cfg, w, e);
  }

  ghost predicate Settles<T>(e: Event<T>, read: nat) {
    e.Complete? && e.read == read
  }

  lemma {:induction false} ShutUntil<T>(cfg: Setup<T>, run: Run<T>, i: nat, j: nat, read: nat)
    requires IsRun(cfg, run) && i <= j < |run.worlds| && Shut(run.worlds[i], read)
    requires forall k :: i <= k < j ==> !Settles(run.events[k], read)
    ensures Shut(run.worlds[j], read)
    decreases j - i
  {
    hide Step, Shut;
    if i < j {
      ShutUntil(cfg, run, i, j - 1, read);
      assert StepAt(cfg, run, j - 1);
      assert !Settles(run.events[j - 1], read);
      ShutStays(cfg, run.worlds[j - 1], run.events[j - 1], read);
    }
  }

  lemma ShutRefused<T>(cfg: Setup<T>, w: World<T>, e: Event<T>)
    requires Enabled(w, e) && e.Complete? && Shut(w, e.read)
    ensures Step(cfg, w, e).1.Some? && Step(cfg, w, e).1.value.Refused? && Step(cfg, w, e).0.store == w.store
  {
  }

  /** A read in flight when its view closes is refused however its index turns out, and leaves the
    * store as it was. */
  lemma ClosedViewIsRefused<T(!new)>(cfg: Setup<T>, run: Run<T>, i: nat, j: nat, read: nat)
    requires IsRun(cfg, run) && i < j < |run.events| && run.events[i].Close? && read in run.worlds[i].inFlight
    requires run.worlds[i].inFlight[read].request.scope == run.events[i].scope
    requires run.worlds[i].inFlight[read].request.view == Some(run.events[i].view)
    requires Settles(run.events[j], read) && forall k :: i < k < j ==> !Settles(run.events[k], read)
    ensures run.answers[j].Some? && run.answers[j].value.Refused? && run.worlds[j + 1].store == run.worlds[j].store
  {
    hide Step, Inv;
    RunKept(cfg, run, i);
    assert StepAt(cfg, run, i) && StepAt(cfg, run, j);
    CloseShuts(cfg, run.worlds[i], run.events[i].scope, run.events[i].view, run.events[i].at, read);
    ShutUntil(cfg, run, i + 1, j, read);
    ShutRefused(cfg, run.worlds[j], run.events[j]);
  }
}
