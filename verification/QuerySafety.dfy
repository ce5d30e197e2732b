/** Every run of the query store: overlapping reads, expiry, eviction and closing views. */
module QuerySafety {
  import opened Prelude
  import opened QueryPages
  import opened QueryStore
  import opened QueryEviction

  /** The store with the reads in flight and, for the statements only, every generation minted. */
  datatype World<!T> =
    World(store: State<T>, inFlight: map<nat, Pending<T>>, minted: map<string, Generation<T>>, tokens: nat)

  /** `Complete` runs after the read's `loadIndex` settles; the clock may show anything. */
  datatype Event<!T> =
    | Begin(read: nat, request: Request<T>, now: int)
    | Complete(read: nat, load: Load<T>, id: string)
    | Close(scope: string, view: string, at: int)

  ghost function Initial<T>(): World<T> {
    World(State([], map[], map[], map[]), map[], map[], 0)
  }

  ghost predicate Enabled<T>(w: World<T>, e: Event<T>) {
    match e
    case Begin(read, _, _) => read !in w.inFlight
    case Complete(read, _, id) => read in w.inFlight && ValidRequest(w.inFlight[read].request) && id !in w.minted
    case Close(_, _, _) => true
  }

  ghost function AfterBegin<T>(cfg: Setup<T>, w: World<T>, read: nat, r: Request<T>, now: int)
    : (World<T>, Option<Answer<T>>)
  {
    var (store, started) := Start(cfg, w.store, r, now, w.tokens);
    (Begun(w.(store := store, tokens := w.tokens + 1), read, started),
     if started.Answered? then Some(started.answer) else None)
  }

  ghost function Begun<T>(w: World<T>, read: nat, started: Started<T>): World<T> {
    if started.Loading? then w.(inFlight := w.inFlight[read := started.pending]) else w
  }

  ghost function Minted<T>(w: World<T>, p: Pending<T>, load: Load<T>, id: string): map<string, Generation<T>> {
    if load.Rejected? || load.projection.None? then w.minted
    else w.minted[id := Generation(id, p.request.scope, p.request.view, load.projection.value, p.now)]
  }

  ghost function AfterComplete<T>(cfg: Setup<T>, w: World<T>, read: nat, load: Load<T>, id: string)
    : (World<T>, Option<Answer<T>>)
    requires Enabled(w, Complete(read, load, id))
  {
    var p := w.inFlight[read];
    var (store, answer) := Finish(cfg, w.store, p, load, id);
    (World(store, w.inFlight - {read}, Minted(w, p, load, id), w.tokens), Some(answer))
  }

  ghost function Step<T>(cfg: Setup<T>, w: World<T>, e: Event<T>): (World<T>, Option<Answer<T>>)
    requires Enabled(w, e)
  {
    match e
    case Begin(read, r, now) => AfterBegin(cfg, w, read, r, now)
    case Complete(read, load, id) => AfterComplete(cfg, w, read, load, id)
    case Close(scope, view, at) => (w.(store := Release(w.store, scope, view, at)), None)
  }

  /** A run: its events, the worlds between them, and what each event answered. */
  datatype Run<!T> = Run(events: seq<Event<T>>, worlds: seq<World<T>>, answers: seq<Option<Answer<T>>>)

  ghost predicate StepAt<T>(cfg: Setup<T>, run: Run<T>, i: nat) {
    && i < |run.events| && i + 1 < |run.worlds| && i < |run.answers|
    && Enabled(run.worlds[i], run.events[i])
    && Step(cfg, run.worlds[i], run.events[i]) == (run.worlds[i + 1], run.answers[i])
  }

  ghost predicate IsRun<T>(cfg: Setup<T>, run: Run<T>) {
    && |run.worlds| == |run.events| + 1 && |run.answers| == |run.events| && run.worlds[0] == Initial()
    && forall i: nat :: i < |run.events| ==> StepAt(cfg, run, i)
  }

  // ---- the invariant ----

  ghost predicate Bounded<T>(s: State<T>) {
    && |s.generations| <= MAX_GENERATIONS && Bytes(s.generations) <= MAX_RETAINED_BYTES && Distinct(s.generations)
    && s.current.Values <= Ids(s.generations) && |s.lifetimes| <= MAX_LIFETIMES
  }

  ghost predicate OpenView<T>(s: State<T>, scope: string, view: string) {
    (scope, view) in s.lifetimes && s.lifetimes[(scope, view)] !in s.closedAt
  }

  /** A retained generation of an Attention view belongs to a view that is still open. */
  ghost predicate Kept<T>(s: State<T>, minted: map<string, Generation<T>>, g: Generation<T>) {
    && (g.view.Some? ==> OpenView(s, g.scope, g.view.value))
    && g.id in minted && g == minted[g.id].(lastAccess := g.lastAccess)
  }

  ghost predicate Tokens<T>(s: State<T>, tokens: nat) {
    && (forall key :: key in s.lifetimes ==> s.lifetimes[key] < tokens)
    && (forall token :: token in s.closedAt ==> token < tokens)
    && (forall a, b :: a in s.lifetimes && b in s.lifetimes && s.lifetimes[a] == s.lifetimes[b] ==> a == b)
  }

  /** A read in flight whose lifetime object is open holds the object its view still has. */
  ghost predicate InFlight<T>(s: State<T>, tokens: nat, p: Pending<T>) {
    && ValidRequest(p.request)
    && (p.request.view.Some? <==> p.lifetime.Some?)
    && (p.lifetime.Some? ==>
          && p.lifetime.value < tokens
          && (p.lifetime.value !in s.closedAt ==>
                && (p.request.scope, p.request.view.value) in s.lifetimes
                && s.lifetimes[(p.request.scope, p.request.view.value)] == p.lifetime.value))
  }

  ghost predicate Inv<T>(w: World<T>) {
    && Bounded(w.store)
    && Tokens(w.store, w.tokens)
    && (forall g :: g in w.store.generations ==> Kept(w.store, w.minted, g))
    && (forall read :: read in w.inFlight ==> InFlight(w.store, w.tokens, w.inFlight[read]))
  }

  // ---- what each part keeps ----

  lemma FilterKeeps<T>(s: State<T>, keep: Generation<T> -> bool)
    requires Bounded(s)
    ensures var kept := Keep(s.generations, keep);
      && |kept| <= |s.generations| && Bytes(kept) <= Bytes(s.generations) && Distinct(kept)
      && Pruned(s.current, Ids(kept)).Values <= Ids(kept)
      && (forall g :: g in kept ==> g in s.generations && keep(g))
  {
    KeepFacts(s.generations, keep);
    forall g | g in Keep(s.generations, keep) ensures g in s.generations && keep(g) {
      KeepMembers(s.generations, keep, g);
    }
  }

  lemma SmallerMap<K, V>(a: map<K, V>, b: map<K, V>)
    requires a.Keys <= b.Keys
    ensures |a| <= |b|
  {
    SmallerSet(a.Keys, b.Keys);
    assert |a| == |a.Keys| && |b| == |b.Keys|;
  }

  lemma ExpireKeeps<T>(w: World<T>, now: int)
    requires Inv(w)
    ensures Inv(w.(store := Expire(w.store, now)))
  {
    var s, after := w.store, Expire(w.store, now);
    FilterKeeps(s, (g: Generation<T>) => now - g.lastAccess <= IDLE_MS);
    assert after.lifetimes.Keys <= s.lifetimes.Keys;
    SmallerMap(after.lifetimes, s.lifetimes);
    forall g | g in after.generations ensures Kept(after, w.minted, g) {
      assert g in s.generations;
    }
  }

  lemma ReleaseKeeps<T>(w: World<T>, scope: string, view: string, now: int)
    requires Inv(w)
    ensures Inv(w.(store := Release(w.store, scope, view, now)))
  {
    var s, after := w.store, Release(w.store, scope, view, now);
    FilterKeeps(s, (g: Generation<T>) => !(g.scope == scope && g.view == Some(view)));
    forall g | g in after.generations ensures Kept(after, w.minted, g) {
      assert g in s.generations;
    }
  }

  lemma AdmitKeeps<T>(cfg: Setup<T>, w: World<T>, r: Request<T>)
    requires Inv(w) && Admit(cfg, w.store, r, w.tokens).Some?
    ensures var open := Admit(cfg, w.store, r, w.tokens).value;
      && Inv(w.(store := open, tokens := w.tokens + 1))
      && (r.view.Some? ==>
           (r.scope, r.view.value) in open.lifetimes && open.lifetimes[(r.scope, r.view.value)] <= w.tokens)
  {
    if r.view.Some? && (r.scope, r.view.value) !in w.store.lifetimes {
      NewLifetime(w, (r.scope, r.view.value));
    } else {
      Later(w);
    }
  }

  lemma NewLifetime<T>(w: World<T>, key: (string, string))
    requires Inv(w) && key !in w.store.lifetimes && |w.store.lifetimes| < MAX_LIFETIMES
    ensures Inv(w.(store := w.store.(lifetimes := w.store.lifetimes[key := w.tokens]), tokens := w.tokens + 1))
  {
    var s, after := w.store, w.store.(lifetimes := w.store.lifetimes[key := w.tokens]);
    forall g | g in after.generations ensures Kept(after, w.minted, g) {
      assert Kept(s, w.minted, g);
    }
    forall read | read in w.inFlight ensures InFlight(after, w.tokens + 1, w.inFlight[read]) {
      assert InFlight(s, w.tokens, w.inFlight[read]);
    }
    TokenAdded(s, key, w.tokens);
    hide Tokens, Kept, InFlight;
  }

  lemma TokenAdded<T>(s: State<T>, key: (string, string), tokens: nat)
    requires Tokens(s, tokens) && key !in s.lifetimes
    ensures Tokens(s.(lifetimes := s.lifetimes[key := tokens]), tokens + 1)
  {
  }

  lemma TouchKeeps<T>(w: World<T>, id: string, now: int)
    requires Inv(w)
    ensures Inv(w.(store := w.store.(generations := Touch(w.store.generations, id, now))))
  {
    var s := w.store;
    var after := s.(generations := Touch(s.generations, id, now));
    TouchFacts(s.generations, id, now);
    forall g | g in after.generations ensures Kept(after, w.minted, g) {
      var i :| 0 <= i < |after.generations| && after.generations[i] == g;
      assert s.generations[i] in s.generations;
    }
  }

  lemma RetainBounded<T(!new)>(s: State<T>, g: Generation<T>)
    requires Bounded(s) && g.id !in Ids(s.generations) && g.content.bytes <= MAX_RETAINED_BYTES
    ensures var kept := Evict(s.generations, EvictionOrder(s), g);
      && |kept| < MAX_GENERATIONS && Bytes(kept) + g.content.bytes <= MAX_RETAINED_BYTES && Distinct(kept)
      && Ids(kept) <= Ids(s.generations) && (forall x :: x in kept ==> x in s.generations)
  {
    var k := MakesRoom(s, g);
    var staying := (x: Generation<T>) => x.id !in Ids(EvictionOrder(s)[..k]);
    KeepFacts(s.generations, staying);
    forall x | x in Keep(s.generations, staying) ensures x in s.generations {
      KeepMembers(s.generations, staying, x);
    }
  }

  lemma RetainKeeps<T(!new)>(w: World<T>, g: Generation<T>, key: (string, string))
    requires Inv(w) && Kept(w.store, w.minted, g) && g.id !in Ids(w.store.generations)
    requires g.content.bytes <= MAX_RETAINED_BYTES
    ensures var kept := Retain(w.store, g);
      Inv(w.(store := kept.(current := kept.current[key := g.id]))) && g.id in Ids(kept.generations)
  {
    var kept := Evict(w.store.generations, EvictionOrder(w.store), g);
    RetainBounded(w.store, g);
    AppendKeeps(w, kept, g, key);
  }

  lemma AppendBounded<T>(s: State<T>, kept: seq<Generation<T>>, g: Generation<T>, key: (string, string))
    requires Bounded(s) && g.id !in Ids(kept)
    requires |kept| < MAX_GENERATIONS && Bytes(kept) + g.content.bytes <= MAX_RETAINED_BYTES && Distinct(kept)
    ensures var after := s.(generations := kept + [g], current := Pruned(s.current, Ids(kept))[key := g.id]);
      Bounded(after) && g.id in Ids(after.generations)
  {
    var current := Pruned(s.current, Ids(kept))[key := g.id];
    IdsAppend(kept, g);
    BytesAppend(kept, g);
    forall id | id in current.Values ensures id in Ids(kept + [g]) {
      assert id == g.id || id in Ids(kept);
    }
  }

  lemma AppendKeeps<T>(w: World<T>, kept: seq<Generation<T>>, g: Generation<T>, key: (string, string))
    requires Inv(w) && Kept(w.store, w.minted, g) && g.id !in Ids(kept)
    requires |kept| < MAX_GENERATIONS && Bytes(kept) + g.content.bytes <= MAX_RETAINED_BYTES && Distinct(kept)
    requires forall x :: x in kept ==> x in w.store.generations
    ensures var after := w.store.(generations := kept + [g],
                                  current := Pruned(w.store.current, Ids(kept))[key := g.id]);
      Inv(w.(store := after)) && g.id in Ids(after.generations)
  {
    var after := w.store.(generations := kept + [g], current := Pruned(w.store.current, Ids(kept))[key := g.id]);
    AppendBounded(w.store, kept, g, key);
    forall x | x in after.generations ensures Kept(w.store, w.minted, x) {
      assert x in kept || x == g;
    }
    SameViews(w, after);
  }

  /** Only the lists changed, and to generations that may be there. */
  lemma SameViews<T>(w: World<T>, after: State<T>)
    requires Inv(w) && Bounded(after) && after.lifetimes == w.store.lifetimes && after.closedAt == w.store.closedAt
    requires forall x :: x in after.generations ==> Kept(w.store, w.minted, x)
    ensures Inv(w.(store := after))
  {
    forall x | x in after.generations ensures Kept(after, w.minted, x) {
      assert Kept(w.store, w.minted, x);
    }
    forall read | read in w.inFlight ensures InFlight(after, w.tokens, w.inFlight[read]) {
      assert InFlight(w.store, w.tokens, w.inFlight[read]);
    }
  }

  lemma CursorKeeps<T>(cfg: Setup<T>, w: World<T>, r: Request<T>, text: CursorText, now: int)
    requires Inv(w) && ValidRequest(r)
    ensures Inv(w.(store := CursorRead(cfg, w.store, r, text, now).0))
  {
    if text.Encoded? {
      LookupFacts(w.store.generations, text.cursor.generation);
      TouchKeeps(w, text.cursor.generation, now);
    }
  }

  lemma StartKeeps<T>(cfg: Setup<T>, w: World<T>, read: nat, r: Request<T>, now: int)
    requires Inv(w) && Enabled(w, Begin(read, r, now))
    ensures Inv(AfterBegin(cfg, w, read, r, now).0)
  {
    hide Inv, Expire, Admit, Opened, ValidRequest;
    var expired := w.(store := Expire(w.store, now));
    Later(w);
    if ValidRequest(r) {
      ExpireKeeps(w, now);
      Later(expired);
      if Admit(cfg, expired.store, r, w.tokens).Some? {
        AdmittedKeeps(cfg, expired, read, r, now);
      }
    }
  }

  lemma AdmittedKeeps<T>(cfg: Setup<T>, w: World<T>, read: nat, r: Request<T>, now: int)
    requires Inv(w) && ValidRequest(r) && Admit(cfg, w.store, r, w.tokens).Some?
    ensures var (store, started) := Opened(cfg, Admit(cfg, w.store, r, w.tokens).value, r, now);
      Inv(Begun(w.(store := store, tokens := w.tokens + 1), read, started))
  {
    AdmitKeeps(cfg, w, r);
    var open := w.(store := Admit(cfg, w.store, r, w.tokens).value, tokens := w.tokens + 1);
    if r.cursor.Some? {
      CursorKeeps(cfg, open, r, r.cursor.value, now);
    } else if r.view.None? || Lifetime(open.store, r).value !in open.store.closedAt {
      FlightKeeps(open, read, Pending(r, now, Lifetime(open.store, r)));
    }
  }

  lemma FlightKeeps<T>(w: World<T>, read: nat, p: Pending<T>)
    requires Inv(w) && InFlight(w.store, w.tokens, p)
    ensures Inv(w.(inFlight := w.inFlight[read := p]))
  {
  }

  /** Unused tokens harm nothing. */
  lemma Later<T>(w: World<T>)
    requires Inv(w)
    ensures Inv(w.(tokens := w.tokens + 1))
  {
  }

  lemma ChosenFacts<T>(w: World<T>, p: Pending<T>, m: Materialization<T>, id: string)
    requires Inv(w) && InFlight(w.store, w.tokens, p) && id !in w.minted
    requires p.lifetime.Some? ==> p.lifetime.value !in w.store.closedAt
    ensures var g := Chosen(w.store, p, m, id);
      var minted := w.minted[id := Generation(id, p.request.scope, p.request.view, m, p.now)];
      && Kept(w.store, minted, g) && Inv(w.(minted := minted))
      && (g.id in Ids(w.store.generations) || (g.id == id && g.content == m))
  {
    var key := (p.request.scope, p.request.query);
    var minted := w.minted[id := Generation(id, p.request.scope, p.request.view, m, p.now)];
    forall g | g in w.store.generations ensures Kept(w.store, minted, g) {
      assert Kept(w.store, w.minted, g);
    }
    if key in w.store.current {
      LookupFacts(w.store.generations, w.store.current[key]);
    }
  }

  lemma SettleKeeps<T(!new)>(w: World<T>, p: Pending<T>, g: Generation<T>, answer: Answer<T>, accessed: bool)
    requires Inv(w) && Kept(w.store, w.minted, g)
    requires g.id in Ids(w.store.generations) || g.content.bytes <= MAX_RETAINED_BYTES
    ensures var after := Settle(w.store, p, g, answer, accessed);
      && Inv(w.(store := after)) && (answer.Served? && answer.page.next.Some? ==> g.id in Ids(after.generations))
  {
    var touched := if accessed then w.(store := w.store.(generations := Touch(w.store.generations, g.id, p.now)))
      else w;
    TouchKeeps(w, g.id, p.now);
    TouchFacts(w.store.generations, g.id, p.now);
    if !(g.id in Ids(w.store.generations) || answer.Refused? || answer.page.next.None?) {
      RetainKeeps(touched, g, (p.request.scope, p.request.query));
    }
  }

  lemma FinishKeeps<T(!new)>(cfg: Setup<T>, w: World<T>, read: nat, load: Load<T>, id: string)
    requires Inv(w) && Enabled(w, Complete(read, load, id))
    ensures Inv(AfterComplete(cfg, w, read, load, id).0)
  {
    var p := w.inFlight[read];
    FinishLoaded(cfg, w, p, load, id);
    LandKeeps(w.(store := Finish(cfg, w.store, p, load, id).0, minted := Minted(w, p, load, id)), read);
    hide Inv, Finish, Minted;
  }

  lemma FinishLoaded<T(!new)>(cfg: Setup<T>, w: World<T>, p: Pending<T>, load: Load<T>, id: string)
    requires Inv(w) && InFlight(w.store, w.tokens, p) && id !in w.minted
    ensures Inv(w.(store := Finish(cfg, w.store, p, load, id).0, minted := Minted(w, p, load, id)))
  {
    if load.Index? && load.projection.Some? {
      var m := load.projection.value;
      var minted := w.(minted := Minted(w, p, load, id));
      MintKeeps(w, id, Generation(id, p.request.scope, p.request.view, m, p.now));
      if !(p.lifetime.Some? && p.lifetime.value in w.store.closedAt) && m.bytes <= MAX_RETAINED_BYTES {
        ChosenFacts(w, p, m, id);
        hide Chosen, LoadedPage, Inv, InFlight, Kept;
        var g := Chosen(w.store, p, m, id);
        var (answer, accessed) := LoadedPage(cfg, p.request, g);
        SettleKeeps(minted, p, g, answer, accessed);
        hide Settle;
      }
    }
  }

  lemma LandKeeps<T>(w: World<T>, read: nat)
    requires Inv(w)
    ensures Inv(w.(inFlight := w.inFlight - {read}))
  {
  }

  lemma MintKeeps<T>(w: World<T>, id: string, g: Generation<T>)
    requires Inv(w) && id !in w.minted
    ensures Inv(w.(minted := w.minted[id := g]))
  {
    forall x | x in w.store.generations ensures Kept(w.store, w.minted[id := g], x) {
      assert Kept(w.store, w.minted, x);
    }
  }

  lemma StepKeeps<T(!new)>(cfg: Setup<T>, w: World<T>, e: Event<T>)
    requires Inv(w) && Enabled(w, e)
    ensures Inv(Step(cfg, w, e).0)
  {
    match e
    case Begin(read, r, now) => StartKeeps(cfg, w, read, r, now);
    case Complete(read, load, id) => FinishKeeps(cfg, w, read, load, id);
    case Close(scope, view, at) => ReleaseKeeps(w, scope, view, at);
  }

  /** Every reachable state retains at most 8 generations and 32 MiB, its current-generation map
    * names only retained ones, and nothing of a closed Attention view is retained. */
  lemma {:induction false} RunKept<T(!new)>(cfg: Setup<T>, run: Run<T>, n: nat)
    requires IsRun(cfg, run) && n < |run.worlds|
    ensures Inv(run.worlds[n])
  {
    if n > 0 {
      RunKept(cfg, run, n - 1);
      assert StepAt(cfg, run, n - 1);
      StepKeeps(cfg, run.worlds[n - 1], run.events[n - 1]);
      hide Step, Inv;
    } else {
      InitiallyGood<T>();
    }
  }

  lemma InitiallyGood<T>()
    ensures Inv(Initial<T>())
  {
  }
}
