/** The retained generations of navigation-query-store.ts: reads split at `loadIndex`, eviction,
  * expiry and the release of an Attention view. */
module QueryStore {
  import opened Prelude
  import opened QueryPages
  import opened StableSort

  const IDLE_MS := 60_000
  const MAX_GENERATIONS := 8
  const MAX_RETAINED_BYTES := 32 * 1024 * 1024
  const MAX_LIFETIMES := 256
  const MAX_LIFETIME_BYTES := 256 * 1024

  datatype CursorText = Malformed | Encoded(cursor: Cursor)

  /** A view lifetime is an object that reads in flight keep hold of, so it has an identity of its
    * own: `lifetimes` names the object of each view, `closedAt` is that object's field. */
  datatype State<T> =
    State(generations: seq<Generation<T>>, current: map<(string, string), string>,
          lifetimes: map<(string, string), nat>, closedAt: map<nat, int>)

  datatype Request<!T> =
    Request(scope: string, query: string, view: Option<string>, cursor: Option<CursorText>,
            pageSize: Option<int>, baseline: Option<string>, range: Option<RangeRequest>, anchor: Option<T -> bool>)

  datatype RangeRequest = RangeRequest(start: int, count: int, revision: string, ownerEpoch: string)

  datatype Setup<!T> = Setup(measure: Measure<T>, lifetimeBytes: set<(string, string)> -> nat, ownerEpoch: string)

  /** What a read holds while its index loads. */
  datatype Pending<!T> = Pending(request: Request<T>, now: int, lifetime: Option<nat>)

  datatype Started<!T> = Answered(answer: Answer<T>) | Loading(pending: Pending<T>)

  datatype Load<T> = Rejected | Index(projection: Option<Materialization<T>>)

  // ---- the retained list ----

  function Ids<T>(gs: seq<Generation<T>>): set<string> {
    set i | 0 <= i < |gs| :: gs[i].id
  }

  ghost predicate Distinct<T>(gs: seq<Generation<T>>) {
    forall i, j :: 0 <= i < j < |gs| ==> gs[i].id != gs[j].id
  }

  function Bytes<T>(gs: seq<Generation<T>>): nat {
    if gs == [] then 0 else Bytes(gs[..|gs| - 1]) + gs[|gs| - 1].content.bytes
  }

  function Keep<T>(gs: seq<Generation<T>>, keep: Generation<T> -> bool): seq<Generation<T>> {
    if gs == [] then []
    else
      var last := gs[|gs| - 1];
      var front := Keep(gs[..|gs| - 1], keep);
      if keep(last) then front + [last] else front
  }

  function Delete<T>(gs: seq<Generation<T>>, id: string): seq<Generation<T>> {
    Keep(gs, (g: Generation<T>) => g.id != id)
  }

  function Lookup<T>(gs: seq<Generation<T>>, id: string): Option<Generation<T>> {
    if gs == [] then None
    else if gs[|gs| - 1].id == id then Some(gs[|gs| - 1])
    else Lookup(gs[..|gs| - 1], id)
  }

  function Touch<T>(gs: seq<Generation<T>>, id: string, now: int): seq<Generation<T>> {
    seq(|gs|, i requires 0 <= i < |gs| => if gs[i].id == id then gs[i].(lastAccess := now) else gs[i])
  }

  /** Drops the current entries of generations that are gone. */
  function Pruned(current: map<(string, string), string>, ids: set<string>): map<(string, string), string> {
    map key | key in current && current[key] in ids :: current[key]
  }

  // ---- eviction ----

  predicate Full<T>(gs: seq<Generation<T>>, incoming: Generation<T>) {
    |gs| >= MAX_GENERATIONS || Bytes(gs) + incoming.content.bytes > MAX_RETAINED_BYTES
  }

  /** Superseded before current, then the least recently used. */
  function Victims(currentIds: set<string>, left: Generation, right: Generation): int {
    if (left.id in currentIds) != (right.id in currentIds) then (if left.id in currentIds then 1 else -1)
    else left.lastAccess - right.lastAccess
  }

  function EvictionOrder<T>(s: State<T>): seq<Generation<T>> {
    Sort(s.generations, (left: Generation<T>, right: Generation<T>) => Victims(s.current.Values, left, right))
  }

  function Evict<T>(gs: seq<Generation<T>>, evictable: seq<Generation<T>>, incoming: Generation<T>): seq<Generation<T>>
    decreases |evictable|
  {
    if !Full(gs, incoming) || evictable == [] then gs
    else Evict(Delete(gs, evictable[0].id), evictable[1..], incoming)
  }

  function Retain<T>(s: State<T>, g: Generation<T>): State<T> {
    var kept := Evict(s.generations, EvictionOrder(s), g);
    s.(generations := kept + [g], current := Pruned(s.current, Ids(kept)))
  }

  function Expire<T>(s: State<T>, now: int): State<T> {
    var kept := Keep(s.generations, (g: Generation<T>) => now - g.lastAccess <= IDLE_MS);
    s.(generations := kept, current := Pruned(s.current, Ids(kept)),
       lifetimes := map key |
         key in s.lifetimes && !(s.lifetimes[key] in s.closedAt && now - s.closedAt[s.lifetimes[key]] > IDLE_MS)
         :: s.lifetimes[key])
  }

  function Release<T>(s: State<T>, scope: string, view: string, now: int): State<T> {
    var kept := Keep(s.generations, (g: Generation<T>) => !(g.scope == scope && g.view == Some(view)));
    s.(generations := kept, current := Pruned(s.current, Ids(kept)),
       closedAt := if (scope, view) in s.lifetimes then s.closedAt[s.lifetimes[(scope, view)] := now] else s.closedAt)
  }

  // ---- a read up to its index ----

  predicate ValidRequest(r: Request) {
    && (r.pageSize.Some? ==> 1 <= r.pageSize.value <= MAX_PAGE_ROWS)
    && (r.range.Some? ==> r.cursor.None? && r.baseline.None? && r.range.value.start >= 0 && r.range.value.count >= 1)
    && (r.anchor.Some? ==> r.cursor.None? && r.baseline.None?)
  }

  function PageSize(r: Request): nat
    requires ValidRequest(r)
  {
    r.pageSize.GetOr(MAX_PAGE_ROWS)
  }

  /** The lifetime a read belongs to; a view seen for the first time gets the object `fresh`. */
  function Admit<T>(cfg: Setup<T>, s: State<T>, r: Request<T>, token: nat): Option<State<T>> {
    if r.view.None? || (r.scope, r.view.value) in s.lifetimes then Some(s)
    else
      var key := (r.scope, r.view.value);
      if |s.lifetimes| >= MAX_LIFETIMES || cfg.lifetimeBytes(s.lifetimes.Keys + {key}) > MAX_LIFETIME_BYTES then None
      else Some(s.(lifetimes := s.lifetimes[key := token]))
  }

  function CursorRead<T>(cfg: Setup<T>, s: State<T>, r: Request<T>, text: CursorText, now: int): (State<T>, Answer<T>)
    requires ValidRequest(r)
  {
    if text.Malformed? || text.cursor.scope != r.scope || text.cursor.query != r.query then (s, Refused(InvalidRequest))
    else
      match Lookup(s.generations, text.cursor.generation)
      case None => (s, Refused(CursorExpired))
      case Some(g) =>
        if g.scope != r.scope || g.content.query != r.query then (s, Refused(InvalidRequest))
        else (s.(generations := Touch(s.generations, g.id, now)),
              PageOf(cfg.measure, g, text.cursor.offset, PageSize(r)))
  }

  function Lifetime<T>(s: State<T>, r: Request<T>): Option<nat>
    requires r.view.Some? ==> (r.scope, r.view.value) in s.lifetimes
  {
    if r.view.None? then None else Some(s.lifetimes[(r.scope, r.view.value)])
  }

  /** A read whose view lifetime is settled: it fails, waits for its index or serves its cursor. */
  function Opened<T>(cfg: Setup<T>, s: State<T>, r: Request<T>, now: int): (State<T>, Started<T>)
    requires ValidRequest(r) && (r.view.Some? ==> (r.scope, r.view.value) in s.lifetimes)
  {
    var lifetime := Lifetime(s, r);
    if lifetime.Some? && lifetime.value in s.closedAt then (s, Answered(Refused(InvalidRequest)))
    else if r.cursor.None? then (s, Loading(Pending(r, now, lifetime)))
    else
      var (after, answer) := CursorRead(cfg, s, r, r.cursor.value, now);
      (after, Answered(answer))
  }

  function Start<T>(cfg: Setup<T>, s: State<T>, r: Request<T>, now: int, token: nat): (State<T>, Started<T>) {
    if !ValidRequest(r) then (s, Answered(Refused(InvalidRequest)))
    else
      var expired := Expire(s, now);
      match Admit(cfg, expired, r, token)
      case None => (expired, Answered(Refused(Busy)))
      case Some(open) => Opened(cfg, open, r, now)
  }

  // ---- the rest of the read ----

  /** The generation a loaded index is served from: the current one when nothing changed. */
  function Chosen<T>(s: State<T>, p: Pending<T>, m: Materialization<T>, id: string): (g: Generation<T>)
  {
    var key := (p.request.scope, p.request.query);
    var current := if key in s.current then Lookup(s.generations, s.current[key]) else None;
    if current.Some? && current.value.content.revision == m.revision then current.value
    else Generation(id, p.request.scope, p.request.view, m, p.now)
  }

  function Unchanged<T>(g: Generation<T>): Page<T> {
    Page(g.id, 0, [], None, true, true, None)
  }

  function FindIndex<T>(rows: seq<T>, matches: T -> bool, from: nat): Option<nat>
    requires from <= |rows|
    decreases |rows| - from
  {
    if from == |rows| then None
    else if matches(rows[from]) then Some(from)
    else FindIndex(rows, matches, from + 1)
  }

  /** A page without rows that vouches for a range the viewer already holds. */
  function RangePage<T>(measure: Measure<T>, g: Generation<T>, range: RangeRequest): Answer<T>
    requires range.start >= 0 && range.count >= 1
  {
    if range.start + range.count > |g.content.rows| then Refused(InvalidRequest)
    else
      match PageOf(measure, g, range.start + range.count, 0)
      case Refused(error) => Refused(error)
      case Served(built) =>
        var page := built.(start := range.start, range := Some(Range(range.start, range.count)));
        if Fits(measure, g, page) then Served(page) else Refused(ResponseTooLarge)
  }

  predicate RangeMatches(cfg: Setup, r: Request, g: Generation) {
    r.range.Some? && r.range.value.revision == g.content.revision && r.range.value.ownerEpoch == cfg.ownerEpoch
  }

  function Offset<T>(r: Request<T>, g: Generation<T>): Option<nat> {
    if r.anchor.None? then Some(0) else FindIndex(g.content.rows, r.anchor.value, 0)
  }

  /** The page of a loaded read, and whether the generation counts as accessed. */
  function LoadedPage<T>(cfg: Setup<T>, r: Request<T>, g: Generation<T>): (Answer<T>, bool)
    requires ValidRequest(r)
  {
    if r.baseline == Some(g.content.revision) then
      var page := Unchanged(g);
      if Fits(cfg.measure, g, page) then (Served(page), true) else (Refused(ResponseTooLarge), false)
    else if RangeMatches(cfg, r, g) then
      var answer := RangePage(cfg.measure, g, r.range.value);
      (answer, answer.Served?)
    else
      match Offset(r, g)
      case None => (Refused(AnchorMissing), false)
      case Some(offset) => (PageOf(cfg.measure, g, offset, PageSize(r)), true)
  }

  /** Only an issued cursor keeps its generation. */
  function Settle<T>(s: State<T>, p: Pending<T>, g: Generation<T>, answer: Answer<T>, accessed: bool): State<T> {
    var touched := if accessed then s.(generations := Touch(s.generations, g.id, p.now)) else s;
    if g.id in Ids(s.generations) || answer.Refused? || answer.page.next.None? then touched
    else
      var kept := Retain(touched, g);
      kept.(current := kept.current[(p.request.scope, p.request.query) := g.id])
  }

  function Finish<T>(cfg: Setup<T>, s: State<T>, p: Pending<T>, load: Load<T>, id: string): (State<T>, Answer<T>)
    requires ValidRequest(p.request)
  {
    if load.Rejected? then (s, Refused(LoadFailed))
    else if p.lifetime.Some? && p.lifetime.value in s.closedAt then (s, Refused(InvalidRequest))
    else if load.projection.None? then (s, Refused(LoadFailed))
    else if load.projection.value.bytes > MAX_RETAINED_BYTES then (s, Refused(Busy))
    else
      var g := Chosen(s, p, load.projection.value, id);
      var (answer, accessed) := LoadedPage(cfg, p.request, g);
      (Settle(s, p, g, answer, accessed), answer)
  }
}
