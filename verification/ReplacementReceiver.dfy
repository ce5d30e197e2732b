/** Paged snapshots that stage privately until they are whole: federation-replacement-receiver.ts. */
module ReplacementReceiver {
  import opened Prelude

  const REPLACEMENT_MAX_BYTES := 16 * 1024 * 1024
  const REPLACEMENT_MAX_PAGES := 256
  const PAGE_MAX_BYTES := 256 * 1024
  const PAGE_MAX_ENTRIES := 100
  const GENERATION_MAX_LENGTH := 128
  const STAGING_TTL_MS := 10_000

  /** A message that has the types of a page, or one that does not. */
  datatype Page<T> = Page(generation: string, index: int, total: int, entries: seq<T>) | Malformed

  datatype Staging<T> =
    Staging(generation: string, total: int, next: nat, expiresAt: int, bytes: nat, entries: seq<T>)

  datatype State<T> = State(pending: Option<Staging<T>>, completed: Option<string>)

  datatype Error = InvalidPage | PageTooLarge | IncompleteSequence | StagingTooLarge

  datatype Answer<T> = Nothing | Snapshot(entries: seq<T>) | Rejected(error: Error)

  /** The serialized size of a page. */
  type Measure<!T> = Page<T> -> nat

  predicate Valid(page: Page) {
    && page.Page?
    && |page.generation| <= GENERATION_MAX_LENGTH
    && 1 <= page.total <= REPLACEMENT_MAX_PAGES && 0 <= page.index < page.total
    && |page.entries| <= PAGE_MAX_ENTRIES
  }

  function Expired<T>(s: State<T>, now: int): State<T> {
    if s.pending.Some? && now >= s.pending.value.expiresAt then s.(pending := None) else s
  }

  function Dropped<T>(s: State<T>, error: Error): (State<T>, Answer<T>) {
    (s.(pending := None), Rejected(error))
  }

  predicate Restarts<T>(s: State<T>, page: Page<T>)
    requires page.Page?
  {
    page.index == 0 && (s.pending.None? || s.pending.value.generation != page.generation)
  }

  function Started<T>(s: State<T>, page: Page<T>, now: int): State<T>
    requires page.Page?
  {
    if Restarts(s, page) then
      s.(pending := Some(Staging(page.generation, page.total, 0, now + STAGING_TTL_MS, 0, [])))
    else s
  }

  /** The next page of the staged generation. */
  function Staged<T>(s: State<T>, p: Staging<T>, page: Page<T>, bytes: nat): (State<T>, Answer<T>)
    requires page.Page?
  {
    if p.bytes + bytes > REPLACEMENT_MAX_BYTES then Dropped(s, StagingTooLarge)
    else
      var more := p.(bytes := p.bytes + bytes, entries := p.entries + page.entries, next := p.next + 1);
      if more.next != more.total then (s.(pending := Some(more)), Nothing)
      else (State(None, Some(page.generation)), Snapshot(more.entries))
  }

  function Continued<T>(s: State<T>, page: Page<T>, bytes: nat): (State<T>, Answer<T>)
    requires page.Page?
  {
    if s.pending.None? || s.pending.value.generation != page.generation then (s, Nothing)
    else
      var p := s.pending.value;
      if page.total != p.total || page.index > p.next then Dropped(s, IncompleteSequence)
      else if page.index < p.next then (s, Nothing)
      else Staged(s, p, page, bytes)
  }

  function Accepted<T>(measure: Measure<T>, s: State<T>, page: Page<T>, now: int): (State<T>, Answer<T>) {
    var live := Expired(s, now);
    if !Valid(page) then Dropped(live, InvalidPage)
    else if live.completed == Some(page.generation) then (live, Nothing)
    else if measure(page) > PAGE_MAX_BYTES then Dropped(live, PageTooLarge)
    else Continued(Started(live, page, now), page, measure(page))
  }

  class FederationReplacementReceiver<T> {
    const measure: Measure<T>
    var pending: Option<Staging<T>>
    var completed: Option<string>

    ghost function Contents(): State<T>
      reads this
    {
      State(pending, completed)
    }

    constructor (measure: Measure<T>)
      ensures Contents() == State(None, None) && this.measure == measure
    {
      this.measure, pending, completed := measure, None, None;
    }

    method Clear()
      modifies this
      ensures Contents() == State(None, None)
    {
      pending, completed := None, None;
    }

    method Accept(page: Page<T>, now: int) returns (answer: Answer<T>)
      modifies this
      ensures (Contents(), answer) == Accepted(measure, old(Contents()), page, now)
    {
      if pending.Some? && now >= pending.value.expiresAt {
        pending := None;
      }
      if !Valid(page) {
        pending := None;
        return Rejected(InvalidPage);
      }
      if completed == Some(page.generation) {
        return Nothing;
      }
      var bytes := measure(page);
      if bytes > PAGE_MAX_BYTES {
        pending := None;
        return Rejected(PageTooLarge);
      }
      if page.index == 0 && (pending.None? || pending.value.generation != page.generation) {
        pending := Some(Staging(page.generation, page.total, 0, now + STAGING_TTL_MS, 0, []));
      }
      if pending.None? || pending.value.generation != page.generation {
        return Nothing;
      }
      var p := pending.value;
      if page.total != p.total || page.index > p.next {
        pending := None;
        return Rejected(IncompleteSequence);
      }
      if page.index < p.next {
        return Nothing;
      }
      if p.bytes + bytes > REPLACEMENT_MAX_BYTES {
        pending := None;
        return Rejected(StagingTooLarge);
      }
      p := p.(bytes := p.bytes + bytes, entries := p.entries + page.entries, next := p.next + 1);
      pending := Some(p);
      if p.next != p.total {
        return Nothing;
      }
      pending := None;
      completed := Some(page.generation);
      answer := Snapshot(p.entries);
    }
  }

  // ---- runs ----

  datatype Event<T> = Receive(page: Page<T>, now: int) | Clear

  function Step<T>(measure: Measure<T>, s: State<T>, e: Event<T>): (State<T>, Answer<T>) {
    match e
    case Clear => (State(None, None), Nothing)
    case Receive(page, now) => Accepted(measure, s, page, now)
  }

  function At<T>(measure: Measure<T>, events: seq<Event<T>>, n: nat): State<T>
    requires n <= |events|
  {
    if n == 0 then State(None, None) else Step(measure, At(measure, events, n - 1), events[n - 1]).0
  }

  function AnswerAt<T>(measure: Measure<T>, events: seq<Event<T>>, i: nat): Answer<T>
    requires i < |events|
  {
    Step(measure, At(measure, events, i), events[i]).1
  }

  predicate IsPage<T>(e: Event<T>, generation: string, index: int) {
    e.Receive? && e.page.Page? && e.page.generation == generation && e.page.index == index
  }

  /** The first page of a generation with some index among the events `from..n`. */
  function First<T>(events: seq<Event<T>>, from: nat, n: nat, generation: string, index: int): (first: Option<nat>)
    requires from <= n <= |events|
    ensures first.Some? ==> from <= first.value < n && IsPage(events[first.value], generation, index)
    ensures first.Some? ==> forall k :: from <= k < first.value ==> !IsPage(events[k], generation, index)
    ensures first.None? ==> forall k :: from <= k < n ==> !IsPage(events[k], generation, index)
  {
    if from == n then None
    else
      var earlier := First(events, from, n - 1, generation, index);
      if earlier.Some? then earlier else if IsPage(events[n - 1], generation, index) then Some(n - 1) else None
  }

  /** The first pages 0, 1, …, `count - 1`, in order. */
  function Gathered<T>(events: seq<Event<T>>, from: nat, n: nat, generation: string, count: nat): seq<T>
    requires from <= n <= |events|
  {
    if count == 0 then []
    else
      var first := First(events, from, n, generation, count - 1);
      Gathered(events, from, n, generation, count - 1) + (if first.Some? then events[first.value].page.entries else [])
  }

  function Weight<T>(measure: Measure<T>, events: seq<Event<T>>, from: nat, n: nat, generation: string, count: nat): nat
    requires from <= n <= |events|
  {
    if count == 0 then 0
    else
      var first := First(events, from, n, generation, count - 1);
      Weight(measure, events, from, n, generation, count - 1)
        + (if first.Some? then measure(events[first.value].page) else 0)
  }

  ghost predicate AllSeen<T>(events: seq<Event<T>>, from: nat, n: nat, generation: string, count: nat)
    requires from <= n <= |events|
  {
    forall t :: 0 <= t < count ==> First(events, from, n, generation, t).Some?
  }

  /** An event is no page of the generation, or one that fits what was seen of it. */
  ghost predicate Fits<T>(e: Event<T>, generation: string, total: int, next: nat) {
    e.Receive? && e.page.Page? && e.page.generation == generation ==> e.page.total == total && 0 <= e.page.index < next
  }

  ghost predicate AllFit<T>(events: seq<Event<T>>, from: nat, n: nat, generation: string, total: int, next: nat)
    requires from <= n <= |events|
  {
    forall k :: from <= k < n ==> Fits(events[k], generation, total, next)
  }

  /** `entries` are those of pages 0 to `count - 1` of a generation, each the first of its index
    * since event `from`, which was page 0; no other page of it was seen, and they are within the
    * byte budget. */
  ghost predicate Assembled<T>(measure: Measure<T>, events: seq<Event<T>>, from: nat, n: nat, generation: string,
                               total: int, count: nat, entries: seq<T>)
    requires from <= n <= |events|
  {
    && from < n && IsPage(events[from], generation, 0) && 0 < count <= total
    && AllSeen(events, from, n, generation, count) && AllFit(events, from, n, generation, total, count)
    && entries == Gathered(events, from, n, generation, count)
    && Weight(measure, events, from, n, generation, count) <= REPLACEMENT_MAX_BYTES
  }

  /** What is staged was assembled since event `from`, which set its expiry. */
  ghost predicate Since<T>(measure: Measure<T>, events: seq<Event<T>>, from: nat, n: nat, p: Staging<T>)
    requires from <= n <= |events|
  {
    && Assembled(measure, events, from, n, p.generation, p.total, p.next, p.entries)
    && p.next < p.total && p.bytes == Weight(measure, events, from, n, p.generation, p.next)
    && p.expiresAt == events[from].now + STAGING_TTL_MS
  }

  ghost predicate Inv<T>(measure: Measure<T>, events: seq<Event<T>>, n: nat, s: State<T>)
    requires n <= |events|
  {
    s.pending.Some? ==>
      && s.completed != Some(s.pending.value.generation)
      && exists from: nat :: from <= n && Since(measure, events, from, n, s.pending.value)
  }

  /** A snapshot: assembled from exactly its `total` pages, the last of them at event `i`, within
    * ten seconds of the first. */
  ghost predicate Whole<T>(measure: Measure<T>, events: seq<Event<T>>, from: nat, i: nat, entries: seq<T>)
    requires from <= i < |events|
  {
    && events[i].Receive? && events[i].page.Page? && events[from].Receive?
         && events[i].now < events[from].now + STAGING_TTL_MS
    && var page := events[i].page;
    && page.total > 0 && Assembled(measure, events, from, i + 1, page.generation, page.total, page.total, entries)
    && First(events, from, i + 1, page.generation, page.total - 1) == Some(i)
  }

  // ---- what one more event leaves of the first pages ----

  lemma {:induction false} GatheredStays<T>(measure: Measure<T>, events: seq<Event<T>>, from: nat, n: nat,
                                            generation: string, count: nat)
    requires from <= n < |events| && AllSeen(events, from, n, generation, count)
    ensures AllSeen(events, from, n + 1, generation, count)
    ensures Gathered(events, from, n + 1, generation, count) == Gathered(events, from, n, generation, count)
    ensures Weight(measure, events, from, n + 1, generation, count) ==
      Weight(measure, events, from, n, generation, count)
  {
    if count > 0 {
      GatheredStays(measure, events, from, n, generation, count - 1);
      assert First(events, from, n, generation, count - 1).Some?;
    }
  }

  lemma FitsNext<T>(events: seq<Event<T>>, from: nat, n: nat, generation: string, total: int, next: nat, more: nat)
    requires from <= n < |events| && AllFit(events, from, n, generation, total, next) && next <= more
    requires Fits(events[n], generation, total, more)
    ensures AllFit(events, from, n + 1, generation, total, more)
  {
    forall k | from <= k < n + 1 ensures Fits(events[k], generation, total, more) {
      if k < n { assert Fits(events[k], generation, total, next); }
    }
  }

  /** An event that is no page of the staged generation, or a repeated one, changes nothing. */
  lemma SinceStays<T>(measure: Measure<T>, events: seq<Event<T>>, from: nat, n: nat, p: Staging<T>)
    requires from <= n < |events| && Since(measure, events, from, n, p)
      && Fits(events[n], p.generation, p.total, p.next)
    ensures Since(measure, events, from, n + 1, p)
  {
    GatheredStays(measure, events, from, n, p.generation, p.next);
    FitsNext(events, from, n, p.generation, p.total, p.next, p.next);
  }

  lemma NotSeenYet<T>(events: seq<Event<T>>, from: nat, n: nat, generation: string, total: int, next: nat)
    requires from <= n < |events| && AllFit(events, from, n, generation, total, next)
      && IsPage(events[n], generation, next)
    ensures First(events, from, n + 1, generation, next) == Some(n)
  {
    forall k | from <= k < n ensures !IsPage(events[k], generation, next) {
      assert Fits(events[k], generation, total, next);
    }
    assert First(events, from, n, generation, next).None?;
  }

  lemma SeenMore<T>(events: seq<Event<T>>, from: nat, n: nat, generation: string, count: nat)
    requires from <= n <= |events| && AllSeen(events, from, n, generation, count)
      && First(events, from, n, generation, count).Some?
    ensures AllSeen(events, from, n, generation, count + 1)
  {
  }

  /** The expected page extends what is staged. */
  lemma SinceGrows<T>(measure: Measure<T>, events: seq<Event<T>>, from: nat, n: nat, p: Staging<T>)
    requires from <= n < |events| && Since(measure, events, from, n, p) && IsPage(events[n], p.generation, p.next)
    requires events[n].page.total == p.total && p.bytes + measure(events[n].page) <= REPLACEMENT_MAX_BYTES
    ensures First(events, from, n + 1, p.generation, p.next) == Some(n)
    ensures Assembled(measure, events, from, n + 1, p.generation, p.total, p.next + 1,
                      p.entries + events[n].page.entries)
    ensures Weight(measure, events, from, n + 1, p.generation, p.next + 1) == p.bytes + measure(events[n].page)
  {
    GatheredStays(measure, events, from, n, p.generation, p.next);
    NotSeenYet(events, from, n, p.generation, p.total, p.next);
    FitsNext(events, from, n, p.generation, p.total, p.next, p.next + 1);
    SeenMore(events, from, n + 1, p.generation, p.next);
  }

  /** A page 0 starts a staging of its own. */
  lemma SinceBegins<T>(measure: Measure<T>, events: seq<Event<T>>, n: nat)
    requires n < |events| && events[n].Receive? && events[n].page.Page? && events[n].page.index == 0
    requires events[n].page.total > 0 && measure(events[n].page) <= REPLACEMENT_MAX_BYTES
    ensures var page := events[n].page;
      && First(events, n, n + 1, page.generation, 0) == Some(n)
      && Assembled(measure, events, n, n + 1, page.generation, page.total, 1, page.entries)
      && Weight(measure, events, n, n + 1, page.generation, 1) == measure(page)
  {
    var page := events[n].page;
    NotSeenYet(events, n, n, page.generation, page.total, 0);
    assert Gathered(events, n, n + 1, page.generation, 0) == [];
    assert AllFit(events, n, n + 1, page.generation, page.total, 1);
  }

  // ---- every run ----

  lemma ExpiredKeeps<T>(measure: Measure<T>, events: seq<Event<T>>, n: nat, s: State<T>, now: int)
    requires n <= |events| && Inv(measure, events, n, s)
    ensures Inv(measure, events, n, Expired(s, now))
  {
  }

  /** What staging a page establishes. */
  ghost predicate Kept<T>(measure: Measure<T>, events: seq<Event<T>>, i: nat, result: (State<T>, Answer<T>))
    requires i < |events|
  {
    && Inv(measure, events, i + 1, result.0)
    && (result.1.Snapshot? ==>
          && events[i].Receive? && events[i].page.Page? && result.0 == State(None, Some(events[i].page.generation))
          && exists from: nat :: from <= i && Whole(measure, events, from, i, result.1.entries))
  }

  lemma OtherKeeps<T>(measure: Measure<T>, events: seq<Event<T>>, n: nat, s: State<T>)
    requires n < |events| && Inv(measure, events, n, s)
    requires s.pending.Some? ==> Fits(events[n], s.pending.value.generation, s.pending.value.total,
                                      s.pending.value.next)
    ensures Kept(measure, events, n, (s, Nothing))
  {
    if s.pending.Some? {
      var from: nat :| from <= n && Since(measure, events, from, n, s.pending.value);
      SinceStays(measure, events, from, n, s.pending.value);
    }
  }

  lemma FirstKeeps<T>(measure: Measure<T>, events: seq<Event<T>>, n: nat, s: State<T>)
    requires n < |events| && events[n].Receive? && Valid(events[n].page) && events[n].page.index == 0
    requires s.completed != Some(events[n].page.generation) && measure(events[n].page) <= PAGE_MAX_BYTES
    requires Restarts(s, events[n].page)
    ensures var page := events[n].page;
      Kept(measure, events, n, Continued(Started(s, page, events[n].now), page, measure(page)))
  {
    var page, now := events[n].page, events[n].now;
    SinceBegins(measure, events, n);
    if page.total == 1 {
      assert Whole(measure, events, n, n, [] + page.entries);
    } else {
      var p := Staging(page.generation, page.total, 1, now + STAGING_TTL_MS, measure(page), [] + page.entries);
      assert [] + page.entries == page.entries;
      assert Since(measure, events, n, n + 1, p);
    }
  }

  lemma NextKeeps<T>(measure: Measure<T>, events: seq<Event<T>>, n: nat, s: State<T>)
    requires n < |events| && events[n].Receive? && Valid(events[n].page) && Inv(measure, events, n, s)
      && s.pending.Some?
    requires var page, p := events[n].page, s.pending.value;
      page.generation == p.generation && page.total == p.total && page.index == p.next && events[n].now < p.expiresAt
    ensures Kept(measure, events, n, Staged(s, s.pending.value, events[n].page, measure(events[n].page)))
  {
    hide Gathered, Weight, First, AllSeen, AllFit;
    var page, p := events[n].page, s.pending.value;
    if p.bytes + measure(page) <= REPLACEMENT_MAX_BYTES {
      var from: nat :| from <= n && Since(measure, events, from, n, p);
      SinceGrows(measure, events, from, n, p);
      if p.next + 1 == p.total {
        assert Whole(measure, events, from, n, p.entries + page.entries);
      } else {
        var more := p.(bytes := p.bytes + measure(page), entries := p.entries + page.entries, next := p.next + 1);
        assert Since(measure, events, from, n + 1, more);
      }
    }
  }

  lemma ContinuedKeeps<T>(measure: Measure<T>, events: seq<Event<T>>, n: nat, s: State<T>)
    requires n < |events| && events[n].Receive? && Valid(events[n].page) && Inv(measure, events, n, s)
    requires s.completed != Some(events[n].page.generation) && !Restarts(s, events[n].page)
    requires s.pending.Some? ==> events[n].now < s.pending.value.expiresAt
    ensures Kept(measure, events, n, Continued(s, events[n].page, measure(events[n].page)))
  {
    hide Since;
    var page := events[n].page;
    if s.pending.None? || s.pending.value.generation != page.generation
      || (page.total == s.pending.value.total && page.index < s.pending.value.next) {
      OtherKeeps(measure, events, n, s);
    } else if page.total == s.pending.value.total && page.index == s.pending.value.next {
      NextKeeps(measure, events, n, s);
    }
  }

  lemma AcceptedKeeps<T>(measure: Measure<T>, events: seq<Event<T>>, n: nat, s: State<T>)
    requires n < |events| && events[n].Receive? && Inv(measure, events, n, s)
    ensures Kept(measure, events, n, Accepted(measure, s, events[n].page, events[n].now))
  {
    hide Since, Continued, Valid;
    var page, now := events[n].page, events[n].now;
    var live := Expired(s, now);
    ExpiredKeeps(measure, events, n, s, now);
    if Valid(page) {
      IsWellTyped(page);
      if live.completed == Some(page.generation) {
        OtherKeeps(measure, events, n, live);
      } else if measure(page) <= PAGE_MAX_BYTES {
        if Restarts(live, page) {
          FirstKeeps(measure, events, n, live);
        } else {
          ContinuedKeeps(measure, events, n, live);
        }
      }
    }
  }

  lemma IsWellTyped<T>(page: Page<T>)
    requires Valid(page)
    ensures page.Page?
  {
  }

  lemma {:induction false} RunKept<T>(measure: Measure<T>, events: seq<Event<T>>, n: nat)
    requires n <= |events|
    ensures Inv(measure, events, n, At(measure, events, n))
  {
    if n > 0 {
      hide Accepted, Since;
      RunKept(measure, events, n - 1);
      if events[n - 1].Receive? {
        AcceptedKeeps(measure, events, n - 1, At(measure, events, n - 1));
      }
    }
  }

  /** A snapshot escapes only as the entries of pages 0 to `total - 1` of one generation in order,
    * each as first received since its staging began, within the byte budget and ten seconds. */
  lemma SnapshotsAreWhole<T>(measure: Measure<T>, events: seq<Event<T>>, i: nat)
    requires i < |events| && AnswerAt(measure, events, i).Snapshot?
    ensures exists from: nat :: from <= i && Whole(measure, events, from, i, AnswerAt(measure, events, i).entries)
  {
    RunKept(measure, events, i);
    AcceptedKeeps(measure, events, i, At(measure, events, i));
  }

  lemma CompletesOnly<T>(measure: Measure<T>, s: State<T>, e: Event<T>)
    ensures var (after, answer) := Step(measure, s, e);
      && (!answer.Snapshot? && !e.Clear? ==> after.completed == s.completed)
      && (answer.Snapshot? ==>
           e.Receive? && e.page.Page? && after.completed == Some(e.page.generation) && s.completed != after.completed)
  {
  }

  lemma {:induction false} StaysCompleted<T>(measure: Measure<T>, events: seq<Event<T>>, i: nat, j: nat)
    requires i <= j <= |events|
    requires forall k :: i <= k < j ==> !events[k].Clear? && !AnswerAt(measure, events, k).Snapshot?
    ensures At(measure, events, j).completed == At(measure, events, i).completed
    decreases j - i
  {
    if i < j {
      StaysCompleted(measure, events, i, j - 1);
      assert !AnswerAt(measure, events, j - 1).Snapshot?;
      CompletesOnly(measure, At(measure, events, j - 1), events[j - 1]);
    }
  }

  /** The same generation is not returned again until another completes or `clear` is called. */
  lemma NotTwice<T>(measure: Measure<T>, events: seq<Event<T>>, i: nat, j: nat)
    requires i < j < |events| && AnswerAt(measure, events, i).Snapshot? && AnswerAt(measure, events, j).Snapshot?
    requires forall k :: i < k < j ==> !events[k].Clear? && !AnswerAt(measure, events, k).Snapshot?
    ensures events[i].Receive? && events[j].Receive? && events[i].page.Page? && events[j].page.Page?
    ensures events[i].page.generation != events[j].page.generation
  {
    hide Step;
    CompletesOnly(measure, At(measure, events, i), events[i]);
    CompletesOnly(measure, At(measure, events, j), events[j]);
    StaysCompleted(measure, events, i + 1, j);
  }

  // ---- what gets through ----

  /** The pages of one generation in order, from event `n` on, the first `count` of them. */
  ghost predicate InOrder<T>(measure: Measure<T>, events: seq<Event<T>>, n: nat, count: nat, generation: string,
                             total: int)
    requires n + count <= |events|
  {
    forall i :: n <= i < n + count ==> OrderedPage(measure, events[i], i - n, generation, total)
  }

  /** A page within every bound of its own. */
  ghost predicate OrderedPage<T>(measure: Measure<T>, e: Event<T>, index: int, generation: string, total: int) {
    && IsPage(e, generation, index) && e.page.total == total && 1 <= total <= 256 && 0 <= index < total
    && |generation| <= 128 && |e.page.entries| <= 100 && measure(e.page) <= 262_144
  }

  /** Nothing in the way: the generation is neither staged nor the last one completed, its pages are within
    * the byte budget together, and they arrive within ten seconds. */
  ghost predicate Admissible<T>(measure: Measure<T>, events: seq<Event<T>>, n: nat, total: nat, generation: string)
    requires 0 < total && n + total <= |events|
  {
    && events[n].Receive? && New(At(measure, events, n), generation, events[n].now)
    && BytesOf(measure, events, n, total) <= 16 * 1024 * 1024
    && forall i :: n <= i < n + total ==> events[i].Receive? && events[i].now < events[n].now + 10_000
  }

  function EntriesOf<T>(events: seq<Event<T>>, n: nat, count: nat): seq<T>
    requires n + count <= |events|
  {
    if count == 0 then []
    else
      var e := events[n + count - 1];
      EntriesOf(events, n, count - 1) + (if e.Receive? && e.page.Page? then e.page.entries else [])
  }

  function BytesOf<T>(measure: Measure<T>, events: seq<Event<T>>, n: nat, count: nat): nat
    requires n + count <= |events|
  {
    if count == 0 then 0
    else
      var e := events[n + count - 1];
      BytesOf(measure, events, n, count - 1) + (if e.Receive? then measure(e.page) else 0)
  }

  /** The generation is neither staged nor the last one completed. */
  ghost predicate New<T>(s: State<T>, generation: string, now: int) {
    && s.completed != Some(generation)
    && (s.pending.Some? ==> s.pending.value.generation != generation || now >= s.pending.value.expiresAt)
  }

  lemma {:induction false} BytesGrow<T>(measure: Measure<T>, events: seq<Event<T>>, n: nat, count: nat, total: nat)
    requires count <= total && n + total <= |events|
    ensures BytesOf(measure, events, n, count) <= BytesOf(measure, events, n, total)
    decreases total - count
  {
    if count < total {
      BytesGrow(measure, events, n, count, total - 1);
    }
  }

  /** What the staging or the snapshot is after a page: it grows until it is whole. */
  function After<T>(completed: Option<string>, p: Staging<T>): (State<T>, Answer<T>) {
    if p.next == p.total then (State(None, Some(p.generation)), Snapshot(p.entries))
    else (State(Some(p), completed), Nothing)
  }

  lemma StartsStaging<T>(measure: Measure<T>, s: State<T>, e: Event<T>, generation: string, total: int)
    requires OrderedPage(measure, e, 0, generation, total) && New(s, generation, e.now)
    ensures Step(measure, s, e) ==
      After(s.completed, Staging(generation, total, 1, e.now + 10_000, measure(e.page), e.page.entries))
  {
    assert [] + e.page.entries == e.page.entries;
  }

  lemma GoesOnStaging<T>(measure: Measure<T>, s: State<T>, e: Event<T>, p: Staging<T>)
    requires s.pending == Some(p) && s.completed != Some(p.generation)
    requires OrderedPage(measure, e, p.next, p.generation, p.total)
    requires e.now < p.expiresAt && p.bytes + measure(e.page) <= 16 * 1024 * 1024
    ensures Step(measure, s, e) ==
      After(s.completed, p.(next := p.next + 1, bytes := p.bytes + measure(e.page), entries := p.entries
        + e.page.entries))
  {
  }

  lemma NotCompleted<T>(s: State<T>, generation: string, now: int)
    requires New(s, generation, now)
    ensures s.completed != Some(generation)
  {
  }

  /** What the first `count` pages make of the receiver, and what the last of them was answered. */
  lemma {:induction false} StagesInOrder<T>(measure: Measure<T>, events: seq<Event<T>>, n: nat, count: nat,
                                            generation: string, total: int)
    requires 0 < count <= total && n + total <= |events| && InOrder(measure, events, n, total, generation, total)
    requires Admissible(measure, events, n, total, generation)
    ensures (At(measure, events, n + count), AnswerAt(measure, events, n + count - 1)) ==
      After(At(measure, events, n).completed,
            Staging(generation, total, count, events[n].now + 10_000, BytesOf(measure, events, n, count),
                    EntriesOf(events, n, count)))
  {
    hide Step, New;
    var e := events[n + count - 1];
    assert OrderedPage(measure, events[n + count - 1], count - 1, generation, total);
    BytesGrow(measure, events, n, count, total);
    if count == 1 {
      assert [] + e.page.entries == e.page.entries;
      assert EntriesOf(events, n, 0) == [] && BytesOf(measure, events, n, 0) == 0;
      StartsStaging(measure, At(measure, events, n), e, generation, total);
    } else {
      StagesInOrder(measure, events, n, count - 1, generation, total);
      NotCompleted(At(measure, events, n), generation, events[n].now);
      GoesOnStaging(measure, At(measure, events, n + count - 1), e,
                    Staging(generation, total, count - 1, events[n].now
                      + 10_000, BytesOf(measure, events, n, count - 1),
                            EntriesOf(events, n, count - 1)));
    }
  }

  /** A whole set of pages in order, within the byte budget and ten seconds, is returned as its snapshot
    * with the last page, and with none before. */
  lemma WholeSetIsReturned<T>(measure: Measure<T>, events: seq<Event<T>>, n: nat, generation: string, total: int)
    requires 0 < total && n + total <= |events| && InOrder(measure, events, n, total, generation, total)
    requires Admissible(measure, events, n, total, generation)
    ensures AnswerAt(measure, events, n + total - 1) == Snapshot(EntriesOf(events, n, total))
    ensures At(measure, events, n + total) == State(None, Some(generation))
    ensures forall i :: n <= i < n + total - 1 ==> AnswerAt(measure, events, i) == Nothing
  {
    hide Step, Admissible, InOrder;
    forall i | n <= i < n + total - 1 ensures AnswerAt(measure, events, i) == Nothing {
      StagesInOrder(measure, events, n, i - n + 1, generation, total);
    }
    StagesInOrder(measure, events, n, total, generation, total);
  }

  // ---- what does not ----

  /** A page that says what it must and is within its own bounds. */
  predicate WellFormed<T>(page: Page<T>) {
    && page.Page? && |page.generation| <= 128 && 1 <= page.total <= 256 && 0 <= page.index < page.total
    && |page.entries| <= 100
  }

  /** Malformed and oversize pages, gaps and changed totals end the staging; repeated pages, pages of the
    * completed generation and later pages of an unknown one are ignored. */
  lemma OtherPages<T>(measure: Measure<T>, s: State<T>, page: Page<T>, now: int)
    ensures var (after, answer) := Accepted(measure, s, page, now);
      var staged := if s.pending.Some? && now < s.pending.value.expiresAt then s.pending else None;
      && (!WellFormed(page) ==> answer == Rejected(InvalidPage) && after == State(None, s.completed))
      && (WellFormed(page) && s.completed == Some(page.generation) ==>
            answer == Nothing && after == State(staged, s.completed))
      && (WellFormed(page) && s.completed != Some(page.generation) && measure(page) > 262_144 ==>
            answer == Rejected(PageTooLarge) && after == State(None, s.completed))
      && (WellFormed(page) && s.completed != Some(page.generation) && measure(page) <= 262_144 ==>
            && (page.index > 0 && (staged.None? || staged.value.generation != page.generation) ==>
                  answer == Nothing && after == State(staged, s.completed))
            && (staged.Some? && staged.value.generation == page.generation ==>
                  var p := staged.value;
                  && (page.total != p.total || page.index > p.next ==>
                        answer == Rejected(IncompleteSequence) && after == State(None, s.completed))
                  && (page.total == p.total && page.index < p.next ==>
                        answer == Nothing && after == State(staged, s.completed))
                  && (page.total == p.total && page.index == p.next && p.bytes + measure(page) > 16 * 1024 * 1024 ==>
                        answer == Rejected(StagingTooLarge) && after == State(None, s.completed))))
  {
  }

  /** Clearing forgets what is staged and what was completed. */
  lemma ClearForgets<T>(measure: Measure<T>, s: State<T>)
    ensures Step(measure, s, Clear) == (State(None, None), Nothing)
  {
  }
}
