/** The bounded raw output of terminal-replay.ts, and what a reader that follows its cursors gets. */
module TerminalReplay {
  import opened Prelude

  const RAW_LIMIT := 256 * 1024
  const MAX_FRAMES := 4096
  const MAX_READ := 64 * 1024
  const DEFAULT_READ := 16_384

  /** Output as UTF-16 units. */
  type Units = seq<nat>

  datatype Frame = Frame(number: nat, timestamp: int, data: Units)

  datatype State = State(frames: seq<Frame>, rawChars: int, latest: nat)

  function Chars(frames: seq<Frame>): nat {
    if frames == [] then 0 else |frames[0].data| + Chars(frames[1..])
  }

  // ---- append ----

  /** Whole frames go from the front until both bounds hold. */
  function Trim(frames: seq<Frame>): seq<Frame> {
    if frames != [] && (Chars(frames) > RAW_LIMIT || |frames| > MAX_FRAMES) then Trim(frames[1..]) else frames
  }

  function Appended(s: State, data: Units, timestamp: int): State {
    var frames := if |data| <= RAW_LIMIT then Trim(s.frames + [Frame(s.latest + 1, timestamp, data)]) else [];
    State(frames, Chars(frames), s.latest + 1)
  }

  // ---- read ----

  /** The `maxChars` argument, any JavaScript number. */
  datatype Wanted = Amount(value: real) | NaN | Infinite(positive: bool)

  function Limit(wanted: Wanted): (limit: nat)
    ensures 1 <= limit <= MAX_READ
  {
    match wanted
    case NaN => DEFAULT_READ
    case Infinite(positive) => if positive then MAX_READ else 1
    case Amount(value) =>
      var floor := value.Floor;
      Max(1, Min(MAX_READ, if floor == 0 then DEFAULT_READ else floor))
  }

  datatype Reply = Reply(frames: seq<Frame>, next: nat, truncated: bool, hasMore: bool)

  /** The sequence number before the first retained frame. */
  function Floor(s: State): int {
    (if s.frames != [] then s.frames[0].number else s.latest + 1) - 1
  }

  /** How many frames fit from the front of `frames`, when `chars` are in already. */
  function Fitting(frames: seq<Frame>, chars: nat, limit: nat): (n: nat)
    ensures n <= |frames|
  {
    if frames == [] || chars + |frames[0].data| > limit then 0
    else 1 + Fitting(frames[1..], chars + |frames[0].data|, limit)
  }

  /** The retained frames after a cursor. */
  function Unread(frames: seq<Frame>, after: int): seq<Frame> {
    if frames == [] then []
    else if frames[0].number <= after then Unread(frames[1..], after)
    else [frames[0]] + Unread(frames[1..], after)
  }

  /** A read from a cursor, or the error of an invalid one. */
  function Read(s: State, after: int, limit: nat): Option<Reply> {
    if after < 0 || after > s.latest then None
    else
      var unread := Unread(s.frames, after);
      var n := Fitting(unread, 0, limit);
      var start := Max(after, Floor(s));
      if n == 0 && unread != [] then
        Some(Reply([], unread[0].number, true, unread[0].number < s.latest))
      else
        var next := if n == 0 then start else unread[n - 1].number;
        Some(Reply(unread[..n], next, after < Floor(s), next < s.latest))
  }

  // ---- the invariant ----

  /** Consecutive numbers that end at the latest one. */
  ghost predicate Consecutive(frames: seq<Frame>, latest: nat) {
    |frames| <= latest && forall i :: 0 <= i < |frames| ==> frames[i].number == latest - |frames| + 1 + i
  }

  ghost predicate Inv(s: State) {
    && Consecutive(s.frames, s.latest)
    && s.rawChars == Chars(s.frames) <= RAW_LIMIT && |s.frames| <= MAX_FRAMES
  }

  lemma {:induction false} CharsAppend(frames: seq<Frame>, frame: Frame)
    ensures Chars(frames + [frame]) == Chars(frames) + |frame.data|
  {
    if frames == [] {
      assert [] + [frame] == [frame];
    } else {
      assert (frames + [frame])[1..] == frames[1..] + [frame];
      CharsAppend(frames[1..], frame);
    }
  }

  /** What trimming keeps: a suffix within both bounds, and the longest one. */
  ghost predicate Trimmed(frames: seq<Frame>, kept: seq<Frame>) {
    && |kept| <= |frames| && kept == frames[|frames| - |kept|..]
    && Chars(kept) <= RAW_LIMIT && |kept| <= MAX_FRAMES
    && (|kept| < |frames| ==> Chars(frames[|frames| - |kept| - 1..]) > RAW_LIMIT || |kept| == MAX_FRAMES)
  }

  lemma {:induction false} TrimFacts(frames: seq<Frame>)
    ensures Trimmed(frames, Trim(frames))
  {
    if frames != [] && (Chars(frames) > RAW_LIMIT || |frames| > MAX_FRAMES) {
      TrimFacts(frames[1..]);
      TrimmedOneMore(frames, Trim(frames[1..]));
    } else {
      assert frames[0..] == frames;
    }
  }

  lemma TrimmedOneMore(frames: seq<Frame>, kept: seq<Frame>)
    requires frames != [] && (Chars(frames) > RAW_LIMIT || |frames| > MAX_FRAMES) && Trimmed(frames[1..], kept)
    ensures Trimmed(frames, kept)
  {
    hide Chars;
    assert frames[1..][|frames| - 1 - |kept|..] == frames[|frames| - |kept|..];
    if |kept| < |frames| - 1 {
      assert frames[1..][|frames| - 1 - |kept| - 1..] == frames[|frames| - |kept| - 1..];
    } else {
      assert frames[|frames| - |kept| - 1..] == frames;
    }
  }

  lemma TrimStep(frames: seq<Frame>)
    requires Chars(frames) > RAW_LIMIT || |frames| > MAX_FRAMES
    ensures frames != [] && Trim(frames) == Trim(frames[1..]) && Chars(frames[1..]) == Chars(frames) - |frames[0].data|
  {
  }

  lemma TrimDone(frames: seq<Frame>)
    requires Chars(frames) <= RAW_LIMIT && |frames| <= MAX_FRAMES
    ensures Trim(frames) == frames
  {
  }

  /** Retained frames are always consecutive, end at the latest number or are none, and stay within
    * both bounds; no more of them are dropped than the bounds demand. */
  lemma AppendKeeps(s: State, data: Units, timestamp: int)
    requires Inv(s)
    ensures Inv(Appended(s, data, timestamp))
    ensures |data| <= RAW_LIMIT ==>
      Trimmed(s.frames + [Frame(s.latest + 1, timestamp, data)], Appended(s, data, timestamp).frames)
  {
    hide Chars, Trim;
    TrimFacts(s.frames + [Frame(s.latest + 1, timestamp, data)]);
    NoChars();
  }

  /** In numbers: of the frames there are with the new one, the last ones stay, as many as there can be of
    * at most 262144 characters and 4096 frames; a write larger than that leaves none. */
  lemma AppendedAre(s: State, data: Units, timestamp: int)
    requires Inv(s)
    ensures var all, after := s.frames + [Frame(s.latest + 1, timestamp, data)], Appended(s, data, timestamp);
      && after.latest == s.latest + 1 && after.rawChars == Chars(after.frames)
      && (|data| > 262144 ==> after.frames == [])
      && (|data| <= 262144 ==>
            && |after.frames| <= |all| && after.frames == all[|all| - |after.frames|..]
            && Chars(after.frames) <= 262144 && |after.frames| <= 4096
            && (|after.frames| < |all| ==>
                  |after.frames| == 4096 || Chars(all[|all| - |after.frames| - 1..]) > 262144))
  {
    AppendKeeps(s, data, timestamp);
    hide Trim, Chars;
  }

  lemma NoChars()
    ensures Chars([]) == 0
  {
  }

  // ---- one read ----

  lemma {:induction false} FittingChars(frames: seq<Frame>, chars: nat, limit: nat)
    requires chars <= limit
    ensures var n := Fitting(frames, chars, limit);
      && chars + Chars(frames[..n]) <= limit
      && (n < |frames| ==> chars + Chars(frames[..n]) + |frames[n].data| > limit)
  {
    if frames != [] && chars + |frames[0].data| <= limit {
      var n := Fitting(frames[1..], chars + |frames[0].data|, limit);
      FittingChars(frames[1..], chars + |frames[0].data|, limit);
      assert frames[..n + 1][1..] == frames[1..][..n];
    }
  }

  lemma {:induction false} UnreadIs(frames: seq<Frame>, latest: nat, after: int)
    requires Consecutive(frames, latest) && 0 <= after <= latest
    ensures Unread(frames, after) == frames[|frames| - Min(|frames|, latest - after)..]
  {
    if frames != [] {
      UnreadIs(frames[1..], latest, after);
      var left := Min(|frames| - 1, latest - after);
      assert frames[1..][|frames| - 1 - left..] == frames[|frames| - left..];
      if frames[0].number > after {
        assert frames[1..][0..] == frames[1..];
        assert Unread(frames, after) == frames;
      }
    } else {
      assert frames == [];
    }
  }

  /** The numbers a reply skips. */
  ghost predicate Missing(after: int, r: Reply, number: nat) {
    after < number <= r.next && forall f :: f in r.frames ==> f.number != number
  }

  lemma UnreadFacts(s: State, after: int)
    requires Inv(s) && 0 <= after <= s.latest
    ensures var unread := Unread(s.frames, after);
      && |unread| == Min(|s.frames|, s.latest - after) && Floor(s) == s.latest - |s.frames|
      && forall i :: 0 <= i < |unread| ==> unread[i] in s.frames && unread[i].number == s.latest - |unread| + 1 + i
  {
    UnreadIs(s.frames, s.latest, after);
    hide Unread, Chars;
  }

  /** What every valid read satisfies. */
  ghost predicate GoodReply(s: State, after: int, limit: nat, r: Reply) {
    && after <= r.next <= s.latest && (after < s.latest ==> after < r.next) && (r.hasMore <==> r.next < s.latest)
    && Chars(r.frames) <= limit && |r.frames| <= r.next - after
    && (forall i :: 0 <= i < |r.frames| ==>
         r.frames[i] in s.frames && r.frames[i].number == r.next - |r.frames| + 1 + i)
    && (r.truncated <==> |r.frames| < r.next - after)
  }

  /** A read returns retained frames in order and within its limit, advances whenever there is
    * anything left, says so exactly when more follows, and is truncated exactly when a number it
    * passes is missing. It fails exactly on a cursor the terminal never handed out. */
  lemma ReadFacts(s: State, after: int, limit: nat)
    requires Inv(s) && limit > 0
    ensures Read(s, after, limit).None? <==> after < 0 || after > s.latest
    ensures Read(s, after, limit).Some? ==> GoodReply(s, after, limit, Read(s, after, limit).value)
  {
    if 0 <= after <= s.latest {
      UnreadFacts(s, after);
      FittingChars(Unread(s.frames, after), 0, limit);
      hide Unread, Fitting, Chars, Inv, Floor;
      NoChars();
    }
  }

  /** Truncated means some number between the cursors was not returned. */
  lemma TruncatedMeansMissing(s: State, after: int, limit: nat)
    requires Inv(s) && limit > 0 && 0 <= after <= s.latest
    ensures var r := Read(s, after, limit).value;
      r.truncated <==> exists number: nat :: Missing(after, r, number)
  {
    ReadFacts(s, after, limit);
    var r := Read(s, after, limit).value;
    if r.truncated {
      assert Missing(after, r, after + 1);
    } else {
      forall number: nat | after < number <= r.next ensures !Missing(after, r, number) {
        var f := r.frames[number - after - 1];
        assert f in r.frames && f.number == number;
      }
    }
  }

  /** How much one read may return: what was asked for in whole characters, from one to 65536, and
    * 16384 for nothing or no number. */
  lemma LimitIs(wanted: Wanted)
    ensures wanted.NaN? ==> Limit(wanted) == 16384
    ensures wanted.Infinite? ==> Limit(wanted) == if wanted.positive then 65536 else 1
    ensures wanted.Amount? ==>
      var x := wanted.value;
      && (x < 0.0 ==> Limit(wanted) == 1)
      && (0.0 <= x < 1.0 ==> Limit(wanted) == 16384)
      && (1.0 <= x < 65536.0 ==> Limit(wanted) as real <= x < Limit(wanted) as real + 1.0)
      && (x >= 65536.0 ==> Limit(wanted) == 65536)
  {
  }

  /** The retained frame right after a number. */
  ghost predicate Following(s: State, number: int, f: Frame) {
    f in s.frames && f.number == number + 1
  }

  /** A read returns as much as fits: it stops before a frame that would not, or passes over one that
    * does not fit by itself, or has nothing left. */
  lemma ReadsAsMuchAsFits(s: State, after: int, limit: nat)
    requires Inv(s) && 0 <= after <= s.latest
    ensures var r := Read(s, after, limit).value;
      && (r.frames != [] && r.next < s.latest ==>
            exists f :: Following(s, r.next, f) && Chars(r.frames) + |f.data| > limit)
      && (r.frames == [] && Max(after, s.latest - |s.frames|) < s.latest ==>
            exists f :: Following(s, Max(after, s.latest - |s.frames|), f) && |f.data| > limit && r.next == f.number)
  {
    UnreadFacts(s, after);
    var unread := Unread(s.frames, after);
    FittingChars(unread, 0, limit);
    var n := Fitting(unread, 0, limit);
    if 0 < n < |unread| {
      assert Following(s, unread[n - 1].number, unread[n]);
    } else if n == 0 && unread != [] {
      assert unread[..0] == [];
      assert Following(s, Max(after, s.latest - |s.frames|), unread[0]);
    }
    hide Unread, Fitting, Inv;
    NoChars();
  }

  // ---- the object ----

  class RawReplay {
    var frames: seq<Frame>
    var rawChars: int
    var latest: nat

    ghost function Contents(): State
      reads this
    {
      State(frames, rawChars, latest)
    }

    constructor ()
      ensures Contents() == State([], 0, 0) && Inv(Contents())
    {
      frames, rawChars, latest := [], 0, 0;
    }

    /** The frame window part of `append`. */
    method Append(data: Units, timestamp: int) returns (frame: Frame)
      requires Inv(Contents())
      modifies this
      ensures Inv(Contents()) && Contents() == Appended(old(Contents()), data, timestamp)
      ensures frame == Frame(latest, timestamp, data)
    {
      AppendKeeps(Contents(), data, timestamp);
      latest := latest + 1;
      frame := Frame(latest, timestamp, data);
      if |data| <= RAW_LIMIT {
        CharsAppend(frames, frame);
        frames := frames + [frame];
        rawChars := rawChars + |data|;
      } else {
        frames := [];
        rawChars := 0;
      }
      DropOldFrames();
    }

    method DropOldFrames()
      requires rawChars == Chars(frames)
      modifies `frames, `rawChars
      ensures frames == Trim(old(frames)) && rawChars == Chars(frames)
    {
      hide Trim, Chars;
      while rawChars > RAW_LIMIT || |frames| > MAX_FRAMES
        invariant rawChars == Chars(frames) && Trim(frames) == Trim(old(frames))
        decreases |frames|
      {
        TrimStep(frames);
        rawChars := rawChars - |frames[0].data|;
        frames := frames[1..];
      }
      TrimDone(frames);
    }

    method ReadFrom(after: int, wanted: Wanted) returns (reply: Option<Reply>)
      requires Inv(Contents())
      ensures reply == Read(Contents(), after, Limit(wanted))
    {
      if after < 0 || after > latest {
        return None;
      }
      var first := if frames != [] then frames[0].number else latest + 1;
      assert Floor(Contents()) == first - 1;
      hide Read, Limit, Floor;
      var taken, next, oversize := Collect(frames, after, Limit(wanted), Max(after, first - 1));
      ReadIs(Contents(), after, Limit(wanted), taken);
      reply := Some(Reply(taken, next, oversize || after < first - 1, next < latest));
    }

    /** The read loop: frames after the cursor while they fit, or past one that never will. */
    static method Collect(frames: seq<Frame>, after: int, limit: nat, start: nat)
      returns (taken: seq<Frame>, next: nat, oversize: bool)
      ensures var unread := Unread(frames, after);
        && Fitting(unread, 0, limit) == |taken| <= |unread| && taken == unread[..|taken|]
        && (oversize <==> taken == [] && unread != [])
        && next == if oversize then unread[0].number else if taken == [] then start else taken[|taken| - 1].number
    {
      hide Progress, Fitting, Unread;
      taken, next, oversize := [], start, false;
      var chars, i := 0, 0;
      ghost var unread, left := Unread(frames, after), frames;
      StartsHere(frames, after, limit);
      while i < |frames|
        invariant i <= |frames| && left == frames[i..] && Progress(left, unread, taken, after, chars, limit)
        invariant !oversize && next == if taken == [] then start else taken[|taken| - 1].number
      {
        var frame := frames[i];
        if frame.number > after {
          if chars + |frame.data| > limit {
            StopsHere(left, unread, taken, after, chars, limit);
            if taken == [] {
              oversize, next := true, frame.number;
            }
            return;
          }
          TakesOne(left, unread, taken, after, chars, limit);
          taken, chars, next := taken + [frame], chars + |frame.data|, frame.number;
        } else {
          SkipsOne(left, unread, taken, after, chars, limit);
        }
        left := left[1..];
        i := i + 1;
      }
      EndsHere(unread, taken, after, chars, limit);
    }
  }

  /** A read under way: `taken` came from the front of `unread`, `left` still has to be looked at. */
  ghost predicate Progress(left: seq<Frame>, unread: seq<Frame>, taken: seq<Frame>, after: int, chars: int,
                           limit: nat) {
    && 0 <= chars && |taken| <= |unread| && taken == unread[..|taken|]
    && Unread(left, after) == unread[|taken|..]
    && Fitting(unread, 0, limit) == |taken| + Fitting(unread[|taken|..], chars, limit)
  }

  lemma StartsHere(frames: seq<Frame>, after: int, limit: nat)
    ensures Progress(frames, Unread(frames, after), [], after, 0, limit)
  {
    assert Unread(frames, after)[0..] == Unread(frames, after);
  }

  lemma SkipsOne(left: seq<Frame>, unread: seq<Frame>, taken: seq<Frame>, after: int, chars: int, limit: nat)
    requires left != [] && Progress(left, unread, taken, after, chars, limit) && left[0].number <= after
    ensures Progress(left[1..], unread, taken, after, chars, limit)
  {
  }

  lemma TakesOne(left: seq<Frame>, unread: seq<Frame>, taken: seq<Frame>, after: int, chars: int, limit: nat)
    requires left != [] && Progress(left, unread, taken, after, chars, limit)
    requires left[0].number > after && chars + |left[0].data| <= limit
    ensures Progress(left[1..], unread, taken + [left[0]], after, chars + |left[0].data|, limit)
  {
    var rest := unread[|taken|..];
    assert rest == [left[0]] + Unread(left[1..], after);
    assert rest[0] == left[0] && rest[1..] == Unread(left[1..], after) && rest[1..] == unread[|taken| + 1..];
    assert taken + [left[0]] == unread[..|taken| + 1];
  }

  lemma StopsHere(left: seq<Frame>, unread: seq<Frame>, taken: seq<Frame>, after: int, chars: int, limit: nat)
    requires left != [] && Progress(left, unread, taken, after, chars, limit)
    requires left[0].number > after && chars + |left[0].data| > limit
    ensures Fitting(unread, 0, limit) == |taken| < |unread| && unread[|taken|] == left[0] && unread[..|taken|] == taken
  {
    var rest := unread[|taken|..];
    assert rest == [left[0]] + Unread(left[1..], after);
    assert rest[0] == left[0];
  }

  /** What a read replies once it is known how many frames fit. */
  lemma ReadIs(s: State, after: int, limit: nat, taken: seq<Frame>)
    requires Inv(s) && 0 <= after <= s.latest
    requires var unread := Unread(s.frames, after);
      Fitting(unread, 0, limit) == |taken| <= |unread| && unread[..|taken|] == taken
    ensures var unread, start := Unread(s.frames, after), Max(after, Floor(s));
      && start >= 0
      && Read(s, after, limit) == Some(
           if taken == [] && unread != [] then Reply([], unread[0].number, true, unread[0].number < s.latest)
           else
             var next := if taken == [] then start else taken[|taken| - 1].number;
             Reply(taken, next, after < Floor(s), next < s.latest))
  {
  }

  lemma EndsHere(unread: seq<Frame>, taken: seq<Frame>, after: int, chars: int, limit: nat)
    requires Progress([], unread, taken, after, chars, limit)
    ensures Fitting(unread, 0, limit) == |taken| == |unread| && unread[..|taken|] == taken
  {
  }

  // ---- a reader among writers ----

  datatype Event = Write(data: Units, timestamp: int) | Take(wanted: Wanted)

  /** The replay, everything ever written, and a reader: its cursor, what it was given, and the
    * numbers that lay in a read flagged as truncated. */
  datatype Session = Session(s: State, written: seq<Units>, cursor: int, given: seq<Frame>, lost: set<nat>)

  ghost function Gap(after: int, r: Reply): set<nat> {
    if r.truncated then set number: nat | after < number <= r.next && Missing(after, r, number) else {}
  }

  ghost function Step(x: Session, e: Event): Session {
    match e
    case Write(data, timestamp) => x.(s := Appended(x.s, data, timestamp), written := x.written + [data])
    case Take(wanted) =>
      match Read(x.s, x.cursor, Limit(wanted))
      case None => x
      case Some(r) => x.(cursor := r.next, given := x.given + r.frames, lost := x.lost + Gap(x.cursor, r))
  }

  ghost function After(start: Session, events: seq<Event>, n: nat): Session
    requires n <= |events|
  {
    if n == 0 then start else Step(After(start, events, n - 1), events[n - 1])
  }

  /** A frame carries what was written under its number. */
  ghost predicate Faithful(written: seq<Units>, f: Frame) {
    0 < f.number <= |written| && f.data == written[f.number - 1]
  }

  ghost predicate Kept(x: Session) {
    && Inv(x.s) && |x.written| == x.s.latest
    && forall f :: f in x.s.frames ==> Faithful(x.written, f)
  }

  /** Each number the reader passed since `from` was given once, in order and with the data written
    * under it, or is known to be lost. */
  ghost predicate Accounted(x: Session, from: int) {
    && 0 <= from <= x.cursor <= x.s.latest
    && (forall i, j :: 0 <= i < j < |x.given| ==> x.given[i].number < x.given[j].number)
    && (forall f :: f in x.given ==> from < f.number <= x.cursor && Faithful(x.written, f))
    && (forall number :: number in x.lost ==> from < number <= x.cursor && forall f :: f in x.given ==>
         f.number != number)
    && (forall number: nat :: from < number <= x.cursor ==> number in x.lost || Given(x.given, number))
  }

  ghost predicate Given(frames: seq<Frame>, number: nat) {
    exists f :: f in frames && f.number == number
  }

  lemma WriteKeeps(x: Session, data: Units, timestamp: int, from: int)
    requires Kept(x) && Accounted(x, from)
    ensures Kept(Step(x, Write(data, timestamp))) && Accounted(Step(x, Write(data, timestamp)), from)
  {
    hide Inv, Appended, Trim, Chars;
    AppendKeeps(x.s, data, timestamp);
    var y := Step(x, Write(data, timestamp));
    LatestGrows(x.s, data, timestamp);
    forall f | f in y.s.frames ensures Faithful(y.written, f) {
      FromBefore(x.s, data, timestamp, f);
    }
    forall f | f in x.given ensures Faithful(y.written, f) {
      assert Faithful(x.written, f);
    }
  }

  lemma LatestGrows(s: State, data: Units, timestamp: int)
    ensures Appended(s, data, timestamp).latest == s.latest + 1
  {
  }

  lemma FromBefore(s: State, data: Units, timestamp: int, f: Frame)
    requires f in Appended(s, data, timestamp).frames
    ensures f in s.frames || f == Frame(s.latest + 1, timestamp, data)
  {
    hide Trim, Chars;
    var all := s.frames + [Frame(s.latest + 1, timestamp, data)];
    TrimFacts(all);
    assert f in all;
  }

  lemma TakeAccounts(x: Session, limit: nat, r: Reply, y: Session, from: int)
    requires Kept(x) && Accounted(x, from) && GoodReply(x.s, x.cursor, limit, r)
    requires y == x.(cursor := r.next, given := x.given + r.frames, lost := x.lost + Gap(x.cursor, r))
    ensures Accounted(y, from)
  {
    hide Inv, Chars;
    forall number: nat | from < number <= y.cursor ensures number in y.lost || Given(y.given, number) {
      if number <= x.cursor {
        if number !in x.lost {
          var f :| f in x.given && f.number == number;
          assert f in y.given;
        }
      } else if number > r.next - |r.frames| {
        var f := r.frames[number - (r.next - |r.frames|) - 1];
        assert f in r.frames && f in y.given;
      } else {
        assert Missing(x.cursor, r, number);
      }
    }
    forall i, j | 0 <= i < j < |y.given| ensures y.given[i].number < y.given[j].number {
      if i < |x.given| <= j {
        assert x.given[i] in x.given && y.given[j] == r.frames[j - |x.given|];
      }
    }
  }

  lemma StepKeeps(x: Session, e: Event, from: int)
    requires Kept(x) && Accounted(x, from)
    ensures Kept(Step(x, e)) && Accounted(Step(x, e), from)
  {
    match e
    case Write(data, timestamp) => WriteKeeps(x, data, timestamp, from);
    case Take(wanted) =>
      ReadFacts(x.s, x.cursor, Limit(wanted));
      TakeAccounts(x, Limit(wanted), Read(x.s, x.cursor, Limit(wanted)).value, Step(x, e), from);
  }

  /** Whatever is written in between, a reader that follows its cursors is given every number it
    * passes exactly once, in order and unaltered, or was told that it lost it. */
  lemma {:induction false} ReaderMissesNothingSilently(start: Session, events: seq<Event>, n: nat)
    requires Kept(start) && 0 <= start.cursor <= start.s.latest && start.given == [] && start.lost == {}
      && n <= |events|
    ensures Kept(After(start, events, n)) && Accounted(After(start, events, n), start.cursor)
  {
    if n > 0 {
      ReaderMissesNothingSilently(start, events, n - 1);
      StepKeeps(After(start, events, n - 1), events[n - 1], start.cursor);
    }
  }
}
