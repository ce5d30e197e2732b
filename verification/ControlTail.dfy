/** The unfinished control sequence a live attach carries over: terminal-control-tail.ts. */
module ControlTail {

  /** Code points; those from 0x10000 on take two UTF-16 units. */
  type Text = seq<nat>

  const ESC := 0x1b
  const BEL := 0x07
  const CAN := 0x18
  const SUB := 0x1a
  const ST := 0x9c
  const BACKSLASH := 0x5c
  const BRACKET := 0x5b
  const MAX_PREFIX := 256

  datatype Mode = Ground | Escape | Csi | StringMode | StringEscape

  datatype Tail = Tail(mode: Mode, prefix: Text)

  const FRESH := Tail(Ground, [])

  function Units(text: Text): nat {
    if text == [] then 0 else Units(text[..|text| - 1]) + (if text[|text| - 1] >= 0x1_0000 then 2 else 1)
  }

  /** `]`, `P`, `_`, `X` and `^` open a string. */
  predicate OpensString(ch: nat) {
    ch == 0x5d || ch == 0x50 || ch == 0x5f || ch == 0x58 || ch == 0x5e
  }

  function InString(t: Tail, ch: nat): Tail {
    if ch == BEL || ch == ST || (t.mode == StringEscape && ch == BACKSLASH) then FRESH
    else t.(mode := if ch == ESC then StringEscape else StringMode)
  }

  function InEscape(t: Tail, ch: nat): Tail {
    var prefix := t.prefix + [ch];
    if ch == BRACKET then Tail(Csi, prefix)
    else if OpensString(ch) then Tail(StringMode, prefix)
    else if ch < 0x20 || ch > 0x2f then FRESH
    else Tail(Escape, prefix)
  }

  function InCsi(t: Tail, ch: nat): Tail {
    if 0x40 <= ch <= 0x7e then FRESH else Tail(Csi, t.prefix + [ch])
  }

  function Outside(t: Tail, ch: nat): Tail {
    if ch == CAN || ch == SUB then FRESH
    else if ch == ESC then Tail(Escape, [ESC])
    else if t.mode == Escape then InEscape(t, ch)
    else if t.mode == Csi then InCsi(t, ch)
    else t
  }

  /** A prefix past 256 units keeps only how it began. */
  function Capped(t: Tail): Tail {
    if Units(t.prefix) > MAX_PREFIX then t.(prefix := if t.mode == Csi then [ESC, BRACKET] else [ESC]) else t
  }

  predicate Stringy(t: Tail) {
    t.mode == StringMode || t.mode == StringEscape
  }

  /** One character; inside a string the cap is skipped. */
  function Feed(t: Tail, ch: nat): Tail {
    if Stringy(t) then InString(t, ch) else Capped(Outside(t, ch))
  }

  function FeedAll(t: Tail, data: Text): Tail {
    if data == [] then t else Feed(FeedAll(t, data[..|data| - 1]), data[|data| - 1])
  }

  /** What `append` returns. */
  function Carried(t: Tail): Text {
    t.prefix + (if t.mode == StringEscape then [ESC] else [])
  }

  class TerminalControlTail {
    var mode: Mode
    var prefix: Text

    ghost function Contents(): Tail
      reads this
    {
      Tail(mode, prefix)
    }

    constructor ()
      ensures Contents() == FRESH
    {
      mode, prefix := Ground, [];
    }

    method Append(data: Text) returns (carried: Text)
      modifies this
      ensures Contents() == FeedAll(old(Contents()), data) && carried == Carried(Contents())
    {
      var i := 0;
      assert data[..0] == [];
      while i < |data|
        invariant i <= |data| && Contents() == FeedAll(old(Contents()), data[..i])
      {
        var ch := data[i];
        assert data[..i + 1][..i] == data[..i];
        i := i + 1;
        if mode == StringMode || mode == StringEscape {
          if ch == BEL || ch == ST || (mode == StringEscape && ch == BACKSLASH) {
            mode, prefix := Ground, [];
          } else {
            mode := if ch == ESC then StringEscape else StringMode;
          }
          continue;
        }
        if ch == CAN || ch == SUB {
          mode, prefix := Ground, [];
        } else if ch == ESC {
          mode, prefix := Escape, [ESC];
        } else if mode == Escape {
          prefix := prefix + [ch];
          if ch == BRACKET {
            mode := Csi;
          } else if OpensString(ch) {
            mode := StringMode;
          } else if ch < 0x20 || ch > 0x2f {
            mode, prefix := Ground, [];
          }
        } else if mode == Csi {
          prefix := prefix + [ch];
          if 0x40 <= ch <= 0x7e {
            mode, prefix := Ground, [];
          }
        }
        if Units(prefix) > MAX_PREFIX {
          prefix := if mode == Csi then [ESC, BRACKET] else [ESC];
        }
      }
      assert data[..i] == data;
      carried := prefix + (if mode == StringEscape then [ESC] else []);
    }
  }

  // ---- chunking ----

  /** How the output is cut into chunks changes nothing. */
  lemma {:induction false} ChunksDoNotMatter(t: Tail, a: Text, b: Text)
    ensures FeedAll(t, a + b) == FeedAll(FeedAll(t, a), b)
    decreases |b|
  {
    if b == [] {
      assert a + b == a;
    } else {
      assert (a + b)[..|a + b| - 1] == a + b[..|b| - 1];
      ChunksDoNotMatter(t, a, b[..|b| - 1]);
    }
  }

  // ---- the shape of a prefix ----

  predicate Intermediates(text: Text) {
    forall c :: c in text ==> 0x20 <= c <= 0x2f
  }

  /** Parameters and other non-final characters of a control sequence. */
  predicate Parameters(text: Text) {
    forall c :: c in text ==> c != ESC && c != CAN && c != SUB && !(0x40 <= c <= 0x7e)
  }

  ghost predicate EscapePrefix(p: Text) {
    p != [] && p[0] == ESC && Intermediates(p[1..])
  }

  /** An escape, its intermediates, a bracket and what follows it; `k` is where the bracket is. */
  ghost predicate CsiPrefix(p: Text, k: nat) {
    0 < k < |p| && EscapePrefix(p[..k]) && p[k] == BRACKET && Parameters(p[k + 1..])
  }

  /** A string's prefix ends with its introducer; at the cap only the escape is left of it. */
  ghost predicate StringPrefix(p: Text) {
    p == [ESC] || (|p| > 1 && EscapePrefix(p[..|p| - 1]) && OpensString(p[|p| - 1]))
  }

  ghost predicate Shaped(t: Tail) {
    && Units(t.prefix) <= MAX_PREFIX
    && match t.mode
       case Ground => t.prefix == []
       case Escape => EscapePrefix(t.prefix)
       case Csi => exists k: nat :: CsiPrefix(t.prefix, k)
       case StringMode => StringPrefix(t.prefix)
       case StringEscape => StringPrefix(t.prefix)
  }

  lemma UnitsOfTwo(a: nat, b: nat)
    ensures Units([a]) == (if a >= 0x1_0000 then 2 else 1)
    ensures Units([a, b]) == Units([a]) + (if b >= 0x1_0000 then 2 else 1)
  {
    assert [a, b][..1] == [a];
  }

  lemma UnitsAppend(p: Text, c: nat)
    ensures Units(p + [c]) == Units(p) + (if c >= 0x1_0000 then 2 else 1)
  {
    assert (p + [c])[..|p|] == p;
  }

  lemma EscapeShaped(p: Text, ch: nat)
    requires EscapePrefix(p)
    ensures 0x20 <= ch <= 0x2f ==> EscapePrefix(p + [ch])
    ensures ch == BRACKET ==> CsiPrefix(p + [ch], |p|)
    ensures OpensString(ch) ==> StringPrefix(p + [ch])
  {
    var q := p + [ch];
    assert q[..|p|] == p && q[1..] == p[1..] + [ch] && q[|p| + 1..] == [];
  }

  lemma CsiShaped(p: Text, k: nat, ch: nat)
    requires CsiPrefix(p, k) && ch != ESC && ch != CAN && ch != SUB && !(0x40 <= ch <= 0x7e)
    ensures CsiPrefix(p + [ch], k)
  {
    var q := p + [ch];
    assert q[..k] == p[..k] && q[k + 1..] == p[k + 1..] + [ch];
  }

  lemma ShortestShapes()
    ensures EscapePrefix([ESC]) && StringPrefix([ESC]) && CsiPrefix([ESC, BRACKET], 1)
    ensures Units([ESC]) == 1 && Units([ESC, BRACKET]) == 2
  {
    UnitsOfTwo(ESC, BRACKET);
    assert [ESC, BRACKET][..1] == [ESC] && [ESC, BRACKET][2..] == [] && [ESC][1..] == [];
  }

  lemma EscapeStaysShaped(p: Text, ch: nat)
    requires EscapePrefix(p)
    ensures var next := InEscape(Tail(Escape, p), ch);
      next == FRESH || (next.mode != Ground && Shaped(Capped(next)))
  {
    EscapeShaped(p, ch);
    ShortestShapes();
    hide EscapePrefix, CsiPrefix, StringPrefix, Units;
  }

  lemma CsiStaysShaped(p: Text, k: nat, ch: nat)
    requires CsiPrefix(p, k) && ch != ESC && ch != CAN && ch != SUB
    ensures var next := InCsi(Tail(Csi, p), ch);
      next == FRESH || (next.mode == Csi && Shaped(Capped(next)))
  {
    if !(0x40 <= ch <= 0x7e) {
      CsiShaped(p, k, ch);
    }
    ShortestShapes();
    hide EscapePrefix, CsiPrefix, StringPrefix, Units;
  }

  lemma OutsideShaped(t: Tail, ch: nat)
    requires Shaped(t) && !Stringy(t)
    ensures Shaped(Feed(t, ch))
  {
    hide EscapePrefix, CsiPrefix, StringPrefix, Units, InEscape, InCsi;
    ShortestShapes();
    NoUnits();
    if ch == CAN || ch == SUB || ch == ESC {
    } else if t.mode == Escape {
      EscapeStaysShaped(t.prefix, ch);
    } else if t.mode == Csi {
      var k: nat :| CsiPrefix(t.prefix, k);
      CsiStaysShaped(t.prefix, k, ch);
    }
  }

  lemma NoUnits()
    ensures Units([]) == 0
  {
  }

  lemma {:induction false} AlwaysShaped(data: Text)
    ensures Shaped(FeedAll(FRESH, data))
    decreases |data|
  {
    if data != [] {
      AlwaysShaped(data[..|data| - 1]);
      var t := FeedAll(FRESH, data[..|data| - 1]);
      if !Stringy(t) {
        OutsideShaped(t, data[|data| - 1]);
      }
    }
  }

  /** What is carried over is at most 257 units. */
  lemma CarriedIsShort(data: Text)
    ensures Units(Carried(FeedAll(FRESH, data))) <= MAX_PREFIX + 1
  {
    var t := FeedAll(FRESH, data);
    AlwaysShaped(data);
    UnitsAppend(t.prefix, ESC);
    assert t.prefix + [] == t.prefix;
  }

  // ---- resuming ----

  lemma {:induction false} FeedsIntermediates(p: Text)
    requires EscapePrefix(p) && Units(p) <= MAX_PREFIX
    ensures FeedAll(FRESH, p) == Tail(Escape, p)
    decreases |p|
  {
    var front, last := p[..|p| - 1], p[|p| - 1];
    assert p == front + [last];
    UnitsAppend(front, last);
    if |p| == 1 {
      assert FeedAll(FRESH, []) == FRESH;
      UnitsOfTwo(ESC, ESC);
    } else {
      assert last in p[1..] && front[1..] <= p[1..];
      forall c | c in front[1..] ensures 0x20 <= c <= 0x2f {
        assert c in p[1..];
      }
      FeedsIntermediates(front);
    }
  }

  lemma CsiFront(p: Text, k: nat)
    requires CsiPrefix(p, k) && k < |p| - 1
    ensures CsiPrefix(p[..|p| - 1], k)
    ensures var c := p[|p| - 1]; c != ESC && c != CAN && c != SUB && !(0x40 <= c <= 0x7e)
  {
    var front := p[..|p| - 1];
    assert front[..k] == p[..k] && p[k + 1..] == front[k + 1..] + [p[|p| - 1]];
    assert p[|p| - 1] in p[k + 1..];
    FewerParameters(front[k + 1..], p[|p| - 1]);
  }

  lemma FewerParameters(text: Text, c: nat)
    requires Parameters(text + [c])
    ensures Parameters(text)
  {
    forall x | x in text ensures x in text + [c] && x != ESC && x != CAN && x != SUB && !(0x40 <= x <= 0x7e) {
    }
  }

  lemma FeedsParameter(p: Text, c: nat)
    requires c != ESC && c != CAN && c != SUB && !(0x40 <= c <= 0x7e) && Units(p + [c]) <= MAX_PREFIX
    ensures Feed(Tail(Csi, p), c) == Tail(Csi, p + [c])
  {
  }

  lemma {:induction false} FeedsParameters(p: Text, k: nat)
    requires CsiPrefix(p, k) && Units(p) <= MAX_PREFIX
    ensures FeedAll(FRESH, p) == Tail(Csi, p)
    decreases |p|
  {
    var front, last := p[..|p| - 1], p[|p| - 1];
    assert p == front + [last];
    UnitsAppend(front, last);
    if k == |p| - 1 {
      FeedsIntermediates(front);
    } else {
      CsiFront(p, k);
      FeedsParameter(front, last);
      hide CsiPrefix, Feed;
      FeedsParameters(front, k);
    }
  }

  /** A string whose introducer pushed its prefix past the cap: only the escape is left of it. */
  predicate Lossy(t: Tail) {
    Stringy(t) && t.prefix == [ESC]
  }

  lemma FeedsString(p: Text)
    requires StringPrefix(p) && p != [ESC] && Units(p) <= MAX_PREFIX
    ensures FeedAll(FRESH, p) == Tail(StringMode, p)
  {
    var front, last := p[..|p| - 1], p[|p| - 1];
    assert p == front + [last];
    UnitsAppend(front, last);
    FeedsIntermediates(front);
    hide Units;
    assert FeedAll(FRESH, p) == Feed(FeedAll(FRESH, front), last);
  }

  lemma FeedsPrefix(t: Tail)
    requires Shaped(t) && !Lossy(t)
    ensures FeedAll(FRESH, t.prefix) == (if t.mode == StringEscape then t.(mode := StringMode) else t)
  {
    hide EscapePrefix, CsiPrefix, StringPrefix, Units, Feed;
    match t.mode
    case Ground =>
    case Escape => FeedsIntermediates(t.prefix);
    case Csi =>
      var k: nat :| CsiPrefix(t.prefix, k);
      FeedsParameters(t.prefix, k);
    case _ => FeedsString(t.prefix);
  }

  /** After any output, what is carried over puts a fresh parser in the same mode with the same
    * prefix, so both agree on all later data, exactly when the state is not a string cut at the cap. */
  lemma Resumes(data: Text)
    ensures var t := FeedAll(FRESH, data); FeedAll(FRESH, Carried(t)) == t <==> !Lossy(t)
  {
    var t := FeedAll(FRESH, data);
    AlwaysShaped(data);
    assert t.prefix + [] == t.prefix;
    if Lossy(t) {
      BareEscapes();
    } else {
      FeedsPrefix(t);
      if t.mode == StringEscape {
        ChunksDoNotMatter(FRESH, t.prefix, [ESC]);
        assert FeedAll(t.(mode := StringMode), [ESC]) == Feed(FeedAll(t.(mode := StringMode), []), ESC);
      }
    }
  }

  lemma BareEscapes()
    ensures FeedAll(FRESH, [ESC]) == Tail(Escape, [ESC]) && FeedAll(FRESH, [ESC, ESC]) == Tail(Escape, [ESC])
  {
    assert [ESC][..0] == [] && [ESC, ESC][..1] == [ESC];
    UnitsOfTwo(ESC, ESC);
  }

  /** Later data finds both in agreement. */
  lemma AgreeFromThenOn(data: Text, later: Text)
    requires !Lossy(FeedAll(FRESH, data))
    ensures var carried := Carried(FeedAll(FRESH, data));
      && FeedAll(FRESH, carried + later) == FeedAll(FRESH, data + later)
      && Carried(FeedAll(FRESH, carried + later)) == Carried(FeedAll(FRESH, data + later))
  {
    Resumes(data);
    ChunksDoNotMatter(FRESH, data, later);
    ChunksDoNotMatter(FRESH, Carried(FeedAll(FRESH, data)), later);
  }

  /** And a string cut at the cap does diverge: the next letter ends what was resumed, not the
    * string. */
  lemma LossyDiverges(data: Text)
    requires Lossy(FeedAll(FRESH, data))
    ensures Carried(FeedAll(FRESH, Carried(FeedAll(FRESH, data)) + [0x61])) != Carried(FeedAll(FRESH, data + [0x61]))
  {
    var t := FeedAll(FRESH, data);
    var carried := Carried(t);
    BareEscapes();
    assert carried == [ESC] || carried == [ESC, ESC];
    assert (carried + [0x61])[..|carried|] == carried && (data + [0x61])[..|data|] == data;
    assert Feed(t, 0x61) == Tail(StringMode, [ESC]);
    assert Feed(Tail(Escape, [ESC]), 0x61) == FRESH;
  }

  // ---- which output is cut at the cap ----

  function Run(ch: nat, k: nat): (run: Text)
    ensures |run| == k && forall c :: c in run ==> c == ch
  {
    if k == 0 then [] else Run(ch, k - 1) + [ch]
  }

  /** A string becomes lossy at its introducer, when that is the character past the cap: the escape
    * state before it held a prefix of exactly 256 units. */
  lemma LosesAtTheCap(t: Tail, ch: nat)
    requires Shaped(t)
    ensures !Lossy(t) && Lossy(Feed(t, ch)) <==>
      t.mode == Escape && OpensString(ch) && Units(t.prefix) == MAX_PREFIX
  {
    hide CsiPrefix, Units;
    UnitsAppend(t.prefix, ch);
    if t.mode == Escape && OpensString(ch) {
      OpensOrLoses(t, ch);
    }
  }

  lemma OpensOrLoses(t: Tail, introducer: nat)
    requires t.mode == Escape && t.prefix != [] && OpensString(introducer)
    ensures Feed(t, introducer).mode == StringMode
    ensures Units(t.prefix) <= MAX_PREFIX ==> (Lossy(Feed(t, introducer)) <==> Units(t.prefix) == MAX_PREFIX)
  {
    hide Units;
    UnitsAppend(t.prefix, introducer);
    assert |t.prefix + [introducer]| > 1;
  }

  lemma {:induction false} RunUnits(ch: nat, k: nat)
    requires ch < 0x1_0000
    ensures Units([ESC] + Run(ch, k)) == 1 + k
  {
    UnitsOfTwo(ESC, ESC);
    assert [ESC] + [] == [ESC];
    if k > 0 {
      RunUnits(ch, k - 1);
      UnitsAppend([ESC] + Run(ch, k - 1), ch);
      assert [ESC] + Run(ch, k) == ([ESC] + Run(ch, k - 1)) + [ch];
    }
  }

  lemma EscapeGrows(p: Text, ch: nat)
    requires 0x20 <= ch <= 0x2f
    ensures Feed(Tail(Escape, p), ch) == Tail(Escape, if Units(p + [ch]) > MAX_PREFIX then [ESC] else p + [ch])
  {
    hide Units;
  }

  lemma EscapeStep(ch: nat, j: nat)
    requires 0x20 <= ch <= 0x2f && j < MAX_PREFIX
    ensures Feed(Tail(Escape, [ESC] + Run(ch, j)), ch) ==
      Tail(Escape, [ESC] + Run(ch, if j + 1 == MAX_PREFIX then 0 else j + 1))
  {
    hide Feed, Units, Run;
    RunNext(ch, j);
    RunUnits(ch, j + 1);
    EscapeGrows([ESC] + Run(ch, j), ch);
    assert ([ESC] + Run(ch, j)) + [ch] == [ESC] + Run(ch, j + 1);
  }

  lemma RunNext(ch: nat, j: nat)
    ensures Run(ch, j + 1) == Run(ch, j) + [ch] && [ESC] + Run(ch, 0) == [ESC]
  {
  }

  lemma {:induction false} EscapeRun(ch: nat, k: nat)
    requires 0x20 <= ch <= 0x2f
    ensures FeedAll(FRESH, [ESC] + Run(ch, k)) == Tail(Escape, [ESC] + Run(ch, k % MAX_PREFIX))
  {
    if k == 0 {
      BareEscapes();
      assert [ESC] + [] == [ESC];
    } else {
      EscapeRun(ch, k - 1);
      hide Feed;
      EscapeStep(ch, (k - 1) % MAX_PREFIX);
      Wraps(k - 1);
      assert ([ESC] + Run(ch, k))[..k] == [ESC] + Run(ch, k - 1);
    }
  }

  lemma Wraps(k: nat)
    ensures (k + 1) % MAX_PREFIX == if k % MAX_PREFIX + 1 == MAX_PREFIX then 0 else k % MAX_PREFIX + 1
  {
  }

  /** The whole family: an escape, `k` intermediates and a string introducer cannot be resumed
    * exactly when the introducer is the 257th character since the prefix last restarted. */
  lemma LossyRuns(intermediate: nat, k: nat, introducer: nat)
    requires 0x20 <= intermediate <= 0x2f && OpensString(introducer)
    ensures var t := FeedAll(FRESH, [ESC] + Run(intermediate, k) + [introducer]);
      && t.mode == StringMode && (Lossy(t) <==> k % MAX_PREFIX == MAX_PREFIX - 1)
      && (FeedAll(FRESH, Carried(t)) == t <==> k % MAX_PREFIX != MAX_PREFIX - 1)
  {
    hide Feed, Units, Lossy, Carried;
    var data := [ESC] + Run(intermediate, k);
    EscapeRun(intermediate, k);
    assert (data + [introducer])[..|data|] == data;
    var before := Tail(Escape, [ESC] + Run(intermediate, k % MAX_PREFIX));
    RunUnits(intermediate, k % MAX_PREFIX);
    OpensOrLoses(before, introducer);
    assert FeedAll(FRESH, data + [introducer]) == Feed(before, introducer);
    Resumes(data + [introducer]);
  }
}
