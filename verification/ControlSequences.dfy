/** Control sequences as texts, and what the tail parser makes of whole and of unfinished ones. */
module ControlSequences {
  import opened ControlTail

  // ---- the grammar ----

  /** SPACE to `/`. */
  predicate AllIntermediate(text: Text) {
    forall c :: c in text ==> 0x20 <= c <= 0x2f
  }

  predicate Introducer(c: nat) {
    c in [0x50, 0x58, 0x5d, 0x5e, 0x5f]
  }

  /** An escape and its intermediates. */
  predicate EscapeOpen(text: Text) {
    text != [] && text[0] == 0x1b && AllIntermediate(text[1..])
  }

  /** What may stand between the bracket and the final character. */
  predicate AllParameter(text: Text) {
    forall c :: c in text ==> c !in [0x18, 0x1a, 0x1b] && !(0x40 <= c <= 0x7e)
  }

  /** Ends an escape sequence that opens nothing. */
  predicate EscapeFinal(c: nat) {
    !(0x20 <= c <= 0x2f) && c !in [0x18, 0x1a, 0x1b, 0x5b] && !Introducer(c)
  }

  /** The content of a string: no bell, no ST, and no escape before a backslash. */
  predicate Body(text: Text) {
    && (forall c :: c in text ==> c != 0x07 && c != 0x9c)
    && (forall i :: 0 <= i < |text| - 1 && text[i] == 0x1b ==> text[i + 1] != 0x5c)
  }

  // ---- where the parser stands ----

  lemma FeedMore(t: Tail, text: Text, c: nat)
    ensures FeedAll(t, text + [c]) == Feed(FeedAll(t, text), c)
  {
    assert (text + [c])[..|text|] == text;
  }

  lemma {:induction false} InsideEscape(text: Text)
    requires EscapeOpen(text)
    ensures FeedAll(FRESH, text).mode == Escape
    decreases |text|
  {
    var front, last := text[..|text| - 1], text[|text| - 1];
    assert text == front + [last];
    FeedMore(FRESH, front, last);
    if |text| == 1 {
      assert FeedAll(FRESH, []) == FRESH;
    } else {
      assert last in text[1..] && front[1..] <= text[1..];
      forall c | c in front[1..] ensures 0x20 <= c <= 0x2f { assert c in text[1..]; }
      InsideEscape(front);
    }
    hide Units;
  }

  lemma {:induction false} InsideCsi(open: Text, parameters: Text)
    requires EscapeOpen(open) && AllParameter(parameters)
    ensures FeedAll(FRESH, open + [0x5b] + parameters).mode == Csi
    decreases |parameters|
  {
    hide Units;
    if parameters == [] {
      assert open + [0x5b] + [] == open + [0x5b];
      InsideEscape(open);
      FeedMore(FRESH, open, 0x5b);
    } else {
      var front, last := parameters[..|parameters| - 1], parameters[|parameters| - 1];
      assert open + [0x5b] + parameters == open + [0x5b] + front + [last];
      forall c | c in front ensures c in parameters {}
      assert last in parameters;
      InsideCsi(open, front);
      FeedMore(FRESH, open + [0x5b] + front, last);
    }
  }

  lemma ShorterBody(body: Text)
    requires Body(body) && body != []
    ensures var front, last := body[..|body| - 1], body[|body| - 1];
      Body(front) && last != 0x07 && last != 0x9c && (front != [] && front[|front| - 1] == 0x1b ==> last != 0x5c)
  {
    var front, last := body[..|body| - 1], body[|body| - 1];
    forall c | c in front ensures c in body {}
    assert last in body;
    if front != [] {
      assert body[|front| - 1] == front[|front| - 1];
    }
    forall i | 0 <= i < |front| - 1 && front[i] == 0x1b ensures front[i + 1] != 0x5c {
      assert body[i] == front[i] && body[i + 1] == front[i + 1];
    }
  }

  /** In a string, the parser remembers only whether the last character was an escape. */
  lemma {:induction false} InsideString(open: Text, introducer: nat, body: Text)
    requires EscapeOpen(open) && Introducer(introducer) && Body(body)
    ensures FeedAll(FRESH, open + [introducer] + body).mode
         == if body != [] && body[|body| - 1] == 0x1b then StringEscape else StringMode
    decreases |body|
  {
    hide Units;
    if body == [] {
      assert open + [introducer] + [] == open + [introducer];
      InsideEscape(open);
      FeedMore(FRESH, open, introducer);
    } else {
      var front, last := body[..|body| - 1], body[|body| - 1];
      assert open + [introducer] + body == open + [introducer] + front + [last];
      ShorterBody(body);
      InsideString(open, introducer, front);
      FeedMore(FRESH, open + [introducer] + front, last);
    }
  }

  // ---- whole sequences ----

  /** Text without an escape leaves the parser at rest. */
  lemma {:induction false} PlainText(text: Text)
    requires 0x1b !in text
    ensures FeedAll(FRESH, text) == FRESH
    decreases |text|
  {
    if text != [] {
      PlainText(text[..|text| - 1]);
      assert Units([]) == 0;
    }
  }

  /** An escape sequence ends with its final character, and a control sequence with its own. */
  lemma SequenceEnds(open: Text, parameters: Text, final: nat)
    requires EscapeOpen(open)
    ensures EscapeFinal(final) ==> FeedAll(FRESH, open + [final]) == FRESH
    ensures AllParameter(parameters) && 0x40 <= final <= 0x7e ==>
      FeedAll(FRESH, open + [0x5b] + parameters + [final]) == FRESH
  {
    InsideEscape(open);
    if EscapeFinal(final) { FinalEscape(FeedAll(FRESH, open), final); }
    FeedMore(FRESH, open, final);
    hide FeedAll, Feed;
    if AllParameter(parameters) && 0x40 <= final <= 0x7e {
      InsideCsi(open, parameters);
      FinalCsi(FeedAll(FRESH, open + [0x5b] + parameters), final);
      FeedMore(FRESH, open + [0x5b] + parameters, final);
    }
  }

  lemma FinalEscape(t: Tail, final: nat)
    requires t.mode == Escape && EscapeFinal(final)
    ensures Feed(t, final) == FRESH
  {
    assert Units([]) == 0;
    hide Units;
  }

  lemma FinalCsi(t: Tail, final: nat)
    requires t.mode == Csi && 0x40 <= final <= 0x7e
    ensures Feed(t, final) == FRESH
  {
    assert Units([]) == 0;
    hide Units;
  }

  /** A string ends with a bell, with ST, or with an escape and a backslash. */
  lemma StringEnds(open: Text, introducer: nat, body: Text)
    requires EscapeOpen(open) && Introducer(introducer) && Body(body)
    ensures FeedAll(FRESH, open + [introducer] + body + [0x07]) == FRESH
    ensures FeedAll(FRESH, open + [introducer] + body + [0x9c]) == FRESH
    ensures FeedAll(FRESH, open + [introducer] + body + [0x1b, 0x5c]) == FRESH
  {
    hide Units;
    var text := open + [introducer] + body;
    InsideString(open, introducer, body);
    FeedMore(FRESH, text, 0x07);
    FeedMore(FRESH, text, 0x9c);
    FeedMore(FRESH, text, 0x1b);
    FeedMore(FRESH, text + [0x1b], 0x5c);
    assert text + [0x1b, 0x5c] == text + [0x1b] + [0x5c];
  }

  /** CAN and SUB cancel a sequence, an escape starts a new one; neither CAN nor SUB ends a string. */
  lemma Cancels(open: Text, parameters: Text, introducer: nat, body: Text, c: nat)
    requires EscapeOpen(open) && AllParameter(parameters) && Introducer(introducer) && Body(body)
    requires c == 0x18 || c == 0x1a
    ensures FeedAll(FRESH, open + [c]) == FRESH && FeedAll(FRESH, open + [0x5b] + parameters + [c]) == FRESH
    ensures FeedAll(FRESH, open + [0x1b]) == Tail(Escape, [0x1b])
    ensures FeedAll(FRESH, open + [0x5b] + parameters + [0x1b]) == Tail(Escape, [0x1b])
    ensures FeedAll(FRESH, open + [introducer] + body + [c]).mode == StringMode
  {
    assert Units([]) == 0 && Units([0x1b]) == 1 by { UnitsOfTwo(0x1b, 0x1b); }
    hide Units;
    InsideEscape(open);
    InsideCsi(open, parameters);
    InsideString(open, introducer, body);
    FeedMore(FRESH, open, c);
    FeedMore(FRESH, open, 0x1b);
    FeedMore(FRESH, open + [0x5b] + parameters, c);
    FeedMore(FRESH, open + [0x5b] + parameters, 0x1b);
    FeedMore(FRESH, open + [introducer] + body, c);
  }

  // ---- unfinished sequences ----

  /** What is carried of an unfinished sequence within the cap: all of it, but of a string only the
    * opening, and the escape that might end it. */
  lemma UnfinishedIsCarried(open: Text, parameters: Text, introducer: nat, body: Text)
    requires EscapeOpen(open) && AllParameter(parameters) && Introducer(introducer) && Body(body)
    requires Units(open + [0x5b] + parameters) <= 256 && Units(open + [introducer]) <= 256
    ensures Carried(FeedAll(FRESH, open)) == open
    ensures Carried(FeedAll(FRESH, open + [0x5b] + parameters)) == open + [0x5b] + parameters
    ensures Carried(FeedAll(FRESH, open + [introducer] + body))
         == open + [introducer] + (if body != [] && body[|body| - 1] == 0x1b then [0x1b] else [])
  {
    hide Units, FeedAll, Carried;
    UnitsAppend(open, introducer);
    UnfinishedEscape(open);
    UnfinishedCsi(open, parameters);
    UnfinishedString(open, introducer, body);
  }

  lemma {:induction false} UnitsFront(text: Text, n: nat)
    requires n <= |text|
    ensures Units(text[..n]) <= Units(text)
  {
    if n < |text| {
      UnitsFront(text[..|text| - 1], n);
      assert text[..|text| - 1][..n] == text[..n];
    } else {
      assert text[..n] == text;
    }
  }

  lemma UnfinishedEscape(open: Text)
    requires EscapeOpen(open) && Units(open) <= 256
    ensures Carried(FeedAll(FRESH, open)) == open
  {
    assert EscapePrefix(open);
    FeedsIntermediates(open);
    assert open + [] == open;
  }

  lemma UnfinishedCsi(open: Text, parameters: Text)
    requires EscapeOpen(open) && AllParameter(parameters) && Units(open + [0x5b] + parameters) <= 256
    ensures Carried(FeedAll(FRESH, open + [0x5b] + parameters)) == open + [0x5b] + parameters
  {
    hide Units;
    var csi := open + [0x5b] + parameters;
    assert csi[..|open|] == open && csi[|open| + 1..] == parameters;
    assert EscapePrefix(open) && Parameters(parameters);
    FeedsParameters(csi, |open|);
    assert csi + [] == csi;
  }

  lemma UnfinishedString(open: Text, introducer: nat, body: Text)
    requires EscapeOpen(open) && Introducer(introducer) && Body(body) && Units(open + [introducer]) <= 256
    ensures Carried(FeedAll(FRESH, open + [introducer] + body))
         == open + [introducer] + (if body != [] && body[|body| - 1] == 0x1b then [0x1b] else [])
  {
    hide Units;
    var opening := open + [introducer];
    assert opening[..|open|] == open && EscapePrefix(open);
    FeedsString(opening);
    KeepsOpening(opening, body);
    assert opening + [] == opening;
  }

  /** Inside a string the prefix stays what it was. */
  lemma {:induction false} KeepsOpening(opening: Text, body: Text)
    requires FeedAll(FRESH, opening) == Tail(StringMode, opening) && Body(body)
    ensures FeedAll(FRESH, opening + body).prefix == opening && Stringy(FeedAll(FRESH, opening + body))
    ensures FeedAll(FRESH, opening + body).mode == StringEscape <==> body != [] && body[|body| - 1] == 0x1b
    decreases |body|
  {
    if body == [] {
      assert opening + [] == opening;
    } else {
      var front, last := body[..|body| - 1], body[|body| - 1];
      assert opening + body == opening + front + [last];
      ShorterBody(body);
      KeepsOpening(opening, front);
      FeedMore(FRESH, opening + front, last);
    }
  }
}
