/** The incremental reader of newline-delimited JSON in wire.js. */
module Wire {
  import opened Prelude

  const NEWLINE := 10

  datatype Failure = TooLarge | BadMessage | Truncated

  /** A line's JSON object, if it is one. */
  type Accept<!M> = bytes -> Option<M>

  /** Messages read so far, why reading stopped, and the bytes still buffered. */
  datatype Outcome<M> = Outcome(messages: seq<M>, failure: Option<Failure>, pending: bytes)

  /** `indexOf(10)`, with the length for "none". */
  function IndexOf(data: bytes): (n: nat)
    ensures n <= |data| && (n < |data| ==> data[n] == NEWLINE) && forall i :: 0 <= i < n ==> data[i] != NEWLINE
  {
    if data == [] || data[0] == NEWLINE then 0 else 1 + IndexOf(data[1..])
  }

  /** The whole stream split on newlines: the specification. */
  function Whole<M>(limit: nat, accept: Accept<M>, stream: bytes): Outcome<M>
    decreases |stream|
  {
    var n := IndexOf(stream);
    if n > limit then Outcome([], Some(TooLarge), stream)
    else if n == |stream| then Outcome([], None, stream)
    else
      var rest := stream[n + 1..];
      if n == 0 then Whole(limit, accept, rest)
      else
        match accept(stream[..n])
        case None => Outcome([], Some(BadMessage), rest)
        case Some(message) =>
          var after := Whole(limit, accept, rest);
          after.(messages := [message] + after.messages)
  }

  function Concat(chunks: seq<bytes>): bytes {
    if chunks == [] then [] else Concat(chunks[..|chunks| - 1]) + chunks[|chunks| - 1]
  }

  /** What one more chunk does. */
  function Received<M>(limit: nat, accept: Accept<M>, before: Outcome<M>, chunk: bytes): Outcome<M> {
    if before.failure.Some? then before
    else
      var step := Whole(limit, accept, before.pending + chunk);
      step.(messages := before.messages + step.messages)
  }

  function ReadAll<M>(limit: nat, accept: Accept<M>, chunks: seq<bytes>): Outcome<M> {
    if chunks == [] then Outcome([], None, [])
    else Received(limit, accept, ReadAll(limit, accept, chunks[..|chunks| - 1]), chunks[|chunks| - 1])
  }

  // ---- the reader ----

  /** The closure's variables; its callbacks are what `Data` and `End` return. */
  class MessageReader<M> {
    const limit: nat
    const accept: Accept<M>
    var pending: bytes
    var failed: bool

    constructor (limit: nat, accept: Accept<M>)
      ensures this.limit == limit && this.accept == accept && pending == [] && !failed
    {
      this.limit, this.accept := limit, accept;
      pending, failed := [], false;
    }

    method Data(chunk: bytes) returns (messages: seq<M>, error: Option<Failure>)
      modifies this
      ensures old(failed) ==> messages == [] && error == None && failed && pending == old(pending)
      ensures !old(failed) ==>
        (var step := Whole(limit, accept, old(pending) + chunk);
         messages == step.messages && error == step.failure && pending == step.pending && failed == step.failure.Some?)
    {
      messages, error := [], None;
      if failed {
        return;
      }
      pending := pending + chunk;
      ghost var all := pending;
      var newline := IndexOf(pending);
      while newline < |pending|
        invariant newline == IndexOf(pending) && !failed && error == None
        invariant Whole(limit, accept, all) == Prefixed(messages, Whole(limit, accept, pending))
        decreases |pending|
      {
        if newline > limit {
          failed, error := true, Some(TooLarge);
          return;
        }
        var line := pending[..newline];
        pending := pending[newline + 1..];
        if |line| > 0 {
          var message := accept(line);
          if message.None? {
            failed, error := true, Some(BadMessage);
            return;
          }
          messages := messages + [message.value];
        }
        newline := IndexOf(pending);
      }
      if |pending| > limit {
        failed, error := true, Some(TooLarge);
      }
    }

    /** The stream's end complains about a partial message, unless something else failed before. */
    method End() returns (error: Option<Failure>)
      ensures error == if !failed && pending != [] then Some(Truncated) else None
    {
      error := None;
      if !failed && |pending| > 0 {
        error := Some(Truncated);
      }
    }
  }

  function Prefixed<M>(messages: seq<M>, o: Outcome<M>): Outcome<M> {
    o.(messages := messages + o.messages)
  }

  // ---- chunking ----

  lemma {:induction false} IndexInFront(a: bytes, b: bytes)
    ensures IndexOf(a) < |a| ==> IndexOf(a + b) == IndexOf(a)
    ensures IndexOf(a) == |a| ==> IndexOf(a + b) >= |a|
  {
    if a != [] {
      assert (a + b)[1..] == a[1..] + b;
      IndexInFront(a[1..], b);
    }
  }

  /** One line of a stream, and the rest of it. */
  function Line<M>(limit: nat, accept: Accept<M>, line: bytes, after: Outcome<M>, rest: bytes): Outcome<M> {
    if line == [] then after
    else
      match accept(line)
      case None => Outcome([], Some(BadMessage), rest)
      case Some(message) => Prefixed([message], after)
  }

  lemma WholeLine<M>(limit: nat, accept: Accept<M>, stream: bytes)
    requires IndexOf(stream) <= limit && IndexOf(stream) < |stream|
    ensures var n := IndexOf(stream);
      Whole(limit, accept, stream) == Line(limit, accept, stream[..n], Whole(limit, accept, stream[n + 1..]),
                                           stream[n + 1..])
  {
  }

  lemma WholePart<M>(limit: nat, accept: Accept<M>, a: bytes, b: bytes)
    requires IndexOf(a) > limit || IndexOf(a) == |a|
    ensures AddsUp(Whole(limit, accept, a), Whole(limit, accept, a + b),
                   Whole(limit, accept, Whole(limit, accept, a).pending + b))
  {
    IndexInFront(a, b);
  }

  /** Reading `all` is reading `first`, then what it left together with the rest. */
  ghost predicate AddsUp<M>(first: Outcome<M>, all: Outcome<M>, second: Outcome<M>) {
    && (first.failure.Some? ==> all.messages == first.messages && all.failure == first.failure)
    && (first.failure.None? ==> all == Prefixed(first.messages, second))
  }

  /** Reading a stream after part of it was read adds up to reading all of it. */
  lemma {:induction false} WholeInTwo<M>(limit: nat, accept: Accept<M>, a: bytes, b: bytes)
    ensures AddsUp(Whole(limit, accept, a), Whole(limit, accept, a + b),
                   Whole(limit, accept, Whole(limit, accept, a).pending + b))
    decreases |a|
  {
    hide Whole;
    var n := IndexOf(a);
    if n <= limit && n < |a| {
      IndexInFront(a, b);
      assert (a + b)[..n] == a[..n] && (a + b)[n + 1..] == a[n + 1..] + b;
      WholeInTwo(limit, accept, a[n + 1..], b);
      WholeLine(limit, accept, a);
      WholeLine(limit, accept, a + b);
    } else {
      WholePart(limit, accept, a, b);
    }
  }

  lemma {:induction false} NothingBuffered<M>(limit: nat, accept: Accept<M>, stream: bytes)
    requires Whole(limit, accept, stream).failure.None?
    ensures var pending := Whole(limit, accept, stream).pending; |pending| <= limit && IndexOf(pending) == |pending|
    decreases |stream|
  {
    var n := IndexOf(stream);
    if n < |stream| {
      NothingBuffered(limit, accept, stream[n + 1..]);
    }
  }

  /** However a stream is cut into chunks, the messages and the failure are those of the whole
    * stream split on newlines; while nothing failed, the buffer has no newline and is within the
    * limit. */
  lemma {:induction false} ChunksDoNotMatter<M>(limit: nat, accept: Accept<M>, chunks: seq<bytes>)
    ensures var read, whole := ReadAll(limit, accept, chunks), Whole(limit, accept, Concat(chunks));
      && read.messages == whole.messages && read.failure == whole.failure
      && (read.failure.None? ==> read.pending == whole.pending && |read.pending| <= limit && NEWLINE !in read.pending)
    decreases |chunks|
  {
    if chunks != [] {
      var front, last := chunks[..|chunks| - 1], chunks[|chunks| - 1];
      ChunksDoNotMatter(limit, accept, front);
      WholeInTwo(limit, accept, Concat(front), last);
    }
    if ReadAll(limit, accept, chunks).failure.None? {
      NothingBuffered(limit, accept, Concat(chunks));
    }
  }

  /** Two ways of cutting one stream read the same. */
  lemma SameStreamSameMessages<M>(limit: nat, accept: Accept<M>, chunks: seq<bytes>, others: seq<bytes>)
    requires Concat(chunks) == Concat(others)
    ensures var a, b := ReadAll(limit, accept, chunks), ReadAll(limit, accept, others);
      a.messages == b.messages && a.failure == b.failure && (a.failure.None? ==> a.pending == b.pending)
  {
    ChunksDoNotMatter(limit, accept, chunks);
    ChunksDoNotMatter(limit, accept, others);
  }

  // ---- what the messages are ----

  /** Lines, each with its newline. */
  function Lines(lines: seq<bytes>): bytes {
    if lines == [] then [] else lines[0] + [NEWLINE] + Lines(lines[1..])
  }

  /** What well-formed lines say: blank ones nothing. */
  function Read<M>(accept: Accept<M>, lines: seq<bytes>): seq<M> {
    if lines == [] then []
    else
      (match accept(lines[0]) case Some(message) => if lines[0] == [] then [] else [message] case None => [])
      + Read(accept, lines[1..])
  }

  /** A line without a newline, within the limit, and either blank or a message. */
  predicate GoodLine<M>(limit: nat, accept: Accept<M>, line: bytes) {
    NEWLINE !in line && |line| <= limit && (line != [] ==> accept(line).Some?)
  }

  lemma IndexAfter(line: bytes, rest: bytes)
    requires NEWLINE !in line
    ensures IndexOf(line + [NEWLINE] + rest) == |line|
    ensures var stream := line + [NEWLINE] + rest; stream[..|line|] == line && stream[|line| + 1..] == rest
  {
    var stream := line + [NEWLINE] + rest;
    assert stream[|line|] == NEWLINE;
    forall i | 0 <= i < |line| ensures stream[i] != NEWLINE {
      assert stream[i] == line[i] && line[i] in line;
    }
  }

  /** Good lines are read as what they say, in order, and what follows them is read as if it were alone. */
  lemma {:induction false} GoodLinesAreRead<M>(limit: nat, accept: Accept<M>, lines: seq<bytes>, rest: bytes)
    requires forall line :: line in lines ==> GoodLine(limit, accept, line)
    ensures Whole(limit, accept, Lines(lines) + rest) == Prefixed(Read(accept, lines), Whole(limit, accept, rest))
    decreases |lines|
  {
    hide Whole;
    if lines == [] {
      assert Lines(lines) + rest == rest;
    } else {
      var after := Lines(lines[1..]) + rest;
      assert Lines(lines) + rest == lines[0] + [NEWLINE] + after;
      assert GoodLine(limit, accept, lines[0]);
      IndexAfter(lines[0], after);
      WholeLine(limit, accept, Lines(lines) + rest);
      GoodLinesAreRead(limit, accept, lines[1..], rest);
    }
  }

  /** What stops the reading: a line that is no message, or a line or an end of the stream longer than the
    * limit. Without one of them everything is read, and what follows the last newline waits. */
  lemma StopsExactly<M>(limit: nat, accept: Accept<M>, line: bytes, rest: bytes)
    requires NEWLINE !in line
    ensures |line| > limit ==>
      Whole(limit, accept, line + [NEWLINE] + rest) == Outcome([], Some(TooLarge), line + [NEWLINE] + rest)
    ensures |line| <= limit && line != [] && accept(line).None? ==>
      Whole(limit, accept, line + [NEWLINE] + rest) == Outcome([], Some(BadMessage), rest)
    ensures Whole(limit, accept, line) == Outcome([], if |line| > limit then Some(TooLarge) else None, line)
  {
    IndexAfter(line, rest);
    forall i | 0 <= i < |line| ensures line[i] != NEWLINE {
      assert line[i] in line;
    }
  }
}
