/** The line channel between the runner and its sandbox process (services/runner/adapters/docker.ts): chunks come in,
    lines go out to whoever asked first. */
module LineChannel {
  import opened Domain

  // ----- what the stream means

  function IndexOf(s: string, c: char): (k: nat)
    ensures k <= |s| && (forall i :: 0 <= i < k ==> s[i] != c) && (k < |s| ==> s[k] == c)
  {
    if s == "" || s[0] == c then 0 else 1 + IndexOf(s[1..], c)
  }

  /** replace(/\r$/, ""): one carriage return at the very end. */
  function StripReturn(line: string): string {
    if line != "" && line[|line| - 1] == '\r' then line[..|line| - 1] else line
  }

  /** The complete lines of a text. */
  function Lines(s: string): seq<string>
    decreases |s|
  {
    var k := IndexOf(s, '\n');
    if k == |s| then [] else [StripReturn(s[..k])] + Lines(s[k + 1..])
  }

  /** What follows the last line break. */
  function Tail(s: string): string
    decreases |s|
  {
    var k := IndexOf(s, '\n');
    if k == |s| then s else Tail(s[k + 1..])
  }

  lemma {:induction false} FirstBreak(a: string, b: string)
    ensures IndexOf(a, '\n') < |a| ==> IndexOf(a + b, '\n') == IndexOf(a, '\n')
  {
    if a != "" && a[0] != '\n' {
      FirstBreak(a[1..], b);
      assert (a + b)[1..] == a[1..] + b;
    }
  }

  lemma AfterBreak(s: string, k: nat)
    requires k == IndexOf(s, '\n') < |s|
    ensures Lines(s) == [StripReturn(s[..k])] + Lines(s[k + 1..]) && Tail(s) == Tail(s[k + 1..])
  {
  }

  lemma WithoutBreak(s: string)
    requires IndexOf(s, '\n') == |s|
    ensures Lines(s) == [] && Tail(s) == s
  {
  }

  /** Cutting the stream anywhere changes nothing. */
  lemma {:induction false} CutAnywhere(a: string, b: string)
    ensures Lines(a + b) == Lines(a) + Lines(Tail(a) + b)
    ensures Tail(a + b) == Tail(Tail(a) + b)
    decreases |a|
  {
    hide Lines, Tail;
    var k := IndexOf(a, '\n');
    if k == |a| {
      WithoutBreak(a);
      assert [] + Lines(a + b) == Lines(a + b);
    } else {
      FirstBreak(a, b);
      AfterBreak(a, k);
      AfterBreak(a + b, k);
      assert (a + b)[..k] == a[..k] && (a + b)[k + 1..] == a[k + 1..] + b;
      CutAnywhere(a[k + 1..], b);
      var first := [StripReturn(a[..k])];
      assert first + (Lines(a[k + 1..]) + Lines(Tail(a) + b)) == first + Lines(a[k + 1..]) + Lines(Tail(a) + b);
    }
  }

  lemma {:induction false} TailHasNoBreak(s: string)
    ensures Lines(Tail(s)) == [] && Tail(Tail(s)) == Tail(s)
    decreases |s|
  {
    var k := IndexOf(s, '\n');
    if k < |s| {
      TailHasNoBreak(s[k + 1..]);
    }
  }

  /** Raw lines, each ended by its break. */
  function Broken(raws: seq<string>): string {
    if raws == [] then "" else raws[0] + "\n" + Broken(raws[1..])
  }

  /** A line as handed out: the raw line without the carriage return of a two-character break. */
  predicate HandedAs(raw: string, line: string) {
    if raw != "" && raw[|raw| - 1] == '\r' then line + "\r" == raw else line == raw
  }

  ghost predicate LinesOfText(s: string, raws: seq<string>, lines: seq<string>, tail: string) {
    && s == Broken(raws) + tail && |lines| == |raws| && '\n' !in tail
    && forall i :: 0 <= i < |raws| ==> '\n' !in raws[i] && HandedAs(raws[i], lines[i])
  }

  /** The lines are the text: put back with their breaks and followed by the unfinished one, they are what came in, and
      no break is left inside any of them. */
  lemma {:induction false} LinesAreTheText(s: string)
    ensures exists raws :: LinesOfText(s, raws, Lines(s), Tail(s))
    decreases |s|
  {
    hide Lines, Tail, HandedAs, StripReturn;
    var k := IndexOf(s, '\n');
    if k == |s| {
      WithoutBreak(s);
      assert "" + s == s;
      assert LinesOfText(s, [], Lines(s), Tail(s));
    } else {
      AfterBreak(s, k);
      LinesAreTheText(s[k + 1..]);
      var rest :| LinesOfText(s[k + 1..], rest, Lines(s[k + 1..]), Tail(s[k + 1..]));
      StrippedIsHanded(s[..k]);
      OneMoreLine(s[..k], StripReturn(s[..k]), s[k + 1..], rest, Lines(s[k + 1..]), Tail(s));
      assert s == s[..k] + "\n" + s[k + 1..];
    }
  }

  lemma OneMoreLine(raw: string, line: string, s: string, rest: seq<string>, lines: seq<string>, tail: string)
    requires '\n' !in raw && HandedAs(raw, line) && LinesOfText(s, rest, lines, tail)
    ensures LinesOfText(raw + "\n" + s, [raw] + rest, [line] + lines, tail)
  {
    hide HandedAs;
    BrokenStep(raw, rest, tail);
    hide Broken;
    forall i | 0 <= i < |[raw] + rest|
      ensures '\n' !in ([raw] + rest)[i] && HandedAs(([raw] + rest)[i], ([line] + lines)[i])
    {
      if i > 0 {
        assert ([raw] + rest)[i] == rest[i - 1] && ([line] + lines)[i] == lines[i - 1];
      }
    }
  }

  lemma BrokenStep(raw: string, rest: seq<string>, tail: string)
    ensures Broken([raw] + rest) + tail == raw + "\n" + (Broken(rest) + tail)
  {
    assert ([raw] + rest)[1..] == rest;
  }

  lemma StrippedIsHanded(raw: string)
    ensures HandedAs(raw, StripReturn(raw))
  {
    if raw != "" && raw[|raw| - 1] == '\r' {
      assert raw == raw[..|raw| - 1] + "\r";
    }
  }

  // ----- the channel

  datatype Failure = Overflow | Exited | DeadlineExceeded

  /** How a call to next ended, or that it is still waiting under its ticket. */
  datatype Answer = Line(line: string) | Failure(failure: Failure) | Waiting(ticket: nat)

  datatype Delivery = Delivery(ticket: nat, line: string)

  function Texts(delivered: seq<Delivery>): seq<string> {
    seq(|delivered|, i requires 0 <= i < |delivered| => delivered[i].line)
  }

  lemma TextsAppend(delivered: seq<Delivery>, d: Delivery)
    ensures Texts(delivered + [d]) == Texts(delivered) + [d.line]
  {
  }

  predicate Increasing(tickets: seq<nat>) {
    forall i, j :: 0 <= i < j < |tickets| ==> tickets[i] < tickets[j]
  }

  type Rejections = map<nat, Failure>

  /** Callers are served in the order they asked, each at most once, and someone waits only while there is nothing to
      hand out and more may come. */
  predicate InOrder(waiters: seq<nat>, lines: seq<string>, closed: bool, delivered: seq<Delivery>, rejected: Rejections,
                    calls: nat)
  {
    && Increasing(waiters)
    && (waiters != [] ==> lines == [] && !closed)
    && (forall i, j :: 0 <= i < j < |delivered| ==> delivered[i].ticket < delivered[j].ticket)
    && (forall i, j :: 0 <= i < |delivered| && 0 <= j < |waiters| ==> delivered[i].ticket < waiters[j])
    && (forall i :: 0 <= i < |delivered| ==> delivered[i].ticket < calls && delivered[i].ticket !in rejected)
    && (forall j :: 0 <= j < |waiters| ==> waiters[j] < calls && waiters[j] !in rejected)
    && (forall t :: t in rejected ==> t < calls)
  }

  lemma DroppedBag(waiters: seq<nat>, i: nat)
    requires i < |waiters| && Increasing(waiters)
    ensures waiters[i] !in waiters[..i] + waiters[i + 1..]
    ensures multiset(waiters[..i] + waiters[i + 1..]) == multiset(waiters) - multiset{waiters[i]}
  {
    assert waiters == waiters[..i] + [waiters[i]] + waiters[i + 1..];
  }

  lemma DroppedOrder(waiters: seq<nat>, i: nat)
    requires i < |waiters| && Increasing(waiters)
    ensures Increasing(waiters[..i] + waiters[i + 1..])
    ensures forall w :: w in waiters[..i] + waiters[i + 1..] ==> w in waiters && w != waiters[i]
  {
  }

  lemma Dropped(waiters: seq<nat>, i: nat, lines: seq<string>, closed: bool, delivered: seq<Delivery>,
                rejected: Rejections,
                calls: nat, failure: Failure)
    requires i < |waiters| && InOrder(waiters, lines, closed, delivered, rejected, calls)
    ensures InOrder(waiters[..i] + waiters[i + 1..], lines, closed, delivered, rejected[waiters[i] := failure], calls)
    ensures waiters[i] !in waiters[..i] + waiters[i + 1..]
    ensures multiset(waiters[..i] + waiters[i + 1..]) == multiset(waiters) - multiset{waiters[i]}
  {
    hide Increasing;
    DroppedBag(waiters, i);
    DroppedOrder(waiters, i);
    var rest := waiters[..i] + waiters[i + 1..];
    forall j | 0 <= j < |rest|
      ensures rest[j] in waiters && rest[j] != waiters[i]
    {
      assert rest[j] in rest;
    }
  }

  lemma AllRejected(waiters: seq<nat>, lines: seq<string>, delivered: seq<Delivery>, rejected: Rejections, calls: nat,
                    failure: Failure)
    requires InOrder(waiters, lines, false, delivered, rejected, calls)
    ensures InOrder([], lines, true, delivered, rejected + map t | t in waiters :: failure, calls)
  {
    forall i | 0 <= i < |delivered|
      ensures delivered[i].ticket !in waiters
    {
    }
  }

  lemma NobodyWaitsClosed(waiters: seq<nat>, lines: seq<string>, closed: bool, delivered: seq<Delivery>,
                          rejected: Rejections, calls: nat)
    requires InOrder(waiters, lines, closed, delivered, rejected, calls)
    ensures closed ==> waiters == []
  {
  }

  lemma Waited(waiters: seq<nat>, lines: seq<string>, closed: bool, delivered: seq<Delivery>, rejected: Rejections,
               calls: nat)
    requires InOrder(waiters, lines, closed, delivered, rejected, calls) && waiters != []
    ensures lines == [] && !closed
  {
  }

  lemma ServedFirst(waiters: seq<nat>, closed: bool, delivered: seq<Delivery>, rejected: Rejections, calls: nat,
                    line: string)
    requires waiters != [] && InOrder(waiters, [], closed, delivered, rejected, calls)
    ensures InOrder(waiters[1..], [], closed, delivered + [Delivery(waiters[0], line)], rejected, calls)
  {
  }

  lemma QueuedLine(lines: seq<string>, closed: bool, delivered: seq<Delivery>, rejected: Rejections, calls: nat,
                   line: string)
    requires InOrder([], lines, closed, delivered, rejected, calls)
    ensures InOrder([], lines + [line], closed, delivered, rejected, calls)
  {
  }

  lemma ServedNow(lines: seq<string>, closed: bool, delivered: seq<Delivery>, rejected: Rejections, calls: nat)
    requires lines != [] && InOrder([], lines, closed, delivered, rejected, calls)
    ensures InOrder([], lines[1..], closed, delivered + [Delivery(calls, lines[0])], rejected, calls + 1)
  {
  }

  lemma TurnedAway(waiters: seq<nat>, lines: seq<string>, closed: bool, delivered: seq<Delivery>, rejected: Rejections,
                   calls: nat, failure: Failure)
    requires InOrder(waiters, lines, closed, delivered, rejected, calls)
    ensures InOrder(waiters, lines, closed, delivered, rejected[calls := failure], calls + 1)
  {
  }

  lemma QueuedUp(waiters: seq<nat>, delivered: seq<Delivery>, rejected: Rejections, calls: nat)
    requires InOrder(waiters, [], false, delivered, rejected, calls)
    ensures InOrder(waiters + [calls], [], false, delivered, rejected, calls + 1)
  {
  }

  lemma NobodyWaits(waiters: seq<nat>, lines: seq<string>, closed: bool, delivered: seq<Delivery>, rejected: Rejections,
                    calls: nat)
    requires InOrder(waiters, lines, closed, delivered, rejected, calls) && lines != []
    ensures waiters == []
  {
  }

  class Channel {
    const maxBytes: nat
    var buffer: string
    var lines: seq<string>
    var waiters: seq<nat>
    var closedError: Option<Failure>
    var bytes: nat
    var calls: nat
    ghost var received: string
    ghost var delivered: seq<Delivery>
    ghost var rejected: Rejections

    constructor (maxBytes: nat)
      ensures Valid() && this.maxBytes == maxBytes && received == "" && calls == 0 && closedError.None?
    {
      this.maxBytes := maxBytes;
      buffer, lines, waiters, closedError, bytes, calls := "", [], [], None, 0, 0;
      received, delivered, rejected := "", [], map[];
    }

    /** Nothing lost, repeated or reordered: what was handed out, then what is queued, are the stream's complete lines;
        the buffer is its unfinished line. */
    ghost predicate InStep()
      reads this
    {
      Texts(delivered) + lines == Lines(received) && buffer == Tail(received)
    }

    ghost predicate Fair()
      reads this
    {
      InOrder(waiters, lines, closedError.Some?, delivered, rejected, calls)
    }

    ghost predicate Valid()
      reads this
    {
      InStep() && Fair()
    }

    /** One finished line goes to the longest-waiting caller, or into the queue. */
    method Deliver(line: string)
      requires Fair()
      modifies this`waiters, this`lines, this`delivered
      ensures Fair()
      ensures Texts(delivered) + lines == old(Texts(delivered) + lines) + [line]
      ensures old(waiters) == [] ==> waiters == [] && delivered == old(delivered) && lines == old(lines) + [line]
      ensures old(waiters) != [] ==>
                waiters == old(waiters)[1..] && lines == old(lines)
                  && delivered == old(delivered) + [Delivery(old(waiters)[0], line)]
    {
      hide InOrder, Texts;
      if waiters != [] {
        var first := waiters[0];
        Waited(waiters, lines, closedError.Some?, delivered, rejected, calls);
        ServedFirst(waiters, closedError.Some?, delivered, rejected, calls, line);
        waiters := waiters[1..];
        TextsAppend(delivered, Delivery(first, line));
        delivered := delivered + [Delivery(first, line)];
      } else {
        QueuedLine(lines, closedError.Some?, delivered, rejected, calls, line);
        lines := lines + [line];
      }
    }

    method Close(failure: Failure)
      requires Valid()
      modifies this`waiters, this`closedError, this`rejected
      ensures Valid()
      ensures old(closedError).Some? ==>
              closedError == old(closedError) && waiters == old(waiters) && rejected == old(rejected)
      ensures old(closedError).None? ==>
                && closedError == Some(failure) && waiters == []
                && rejected == old(rejected) + map t | t in old(waiters) :: failure
    {
      hide InOrder, Lines, Tail;
      if closedError.Some? {
        return;
      }
      AllRejected(waiters, lines, delivered, rejected, calls, failure);
      closedError := Some(failure);
      ghost var waiting := waiters;
      rejected := rejected + map t | t in waiting :: failure;
      waiters := [];
    }

    /** Hands out every complete line of the buffer. */
    method HandOut()
      requires Fair()
      modifies this`buffer, this`waiters, this`lines, this`delivered
      ensures Fair() && old(delivered) <= delivered
      ensures Texts(delivered) + lines == old(Texts(delivered) + lines) + Lines(old(buffer))
      ensures buffer == Tail(old(buffer))
    {
      hide InOrder, Lines, Tail, Texts;
      ghost var handed: seq<string> := [];
      ghost var before := Texts(delivered) + lines;
      assert handed + Lines(buffer) == Lines(buffer) && before + handed == before;
      while true
        invariant Fair() && old(delivered) <= delivered
        invariant Texts(delivered) + lines == before + handed
        invariant handed + Lines(buffer) == Lines(old(buffer)) && Tail(buffer) == Tail(old(buffer))
        decreases |buffer|
      {
        var newline := IndexOf(buffer, '\n');
        if newline == |buffer| {
          WithoutBreak(buffer);
          assert handed + [] == handed;
          break;
        }
        AfterBreak(buffer, newline);
        var line := StripReturn(buffer[..newline]);
        buffer := buffer[newline + 1..];
        Deliver(line);
        assert handed + ([line] + Lines(buffer)) == handed + [line] + Lines(buffer);
        assert before + handed + [line] == before + (handed + [line]);
        handed := handed + [line];
      }
    }

    /** A chunk of `size` bytes that decodes to `text`. */
    method Push(text: string, size: nat)
      requires Valid()
      modifies this
      ensures Valid() && calls == old(calls)
      ensures bytes == old(bytes) + size
      ensures if old(bytes) + size > maxBytes
              then received == old(received) && delivered == old(delivered) && lines == old(lines) && waiters == []
                && closedError == (if old(closedError).Some? then old(closedError) else Some(Overflow))
                && rejected == old(rejected) + map t | t in old(waiters) :: Overflow
              else received == old(received) + text && closedError == old(closedError) && rejected == old(rejected)
                   && old(delivered) <= delivered
    {
      hide InOrder, Lines, Tail, Texts;
      bytes := bytes + size;
      if bytes > maxBytes {
        NobodyWaitsClosed(waiters, lines, closedError.Some?, delivered, rejected, calls);
        Close(Overflow);
        return;
      }
      CutAnywhere(received, text);
      ghost var before, earlier := Texts(delivered) + lines, Lines(received);
      assert before == earlier;
      buffer := buffer + text;
      received := received + text;
      HandOut();
    }

    /** A queued line, the closing error, a passed deadline - or a place in the queue. */
    method Next(remaining: int) returns (answer: Answer)
      requires Valid()
      modifies this`lines, this`waiters, this`calls, this`delivered, this`rejected
      ensures Valid() && calls == old(calls) + 1
      ensures match answer
              case Line(line) =>
                old(lines) != [] && line == old(lines)[0] && delivered == old(delivered) + [Delivery(old(calls), line)]
              case Failure(failure) =>
                old(lines) == [] && delivered == old(delivered) && rejected == old(rejected)[old(calls) := failure]
                && failure == if closedError.Some? then closedError.value else DeadlineExceeded
              case Waiting(ticket) =>
                old(lines) == [] && ticket == old(calls) && waiters == old(waiters) + [ticket] && closedError.None?
                  && remaining > 0
    {
      hide InOrder, Lines, Tail;
      var ticket := calls;
      calls := calls + 1;
      if lines != [] {
        NobodyWaits(waiters, lines, closedError.Some?, delivered, rejected, ticket);
        ServedNow(lines, closedError.Some?, delivered, rejected, ticket);
        var line := lines[0];
        TextsAppend(delivered, Delivery(ticket, line));
        assert Texts(delivered) + [line] + lines[1..] == Texts(delivered) + lines;
        lines := lines[1..];
        delivered := delivered + [Delivery(ticket, line)];
        return Line(line);
      }
      if closedError.Some? {
        TurnedAway(waiters, lines, true, delivered, rejected, ticket, closedError.value);
        rejected := rejected[ticket := closedError.value];
        return Answer.Failure(closedError.value);
      }
      if remaining <= 0 {
        TurnedAway(waiters, lines, false, delivered, rejected, ticket, DeadlineExceeded);
        rejected := rejected[ticket := DeadlineExceeded];
        return Answer.Failure(DeadlineExceeded);
      }
      QueuedUp(waiters, delivered, rejected, ticket);
      waiters := waiters + [ticket];
      return Waiting(ticket);
    }

    /** A waiter's timer fires: it leaves the queue, unless it was answered first. */
    method TimeOut(ticket: nat)
      requires Valid()
      modifies this`waiters, this`rejected
      ensures Valid()
      ensures ticket !in waiters
      ensures if ticket in old(waiters)
              then rejected == old(rejected)[ticket := DeadlineExceeded]
                && exists i :: 0 <= i < |old(waiters)| && old(waiters)[i] == ticket
                               && waiters == old(waiters)[..i] + old(waiters)[i + 1..]
              else rejected == old(rejected) && waiters == old(waiters)
    {
      var i := 0;
      while i < |waiters| && waiters[i] != ticket
        invariant 0 <= i <= |waiters| && ticket !in waiters[..i]
      {
        i := i + 1;
      }
      if i == |waiters| {
        return;
      }
      hide InOrder;
      Dropped(waiters, i, lines, closedError.Some?, delivered, rejected, calls, DeadlineExceeded);
      waiters := waiters[..i] + waiters[i + 1..];
      rejected := rejected[ticket := DeadlineExceeded];
    }
  }

  /** Two channels fed the same bytes in different chunks, asked in whatever pattern, hand out the same lines: each has
      delivered a prefix of the stream's lines and queued the rest. */
  lemma ChunksDoNotMatter(a: Channel, b: Channel)
    requires a.Valid() && b.Valid() && a.received == b.received
    ensures Texts(a.delivered) + a.lines == Texts(b.delivered) + b.lines && a.buffer == b.buffer
    ensures |a.delivered| <= |b.delivered| ==> Texts(a.delivered) <= Texts(b.delivered)
  {
    assert Texts(a.delivered) == (Texts(a.delivered) + a.lines)[..|a.delivered|];
    assert Texts(b.delivered) == (Texts(b.delivered) + b.lines)[..|b.delivered|];
  }

  /** The received text is all that counts, so pushing it whole or cut in two leaves the same lines. */
  lemma {:induction false} PushedInPieces(chunks: seq<string>)
    ensures Lines(Joined(chunks)) == LinesOf(chunks, "").0 && Tail(Joined(chunks)) == LinesOf(chunks, "").1
    decreases |chunks|
  {
    PushedOnto(chunks, "");
    assert "" + Joined(chunks) == Joined(chunks);
  }

  function Joined(chunks: seq<string>): string {
    if chunks == [] then "" else chunks[0] + Joined(chunks[1..])
  }

  /** Chunk by chunk, carrying the unfinished line. */
  function LinesOf(chunks: seq<string>, carried: string): (seq<string>, string) {
    if chunks == [] then ([], carried)
    else
      var text := carried + chunks[0];
      var (later, rest) := LinesOf(chunks[1..], Tail(text));
      (Lines(text) + later, rest)
  }

  lemma {:induction false} PushedOnto(chunks: seq<string>, carried: string)
    requires Lines(carried) == [] && Tail(carried) == carried
    ensures Lines(carried + Joined(chunks)) == LinesOf(chunks, carried).0
    ensures Tail(carried + Joined(chunks)) == LinesOf(chunks, carried).1
    decreases |chunks|
  {
    if chunks == [] {
      assert carried + "" == carried;
    } else {
      var text := carried + chunks[0];
      assert carried + Joined(chunks) == text + Joined(chunks[1..]);
      CutAnywhere(text, Joined(chunks[1..]));
      TailHasNoBreak(text);
      PushedOnto(chunks[1..], Tail(text));
    }
  }
}
