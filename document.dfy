// The document content type: line by line it re-checks the open block
// containers (block quotes and list items, section 5 of CommonMark 0.30),
// opens new ones, hands the rest of the line to flow, applies the lazy
// continuation rule of section 5.1, and finally splices every container's
// Enter and Exit events back into the flow events at the right places.
//
// The container constructs and flow are not part of this model: each of
// their runs is an outcome handed in by the caller (did it succeed, which
// events did it produce).

module Document {
  import opened Events
  import opened EditMap

  datatype Container = BlockQuote | ListItem

  /** An open container: its kind and the state its construct keeps. */
  datatype ContainerState = ContainerState(kind: Container, blankInitial: bool, size: nat)

  /** The token a container's Enter and Exit events carry. */
  function TokenOf(kind: Container): Token
  {
    match kind
    case BlockQuote => Token.BlockQuote
    case ListItem => Token.ListItem
  }

  /** Per line: the container events parsed at its start (`before`) and the
      exits of containers that close after it (`after`). */
  datatype Slot = Slot(before: seq<Event>, after: seq<Event>)

  /** Where containers are closed: before a line's lazy flow, when a new
      container replaces existing ones, or at the end of the document. */
  datatype Phase = After | Prefix | Eof

  /** The state the document content type keeps across lines. */
  class Info {
    /** How many of the open containers the current line continued. */
    var continued: nat
    /** Where the current line's events start in the tokenizer's events. */
    var index: nat
    /** One slot per line started so far. */
    var inject: seq<Slot>
    var interruptBefore: bool
    var paragraphBefore: bool
    /** The open containers, outermost first. */
    var stack: seq<ContainerState>

    constructor ()
      ensures continued == 0 && index == 0 && inject == [] && stack == []
      ensures !interruptBefore && !paragraphBefore
    {
      continued := 0;
      index := 0;
      inject := [];
      interruptBefore := false;
      paragraphBefore := false;
      stack := [];
    }
  }

  /** The part of the tokenizer the document content type reads and writes. */
  class Tokenizer {
    var events: seq<Event>
    /** The open-token stack. */
    var tokens: seq<Token>
    var interrupt: bool
    var lazy: bool
    var concrete: bool
    /** The current point. */
    var point: Point
    const edits: EditMap

    constructor (point: Point, edits: EditMap)
      ensures this.point == point && this.edits == edits
      ensures events == [] && tokens == []
      ensures !interrupt && !lazy && !concrete
    {
      this.point := point;
      this.edits := edits;
      events := [];
      tokens := [];
      interrupt := false;
      lazy := false;
      concrete := false;
    }
  }

  /** What holds between the steps of a line: no more containers continued
      than are open, the line's start lies within the events, a line has
      been started, and a container that did not continue was opened on an
      earlier line. */
  predicate Valid(t: Tokenizer, info: Info)
    reads t, info
  {
    && info.continued <= |info.stack|
    && info.index <= |t.events|
    && |info.inject| >= 1
    && (info.continued < |info.stack| ==> |info.inject| >= 2)
  }

  /** The Exit events for closing `close` (outermost first), innermost first. */
  function Exits(close: seq<ContainerState>, point: Point): seq<Event>
  {
    if |close| == 0 then []
    else [Event(Exit, TokenOf(close[|close| - 1].kind), point)] + Exits(close[..|close| - 1], point)
  }

  /** There is one exit per closed container, and the `k`-th closes the
      `k`-th container counted from the innermost one. */
  lemma {:induction false} ExitsInnermostFirst(close: seq<ContainerState>, point: Point, k: nat)
    requires k < |close|
    ensures |Exits(close, point)| == |close|
    ensures Exits(close, point)[k] == Event(Exit, TokenOf(close[|close| - 1 - k].kind), point)
    decreases |close|
  {
    ExitsLength(close, point);
    if k > 0 {
      ExitsInnermostFirst(close[..|close| - 1], point, k - 1);
    }
  }

  lemma {:induction false} ExitsLength(close: seq<ContainerState>, point: Point)
    ensures |Exits(close, point)| == |close|
    decreases |close|
  {
    if |close| > 0 {
      ExitsLength(close[..|close| - 1], point);
    }
  }

  /** Builds the exits of `close` by popping it, as the source does. */
  method PopExits(close: seq<ContainerState>, point: Point) returns (exits: seq<Event>)
    ensures exits == Exits(close, point)
  {
    var left := close;
    exits := [];
    while |left| > 0
      invariant left == close[..|left|]
      invariant exits + Exits(left, point) == Exits(close, point)
    {
      var container := left[|left| - 1];
      ghost var rest := Exits(left[..|left| - 1], point);
      assert exits + ([Event(Exit, TokenOf(container.kind), point)] + rest)
          == (exits + [Event(Exit, TokenOf(container.kind), point)]) + rest;
      left := left[..|left| - 1];
      exits := exits + [Event(Exit, TokenOf(container.kind), point)];
    }
  }

  /** The slot `exit_containers` files the exits in: the previous line's,
      except at the end of the document, where it is the last line's. */
  function ExitSlot(inject: seq<Slot>, phase: Phase): nat
    requires |inject| >= (if phase == Eof then 1 else 2)
  {
    |inject| - (if phase == Eof then 1 else 2)
  }

  /** `inject` with the exits of `close` appended to the slot `phase` files them in. */
  function FileExits(inject: seq<Slot>, phase: Phase, close: seq<ContainerState>, point: Point): seq<Slot>
    requires |inject| >= (if phase == Eof then 1 else 2)
  {
    var s := ExitSlot(inject, phase);
    inject[s := Slot(inject[s].before, inject[s].after + Exits(close, point))]
  }

  /** Closes the containers the current line did not continue; before that,
      except at the end of the document, flushes a paused flow (which
      produces `flushed`) in front of the current line's events. Before a new
      container (`Prefix`) that is the previous line's flow: flushing ends it,
      and with it any concrete construct, so the concrete status becomes the
      flush's outcome `flushConcrete`. After a line's flow (`After`) the
      flushed state is a fresh start of flow, since the line's own paused flow
      is kept for the next line; it closes nothing and leaves the concrete
      status alone. */
  method ExitContainers(t: Tokenizer, info: Info, phase: Phase, flushed: seq<Event>, flushConcrete: bool)
    requires info.continued <= |info.stack| && info.index <= |t.events|
    requires |info.inject| >= (if phase == Eof then 1 else 2)
    modifies t, info
    ensures info.stack == old(info.stack[..info.continued])
    ensures t.events == if phase == Eof then old(t.events)
                        else old(t.events[..info.index]) + flushed + old(t.events[info.index..])
    ensures info.index == if phase == Prefix then old(info.index) + |flushed| else old(info.index)
    ensures info.inject == FileExits(old(info.inject), phase, old(info.stack[info.continued..]), t.point)
    ensures !info.interruptBefore
    ensures info.continued == old(info.continued) && info.paragraphBefore == old(info.paragraphBefore)
    ensures t.tokens == old(t.tokens) && t.point == old(t.point)
    ensures t.interrupt == old(t.interrupt) && t.lazy == old(t.lazy)
    ensures t.concrete == if phase == Prefix then flushConcrete else old(t.concrete)
  {
    var close := info.stack[info.continued..];
    info.stack := info.stack[..info.continued];
    if phase != Eof {
      var current := t.events[info.index..];
      t.events := t.events[..info.index] + flushed;
      if phase == Prefix {
        info.index := |t.events|;
        t.concrete := flushConcrete;
      }
      t.events := t.events + current;
    }
    var exits := PopExits(close, t.point);
    var slot := |info.inject| - (if phase == Eof then 1 else 2);
    info.inject := info.inject[slot := Slot(info.inject[slot].before, info.inject[slot].after + exits)];
    info.interruptBefore := false;
  }

  /** The index of the last occurrence of `token` in `tokens`, if any. */
  function LastIndex(tokens: seq<Token>, token: Token): (r: Option<nat>)
    ensures r.Some? <==> token in tokens
    ensures r.Some? ==> r.value < |tokens| && tokens[r.value] == token
  {
    if |tokens| == 0 then None
    else if tokens[|tokens| - 1] == token then Some(|tokens| - 1)
    else
      assert tokens == tokens[..|tokens| - 1] + [tokens[|tokens| - 1]];
      LastIndex(tokens[..|tokens| - 1], token)
  }

  /** No occurrence of the token lies after the one `LastIndex` finds. */
  lemma {:induction false} LastIndexIsLast(tokens: seq<Token>, token: Token)
    ensures LastIndex(tokens, token).Some? ==>
              forall k :: LastIndex(tokens, token).value < k < |tokens| ==> tokens[k] != token
    decreases |tokens|
  {
    if |tokens| > 0 && tokens[|tokens| - 1] != token {
      var init := tokens[..|tokens| - 1];
      LastIndexIsLast(init, token);
      assert tokens == init + [tokens[|tokens| - 1]];
    }
  }

  /** Removes the last occurrence of `token` from the open-token stack,
      searching from the top, and reports whether there was one. */
  method RemoveLast(t: Tokenizer, token: Token) returns (found: bool)
    modifies t
    ensures found == LastIndex(old(t.tokens), token).Some?
    ensures var i := LastIndex(old(t.tokens), token);
            t.tokens == if i.Some? then old(t.tokens[..i.value] + t.tokens[i.value + 1..]) else old(t.tokens)
    ensures t.events == old(t.events) && t.point == old(t.point)
    ensures t.interrupt == old(t.interrupt) && t.lazy == old(t.lazy) && t.concrete == old(t.concrete)
  {
    var tokens := t.tokens;
    var stackIndex := |tokens|;
    found := false;
    assert tokens[..stackIndex] == tokens;
    while stackIndex > 0
      invariant stackIndex <= |tokens| && tokens == old(t.tokens) == t.tokens
      invariant LastIndex(tokens, token) == LastIndex(tokens[..stackIndex], token)
    {
      stackIndex := stackIndex - 1;
      assert tokens[..stackIndex + 1][..stackIndex] == tokens[..stackIndex];
      if tokens[stackIndex] == token {
        t.tokens := tokens[..stackIndex] + tokens[stackIndex + 1..];
        found := true;
        return;
      }
    }
  }

  /** Starts a line: its events start at the current end, it gets an empty
      slot, no container has continued yet, and it is not interrupting. */
  method LineStart(t: Tokenizer, info: Info)
    requires info.continued <= |info.stack| && (|info.stack| > 0 ==> |info.inject| >= 1)
    modifies t, info
    ensures Valid(t, info)
    ensures info.index == |t.events| && info.inject == old(info.inject) + [Slot([], [])]
    ensures info.continued == 0 && !t.interrupt
    ensures info.stack == old(info.stack) && info.interruptBefore == old(info.interruptBefore)
    ensures info.paragraphBefore == old(info.paragraphBefore)
    ensures t.events == old(t.events) && t.tokens == old(t.tokens) && t.point == old(t.point)
    ensures t.lazy == old(t.lazy) && t.concrete == old(t.concrete)
  {
    info.index := |t.events|;
    info.inject := info.inject + [Slot([], [])];
    info.continued := 0;
    t.interrupt := false;
  }

  /** The outcome of trying an existing container's continuation on this
      line: whether it continued, and the events its prefix produced. */
  datatype Probe = Probe(ok: bool, events: seq<Event>)

  /** The events the probes `a` up to `b` produced, in order. */
  function Produced(probes: seq<Probe>, a: nat, b: nat): seq<Event>
    requires a <= b <= |probes|
    decreases b - a
  {
    if a == b then [] else probes[a].events + Produced(probes, a + 1, b)
  }

  lemma {:induction false} ProducedSnoc(probes: seq<Probe>, a: nat, b: nat)
    requires a <= b < |probes|
    ensures Produced(probes, a, b + 1) == Produced(probes, a, b) + probes[b].events
    decreases b - a
  {
    if a < b {
      ProducedSnoc(probes, a + 1, b);
    }
  }

  /** Taking the container at `i` out and putting it back leaves the stack as it was. */
  lemma RemoveInsert(stack: seq<ContainerState>, i: nat)
    requires i < |stack|
    ensures var rest := stack[..i] + stack[i + 1..];
            rest[..i] + [stack[i]] + rest[i..] == stack
  {
    var rest := stack[..i] + stack[i + 1..];
    assert rest[..i] == stack[..i];
    assert rest[i..] == stack[i + 1..];
  }

  /** The existing-container pass: checks the open containers outermost
      first, one continuation probe each (`probes[i]` for `stack[i]`), and
      stops at the first that fails. Each probed container is taken off the
      stack and put back at the same place. */
  method ExistingPass(t: Tokenizer, info: Info, probes: seq<Probe>)
    requires Valid(t, info) && |probes| == |info.stack|
    modifies t, info
    ensures Valid(t, info)
    ensures info.stack == old(info.stack)
    ensures old(info.continued) <= info.continued <= |info.stack|
    ensures forall i :: old(info.continued) <= i < info.continued ==> probes[i].ok
    ensures info.continued < |info.stack| ==> !probes[info.continued].ok
    ensures t.events == old(t.events) + Produced(probes, old(info.continued), info.continued)
    ensures info.index == old(info.index) && info.inject == old(info.inject)
    ensures info.interruptBefore == old(info.interruptBefore) && info.paragraphBefore == old(info.paragraphBefore)
    ensures t.tokens == old(t.tokens) && t.point == old(t.point)
    ensures t.interrupt == old(t.interrupt) && t.lazy == old(t.lazy) && t.concrete == old(t.concrete)
  {
    ghost var start := info.continued;
    while info.continued < |info.stack|
      invariant Valid(t, info) && info.stack == old(info.stack)
      invariant start <= info.continued <= |info.stack|
      invariant forall i :: start <= i < info.continued ==> probes[i].ok
      invariant t.events == old(t.events) + Produced(probes, start, info.continued)
      invariant info.index == old(info.index) && info.inject == old(info.inject)
      invariant info.interruptBefore == old(info.interruptBefore) && info.paragraphBefore == old(info.paragraphBefore)
      invariant t.tokens == old(t.tokens) && t.point == old(t.point)
      invariant t.interrupt == old(t.interrupt) && t.lazy == old(t.lazy) && t.concrete == old(t.concrete)
    {
      var whole := info.stack;
      var container := info.stack[info.continued];
      info.stack := info.stack[..info.continued] + info.stack[info.continued + 1..];
      RemoveInsert(whole, info.continued);
      var probe := probes[info.continued];
      if probe.ok {
        ProducedSnoc(probes, start, info.continued);
        t.events := t.events + probe.events;
        info.stack := info.stack[..info.continued] + [container] + info.stack[info.continued..];
        info.continued := info.continued + 1;
      } else {
        info.stack := info.stack[..info.continued] + [container] + info.stack[info.continued..];
        break;
      }
    }
  }

  /** Opens `container`, which its construct has just started: takes its
      token off the open-token stack (it is exited by hand later), closes
      the containers this line did not continue (flushing the previous
      line's flow into `flushed` first, which leaves the concrete status
      `flushConcrete`), and pushes it as continued. */
  method NewAfter(t: Tokenizer, info: Info, container: ContainerState, flushed: seq<Event>, flushConcrete: bool)
    requires Valid(t, info)
    requires TokenOf(container.kind) in t.tokens
    modifies t, info
    ensures Valid(t, info)
    ensures var i := LastIndex(old(t.tokens), TokenOf(container.kind)).value;
            t.tokens == old(t.tokens[..i] + t.tokens[i + 1..])
    ensures info.stack == old(info.stack[..info.continued]) + [container]
    ensures info.continued == |info.stack|
    ensures var closing := old(info.continued) != old(|info.stack|);
            && t.events == (if closing then old(t.events[..info.index]) + flushed + old(t.events[info.index..]) else old(t.events))
            && info.index == old(info.index) + (if closing then |flushed| else 0)
            && info.inject == if closing then FileExits(old(info.inject), Prefix, old(info.stack[info.continued..]), t.point)
                              else old(info.inject)
    ensures !info.interruptBefore && !t.interrupt
    ensures info.paragraphBefore == old(info.paragraphBefore)
    ensures t.point == old(t.point) && t.lazy == old(t.lazy)
    ensures t.concrete == if old(info.continued) != old(|info.stack|) then flushConcrete else old(t.concrete)
  {
    var found := RemoveLast(t, TokenOf(container.kind));
    assert found;
    if info.continued != |info.stack| {
      ExitContainers(t, info, Prefix, flushed, flushConcrete);
    }
    info.stack := info.stack + [container];
    info.continued := info.continued + 1;
    info.interruptBefore := false;
    t.interrupt := false;
  }

  /** The outcome of trying to open a new container: a block quote is tried
      first, then a list item; when one opens, its construct leaves its
      state and events, and closing the containers the line did not
      continue flushes the previous line's flow into `flushed`, after which
      the tokenizer is inside a concrete construct exactly when `concrete`
      holds (normally it does not: the flush ends the flow). */
  datatype NewProbe = NewProbe(blockQuote: bool, listItem: bool, blankInitial: bool, size: nat,
                               events: seq<Event>, flushed: seq<Event>, concrete: bool)

  predicate Opens(probe: NewProbe)
  {
    probe.blockQuote || probe.listItem
  }

  /** The container a successful probe opens: a block quote when that
      succeeded, otherwise a list item. */
  function Opened(probe: NewProbe): ContainerState
  {
    ContainerState(if probe.blockQuote then Container.BlockQuote else Container.ListItem, probe.blankInitial, probe.size)
  }

  /** The concrete status before round `i`, starting from `concrete`
      (`full` says whether all containers had continued before the first
      round): when they had not, the first round's flush sets it, and no
      later round flushes again. */
  function ConcreteAt(probes: seq<NewProbe>, concrete: bool, full: bool, i: nat): bool
    requires i <= |probes|
  {
    if i > 0 && !full then probes[0].concrete else concrete
  }

  /** How many new containers open, counting from round `i`: probing stops
      at the first probe that opens nothing, at the end of the outcomes, or
      when all containers have continued and the tokenizer is inside a
      concrete construct at that point. */
  function Rounds(probes: seq<NewProbe>, concrete: bool, full: bool, i: nat): (r: nat)
    requires i <= |probes|
    ensures i <= r <= |probes|
    decreases |probes| - i
  {
    if i == |probes| || ((full || i > 0) && ConcreteAt(probes, concrete, full, i)) || !Opens(probes[i]) then i
    else Rounds(probes, concrete, full, i + 1)
  }

  /** Inside a concrete construct, with every container continued, no new
      container can open. */
  lemma ConcreteBlocksNew(probes: seq<NewProbe>)
    ensures Rounds(probes, true, true, 0) == 0
  {
  }

  /** When a first opening closes containers, its flush ends the previous
      line's flow; if that leaves no concrete construct, probing goes on to
      the next round even though the line started inside one. */
  lemma FlushLetsProbingContinue(probes: seq<NewProbe>, concrete: bool)
    requires |probes| >= 2 && Opens(probes[0]) && Opens(probes[1]) && !probes[0].concrete
    ensures Rounds(probes, concrete, false, 0) >= 2
  {
    assert Rounds(probes, concrete, false, 0) == Rounds(probes, concrete, false, 1);
  }

  function OpenedUpTo(probes: seq<NewProbe>, n: nat): seq<ContainerState>
    requires n <= |probes|
  {
    if n == 0 then [] else OpenedUpTo(probes, n - 1) + [Opened(probes[n - 1])]
  }

  function NewProduced(probes: seq<NewProbe>, n: nat): seq<Event>
    requires n <= |probes|
  {
    if n == 0 then [] else NewProduced(probes, n - 1) + probes[n - 1].events
  }

  /** The document state as a value: the tokenizer's events and the
      fields of `Info` the passes change. */
  datatype Snapshot = Snapshot(events: seq<Event>, index: nat, inject: seq<Slot>,
                               stack: seq<ContainerState>, continued: nat, interruptBefore: bool)

  function Snap(t: Tokenizer, info: Info): Snapshot
    reads t, info
  {
    Snapshot(t.events, info.index, info.inject, info.stack, info.continued, info.interruptBefore)
  }

  /** `Valid` on a snapshot. */
  predicate Sound(s: Snapshot)
  {
    && s.continued <= |s.stack| && s.index <= |s.events| && |s.inject| >= 1
    && (s.continued < |s.stack| ==> |s.inject| >= 2)
  }

  /** The state after a probe opens a container: its events are kept, the
      containers the line did not continue are closed (the previous line's
      flow flushed in front of this line's events), and the new container
      is pushed as continued. */
  function Open(s: Snapshot, probe: NewProbe, point: Point): (r: Snapshot)
    requires Sound(s)
    ensures Sound(r)
  {
    var events := s.events + probe.events;
    var closing := s.continued != |s.stack|;
    Snapshot(if closing then events[..s.index] + probe.flushed + events[s.index..] else events,
             s.index + (if closing then |probe.flushed| else 0),
             if closing then FileExits(s.inject, Prefix, s.stack[s.continued..], point) else s.inject,
             s.stack[..s.continued] + [Opened(probe)], s.continued + 1, false)
  }

  /** The state after the first `n` probes each opened a container. */
  function Opening(s: Snapshot, probes: seq<NewProbe>, n: nat, point: Point): (r: Snapshot)
    requires Sound(s) && n <= |probes|
    ensures Sound(r)
  {
    if n == 0 then s else Open(Opening(s, probes, n - 1, point), probes[n - 1], point)
  }

  /** What `n` openings amount to: when there is at least one, the stack is
      what continued plus the `n` new containers, all of them continued; the
      containers that had not continued are closed once, by the first, and
      the events are the probes' in order. */
  lemma {:induction false} OpeningShape(s: Snapshot, probes: seq<NewProbe>, n: nat, point: Point)
    requires Sound(s) && 0 < n <= |probes|
    ensures var r := Opening(s, probes, n, point);
            var closing := s.continued != |s.stack|;
            && r.stack == s.stack[..s.continued] + OpenedUpTo(probes, n)
            && r.continued == |r.stack|
            && r.events == (if closing then s.events[..s.index] + probes[0].flushed + s.events[s.index..] else s.events)
                           + NewProduced(probes, n)
            && r.index == s.index + (if closing then |probes[0].flushed| else 0)
            && r.inject == (if closing then FileExits(s.inject, Prefix, s.stack[s.continued..], point) else s.inject)
            && !r.interruptBefore
  {
    if n == 1 {
      OpenFirst(s, probes[0], point);
    } else {
      OpeningShape(s, probes, n - 1, point);
      var q := Opening(s, probes, n - 1, point);
      OpenFull(q, probes[n - 1], point);
      StackAssoc(s.stack[..s.continued], OpenedUpTo(probes, n - 1), [Opened(probes[n - 1])]);
      var x := if s.continued != |s.stack| then s.events[..s.index] + probes[0].flushed + s.events[s.index..] else s.events;
      Assoc(x, NewProduced(probes, n - 1), probes[n - 1].events);
    }
  }

  /** The first opening, as `OpeningShape` states it for one probe. */
  lemma OpenFirst(s: Snapshot, probe: NewProbe, point: Point)
    requires Sound(s)
    ensures var r := Open(s, probe, point);
            var closing := s.continued != |s.stack|;
            && r.stack == s.stack[..s.continued] + [Opened(probe)]
            && r.events == (if closing then s.events[..s.index] + probe.flushed + s.events[s.index..] else s.events)
                           + probe.events
            && r.index == s.index + (if closing then |probe.flushed| else 0)
            && r.inject == (if closing then FileExits(s.inject, Prefix, s.stack[s.continued..], point) else s.inject)
            && r.continued == s.continued + 1 && !r.interruptBefore
  {
    var e := s.events + probe.events;
    assert e[..s.index] == s.events[..s.index];
    assert e[s.index..] == s.events[s.index..] + probe.events;
  }

  /** Opening when every container has continued appends the events and
      the container and closes nothing. */
  lemma OpenFull(s: Snapshot, probe: NewProbe, point: Point)
    requires Sound(s) && s.continued == |s.stack|
    ensures Open(s, probe, point) == s.(events := s.events + probe.events, stack := s.stack + [Opened(probe)],
                                        continued := s.continued + 1, interruptBefore := false)
  {
    assert s.stack[..s.continued] == s.stack;
  }

  /** The new-container pass: while a construct opens, push its container,
      after closing the existing containers the line did not continue. */
  method NewPass(t: Tokenizer, info: Info, probes: seq<NewProbe>)
    requires Valid(t, info)
    modifies t, info
    ensures Valid(t, info)
    ensures var closing := old(info.continued) != old(|info.stack|);
            var n := Rounds(probes, old(t.concrete), !closing, 0);
            && Snap(t, info) == Opening(old(Snap(t, info)), probes, n, t.point)
            && t.concrete == ConcreteAt(probes, old(t.concrete), !closing, n)
            && t.interrupt == (if n > 0 then false else if !closing then old(info.interruptBefore) else old(t.interrupt))
    ensures t.tokens == old(t.tokens) && info.paragraphBefore == old(info.paragraphBefore)
    ensures t.point == old(t.point) && t.lazy == old(t.lazy)
  {
    var i := 0;
    ghost var full := info.continued == |info.stack|;
    ghost var concrete := t.concrete;
    ghost var n := Rounds(probes, concrete, full, 0);
    ghost var start := Snap(t, info);
    while true
      invariant Valid(t, info) && i <= n == Rounds(probes, concrete, full, i)
      invariant t.concrete == ConcreteAt(probes, concrete, full, i)
      invariant Snap(t, info) == Opening(start, probes, i, t.point)
      invariant (info.continued == |info.stack|) == (full || i > 0)
      invariant i > 0 ==> !info.interruptBefore
      invariant t.interrupt == (if i > 0 then false else old(t.interrupt))
      invariant t.tokens == old(t.tokens) && info.paragraphBefore == old(info.paragraphBefore)
      invariant t.point == old(t.point) && t.lazy == old(t.lazy)
      decreases |probes| - i
    {
      var stop := NewStep(t, info, probes, i, concrete, full);
      if stop {
        break;
      }
      i := i + 1;
    }
  }

  /** One round of the new-container pass. When every container has
      continued, flow's `interrupt` comes back, and inside a concrete
      construct probing stops. Otherwise probing stops when the outcomes run
      out or the probe opens nothing, and a probe that opens a container
      makes `NewRound` open it. */
  method NewStep(t: Tokenizer, info: Info, probes: seq<NewProbe>, i: nat, ghost concrete: bool, ghost full: bool)
    returns (stop: bool)
    requires Valid(t, info) && i <= |probes|
    requires t.concrete == ConcreteAt(probes, concrete, full, i)
    requires (info.continued == |info.stack|) == (full || i > 0)
    modifies t, info
    ensures Valid(t, info)
    ensures t.tokens == old(t.tokens) && info.paragraphBefore == old(info.paragraphBefore)
    ensures t.point == old(t.point) && t.lazy == old(t.lazy)
    ensures stop ==> && Rounds(probes, concrete, full, i) == i
                     && Snap(t, info) == old(Snap(t, info)) && t.concrete == old(t.concrete)
                     && t.interrupt == (if full || i > 0 then old(info.interruptBefore) else old(t.interrupt))
    ensures !stop ==> && i < |probes| && Rounds(probes, concrete, full, i) == Rounds(probes, concrete, full, i + 1)
                      && Snap(t, info) == Open(old(Snap(t, info)), probes[i], t.point)
                      && t.concrete == ConcreteAt(probes, concrete, full, i + 1)
                      && info.continued == |info.stack| && !info.interruptBefore && !t.interrupt
  {
    if info.continued == |info.stack| {
      t.interrupt := info.interruptBefore;
      if t.concrete {
        return true;
      }
    }
    if i == |probes| {
      return true;
    }
    // A block quote is tried first, then a list item (see `Opened`).
    if !probes[i].blockQuote && !probes[i].listItem {
      return true;
    }
    RoundsNext(probes, concrete, full, i);
    ghost var before := info.continued != |info.stack|;
    NewRound(t, info, probes[i]);
    ConcreteNext(probes, concrete, full, i, before, t.concrete);
    stop := false;
  }

  /** A round that opens a container, where probing did not stop, leaves
      the count to the next round. */
  lemma RoundsNext(probes: seq<NewProbe>, concrete: bool, full: bool, i: nat)
    requires i < |probes| && Opens(probes[i])
    requires !((full || i > 0) && ConcreteAt(probes, concrete, full, i))
    ensures Rounds(probes, concrete, full, i) == Rounds(probes, concrete, full, i + 1)
  {
  }

  /** The concrete status after round `i`, given whether that round closed
      containers (only the first can, and only when not all had continued). */
  lemma ConcreteNext(probes: seq<NewProbe>, concrete: bool, full: bool, i: nat, closed: bool, after: bool)
    requires i < |probes| && (i > 0 ==> !closed) && (i == 0 ==> closed == !full)
    requires after == if closed then probes[i].concrete else ConcreteAt(probes, concrete, full, i)
    ensures after == ConcreteAt(probes, concrete, full, i + 1)
  {
  }

  /** One successful round of the new-container pass: the construct's
      events are kept, its token is entered, then `NewAfter` opens it. */
  method NewRound(t: Tokenizer, info: Info, probe: NewProbe)
    requires Valid(t, info)
    modifies t, info
    ensures Valid(t, info) && Snap(t, info) == Open(old(Snap(t, info)), probe, t.point)
    ensures info.continued == |info.stack| && !t.interrupt
    ensures t.tokens == old(t.tokens) && info.paragraphBefore == old(info.paragraphBefore)
    ensures t.point == old(t.point) && t.lazy == old(t.lazy)
    ensures t.concrete == if old(info.continued) != old(|info.stack|) then probe.concrete else old(t.concrete)
  {
    var container := Opened(probe);
    t.events := t.events + probe.events;
    t.tokens := t.tokens + [TokenOf(container.kind)];
    assert LastIndex(t.tokens, TokenOf(container.kind)) == Some(|t.tokens| - 1);
    assert t.tokens[..|t.tokens| - 1] == old(t.tokens);
    NewAfter(t, info, container, probe.flushed, probe.concrete);
  }

  lemma StackAssoc(a: seq<ContainerState>, b: seq<ContainerState>, c: seq<ContainerState>)
    ensures a + b + c == a + (b + c)
  {
  }

  /** After the containers, before flow: the line's container events move
      into its slot, the line is lazy exactly when some open container did
      not continue, and the previous flow's interrupt status comes back. */
  method ContainersAfter(t: Tokenizer, info: Info)
    requires Valid(t, info)
    modifies t, info
    ensures Valid(t, info)
    ensures var last := |old(info.inject)| - 1;
            info.inject == old(info.inject)[last := Slot(old(info.inject[last].before) + old(t.events[info.index..]),
                                                         old(info.inject[last].after))]
    ensures t.events == old(t.events[..info.index])
    ensures t.lazy == (info.continued != |info.stack|)
    ensures t.interrupt == info.interruptBefore
    ensures info.stack == old(info.stack) && info.continued == old(info.continued) && info.index == old(info.index)
    ensures info.interruptBefore == old(info.interruptBefore) && info.paragraphBefore == old(info.paragraphBefore)
    ensures t.tokens == old(t.tokens) && t.point == old(t.point) && t.concrete == old(t.concrete)
  {
    var last := |info.inject| - 1;
    info.inject := info.inject[last := Slot(info.inject[last].before + t.events[info.index..], info.inject[last].after)];
    t.events := t.events[..info.index];
    t.lazy := info.continued != |info.stack|;
    t.interrupt := info.interruptBefore;
  }

  /** The index of the last event at or before `i` that is not a line
      ending, walking back over line endings. */
  function BackOverLineEndings(events: seq<Event>, i: nat): (r: Option<nat>)
    requires i < |events|
    ensures r.Some? ==> r.value <= i && events[r.value].token != LineEnding
  {
    if events[i].token != LineEnding then Some(i)
    else if i == 0 then None
    else BackOverLineEndings(events, i - 1)
  }

  /** Whether the flow events end in a paragraph, trailing line endings aside. */
  predicate EndsInParagraph(events: seq<Event>)
  {
    && |events| > 0
    && var j := BackOverLineEndings(events, |events| - 1);
       j.Some? && events[j.value].token == Paragraph
  }

  /** `BackOverLineEndings` finds the last event that is not a line ending. */
  lemma {:induction false} BackOverIsLast(events: seq<Event>, i: nat)
    requires i < |events|
    ensures var r := BackOverLineEndings(events, i);
            && (r.Some? ==> forall k :: r.value < k <= i ==> events[k].token == LineEnding)
            && (r.None? ==> forall k :: 0 <= k <= i ==> events[k].token == LineEnding)
  {
    if events[i].token == LineEnding && i > 0 {
      BackOverIsLast(events, i - 1);
    }
  }

  /** The lazy continuation rule at the end of a line's flow: a lazy line
      that is a paragraph right after a paragraph line counts as having
      continued every container; otherwise the containers it did not
      continue are closed after the previous line (flushing its flow into
      `flushed` first). */
  function Reconcile(s: Snapshot, lazyParagraph: bool, flushed: seq<Event>, point: Point): (r: Snapshot)
    requires Sound(s)
    ensures Sound(r)
  {
    var continued := if lazyParagraph then |s.stack| else s.continued;
    if continued == |s.stack| then s.(continued := continued)
    else Snapshot(s.events[..s.index] + flushed + s.events[s.index..], s.index,
                  FileExits(s.inject, After, s.stack[continued..], point),
                  s.stack[..continued], continued, false)
  }

  /** At the end of the document every open container is closed, the
      exits going to the last line's slot. */
  function CloseAll(s: Snapshot, point: Point): (r: Snapshot)
    requires Sound(s)
    ensures Sound(r)
  {
    if |s.stack| == 0 then s
    else s.(inject := FileExits(s.inject, Eof, s.stack, point), stack := [], continued := 0, interruptBefore := false)
  }

  /** After a line's flow: applies the lazy rule, closes what did not
      continue, remembers whether the line was a paragraph and whether flow
      may be interrupted, and at the end of the document (`done`) closes
      every container. */
  method FlowEnd(t: Tokenizer, info: Info, flushed: seq<Event>, done: bool)
    requires Valid(t, info)
    modifies t, info
    ensures Valid(t, info)
    ensures var paragraph := EndsInParagraph(old(t.events));
            var s := Reconcile(old(Snap(t, info)), old(t.lazy) && old(info.paragraphBefore) && paragraph, flushed, t.point)
                       .(interruptBefore := old(t.interrupt));
            && Snap(t, info) == (if done then CloseAll(s, t.point) else s)
            && info.paragraphBefore == paragraph
    ensures t.tokens == old(t.tokens) && t.point == old(t.point) && t.interrupt == old(t.interrupt)
    ensures t.lazy == old(t.lazy) && t.concrete == old(t.concrete)
  {
    var paragraph := EndsInParagraph(t.events);
    LazyClose(t, info, t.lazy && info.paragraphBefore && paragraph, flushed);
    info.paragraphBefore := paragraph;
    info.interruptBefore := t.interrupt;
    if done {
      CloseAtEof(t, info);
    }
  }

  /** The lazy rule and the closing after the previous line. */
  method LazyClose(t: Tokenizer, info: Info, lazyParagraph: bool, flushed: seq<Event>)
    requires Valid(t, info)
    modifies t, info
    ensures Valid(t, info)
    ensures Snap(t, info) == Reconcile(old(Snap(t, info)), lazyParagraph, flushed, t.point)
    ensures info.paragraphBefore == old(info.paragraphBefore)
    ensures t.tokens == old(t.tokens) && t.point == old(t.point) && t.interrupt == old(t.interrupt)
    ensures t.lazy == old(t.lazy) && t.concrete == old(t.concrete)
  {
    if lazyParagraph {
      info.continued := |info.stack|;
    }
    if info.continued != |info.stack| {
      ExitContainers(t, info, After, flushed, t.concrete);
    }
  }

  /** Closes every open container at the end of the document. */
  method CloseAtEof(t: Tokenizer, info: Info)
    requires Valid(t, info)
    modifies t, info
    ensures Valid(t, info)
    ensures Snap(t, info) == CloseAll(old(Snap(t, info)), t.point)
    ensures info.paragraphBefore == old(info.paragraphBefore)
    ensures t.tokens == old(t.tokens) && t.point == old(t.point) && t.interrupt == old(t.interrupt)
    ensures t.lazy == old(t.lazy) && t.concrete == old(t.concrete)
  {
    if |info.stack| > 0 {
      info.continued := 0;
      ExitContainers(t, info, Eof, [], t.concrete);
    }
  }

  /** A lazy paragraph line closes nothing: every container counts as continued. */
  lemma LazyParagraphKeeps(s: Snapshot, flushed: seq<Event>, point: Point)
    requires Sound(s)
    ensures Reconcile(s, true, flushed, point) == s.(continued := |s.stack|)
  {
  }

  /** Otherwise a line that did not continue every container closes exactly
      those it did not continue, innermost first, after the previous line. */
  lemma ReconcileCloses(s: Snapshot, flushed: seq<Event>, point: Point)
    requires Sound(s) && s.continued < |s.stack|
    ensures var r := Reconcile(s, false, flushed, point);
            && r.stack == s.stack[..s.continued] && r.continued == |r.stack|
            && var prev := |s.inject| - 2;
               && r.inject[prev].after == s.inject[prev].after + Exits(s.stack[s.continued..], point)
               && (forall k :: 0 <= k < |s.inject| && k != prev ==> r.inject[k] == s.inject[k])
  {
  }

  /** At the end of the document nothing stays open, and the exits of all
      containers go to the last line's slot, innermost first. */
  lemma CloseAllEmpties(s: Snapshot, point: Point)
    requires Sound(s)
    ensures var r := CloseAll(s, point);
            && r.stack == [] && r.continued == 0
            && var last := |s.inject| - 1;
               r.inject[last].after == s.inject[last].after + Exits(s.stack, point)
  {
    ExitsLength(s.stack, point);
  }

  // Resolving: every slot's `before` events go where the line starts, its
  // `after` exits where the line ends, or, when the line ends a run of
  // blank lines, before the first line ending of that run.

  predicate IsLineEnding(e: Event)
  {
    e.token == LineEnding || e.token == BlankLineEnding
  }

  /** Whitespace or a line ending: what a blank line is made of. */
  predicate IsBlank(e: Event)
  {
    IsLineEnding(e) || e.token == SpaceOrTab
  }

  /** Where the scan of one line starting at `i` stops: just after the next
      exit of a line ending, or at the end of the events. */
  function ScanEnd(events: seq<Event>, i: nat): (r: nat)
    requires i <= |events|
    ensures i <= r <= |events|
    decreases |events| - i
  {
    if i == |events| then i
    else if IsLineEnding(events[i]) && events[i].kind == Exit then i + 1
    else ScanEnd(events, i + 1)
  }

  /** The first line ending of the current run of blank content after
      scanning one line from `i`: held over whitespace and line endings, set
      at the enter of a line ending when none is held, dropped at any other
      event. */
  function ScanRun(events: seq<Event>, i: nat, run: Option<nat>): (r: Option<nat>)
    requires i <= |events|
    requires run.Some? ==> run.value < |events|
    ensures r.Some? ==> r.value < |events|
    decreases |events| - i
  {
    if i == |events| then run
    else if IsLineEnding(events[i]) then
      if events[i].kind == Exit then run
      else ScanRun(events, i + 1, if run.Some? then run else Some(i))
    else if events[i].token == SpaceOrTab then ScanRun(events, i + 1, run)
    else ScanRun(events, i + 1, None)
  }

  /** The scan of one line ends right after the first line ending exit at or
      after `i`, or at the end when there is none. */
  lemma {:induction false} ScanEndIsLineEnd(events: seq<Event>, i: nat)
    requires i <= |events|
    ensures var e := ScanEnd(events, i);
            && (e < |events| ==> e > i && IsLineEnding(events[e - 1]) && events[e - 1].kind == Exit)
            && forall k :: i <= k < e - 1 ==> !(IsLineEnding(events[k]) && events[k].kind == Exit)
    decreases |events| - i
  {
    if i < |events| && !(IsLineEnding(events[i]) && events[i].kind == Exit) {
      ScanEndIsLineEnd(events, i + 1);
    }
  }

  /** Reference definitions: the last event in `[a, b)` that is not blank... */
  function LastNonBlank(events: seq<Event>, a: nat, b: nat): (r: Option<nat>)
    requires a <= b <= |events|
    ensures r.Some? ==> a <= r.value < b && !IsBlank(events[r.value])
    ensures r.Some? ==> forall k :: r.value < k < b ==> IsBlank(events[k])
    ensures r.None? ==> forall k :: a <= k < b ==> IsBlank(events[k])
    decreases b - a
  {
    if a == b then None
    else var later := LastNonBlank(events, a + 1, b);
      if later.Some? then later
      else if !IsBlank(events[a]) then Some(a)
      else None
  }

  /** ... and the first enter of a line ending in `[a, b)`. */
  function FirstLineEnding(events: seq<Event>, a: nat, b: nat): (r: Option<nat>)
    requires a <= b <= |events|
    ensures r.Some? ==> a <= r.value < b && IsLineEnding(events[r.value]) && events[r.value].kind == Enter
    ensures r.Some? ==> forall k :: a <= k < r.value ==> !(IsLineEnding(events[k]) && events[k].kind == Enter)
    ensures r.None? ==> forall k :: a <= k < b ==> !(IsLineEnding(events[k]) && events[k].kind == Enter)
    decreases b - a
  {
    if a == b then None
    else if IsLineEnding(events[a]) && events[a].kind == Enter then Some(a)
    else FirstLineEnding(events, a + 1, b)
  }

  /** The scan finds the first line ending after the last non-blank event of
      the line; on a wholly blank line it keeps the run it was handed, or
      starts one at the line's own line ending. */
  lemma {:induction false} ScanRunIsRunStart(events: seq<Event>, i: nat, run: Option<nat>)
    requires i <= |events|
    requires run.Some? ==> run.value < |events|
    ensures var e := ScanEnd(events, i);
            var last := LastNonBlank(events, i, e);
            ScanRun(events, i, run)
              == if last.Some? then FirstLineEnding(events, last.value + 1, e)
                 else if run.Some? then run
                 else FirstLineEnding(events, i, e)
    decreases |events| - i
  {
    if i < |events| && !(IsLineEnding(events[i]) && events[i].kind == Exit) {
      var next := if IsLineEnding(events[i]) then (if run.Some? then run else Some(i))
                  else if events[i].token == SpaceOrTab then run
                  else None;
      ScanRunIsRunStart(events, i + 1, next);
    }
  }

  /** The scan position before slot `k` is handled. */
  datatype Cursor = Cursor(index: nat, run: Option<nat>)

  /** The run held when the slot's own scan starts: a slot with `before`
      events starts afresh. */
  function RunIn(slot: Slot, c: Cursor): Option<nat>
  {
    if |slot.before| > 0 then None else c.run
  }

  function CursorAt(events: seq<Event>, inject: seq<Slot>, k: nat): (c: Cursor)
    requires k <= |inject|
    ensures c.index <= |events| && (c.run.Some? ==> c.run.value < |events|)
  {
    if k == 0 then Cursor(0, None)
    else
      var c := CursorAt(events, inject, k - 1);
      Cursor(ScanEnd(events, c.index), ScanRun(events, c.index, RunIn(inject[k - 1], c)))
  }

  /** `events` with every point set to `point`. */
  function WithPoint(events: seq<Event>, point: Point): seq<Event>
  {
    seq(|events|, k requires 0 <= k < |events| => events[k].(point := point))
  }

  /** The edits one slot queues: its `before` events at the line's start,
      then its `after` exits at the run's first line ending (or the line's
      end), all carrying that place's point. */
  function SlotEdits(events: seq<Event>, slot: Slot, c: Cursor, point: Point): seq<Edit>
    requires c.index <= |events| && (c.run.Some? ==> c.run.value < |events|)
  {
    var run := ScanRun(events, c.index, RunIn(slot, c));
    var close := if run.Some? then run.value else ScanEnd(events, c.index);
    var at := if run.Some? then events[run.value].point else point;
    (if |slot.before| > 0 then [Edit(c.index, 0, slot.before)] else [])
    + [Edit(close, 0, WithPoint(slot.after, at))]
  }

  /** The edits the first `k` slots queue, in order. */
  function Placement(events: seq<Event>, inject: seq<Slot>, point: Point, k: nat): seq<Edit>
    requires k <= |inject|
  {
    if k == 0 then []
    else Placement(events, inject, point, k - 1) + SlotEdits(events, inject[k - 1], CursorAt(events, inject, k - 1), point)
  }

  /** Scans one line from `index`, tracking the run of blank content. */
  method ScanLine(events: seq<Event>, index: nat, run: Option<nat>) returns (end: nat, last: Option<nat>)
    requires index <= |events|
    requires run.Some? ==> run.value < |events|
    ensures end == ScanEnd(events, index) && last == ScanRun(events, index, run)
  {
    end, last := index, run;
    while end < |events|
      invariant index <= end <= |events|
      invariant last.Some? ==> last.value < |events|
      invariant ScanEnd(events, end) == ScanEnd(events, index)
      invariant ScanRun(events, end, last) == ScanRun(events, index, run)
      decreases |events| - end
    {
      var event := events[end];
      if IsLineEnding(event) {
        if event.kind == Enter {
          if last.None? {
            last := Some(end);
          }
        } else {
          end := end + 1;
          return;
        }
      } else if event.token == SpaceOrTab {
      } else if last.Some? {
        last := None;
      }
      end := end + 1;
    }
  }

  /** Sets the point of every event in `events`. */
  method SetPoints(events: seq<Event>, point: Point) returns (r: seq<Event>)
    ensures |r| == |events|
    ensures forall k :: 0 <= k < |r| ==> r[k].kind == events[k].kind && r[k].token == events[k].token && r[k].point == point
  {
    r := events;
    var k := 0;
    while k < |r|
      invariant k <= |r| == |events|
      invariant forall j :: 0 <= j < k ==> r[j] == events[j].(point := point)
      invariant forall j :: k <= j < |r| ==> r[j] == events[j]
    {
      r := r[k := r[k].(point := point)];
      k := k + 1;
    }
  }

  /** Queues the edits of one slot and moves the scan past its line. */
  method PlaceSlot(edits: EditMap, events: seq<Event>, slot: Slot, c: Cursor, point: Point) returns (next: Cursor)
    requires c.index <= |events| && (c.run.Some? ==> c.run.value < |events|)
    modifies edits
    ensures edits.edits == old(edits.edits) + SlotEdits(events, slot, c, point)
    ensures next == Cursor(ScanEnd(events, c.index), ScanRun(events, c.index, RunIn(slot, c)))
  {
    var run := c.run;
    if |slot.before| > 0 {
      run := None;
      edits.Add(c.index, 0, slot.before);
    }
    var index;
    index, run := ScanLine(events, c.index, run);
    var at := if run.Some? then events[run.value].point else point;
    var close := if run.Some? then run.value else index;
    var after := SetPoints(slot.after, at);
    assert after == WithPoint(slot.after, at);
    edits.Add(close, 0, after);
    next := Cursor(index, run);
  }

  /** Queues every slot's container events and applies them to the flow events. */
  method Resolve(t: Tokenizer, info: Info)
    modifies t, t.edits, info
    ensures t.events == Applied(old(t.events), old(t.edits.edits) + Placement(old(t.events), old(info.inject), old(t.point), |old(info.inject)|))
    ensures t.edits.edits == [] && info.inject == []
    ensures info.stack == old(info.stack) && info.continued == old(info.continued)
    ensures t.tokens == old(t.tokens) && t.point == old(t.point) && t.concrete == old(t.concrete)
  {
    var inject := info.inject;
    info.inject := [];
    var events := t.events;
    var c := Cursor(0, None);
    var k := 0;
    while k < |inject|
      invariant k <= |inject|
      invariant t.events == events && t.point == old(t.point) && t.tokens == old(t.tokens) && t.concrete == old(t.concrete)
      invariant info.inject == [] && info.stack == old(info.stack) && info.continued == old(info.continued)
      invariant CursorAt(events, inject, k) == c
      invariant t.edits.edits == old(t.edits.edits) + Placement(events, inject, t.point, k)
    {
      EditsSplice(old(t.edits.edits), Placement(events, inject, t.point, k), SlotEdits(events, inject[k], c, t.point));
      c := PlaceSlot(t.edits, events, inject[k], c, t.point);
      k := k + 1;
    }
    var result := t.edits.Consume(events);
    t.events := result;
  }

  /** Resolving only inserts: no queued edit removes a flow event, and every
      anchor lies within the events. */
  lemma {:induction false} PlacementInsertsOnly(events: seq<Event>, inject: seq<Slot>, point: Point, k: nat)
    requires k <= |inject|
    ensures forall e :: e in Placement(events, inject, point, k) ==> e.remove == 0 && e.anchor <= |events|
  {
    if k > 0 {
      PlacementInsertsOnly(events, inject, point, k - 1);
    }
  }

  // The definitions: the identifiers of all definition labels, each once,
  // in the order they first occur.

  predicate IsLabelExit(e: Event)
  {
    e.kind == Exit && e.token == DefinitionLabelString
  }

  /** Adds `id` unless it is already there. */
  function Remember(known: seq<seq<char>>, id: seq<char>): seq<seq<char>>
  {
    if id in known then known else known + [id]
  }

  /** The identifiers collected from `events[..n]`; `idOf(k)` is the
      normalized identifier of the label whose exit is at `k`. */
  function Known(events: seq<Event>, idOf: nat -> seq<char>, n: nat): seq<seq<char>>
    requires n <= |events|
  {
    if n == 0 then []
    else
      var known := Known(events, idOf, n - 1);
      if IsLabelExit(events[n - 1]) then Remember(known, idOf(n - 1)) else known
  }

  /** Collects the identifiers of every definition label, skipping repeats. */
  method Definitions(events: seq<Event>, idOf: nat -> seq<char>) returns (definitions: seq<seq<char>>)
    ensures definitions == Known(events, idOf, |events|)
  {
    definitions := [];
    var index := 0;
    while index < |events|
      invariant index <= |events|
      invariant definitions == Known(events, idOf, index)
    {
      if IsLabelExit(events[index]) {
        var id := idOf(index);
        if id !in definitions {
          definitions := definitions + [id];
        }
      }
      index := index + 1;
    }
  }

  /** No identifier is collected twice. */
  lemma {:induction false} KnownDistinct(events: seq<Event>, idOf: nat -> seq<char>, n: nat)
    requires n <= |events|
    ensures forall i, j :: 0 <= i < j < |Known(events, idOf, n)| ==> Known(events, idOf, n)[i] != Known(events, idOf, n)[j]
  {
    if n > 0 {
      KnownDistinct(events, idOf, n - 1);
      var known := Known(events, idOf, n - 1);
      assert forall i, j :: 0 <= i < j < |known| ==> known[i] != known[j];
    }
  }

  /** An identifier is collected exactly when some label in `events[..n]` has it. */
  lemma {:induction false} KnownIsLabels(events: seq<Event>, idOf: nat -> seq<char>, n: nat, id: seq<char>)
    requires n <= |events|
    ensures id in Known(events, idOf, n) <==> exists k :: 0 <= k < n && IsLabelExit(events[k]) && idOf(k) == id
  {
    if n > 0 {
      KnownIsLabels(events, idOf, n - 1, id);
      if IsLabelExit(events[n - 1]) && idOf(n - 1) == id {
        assert id in Known(events, idOf, n);
      }
    }
  }

  /** Later labels only ever append: the identifiers collected from a prefix
      of the events are a prefix of those collected from all of them, so the
      order is the order of first occurrence. */
  lemma {:induction false} KnownGrows(events: seq<Event>, idOf: nat -> seq<char>, m: nat, n: nat)
    requires m <= n <= |events|
    ensures Known(events, idOf, m) <= Known(events, idOf, n)
    decreases n - m
  {
    if m < n {
      KnownGrows(events, idOf, m, n - 1);
    }
  }

  // The line loop.

  /** What one line's constructs do, as outcomes handed in: the
      continuation probes of the open containers, the new-container probes,
      the events flow produced on the line, its interrupt status and whether
      it is inside a concrete construct afterwards, and the events flushed
      when containers close at the end of the line. That flush runs a fresh
      start of flow, not the line's paused flow (which goes on to the next
      line), so it normally yields nothing; the flush that ends the previous
      line's flow is the one before a new container (`NewProbe.flushed`). */
  datatype Line = Line(existing: seq<Probe>, opening: seq<NewProbe>, flow: seq<Event>, interrupt: bool,
                       concrete: bool, flushed: seq<Event>)

  /** One continuation outcome per open container: a missing one counts as
      not continued, extra ones are ignored. */
  function Fit(probes: seq<Probe>, n: nat): (r: seq<Probe>)
    ensures |r| == n
    ensures forall i :: 0 <= i < n ==> r[i] == if i < |probes| then probes[i] else Probe(false, [])
  {
    seq(n, i requires 0 <= i < n => if i < |probes| then probes[i] else Probe(false, []))
  }

  /** Hands one line's flow events to the tokenizer, with the interrupt and
      concrete status flow leaves behind for the next line. */
  method Flow(t: Tokenizer, info: Info, events: seq<Event>, interrupt: bool, concrete: bool)
    requires Valid(t, info)
    modifies t
    ensures Valid(t, info)
    ensures t.events == old(t.events) + events && t.interrupt == interrupt && t.concrete == concrete
    ensures t.tokens == old(t.tokens) && t.point == old(t.point) && t.lazy == old(t.lazy)
  {
    t.events := t.events + events;
    t.interrupt := interrupt;
    t.concrete := concrete;
  }

  /** Runs the document content type over `lines` (the last of which ends
      the document), then splices the container events into the flow. At
      the end no container is open and nothing is left queued, and the
      concrete status is the one flow left on the last line. */
  method Run(t: Tokenizer, info: Info, lines: seq<Line>)
    requires |lines| > 0
    requires info.continued <= |info.stack| && (|info.stack| > 0 ==> |info.inject| >= 1)
    modifies t, t.edits, info
    ensures info.stack == [] && info.continued == 0
    ensures info.inject == [] && t.edits.edits == []
    ensures t.concrete == lines[|lines| - 1].concrete
  {
    var k := 0;
    while k < |lines|
      invariant k <= |lines|
      invariant info.continued <= |info.stack| && (|info.stack| > 0 ==> |info.inject| >= 1)
      invariant k == |lines| ==> info.stack == [] && info.continued == 0
      invariant k > 0 ==> t.concrete == lines[k - 1].concrete
    {
      var line := lines[k];
      LineStart(t, info);
      ExistingPass(t, info, Fit(line.existing, |info.stack|));
      NewPass(t, info, line.opening);
      ContainersAfter(t, info);
      Flow(t, info, line.flow, line.interrupt, line.concrete);
      FlowEnd(t, info, line.flushed, k == |lines| - 1);
      k := k + 1;
    }
    Resolve(t, info);
  }
}
