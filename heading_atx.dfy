// Heading (atx), section 4.2 of CommonMark 0.30: the character-level
// recogniser (one function per state of the tokenizer) and the resolver that
// wraps the text of each heading in a HeadingAtxText span.

module HeadingAtx {
  import opened Events
  import opened EditMap

  const HEADING_ATX_OPENING_FENCE_SIZE_MAX: nat := 6
  const TAB_SIZE: nat := 4
  /** `usize::MAX` on a 64-bit target: no limit on indentation. */
  const USIZE_MAX: nat := 0xFFFF_FFFF_FFFF_FFFF

  /** The construct switches the recogniser reads. */
  datatype Constructs = Constructs(headingAtx: bool, codeIndented: bool)

  /** The part of the tokenizer the recogniser reads and changes: the event
      list, the stack of open tokens, the current point, the `interrupt` flag
      and the names of the registered resolvers. */
  datatype Tok = Tok(events: seq<Event>, stack: seq<Token>, point: Point, interrupt: bool, resolvers: seq<string>)

  /** Where a state function ends once it has been fed the rest of the line. */
  datatype State = Ok(tok: Tok) | Nok

  // ----- the tokenizer primitives the state functions use

  function Current(input: seq<char>, t: Tok): Option<char>
  {
    if t.point.index < |input| then Some(input[t.point.index]) else None
  }

  function Top(t: Tok): Token
    requires |t.stack| > 0
  {
    t.stack[|t.stack| - 1]
  }

  function EnterToken(t: Tok, token: Token): Tok
  {
    t.(events := t.events + [Event(Enter, token, t.point)], stack := t.stack + [token])
  }

  /** Closing a token that is not the innermost open one is a contract violation. */
  function ExitToken(t: Tok, token: Token): Tok
    requires |t.stack| > 0 && Top(t) == token
  {
    t.(events := t.events + [Event(Exit, token, t.point)], stack := t.stack[..|t.stack| - 1])
  }

  /** The point `n` characters further on the same line. */
  function Advance(p: Point, n: nat): Point
  {
    Point(p.line, p.column + n, p.index + n, 0)
  }

  /** Moves past `n` characters, none of them a line ending. */
  function Consume(t: Tok, n: nat): Tok
  {
    t.(point := Advance(t.point, n))
  }

  /** Where the tokenizer stands after consuming `n` characters from `p`:
      `p` itself when nothing was consumed. */
  function Moved(p: Point, n: nat): Point
  {
    if n == 0 then p else Advance(p, n)
  }

  predicate IsHash(c: char) {
    c == '#'
  }

  /** A character that belongs to heading text. */
  predicate IsText(c: char) {
    c != ' ' && c != '\t' && c != '\n'
  }

  /** A text character that `at_break` does not read as a sequence: it opens Data. */
  predicate IsWord(c: char) {
    IsText(c) && c != '#'
  }

  /** The character classes the heading construct scans runs of. */
  datatype Class = Blank | Hash | Text

  predicate In(k: Class, c: char)
  {
    match k
    case Blank => IsSpaceOrTab(c)
    case Hash => IsHash(c)
    case Text => IsText(c)
  }

  /** The length of the run of characters of class `k` that starts at `i`. */
  function Run(input: seq<char>, i: nat, k: Class): (r: nat)
    ensures i <= |input| ==> i + r <= |input|
    decreases |input| - i
  {
    if i < |input| && In(k, input[i]) then 1 + Run(input, i + 1, k) else 0
  }

  /** Every character of a run is of its class. */
  lemma {:induction false} RunChars(input: seq<char>, i: nat, k: Class)
    ensures forall m :: i <= m < i + Run(input, i, k) ==> m < |input| && In(k, input[m])
    decreases |input| - i
  {
    if i < |input| && In(k, input[i]) {
      RunChars(input, i + 1, k);
      assert Run(input, i, k) == 1 + Run(input, i + 1, k);
      forall m | i <= m < i + Run(input, i, k)
        ensures m < |input| && In(k, input[m])
      {
        if m > i {
          assert i + 1 <= m < i + 1 + Run(input, i + 1, k);
        }
      }
    } else {
      assert Run(input, i, k) == 0;
    }
  }

  function Min(a: nat, b: nat): nat {
    if a < b then a else b
  }

  /** `space_or_tab_min_max`: consumes up to `max` spaces and tabs into one
      SpaceOrTab token, and fails if that is fewer than `min`. */
  function SpaceOrTabMinMax(input: seq<char>, t: Tok, min: nat, max: nat): (r: Option<Tok>)
    ensures r.Some? <==> min <= Min(Run(input, t.point.index, Blank), max)
    ensures r.Some? ==> && Grows(t, r.value) && NoDataEnter(r.value.events, |t.events|, |r.value.events|)
                        && r.value.stack == t.stack && r.value.resolvers == t.resolvers
                        && r.value.point.index == t.point.index + Min(Run(input, t.point.index, Blank), max)
                        && (t.point.index <= |input| ==> r.value.point.index <= |input|)
    ensures r.Some? ==> var n := Min(Run(input, t.point.index, Blank), max);
                        && r.value.point == Moved(t.point, n)
                        && r.value.events == t.events + (if n == 0 then [] else
                             [Event(Enter, SpaceOrTab, t.point), Event(Exit, SpaceOrTab, Advance(t.point, n))])
                        && Filler(input, t.point.index, r.value.point.index)
  {
    var n := Min(Run(input, t.point.index, Blank), max);
    RunChars(input, t.point.index, Blank);
    if n < min then None
    else if n == 0 then Some(t)
    else Some(ExitToken(Consume(EnterToken(t, SpaceOrTab), n), SpaceOrTab))
  }

  /** `space_or_tab`: at least one space or tab, as many as there are. */
  function SpaceOrTabRun(input: seq<char>, t: Tok): (r: Option<Tok>)
    ensures r.Some? <==> Run(input, t.point.index, Blank) > 0
    ensures r.Some? ==> && Grows(t, r.value) && NoDataEnter(r.value.events, |t.events|, |r.value.events|)
                        && r.value.stack == t.stack
                        && r.value.point.index == t.point.index + Min(Run(input, t.point.index, Blank), USIZE_MAX)
                        && (t.point.index <= |input| ==> r.value.point.index <= |input|)
                        && r.value.events == t.events + [Event(Enter, SpaceOrTab, t.point), Event(Exit, SpaceOrTab, r.value.point)]
                        && r.value.point == Advance(t.point, Min(Run(input, t.point.index, Blank), USIZE_MAX))
                        && Filler(input, t.point.index, r.value.point.index)
  {
    SpaceOrTabMinMax(input, t, 1, USIZE_MAX)
  }

  /** The indentation allowed before the opening sequence. */
  function MaxIndent(c: Constructs): nat
  {
    if c.codeIndented then TAB_SIZE - 1 else USIZE_MAX
  }

  // ----- the reference grammar

  /** An opening sequence ends at the end of the input or before a space, a tab or a line ending. */
  predicate EndsSequence(input: seq<char>, j: nat)
  {
    j >= |input| || input[j] == ' ' || input[j] == '\t' || input[j] == '\n'
  }

  /** The opening sequence with `rank` hashes already behind index `i` can be completed. */
  predicate SequenceFits(input: seq<char>, i: nat, rank: nat)
  {
    var h := Run(input, i, Hash);
    1 <= rank + h <= HEADING_ATX_OPENING_FENCE_SIZE_MAX && EndsSequence(input, i + h)
  }

  /** The line starting at `i` opens an atx heading: at most `maxIndent`
      spaces or tabs, one to six `#`, then the end of the line, a space or a tab. */
  predicate AtxLine(input: seq<char>, i: nat, maxIndent: nat)
  {
    SequenceFits(input, i + Min(Run(input, i, Blank), maxIndent), 0)
  }

  /** What every successful run of the heading's states leaves behind, given
      the tokenizer `t` it started from and the number `depth` of tokens it
      had opened: earlier events untouched, the opened tokens all closed, the
      heading's Exit last, the resolver registered, `interrupt` cleared, and
      the point at the end of the line. */
  predicate Finished(input: seq<char>, t: Tok, r: Tok, depth: nat)
    requires depth <= |t.stack|
  {
    && |r.events| > |t.events|
    && r.events[..|t.events|] == t.events
    && r.events[|r.events| - 1] == Event(Exit, HeadingAtx, r.point)
    && r.stack == t.stack[..|t.stack| - depth]
    && "heading_atx" in r.resolvers
    && !r.interrupt
    && t.point.index <= r.point.index <= |input|
    && (r.point.index == |input| || input[r.point.index] == '\n')
  }

  /** Every Data token among the events from index `from` on holds exactly a
      maximal run of text characters: it starts at a text character and ends
      only at a space, a tab, a line ending or the end of the input. */
  predicate DataIsText(input: seq<char>, events: seq<Event>, from: nat)
  {
    forall k :: from <= k < |events| && IsDataEnter(events[k]) ==>
      && k + 1 < |events|
      && Run(input, events[k].point.index, Text) > 0
      && events[k + 1] == Event(Exit, Data, Advance(events[k].point, Run(input, events[k].point.index, Text)))
  }

  /** The characters in `from..to` are spaces, tabs or `#`: they open no Data
      and end no line. */
  predicate Filler(input: seq<char>, from: nat, to: nat)
  {
    forall j :: from <= j < to ==> j < |input| && (IsSpaceOrTab(input[j]) || IsHash(input[j]))
  }

  /** No line ending lies in `from..to`. */
  predicate SameLine(input: seq<char>, from: nat, to: nat)
  {
    forall j :: from <= j < to && j < |input| ==> input[j] != '\n'
  }

  /** A Data token opens among the events from index `from` on. */
  predicate OpensData(events: seq<Event>, from: nat)
  {
    exists k :: from <= k < |events| && IsDataEnter(events[k])
  }

  /** A character that opens Data lies in `from..to`. */
  predicate HasWord(input: seq<char>, from: nat, to: nat)
  {
    exists j :: from <= j < to && j < |input| && IsWord(input[j])
  }

  /** The run of states from `t` to `r` stays on the line, and opens Data
      exactly when the characters it read hold one that is neither
      whitespace nor `#`. */
  predicate Covers(input: seq<char>, t: Tok, r: Tok)
  {
    && SameLine(input, t.point.index, r.point.index)
    && (OpensData(r.events, |t.events|) <==> HasWord(input, t.point.index, r.point.index))
  }

  // ----- how the states grow the tokenizer

  /** `u` came from `t` by appending events and moving forward. */
  predicate Grows(t: Tok, u: Tok)
  {
    && |u.events| >= |t.events|
    && u.events[..|t.events|] == t.events
    && t.point.index <= u.point.index
  }

  /** No Data token opens among `events[from..to]`. */
  predicate NoDataEnter(events: seq<Event>, from: nat, to: nat)
  {
    forall k :: from <= k < to && k < |events| ==> !IsDataEnter(events[k])
  }

  lemma GrowsTrans(a: Tok, b: Tok, c: Tok)
    requires Grows(a, b) && Grows(b, c)
    requires NoDataEnter(b.events, |a.events|, |b.events|) && NoDataEnter(c.events, |b.events|, |c.events|)
    ensures Grows(a, c) && NoDataEnter(c.events, |a.events|, |c.events|)
  {
    assert c.events[..|a.events|] == c.events[..|b.events|][..|a.events|];
    forall k | |a.events| <= k < |b.events|
      ensures c.events[k] == b.events[k]
    {
      assert c.events[..|b.events|][k] == c.events[k];
    }
  }

  lemma FinishedChain(input: seq<char>, t: Tok, u: Tok, r: Tok, d: nat, du: nat)
    requires d <= |t.stack| && du <= |u.stack|
    requires Grows(t, u) && u.stack[..|u.stack| - du] == t.stack[..|t.stack| - d]
    requires Finished(input, u, r, du)
    ensures Finished(input, t, r, d)
  {
    assert r.events[..|t.events|] == r.events[..|u.events|][..|t.events|];
  }

  lemma DataChain(input: seq<char>, t: Tok, u: Tok, r: Tok)
    requires Grows(t, u) && NoDataEnter(u.events, |t.events|, |u.events|)
    requires |r.events| >= |u.events| && r.events[..|u.events|] == u.events
    requires DataIsText(input, r.events, |u.events|)
    ensures DataIsText(input, r.events, |t.events|)
  {
    forall k | |t.events| <= k < |u.events|
      ensures !IsDataEnter(r.events[k])
    {
      assert r.events[..|u.events|][k] == r.events[k];
    }
  }

  /** Moving over filler characters and adding no Data keeps `Covers`. */
  lemma CoversChain(input: seq<char>, t: Tok, u: Tok, r: Tok)
    requires Grows(t, u) && NoDataEnter(u.events, |t.events|, |u.events|)
    requires |r.events| >= |u.events| && r.events[..|u.events|] == u.events
    requires Filler(input, t.point.index, u.point.index)
    requires Covers(input, u, r)
    ensures Covers(input, t, r)
  {
    forall k | |t.events| <= k < |u.events|
      ensures !IsDataEnter(r.events[k])
    {
      assert r.events[..|u.events|][k] == r.events[k];
    }
    if HasWord(input, t.point.index, r.point.index) {
      var j :| t.point.index <= j < r.point.index && j < |input| && IsWord(input[j]);
      assert u.point.index <= j;
    }
  }

  /** Both halves of the chain at once, for the common case. */
  lemma Chain(input: seq<char>, t: Tok, u: Tok, r: Tok, d: nat, du: nat)
    requires d <= |t.stack| && du <= |u.stack|
    requires Grows(t, u) && NoDataEnter(u.events, |t.events|, |u.events|)
    requires u.stack[..|u.stack| - du] == t.stack[..|t.stack| - d]
    requires Finished(input, u, r, du) && DataIsText(input, r.events, |u.events|)
    ensures Finished(input, t, r, d) && DataIsText(input, r.events, |t.events|)
  {
    FinishedChain(input, t, u, r, d, du);
    DataChain(input, t, u, r);
  }

  /** A run that stops at `j` has length `j - i`. */
  lemma {:induction false} RunExact(input: seq<char>, i: nat, j: nat, k: Class)
    requires i <= j <= |input|
    requires forall m :: i <= m < j ==> In(k, input[m])
    requires j == |input| || !In(k, input[j])
    ensures Run(input, i, k) == j - i
    decreases j - i
  {
    if i < j {
      RunExact(input, i + 1, j, k);
    }
  }

  /** A run is empty exactly when its first character is not in the class,
      and otherwise one longer than the run after that character. */
  lemma RunStep(input: seq<char>, i: nat, k: Class)
    ensures Run(input, i, k) > 0 <==> i < |input| && In(k, input[i])
    ensures Run(input, i, k) > 0 ==> Run(input, i, k) == 1 + Run(input, i + 1, k)
  {
  }

  lemma SequenceFitsStep(input: seq<char>, i: nat, rank: nat)
    ensures i < |input| && input[i] == '#' ==> (SequenceFits(input, i, rank) <==> SequenceFits(input, i + 1, rank + 1))
    ensures (i >= |input| || input[i] == '\n') ==> (SequenceFits(input, i, rank) <==> 1 <= rank <= HEADING_ATX_OPENING_FENCE_SIZE_MAX)
    ensures i < |input| && input[i] != '#' && input[i] != '\n' ==> (SequenceFits(input, i, rank) <==> 1 <= rank <= HEADING_ATX_OPENING_FENCE_SIZE_MAX && Run(input, i, Blank) > 0)
  {
    RunStep(input, i, Hash);
    RunStep(input, i, Blank);
  }

  // ----- the states

  /** The events at `k` and `k + 1` open and close one `token` from `p` to `q`. */
  predicate Spans(events: seq<Event>, k: nat, token: Token, p: Point, q: Point)
  {
    k + 1 < |events| && events[k] == Event(Enter, token, p) && events[k + 1] == Event(Exit, token, q)
  }

  /** The event at `k` closes one `token` at `p`. */
  predicate ExitsAt(events: seq<Event>, k: nat, token: Token, p: Point)
  {
    k < |events| && events[k] == Event(Exit, token, p)
  }

  /** A run that extends `u` keeps the token `u` spans at `k`. */
  lemma KeepsSpan(u: seq<Event>, r: seq<Event>, k: nat, token: Token, p: Point, q: Point)
    requires |r| >= |u| && r[..|u|] == u && Spans(u, k, token, p, q)
    ensures Spans(r, k, token, p, q)
  {
    assert r[..|u|][k] == r[k] && r[..|u|][k + 1] == r[k + 1];
  }

  /** A run that extends `u` keeps the exit `u` has at `k`. */
  lemma KeepsExit(u: seq<Event>, r: seq<Event>, k: nat, token: Token, p: Point)
    requires |r| >= |u| && r[..|u|] == u && ExitsAt(u, k, token, p)
    ensures ExitsAt(r, k, token, p)
  {
    assert r[..|u|][k] == r[k];
  }

  /** `start`: opens the heading and eats the allowed indentation. */
  function Start(c: Constructs, input: seq<char>, t: Tok): (r: State)
    requires t.point.index <= |input|
    ensures !c.headingAtx ==> r == Nok
    ensures r.Ok? <==> c.headingAtx && AtxLine(input, t.point.index, MaxIndent(c))
    ensures r.Ok? ==> Finished(input, t, r.tok, 0) && DataIsText(input, r.tok.events, |t.events|)
    ensures r.Ok? ==> Opening(input, t, MaxIndent(c), r.tok.events)
    ensures r.Ok? ==> Covers(input, t, r.tok)
  {
    if c.headingAtx then
      var t1 := EnterToken(t, HeadingAtx);
      match SpaceOrTabMinMax(input, t1, 0, MaxIndent(c))
      case None => Nok
      case Some(t2) =>
        StartIndent(c, input, t);
        var r := Before(input, t2);
        if r.Ok? then
          Chain(input, t, t2, r.tok, 0, 1);
          CoversChain(input, t, t2, r.tok);
          StartShape(input, c, t, t2, r.tok.events);
          r
        else r
    else
      Nok
  }

  /** The heading's first events: its Enter at the start point, the
      indentation as one SpaceOrTab token when there is any, then the opening
      sequence over the whole run of `#` after it. */
  predicate Opening(input: seq<char>, t: Tok, maxIndent: nat, events: seq<Event>)
  {
    var n := Min(Run(input, t.point.index, Blank), maxIndent);
    var p := Moved(t.point, n);
    && |t.events| < |events| && events[|t.events|] == Event(Enter, HeadingAtx, t.point)
    && (n > 0 ==> Spans(events, |t.events| + 1, SpaceOrTab, t.point, p))
    && Spans(events, |t.events| + (if n == 0 then 1 else 3), HeadingAtxSequence, p, Advance(p, Run(input, p.index, Hash)))
  }

  /** `start`'s Enter and indentation, followed by what `before` opens, give `Opening`. */
  lemma StartShape(input: seq<char>, c: Constructs, t: Tok, t2: Tok, events: seq<Event>)
    requires SpaceOrTabMinMax(input, EnterToken(t, HeadingAtx), 0, MaxIndent(c)) == Some(t2)
    requires |events| >= |t2.events| && events[..|t2.events|] == t2.events
    requires Spans(events, |t2.events|, HeadingAtxSequence, t2.point, Advance(t2.point, Run(input, t2.point.index, Hash)))
    ensures Opening(input, t, MaxIndent(c), events)
  {
    var n := Min(Run(input, t.point.index, Blank), MaxIndent(c));
    assert events[..|t2.events|][|t.events|] == events[|t.events|];
    if n > 0 {
      KeepsSpan(t2.events, events, |t.events| + 1, SpaceOrTab, t.point, Advance(t.point, n));
    }
  }

  /** The indentation `start` eats always fits, and the opening sequence is
      then looked for right after it. */
  lemma StartIndent(c: Constructs, input: seq<char>, t: Tok)
    requires t.point.index <= |input|
    ensures var t1 := EnterToken(t, HeadingAtx);
            var t2 := SpaceOrTabMinMax(input, t1, 0, MaxIndent(c));
            && t2.Some? && t2.value.point.index <= |input|
            && (AtxLine(input, t.point.index, MaxIndent(c)) <==> SequenceFits(input, t2.value.point.index, 0))
            && Grows(t, t2.value) && NoDataEnter(t2.value.events, |t.events|, |t2.value.events|)
            && t2.value.stack == t.stack + [HeadingAtx]
  {
    var t1 := EnterToken(t, HeadingAtx);
    GrowsTrans(t, t1, SpaceOrTabMinMax(input, t1, 0, MaxIndent(c)).value);
  }

  /** `before`: the opening sequence must start here. */
  function Before(input: seq<char>, t: Tok): (r: State)
    requires t.point.index <= |input|
    requires |t.stack| > 0 && Top(t) == HeadingAtx
    ensures r.Ok? <==> SequenceFits(input, t.point.index, 0)
    ensures r.Ok? ==> Finished(input, t, r.tok, 1) && DataIsText(input, r.tok.events, |t.events|)
    ensures r.Ok? ==> && Spans(r.tok.events, |t.events|, HeadingAtxSequence, t.point, Advance(t.point, Run(input, t.point.index, Hash)))
                      && Covers(input, t, r.tok)
  {
    if Current(input, t) == Some('#') then
      var t1 := EnterToken(t, HeadingAtxSequence);
      var r := SequenceOpen(input, t1, 0);
      if r.Ok? then
        Chain(input, t, t1, r.tok, 1, 2);
        CoversChain(input, t, t1, r.tok);
        RunStep(input, t.point.index, Hash);
        assert r.tok.events[..|t1.events|][|t.events|] == r.tok.events[|t.events|];
        r
      else r
    else
      Nok
  }

  /** `sequence_open`: `rank` hashes of the opening sequence are behind us. */
  function SequenceOpen(input: seq<char>, t: Tok, rank: nat): (r: State)
    requires t.point.index <= |input|
    requires |t.stack| > 1 && Top(t) == HeadingAtxSequence && t.stack[|t.stack| - 2] == HeadingAtx
    requires rank <= HEADING_ATX_OPENING_FENCE_SIZE_MAX
    requires rank == 0 ==> Current(input, t) == Some('#')
    ensures r.Ok? <==> SequenceFits(input, t.point.index, rank)
    ensures r.Ok? ==> Finished(input, t, r.tok, 2) && DataIsText(input, r.tok.events, |t.events|)
    ensures r.Ok? ==> && ExitsAt(r.tok.events, |t.events|, HeadingAtxSequence, Moved(t.point, Run(input, t.point.index, Hash)))
                      && Covers(input, t, r.tok)
    decreases |input| - t.point.index, 4
  {
    var current := Current(input, t);
    SequenceFitsStep(input, t.point.index, rank);
    RunStep(input, t.point.index, Hash);
    if (current == None || current == Some('\n')) && rank > 0 then
      SequenceDone(input, t)
    else if current == Some('#') && rank < HEADING_ATX_OPENING_FENCE_SIZE_MAX then
      var r := SequenceOpen(input, Consume(t, 1), rank + 1);
      if r.Ok? then
        HashStep(input, t, r.tok);
        r
      else r
    else if rank > 0 then
      SequenceSpace(input, t)
    else
      Nok
  }

  /** Consuming one `#` of a sequence keeps where the sequence closes and `Covers`. */
  lemma HashStep(input: seq<char>, t: Tok, r: Tok)
    requires t.point.index < |input| && input[t.point.index] == '#'
    requires |r.events| >= |t.events| && r.events[..|t.events|] == t.events
    requires ExitsAt(r.events, |t.events|, HeadingAtxSequence, Moved(Consume(t, 1).point, Run(input, t.point.index + 1, Hash)))
    requires Covers(input, Consume(t, 1), r)
    ensures ExitsAt(r.events, |t.events|, HeadingAtxSequence, Moved(t.point, Run(input, t.point.index, Hash)))
    ensures Covers(input, t, r)
  {
    RunStep(input, t.point.index, Hash);
    CoversChain(input, t, Consume(t, 1), r);
  }

  /** The opening sequence ends at the end of the line. */
  function SequenceDone(input: seq<char>, t: Tok): (r: State)
    requires t.point.index <= |input|
    requires |t.stack| > 1 && Top(t) == HeadingAtxSequence && t.stack[|t.stack| - 2] == HeadingAtx
    ensures r.Ok? && Finished(input, t, r.tok, 2) && DataIsText(input, r.tok.events, |t.events|)
    ensures r.Ok? && ExitsAt(r.tok.events, |t.events|, HeadingAtxSequence, t.point) && Covers(input, t, r.tok)
    decreases |input| - t.point.index, 3
  {
    var r := AtBreak(input, ExitToken(t, HeadingAtxSequence));
    SequenceClosed(input, t, r.tok);
    r
  }

  /** Closing a sequence at the point and going on at `at_break` finishes the heading. */
  lemma SequenceClosed(input: seq<char>, t: Tok, r: Tok)
    requires t.point.index <= |input|
    requires |t.stack| > 1 && Top(t) == HeadingAtxSequence && t.stack[|t.stack| - 2] == HeadingAtx
    requires Finished(input, ExitToken(t, HeadingAtxSequence), r, 1)
    requires DataIsText(input, r.events, |t.events| + 1) && Covers(input, ExitToken(t, HeadingAtxSequence), r)
    ensures Finished(input, t, r, 2) && DataIsText(input, r.events, |t.events|) && Covers(input, t, r)
    ensures ExitsAt(r.events, |t.events|, HeadingAtxSequence, t.point)
  {
    var t1 := ExitToken(t, HeadingAtxSequence);
    Chain(input, t, t1, r, 2, 1);
    CoversChain(input, t, t1, r);
    KeepsExit(t1.events, r.events, |t.events|, HeadingAtxSequence, t.point);
  }

  /** The opening sequence must be followed by spaces or tabs. */
  function SequenceSpace(input: seq<char>, t: Tok): (r: State)
    requires t.point.index <= |input|
    requires |t.stack| > 1 && Top(t) == HeadingAtxSequence && t.stack[|t.stack| - 2] == HeadingAtx
    ensures r.Ok? <==> Run(input, t.point.index, Blank) > 0
    ensures r.Ok? ==> Finished(input, t, r.tok, 2) && DataIsText(input, r.tok.events, |t.events|)
    ensures r.Ok? ==> ExitsAt(r.tok.events, |t.events|, HeadingAtxSequence, t.point) && Covers(input, t, r.tok)
    decreases |input| - t.point.index, 3
  {
    var t1 := ExitToken(t, HeadingAtxSequence);
    match SpaceOrTabRun(input, t1)
    case None => Nok
    case Some(t2) =>
      var r := AtBreak(input, t2);
      GrowsTrans(t, t1, t2);
      Chain(input, t, t2, r.tok, 2, 1);
      CoversChain(input, t, t2, r.tok);
      KeepsExit(t2.events, r.tok.events, |t.events|, HeadingAtxSequence, t.point);
      r
  }

  /** `register_resolver`: adds a resolver name to the list unless it is
      already there, so each name is registered once. */
  function Register(names: seq<string>, name: string): (r: seq<string>)
    ensures name in r
    ensures forall n :: n in r <==> n in names || n == name
    ensures names <= r && |r| <= |names| + 1
    ensures name in names ==> r == names
  {
    if name in names then names else names + [name]
  }

  /** The end of the line: the heading closes, its resolver is registered and
      `interrupt` is cleared. */
  function Close(input: seq<char>, t: Tok): (r: Tok)
    requires t.point.index <= |input| && (t.point.index == |input| || input[t.point.index] == '\n')
    requires |t.stack| > 0 && Top(t) == HeadingAtx
    ensures Finished(input, t, r, 1) && DataIsText(input, r.events, |t.events|)
    ensures Covers(input, t, r)
  {
    ExitToken(t, HeadingAtx).(resolvers := Register(t.resolvers, "heading_atx"), interrupt := false)
  }

  /** `at_break`: between the parts of the heading; it always succeeds. */
  function AtBreak(input: seq<char>, t: Tok): (r: State)
    requires t.point.index <= |input|
    requires |t.stack| > 0 && Top(t) == HeadingAtx
    ensures r.Ok? && Finished(input, t, r.tok, 1) && DataIsText(input, r.tok.events, |t.events|)
    ensures r.Ok? && Covers(input, t, r.tok)
    decreases |input| - t.point.index, 2
  {
    match Current(input, t)
    case None => Ok(Close(input, t))
    case Some(c) =>
      if c == '\n' then
        Ok(Close(input, t))
      else if c == '\t' || c == ' ' then
        BreakSpace(input, t)
      else if c == '#' then
        BreakSequence(input, t)
      else
        BreakData(input, t)
  }

  /** Whitespace between the parts of the heading. */
  function BreakSpace(input: seq<char>, t: Tok): (r: State)
    requires t.point.index < |input| && IsSpaceOrTab(input[t.point.index])
    requires |t.stack| > 0 && Top(t) == HeadingAtx
    ensures r.Ok? && Finished(input, t, r.tok, 1) && DataIsText(input, r.tok.events, |t.events|)
    ensures r.Ok? && Covers(input, t, r.tok)
    ensures r.Ok? && Spans(r.tok.events, |t.events|, SpaceOrTab, t.point,
                           Advance(t.point, Min(Run(input, t.point.index, Blank), USIZE_MAX)))
    decreases |input| - t.point.index, 1
  {
    var t2 := SpaceOrTabRun(input, t).value;
    var r := AtBreak(input, t2);
    Chain(input, t, t2, r.tok, 1, 1);
    CoversChain(input, t, t2, r.tok);
    KeepsSpan(t2.events, r.tok.events, |t.events|, SpaceOrTab, t.point, t2.point);
    r
  }

  /** A further run of hashes starts. */
  function BreakSequence(input: seq<char>, t: Tok): (r: State)
    requires t.point.index < |input| && input[t.point.index] == '#'
    requires |t.stack| > 0 && Top(t) == HeadingAtx
    ensures r.Ok? && Finished(input, t, r.tok, 1) && DataIsText(input, r.tok.events, |t.events|)
    ensures r.Ok? && Covers(input, t, r.tok)
    ensures r.Ok? && Spans(r.tok.events, |t.events|, HeadingAtxSequence, t.point, Advance(t.point, Run(input, t.point.index, Hash)))
    decreases |input| - t.point.index, 1
  {
    var t1 := EnterToken(t, HeadingAtxSequence);
    var r := FurtherSequence(input, t1);
    Chain(input, t, t1, r.tok, 1, 2);
    CoversChain(input, t, t1, r.tok);
    assert r.tok.events[..|t1.events|][|t.events|] == r.tok.events[|t.events|];
    RunStep(input, t.point.index, Hash);
    r
  }

  /** Heading text starts. */
  function BreakData(input: seq<char>, t: Tok): (r: State)
    requires t.point.index < |input| && IsWord(input[t.point.index])
    requires |t.stack| > 0 && Top(t) == HeadingAtx
    ensures r.Ok? && Finished(input, t, r.tok, 1) && DataIsText(input, r.tok.events, |t.events|)
    ensures r.Ok? && Covers(input, t, r.tok)
    ensures r.Ok? && Spans(r.tok.events, |t.events|, Data, t.point, Advance(t.point, Run(input, t.point.index, Text)))
    decreases |input| - t.point.index, 1
  {
    var t1 := EnterToken(t, Data);
    var r := InData(input, t1);
    FinishedChain(input, t, t1, r.tok, 1, 2);
    assert r.tok.events[..|t1.events|][|t.events|] == r.tok.events[|t.events|];
    assert IsDataEnter(r.tok.events[|t.events|]);
    r
  }

  /** `further_sequence`: a run of hashes after whitespace, which may be the
      closing sequence or visible text; the sequence takes every `#` that follows. */
  function FurtherSequence(input: seq<char>, t: Tok): (r: State)
    requires t.point.index <= |input|
    requires |t.stack| > 1 && Top(t) == HeadingAtxSequence && t.stack[|t.stack| - 2] == HeadingAtx
    requires |t.events| > 0 && t.events[|t.events| - 1].point.index <= t.point.index
    requires t.events[|t.events| - 1].point.index == t.point.index ==> Current(input, t) == Some('#')
    ensures r.Ok? && Finished(input, t, r.tok, 2) && DataIsText(input, r.tok.events, |t.events|)
    ensures r.Ok? && Covers(input, t, r.tok)
    ensures r.Ok? && ExitsAt(r.tok.events, |t.events|, HeadingAtxSequence, Moved(t.point, Run(input, t.point.index, Hash)))
    decreases |input| - t.point.index, if t.events[|t.events| - 1].point.index == t.point.index then 0 else 3
  {
    RunStep(input, t.point.index, Hash);
    if Current(input, t) == Some('#') then
      var r := FurtherSequence(input, Consume(t, 1));
      HashStep(input, t, r.tok);
      r
    else
      var r := AtBreak(input, ExitToken(t, HeadingAtxSequence));
      SequenceClosed(input, t, r.tok);
      r
  }

  /** The Data token opened last, at point `p`, covers text up to the current point. */
  predicate InText(input: seq<char>, t: Tok)
    requires |t.events| > 0
  {
    var p := t.events[|t.events| - 1].point;
    && p.index <= t.point.index <= |input|
    && (if p.index == t.point.index then t.point == p else t.point == Advance(p, t.point.index - p.index))
    && (forall j :: p.index <= j < t.point.index ==> IsText(input[j]))
    && (p.index == t.point.index ==> t.point.index < |input| && IsText(input[t.point.index]))
  }

  /** `data`: in heading text, which ends only at whitespace or the end of the line. */
  function InData(input: seq<char>, t: Tok): (r: State)
    requires |t.stack| > 1 && Top(t) == Data && t.stack[|t.stack| - 2] == HeadingAtx
    requires |t.events| > 0 && IsDataEnter(t.events[|t.events| - 1]) && InText(input, t)
    ensures r.Ok? && Finished(input, t, r.tok, 2) && DataIsText(input, r.tok.events, |t.events| - 1)
    ensures r.Ok? && SameLine(input, t.point.index, r.tok.point.index)
    decreases |input| - t.point.index, if t.events[|t.events| - 1].point.index == t.point.index then 0 else 3
  {
    if t.point.index < |input| && IsText(input[t.point.index]) then
      InData(input, Consume(t, 1))
    else
      var t1 := ExitToken(t, Data);
      var r := AtBreak(input, t1);
      DataClose(input, t, r.tok);
      r
  }

  /** Closing the Data token at the first non-text character makes it span
      exactly the run of text it started at. */
  lemma DataClose(input: seq<char>, t: Tok, r: Tok)
    requires |t.stack| > 1 && Top(t) == Data && t.stack[|t.stack| - 2] == HeadingAtx
    requires |t.events| > 0 && IsDataEnter(t.events[|t.events| - 1]) && InText(input, t)
    requires t.point.index == |input| || !IsText(input[t.point.index])
    requires Finished(input, ExitToken(t, Data), r, 1)
    requires DataIsText(input, r.events, |t.events| + 1)
    ensures Finished(input, t, r, 2) && DataIsText(input, r.events, |t.events| - 1)
  {
    var t1 := ExitToken(t, Data);
    var k := |t.events| - 1;
    var p := t.events[k].point;
    RunExact(input, p.index, t.point.index, Text);
    assert r.events[..|t.events|] == r.events[..|t1.events|][..|t.events|];
    assert r.events[k] == t1.events[k] && r.events[k + 1] == t1.events[k + 1];
    assert t1.stack[..|t1.stack| - 1] == t.stack[..|t.stack| - 2];
  }
}

module HeadingResolve {
  import opened Events
  import opened EditMap

  /** The kinds of event the resolver looks for. */
  datatype Pick = HeadingEnter | HeadingExit | DataEnter | DataExit

  predicate Is(p: Pick, e: Event)
  {
    match p
    case HeadingEnter => e.kind == Enter && e.token == HeadingAtx
    case HeadingExit => e.kind == Exit && e.token == HeadingAtx
    case DataEnter => e.kind == Enter && e.token == Data
    case DataExit => e.kind == Exit && e.token == Data
  }

  /** The first index in `lo..n` whose event is a `p`. */
  function First(events: seq<Event>, p: Pick, lo: nat, n: nat): (r: Option<nat>)
    requires n <= |events|
    ensures r.Some? ==> lo <= r.value < n && Is(p, events[r.value])
  {
    if n <= lo then None
    else match First(events, p, lo, n - 1)
      case Some(k) => Some(k)
      case None => if Is(p, events[n - 1]) then Some(n - 1) else None
  }

  /** The last index in `lo..n` whose event is a `p`. */
  function Last(events: seq<Event>, p: Pick, lo: nat, n: nat): (r: Option<nat>)
    requires n <= |events|
    ensures r.Some? ==> lo <= r.value < n && Is(p, events[r.value])
  {
    if n <= lo then None
    else if Is(p, events[n - 1]) then Some(n - 1)
    else Last(events, p, lo, n - 1)
  }

  /** `First` finds a `p` whenever there is one, and none is earlier. */
  lemma {:induction false} FirstLeast(events: seq<Event>, p: Pick, lo: nat, n: nat, j: nat)
    requires n <= |events| && lo <= j < n && Is(p, events[j])
    ensures First(events, p, lo, n).Some? && First(events, p, lo, n).value <= j
  {
    if j < n - 1 {
      FirstLeast(events, p, lo, n - 1, j);
    }
  }

  /** `Last` finds a `p` whenever there is one, and none is later. */
  lemma {:induction false} LastGreatest(events: seq<Event>, p: Pick, lo: nat, n: nat, j: nat)
    requires n <= |events| && lo <= j < n && Is(p, events[j])
    ensures Last(events, p, lo, n).Some? && j <= Last(events, p, lo, n).value
  {
    if j < n - 1 && !Is(p, events[n - 1]) {
      LastGreatest(events, p, lo, n - 1, j);
    }
  }

  /** Where the scan of `events[..n]` forgot everything: just after the last
      heading exit, or the beginning. */
  function Base(events: seq<Event>, n: nat): (r: nat)
    requires n <= |events|
    ensures r <= n
  {
    match Last(events, HeadingExit, 0, n)
    case None => 0
    case Some(x) => x + 1
  }

  /** The heading entered since `Base`, if any: the point from which Data is tracked. */
  function Open(events: seq<Event>, n: nat): Option<nat>
    requires n <= |events|
  {
    First(events, HeadingEnter, Base(events, n), n)
  }

  /** The first Data Enter of the open heading, once `events[..n]` are scanned. */
  function DataStart(events: seq<Event>, n: nat): Option<nat>
    requires n <= |events|
  {
    match Open(events, n)
    case None => None
    case Some(o) => First(events, DataEnter, o + 1, n)
  }

  /** The last Data Exit of the open heading, once `events[..n]` are scanned. */
  function DataEnd(events: seq<Event>, n: nat): Option<nat>
    requires n <= |events|
  {
    match Open(events, n)
    case None => None
    case Some(o) => Last(events, DataExit, o + 1, n)
  }

  /** The edits for the heading that closes at index `x`: wrap its first Data
      Enter to its last Data Exit in one HeadingAtxText span, or nothing when
      the heading has no Data. */
  function WrapAt(events: seq<Event>, x: nat): seq<Edit>
    requires x < |events|
  {
    match (DataStart(events, x), DataEnd(events, x))
    case (Some(s), Some(d)) =>
      if s < d then
        WrapEdits(s, d, Event(Enter, HeadingAtxText, events[s].point), Event(Exit, HeadingAtxText, events[d].point))
      else []
    case _ => []
  }

  /** All edits the resolver queues while it scans `events[..n]`. */
  function HeadingEdits(events: seq<Event>, n: nat): seq<Edit>
    requires n <= |events|
  {
    if n == 0 then []
    else HeadingEdits(events, n - 1) + (if Is(HeadingExit, events[n - 1]) then WrapAt(events, n - 1) else [])
  }

  /** What the scan remembers: the open heading, the first Data Enter and the
      last Data Exit seen inside it. */
  datatype Scan = Scan(headingStart: Option<nat>, dataStart: Option<nat>, dataEnd: Option<nat>)

  /** The scan state after `events[..n]`, stated from the events alone. */
  function Spec(events: seq<Event>, n: nat): Scan
    requires n <= |events|
  {
    Scan(Last(events, HeadingEnter, Base(events, n), n), DataStart(events, n), DataEnd(events, n))
  }

  /** One step of the corrected scan on the event at index `n`. */
  function Next(sc: Scan, e: Event, n: nat): Scan
  {
    if e.token == HeadingAtx then
      if e.kind == Enter then sc.(headingStart := Some(n)) else Scan(None, None, None)
    else if sc.headingStart.Some? && e.token == Data then
      if e.kind == Enter then
        (if sc.dataStart.None? then sc.(dataStart := Some(n)) else sc)
      else sc.(dataEnd := Some(n))
    else sc
  }

  /** An open heading has a first and a last Enter at once. */
  lemma {:induction false} FirstLastSome(events: seq<Event>, p: Pick, lo: nat, n: nat)
    requires n <= |events|
    ensures First(events, p, lo, n).Some? <==> Last(events, p, lo, n).Some?
  {
    if First(events, p, lo, n).Some? {
      LastGreatest(events, p, lo, n, First(events, p, lo, n).value);
    }
    if Last(events, p, lo, n).Some? {
      FirstLeast(events, p, lo, n, Last(events, p, lo, n).value);
    }
  }

  /** `First` over one more event. */
  lemma FirstStep(events: seq<Event>, p: Pick, lo: nat, n: nat)
    requires n < |events|
    ensures First(events, p, lo, n + 1)
      == if First(events, p, lo, n).Some? then First(events, p, lo, n)
         else if lo <= n && Is(p, events[n]) then Some(n) else None
  {
  }

  /** `Last` over one more event. */
  lemma LastStep(events: seq<Event>, p: Pick, lo: nat, n: nat)
    requires n < |events|
    ensures Last(events, p, lo, n + 1)
      == if lo <= n && Is(p, events[n]) then Some(n) else Last(events, p, lo, n)
  {
  }

  /** The declarative state moves exactly as the scan does. */
  lemma SpecStep(events: seq<Event>, n: nat)
    requires n < |events|
    ensures Spec(events, n + 1) == Next(Spec(events, n), events[n], n)
  {
    var e := events[n];
    LastStep(events, HeadingExit, 0, n);
    if Is(HeadingExit, e) {
      SpecStepExit(events, n);
    } else {
      assert Base(events, n + 1) == Base(events, n);
      if Is(HeadingEnter, e) {
        SpecStepEnter(events, n);
      } else if Open(events, n).Some? {
        FirstLastSome(events, HeadingEnter, Base(events, n), n);
        SpecStepInside(events, n);
      } else {
        FirstLastSome(events, HeadingEnter, Base(events, n), n);
        SpecStepOutside(events, n);
      }
    }
  }

  /** A heading exit forgets everything. */
  lemma SpecStepExit(events: seq<Event>, n: nat)
    requires n < |events| && Is(HeadingExit, events[n])
    ensures Spec(events, n + 1) == Scan(None, None, None)
  {
    LastStep(events, HeadingExit, 0, n);
    assert Base(events, n + 1) == n + 1;
    assert Open(events, n + 1).None?;
  }

  /** A heading enter becomes the last heading start; the Data tracking stays. */
  lemma SpecStepEnter(events: seq<Event>, n: nat)
    requires n < |events| && Is(HeadingEnter, events[n])
    requires Base(events, n + 1) == Base(events, n)
    ensures Spec(events, n + 1) == Spec(events, n).(headingStart := Some(n))
  {
    var b := Base(events, n);
    FirstStep(events, HeadingEnter, b, n);
    LastStep(events, HeadingEnter, b, n);
    match Open(events, n)
    case None =>
      FirstLastSome(events, HeadingEnter, b, n);
      assert Open(events, n + 1) == Some(n);
      assert First(events, DataEnter, n + 1, n + 1).None?;
      assert Last(events, DataExit, n + 1, n + 1).None?;
    case Some(o) =>
      assert Open(events, n + 1) == Some(o);
      FirstStep(events, DataEnter, o + 1, n);
      LastStep(events, DataExit, o + 1, n);
  }

  /** Inside an open heading, a Data enter or exit is tracked and anything else is skipped. */
  lemma SpecStepInside(events: seq<Event>, n: nat)
    requires n < |events| && events[n].token != HeadingAtx && Open(events, n).Some?
    requires Base(events, n + 1) == Base(events, n)
    ensures var sc := Spec(events, n);
      Spec(events, n + 1)
      == if Is(DataEnter, events[n]) then (if sc.dataStart.None? then sc.(dataStart := Some(n)) else sc)
         else if Is(DataExit, events[n]) then sc.(dataEnd := Some(n))
         else sc
  {
    var b := Base(events, n);
    var o := Open(events, n).value;
    FirstLastSome(events, HeadingEnter, b, n);
    FirstStep(events, HeadingEnter, b, n);
    LastStep(events, HeadingEnter, b, n);
    assert Open(events, n + 1) == Some(o);
    FirstStep(events, DataEnter, o + 1, n);
    LastStep(events, DataExit, o + 1, n);
  }

  /** Outside any heading nothing is tracked. */
  lemma SpecStepOutside(events: seq<Event>, n: nat)
    requires n < |events| && events[n].token != HeadingAtx && Open(events, n).None?
    requires Base(events, n + 1) == Base(events, n)
    ensures Spec(events, n + 1) == Spec(events, n)
  {
    var b := Base(events, n);
    FirstLastSome(events, HeadingEnter, b, n);
    FirstStep(events, HeadingEnter, b, n);
    LastStep(events, HeadingEnter, b, n);
    assert Open(events, n + 1).None?;
  }

  /** At a heading exit, a first Data Enter of the heading comes with a later last Data Exit. */
  lemma DataEndAfterStart(events: seq<Event>, n: nat)
    requires n < |events| && DataIsLeaf(events) && Is(HeadingExit, events[n])
    requires DataStart(events, n).Some?
    ensures DataEnd(events, n).Some? && DataStart(events, n).value < DataEnd(events, n).value
  {
    var s := DataStart(events, n).value;
    var o := Open(events, n).value;
    assert IsDataEnter(events[s]);
    assert IsDataExit(events[s + 1]);
    LastGreatest(events, DataExit, o + 1, n, s + 1);
  }

  /** The edits the scan queues at event `n` from the state `sc`: the wrap of
      the heading's Data at a heading exit, nothing otherwise. */
  function Queued(events: seq<Event>, sc: Scan, n: nat): seq<Edit>
    requires n < |events|
  {
    if Is(HeadingExit, events[n]) && sc.dataStart.Some? && sc.dataEnd.Some?
       && sc.dataStart.value < sc.dataEnd.value < |events|
    then WrapEdits(sc.dataStart.value, sc.dataEnd.value,
                   Event(Enter, HeadingAtxText, events[sc.dataStart.value].point),
                   Event(Exit, HeadingAtxText, events[sc.dataEnd.value].point))
    else []
  }

  /** What one event adds to the queued edits: the wrap of the heading's
      Data at a heading exit, nothing otherwise. */
  lemma EditsStep(events: seq<Event>, n: nat)
    requires n < |events|
    ensures HeadingEdits(events, n + 1) == HeadingEdits(events, n) + Queued(events, Spec(events, n), n)
  {
  }

  /** `resolve`: one scan over the events that queues the wrap of every
      heading's text. This is the corrected scan, which forgets the open
      heading at every heading exit (`Scanned` with `asWritten` is the scan
      as the source writes it). */
  method Resolve(events: seq<Event>, edits: EditMap)
    requires DataIsLeaf(events)
    modifies edits
    ensures edits.edits == old(edits.edits) + HeadingEdits(events, |events|)
  {
    var index := 0;
    var headingStart: Option<nat> := None;
    var dataStart: Option<nat> := None;
    var dataEnd: Option<nat> := None;
    while index < |events|
      invariant index <= |events|
      invariant Scanned(events, index, false) == Scan(headingStart, dataStart, dataEnd)
      invariant edits.edits == old(edits.edits) + HeadingEdits(events, index)
    {
      ghost var sc := Scan(headingStart, dataStart, dataEnd);
      ScannedRange(events, index);
      ScannedQueued(events, index);
      headingStart, dataStart, dataEnd := ResolveEvent(events, index, headingStart, dataStart, dataEnd, edits);
      EditsSplice(old(edits.edits), HeadingEdits(events, index), Queued(events, sc, index));
      index := index + 1;
    }
  }

  /** The body of the resolver's loop for the event at `index`. */
  method ResolveEvent(events: seq<Event>, index: nat, headingStart: Option<nat>, dataStart: Option<nat>,
                      dataEnd: Option<nat>, edits: EditMap)
    returns (headingStart': Option<nat>, dataStart': Option<nat>, dataEnd': Option<nat>)
    requires index < |events|
    requires Is(HeadingExit, events[index]) && dataStart.Some? ==>
      dataEnd.Some? && dataStart.value < dataEnd.value < index
    modifies edits
    ensures Scan(headingStart', dataStart', dataEnd')
      == Next(Scan(headingStart, dataStart, dataEnd), events[index], index)
    ensures edits.edits == old(edits.edits) + Queued(events, Scan(headingStart, dataStart, dataEnd), index)
  {
    var event := events[index];
    headingStart', dataStart', dataEnd' := headingStart, dataStart, dataEnd;
    if event.token == HeadingAtx {
      if event.kind == Enter {
        headingStart' := Some(index);
      } else {
        if dataStart.Some? {
          Wrap(events, dataStart.value, dataEnd.value, edits);
        }
        headingStart' := None;
        dataStart' := None;
        dataEnd' := None;
      }
    } else if headingStart.Some? && event.token == Data {
      if event.kind == Enter {
        if dataStart.None? {
          dataStart' := Some(index);
        }
      } else {
        dataEnd' := Some(index);
      }
    }
  }

  /** The three edits of one heading's wrap, queued in the resolver's order. */
  method Wrap(events: seq<Event>, start: nat, end: nat, edits: EditMap)
    requires start < end < |events|
    modifies edits
    ensures edits.edits == old(edits.edits)
      + WrapEdits(start, end, Event(Enter, HeadingAtxText, events[start].point), Event(Exit, HeadingAtxText, events[end].point))
  {
    edits.Add(start, 0, [Event(Enter, HeadingAtxText, events[start].point)]);
    edits.Add(start + 1, end - start - 1, []);
    edits.Add(end + 1, 0, [Event(Exit, HeadingAtxText, events[end].point)]);
  }

  /** Applying one heading's edits puts HeadingAtxText around its first Data
      Enter and last Data Exit and drops every event between them. */
  lemma HeadingWrap(events: seq<Event>, x: nat)
    requires x < |events| && DataStart(events, x).Some? && DataEnd(events, x).Some?
    requires DataStart(events, x).value < DataEnd(events, x).value
    ensures var s, d := DataStart(events, x).value, DataEnd(events, x).value;
      Applied(events, WrapAt(events, x))
      == events[..s]
         + [Event(Enter, HeadingAtxText, events[s].point), events[s], events[d], Event(Exit, HeadingAtxText, events[d].point)]
         + events[d + 1..]
  {
    var s, d := DataStart(events, x).value, DataEnd(events, x).value;
    ApplyWrap(events, s, d, Event(Enter, HeadingAtxText, events[s].point), Event(Exit, HeadingAtxText, events[d].point));
  }

  /** A heading without Data gets no edits. */
  lemma NoDataNoEdits(events: seq<Event>, x: nat)
    requires x < |events| && DataStart(events, x).None?
    ensures WrapAt(events, x) == []
  {
  }

  /** Every wrap lies strictly inside one heading: after its Enter, before its
      Exit, with no other heading exit in between. */
  lemma WrapInsideHeading(events: seq<Event>, x: nat)
    requires x < |events| && Is(HeadingExit, events[x]) && WrapAt(events, x) != []
    ensures Open(events, x).Some?
    ensures var o := Open(events, x).value;
      && Is(HeadingEnter, events[o])
      && o < DataStart(events, x).value < DataEnd(events, x).value < x
      && forall j :: o < j < x ==> !Is(HeadingExit, events[j])
  {
    var o := Open(events, x).value;
    var b := Base(events, x);
    forall j | o < j < x
      ensures !Is(HeadingExit, events[j])
    {
      if Is(HeadingExit, events[j]) {
        LastGreatest(events, HeadingExit, 0, x, j);
        assert false;
      }
    }
  }

  /** The scan as the source writes it: the state is forgotten only at the
      exit of a heading that had Data, so after a heading without Data the
      scan keeps the heading open. */
  function NextAsWritten(sc: Scan, e: Event, n: nat): Scan
  {
    if e.token == HeadingAtx then
      if e.kind == Enter then sc.(headingStart := Some(n))
      else if sc.dataStart.Some? then Scan(None, None, None)
      else sc
    else if sc.headingStart.Some? && e.token == Data then
      if e.kind == Enter then
        (if sc.dataStart.None? then sc.(dataStart := Some(n)) else sc)
      else sc.(dataEnd := Some(n))
    else sc
  }

  /** The state of the scan after `events[..n]`: the corrected scan, or with
      `asWritten` the scan as the source writes it. */
  function Scanned(events: seq<Event>, n: nat, asWritten: bool): (r: Scan)
    requires n <= |events|
    ensures n == 0 ==> r == Scan(None, None, None)
  {
    if n == 0 then Scan(None, None, None)
    else if asWritten then NextAsWritten(Scanned(events, n - 1, asWritten), events[n - 1], n - 1)
    else Next(Scanned(events, n - 1, asWritten), events[n - 1], n - 1)
  }

  /** The edits that scan queues over `events[..n]`. */
  function ScanEdits(events: seq<Event>, n: nat, asWritten: bool): (r: seq<Edit>)
    requires n <= |events|
    ensures n == 0 ==> r == []
  {
    if n == 0 then [] else ScanEdits(events, n - 1, asWritten) + Queued(events, Scanned(events, n - 1, asWritten), n - 1)
  }

  /** The corrected scan computes the declarative state. */
  lemma {:induction false} ScannedState(events: seq<Event>, n: nat)
    requires n <= |events|
    ensures Scanned(events, n, false) == Spec(events, n)
  {
    if n > 0 {
      ScannedState(events, n - 1);
      SpecStep(events, n - 1);
    }
  }

  /** The corrected scan moves by `Next` and queues at `n` what the
      declarative edits add at `n`. */
  lemma ScannedQueued(events: seq<Event>, n: nat)
    requires n < |events|
    ensures Scanned(events, n + 1, false) == Next(Scanned(events, n, false), events[n], n)
    ensures HeadingEdits(events, n + 1) == HeadingEdits(events, n) + Queued(events, Scanned(events, n, false), n)
  {
    ScannedState(events, n);
    EditsStep(events, n);
  }

  /** The corrected scan queues the declarative edits. */
  lemma {:induction false} ScannedEdits(events: seq<Event>, n: nat)
    requires n <= |events|
    ensures ScanEdits(events, n, false) == HeadingEdits(events, n)
  {
    if n > 0 {
      ScannedEdits(events, n - 1);
      ScannedQueued(events, n - 1);
    }
  }

  /** At a heading exit the corrected scan holds a Data range that ends
      before the exit whenever it holds a start. */
  lemma ScannedRange(events: seq<Event>, n: nat)
    requires n < |events| && DataIsLeaf(events)
    ensures var sc := Scanned(events, n, false);
      Is(HeadingExit, events[n]) && sc.dataStart.Some? ==>
        sc.dataEnd.Some? && sc.dataStart.value < sc.dataEnd.value < n
  {
    ScannedState(events, n);
    if Is(HeadingExit, events[n]) && DataStart(events, n).Some? {
      DataEndAfterStart(events, n);
    }
  }

  function P(i: nat): Point {
    Point(1, 1 + i, i, 0)
  }

  /** The flow events of `#`, a paragraph `a` and `# b`, keeping only the
      heading, paragraph and Data events (sequences, whitespace and line
      endings do not take part in the scan): the first heading has no Data,
      the paragraph's Data lies outside any heading. */
  function BareHeadingThenParagraph(): seq<Event> {
    [ Event(Enter, HeadingAtx, P(0)),
      Event(Exit, HeadingAtx, P(1)),
      Event(Enter, Paragraph, P(2)),
      Event(Enter, Data, P(3)),
      Event(Exit, Data, P(4)),
      Event(Exit, Paragraph, P(5)),
      Event(Enter, HeadingAtx, P(6)),
      Event(Enter, Data, P(7)),
      Event(Exit, Data, P(8)),
      Event(Exit, HeadingAtx, P(9)) ]
  }

  /** The states of the as-written scan on that list: the first heading's
      exit leaves it open, so the paragraph's Data is tracked and kept when
      the second heading opens. */
  lemma AsWrittenStates()
    ensures var ex := BareHeadingThenParagraph();
      Scanned(ex, 1, true) == Scan(Some(0), None, None) &&
      Scanned(ex, 2, true) == Scan(Some(0), None, None) &&
      Scanned(ex, 3, true) == Scan(Some(0), None, None) &&
      Scanned(ex, 4, true) == Scan(Some(0), Some(3), None) &&
      Scanned(ex, 5, true) == Scan(Some(0), Some(3), Some(4)) &&
      Scanned(ex, 6, true) == Scan(Some(0), Some(3), Some(4)) &&
      Scanned(ex, 7, true) == Scan(Some(6), Some(3), Some(4)) &&
      Scanned(ex, 8, true) == Scan(Some(6), Some(3), Some(4)) &&
      Scanned(ex, 9, true) == Scan(Some(6), Some(3), Some(8))
  {
    var ex := BareHeadingThenParagraph();
    assert ex[0] == Event(Enter, HeadingAtx, P(0));
    assert Scanned(ex, 1, true) == Scan(Some(0), None, None);
    assert ex[1] == Event(Exit, HeadingAtx, P(1));
    assert Scanned(ex, 2, true) == Scan(Some(0), None, None);
    assert ex[2] == Event(Enter, Paragraph, P(2));
    assert Scanned(ex, 3, true) == Scan(Some(0), None, None);
    assert ex[3] == Event(Enter, Data, P(3));
    assert Scanned(ex, 4, true) == Scan(Some(0), Some(3), None);
    assert ex[4] == Event(Exit, Data, P(4));
    assert Scanned(ex, 5, true) == Scan(Some(0), Some(3), Some(4));
    assert ex[5] == Event(Exit, Paragraph, P(5));
    assert Scanned(ex, 6, true) == Scan(Some(0), Some(3), Some(4));
    assert ex[6] == Event(Enter, HeadingAtx, P(6));
    assert Scanned(ex, 7, true) == Scan(Some(6), Some(3), Some(4));
    assert ex[7] == Event(Enter, Data, P(7));
    assert Scanned(ex, 8, true) == Scan(Some(6), Some(3), Some(4));
    assert ex[8] == Event(Exit, Data, P(8));
    assert Scanned(ex, 9, true) == Scan(Some(6), Some(3), Some(8));
  }

  /** The as-written scan queues one wrap, from the paragraph's Data to the
      second heading's Data. */
  lemma AsWrittenEdits()
    ensures ScanEdits(BareHeadingThenParagraph(), 10, true) == [Edit(3, 0, [Event(Enter, HeadingAtxText, P(3))]), Edit(4, 4, []), Edit(9, 0, [Event(Exit, HeadingAtxText, P(8))])]
  {
    var ex := BareHeadingThenParagraph();
    AsWrittenStates();
    ghost var nothing: seq<Edit> := [];
    assert nothing + nothing == nothing;
    assert Queued(ex, Scan(None, None, None), 0) == [];
    assert ScanEdits(ex, 1, true) == [];
    assert Queued(ex, Scan(Some(0), None, None), 1) == [];
    assert ScanEdits(ex, 2, true) == [];
    assert Queued(ex, Scan(Some(0), None, None), 2) == [];
    assert ScanEdits(ex, 3, true) == [];
    assert Queued(ex, Scan(Some(0), None, None), 3) == [];
    assert ScanEdits(ex, 4, true) == [];
    assert Queued(ex, Scan(Some(0), Some(3), None), 4) == [];
    assert ScanEdits(ex, 5, true) == [];
    assert Queued(ex, Scan(Some(0), Some(3), Some(4)), 5) == [];
    assert ScanEdits(ex, 6, true) == [];
    assert Queued(ex, Scan(Some(0), Some(3), Some(4)), 6) == [];
    assert ScanEdits(ex, 7, true) == [];
    assert Queued(ex, Scan(Some(6), Some(3), Some(4)), 7) == [];
    assert ScanEdits(ex, 8, true) == [];
    assert Queued(ex, Scan(Some(6), Some(3), Some(4)), 8) == [];
    assert ScanEdits(ex, 9, true) == [];
    assert ex[3].point == P(3) && ex[8].point == P(8);
    assert Queued(ex, Scan(Some(6), Some(3), Some(8)), 9) == [Edit(3, 0, [Event(Enter, HeadingAtxText, P(3))]), Edit(4, 4, []), Edit(9, 0, [Event(Exit, HeadingAtxText, P(8))])];
    assert nothing + [Edit(3, 0, [Event(Enter, HeadingAtxText, P(3))]), Edit(4, 4, []), Edit(9, 0, [Event(Exit, HeadingAtxText, P(8))])] == [Edit(3, 0, [Event(Enter, HeadingAtxText, P(3))]), Edit(4, 4, []), Edit(9, 0, [Event(Exit, HeadingAtxText, P(8))])];
  }

  /** The example list keeps each Data Enter right before its Exit. */
  lemma BareHeadingThenParagraphIsLeaf()
    ensures DataIsLeaf(BareHeadingThenParagraph())
  {
    var ex := BareHeadingThenParagraph();
    forall k | 0 <= k < |ex| && IsDataExit(ex[k])
      ensures k > 0 && IsDataEnter(ex[k - 1])
    {
      assert k == 4 || k == 8;
    }
    forall k | 0 <= k < |ex| && IsDataEnter(ex[k])
      ensures k + 1 < |ex| && IsDataExit(ex[k + 1])
    {
      assert k == 3 || k == 7;
    }
  }

  /** On that list the as-written scan wraps from the paragraph's Data to the
      second heading's Data, so its removal covers the paragraph's exit and the
      second heading's enter; `WrapInsideHeading` rules this out for the
      corrected scan that `Resolve` performs. */
  lemma AsWrittenWrapsAcrossHeadings()
    ensures var ex := BareHeadingThenParagraph();
      && DataIsLeaf(ex)
      && ScanEdits(ex, |ex|, true) == [Edit(3, 0, [Event(Enter, HeadingAtxText, P(3))]), Edit(4, 4, []), Edit(9, 0, [Event(Exit, HeadingAtxText, P(8))])]
      && Covers(ScanEdits(ex, |ex|, true)[1], 5) && ex[5] == Event(Exit, Paragraph, P(5))
      && Covers(ScanEdits(ex, |ex|, true)[1], 6) && ex[6] == Event(Enter, HeadingAtx, P(6))
  {
    BareHeadingThenParagraphIsLeaf();
    AsWrittenEdits();
  }
}
