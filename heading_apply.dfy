// What the heading resolver's edits do to the whole event list once the edit
// map applies them: every heading with Data gets its text wrapped, and the
// wraps of different headings do not disturb each other.

module HeadingApply {
  import opened Events
  import opened EditMap
  import opened HeadingResolve

  /** The heading exit that closes the heading `k` belongs to: the first
      heading exit at or after `k`. */
  function Owner(events: seq<Event>, k: nat): Option<nat>
  {
    if k <= |events| then First(events, HeadingExit, k, |events|) else None
  }

  /** The heading closing at `x` has Data to wrap. */
  predicate HasWrap(events: seq<Event>, x: nat)
    requires x < |events|
  {
    DataStart(events, x).Some? && DataEnd(events, x).Some? && DataStart(events, x).value < DataEnd(events, x).value
  }

  /** When index `i` is the first Data Enter of a heading with Data, the
      last Data Exit of that heading. */
  function WrapStart(events: seq<Event>, i: nat): (r: Option<nat>)
    ensures r.Some? ==> i < r.value < |events|
  {
    match Owner(events, i)
    case None => None
    case Some(x) =>
      if HasWrap(events, x) && DataStart(events, x) == Some(i) then DataEnd(events, x) else None
  }

  /** Every entry of a table of wrap starts ends after its own index and
      inside the list. */
  predicate Ordered(starts: seq<Option<nat>>)
  {
    forall k :: 0 <= k < |starts| && starts[k].Some? ==> k < starts[k].value < |starts|
  }

  /** The wrap starts of the whole list, index by index. */
  function Starts(events: seq<Event>): (r: seq<Option<nat>>)
    ensures |r| == |events| && Ordered(r)
  {
    seq(|events|, (k: int) requires 0 <= k => WrapStart(events, k))
  }

  /** The event list from index `i` on with the text of every heading
      wrapped: where `starts` has a wrap from `i` to `d`, the first Data
      Enter and the last Data Exit stay, in a HeadingAtxText span at their
      points, and the events between them go. */
  function Wrapped(events: seq<Event>, starts: seq<Option<nat>>, i: nat): seq<Event>
    requires i <= |events| == |starts| && Ordered(starts)
    decreases |events| - i
  {
    if i == |events| then []
    else match starts[i]
      case Some(d) =>
        [Event(Enter, HeadingAtxText, events[i].point), events[i], events[d], Event(Exit, HeadingAtxText, events[d].point)]
        + Wrapped(events, starts, d + 1)
      case None => [events[i]] + Wrapped(events, starts, i + 1)
  }

  /** Inserts of a concatenation, up to the first `n` of the second part. */
  lemma {:induction false} InsertsConcat(a: seq<Edit>, b: seq<Edit>, n: nat, k: nat)
    requires n <= |b|
    ensures InsertsUpTo(a + b, |a| + n, k) == InsertsAt(a, k) + InsertsUpTo(b, n, k)
  {
    if n == 0 {
      InsertsPrefix(a, b, |a|, k);
    } else {
      InsertsConcat(a, b, n - 1, k);
      assert (a + b)[|a| + n - 1] == b[n - 1];
    }
  }

  /** Inserts of the first `n` edits only depend on those edits. */
  lemma {:induction false} InsertsPrefix(a: seq<Edit>, b: seq<Edit>, n: nat, k: nat)
    requires n <= |a|
    ensures InsertsUpTo(a + b, n, k) == InsertsUpTo(a, n, k)
  {
    if n > 0 {
      InsertsPrefix(a, b, n - 1, k);
      assert (a + b)[n - 1] == a[n - 1];
    }
  }

  /** Removals of a concatenation, up to the first `n` of the second part. */
  lemma {:induction false} RemovedConcat(a: seq<Edit>, b: seq<Edit>, n: nat, k: nat)
    requires n <= |b|
    ensures RemovedUpTo(a + b, |a| + n, k) <==> Removed(a, k) || RemovedUpTo(b, n, k)
  {
    if n == 0 {
      RemovedPrefix(a, b, |a|, k);
    } else {
      RemovedConcat(a, b, n - 1, k);
      assert (a + b)[|a| + n - 1] == b[n - 1];
    }
  }

  /** Removals by the first `n` edits only depend on those edits. */
  lemma {:induction false} RemovedPrefix(a: seq<Edit>, b: seq<Edit>, n: nat, k: nat)
    requires n <= |a|
    ensures RemovedUpTo(a + b, n, k) <==> RemovedUpTo(a, n, k)
  {
    if n > 0 {
      RemovedPrefix(a, b, n - 1, k);
      assert (a + b)[n - 1] == a[n - 1];
    }
  }

  /** Edits queued one after the other act at an index as their inserts in
      order and the union of their removals. */
  lemma EditsConcat(a: seq<Edit>, b: seq<Edit>, k: nat)
    ensures InsertsAt(a + b, k) == InsertsAt(a, k) + InsertsAt(b, k)
    ensures Removed(a + b, k) <==> Removed(a, k) || Removed(b, k)
  {
    InsertsConcat(a, b, |b|, k);
    RemovedConcat(a, b, |b|, k);
  }

  /** What one heading's wrap does at index `k`. */
  lemma WrapTouch(events: seq<Event>, x: nat, k: nat)
    requires x < |events|
    ensures !HasWrap(events, x) ==> InsertsAt(WrapAt(events, x), k) == [] && !Removed(WrapAt(events, x), k)
    ensures HasWrap(events, x) ==> Touch(events, WrapAt(events, x), DataStart(events, x).value, DataEnd(events, x).value, k)
  {
    if HasWrap(events, x) {
      var s, d := DataStart(events, x).value, DataEnd(events, x).value;
      var a, b := Event(Enter, HeadingAtxText, events[s].point), Event(Exit, HeadingAtxText, events[d].point);
      WrapInserts(s, d, a, b, k);
      WrapRemoved(s, d, a, b, k);
      assert WrapAt(events, x) == WrapEdits(s, d, a, b);
      if k == s {
        assert InsertsAt(WrapAt(events, x), k) == [a] + [];
      } else if k == d + 1 {
        assert InsertsAt(WrapAt(events, x), k) == [] + [b];
      } else {
        assert InsertsAt(WrapAt(events, x), k) == [] + [];
      }
    } else {
      assert InsertsUpTo([], 0, k) == [];
    }
  }

  /** What the wrap from `s` to `d` does at index `k`: the HeadingAtxText
      Enter before `s`, the Exit before `d + 1`, and `s + 1 .. d - 1` dropped. */
  predicate Touch(events: seq<Event>, edits: seq<Edit>, s: nat, d: nat, k: nat)
    requires s < |events| && d < |events|
  {
    && (k == s ==> InsertsAt(edits, k) == [Event(Enter, HeadingAtxText, events[s].point)])
    && (k == d + 1 ==> InsertsAt(edits, k) == [Event(Exit, HeadingAtxText, events[d].point)])
    && (k != s && k != d + 1 ==> InsertsAt(edits, k) == [])
    && (Removed(edits, k) <==> s + 1 <= k < d)
  }

  /** No heading exits lie between a heading's base and its exit. */
  lemma NoExitBefore(events: seq<Event>, x: nat, j: nat)
    requires x < |events| && Base(events, x) <= j < x
    ensures !Is(HeadingExit, events[j])
  {
    if Is(HeadingExit, events[j]) {
      LastGreatest(events, HeadingExit, 0, x, j);
    }
  }

  /** Every index from a heading's base up to its exit belongs to that heading. */
  lemma OwnerOf(events: seq<Event>, x: nat, k: nat)
    requires x < |events| && Is(HeadingExit, events[x]) && Base(events, x) <= k <= x
    ensures Owner(events, k) == Some(x)
  {
    FirstLeast(events, HeadingExit, k, |events|, x);
    var y := First(events, HeadingExit, k, |events|).value;
    if y < x {
      NoExitBefore(events, x, y);
    }
  }

  /** An index belongs to a heading only from that heading's base on. */
  lemma OwnedAfterBase(events: seq<Event>, k: nat, x: nat)
    requires Owner(events, k) == Some(x)
    ensures x < |events| && Is(HeadingExit, events[x]) && Base(events, x) <= k <= x
  {
    match Last(events, HeadingExit, 0, x)
    case None =>
    case Some(y) =>
      if k <= y {
        FirstLeast(events, HeadingExit, k, |events|, y);
      }
  }

  /** A wrap lies after its heading's base and ends at its exit at the latest. */
  lemma WrapBounds(events: seq<Event>, x: nat)
    requires x < |events| && Is(HeadingExit, events[x]) && HasWrap(events, x)
    ensures DataStart(events, x).Some? && DataEnd(events, x).Some?
    ensures Base(events, x) < DataStart(events, x).value < DataEnd(events, x).value < x
  {
    WrapInsideHeading(events, x);
  }

  /** The heading index `k` belongs to closes before `n`. */
  predicate Closed(events: seq<Event>, n: nat, k: nat)
  {
    Owner(events, k).Some? && Owner(events, k).value < n
  }

  /** The wrap of the heading index `k` belongs to. */
  function OwnWrap(events: seq<Event>, k: nat): seq<Edit>
  {
    match Owner(events, k)
    case Some(x) => if x < |events| then WrapAt(events, x) else []
    case None => []
  }

  /** What the edits queued over `events[..n]` should insert at `k`: those
      of the heading `k` belongs to, once that heading has closed. */
  function OwnInserts(events: seq<Event>, n: nat, k: nat): seq<Event>
  {
    if Closed(events, n, k) then InsertsAt(OwnWrap(events, k), k) else []
  }

  /** Whether the edits queued over `events[..n]` should remove `k`. */
  predicate OwnRemoved(events: seq<Event>, n: nat, k: nat)
  {
    Closed(events, n, k) && Removed(OwnWrap(events, k), k)
  }

  /** The wrap of the heading closing at `m` leaves alone every index that
      belongs to another heading. */
  lemma WrapAway(events: seq<Event>, m: nat, k: nat)
    requires m < |events| && Is(HeadingExit, events[m]) && Owner(events, k) != Some(m)
    ensures InsertsAt(WrapAt(events, m), k) == [] && !Removed(WrapAt(events, m), k)
  {
    WrapTouch(events, m, k);
    if HasWrap(events, m) {
      WrapBounds(events, m);
      if Base(events, m) <= k <= m {
        OwnerOf(events, m, k);
      }
    }
  }

  /** The edits the resolver queues at event `m`. */
  function StepEdits(events: seq<Event>, m: nat): seq<Edit>
    requires m < |events|
  {
    if Is(HeadingExit, events[m]) then WrapAt(events, m) else []
  }

  /** The resolver's edits over one more event. */
  lemma HeadingEditsStep(events: seq<Event>, m: nat)
    requires m < |events|
    ensures HeadingEdits(events, m + 1) == HeadingEdits(events, m) + StepEdits(events, m)
  {
  }

  /** The expected edits at `k` grow by the heading closing at `m`, if any. */
  lemma OwnStep(events: seq<Event>, m: nat, k: nat)
    requires m < |events|
    ensures OwnInserts(events, m + 1, k) == OwnInserts(events, m, k) + InsertsAt(StepEdits(events, m), k)
    ensures OwnRemoved(events, m + 1, k) <==> OwnRemoved(events, m, k) || Removed(StepEdits(events, m), k)
  {
    if Owner(events, k) == Some(m) {
      OwnStepHere(events, m, k);
    } else {
      OwnStepElsewhere(events, m, k);
    }
  }

  /** At an index of the heading closing at `m`, that heading's wrap is what comes in. */
  lemma OwnStepHere(events: seq<Event>, m: nat, k: nat)
    requires m < |events| && Owner(events, k) == Some(m)
    ensures OwnInserts(events, m, k) == [] && !OwnRemoved(events, m, k)
    ensures OwnInserts(events, m + 1, k) == InsertsAt(StepEdits(events, m), k)
    ensures OwnRemoved(events, m + 1, k) <==> Removed(StepEdits(events, m), k)
  {
    OwnedAfterBase(events, k, m);
    assert StepEdits(events, m) == WrapAt(events, m) == OwnWrap(events, k);
    assert !Closed(events, m, k) && Closed(events, m + 1, k);
  }

  /** At any other index, the edits queued at `m` add nothing. */
  lemma OwnStepElsewhere(events: seq<Event>, m: nat, k: nat)
    requires m < |events| && Owner(events, k) != Some(m)
    ensures OwnInserts(events, m + 1, k) == OwnInserts(events, m, k)
    ensures OwnRemoved(events, m + 1, k) <==> OwnRemoved(events, m, k)
    ensures InsertsAt(StepEdits(events, m), k) == [] && !Removed(StepEdits(events, m), k)
  {
    OwnSame(events, m, k);
    if Is(HeadingExit, events[m]) {
      WrapAway(events, m, k);
    } else {
      NothingQueued(events, m, k);
    }
  }

  /** The expected edits at `k` change with `n` only at `k`'s own heading. */
  lemma OwnSame(events: seq<Event>, m: nat, k: nat)
    requires Owner(events, k) != Some(m)
    ensures OwnInserts(events, m + 1, k) == OwnInserts(events, m, k)
    ensures OwnRemoved(events, m + 1, k) <==> OwnRemoved(events, m, k)
  {
    assert Closed(events, m + 1, k) == Closed(events, m, k);
  }

  /** An event that is no heading exit queues nothing. */
  lemma NothingQueued(events: seq<Event>, m: nat, k: nat)
    requires m < |events| && !Is(HeadingExit, events[m])
    ensures InsertsAt(StepEdits(events, m), k) == [] && !Removed(StepEdits(events, m), k)
  {
    assert StepEdits(events, m) == [];
    assert InsertsUpTo([], 0, k) == [];
  }

  /** At index `k`, the edits queued over `events[..n]` are those of the
      heading `k` belongs to, when that heading closes before `n`. */
  lemma {:induction false} EditsLocal(events: seq<Event>, n: nat, k: nat)
    requires n <= |events|
    ensures InsertsAt(HeadingEdits(events, n), k) == OwnInserts(events, n, k)
    ensures Removed(HeadingEdits(events, n), k) <==> OwnRemoved(events, n, k)
  {
    if n == 0 {
      assert InsertsUpTo([], 0, k) == [];
    } else {
      var m := n - 1;
      EditsLocal(events, m, k);
      HeadingEditsStep(events, m);
      EditsConcat(HeadingEdits(events, m), StepEdits(events, m), k);
      OwnStep(events, m, k);
      assert InsertsAt(HeadingEdits(events, m), k) + InsertsAt(StepEdits(events, m), k) == OwnInserts(events, n, k);
    }
  }

  /** Edits that act at `k` as the heading resolver's edits do. */
  predicate Matches(events: seq<Event>, all: seq<Edit>, k: nat)
  {
    InsertsAt(all, k) == OwnInserts(events, |events|, k) && (Removed(all, k) <==> OwnRemoved(events, |events|, k))
  }

  /** The heading resolver's edits act at every index as described. */
  lemma AllMatch(events: seq<Event>)
    ensures forall k: nat :: Matches(events, HeadingEdits(events, |events|), k)
  {
    forall k: nat ensures Matches(events, HeadingEdits(events, |events|), k) {
      EditsLocal(events, |events|, k);
    }
  }

  /** Such edits at an index inside a heading with Data. */
  lemma AllAt(events: seq<Event>, all: seq<Edit>, x: nat, s: nat, d: nat, k: nat)
    requires Matches(events, all, k)
    requires x < |events| && Is(HeadingExit, events[x]) && HasWrap(events, x) && Base(events, x) <= k <= x
    requires DataStart(events, x) == Some(s) && DataEnd(events, x) == Some(d)
    ensures s < |events| && d < |events| && Touch(events, all, s, d, k)
  {
    OwnerOf(events, x, k);
    WrapTouch(events, x, k);
  }

  /** Such edits leave alone an index of a heading without Data. */
  lemma AllAtBare(events: seq<Event>, all: seq<Edit>, x: nat, k: nat)
    requires Matches(events, all, k)
    requires x < |events| && Is(HeadingExit, events[x]) && !HasWrap(events, x) && Base(events, x) <= k <= x
    ensures Untouched(all, k)
  {
    OwnerOf(events, x, k);
    WrapTouch(events, x, k);
  }

  /** Index `i` lies outside every wrap's inner part: it is not after a
      wrap's start and at most one past its end. */
  predicate Clean(events: seq<Event>, i: nat)
  {
    match Owner(events, i)
    case None => true
    case Some(x) =>
      x < |events| && (HasWrap(events, x) ==> !(DataStart(events, x).value < i <= DataEnd(events, x).value + 1))
  }

  /** The index after a heading's exit is clean. */
  lemma CleanAfterExit(events: seq<Event>, x: nat)
    requires x < |events| && Is(HeadingExit, events[x])
    ensures Clean(events, x + 1)
  {
    match Owner(events, x + 1)
    case None =>
    case Some(y) =>
      OwnedAfterBase(events, x + 1, y);
      if HasWrap(events, y) {
        WrapBounds(events, y);
        LastGreatest(events, HeadingExit, 0, y, x);
      }
  }

  /** A clean index that does not start a wrap is untouched, and the next
      index is clean. */
  lemma CleanStep(events: seq<Event>, all: seq<Edit>, i: nat)
    requires i < |events| && Clean(events, i) && WrapStart(events, i).None? && Matches(events, all, i)
    ensures Untouched(all, i)
    ensures Clean(events, i + 1)
  {
    match Owner(events, i)
    case None =>
      assert Matches(events, all, i);
      assert Owner(events, i + 1).None? by {
        if Owner(events, i + 1).Some? {
          FirstLeast(events, HeadingExit, i, |events|, Owner(events, i + 1).value);
        }
      }
    case Some(x) =>
      OwnedAfterBase(events, i, x);
      if HasWrap(events, x) {
        AllAt(events, all, x, DataStart(events, x).value, DataEnd(events, x).value, i);
      } else {
        AllAtBare(events, all, x, i);
      }
      if i == x {
        CleanAfterExit(events, x);
      } else {
        OwnerOf(events, x, i + 1);
      }
  }

  /** Where the wrap starting at a clean index `i` ends. */
  lemma WrapIndices(events: seq<Event>, i: nat, d: nat) returns (x: nat)
    requires i < |events| && WrapStart(events, i) == Some(d)
    ensures WrapOf(events, x, i, d)
  {
    x := Owner(events, i).value;
    OwnedAfterBase(events, i, x);
    WrapBounds(events, x);
  }

  /** After a wrap, the index past the event that follows it is clean, and
      that event starts no wrap. */
  lemma AfterWrap(events: seq<Event>, x: nat, i: nat, d: nat)
    requires WrapOf(events, x, i, d)
    ensures Clean(events, d + 2) && WrapStart(events, d + 1).None?
  {
    OwnerOf(events, x, d + 1);
    if d + 2 <= x {
      OwnerOf(events, x, d + 2);
    } else {
      CleanAfterExit(events, x);
    }
  }

  /** Edits that insert `a` at `s`, drop everything strictly between `s`
      and `d`, and insert `b` at `d + 1` rebuild that stretch as the four
      events followed by the event at `d + 1`. */
  lemma {:induction false} RebuildSpan(events: seq<Event>, all: seq<Edit>, s: nat, d: nat, a: Event, b: Event)
    requires s < d && d + 1 < |events|
    requires InsertsAt(all, s) == [a] && !Removed(all, s)
    requires forall k :: s + 1 <= k < d ==> Dropped(all, k)
    requires InsertsAt(all, d) == [] && !Removed(all, d)
    requires InsertsAt(all, d + 1) == [b] && !Removed(all, d + 1)
    ensures Rebuild(events, all, s) == [a, events[s], events[d], b] + ([events[d + 1]] + Rebuild(events, all, d + 2))
  {
    RebuildKept(events, all, s, [a]);
    RebuildRemoved(events, all, s + 1, d);
    RebuildKept(events, all, d, []);
    RebuildKept(events, all, d + 1, [b]);
    WrapJoin([], a, events[s], events[d], b, [events[d + 1]] + Rebuild(events, all, d + 2));
  }

  /** The facts about one wrap that the lemmas below share. */
  predicate WrapOf(events: seq<Event>, x: nat, i: nat, d: nat)
  {
    && x < |events| && Is(HeadingExit, events[x]) && HasWrap(events, x)
    && DataStart(events, x) == Some(i) && DataEnd(events, x) == Some(d)
    && Base(events, x) < i < d < x
  }

  /** Such edits put the HeadingAtxText Enter before a wrap's start. */
  lemma SpanStart(events: seq<Event>, all: seq<Edit>, i: nat, d: nat, x: nat)
    requires WrapOf(events, x, i, d) && Matches(events, all, i)
    ensures InsertsAt(all, i) == [Event(Enter, HeadingAtxText, events[i].point)] && !Removed(all, i)
  {
    AllAt(events, all, x, i, d, i);
  }

  /** Such edits drop a wrap's interior. */
  lemma SpanInterior(events: seq<Event>, all: seq<Edit>, i: nat, d: nat, x: nat, k: nat)
    requires WrapOf(events, x, i, d) && Matches(events, all, k) && i + 1 <= k < d
    ensures Dropped(all, k)
  {
    AllAt(events, all, x, i, d, k);
  }

  /** Such edits keep a wrap's end. */
  lemma SpanEnd(events: seq<Event>, all: seq<Edit>, i: nat, d: nat, x: nat)
    requires WrapOf(events, x, i, d) && Matches(events, all, d)
    ensures InsertsAt(all, d) == [] && !Removed(all, d)
  {
    AllAt(events, all, x, i, d, d);
  }

  /** Such edits put the HeadingAtxText Exit right after a wrap's end, at `k`. */
  lemma SpanAfter(events: seq<Event>, all: seq<Edit>, i: nat, d: nat, x: nat, k: nat)
    requires WrapOf(events, x, i, d) && k == d + 1 && Matches(events, all, k)
    ensures InsertsAt(all, k) == [Event(Exit, HeadingAtxText, events[d].point)] && !Removed(all, k)
  {
    AllAt(events, all, x, i, d, k);
  }

  /** The same for every index of the interior at once. */
  lemma SpanDropped(events: seq<Event>, all: seq<Edit>, i: nat, d: nat, x: nat)
    requires WrapOf(events, x, i, d)
    requires forall k: nat :: Matches(events, all, k)
    ensures forall k :: i + 1 <= k < d ==> Dropped(all, k)
  {
    forall k | i + 1 <= k < d ensures Dropped(all, k) {
      SpanInterior(events, all, i, d, x, k);
    }
  }

  /** From a clean index on, the rebuilt list is the wrapped list. */
  lemma {:induction false} RebuildWrapped(events: seq<Event>, all: seq<Edit>, i: nat)
    requires i <= |events| && Clean(events, i)
    requires forall k: nat :: Matches(events, all, k)
    ensures Rebuild(events, all, i) == Wrapped(events, Starts(events), i)
    decreases |events| - i, 1
  {
    if i == |events| {
      assert Matches(events, all, i);
      assert Owner(events, i).None?;
    } else if WrapStart(events, i).None? {
      RebuildPlain(events, all, i);
    } else {
      RebuildWrapStart(events, all, i, WrapStart(events, i).value);
    }
  }

  /** The step of `RebuildWrapped` at an index that starts no wrap. */
  lemma {:induction false} RebuildPlain(events: seq<Event>, all: seq<Edit>, i: nat)
    requires i < |events| && Clean(events, i) && WrapStart(events, i).None?
    requires forall k: nat :: Matches(events, all, k)
    ensures Rebuild(events, all, i) == Wrapped(events, Starts(events), i)
    decreases |events| - i, 0
  {
    CleanStep(events, all, i);
    RebuildWrapped(events, all, i + 1);
    RebuildKept(events, all, i, []);
    StartsAt(events, i);
    WrappedNone(events, Starts(events), i);
  }

  /** The step of `RebuildWrapped` at the start of a wrap. */
  lemma {:induction false} RebuildWrapStart(events: seq<Event>, all: seq<Edit>, i: nat, d: nat)
    requires i < |events| && Clean(events, i) && WrapStart(events, i) == Some(d)
    requires forall k: nat :: Matches(events, all, k)
    ensures Rebuild(events, all, i) == Wrapped(events, Starts(events), i)
    decreases |events| - i, 0
  {
    var x := WrapIndices(events, i, d);
    AfterWrap(events, x, i, d);
    SpanFacts(events, all, i, d, x);
    RebuildAtWrap(events, all, i, d);
    StartsAt(events, i);
    StartsAt(events, d + 1);
    WrappedAtWrap(events, Starts(events), i, d);
    RebuildWrapped(events, all, d + 2);
  }

  /** How the edits treat the stretch of one wrap, from its start `s` to
      the event after its end `d`. */
  predicate SpanShape(events: seq<Event>, all: seq<Edit>, s: nat, d: nat)
  {
    && s < d && d + 1 < |events|
    && InsertsAt(all, s) == [Event(Enter, HeadingAtxText, events[s].point)] && !Removed(all, s)
    && (forall k :: s + 1 <= k < d ==> Dropped(all, k))
    && InsertsAt(all, d) == [] && !Removed(all, d)
    && InsertsAt(all, d + 1) == [Event(Exit, HeadingAtxText, events[d].point)] && !Removed(all, d + 1)
  }

  /** The edits of every heading treat each wrap that way. */
  lemma SpanFacts(events: seq<Event>, all: seq<Edit>, i: nat, d: nat, x: nat)
    requires WrapOf(events, x, i, d)
    requires forall k: nat :: Matches(events, all, k)
    ensures SpanShape(events, all, i, d)
  {
    SpanStart(events, all, i, d, x);
    SpanDropped(events, all, i, d, x);
    SpanEnd(events, all, i, d, x);
    SpanAfter(events, all, i, d, x, d + 1);
  }

  /** The rebuilt list at the start of a wrap. */
  lemma RebuildAtWrap(events: seq<Event>, all: seq<Edit>, i: nat, d: nat)
    requires SpanShape(events, all, i, d)
    ensures Rebuild(events, all, i)
            == [Event(Enter, HeadingAtxText, events[i].point), events[i], events[d], Event(Exit, HeadingAtxText, events[d].point)]
               + ([events[d + 1]] + Rebuild(events, all, d + 2))
  {
    RebuildSpan(events, all, i, d, Event(Enter, HeadingAtxText, events[i].point), Event(Exit, HeadingAtxText, events[d].point));
  }

  /** The wrapped list at the start of a wrap followed by an index that starts none. */
  lemma WrappedAtWrap(events: seq<Event>, starts: seq<Option<nat>>, i: nat, d: nat)
    requires i < |events| == |starts| && Ordered(starts) && starts[i] == Some(d)
    requires d + 1 < |events| && starts[d + 1].None?
    ensures Wrapped(events, starts, i)
            == [Event(Enter, HeadingAtxText, events[i].point), events[i], events[d], Event(Exit, HeadingAtxText, events[d].point)]
               + ([events[d + 1]] + Wrapped(events, starts, d + 2))
  {
    WrappedSome(events, starts, i, d);
    WrappedNone(events, starts, d + 1);
  }

  /** The table holds `WrapStart` at every index. */
  lemma StartsAt(events: seq<Event>, i: nat)
    requires i < |events|
    ensures Starts(events)[i] == WrapStart(events, i)
  {
  }

  /** `Wrapped` at an index that starts no wrap. */
  lemma WrappedNone(events: seq<Event>, starts: seq<Option<nat>>, i: nat)
    requires i < |events| == |starts| && Ordered(starts) && starts[i].None?
    ensures Wrapped(events, starts, i) == [events[i]] + Wrapped(events, starts, i + 1)
  {
  }

  /** `Wrapped` at the start of a wrap. */
  lemma WrappedSome(events: seq<Event>, starts: seq<Option<nat>>, i: nat, d: nat)
    requires i < |events| == |starts| && Ordered(starts) && starts[i] == Some(d)
    ensures d < |events|
    ensures Wrapped(events, starts, i)
            == [Event(Enter, HeadingAtxText, events[i].point), events[i], events[d], Event(Exit, HeadingAtxText, events[d].point)]
               + Wrapped(events, starts, d + 1)
  {
  }

  /** Applying every edit the heading resolver queues wraps the text of every
      heading at once. */
  lemma AppliedWrapped(events: seq<Event>)
    ensures Applied(events, HeadingEdits(events, |events|)) == Wrapped(events, Starts(events), 0)
  {
    assert Clean(events, 0) by {
      match Owner(events, 0)
      case None =>
      case Some(x) =>
        OwnedAfterBase(events, 0, x);
        if HasWrap(events, x) {
          WrapBounds(events, x);
        }
    }
    AllMatch(events);
    RebuildWrapped(events, HeadingEdits(events, |events|), 0);
  }

  /** The resolver followed by the edit map: the events with every heading's
      text wrapped. */
  method ResolveAndApply(events: seq<Event>) returns (result: seq<Event>)
    requires DataIsLeaf(events)
    ensures result == Wrapped(events, Starts(events), 0)
  {
    var queue := new EditMap();
    Resolve(events, queue);
    assert queue.edits == HeadingEdits(events, |events|);
    result := queue.Consume(events);
    AppliedWrapped(events);
  }
}
