// The deferred edit map: resolvers queue (anchor, remove, inserts) edits that
// refer to indices of the pre-edit event list, and one sweep applies them all.

module EditMap {
  import opened Events

  /** One queued edit: at `anchor`, an index into the pre-edit list, drop
      `remove` events and put `inserts` before whatever follows. */
  datatype Edit = Edit(anchor: nat, remove: nat, inserts: seq<Event>)

  /** The events the first `n` edits insert at index `i`, in the order they were added. */
  function InsertsUpTo(edits: seq<Edit>, n: nat, i: nat): seq<Event>
    requires n <= |edits|
  {
    if n == 0 then []
    else InsertsUpTo(edits, n - 1, i) + (if edits[n - 1].anchor == i then edits[n - 1].inserts else [])
  }

  /** The events inserted at index `i`, in the order their edits were added. */
  function InsertsAt(edits: seq<Edit>, i: nat): seq<Event>
  {
    InsertsUpTo(edits, |edits|, i)
  }

  /** Whether one of the first `n` edits removes the pre-edit event at index `i`. */
  predicate RemovedUpTo(edits: seq<Edit>, n: nat, i: nat)
    requires n <= |edits|
  {
    n > 0 && (RemovedUpTo(edits, n - 1, i) || Covers(edits[n - 1], i))
  }

  /** Whether the pre-edit event at index `i` lies in the range some edit removes. */
  predicate Removed(edits: seq<Edit>, i: nat)
  {
    RemovedUpTo(edits, |edits|, i)
  }

  predicate Covers(edit: Edit, i: nat)
  {
    edit.anchor <= i < edit.anchor + edit.remove
  }

  /** The rebuilt list, from index `i` of the pre-edit list onwards: at every
      index first the inserted events, then the original event unless it is
      removed; the inserts anchored at the very end come last. */
  function Rebuild(events: seq<Event>, edits: seq<Edit>, i: nat): seq<Event>
    requires i <= |events|
    decreases |events| - i
  {
    InsertsAt(edits, i)
    + (if i == |events| then []
       else (if Removed(edits, i) then [] else [events[i]]) + Rebuild(events, edits, i + 1))
  }

  /** The list after all `edits` are applied to `events` at once. */
  function Applied(events: seq<Event>, edits: seq<Edit>): seq<Event>
  {
    Rebuild(events, edits, 0)
  }

  /** Index `i` neither receives inserts nor loses its event. */
  predicate Untouched(edits: seq<Edit>, i: nat)
  {
    InsertsAt(edits, i) == [] && !Removed(edits, i)
  }

  /** The queue of pending edits of one tokenizer. */
  class EditMap {
    var edits: seq<Edit>

    constructor ()
      ensures edits == []
    {
      edits := [];
    }

    /** Queues an edit; edits at the same anchor apply in the order they were added. */
    method Add(anchor: nat, remove: nat, inserts: seq<Event>)
      modifies this
      ensures edits == old(edits) + [Edit(anchor, remove, inserts)]
    {
      edits := edits + [Edit(anchor, remove, inserts)];
    }

    /** Applies every queued edit in one ascending pass and empties the queue. */
    method Consume(events: seq<Event>) returns (result: seq<Event>)
      modifies this
      ensures result == Applied(events, old(edits))
      ensures edits == []
    {
      result := Sweep(events, edits);
      edits := [];
    }
  }

  /** The single ascending pass over the pre-edit list that applies `edits`. */
  method Sweep(events: seq<Event>, edits: seq<Edit>) returns (result: seq<Event>)
    ensures result == Applied(events, edits)
  {
    result := [];
    var i := 0;
    while i < |events|
      invariant 0 <= i <= |events|
      invariant result + Rebuild(events, edits, i) == Applied(events, edits)
    {
      var ins, removed := EditsAt(edits, i);
      var step := ins + (if removed then [] else [events[i]]);
      assert result + step + Rebuild(events, edits, i + 1) == result + Rebuild(events, edits, i) by {
        RebuildStep(events, edits, i);
        Assoc(result, step, Rebuild(events, edits, i + 1));
        Assoc(ins, if removed then [] else [events[i]], Rebuild(events, edits, i + 1));
      }
      result := result + step;
      i := i + 1;
    }
    var ins, _ := EditsAt(edits, |events|);
    assert Rebuild(events, edits, |events|) == ins;
    result := result + ins;
  }

  /** One step of the rebuild at an index inside the list. */
  lemma RebuildStep(events: seq<Event>, edits: seq<Edit>, i: nat)
    requires i < |events|
    ensures Rebuild(events, edits, i)
            == InsertsAt(edits, i) + ((if Removed(edits, i) then [] else [events[i]]) + Rebuild(events, edits, i + 1))
  {
  }

  lemma Assoc(a: seq<Event>, b: seq<Event>, c: seq<Event>)
    ensures a + b + c == a + (b + c)
  {
  }

  lemma EditsSplice(a: seq<Edit>, b: seq<Edit>, c: seq<Edit>)
    ensures a + b + c == a + (b + c)
  {
  }

  /** What the edits do at index `i`: the events they insert there, in order,
      and whether one of them removes the event at `i`. */
  method EditsAt(edits: seq<Edit>, i: nat) returns (ins: seq<Event>, removed: bool)
    ensures ins == InsertsAt(edits, i)
    ensures removed == Removed(edits, i)
  {
    ins, removed := [], false;
    var k := 0;
    while k < |edits|
      invariant 0 <= k <= |edits|
      invariant ins == InsertsUpTo(edits, k, i)
      invariant removed == RemovedUpTo(edits, k, i)
    {
      if edits[k].anchor == i {
        ins := ins + edits[k].inserts;
      }
      if edits[k].anchor <= i < edits[k].anchor + edits[k].remove {
        removed := true;
      }
      k := k + 1;
    }
  }

  /** Consuming an empty map leaves the event list as it was. */
  lemma {:induction false} RebuildNoEdits(events: seq<Event>, i: nat)
    requires i <= |events|
    ensures Rebuild(events, [], i) == events[i..]
    decreases |events| - i
  {
    if i < |events| {
      RebuildNoEdits(events, i + 1);
      RebuildKept(events, [], i, []);
      assert events[i..] == [events[i]] + events[i + 1..];
    }
  }

  lemma AppliedNoEdits(events: seq<Event>)
    ensures Applied(events, []) == events
  {
    RebuildNoEdits(events, 0);
  }

  /** A stretch of untouched indices is copied as it is. */
  lemma {:induction false} RebuildUntouched(events: seq<Event>, edits: seq<Edit>, i: nat, j: nat)
    requires i <= j <= |events|
    requires forall k :: i <= k < j ==> Untouched(edits, k)
    ensures Rebuild(events, edits, i) == events[i..j] + Rebuild(events, edits, j)
    decreases j - i
  {
    if i < j {
      calc {
        Rebuild(events, edits, i);
      == { assert Untouched(edits, i); RebuildKept(events, edits, i, []); }
        [] + ([events[i]] + Rebuild(events, edits, i + 1));
      == { RebuildUntouched(events, edits, i + 1, j); }
        [] + ([events[i]] + (events[i + 1..j] + Rebuild(events, edits, j)));
      == { Assoc([events[i]], events[i + 1..j], Rebuild(events, edits, j)); }
        ([events[i]] + events[i + 1..j]) + Rebuild(events, edits, j);
      == { assert [events[i]] + events[i + 1..j] == events[i..j]; }
        events[i..j] + Rebuild(events, edits, j);
      }
    }
  }

  /** Index `i` loses its event and receives no inserts. */
  predicate Dropped(edits: seq<Edit>, i: nat)
  {
    InsertsAt(edits, i) == [] && Removed(edits, i)
  }

  /** A stretch of removed indices that receive no inserts disappears. */
  lemma {:induction false} RebuildRemoved(events: seq<Event>, edits: seq<Edit>, i: nat, j: nat)
    requires i <= j <= |events|
    requires forall k :: i <= k < j ==> Dropped(edits, k)
    ensures Rebuild(events, edits, i) == Rebuild(events, edits, j)
    decreases j - i
  {
    if i < j {
      calc {
        Rebuild(events, edits, i);
      == { assert Dropped(edits, i); RebuildDrops(events, edits, i); }
        Rebuild(events, edits, i + 1);
      == { RebuildRemoved(events, edits, i + 1, j); }
        Rebuild(events, edits, j);
      }
    }
  }

  lemma RebuildDrops(events: seq<Event>, edits: seq<Edit>, i: nat)
    requires i < |events|
    requires Dropped(edits, i)
    ensures Rebuild(events, edits, i) == Rebuild(events, edits, i + 1)
  {
  }

  /** When nothing from `i` to the end (end included) is touched, the tail is copied. */
  lemma RebuildTail(events: seq<Event>, edits: seq<Edit>, i: nat)
    requires i <= |events|
    requires forall k :: i <= k <= |events| ==> Untouched(edits, k)
    ensures Rebuild(events, edits, i) == events[i..]
  {
    calc {
      Rebuild(events, edits, i);
    == { RebuildUntouched(events, edits, i, |events|); }
      events[i..|events|] + Rebuild(events, edits, |events|);
    == { assert Untouched(edits, |events|); }
      events[i..] + [];
    }
  }

  /** A single pure insertion puts its events right before the anchored event. */
  lemma ApplyInsert(events: seq<Event>, a: nat, ins: seq<Event>)
    requires a <= |events|
    ensures Applied(events, [Edit(a, 0, ins)]) == events[..a] + ins + events[a..]
  {
    var edits := [Edit(a, 0, ins)];
    forall k | 0 <= k <= |events| && k != a
      ensures Untouched(edits, k)
    {
      assert InsertsUpTo(edits, 0, k) == [] && !RemovedUpTo(edits, 0, k);
      assert InsertsUpTo(edits, 1, k) == [];
    }
    assert InsertsUpTo(edits, 0, a) == [] && !RemovedUpTo(edits, 0, a);
    assert InsertsUpTo(edits, 1, a) == ins;
    RebuildUntouched(events, edits, 0, a);
    RebuildFrom(events, edits, a, ins);
  }

  /** Two insertions at the same anchor apply in the order they were added. */
  lemma SameAnchorInOrder(events: seq<Event>, a: nat, x: seq<Event>, y: seq<Event>)
    requires a <= |events|
    ensures Applied(events, [Edit(a, 0, x), Edit(a, 0, y)]) == events[..a] + (x + y) + events[a..]
  {
    var edits := [Edit(a, 0, x), Edit(a, 0, y)];
    assert edits[0].anchor == a && edits[0].remove == 0;
    assert edits[1].anchor == a && edits[1].remove == 0;
    forall k | 0 <= k <= |events| && k != a
      ensures Untouched(edits, k)
    {
      assert InsertsUpTo(edits, 0, k) == [] && !RemovedUpTo(edits, 0, k);
      assert InsertsUpTo(edits, 1, k) == [] && !RemovedUpTo(edits, 1, k);
      assert InsertsUpTo(edits, 2, k) == [];
    }
    assert InsertsUpTo(edits, 0, a) == [] && !RemovedUpTo(edits, 0, a);
    assert InsertsUpTo(edits, 1, a) == x && !RemovedUpTo(edits, 1, a);
    assert InsertsUpTo(edits, 2, a) == x + y;
    RebuildUntouched(events, edits, 0, a);
    RebuildFrom(events, edits, a, x + y);
  }

  function WrapEdits(s: nat, e: nat, a: Event, b: Event): seq<Edit>
    requires s < e
  {
    [Edit(s, 0, [a]), Edit(s + 1, e - s - 1, []), Edit(e + 1, 0, [b])]
  }

  lemma WrapInserts(s: nat, e: nat, a: Event, b: Event, k: nat)
    requires s < e
    ensures InsertsAt(WrapEdits(s, e, a, b), k)
            == (if k == s then [a] else []) + (if k == e + 1 then [b] else [])
  {
    var edits := WrapEdits(s, e, a, b);
    assert InsertsUpTo(edits, 1, k) == (if k == s then [a] else []);
    assert InsertsUpTo(edits, 2, k) == InsertsUpTo(edits, 1, k);
  }

  lemma WrapRemoved(s: nat, e: nat, a: Event, b: Event, k: nat)
    requires s < e
    ensures Removed(WrapEdits(s, e, a, b), k) <==> s + 1 <= k < e
  {
    var edits := WrapEdits(s, e, a, b);
    assert RemovedUpTo(edits, 1, k) == Covers(edits[0], k);
    assert RemovedUpTo(edits, 2, k) == (Covers(edits[0], k) || Covers(edits[1], k));
  }

  /** The three edits of the heading resolver: `A` before index `s`, removal of
      everything strictly between `s` and `e`, `B` after index `e`. The result
      keeps the events at `s` and `e` and puts them between `A` and `B`. */
  lemma ApplyWrap(events: seq<Event>, s: nat, e: nat, a: Event, b: Event)
    requires s < e < |events|
    ensures Applied(events, WrapEdits(s, e, a, b))
            == events[..s] + [a, events[s], events[e], b] + events[e + 1..]
  {
    var edits := WrapEdits(s, e, a, b);
    forall k: nat | k <= |events| ensures WrapShape(edits, s, e, a, b, k) {
      WrapInserts(s, e, a, b, k);
      WrapRemoved(s, e, a, b, k);
    }
    RebuildWrap(events, edits, s, e, a, b);
  }

  /** What a wrap does at index `k`, stated without the edits themselves. */
  predicate WrapShape(edits: seq<Edit>, s: nat, e: nat, a: Event, b: Event, k: nat)
  {
    && InsertsAt(edits, k) == (if k == s then [a] else []) + (if k == e + 1 then [b] else [])
    && (Removed(edits, k) <==> s + 1 <= k < e)
  }

  /** Any edits that act like a wrap rebuild to the wrapped list. */
  lemma RebuildWrap(events: seq<Event>, edits: seq<Edit>, s: nat, e: nat, a: Event, b: Event)
    requires s < e < |events|
    requires forall k: nat :: k <= |events| ==> WrapShape(edits, s, e, a, b, k)
    ensures Rebuild(events, edits, 0) == events[..s] + [a, events[s], events[e], b] + events[e + 1..]
  {
    forall k | 0 <= k < s ensures Untouched(edits, k) {
      assert WrapShape(edits, s, e, a, b, k);
    }
    RebuildUntouched(events, edits, 0, s);
    assert WrapShape(edits, s, e, a, b, s);
    RebuildKept(events, edits, s, [a]);
    forall k | s + 1 <= k < e ensures Dropped(edits, k) {
      assert WrapShape(edits, s, e, a, b, k);
    }
    RebuildRemoved(events, edits, s + 1, e);
    assert WrapShape(edits, s, e, a, b, e);
    RebuildKept(events, edits, e, []);
    assert WrapShape(edits, s, e, a, b, e + 1);
    forall k | e + 1 < k <= |events| ensures Untouched(edits, k) {
      assert WrapShape(edits, s, e, a, b, k);
    }
    RebuildFrom(events, edits, e + 1, [b]);
    WrapJoin(events[..s], a, events[s], events[e], b, events[e + 1..]);
  }

  lemma WrapJoin(pre: seq<Event>, a: Event, x: Event, y: Event, b: Event, post: seq<Event>)
    ensures pre + ([a] + ([x] + ([] + ([y] + ([b] + post))))) == pre + [a, x, y, b] + post
  {
    assert [a] + ([x] + ([] + ([y] + ([b] + post)))) == [a, x, y, b] + post;
  }

  /** An index that keeps its event and receives `ins`. */
  lemma RebuildKept(events: seq<Event>, edits: seq<Edit>, i: nat, ins: seq<Event>)
    requires i < |events|
    requires InsertsAt(edits, i) == ins && !Removed(edits, i)
    ensures Rebuild(events, edits, i) == ins + ([events[i]] + Rebuild(events, edits, i + 1))
  {
  }

  lemma WrapTail(events: seq<Event>, s: nat, e: nat, a: Event, b: Event)
    requires s < e < |events|
    ensures Rebuild(events, WrapEdits(s, e, a, b), e + 1) == [b] + events[e + 1..]
  {
    var edits := WrapEdits(s, e, a, b);
    WrapInserts(s, e, a, b, e + 1);
    WrapRemoved(s, e, a, b, e + 1);
    forall k | e + 1 < k <= |events| ensures Untouched(edits, k) {
      WrapInserts(s, e, a, b, k);
      WrapRemoved(s, e, a, b, k);
    }
    RebuildFrom(events, edits, e + 1, [b]);
  }

  /** From an index that only receives `ins` onwards, with nothing touched
      after it, the rebuild is `ins` followed by the rest of the list. */
  lemma RebuildFrom(events: seq<Event>, edits: seq<Edit>, i: nat, ins: seq<Event>)
    requires i <= |events|
    requires InsertsAt(edits, i) == ins
    requires i < |events| ==> !Removed(edits, i)
    requires forall k :: i < k <= |events| ==> Untouched(edits, k)
    ensures Rebuild(events, edits, i) == ins + events[i..]
  {
    if i < |events| {
      calc {
        Rebuild(events, edits, i);
      == { RebuildKept(events, edits, i, ins); }
        ins + ([events[i]] + Rebuild(events, edits, i + 1));
      == { RebuildTail(events, edits, i + 1); }
        ins + ([events[i]] + events[i + 1..]);
      == { assert [events[i]] + events[i + 1..] == events[i..]; }
        ins + events[i..];
      }
    } else {
      assert Rebuild(events, edits, i) == ins + [];
    }
  }
}
