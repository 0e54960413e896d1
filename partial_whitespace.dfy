// The whitespace resolver of the string and text content types: every Data
// token that touches a line ending (or the edge of the whole content) loses
// its leading and trailing spaces and tabs to separate SpaceOrTab tokens, and
// a trailing run of two or more spaces before a line ending becomes a
// HardBreakTrailing token (section 6.7 of CommonMark 0.30: hard line breaks).

module Whitespace {
  import opened Events
  import opened EditMap

  /** The fewest trailing spaces that make a hard break. */
  const HARD_BREAK_PREFIX_SIZE_MIN: nat := 2

  /** The number of spaces and tabs directly before `hi`, not going below `lo`. */
  function RunBack(chars: seq<char>, lo: nat, hi: nat): (r: nat)
    requires lo <= hi <= |chars|
    ensures r <= hi - lo
    decreases hi - lo
  {
    if hi == lo || !IsSpaceOrTab(chars[hi - 1]) then 0 else 1 + RunBack(chars, lo, hi - 1)
  }

  /** The number of spaces and tabs from `lo` on, not going past `hi`. */
  function RunFwd(chars: seq<char>, lo: nat, hi: nat): (r: nat)
    requires lo <= hi <= |chars|
    ensures r <= hi - lo
    decreases hi - lo
  {
    if hi == lo || !IsSpaceOrTab(chars[lo]) then 0 else 1 + RunFwd(chars, lo + 1, hi)
  }

  predicate NoTab(chars: seq<char>, a: nat, b: nat)
    requires a <= b <= |chars|
  {
    forall k :: a <= k < b ==> chars[k] != '\t'
  }

  predicate AllWhitespace(chars: seq<char>, a: nat, b: nat)
    requires a <= b <= |chars|
  {
    forall k :: a <= k < b ==> IsSpaceOrTab(chars[k])
  }

  /** The token a trailing run becomes: a hard break when it is made of
      spaces only, with no virtual space after it, hard breaks are wanted,
      another event follows and it is long enough; SpaceOrTab otherwise. */
  function TrailingToken(chars: seq<char>, lo: nat, hi: nat, vs: nat, hardBreak: bool, exitIndex: nat, len: nat): Token
    requires lo <= hi <= |chars|
  {
    var diff := RunBack(chars, lo, hi);
    if vs == 0 && NoTab(chars, hi - diff, hi) && hardBreak && exitIndex + 1 < len && diff >= HARD_BREAK_PREFIX_SIZE_MIN
    then HardBreakTrailing
    else SpaceOrTab
  }

  /** What trimming one Data token does: its new Enter and Exit events and
      the edits queued for the whitespace tokens split off it. */
  datatype Trimmed = Trimmed(enter: Event, exit: Event, edits: seq<Edit>)

  /** The characters of a Data token fit in the source, and the token lies on
      one line, so its length does not exceed the column of its end. */
  predicate DataSpan(enter: Event, exit: Event, chars: seq<char>)
  {
    enter.point.index <= exit.point.index <= |chars|
    && exit.point.index - enter.point.index <= exit.point.column
  }

  /** Where trimming the end of a Data token leaves it: its events, the
      edit queued, the end of the characters still to look at, and whether
      it was all whitespace (so that trimming stops). */
  datatype Stage = Stage(enter: Event, exit: Event, edits: seq<Edit>, hi: nat, done: bool)

  /** Trimming the end of the Data token `enter`..`exit`, whose exit is event
      number `exitIndex` of a list of `len` events. */
  function Trailing(chars: seq<char>, enter: Event, exit: Event, exitIndex: nat, len: nat, hardBreak: bool): (r: Stage)
    requires DataSpan(enter, exit, chars)
    ensures r.enter.point == enter.point && enter.point.index <= r.hi <= exit.point.index
  {
    var lo := enter.point.index;
    var hi := exit.point.index;
    var diff := RunBack(chars, lo, hi);
    var token := TrailingToken(chars, lo, hi, exit.point.vs, hardBreak, exitIndex, len);
    if diff == hi - lo then
      Stage(enter.(token := token), exit.(token := token), [], hi, true)
    else if diff > 0 || exit.point.vs > 0 then
      var moved := Point(exit.point.line, exit.point.column - diff, exit.point.index - diff, 0);
      Stage(enter, exit.(point := moved),
            [Edit(exitIndex + 1, 0, [Event(Enter, token, moved), Event(Exit, token, exit.point)])], hi - diff, false)
    else
      Stage(enter, exit, [], hi, false)
  }

  /** Trimming the start of the Data token `enter`..`exit`, looking at the
      characters up to `hi` only. */
  function Leading(chars: seq<char>, enter: Event, exit: Event, exitIndex: nat, hi: nat): Trimmed
    requires enter.point.index <= hi <= |chars| && exitIndex >= 1
  {
    var lo := enter.point.index;
    var n := RunFwd(chars, lo, hi);
    if n == hi - lo then
      Trimmed(enter.(token := SpaceOrTab), exit.(token := SpaceOrTab), [])
    else if n > 0 || enter.point.vs > 0 then
      var moved := Point(enter.point.line, enter.point.column + n, lo + n, 0);
      Trimmed(enter.(point := moved), exit,
              [Edit(exitIndex - 1, 0, [Event(Enter, SpaceOrTab, enter.point), Event(Exit, SpaceOrTab, moved)])])
    else
      Trimmed(enter, exit, [])
  }

  /** Trimming the Data token `enter`..`exit`: first its end, then its start
      on what the end left, unless the end found it all whitespace. */
  function Trim(chars: seq<char>, enter: Event, exit: Event, exitIndex: nat, len: nat,
                trimStart: bool, trimEnd: bool, hardBreak: bool): Trimmed
    requires DataSpan(enter, exit, chars) && exitIndex >= 1
  {
    var s := if trimEnd then Trailing(chars, enter, exit, exitIndex, len, hardBreak)
             else Stage(enter, exit, [], exit.point.index, false);
    if s.done || !trimStart then Trimmed(s.enter, s.exit, s.edits)
    else
      var l := Leading(chars, s.enter, s.exit, exitIndex, s.hi);
      Trimmed(l.enter, l.exit, s.edits + l.edits)
  }

  /** The trailing scan: walks back over spaces and tabs, noting any tab. */
  method TrailingWhitespace(chars: seq<char>, lo: nat, hi: nat, vs: nat) returns (index: nat, spacesOnly: bool)
    requires lo <= hi <= |chars|
    ensures index == hi - RunBack(chars, lo, hi)
    ensures spacesOnly == (vs == 0 && NoTab(chars, index, hi))
  {
    index := hi;
    spacesOnly := vs == 0;
    while index > lo
      invariant lo <= index <= hi
      invariant RunBack(chars, lo, hi) == (hi - index) + RunBack(chars, lo, index)
      invariant spacesOnly == (vs == 0 && NoTab(chars, index, hi))
    {
      var c := chars[index - 1];
      if c == ' ' {
      } else if c == '\t' {
        spacesOnly := false;
      } else {
        break;
      }
      index := index - 1;
    }
  }

  /** The leading scan: walks forward over spaces and tabs. */
  method LeadingWhitespace(chars: seq<char>, lo: nat, hi: nat) returns (index: nat)
    requires lo <= hi <= |chars|
    ensures index == lo + RunFwd(chars, lo, hi)
  {
    index := lo;
    while index < hi
      invariant lo <= index <= hi
      invariant RunFwd(chars, lo, hi) == (index - lo) + RunFwd(chars, index, hi)
    {
      if !IsSpaceOrTab(chars[index]) {
        break;
      }
      index := index + 1;
    }
  }

  /** Trims the Data token whose exit is `events[exitIndex]`: relabels it in
      place when it is all whitespace, otherwise moves its boundary points
      and queues the split-off whitespace tokens. */
  method TrimData(events: array<Event>, chars: seq<char>, exitIndex: nat,
                  trimStart: bool, trimEnd: bool, hardBreak: bool, edits: EditMap)
    requires 1 <= exitIndex < events.Length
    requires DataSpan(events[exitIndex - 1], events[exitIndex], chars)
    modifies events, edits
    ensures var t := Trim(chars, old(events[exitIndex - 1]), old(events[exitIndex]), exitIndex,
                          events.Length, trimStart, trimEnd, hardBreak);
            && events[exitIndex - 1] == t.enter && events[exitIndex] == t.exit
            && (forall k :: 0 <= k < events.Length && k != exitIndex - 1 && k != exitIndex ==> events[k] == old(events[k]))
            && edits.edits == old(edits.edits) + t.edits
  {
    var hi := events[exitIndex].point.index;
    if trimEnd {
      var done;
      hi, done := TrimEnd(events, chars, exitIndex, hardBreak, edits);
      if done {
        return;
      }
    }
    if trimStart {
      TrimStart(events, chars, exitIndex, hi, edits);
    } else {
      ghost var nothing: seq<Edit> := [];
      assert edits.edits == edits.edits + nothing;
    }
  }

  /** The trailing half of `TrimData`. */
  method TrimEnd(events: array<Event>, chars: seq<char>, exitIndex: nat, hardBreak: bool, edits: EditMap)
    returns (hi: nat, done: bool)
    requires 1 <= exitIndex < events.Length
    requires DataSpan(events[exitIndex - 1], events[exitIndex], chars)
    modifies events, edits
    ensures var s := Trailing(chars, old(events[exitIndex - 1]), old(events[exitIndex]), exitIndex, events.Length, hardBreak);
            && events[exitIndex - 1] == s.enter && events[exitIndex] == s.exit
            && (forall k :: 0 <= k < events.Length && k != exitIndex - 1 && k != exitIndex ==> events[k] == old(events[k]))
            && edits.edits == old(edits.edits) + s.edits && hi == s.hi && done == s.done
  {
    var lo := events[exitIndex - 1].point.index;
    hi := events[exitIndex].point.index;
    var vs := events[exitIndex].point.vs;
    var index, spacesOnly := TrailingWhitespace(chars, lo, hi, vs);
    var diff := hi - index;
    var token := if spacesOnly && hardBreak && exitIndex + 1 < events.Length && diff >= HARD_BREAK_PREFIX_SIZE_MIN
                 then HardBreakTrailing else SpaceOrTab;
    if index == lo {
      events[exitIndex - 1] := events[exitIndex - 1].(token := token);
      events[exitIndex] := events[exitIndex].(token := token);
      return hi, true;
    }
    if diff > 0 || vs > 0 {
      var exitPoint := events[exitIndex].point;
      var enterPoint := exitPoint.(index := exitPoint.index - diff, column := exitPoint.column - diff, vs := 0);
      edits.Add(exitIndex + 1, 0, [Event(Enter, token, enterPoint), Event(Exit, token, exitPoint)]);
      events[exitIndex] := events[exitIndex].(point := enterPoint);
      hi := index;
    } else {
      ghost var nothing: seq<Edit> := [];
      assert edits.edits == edits.edits + nothing;
    }
    done := false;
  }

  /** The leading half of `TrimData`, on the characters up to `hi`. */
  method TrimStart(events: array<Event>, chars: seq<char>, exitIndex: nat, hi: nat, edits: EditMap)
    requires 1 <= exitIndex < events.Length
    requires events[exitIndex - 1].point.index <= hi <= |chars|
    modifies events, edits
    ensures var l := Leading(chars, old(events[exitIndex - 1]), old(events[exitIndex]), exitIndex, hi);
            && events[exitIndex - 1] == l.enter && events[exitIndex] == l.exit
            && (forall k :: 0 <= k < events.Length && k != exitIndex - 1 && k != exitIndex ==> events[k] == old(events[k]))
            && edits.edits == old(edits.edits) + l.edits
  {
    var lo := events[exitIndex - 1].point.index;
    var index := LeadingWhitespace(chars, lo, hi);
    if index == hi {
      events[exitIndex - 1] := events[exitIndex - 1].(token := SpaceOrTab);
      events[exitIndex] := events[exitIndex].(token := SpaceOrTab);
      ghost var nothing: seq<Edit> := [];
      assert edits.edits == edits.edits + nothing;
      return;
    }
    var vs := events[exitIndex - 1].point.vs;
    if index > lo || vs > 0 {
      var enterPoint := events[exitIndex - 1].point;
      var exitPoint := enterPoint.(index := index, column := enterPoint.column + (index - lo), vs := 0);
      edits.Add(exitIndex - 1, 0, [Event(Enter, SpaceOrTab, enterPoint), Event(Exit, SpaceOrTab, exitPoint)]);
      events[exitIndex - 1] := events[exitIndex - 1].(point := exitPoint);
    } else {
      ghost var nothing: seq<Edit> := [];
      assert edits.edits == edits.edits + nothing;
    }
  }

  /** Each Data token is a leaf whose characters lie on one line of the source. */
  predicate WellFormed(events: seq<Event>, chars: seq<char>)
  {
    && DataIsLeaf(events)
    && forall j :: 0 < j < |events| && IsDataExit(events[j]) ==> DataSpan(events[j - 1], events[j], chars)
  }

  /** Whether the Data exit at `j` trims its start: it opens the whole
      content (when the whole content is trimmed), or comes right after a
      line ending. */
  predicate TrimStartAt(events: seq<Event>, j: nat, trimWhole: bool)
    requires j < |events|
  {
    (trimWhole && j == 1) || (j > 1 && events[j - 2].token == LineEnding)
  }

  /** Whether the Data exit at `j` trims its end: it closes the whole content
      (when the whole content is trimmed), or right before a line ending. */
  predicate TrimEndAt(events: seq<Event>, j: nat, trimWhole: bool)
    requires j < |events|
  {
    (trimWhole && j + 1 == |events|) || (j + 1 < |events| && events[j + 1].token == LineEnding)
  }

  /** What the resolver does to the Data token whose exit is `events[j]`. */
  function TrimAt(events: seq<Event>, chars: seq<char>, hardBreak: bool, trimWhole: bool, j: nat): Trimmed
    requires WellFormed(events, chars) && j < |events| && IsDataExit(events[j])
  {
    Trim(chars, events[j - 1], events[j], j, |events|,
         TrimStartAt(events, j, trimWhole), TrimEndAt(events, j, trimWhole), hardBreak)
  }

  /** Event `k` once the Data exits before `n` have been trimmed. */
  function ResolvedAt(events: seq<Event>, chars: seq<char>, hardBreak: bool, trimWhole: bool, n: nat, k: nat): Event
    requires WellFormed(events, chars) && n <= |events| && k < |events|
  {
    if k + 1 < n && IsDataExit(events[k + 1]) then TrimAt(events, chars, hardBreak, trimWhole, k + 1).enter
    else if k < n && IsDataExit(events[k]) then TrimAt(events, chars, hardBreak, trimWhole, k).exit
    else events[k]
  }

  /** The edits queued while trimming the Data exits before `n`, in order. */
  function ResolvedEdits(events: seq<Event>, chars: seq<char>, hardBreak: bool, trimWhole: bool, n: nat): seq<Edit>
    requires WellFormed(events, chars) && n <= |events|
  {
    if n == 0 then []
    else ResolvedEdits(events, chars, hardBreak, trimWhole, n - 1)
         + (if IsDataExit(events[n - 1]) then TrimAt(events, chars, hardBreak, trimWhole, n - 1).edits else [])
  }

  /** `current` is `events` once the Data exits before `n` have been trimmed. */
  predicate Progress(current: seq<Event>, events: seq<Event>, chars: seq<char>, hardBreak: bool, trimWhole: bool, n: nat)
    requires WellFormed(events, chars) && n <= |events|
  {
    && |current| == |events|
    && forall k :: 0 <= k < |current| ==> current[k] == ResolvedAt(events, chars, hardBreak, trimWhole, n, k)
  }

  /** Trims every Data token of `events`, left to right. */
  method ResolveWhitespace(events: array<Event>, chars: seq<char>, hardBreak: bool, trimWhole: bool, edits: EditMap)
    requires WellFormed(events[..], chars)
    modifies events, edits
    ensures forall k :: 0 <= k < events.Length ==>
              events[k] == ResolvedAt(old(events[..]), chars, hardBreak, trimWhole, events.Length, k)
    ensures edits.edits == old(edits.edits) + ResolvedEdits(old(events[..]), chars, hardBreak, trimWhole, events.Length)
  {
    ghost var before := events[..];
    var index := 0;
    while index < events.Length
      invariant 0 <= index <= events.Length
      invariant Progress(events[..], before, chars, hardBreak, trimWhole, index)
      invariant edits.edits == old(edits.edits) + ResolvedEdits(before, chars, hardBreak, trimWhole, index)
    {
      ResolveStep(events, before, chars, hardBreak, trimWhole, index, edits, old(edits.edits));
      index := index + 1;
    }
    assert forall k :: 0 <= k < events.Length ==> events[k] == events[..][k];
  }

  /** One iteration of the resolver loop, at event `index`. */
  method ResolveStep(events: array<Event>, ghost before: seq<Event>, chars: seq<char>,
                     hardBreak: bool, trimWhole: bool, index: nat, edits: EditMap, ghost queued: seq<Edit>)
    requires WellFormed(before, chars) && index < |before| == events.Length
    requires Progress(events[..], before, chars, hardBreak, trimWhole, index)
    requires edits.edits == queued + ResolvedEdits(before, chars, hardBreak, trimWhole, index)
    modifies events, edits
    ensures Progress(events[..], before, chars, hardBreak, trimWhole, index + 1)
    ensures edits.edits == queued + ResolvedEdits(before, chars, hardBreak, trimWhole, index + 1)
  {
    ghost var current := events[..];
    assert events[index] == current[index] == before[index];
    if events[index].kind == Exit && events[index].token == Data {
      assert index > 0 && IsDataEnter(before[index - 1]);
      assert events[index - 1] == current[index - 1] == before[index - 1];
      var trimStart := (trimWhole && index == 1)
        || (index > 1 && events[index - 2].token == LineEnding);
      var trimEnd := (trimWhole && index == events.Length - 1)
        || (index + 1 < events.Length && events[index + 1].token == LineEnding);
      assert trimStart == TrimStartAt(before, index, trimWhole) by {
        if index > 1 {
          assert events[index - 2] == current[index - 2];
          ResolvedLineEnding(before, chars, hardBreak, trimWhole, index, index - 2);
        }
      }
      assert trimEnd == TrimEndAt(before, index, trimWhole) by {
        if index + 1 < events.Length {
          assert events[index + 1] == current[index + 1] == before[index + 1];
        }
      }
      ghost var t := TrimAt(before, chars, hardBreak, trimWhole, index);
      ghost var mid := edits.edits;
      TrimData(events, chars, index, trimStart, trimEnd, hardBreak, edits);
      assert edits.edits == mid + t.edits;
      ProgressTrim(current, events[..], before, chars, hardBreak, trimWhole, index);
      EditsSplice(queued, ResolvedEdits(before, chars, hardBreak, trimWhole, index), t.edits);
    } else {
      ghost var nothing: seq<Edit> := [];
      assert edits.edits == edits.edits + nothing;
      EditsSplice(queued, ResolvedEdits(before, chars, hardBreak, trimWhole, index), nothing);
      ProgressSkip(current, before, chars, hardBreak, trimWhole, index);
    }
  }

  /** Trimming the Data token at the exit `n` advances the progress by one. */
  lemma ProgressTrim(current: seq<Event>, next: seq<Event>, events: seq<Event>, chars: seq<char>,
                     hardBreak: bool, trimWhole: bool, n: nat)
    requires WellFormed(events, chars) && n < |events| && IsDataExit(events[n])
    requires Progress(current, events, chars, hardBreak, trimWhole, n) && |next| == |current|
    requires next[n - 1] == TrimAt(events, chars, hardBreak, trimWhole, n).enter
    requires next[n] == TrimAt(events, chars, hardBreak, trimWhole, n).exit
    requires forall k :: 0 <= k < |next| && k != n - 1 && k != n ==> next[k] == current[k]
    ensures Progress(next, events, chars, hardBreak, trimWhole, n + 1)
  {
  }

  /** Passing an event that is not a Data exit advances the progress by one. */
  lemma ProgressSkip(current: seq<Event>, events: seq<Event>, chars: seq<char>,
                     hardBreak: bool, trimWhole: bool, n: nat)
    requires WellFormed(events, chars) && n < |events| && !IsDataExit(events[n])
    requires Progress(current, events, chars, hardBreak, trimWhole, n)
    ensures Progress(current, events, chars, hardBreak, trimWhole, n + 1)
  {
  }

  /** Trimming only ever relabels Data as SpaceOrTab or HardBreakTrailing. */
  lemma ResolvedLineEnding(events: seq<Event>, chars: seq<char>, hardBreak: bool, trimWhole: bool, n: nat, k: nat)
    requires WellFormed(events, chars) && n <= |events| && k < |events|
    ensures (ResolvedAt(events, chars, hardBreak, trimWhole, n, k).token == LineEnding) == (events[k].token == LineEnding)
  {
    if k + 1 < n && IsDataExit(events[k + 1]) {
      TrimShape(chars, events[k], events[k + 1], k + 1, |events|,
                TrimStartAt(events, k + 1, trimWhole), TrimEndAt(events, k + 1, trimWhole), hardBreak);
    } else if k < n && IsDataExit(events[k]) {
      TrimShape(chars, events[k - 1], events[k], k, |events|,
                TrimStartAt(events, k, trimWhole), TrimEndAt(events, k, trimWhole), hardBreak);
    }
  }

  /** The shape of every trim: the Enter stays an Enter and the Exit an Exit,
      either keeps its token or becomes SpaceOrTab or HardBreakTrailing, and
      at most two insert-only edits are queued, right before the Enter or
      right after the Exit. */
  lemma TrimShape(chars: seq<char>, enter: Event, exit: Event, exitIndex: nat, len: nat,
                  trimStart: bool, trimEnd: bool, hardBreak: bool)
    requires DataSpan(enter, exit, chars) && exitIndex >= 1
    ensures var r := Trim(chars, enter, exit, exitIndex, len, trimStart, trimEnd, hardBreak);
            && r.enter.kind == enter.kind && r.exit.kind == exit.kind
            && r.enter.token in {enter.token, SpaceOrTab, HardBreakTrailing}
            && r.exit.token in {exit.token, SpaceOrTab, HardBreakTrailing}
            && |r.edits| <= 2
            && forall e :: e in r.edits ==> e.remove == 0 && e.anchor in {exitIndex - 1, exitIndex + 1}
  {
  }

  /** `RunBack` is the maximal run of spaces and tabs ending at `hi`. */
  lemma {:induction false} RunBackMaximal(chars: seq<char>, lo: nat, hi: nat)
    requires lo <= hi <= |chars|
    ensures AllWhitespace(chars, hi - RunBack(chars, lo, hi), hi)
    ensures RunBack(chars, lo, hi) < hi - lo ==> !IsSpaceOrTab(chars[hi - RunBack(chars, lo, hi) - 1])
    decreases hi - lo
  {
    if hi > lo && IsSpaceOrTab(chars[hi - 1]) {
      RunBackMaximal(chars, lo, hi - 1);
    }
  }

  /** `RunFwd` is the maximal run of spaces and tabs starting at `lo`. */
  lemma {:induction false} RunFwdMaximal(chars: seq<char>, lo: nat, hi: nat)
    requires lo <= hi <= |chars|
    ensures AllWhitespace(chars, lo, lo + RunFwd(chars, lo, hi))
    ensures RunFwd(chars, lo, hi) < hi - lo ==> !IsSpaceOrTab(chars[lo + RunFwd(chars, lo, hi)])
    decreases hi - lo
  {
    if hi > lo && IsSpaceOrTab(chars[lo]) {
      RunFwdMaximal(chars, lo + 1, hi);
    }
  }

  /** Both runs cover the whole slice exactly when it is all whitespace. */
  lemma {:induction false} WholeRun(chars: seq<char>, lo: nat, hi: nat)
    requires lo <= hi <= |chars|
    ensures AllWhitespace(chars, lo, hi) <==> RunBack(chars, lo, hi) == hi - lo
    ensures AllWhitespace(chars, lo, hi) <==> RunFwd(chars, lo, hi) == hi - lo
  {
    RunBackMaximal(chars, lo, hi);
    RunFwdMaximal(chars, lo, hi);
    if !AllWhitespace(chars, lo, hi) {
      var k :| lo <= k < hi && !IsSpaceOrTab(chars[k]);
      assert RunBack(chars, lo, hi) < hi - lo;
      assert RunFwd(chars, lo, hi) < hi - lo;
    }
  }

  /** A trailing run is a hard break exactly when all four conditions hold:
      it is made of spaces only with no virtual space after it, hard breaks
      are wanted, another event follows, and it is at least two long. */
  lemma HardBreakIff(chars: seq<char>, lo: nat, hi: nat, vs: nat, hardBreak: bool, exitIndex: nat, len: nat)
    requires lo <= hi <= |chars|
    ensures var diff := RunBack(chars, lo, hi);
            TrailingToken(chars, lo, hi, vs, hardBreak, exitIndex, len) == HardBreakTrailing
            <==> (&& (forall k :: hi - diff <= k < hi ==> chars[k] == ' ') && vs == 0
                  && hardBreak && exitIndex + 1 < len && diff >= HARD_BREAK_PREFIX_SIZE_MIN)
  {
    RunBackMaximal(chars, lo, hi);
  }

  /** Data that is all whitespace only has its token types changed, to
      SpaceOrTab (or HardBreakTrailing when trimmed at the end), and no edit
      is queued. */
  lemma WholeWhitespace(chars: seq<char>, enter: Event, exit: Event, exitIndex: nat, len: nat,
                        trimStart: bool, trimEnd: bool, hardBreak: bool)
    requires DataSpan(enter, exit, chars) && exitIndex >= 1
    requires trimStart || trimEnd
    requires AllWhitespace(chars, enter.point.index, exit.point.index)
    ensures var r := Trim(chars, enter, exit, exitIndex, len, trimStart, trimEnd, hardBreak);
            && r.edits == []
            && r.enter == enter.(token := r.enter.token) && r.exit == exit.(token := r.exit.token)
            && r.enter.token == r.exit.token
            && r.enter.token in {SpaceOrTab, HardBreakTrailing}
            && (r.enter.token == HardBreakTrailing ==> trimEnd)
  {
    WholeRun(chars, enter.point.index, exit.point.index);
  }

  /** A trailing split moves the Data exit back by the run length, in both
      index and column, with no virtual space left, and queues the run's
      token right after the exit, from the moved point to the old one. */
  lemma TrailingSplit(chars: seq<char>, enter: Event, exit: Event, exitIndex: nat, len: nat,
                      trimStart: bool, hardBreak: bool)
    requires DataSpan(enter, exit, chars) && exitIndex >= 1
    requires !AllWhitespace(chars, enter.point.index, exit.point.index)
    requires RunBack(chars, enter.point.index, exit.point.index) > 0 || exit.point.vs > 0
    ensures var r := Trim(chars, enter, exit, exitIndex, len, trimStart, true, hardBreak);
            var diff := RunBack(chars, enter.point.index, exit.point.index);
            var moved := Point(exit.point.line, exit.point.column - diff, exit.point.index - diff, 0);
            var token := TrailingToken(chars, enter.point.index, exit.point.index, exit.point.vs, hardBreak, exitIndex, len);
            && r.exit == exit.(point := moved)
            && |r.edits| >= 1
            && r.edits[0] == Edit(exitIndex + 1, 0, [Event(Enter, token, moved), Event(Exit, token, exit.point)])
  {
    var lo, hi := enter.point.index, exit.point.index;
    WholeRun(chars, lo, hi);
    if trimStart {
      RunBackMaximal(chars, lo, hi);
      WholeRun(chars, lo, hi - RunBack(chars, lo, hi));
    }
  }

  /** A leading split queues the run as SpaceOrTab right before the Data
      enter, as the last edit, from the old enter point to the one moved
      forward by the run length in both index and column, with no virtual
      space left. Trimming the end first does not change the run: on Data
      that is not all whitespace it stops before the trailing run. */
  lemma LeadingSplit(chars: seq<char>, enter: Event, exit: Event, exitIndex: nat, len: nat,
                     trimEnd: bool, hardBreak: bool)
    requires DataSpan(enter, exit, chars) && exitIndex >= 1
    requires !AllWhitespace(chars, enter.point.index, exit.point.index)
    requires RunFwd(chars, enter.point.index, exit.point.index) > 0 || enter.point.vs > 0
    ensures var r := Trim(chars, enter, exit, exitIndex, len, true, trimEnd, hardBreak);
            var n := RunFwd(chars, enter.point.index, exit.point.index);
            var moved := Point(enter.point.line, enter.point.column + n, enter.point.index + n, 0);
            var lead := Edit(exitIndex - 1, 0, [Event(Enter, SpaceOrTab, enter.point), Event(Exit, SpaceOrTab, moved)]);
            && r.enter == enter.(point := moved)
            && |r.edits| >= 1 && r.edits[|r.edits| - 1] == lead
            && (!trimEnd ==> r.exit == exit && r.edits == [lead])
  {
    var lo, hi := enter.point.index, exit.point.index;
    WholeRun(chars, lo, hi);
    if trimEnd {
      NoOverlap(chars, enter, exit, exitIndex, len, hardBreak);
      RunFwdPrefix(chars, lo, hi - RunBack(chars, lo, hi), hi);
    }
  }

  /** A leading run that stops before `m` is the same run up to any later `hi`. */
  lemma {:induction false} RunFwdPrefix(chars: seq<char>, lo: nat, m: nat, hi: nat)
    requires lo <= m <= hi <= |chars|
    requires RunFwd(chars, lo, m) < m - lo
    ensures RunFwd(chars, lo, m) == RunFwd(chars, lo, hi)
    decreases m - lo
  {
    if IsSpaceOrTab(chars[lo]) {
      RunFwdPrefix(chars, lo + 1, m, hi);
    }
  }

  /** Trimming both ends of Data that is not all whitespace keeps its token
      types and leaves it non-empty: the leading run is measured on what the
      trailing trim left, so the two whitespace tokens never overlap. */
  lemma NoOverlap(chars: seq<char>, enter: Event, exit: Event, exitIndex: nat, len: nat, hardBreak: bool)
    requires DataSpan(enter, exit, chars) && exitIndex >= 1
    requires !AllWhitespace(chars, enter.point.index, exit.point.index)
    ensures var r := Trim(chars, enter, exit, exitIndex, len, true, true, hardBreak);
            var lo, hi := enter.point.index, exit.point.index;
            && RunFwd(chars, lo, hi - RunBack(chars, lo, hi)) + RunBack(chars, lo, hi) < hi - lo
            && r.enter.token == enter.token && r.exit.token == exit.token
            && r.enter.point.index < r.exit.point.index
  {
    var lo, hi := enter.point.index, exit.point.index;
    WholeRun(chars, lo, hi);
    RunBackMaximal(chars, lo, hi);
    WholeRun(chars, lo, hi - RunBack(chars, lo, hi));
  }

  /** Without either trim flag a Data token is left as it is. */
  lemma NoFlagNoChange(chars: seq<char>, enter: Event, exit: Event, exitIndex: nat, len: nat, hardBreak: bool)
    requires DataSpan(enter, exit, chars) && exitIndex >= 1
    ensures Trim(chars, enter, exit, exitIndex, len, false, false, hardBreak) == Trimmed(enter, exit, [])
  {
  }

  /** After the whole pass, every event other than a Data enter or exit is
      unchanged, and a Data token whose exit has neither trim flag keeps both
      of its events. */
  lemma {:induction false} ResolvedKeeps(events: seq<Event>, chars: seq<char>, hardBreak: bool, trimWhole: bool, k: nat)
    requires WellFormed(events, chars) && k < |events|
    ensures !IsDataEnter(events[k]) && !IsDataExit(events[k]) ==>
              ResolvedAt(events, chars, hardBreak, trimWhole, |events|, k) == events[k]
    ensures IsDataExit(events[k]) && !TrimStartAt(events, k, trimWhole) && !TrimEndAt(events, k, trimWhole) ==>
              && ResolvedAt(events, chars, hardBreak, trimWhole, |events|, k) == events[k]
              && ResolvedAt(events, chars, hardBreak, trimWhole, |events|, k - 1) == events[k - 1]
  {
    if IsDataExit(events[k]) {
      assert k > 0 && IsDataEnter(events[k - 1]);
      NoFlagNoChange(chars, events[k - 1], events[k], k, |events|, hardBreak);
    }
  }

  /** The pass only ever inserts: no queued edit removes an event. */
  lemma {:induction false} ResolvedInsertsOnly(events: seq<Event>, chars: seq<char>, hardBreak: bool, trimWhole: bool, n: nat)
    requires WellFormed(events, chars) && n <= |events|
    ensures forall e :: e in ResolvedEdits(events, chars, hardBreak, trimWhole, n) ==> e.remove == 0
  {
    if n > 0 {
      ResolvedInsertsOnly(events, chars, hardBreak, trimWhole, n - 1);
      if IsDataExit(events[n - 1]) {
        TrimShape(chars, events[n - 2], events[n - 1], n - 1, |events|,
                  TrimStartAt(events, n - 1, trimWhole), TrimEndAt(events, n - 1, trimWhole), hardBreak);
      }
    }
  }
}
