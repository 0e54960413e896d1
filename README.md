# markdown-rs core: atx headings, whitespace trimming, document containers

A Dafny model of three pieces of the markdown-rs tokenizer and of the edit
map they share, with proofs about each:

- **Heading (atx)**, section 4.2 of CommonMark 0.30 (`heading_atx.dfy`).
  - Module `HeadingAtx` holds the recogniser. It has one function per state
    (`start`, `before`, `sequence_open`, `at_break`, `further_sequence`,
    `data`) over the input characters and a value `Tok`. `Tok` holds the
    events, the open-token stack, the point, the `interrupt` flag and the
    registered resolvers.
  - Each state is proved to succeed exactly on the lines the grammar
    (`AtxLine`) accepts.
  - Each successful run leaves the tokenizer closed and the resolver
    registered (`Finished`). Every Data token spans a maximal run of text
    (`DataIsText`). The run stays on its line, and Data opens exactly when
    the line has a character that is neither whitespace nor `#` (`Covers`).
    The heading's Enter and the opening sequence's span come first.
  - Module `HeadingResolve` holds the resolver. It is a loop over the events
    that queues, for each heading, the edits that wrap its text in one
    `HeadingAtxText` span.
  - The resolver is proved against a declarative statement (`Spec`,
    `HeadingEdits`) of which events belong to which heading.
  - Module `HeadingApply` (`heading_apply.dfy`) follows the resolver's
    edits through the edit map. On any list whose Data tokens are leaves,
    resolving and then applying the queued edits gives `Wrapped`: the text
    of every heading with Data sits in its own `HeadingAtxText` span, and
    every other event is kept in order. The wraps of different headings
    do not disturb each other.
- **Whitespace** (`partial_whitespace.dfy`, module `Whitespace`).
  - The resolver walks an event `array` and trims every Data token that
    touches a line ending. It does so in place: it relabels or moves the
    Data events and queues edits for the split-off `SpaceOrTab` or
    `HardBreakTrailing` tokens. The hard-break case is section 6.7 of
    CommonMark 0.30.
  - The methods are proved against the functions `Trailing`, `Leading`,
    `Trim` and `ResolvedAt`.
  - The proved properties are: when a hard break is made, whole-whitespace
    Data, the shape of each split, no overlap of the two whitespace tokens,
    and that the edits only insert.
- **Document** (`document.dfy`, module `Document`). This is the line-by-line
  state machine of the document content type.
  - Classes `Info` (the document state) and `Tokenizer` (the fields it
    touches) are updated by methods with `modifies` clauses. The methods
    cover: starting a line, the existing-container pass, the new-container
    pass, the hand-off to flow, the end of a line's flow with the lazy
    continuation rule (section 5.1), closing containers, and the final
    resolve that splices container events into the flow.
  - The main properties are:
    - which probes continued;
    - what each opening closes and pushes;
    - that a lazy paragraph line closes nothing;
    - that the end of the document closes everything, innermost first;
    - where container exits land: before the first line ending of a
      trailing run of blank lines;
    - that resolving only inserts.
  - The definitions collected from the finished events have no repeats,
    hold exactly the label identifiers, and keep first-occurrence order.
- **Edit map** (`edit_map.dfy`, module `EditMap`).
  - Class `EditMap`: `Add` appends an edit, and `Consume` applies all edits
    in one ascending sweep.
  - `Applied` and `Rebuild` state the result index by index. Edits at the
    same anchor apply in the order they were added.
- `events.dfy` (module `Events`) holds the shared event, point and token
  types.

The construct switches, the block quote and list item constructs, and flow
are not part of this model. Their outcomes are parameters: the `Probe`,
`NewProbe` and `Line` values. A `Line` also carries flow's events, its `interrupt` status and its `concrete` status after the line.

## Model

| member | source | states |
|---|---|---|
| HeadingAtx.Start | src/construct/heading_atx.rs:68-81 | Fails when the construct is off. Otherwise succeeds exactly when the line has allowed indentation (counted in characters, a tab as one) followed by 1 to 6 `#` and then the end of line, a space or a tab. On success the first new event is the heading's Enter at the start point. Any indentation is one SpaceOrTab token. The opening HeadingAtxSequence token spans exactly the run of `#` after it. The run stays on one line and ends at its first line ending (`Covers`). A Data token opens exactly when the line holds a character that is neither whitespace nor `#`, and every Data token spans a maximal run of text. |
| HeadingAtx.StartIndent | src/construct/heading_atx.rs:69-77 | Eating the indentation (at most 3 spaces or tabs with indented code on, a tab counting as one; otherwise unbounded) always succeeds, and the opening sequence is then looked for right after it. |
| HeadingAtx.SpaceOrTabMinMax | src/construct/heading_atx.rs:77 | Succeeds exactly when at least `min` of the allowed spaces and tabs are present. It consumes `min(run, max)` of them, a tab counting as one, into one SpaceOrTab token and opens no Data. |
| HeadingAtx.SpaceOrTabRun | src/construct/heading_atx.rs:118 | Succeeds exactly when at least one space or tab follows, and consumes the whole run. |
| HeadingAtx.Before | src/construct/heading_atx.rs:89-96 | Succeeds exactly when a fitting opening sequence starts at the point. Its HeadingAtxSequence token then spans exactly the run of `#` there, and `Covers` holds. |
| HeadingAtx.SequenceOpen | src/construct/heading_atx.rs:104-122 | With `rank` hashes behind it, succeeds exactly when the run of `#` brings the rank to 1..6 and the sequence is followed by the end of line, a space or a tab. The sequence's Exit then lies at the end of the `#` run. |
| HeadingAtx.SequenceDone | src/construct/heading_atx.rs:106-109 | An opening sequence at the end of the line closes at the point, and the heading always finishes. |
| HeadingAtx.SequenceSpace | src/construct/heading_atx.rs:116-119 | After the opening sequence, succeeds exactly when spaces or tabs follow. The sequence then closes at the point. |
| HeadingAtx.AtBreak | src/construct/heading_atx.rs:130-149 | Always succeeds, with the heading finished: its Exit last, the resolver registered, `interrupt` cleared and the point at the first line ending. Data opens exactly when the rest of the line holds a character that is neither whitespace nor `#`. |
| HeadingAtx.Close | src/construct/heading_atx.rs:132-137 | The end of the line closes the heading, registers `heading_atx` (once: a name already registered is not added again) and clears `interrupt`. It opens no Data. |
| HeadingAtx.Register | src/construct/heading_atx.rs:136 | Registering a resolver name leaves it in the list. The list then holds exactly the old names plus this one, keeps the old ones as a prefix and grows by at most one; a name already there is not added again. |
| HeadingAtx.BreakSpace | src/construct/heading_atx.rs:139 | The next two events are one SpaceOrTab token over the whole run of spaces and tabs (capped at `usize::MAX`), and the heading still finishes. |
| HeadingAtx.BreakSequence | src/construct/heading_atx.rs:140-143 | The next two events are one HeadingAtxSequence token from the point to the end of the run of `#`, and the heading still finishes. |
| HeadingAtx.BreakData | src/construct/heading_atx.rs:144-147 | The next two events are one Data token from the point over the maximal run of text, so Data opens. The heading still finishes. |
| HeadingAtx.FurtherSequence | src/construct/heading_atx.rs:159-167 | The next event is the sequence's Exit at the end of the run of `#` that follows: the sequence takes every following `#`. The heading still finishes. |
| HeadingAtx.InData | src/construct/heading_atx.rs:175-187 | Data ends only at a space, a tab, a line ending or the end of input. The Data token then spans exactly the maximal run of text, and the run stays on the line. |
| HeadingAtx.DataClose | src/construct/heading_atx.rs:178-181 | Closing Data at the first non-text character makes its Exit point the Enter point moved by the run length. |
| HeadingResolve.Resolve | src/construct/heading_atx.rs:190-247 | The loop queues exactly `HeadingEdits`: one wrap per heading exit whose heading had Data. This is the corrected scan, which forgets state at every heading exit. |
| HeadingResolve.ResolveEvent | src/construct/heading_atx.rs:197-245 | One iteration moves the scan state by `Next` and queues `Queued` for that event. |
| HeadingResolve.Wrap | src/construct/heading_atx.rs:206-229 | The three edits are queued in order: insert the text Enter at the first Data Enter, remove everything strictly between, insert the text Exit after the last Data Exit. The points are the Data points. |
| HeadingResolve.HeadingWrap | src/construct/heading_atx.rs:206-229 | Applying one heading's edits keeps the first Data Enter and the last Data Exit between the new HeadingAtxText Enter and Exit, and drops everything in between. |
| HeadingResolve.NoDataNoEdits | src/construct/heading_atx.rs:202 | A heading without Data gets no edit. |
| HeadingResolve.WrapInsideHeading | src/construct/heading_atx.rs:199-243 | Every wrap lies strictly inside one heading: after its Enter and before its Exit, with no other heading exit in between, and its first Data precedes its last. |
| HeadingResolve.FirstLeast | src/construct/heading_atx.rs:237-239 | The tracked Data start is the first Data Enter of the heading: none precedes it. |
| HeadingResolve.LastGreatest | src/construct/heading_atx.rs:240-241 | The tracked Data end is the last Data Exit of the heading: none follows it. |
| HeadingResolve.DataEndAfterStart | src/construct/heading_atx.rs:203-204 | At a heading exit, a Data start comes with a later Data end ("if start is some, end is too"). |
| HeadingResolve.SpecStepExit | src/construct/heading_atx.rs:231-233 | A heading exit resets the whole scan state. |
| HeadingResolve.SpecStepEnter | src/construct/heading_atx.rs:200-201 | A heading enter only sets the heading start. |
| HeadingResolve.SpecStepInside | src/construct/heading_atx.rs:235-242 | Inside a heading, a Data Enter sets the start if unset and a Data Exit sets the end. |
| HeadingResolve.SpecStepOutside | src/construct/heading_atx.rs:235 | Outside any heading nothing is tracked. |
| HeadingResolve.ScannedState | src/construct/heading_atx.rs:196-246 | The corrected scan computes the declarative state `Spec`. |
| HeadingResolve.ScannedEdits | src/construct/heading_atx.rs:196-246 | The corrected scan queues the declarative edits `HeadingEdits`. |
| HeadingResolve.ScannedRange | src/construct/heading_atx.rs:202-204 | At a heading exit the corrected scan's Data range is ordered and inside the list. |
| HeadingResolve.AsWrittenStates | src/construct/heading_atx.rs:199-243 | On the example list, the scan as written keeps the first bare heading open across the paragraph after it. |
| HeadingResolve.AsWrittenEdits | src/construct/heading_atx.rs:206-229 | On the example list, the scan as written queues a wrap from the paragraph's Data (index 3) to the second heading's Data (index 8). |
| HeadingResolve.AsWrittenWrapsAcrossHeadings | src/construct/heading_atx.rs:199-233 | That wrap's removal covers the paragraph's Exit and the second heading's Enter. |
| HeadingApply.ResolveAndApply | src/construct/heading_atx.rs:189-247 | Resolving a list whose Data tokens are leaves and then applying the queued edits yields `Wrapped`. For each heading with Data, its first Data Enter and last Data Exit sit between a new HeadingAtxText Enter and Exit at their points, and the events between them are gone. All other events are kept, in order. |
| HeadingApply.AppliedWrapped | src/construct/heading_atx.rs:196-246 | Applying all the edits the resolver queues for the whole list gives `Wrapped` of the list, however many headings it has. |
| HeadingApply.RebuildWrapped | src/construct/heading_atx.rs:196-246 | From any index that no wrap straddles, edits acting as the resolver's rebuild the rest of the list as `Wrapped`. |
| HeadingApply.EditsLocal | src/construct/heading_atx.rs:195-245 | After the scan reaches `n`, the edits at index `k` are those of the wrap of the heading that `k` belongs to, if that heading closes before `n`. Otherwise there are none. No other heading's edits touch `k`. |
| HeadingApply.EditsConcat | src/construct/heading_atx.rs:206-229 | Edits queued later add their inserts after the earlier ones at the same index, and an index is removed exactly when either list of edits removes it (the union of the removals). |
| HeadingApply.WrapTouch | src/construct/heading_atx.rs:206-229 | One heading's wrap inserts the text Enter at its first Data Enter and the text Exit right after its last Data Exit. It removes exactly the indices strictly between them and touches nothing else. A heading without Data gets no edits. |
| HeadingApply.OwnerOf | src/construct/heading_atx.rs:199-233 | Every index from just after the previous heading exit (or the start of the list) up to a heading's exit belongs to that heading. |
| HeadingApply.OwnedAfterBase | src/construct/heading_atx.rs:199-233 | An index belongs to a heading only when it lies after the previous heading exit and at or before the heading's own exit. |
| HeadingApply.CleanStep | src/construct/heading_atx.rs:206-229 | An index that starts no wrap, lies inside no wrap and does not directly follow one is untouched by the edits. The next index then lies inside no wrap either, nor directly after one. |
| Whitespace.ResolveWhitespace | src/construct/partial_whitespace.rs:59-77 | Every array element ends equal to `ResolvedAt` of the original list, and the edits grow by `ResolvedEdits`. The Data exits are trimmed left to right with the source's `trim_start`/`trim_end` formulas. |
| Whitespace.ResolveStep | src/construct/partial_whitespace.rs:62-76 | One loop step either trims the Data ending at `index` or skips the event, and keeps the progress invariant. |
| Whitespace.TrimData | src/construct/partial_whitespace.rs:81-206 | Sets the Data Enter and Exit to those of `Trim` and leaves every other element alone. It queues `Trim`'s edits. |
| Whitespace.TrimEnd | src/construct/partial_whitespace.rs:93-155 | The trailing half, against `Trailing`: relabel when all whitespace; otherwise move the exit back and queue the run's token after it. |
| Whitespace.TrimStart | src/construct/partial_whitespace.rs:157-205 | The leading half, against `Leading`, on the characters the trailing half left. |
| Whitespace.TrailingWhitespace | src/construct/partial_whitespace.rs:94-107 | The backward scan stops at the start of the maximal trailing run of spaces and tabs. `spaces_only` holds exactly when there is no virtual space after and no tab in the run. |
| Whitespace.LeadingWhitespace | src/construct/partial_whitespace.rs:158-167 | The forward scan stops after the maximal leading run. |
| Whitespace.Trailing | src/construct/partial_whitespace.rs:93-155 | The trailing trim keeps the Enter point, and what is left ends between the Data's start and end. |
| Whitespace.RunBackMaximal | src/construct/partial_whitespace.rs:97-105 | The trailing run is all whitespace and is preceded by a non-whitespace character, or reaches the start. |
| Whitespace.RunFwdMaximal | src/construct/partial_whitespace.rs:160-167 | The leading run is all whitespace and is followed by a non-whitespace character, or reaches the end. |
| Whitespace.WholeRun | src/construct/partial_whitespace.rs:120 | Either run covers the whole slice exactly when the slice is all whitespace. |
| Whitespace.HardBreakIff | src/construct/partial_whitespace.rs:108-116 | A trailing run is HardBreakTrailing exactly when it has only spaces, no virtual space, hard breaks on, a following event, and length at least 2. |
| Whitespace.WholeWhitespace | src/construct/partial_whitespace.rs:118-124 | All-whitespace Data only changes its token types, to the same SpaceOrTab or HardBreakTrailing (the latter only when trimmed at the end), and queues nothing. |
| Whitespace.TrailingSplit | src/construct/partial_whitespace.rs:126-154 | A trailing split moves the Exit back by the run in index and column, with vs 0. It queues the run's token right after the Exit, spanning from the moved point to the old one. |
| Whitespace.LeadingSplit | src/construct/partial_whitespace.rs:177-204 | With or without the trailing trim, a leading split moves the Enter forward by the maximal leading run. It queues SpaceOrTab from the old point to the moved one, right before the Enter, as the last edit. Without the trailing trim that is the only edit and the Exit is unchanged. |
| Whitespace.NoOverlap | src/construct/partial_whitespace.rs:153-167 | Trimming both ends of Data that is not all whitespace leaves it non-empty with its tokens kept. The two runs do not overlap. |
| Whitespace.NoFlagNoChange | src/construct/partial_whitespace.rs:93-157 | Without either flag a Data token is unchanged and nothing is queued. |
| Whitespace.TrimShape | src/construct/partial_whitespace.rs:121-203 | Enter stays Enter and Exit stays Exit. Tokens are kept or become SpaceOrTab or HardBreakTrailing. At most two insert-only edits are queued, at `exit_index - 1` or `exit_index + 1`. |
| Whitespace.ResolvedLineEnding | src/construct/partial_whitespace.rs:66-70 | Trimming never creates or removes a LineEnding token, so the flags read the same tokens as in the original list. |
| Whitespace.ResolvedKeeps | src/construct/partial_whitespace.rs:62-76 | Events other than Data are untouched, and Data with neither flag keeps both of its events. |
| Whitespace.ResolvedInsertsOnly | src/construct/partial_whitespace.rs:133-186 | No queued edit removes an event. |
| Document.Info.constructor | src/content/document.rs:146-154 | The document state starts empty: nothing continued, no slots, no containers, both flags false. |
| Document.LineStart | src/content/document.rs:166-173 | A line starts at the current end of the events with a new empty slot, nothing continued, and `interrupt` cleared. |
| Document.ExistingPass | src/content/document.rs:182-233 | Probes open containers outermost first. The stack comes back unchanged. Every probe up to `continued` succeeded and the one at `continued` failed. Only the successful probes' events are kept. |
| Document.NewPass | src/content/document.rs:241-294 | The state is the fold of `Open` over exactly the probes that open. Probing stops at the first failure, or when every container has continued and the tokenizer is inside a concrete construct at that point. The concrete status is the one flow left on the previous line until a first opening closes containers. From then on it is the status the flush of the previous line's flow leaves (`ConcreteAt`). The `interrupt` result follows the source's three cases. |
| Document.NewStep | src/content/document.rs:241-294 | One round. When every container has continued, it restores flow's `interrupt` and stops inside a concrete construct. Otherwise it stops when the outcomes run out or the probe opens nothing. In every stop case the count `Rounds` ends at this round. Otherwise it opens the probe's container as `Open` states, sets the concrete status `ConcreteAt` gives for the next round, and clears `interrupt`. |
| Document.ConcreteBlocksNew | src/content/document.rs:244-251 | With every container continued inside a concrete construct, no new container opens. |
| Document.FlushLetsProbingContinue | src/content/document.rs:321-332 | When the first opening closes containers and its flush leaves no concrete construct, probing goes on to a second container, even if the line started inside a concrete construct. |
| Document.OpeningShape | src/content/document.rs:296-335 | After n openings the stack is what continued plus the n new containers, all continued. Containers that had not continued are closed once, by the first opening, with the previous line's flow flushed in front. Events are appended in order. |
| Document.NewRound | src/content/document.rs:254-285 | One successful round enters the container's token and then opens it as `Open` states. When it closes containers, the concrete status becomes the one the flush leaves. |
| Document.NewAfter | src/content/document.rs:296-335 | Removes the last occurrence of the token from the open-token stack. Closes the containers that did not continue. Pushes the new container as continued. Clears both interrupt flags. When it closes containers, the flush of the previous line's flow sets the concrete status, which otherwise stays as it was. |
| Document.RemoveLast | src/content/document.rs:306-318 | Searching from the top, removes exactly the last occurrence of the token and reports whether there was one. |
| Document.LastIndex | src/content/document.rs:306-318 | Finds an index exactly when the token occurs, and the token is at that index. |
| Document.LastIndexIsLast | src/content/document.rs:310-316 | No occurrence lies above the one found. |
| Document.ContainersAfter | src/content/document.rs:343-353 | The line's container events move into its slot, leaving `events[..index]`. The line is lazy exactly when some container did not continue. `interrupt` is restored. |
| Document.Flow | src/content/document.rs:355-363 | The line's flow events are appended, and flow's `interrupt` and `concrete` status are taken. The next line's new-container pass reads that `concrete` status (src/content/document.rs:249-251). |
| Document.FlowEnd | src/content/document.rs:373-411 | The new state is `Reconcile` (lazy rule, then closing after the previous line), then `CloseAll` when the document ends. `paragraph_before` and `interrupt_before` are updated as in the source. |
| Document.LazyClose | src/content/document.rs:383-389 | A lazy paragraph line counts every container as continued. Otherwise the containers that did not continue are closed. |
| Document.CloseAtEof | src/content/document.rs:396-400 | At the end of the document every open container is closed. |
| Document.LazyParagraphKeeps | src/content/document.rs:383-385 | A lazy paragraph line after a paragraph closes nothing. |
| Document.ReconcileCloses | src/content/document.rs:387-389 | Otherwise exactly the containers that did not continue are closed. Their exits, innermost first, go to the previous line's slot, and no other slot changes. |
| Document.CloseAllEmpties | src/content/document.rs:396-400 | At the end nothing stays open, and all exits go to the last slot, innermost first. |
| Document.BackOverLineEndings | src/content/document.rs:374-380 | The paragraph check looks at an event at or before the end that is not a line ending. |
| Document.BackOverIsLast | src/content/document.rs:374-380 | That event is the last one that is not a line ending, and when none is found the events are all line endings. |
| Document.ExitContainers | src/content/document.rs:413-458 | The stack is cut at `continued`. Except at the end of the document, a paused flow is flushed in front of the line's events (moving `index` only for a prefix close). Before a new container (`Prefix`) this is the previous line's flow, and its end sets the concrete status. After a line's flow (`After`) it is a fresh start of flow, which normally yields nothing and leaves the concrete status alone. The exits are appended to the chosen slot and `interrupt_before` is cleared. |
| Document.PopExits | src/content/document.rs:435-446 | Popping the closed containers yields `Exits`. |
| Document.ExitsInnermostFirst | src/content/document.rs:435-446 | There is one exit per closed container, and the k-th closes the k-th container from the innermost. |
| Document.ScanLine | src/content/document.rs:473-490 | The inner scan stops where `ScanEnd` says and holds the run `ScanRun` computes. |
| Document.ScanEndIsLineEnd | src/content/document.rs:473-490 | A line's scan ends just after the first line-ending Exit at or after its start, or at the end of the events. |
| Document.LastNonBlank | src/content/document.rs:483-487 | Reference: the last event of the line that is neither whitespace nor a line ending. |
| Document.FirstLineEnding | src/content/document.rs:476-478 | Reference: the first line-ending Enter in a range. |
| Document.ScanRunIsRunStart | src/content/document.rs:465-498 | The run found is the first line ending after the line's last non-blank event. On a wholly blank line it is the run carried in, or the line's own line ending. |
| Document.SetPoints | src/content/document.rs:500-504 | Every exit gets the chosen point and keeps its kind and token. |
| Document.PlaceSlot | src/content/document.rs:467-506 | One slot queues its `before` events at the line start (when there are any) and its exits at the run's first line ending or the line's end. |
| Document.Resolve | src/content/document.rs:461-510 | The events become the old events with all slots' edits applied in one sweep, and the map and the slots are emptied. |
| Document.PlacementInsertsOnly | src/content/document.rs:470-506 | Resolving never removes a flow event, and every anchor is within the events. |
| Document.Definitions | src/content/document.rs:84-109 | Collects the identifiers of the definition label exits in order, skipping repeats. |
| Document.KnownDistinct | src/content/document.rs:101-103 | No identifier is collected twice. |
| Document.KnownIsLabels | src/content/document.rs:87-107 | An identifier is collected exactly when some definition label has it. |
| Document.KnownGrows | src/content/document.rs:101-103 | Later labels only append, so the order is the order of first occurrence. |
| Document.Run | src/content/document.rs:145-411 | Running every line and then resolving leaves no container open and nothing queued or unplaced. The concrete status flow leaves on a line is carried into the next line's new-container pass, and at the end it is the last line's. |
| EditMap.EditMap.Add | src/content/document.rs:506 | Queues one edit after all earlier ones. |
| EditMap.EditMap.Consume | src/content/document.rs:509 | The result is `Applied` of all queued edits in one sweep, and the map is empty afterwards. |
| EditMap.Sweep | src/content/document.rs:509 | The ascending pass builds exactly `Applied`. |
| EditMap.EditsAt | src/content/document.rs:509 | Collects the inserts at an index in the order they were added, and whether any edit removes it. |
| EditMap.AppliedNoEdits | src/content/document.rs:509 | No edits leave the list as it is. |
| EditMap.ApplyInsert | src/content/document.rs:470 | One pure insertion lands right before the anchored event. |
| EditMap.SameAnchorInOrder | src/content/document.rs:470-506 | Two insertions at one anchor apply in the order they were added. |
| EditMap.ApplyWrap | src/construct/heading_atx.rs:206-229 | The heading's three edits keep the events at the ends and surround them with the inserted pair. |
| EditMap.RebuildUntouched | src/content/document.rs:509 | A stretch with neither inserts nor removals is copied as it is. |
| EditMap.RebuildRemoved | src/construct/heading_atx.rs:218 | A removed stretch with no inserts disappears. |

## Left out

- Block quote, list item, their continuations and flow are not part of this model. In the document model the whitespace of container prefixes belongs to those constructs, so it too is part of an outcome handed in (`Probe`, `NewProbe`, `Line`). The heading recogniser is different: it models `space_or_tab_min_max` and `space_or_tab` directly, as runs of spaces and tabs (`SpaceOrTabMinMax`, `SpaceOrTabRun`), with the column caveat below.
- How a construct updates a container's state (`blank_initial`, `size`) during continuation is not modelled; the state is fixed when the container opens.
- The `tokenizer.container` hand-off field, `info.next` (the paused flow state) and `define_skip_current` are not modelled.
- The internals of `flush` are not modelled. The events it produces are the `flushed` parameter, and the concrete status it leaves before a new container is `NewProbe.concrete`. Flow's constructs, which clear that status when the flush ends them, are not part of this model.
- `tokenizer.point` does not move in the document model. Feeding characters belongs to the constructs, which are left out, so exits carry the point the caller sets.
- `skip::opt_back` is not part of this model. It is modelled as walking back over LineEnding events one at a time. A list made only of line endings counts as "not a paragraph"; the source's own behaviour in that case is not visible.
- `normalize_identifier`, `Slice::from_position` and `serialize` are not part of this model. The identifier of the label whose exit is at index k is the parameter `idOf(k)`.
- `subtokenize` (src/content/document.rs:113) and the byte order mark state `before` (src/content/document.rs:126-143) are not modelled.
- Document.Run: the existing-container outcomes of each line are fitted to the stack depth. A missing outcome counts as "did not continue" and extra outcomes are ignored.
- Document.Run: it states only that the document ends with every container closed and every queue emptied, not the final event list. The steps' own contracts give that.
- Document.NewPass: when the list of new-container outcomes runs out, probing stops as if the probe had failed.
- Document.NewAfter: the source's `assert!(found)` is the precondition that the token is on the open-token stack.
- Whitespace.ResolveWhitespace: it assumes each Data token lies on one line and within the characters (`WellFormed`). `Slice::from_position` is not part of this model.
- `create_resolve_whitespace` only binds the two flags and is not modelled separately.
- The heading recogniser is fed the rest of the input at once. The places where the source suspends (`State::Fn`) are not modelled.
- Events carry no content type and no links to the previous and next event of a content chunk. The source opens Data (src/construct/heading_atx.rs:145) with the text content type, and the edit map keeps those links consistent. Nothing in the modelled core reads them.
- `register_resolver` is modelled as `Register`: it adds the name `heading_atx` to a list unless the name is already there. Running resolvers at the end of the tokenizer is not modelled.
- HeadingAtx.Start, HeadingAtx.StartIndent, HeadingAtx.SpaceOrTabMinMax: a tab counts as one column. The recogniser never sets virtual spaces (`vs` stays 0), and the indentation cap `TAB_SIZE - 1` counts characters, not columns. The tokenizer's expansion of a tab to the next tab stop is not part of this model. So with indented code on, the model accepts a heading after a leading tab (`\t# a`), while the source stops inside the tab's columns and rejects the line, which is then indented code. Point columns after a tab differ in the same way.
- `TAB_SIZE` (4) and `HEADING_ATX_OPENING_FENCE_SIZE_MAX` (6) come from a constants file that is not part of this model. Their values are those of CommonMark 0.30.
- `usize::MAX` is the 64-bit value. Column and index arithmetic uses unbounded naturals, because the source's subtractions there cannot underflow on a Data token that lies on one line.

## Findings

| source | as written | input that shows it | evidently intended | confidence | as-written member | corrected member |
|---|---|---|---|---|---|---|
| src/construct/heading_atx.rs:199-233 | The scan state is reset only at the exit of a heading that had Data. After a bare heading (`#`) the heading stays "open", so Data outside any heading is tracked. | Flow events of `#`, then a paragraph `a`, then `# b` (`BareHeadingThenParagraph`, 10 events). The list is abridged: it leaves out the HeadingAtxSequence and LineEnding events real flow emits, which the scan does not read because it reacts only to HeadingAtx and Data. The resolver queues a wrap from the paragraph's Data (3) to the heading's Data (8). Its removal covers the paragraph's Exit and the second heading's Enter. | Forget the open heading at every heading exit, so a wrap stays inside one heading. | not executed; medium | HeadingResolve.AsWrittenWrapsAcrossHeadings | HeadingResolve.WrapInsideHeading |
