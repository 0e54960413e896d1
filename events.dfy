// The flat event vocabulary shared by the tokenizer, the resolvers and the
// document content type: points in the source, token types and Enter/Exit events.

module Events {

  datatype Option<T> = None | Some(value: T)

  /** A place in the source: line and column are 1-based, `index` counts
      characters from the start, `vs` is the virtual space left over from a
      tab that was only partly consumed. */
  datatype Point = Point(line: nat, column: nat, index: nat, vs: nat)

  /** The token types the modelled core produces or inspects; every other
      token type of the tokenizer is `Other`. */
  datatype Token =
    | HeadingAtx
    | HeadingAtxSequence
    | HeadingAtxText
    | Data
    | SpaceOrTab
    | HardBreakTrailing
    | LineEnding
    | BlankLineEnding
    | BlockQuote
    | ListItem
    | Paragraph
    | DefinitionLabelString
    | Other

  datatype Kind = Enter | Exit

  datatype Event = Event(kind: Kind, token: Token, point: Point)

  predicate IsSpaceOrTab(c: char) {
    c == ' ' || c == '\t'
  }

  /** A Data token is a leaf: its Enter is right before its Exit. */
  predicate DataIsLeaf(events: seq<Event>) {
    && (forall k :: 0 <= k < |events| && IsDataExit(events[k]) ==> k > 0 && IsDataEnter(events[k - 1]))
    && (forall k :: 0 <= k < |events| && IsDataEnter(events[k]) ==> k + 1 < |events| && IsDataExit(events[k + 1]))
  }

  predicate IsDataEnter(e: Event) {
    e.kind == Enter && e.token == Data
  }

  predicate IsDataExit(e: Event) {
    e.kind == Exit && e.token == Data
  }
}
