/** The suggestion cursor under the intended rule: "none" or an index into the current
    list. The arrows do nothing over an empty list, and replacing or clearing the list
    resets the cursor. Under this rule a commit always finds a suggestion at the cursor,
    which the component as written does not guarantee (see `Scenarios`). */
module IntendedCursor {
  import opened Types
  import opened Sequences
  import opened TagSuggester
  import opened TagsInput

  /** What can happen to the list and its cursor. */
  datatype CursorEvent = Up | Down | Refresh(list: seq<Tag>) | Commit

  datatype CursorState = CursorState(suggestions: seq<Tag>, cursor: Option<int>)

  predicate Valid(s: CursorState) {
    CursorValid(s.cursor, |s.suggestions|)
  }

  /** One event under the intended rule. */
  function Step(s: CursorState, e: CursorEvent): (r: CursorState)
    ensures Valid(s) ==> Valid(r)
    ensures e.Up? || e.Down? ==> r.suggestions == s.suggestions
  {
    match e
    case Up =>
      if |s.suggestions| == 0 then s else s.(cursor := NavUp(s.cursor, |s.suggestions|))
    case Down =>
      if |s.suggestions| == 0 then s else s.(cursor := NavDown(s.cursor, |s.suggestions|))
    case Refresh(list) => CursorState(list, None)
    case Commit => CursorState([], None)
  }

  /** A sequence of events, in order. */
  function Run(s: CursorState, events: seq<CursorEvent>): CursorState
    decreases |events|
  {
    if events == [] then s else Run(Step(s, events[0]), events[1..])
  }

  lemma {:induction false} RunKeepsCursorValid(s: CursorState, events: seq<CursorEvent>)
    requires Valid(s)
    ensures Valid(Run(s, events))
    decreases |events|
  {
    if events != [] {
      RunKeepsCursorValid(Step(s, events[0]), events[1..]);
    }
  }

  /** From the mounted state (no list, no cursor), whatever happens, a commit at the
      cursor finds a suggestion: `at(idx)` is defined. */
  lemma CommitAfterAnyRunIsDefined(events: seq<CursorEvent>)
    ensures var r := Run(CursorState([], None), events);
            r.cursor.Some? ==> At(r.suggestions, r.cursor.value).Some?
  {
    RunKeepsCursorValid(CursorState([], None), events);
  }
}
