/** `TagsInput`: the tag-entry state machine. Every handler is one atomic step on the
    state as it was when the event arrived: a React setter inside a handler does not
    change what the rest of that handler reads. */
module TagsInput {
  import opened Types
  import opened Sequences
  import opened Strings
  import opened TagSuggester

  // ---------------------------------------------------------------------------
  // The key table

  /** The keys with an entry in `keyDownHandledEvents`. */
  datatype HandledKey = Space | Enter | Backspace | ArrowUp | ArrowDown

  /** The `KeyboardEvent.key` value of a handled key. */
  function KeyName(k: HandledKey): string {
    match k
    case Space => " "
    case Enter => "Enter"
    case Backspace => "Backspace"
    case ArrowUp => "ArrowUp"
    case ArrowDown => "ArrowDown"
  }

  /** The five table keys have five different names. */
  lemma KeyNamesDistinct(a: HandledKey, b: HandledKey)
    requires a != b
    ensures KeyName(a) != KeyName(b)
  {
  }

  /** `e.key in keyDownHandledEvents`: which entry, if any, handles `key`. */
  function ParseKey(key: string): (r: Option<HandledKey>)
    ensures r.Some? ==> KeyName(r.value) == key
    ensures forall k :: KeyName(k) == key ==> r == Some(k)
  {
    if key == " " then Some(Space)
    else if key == "Enter" then Some(Enter)
    else if key == "Backspace" then Some(Backspace)
    else if key == "ArrowUp" then Some(ArrowUp)
    else if key == "ArrowDown" then Some(ArrowDown)
    else None
  }

  /** What a key handler did to the event: whether it called `preventDefault`, and
      whether it threw (the `at(idx)!` dereference of an undefined suggestion). */
  datatype KeyOutcome = KeyOutcome(defaultPrevented: bool, threw: bool)

  // ---------------------------------------------------------------------------
  // The tag list

  /** `tags.some((tag) => tag.name === name)`: exact string equality. */
  function HasTagNamed(tags: seq<Tag>, name: string): (r: bool)
    ensures r <==> exists i :: 0 <= i < |tags| && tags[i].name == name
  {
    if tags == [] then false
    else tags[0].name == name || HasTagNamed(tags[1..], name)
  }

  /** No two tags share a name. */
  predicate UniqueNames(tags: seq<Tag>) {
    forall i, j :: 0 <= i < j < |tags| ==> tags[i].name != tags[j].name
  }

  /** Appending a name not yet present keeps the names unique. */
  lemma AppendNewNameKeepsUnique(tags: seq<Tag>, name: string)
    requires UniqueNames(tags) && !HasTagNamed(tags, name)
    ensures UniqueNames(tags + [NewTag(name)])
  {
  }

  /** Removing one tag, wherever it is, keeps the names unique. */
  lemma RemoveAtKeepsUnique(tags: seq<Tag>, idx: int)
    requires UniqueNames(tags)
    ensures UniqueNames(RemoveAt(tags, idx))
  {
    if 0 <= idx < |tags| {
      var r := RemoveAt(tags, idx);
      forall i, j | 0 <= i < j < |r|
        ensures r[i].name != r[j].name
      {
        RemoveAtShifts(tags, idx, i);
        RemoveAtShifts(tags, idx, j);
      }
    }
  }

  // ---------------------------------------------------------------------------
  // The input text

  /** Text as `handleOnChange` stores it: trimmed and lower-case. */
  predicate IsNormalized(s: string) {
    IsTrimmed(s) && IsLowerCase(s)
  }

  /** `value.trim().toLowerCase()`. */
  function Normalize(raw: string): (r: string)
    ensures IsNormalized(r)
    ensures |r| <= |raw|
  {
    var t := Trim(raw);
    ToLowerCaseKeepsTrimmed(t);
    ToLowerCase(t)
  }

  /** Text that is already normalised comes back unchanged. */
  lemma NormalizeKeepsNormalized(s: string)
    requires IsNormalized(s)
    ensures Normalize(s) == s
  {
    TrimKeepsTrimmed(s);
    ToLowerCaseKeepsLowerCase(s);
  }

  /** Normalising twice is normalising once. */
  lemma NormalizeIdempotent(raw: string)
    ensures Normalize(Normalize(raw)) == Normalize(raw)
  {
    NormalizeKeepsNormalized(Normalize(raw));
  }

  // ---------------------------------------------------------------------------
  // The suggestion cursor

  /** The cursor after ArrowUp (`maxSuggestedTagsLength` is `len - 1`). */
  function NavUp(cursor: Option<int>, len: int): (r: Option<int>)
    ensures len > 0 && CursorValid(cursor, len) ==> CursorValid(r, len)
  {
    match cursor
    case None => Some(len - 1)
    case Some(i) => if i > 0 then Some(i - 1) else None
  }

  /** The cursor after ArrowDown. */
  function NavDown(cursor: Option<int>, len: int): (r: Option<int>)
    ensures CursorValid(cursor, len) && len > 0 ==> CursorValid(r, len)
  {
    match cursor
    case None => Some(0)
    case Some(i) => if i < len - 1 then Some(i + 1) else None
  }

  /** Over a non-empty list, ArrowUp undoes ArrowDown and ArrowDown undoes ArrowUp. */
  lemma NavUpDownInverse(cursor: Option<int>, len: int)
    requires len > 0 && CursorValid(cursor, len)
    ensures NavUp(NavDown(cursor, len), len) == cursor
    ensures NavDown(NavUp(cursor, len), len) == cursor
  {
  }

  /** Over an empty list both arrows move a null cursor onto an index that does not exist. */
  lemma NavOnEmptyListLeavesRange()
    ensures NavUp(None, 0) == Some(-1) && !CursorValid(NavUp(None, 0), 0)
    ensures NavDown(None, 0) == Some(0) && !CursorValid(NavDown(None, 0), 0)
  {
  }

  /** The cursor after `n` presses of ArrowDown. */
  function PressDown(cursor: Option<int>, len: int, n: nat): Option<int>
    decreases n
  {
    if n == 0 then cursor else PressDown(NavDown(cursor, len), len, n - 1)
  }

  lemma {:induction false} PressDownWalks(i: int, len: int, n: nat)
    requires 0 <= i && i + n < len
    ensures PressDown(Some(i), len, n) == Some(i + n)
    decreases n
  {
    if n > 0 {
      PressDownWalks(i + 1, len, n - 1);
    }
  }

  /** ArrowDown walks the list from the top, one option per press, then to "none":
      `len + 1` presses bring a null cursor back to null. */
  lemma PressDownCycle(len: int, k: nat)
    requires 0 < k <= len
    ensures PressDown(None, len, k) == Some(k - 1)
    ensures PressDown(None, len, len + 1) == None
  {
    PressDownWalks(0, len, k - 1);
    PressDownWalks(0, len, len - 1);
    assert PressDown(Some(len - 1), len, 1) == None;
    PressDownSplit(Some(0), len, len - 1, 1);
  }

  lemma {:induction false} PressDownSplit(cursor: Option<int>, len: int, m: nat, n: nat)
    ensures PressDown(cursor, len, m + n) == PressDown(PressDown(cursor, len, m), len, n)
    decreases m
  {
    if m > 0 {
      PressDownSplit(NavDown(cursor, len), len, m - 1, n);
    }
  }

  // ---------------------------------------------------------------------------
  // The component

  class TagsInput {
    /** The host's list (held in the page's state); only ever replaced whole. */
    var tags: seq<Tag>
    var inputValue: string
    var suggestedTags: seq<Tag>
    var suggestedTagIdx: Option<int>

    /** What every handler keeps: unique tag names and normalised input text. */
    ghost predicate Invariant()
      reads this
    {
      UniqueNames(tags) && IsNormalized(inputValue)
    }

    /** The control as the page mounts it: no tags, empty input, no suggestions. */
    constructor ()
      ensures tags == [] && inputValue == "" && suggestedTags == [] && suggestedTagIdx == None
      ensures Invariant()
    {
      tags := [];
      inputValue := "";
      suggestedTags := [];
      suggestedTagIdx := None;
    }

    twostate predicate Unchanged()
      reads this
    {
      tags == old(tags) && inputValue == old(inputValue) &&
      suggestedTags == old(suggestedTags) && suggestedTagIdx == old(suggestedTagIdx)
    }

    twostate predicate SuggestionsKept()
      reads this
    {
      suggestedTags == old(suggestedTags) && suggestedTagIdx == old(suggestedTagIdx)
    }

    /** The effect of `addTag(name)`: a name already present changes nothing, the input
        text included; a new name is appended as `{ name }` and the input is cleared. */
    twostate predicate Committed(name: string)
      reads this
    {
      if HasTagNamed(old(tags), name) then tags == old(tags) && inputValue == old(inputValue)
      else tags == old(tags) + [NewTag(name)] && inputValue == ""
    }

    method AddTag(tagName: string)
      modifies this
      ensures Committed(tagName) && SuggestionsKept()
      ensures old(Invariant()) ==> Invariant()
    {
      var isTagAdded := HasTagNamed(tags, tagName);
      if isTagAdded {
        return;
      }
      if UniqueNames(tags) {
        AppendNewNameKeepsUnique(tags, tagName);
      }
      tags := tags + [NewTag(tagName)];
      inputValue := "";
    }

    /** `addSuggestedTag(idx)`: the `!` on `at(idx)` is the caller's promise that the
        index names a suggestion. */
    method AddSuggestedTag(idx: int)
      requires At(suggestedTags, idx).Some?
      modifies this
      ensures Committed(At(old(suggestedTags), idx).value.name)
      ensures suggestedTagIdx == None && suggestedTags == []
      ensures old(Invariant()) ==> Invariant()
    {
      AddTag(At(suggestedTags, idx).value.name);
      suggestedTagIdx := None;
      suggestedTags := [];
    }

    /** The effect of a handler's `addSuggestedTag(idx)` call: when `at(idx)` is undefined,
        reading `.name` throws before any setter runs, so nothing changes. */
    twostate predicate SuggestionCommitted(idx: int, threw: bool)
      reads this
    {
      match At(old(suggestedTags), idx)
      case None => threw && Unchanged()
      case Some(t) => !threw && Committed(t.name) && suggestedTagIdx == None && suggestedTags == []
    }

    method TryAddSuggestedTag(idx: int) returns (threw: bool)
      modifies this
      ensures SuggestionCommitted(idx, threw)
      ensures old(Invariant()) ==> Invariant()
    {
      if At(suggestedTags, idx).None? {
        return true;
      }
      AddSuggestedTag(idx);
      threw := false;
    }

    /** Space: on empty input, always suppress the default and commit the suggestion at
        the cursor, if any; otherwise commit the input and let the default happen. */
    twostate predicate SpaceDone(o: KeyOutcome)
      reads this
    {
      if old(inputValue) == "" then
        o.defaultPrevented &&
        match old(suggestedTagIdx)
        case Some(i) => SuggestionCommitted(i, o.threw)
        case None => !o.threw && Unchanged()
      else
        o == KeyOutcome(false, false) && Committed(old(inputValue)) && SuggestionsKept()
    }

    method SpaceKey() returns (o: KeyOutcome)
      modifies this
      ensures SpaceDone(o)
      ensures old(Invariant()) ==> Invariant()
    {
      if inputValue == "" {
        if suggestedTagIdx.Some? {
          var threw := TryAddSuggestedTag(suggestedTagIdx.value);
          return KeyOutcome(true, threw);
        }
        return KeyOutcome(true, false);
      }
      AddTag(inputValue);
      o := KeyOutcome(false, false);
    }

    /** Enter: on empty input, nothing; otherwise suppress the default and commit the
        suggestion at the cursor, or the input when the cursor is null. */
    twostate predicate EnterDone(o: KeyOutcome)
      reads this
    {
      if old(inputValue) == "" then
        o == KeyOutcome(false, false) && Unchanged()
      else
        o.defaultPrevented &&
        match old(suggestedTagIdx)
        case Some(i) => SuggestionCommitted(i, o.threw)
        case None => !o.threw && Committed(old(inputValue)) && SuggestionsKept()
    }

    method EnterKey() returns (o: KeyOutcome)
      modifies this
      ensures EnterDone(o)
      ensures old(Invariant()) ==> Invariant()
    {
      if inputValue == "" {
        return KeyOutcome(false, false);
      }
      if suggestedTagIdx.Some? {
        var threw := TryAddSuggestedTag(suggestedTagIdx.value);
        return KeyOutcome(true, threw);
      }
      AddTag(inputValue);
      o := KeyOutcome(true, false);
    }

    /** Backspace: with empty input and at least one tag, the last tag goes and the rest
        stay in order; otherwise nothing changes. The default is never suppressed. */
    twostate predicate BackspaceDone(o: KeyOutcome)
      reads this
    {
      o == KeyOutcome(false, false) && inputValue == old(inputValue) && SuggestionsKept() &&
      if old(inputValue) != "" || old(tags) == [] then tags == old(tags)
      else tags == old(tags)[..|old(tags)| - 1]
    }

    method BackspaceKey() returns (o: KeyOutcome)
      modifies this
      ensures BackspaceDone(o)
      ensures old(Invariant()) ==> Invariant()
    {
      o := KeyOutcome(false, false);
      if inputValue != "" || |tags| == 0 {
        return;
      }
      var filteredTags := DropLast(tags);
      assert UniqueNames(tags) ==> UniqueNames(filteredTags) by {
        assert filteredTags == tags[..|tags| - 1];
      }
      tags := filteredTags;
    }

    /** The arrows: suppress the default exactly when there are suggestions, and move
        only the cursor. */
    twostate predicate ArrowDone(o: KeyOutcome, cursor: Option<int>)
      reads this
    {
      o == KeyOutcome(|old(suggestedTags)| != 0, false) &&
      suggestedTagIdx == cursor &&
      tags == old(tags) && inputValue == old(inputValue) && suggestedTags == old(suggestedTags)
    }

    method ArrowUpKey() returns (o: KeyOutcome)
      modifies this
      ensures ArrowDone(o, NavUp(old(suggestedTagIdx), |old(suggestedTags)|))
      ensures old(Invariant()) ==> Invariant()
    {
      o := KeyOutcome(|suggestedTags| != 0, false);
      if suggestedTagIdx.None? {
        suggestedTagIdx := Some(|suggestedTags| - 1);
        return;
      }
      if suggestedTagIdx.value > 0 {
        suggestedTagIdx := Some(suggestedTagIdx.value - 1);
        return;
      }
      suggestedTagIdx := None;
    }

    method ArrowDownKey() returns (o: KeyOutcome)
      modifies this
      ensures ArrowDone(o, NavDown(old(suggestedTagIdx), |old(suggestedTags)|))
      ensures old(Invariant()) ==> Invariant()
    {
      o := KeyOutcome(|suggestedTags| != 0, false);
      if suggestedTagIdx.None? {
        suggestedTagIdx := Some(0);
        return;
      }
      if suggestedTagIdx.value < |suggestedTags| - 1 {
        suggestedTagIdx := Some(suggestedTagIdx.value + 1);
        return;
      }
      suggestedTagIdx := None;
    }

    /** `handleKeyDown`: run the table entry for the key; other keys change nothing and
        keep their default. */
    method KeyDown(key: string) returns (o: KeyOutcome)
      modifies this
      ensures match ParseKey(key)
        case None => o == KeyOutcome(false, false) && Unchanged()
        case Some(Space) => SpaceDone(o)
        case Some(Enter) => EnterDone(o)
        case Some(Backspace) => BackspaceDone(o)
        case Some(ArrowUp) => ArrowDone(o, NavUp(old(suggestedTagIdx), |old(suggestedTags)|))
        case Some(ArrowDown) => ArrowDone(o, NavDown(old(suggestedTagIdx), |old(suggestedTags)|))
      ensures old(Invariant()) ==> Invariant()
    {
      match ParseKey(key)
      case None =>
        o := KeyOutcome(false, false);
      case Some(Space) =>
        o := SpaceKey();
      case Some(Enter) =>
        o := EnterKey();
      case Some(Backspace) =>
        o := BackspaceKey();
      case Some(ArrowUp) =>
        o := ArrowUpKey();
      case Some(ArrowDown) =>
        o := ArrowDownKey();
    }

    /** `handleRemoveTag(idx)`: exactly the tag at `idx` goes, the others stay in order;
        an index outside the list changes nothing. */
    method RemoveTag(idx: int)
      modifies this
      ensures 0 <= idx < |old(tags)| ==> tags == old(tags)[..idx] + old(tags)[idx + 1..]
      ensures !(0 <= idx < |old(tags)|) ==> tags == old(tags)
      ensures inputValue == old(inputValue) && SuggestionsKept()
      ensures old(Invariant()) ==> Invariant()
    {
      if UniqueNames(tags) {
        RemoveAtKeepsUnique(tags, idx);
      }
      tags := RemoveAt(tags, idx);
    }

    /** `handleOnChange`: the input holds the trimmed, lower-cased text. */
    method OnChange(raw: string)
      modifies this
      ensures inputValue == Normalize(raw) && IsNormalized(inputValue)
      ensures tags == old(tags) && SuggestionsKept()
      ensures old(Invariant()) ==> Invariant()
    {
      inputValue := Normalize(raw);
    }

    /** `handleOnSelect`: commit the clicked suggestion and clear the list; the cursor
        is left as it was. */
    method OnSelect(tag: Tag)
      modifies this
      ensures Committed(tag.name)
      ensures suggestedTags == [] && suggestedTagIdx == old(suggestedTagIdx)
      ensures old(Invariant()) ==> Invariant()
    {
      AddTag(tag.name);
      suggestedTags := [];
    }

    /** `handleSetSuggestedTags`: replace the list; the cursor is left as it was. */
    method SetSuggestions(list: seq<Tag>)
      modifies this
      ensures suggestedTags == list && suggestedTagIdx == old(suggestedTagIdx)
      ensures tags == old(tags) && inputValue == old(inputValue)
      ensures old(Invariant()) ==> Invariant()
    {
      suggestedTags := list;
    }

    /** The suggester's effect once `debouncedTerm` settles: it writes the list only. */
    method RefreshSuggestions(dataset: seq<Tag>, debouncedTerm: string)
      modifies this
      ensures suggestedTags == SuggestionsFor(dataset, debouncedTerm)
      ensures suggestedTagIdx == old(suggestedTagIdx)
      ensures tags == old(tags) && inputValue == old(inputValue)
      ensures old(Invariant()) ==> Invariant()
    {
      SetSuggestions(SuggestionsFor(dataset, debouncedTerm));
    }
  }
}
