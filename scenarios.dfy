/** Concrete event sequences driven through the component, as a page would deliver them.
    The texts typed are already trimmed and lower-case, so the input shows them as typed
    (`OnChangeNormalizes` shows one that is not). The suggester's effect is run with the
    input text as the debounced term wherever the quiet period is taken to have passed. */
module Scenarios {
  import opened Types
  import opened Strings
  import opened TagSearch
  import opened TagSuggester
  import opened TagsInput

  /** A two-tag dataset. */
  function Dataset(): seq<Tag> {
    [Tag("react", Some(1)), Tag("redux", Some(2))]
  }

  /** Both dataset tags start with "re"; only "react" starts with "rea". */
  lemma DatasetMatches()
    ensures SuggestionsFor(Dataset(), "re") == Dataset()
    ensures SuggestionsFor(Dataset(), "rea") == [Tag("react", Some(1))]
  {
    var d := Dataset();
    assert d[1..][1..] == [];
    assert StartsWith("react", "re") && StartsWith("redux", "re") by {
      assert "react"[..2] == "re" && "redux"[..2] == "re";
    }
    assert StartsWith("react", "rea") by {
      assert "react"[..3] == "rea";
    }
    assert !StartsWith("redux", "rea") by {
      assert "redux"[..3][2] != "rea"[2];
    }
    assert SearchTags(d[1..], "re") == [d[1]];
    assert SearchTags(d[1..], "rea") == [];
  }

  /** The typed text " Re" is stored as "re". */
  lemma OnChangeNormalizes()
    ensures Normalize(" Re") == "re"
  {
    assert IsWhitespace(' ') && !IsWhitespace('R') && !IsWhitespace('e');
    assert FirstKept(" Re", 1) == 1 && FirstKept(" Re", 0) == 1;
    assert LastKept(" Re", 1, 3) == 3;
    assert " Re"[1..3] == "Re";
    assert Trim(" Re") == "Re";
    assert "Re"[1..] == "e" && "e"[1..] == [];
    assert ToLowerCase("e") == "e";
    assert ToLowerCase("Re") == "re";
  }

  /** The words typed below are stored as they are. */
  lemma TypedWordsAreNormalized()
    ensures IsNormalized("r") && IsNormalized("re") && IsNormalized("rea")
    ensures IsNormalized("go") && IsNormalized("rust")
  {
  }

  /** A change event carrying text that is already normalised puts exactly that text in
      the input and touches nothing else. */
  method Type(c: TagsInput, text: string)
    requires IsNormalized(text)
    modifies c
    ensures c.inputValue == text && c.tags == old(c.tags)
    ensures c.suggestedTags == old(c.suggestedTags) && c.suggestedTagIdx == old(c.suggestedTagIdx)
  {
    NormalizeKeepsNormalized(text);
    c.OnChange(text);
  }

  /** Type "re", let the suggestions arrive, ArrowDown, Enter: "react" is committed (as a
      `{ name }` record, without its dataset id), the input and the list are cleared and
      the cursor is back to null. */
  method ArrowDownEnterCommitsFirstMatch()
    returns (tags: seq<Tag>, input: string, suggestions: seq<Tag>, cursor: Option<int>,
             down: KeyOutcome, enter: KeyOutcome)
    ensures down == KeyOutcome(true, false) && enter == KeyOutcome(true, false)
    ensures tags == [Tag("react", None)] && input == ""
    ensures suggestions == [] && cursor == None
  {
    DatasetMatches();
    TypedWordsAreNormalized();
    var c := new TagsInput();
    Type(c, "re");
    c.RefreshSuggestions(Dataset(), c.inputValue);
    assert c.suggestedTags == Dataset() && c.suggestedTagIdx == None;
    down := c.ArrowDownKey();
    assert c.suggestedTagIdx == Some(0) && c.inputValue == "re" && c.tags == [];
    enter := c.EnterKey();
    tags, input, suggestions, cursor := c.tags, c.inputValue, c.suggestedTags, c.suggestedTagIdx;
  }

  /** Tags "go" and "rust" committed with Space; Backspace on the empty input removes
      "rust" and keeps "go". */
  method BackspaceRemovesLastTag()
    returns (tags: seq<Tag>, space: KeyOutcome, back: KeyOutcome)
    ensures space == KeyOutcome(false, false) && back == KeyOutcome(false, false)
    ensures tags == [NewTag("go")]
  {
    TypedWordsAreNormalized();
    var c := new TagsInput();
    Type(c, "go");
    space := c.SpaceKey();
    assert c.tags == [NewTag("go")];
    Type(c, "rust");
    assert !HasTagNamed(c.tags, "rust");
    space := c.SpaceKey();
    assert c.tags == [NewTag("go"), NewTag("rust")] && c.inputValue == "";
    back := c.BackspaceKey();
    tags := c.tags;
  }

  /** Committing a name that is already a tag changes nothing: the tags stay as they are
      and the typed text stays in the input. */
  method DuplicateCommitKeepsInput() returns (tags: seq<Tag>, input: string)
    ensures tags == [NewTag("go")] && input == "go"
  {
    TypedWordsAreNormalized();
    var c := new TagsInput();
    Type(c, "go");
    var space := c.SpaceKey();
    Type(c, "go");
    assert HasTagNamed(c.tags, "go");
    space := c.SpaceKey();
    tags, input := c.tags, c.inputValue;
  }

  /** ArrowDown pressed before the first suggestions arrive sets the cursor to 0 over an
      empty list; the following Enter dereferences `at(0)` of that list and throws. */
  method ArrowDownBeforeSuggestionsThenEnterThrows()
    returns (cursor: Option<int>, down: KeyOutcome, enter: KeyOutcome, tags: seq<Tag>, input: string)
    ensures cursor == Some(0) && down == KeyOutcome(false, false)
    ensures enter == KeyOutcome(true, true)
    ensures tags == [] && input == "r"
  {
    TypedWordsAreNormalized();
    var c := new TagsInput();
    Type(c, "r");
    down := c.ArrowDownKey();
    cursor := c.suggestedTagIdx;
    enter := c.EnterKey();
    tags, input := c.tags, c.inputValue;
  }

  /** ArrowUp over an empty list leaves the cursor at -1; once the suggestions arrive,
      Enter commits the LAST one, because `at(-1)` counts from the end. */
  method ArrowUpBeforeSuggestionsCommitsLastMatch()
    returns (cursor: Option<int>, enter: KeyOutcome, tags: seq<Tag>)
    ensures cursor == Some(-1)
    ensures enter == KeyOutcome(true, false)
    ensures tags == [NewTag("redux")]
  {
    DatasetMatches();
    TypedWordsAreNormalized();
    var c := new TagsInput();
    Type(c, "re");
    var up := c.ArrowUpKey();
    cursor := c.suggestedTagIdx;
    c.RefreshSuggestions(Dataset(), c.inputValue);
    assert c.suggestedTags == Dataset() && c.suggestedTagIdx == Some(-1);
    enter := c.EnterKey();
    tags := c.tags;
  }

  /** Clicking a suggestion clears the list but keeps the cursor; a Space on the now
      empty input then dereferences a suggestion that is gone and throws. */
  method ClickKeepsCursorThenSpaceThrows()
    returns (cursor: Option<int>, tags: seq<Tag>, space: KeyOutcome)
    ensures cursor == Some(0) && tags == [NewTag("redux")]
    ensures space == KeyOutcome(true, true)
  {
    DatasetMatches();
    TypedWordsAreNormalized();
    var c := new TagsInput();
    Type(c, "re");
    c.RefreshSuggestions(Dataset(), c.inputValue);
    assert c.suggestedTags == Dataset() && c.tags == [];
    var down := c.ArrowDownKey();
    assert c.suggestedTagIdx == Some(0) && c.tags == [];
    var clicked := ClickedTag(c.suggestedTags, 1);
    assert clicked.name == "redux" && !HasTagNamed(c.tags, "redux");
    c.OnSelect(clicked);
    assert c.tags == [NewTag("redux")] && c.inputValue == "" && c.suggestedTags == [];
    c.RefreshSuggestions(Dataset(), c.inputValue);
    cursor, tags := c.suggestedTagIdx, c.tags;
    space := c.SpaceKey();
  }

  /** A refresh with a longer term shortens the list under the cursor: the cursor stays
      past the end, no option is shown as selected, and Enter throws. */
  method RefreshStrandsCursorThenEnterThrows()
    returns (cursor: Option<int>, suggestions: seq<Tag>, enter: KeyOutcome)
    ensures cursor == Some(1) && suggestions == [Tag("react", Some(1))]
    ensures forall i :: 0 <= i < |suggestions| ==> !IsSelected(i, cursor)
    ensures enter == KeyOutcome(true, true)
  {
    DatasetMatches();
    TypedWordsAreNormalized();
    var c := new TagsInput();
    Type(c, "re");
    c.RefreshSuggestions(Dataset(), c.inputValue);
    assert c.suggestedTags == Dataset() && c.suggestedTagIdx == None && c.tags == [];
    var down := c.ArrowDownKey();
    down := c.ArrowDownKey();
    assert c.suggestedTagIdx == Some(1) && c.tags == [];
    Type(c, "rea");
    c.RefreshSuggestions(Dataset(), c.inputValue);
    cursor, suggestions := c.suggestedTagIdx, c.suggestedTags;
    assert suggestions == [Tag("react", Some(1))];
    enter := c.EnterKey();
  }
}
