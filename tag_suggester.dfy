/** `TagSuggester`: the suggestion-refresh rule and the per-option predicates of the list. */
module TagSuggester {
  import opened Types
  import opened Sequences
  import opened Strings
  import opened TagSearch

  /** The list the effect hands to `setSuggestedTags` once the debounced term settles.
      An empty term short-circuits to `[]` without searching; any other term takes
      the search result as it is (an array is never falsy, so the `[]` fallback
      for a falsy result never applies). */
  function SuggestionsFor(dataset: seq<Tag>, debouncedTerm: string): (r: seq<Tag>)
    ensures debouncedTerm == "" ==> r == []
    ensures debouncedTerm != "" ==>
      forall t :: t in r <==> t in dataset && StartsWith(t.name, debouncedTerm)
    ensures IsSubsequence(r, dataset)
  {
    if debouncedTerm == "" then []
    else
      SearchIsSubsequence(dataset, debouncedTerm);
      SearchTags(dataset, debouncedTerm)
  }

  /** The short-circuit matters: searching with the empty term would offer the whole dataset. */
  lemma EmptyTermSkipsSearch(dataset: seq<Tag>)
    requires dataset != []
    ensures SuggestionsFor(dataset, "") == [] != SearchTags(dataset, "")
  {
    SearchEmptyTermIsDataset(dataset);
  }

  /** The cursor points at an existing option. */
  predicate CursorInRange(cursor: Option<int>, len: int) {
    cursor.Some? && 0 <= cursor.value < len
  }

  /** The cursor is "none" or points at an existing option. */
  predicate CursorValid(cursor: Option<int>, len: int) {
    cursor.None? || CursorInRange(cursor, len)
  }

  /** `aria-selected` of option `idx`: the option is the one the cursor holds. */
  predicate IsSelected(idx: int, cursor: Option<int>) {
    cursor == Some(idx)
  }

  /** At most one option is selected. */
  lemma AtMostOneSelected(cursor: Option<int>, i: int, j: int)
    requires IsSelected(i, cursor) && IsSelected(j, cursor)
    ensures i == j
  {
  }

  /** Some rendered option is selected exactly when the cursor is in range; a null
      or out-of-range cursor selects nothing. */
  lemma SomeOptionSelectedIffInRange(suggestedTags: seq<Tag>, cursor: Option<int>)
    ensures (exists i :: 0 <= i < |suggestedTags| && IsSelected(i, cursor))
            <==> CursorInRange(cursor, |suggestedTags|)
  {
    if CursorInRange(cursor, |suggestedTags|) {
      assert IsSelected(cursor.value, cursor);
    }
  }

  /** The `display` class of the list (and `aria-expanded` of the input): shown exactly
      when there is something to show. */
  function IsDisplayed(suggestedTags: seq<Tag>): (r: bool)
    ensures r <==> exists t :: t in suggestedTags
  {
    assert suggestedTags != [] ==> suggestedTags[0] in suggestedTags;
    |suggestedTags| != 0
  }

  /** `handleOnClick`: option `idx` is rendered with `data-idx={idx}`, the click reads
      it back with `Number(...)` and hands that entry of the list to `onSelect`. */
  function ClickedTag(suggestedTags: seq<Tag>, idx: nat): (r: Tag)
    requires idx < |suggestedTags|
    ensures r == suggestedTags[idx]
  {
    DecimalRoundTrip(idx);
    suggestedTags[ParseDecimal(Decimal(idx))]
  }
}
