/** `searchTags`: the prefix filter over the tag dataset. The dataset is a parameter. */
module TagSearch {
  import opened Types
  import opened Sequences
  import opened Strings

  /** The dataset tags whose name starts with `term`, in dataset order. */
  function SearchTags(dataset: seq<Tag>, term: string): (r: seq<Tag>)
    ensures forall t :: t in r ==> t in dataset && StartsWith(t.name, term)
    ensures forall t :: t in dataset && StartsWith(t.name, term) ==> t in r
    ensures |r| <= |dataset|
  {
    if dataset == [] then []
    else (if StartsWith(dataset[0].name, term) then [dataset[0]] else [])
         + SearchTags(dataset[1..], term)
  }

  /** The matches keep dataset order: the result is a subsequence of the dataset. */
  lemma {:induction false} SearchIsSubsequence(dataset: seq<Tag>, term: string)
    ensures IsSubsequence(SearchTags(dataset, term), dataset)
  {
    if dataset != [] {
      var rest := SearchTags(dataset[1..], term);
      SearchIsSubsequence(dataset[1..], term);
      if StartsWith(dataset[0].name, term) {
        assert SearchTags(dataset, term) == [dataset[0]] + rest;
        assert ([dataset[0]] + rest)[1..] == rest;
      } else {
        assert SearchTags(dataset, term) == rest;
      }
    }
  }

  /** `startsWith("")` always holds, so the empty term returns the whole dataset. */
  lemma {:induction false} SearchEmptyTermIsDataset(dataset: seq<Tag>)
    ensures SearchTags(dataset, "") == dataset
  {
    if dataset != [] {
      SearchEmptyTermIsDataset(dataset[1..]);
      StartsWithEmpty(dataset[0].name);
      assert [dataset[0]] + dataset[1..] == dataset;
    }
  }

  /** Extending the term can only drop matches: the longer term's result is a
      subsequence of the shorter term's. */
  lemma {:induction false} SearchNarrowsWithLongerTerm(dataset: seq<Tag>, shorter: string, longer: string)
    requires StartsWith(longer, shorter)
    ensures IsSubsequence(SearchTags(dataset, longer), SearchTags(dataset, shorter))
  {
    if dataset != [] {
      var x := dataset[0];
      var a := SearchTags(dataset[1..], longer);
      var b := SearchTags(dataset[1..], shorter);
      SearchNarrowsWithLongerTerm(dataset[1..], shorter, longer);
      if StartsWith(x.name, longer) {
        StartsWithTransitive(x.name, longer, shorter);
        assert SearchTags(dataset, longer) == [x] + a;
        assert SearchTags(dataset, shorter) == [x] + b;
        assert ([x] + a)[1..] == a && ([x] + b)[1..] == b;
      } else if StartsWith(x.name, shorter) {
        assert SearchTags(dataset, longer) == a;
        assert SearchTags(dataset, shorter) == [x] + b;
        assert ([x] + b)[1..] == b;
        if a != [] {
          assert IsSubsequence(a, ([x] + b)[1..]);
        }
      } else {
        assert SearchTags(dataset, longer) == a;
        assert SearchTags(dataset, shorter) == b;
      }
    }
  }
}
