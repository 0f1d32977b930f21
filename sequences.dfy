/** The JavaScript array built-ins the control relies on, over Dafny sequences. */
module Sequences {
  import opened Types

  /** `Array.prototype.at`: a negative index counts back from the end. */
  function At<T>(s: seq<T>, idx: int): (r: Option<T>)
    ensures r.Some? <==> -|s| <= idx < |s|
    ensures 0 <= idx < |s| ==> r == Some(s[idx])
    ensures -|s| <= idx < 0 ==> r == Some(s[|s| + idx])
  {
    if 0 <= idx < |s| then Some(s[idx])
    else if -|s| <= idx < 0 then Some(s[|s| + idx])
    else None
  }

  /** A negative index and the non-negative index it stands for reach the same element. */
  lemma AtNegativeIsFromEnd<T>(s: seq<T>, idx: int)
    requires 0 <= idx < |s|
    ensures At(s, idx - |s|) == At(s, idx) == Some(s[idx])
  {
  }

  /** `s.slice(0, -1)`: everything but the last element (nothing of an empty array). */
  function DropLast<T>(s: seq<T>): (r: seq<T>)
    ensures |s| > 0 ==> |r| == |s| - 1 && r + [s[|s| - 1]] == s
    ensures |s| == 0 ==> r == []
  {
    if |s| == 0 then [] else s[..|s| - 1]
  }

  /** Dropping the last element undoes appending one. */
  lemma DropLastUndoesAppend<T>(s: seq<T>, x: T)
    ensures DropLast(s + [x]) == s
  {
    assert (s + [x])[..|s|] == s;
  }

  /** `s.filter((_, i) => i !== idx)`: keep every element whose position is not `idx`. */
  function RemoveAt<T>(s: seq<T>, idx: int): (r: seq<T>)
    ensures 0 <= idx < |s| ==> r == s[..idx] + s[idx + 1..]
    ensures !(0 <= idx < |s|) ==> r == s
    decreases |s|
  {
    if |s| == 0 then []
    else (if idx == 0 then [] else [s[0]]) + RemoveAt(s[1..], idx - 1)
  }

  /** After the removal, the elements from `idx` on have moved one place to the front. */
  lemma RemoveAtShifts<T>(s: seq<T>, idx: int, i: int)
    requires 0 <= idx < |s| && 0 <= i < |s| - 1
    ensures |RemoveAt(s, idx)| == |s| - 1
    ensures RemoveAt(s, idx)[i] == s[if i < idx then i else i + 1]
  {
    var r := RemoveAt(s, idx);
    if i < idx {
      assert r[i] == s[..idx][i];
    } else {
      assert r[i] == s[idx + 1..][i - idx];
    }
  }

  /** `a` is `b` with some elements left out, the rest in the same order. */
  predicate IsSubsequence<T(==)>(a: seq<T>, b: seq<T>)
    decreases |b|
  {
    a == [] ||
    (b != [] &&
     ((a[0] == b[0] && IsSubsequence(a[1..], b[1..])) || IsSubsequence(a, b[1..])))
  }

  lemma {:induction false} SubsequenceIsShorter<T>(a: seq<T>, b: seq<T>)
    requires IsSubsequence(a, b)
    ensures |a| <= |b|
    decreases |b|
  {
    if a != [] {
      if a[0] == b[0] && IsSubsequence(a[1..], b[1..]) {
        SubsequenceIsShorter(a[1..], b[1..]);
      } else {
        SubsequenceIsShorter(a, b[1..]);
      }
    }
  }

  /** Every element of a subsequence occurs in the sequence it was taken from. */
  lemma {:induction false} SubsequenceElements<T>(a: seq<T>, b: seq<T>)
    requires IsSubsequence(a, b)
    ensures forall x :: x in a ==> x in b
    decreases |b|
  {
    if a != [] {
      if a[0] == b[0] && IsSubsequence(a[1..], b[1..]) {
        SubsequenceElements(a[1..], b[1..]);
        assert forall x :: x in a ==> x == a[0] || x in a[1..];
      } else {
        SubsequenceElements(a, b[1..]);
      }
    }
  }

  lemma {:induction false} SubsequenceReflexive<T>(s: seq<T>)
    ensures IsSubsequence(s, s)
    decreases |s|
  {
    if s != [] {
      SubsequenceReflexive(s[1..]);
    }
  }

  /** Removing one element leaves a subsequence one shorter. */
  lemma {:induction false} RemoveAtIsSubsequence<T>(s: seq<T>, idx: int)
    ensures IsSubsequence(RemoveAt(s, idx), s)
    decreases |s|
  {
    if |s| > 0 {
      RemoveAtIsSubsequence(s[1..], idx - 1);
      var rest := RemoveAt(s[1..], idx - 1);
      if idx == 0 {
        assert RemoveAt(s, idx) == rest;
        assert IsSubsequence(RemoveAt(s, idx), s);
      } else {
        assert RemoveAt(s, idx) == [s[0]] + rest;
        assert ([s[0]] + rest)[1..] == rest;
      }
    } else {
      SubsequenceReflexive(s);
    }
  }
}
