/**
 * Module-name derivation of `loadSortedList` (apiload.py). The directory
 * listing is an input; every entry must end in `.json`, the suffix is
 * stripped, and the names are sorted in place.
 */
module ApiLoad {

  import opened Wrappers
  import opened Text

  const JsonSuffix: string := ".json"

  /** Why the listing was rejected: the exit at apiload.py:20 names the entry. */
  datatype LoadError = NonJsonFile(basename: string)

  predicate EndsWithJson(basename: string)
  {
    |basename| >= |JsonSuffix| && basename[|basename| - |JsonSuffix|..] == JsonSuffix
  }

  /** `getApiName`: the basename without its `.json` suffix, or the error for a non-json entry. */
  function GetApiName(basename: string): (r: Result<string, LoadError>)
    ensures r.Success? <==> EndsWithJson(basename)
    ensures r.Success? ==> r.value + JsonSuffix == basename
    ensures r.Failure? ==> r.error == NonJsonFile(basename)
  {
    if !EndsWithJson(basename) then Failure(NonJsonFile(basename))
    else Success(basename[..|basename| - |JsonSuffix|])
  }

  /** The stripped names of a listing whose entries all end in `.json`, in listing order. */
  function StripAll(listing: seq<string>): (names: seq<string>)
    requires forall i :: 0 <= i < |listing| ==> EndsWithJson(listing[i])
    ensures |names| == |listing|
    ensures forall i :: 0 <= i < |listing| ==> names[i] + JsonSuffix == listing[i]
  {
    if |listing| == 0 then []
    else StripAll(listing[..|listing| - 1]) + [GetApiName(listing[|listing| - 1]).value]
  }

  /** Every pair in order, not only neighbours. */
  predicate Sorted(s: seq<string>)
  {
    forall i, j :: 0 <= i < j < |s| ==> LessEq(s[i], s[j])
  }

  predicate AdjacentSorted(s: seq<string>)
  {
    forall i :: 0 < i < |s| ==> LessEq(s[i - 1], s[i])
  }

  lemma {:induction false} AdjacentSortedIsSorted(s: seq<string>)
    requires AdjacentSorted(s)
    ensures Sorted(s)
  {
    if |s| > 1 {
      var init := s[..|s| - 1];
      assert AdjacentSorted(init);
      AdjacentSortedIsSorted(init);
      forall i | 0 <= i < |s| - 1
        ensures LessEq(s[i], s[|s| - 1])
      {
        assert LessEq(init[i], init[|init| - 1]) || i == |init| - 1;
        LessEqTransitive(s[i], s[|s| - 2], s[|s| - 1]);
      }
    }
  }

  /** `apis.sort()`: an ascending insertion sort of the array, in place. */
  method SortInPlace(a: array<string>)
    modifies a
    ensures Sorted(a[..])
    ensures multiset(a[..]) == old(multiset(a[..]))
  {
    var i := 0;
    while i < a.Length
      invariant 0 <= i <= a.Length
      invariant AdjacentSorted(a[..i])
      invariant multiset(a[..]) == old(multiset(a[..]))
    {
      InsertBackward(a, i);
      i := i + 1;
    }
    assert a[..] == a[..i];
    AdjacentSortedIsSorted(a[..]);
  }

  /** One insertion step: moves `a[i]` down into the sorted prefix `a[..i]`. */
  method InsertBackward(a: array<string>, i: nat)
    requires i < a.Length && AdjacentSorted(a[..i])
    modifies a
    ensures AdjacentSorted(a[..i + 1])
    ensures multiset(a[..]) == old(multiset(a[..]))
  {
    var j := i;
    while j > 0 && Less(a[j], a[j - 1])
      invariant 0 <= j <= i
      invariant forall k :: 0 < k <= i && k != j ==> LessEq(a[k - 1], a[k])
      invariant 0 < j < i ==> LessEq(a[j - 1], a[j + 1])
      invariant multiset(a[..]) == old(multiset(a[..]))
    {
      SwapDown(a, j);
      j := j - 1;
    }
    if j > 0 {
      LessTrichotomy(a[j], a[j - 1]);
    }
  }

  /** Exchanges `a[j - 1]` and `a[j]`. */
  method SwapDown(a: array<string>, j: nat)
    requires 0 < j < a.Length
    modifies a
    ensures a[..] == old(a[..])[j - 1 := old(a[j])][j := old(a[j - 1])]
    ensures multiset(a[..]) == old(multiset(a[..]))
  {
    a[j - 1], a[j] := a[j], a[j - 1];
  }

  /** Position of the first entry that is not a `.json` file. */
  function FirstNonJson(listing: seq<string>): (k: nat)
    requires exists i :: 0 <= i < |listing| && !EndsWithJson(listing[i])
    ensures k < |listing| && !EndsWithJson(listing[k])
    ensures forall i :: 0 <= i < k ==> EndsWithJson(listing[i])
  {
    if !EndsWithJson(listing[0]) then 0 else 1 + FirstNonJson(listing[1..])
  }

  /**
   * `loadSortedList` after the listing: strip every basename in listing order,
   * aborting at the first non-json entry, then sort the names in place.
   */
  method LoadSortedList(listing: seq<string>) returns (r: Result<seq<string>, LoadError>)
    ensures r.Success? <==> forall i :: 0 <= i < |listing| ==> EndsWithJson(listing[i])
    ensures r.Failure? ==> r.error == NonJsonFile(listing[FirstNonJson(listing)])
    ensures r.Success? ==> Sorted(r.value)
    ensures r.Success? ==> multiset(r.value) == multiset(StripAll(listing))
  {
    var apis := new string[|listing|];
    var i := 0;
    while i < |listing|
      invariant 0 <= i <= |listing|
      invariant forall k :: 0 <= k < i ==> EndsWithJson(listing[k])
      invariant apis[..i] == StripAll(listing[..i])
    {
      var name := GetApiName(listing[i]);
      if name.Failure? {
        return Failure(name.error);
      }
      apis[i] := name.value;
      assert listing[..i + 1][..i] == listing[..i];
      assert apis[..i + 1] == apis[..i] + [name.value];
      i := i + 1;
    }
    assert listing[..i] == listing;
    ghost var names := apis[..];
    assert names == StripAll(listing) by {
      assert apis[..] == apis[..i];
    }
    SortInPlace(apis);
    var sorted := apis[..];
    assert multiset(sorted) == multiset(names);
    return Success(sorted);
  }

  /** Two sorted arrangements of the same names start with the same name. */
  lemma SortedHeadsAgree(s: seq<string>, t: seq<string>)
    requires Sorted(s) && Sorted(t) && multiset(s) == multiset(t) && |s| > 0
    ensures |t| > 0 && s[0] == t[0]
  {
    assert s[0] in multiset(t);
    var i :| 0 <= i < |t| && t[i] == s[0];
    assert t[0] in multiset(s);
    var j :| 0 <= j < |s| && s[j] == t[0];
    assert LessEq(s[0], t[0]) by {
      assert j == 0 || LessEq(s[0], s[j]);
    }
    assert LessEq(t[0], s[0]) by {
      assert i == 0 || LessEq(t[0], t[i]);
    }
    LessEqAntisymmetric(s[0], t[0]);
  }

  lemma SortedTail(s: seq<string>)
    requires |s| > 0 && Sorted(s)
    ensures Sorted(s[1..])
  {
    var tail := s[1..];
    forall i, j | 0 <= i < j < |tail| ensures LessEq(tail[i], tail[j]) {
      assert tail[i] == s[i + 1] && tail[j] == s[j + 1];
    }
  }

  lemma SameHeadSameTails(s: seq<string>, t: seq<string>)
    requires |s| > 0 && |t| > 0 && s[0] == t[0] && multiset(s) == multiset(t)
    ensures multiset(s[1..]) == multiset(t[1..])
  {
    var x := s[0];
    assert s == [x] + s[1..] && t == [x] + t[1..];
    assert multiset(s[1..]) == multiset(s) - multiset{x};
    assert multiset(t[1..]) == multiset(t) - multiset{x};
  }

  /** Two sorted arrangements of the same names are the same list: the order is fully determined. */
  lemma {:induction false} SortedPermutationUnique(s: seq<string>, t: seq<string>)
    requires Sorted(s) && Sorted(t) && multiset(s) == multiset(t)
    ensures s == t
  {
    if |s| == 0 {
      assert |t| == |multiset(t)| == 0;
    } else {
      SortedHeadsAgree(s, t);
      SameHeadSameTails(s, t);
      SortedTail(s);
      SortedTail(t);
      SortedPermutationUnique(s[1..], t[1..]);
      assert s == [s[0]] + s[1..] && t == [t[0]] + t[1..];
    }
  }

  /**
   * The collation is by code point: a listing of `B.json`, `a.json` and `C.json`
   * can only come back as `["B", "C", "a"]`.
   */
  lemma ListingExample(r: seq<string>)
    requires Sorted(r) && multiset(r) == multiset(StripAll(["B.json", "a.json", "C.json"]))
    ensures r == ["B", "C", "a"]
  {
    ExampleNames();
    assert Less("B", "C") && Less("C", "a");
    SortedOfThree(r, "B", "a", "C");
  }

  /** A sorted arrangement of `x, y, z` where `x < z < y` can only be `x, z, y`. */
  lemma SortedOfThree(r: seq<string>, x: string, y: string, z: string)
    requires Less(x, z) && Less(z, y)
    requires Sorted(r) && multiset(r) == multiset([x, y, z])
    ensures r == [x, z, y]
  {
    var expected := [x, z, y];
    LessTransitive(x, z, y);
    assert Sorted(expected);
    assert multiset(expected) == multiset([x, y, z]);
    SortedPermutationUnique(r, expected);
  }

  lemma ExampleNames()
    ensures StripAll(["B.json", "a.json", "C.json"]) == ["B", "a", "C"]
  {
    var r := StripAll(["B.json", "a.json", "C.json"]);
    OneLetterName(r[0], 'B');
    OneLetterName(r[1], 'a');
    OneLetterName(r[2], 'C');
  }

  /** The only name that gives a one-letter basename back is that letter. */
  lemma OneLetterName(name: string, c: char)
    requires name + JsonSuffix == [c] + JsonSuffix
    ensures name == [c]
  {
    assert |name| == 1;
    assert name[0] == (name + JsonSuffix)[0];
  }

  /** The basename `.json` alone is accepted and gives the empty module name. */
  lemma BareSuffixGivesEmptyName()
    ensures GetApiName(".json") == Success("")
  {
  }
}
