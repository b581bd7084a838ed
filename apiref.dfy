/**
 * `ApiRef` (apiref.py): the identity of a declaration, built from the name of
 * its API module and its own name. Equality, ordering, hashing and the text
 * form all come from the single string `api + ":" + name`.
 */
module ApiRefs {

  import opened Wrappers
  import opened Text

  datatype ApiRef = ApiRef(api: string, name: string)
  {
    /** The `combined` key that `__init__` stores: the API name, a colon, the declaration name. */
    function Combined(): (s: string)
      ensures |s| == |api| + 1 + |name|
      ensures s[..|api|] == api && s[|api|] == ':' && s[|api| + 1..] == name
    {
      api + ":" + name
    }

    /** `__eq__`: the combined keys are the same string. */
    predicate Eq(other: ApiRef)
      ensures this == other ==> Eq(other)
      ensures Eq(other) && api == other.api ==> name == other.name
    {
      Combined() == other.Combined()
    }

    /** `__lt__`: string `<` on the combined keys. */
    predicate Lt(other: ApiRef)
      ensures Lt(other) ==> !Eq(other)
      ensures api == other.api ==> (Lt(other) <==> Less(name, other.name))
    {
      assert Combined() == (api + ":") + name && other.Combined() == (other.api + ":") + other.name;
      LessCommonPrefix(api + ":", name, other.name);
      Less(Combined(), other.Combined())
    }

    /** `__ge__`: string `>=` on the combined keys, the complement of `__lt__`. */
    predicate Ge(other: ApiRef)
      ensures Ge(other) <==> !Lt(other)
    {
      AtLeast(Combined(), other.Combined())
    }

    /**
     * `__hash__`: the hash of the combined key, which is also the hash of the
     * text form. Python salts string hashes per process, so the string hash is
     * a parameter.
     */
    function Hash(strHash: string -> int): (h: int)
      ensures h == strHash(Str())
    {
      strHash(Combined())
    }

    /**
     * `__str__` and `__repr__` both return the combined key. It reads back
     * whenever the API part has no colon (the declaration name may contain colons).
     */
    function Str(): (s: string)
      ensures ':' !in api ==> SplitKey(s) == Some(this)
    {
      var s := Combined();
      assert s[|api|] == ':';
      assert ':' !in api ==> FirstColon(s) == Some(|api|);
      s
    }
  }

  /** Position of the first colon in `s`, if any. */
  function FirstColon(s: string): (r: Option<nat>)
    ensures r.Some? ==> r.value < |s| && s[r.value] == ':' && ':' !in s[..r.value]
    ensures r.None? ==> ':' !in s
  {
    if |s| == 0 then None
    else if s[0] == ':' then Some(0)
    else match FirstColon(s[1..])
      case None => None
      case Some(k) => Some(k + 1)
  }

  /** Splits a combined key back into its two parts, at the first colon. */
  function SplitKey(s: string): Option<ApiRef>
  {
    match FirstColon(s)
    case None => None
    case Some(k) => Some(ApiRef(s[..k], s[k + 1..]))
  }

  /**
   * With colon-free API parts, two refs are equal exactly when both parts are
   * equal: the combined key is then an unambiguous identity.
   */
  lemma EqIffSameParts(a: ApiRef, b: ApiRef)
    requires ':' !in a.api && ':' !in b.api
    ensures a.Eq(b) <==> a == b
  {
    if a.Eq(b) {
      assert SplitKey(a.Str()) == Some(a) && SplitKey(b.Str()) == Some(b);
    }
  }

  /**
   * Nothing rejects a colon inside a part, so two different refs can share a key:
   * `("a:b", "c")` and `("a", "b:c")` compare equal and hash alike.
   */
  lemma ColonMakesKeysAmbiguous(strHash: string -> int)
    ensures ApiRef("a:b", "c").Eq(ApiRef("a", "b:c"))
    ensures ApiRef("a:b", "c") != ApiRef("a", "b:c")
    ensures ApiRef("a:b", "c").Hash(strHash) == ApiRef("a", "b:c").Hash(strHash)
  {
    assert ApiRef("a:b", "c").Combined() == "a:b:c";
    assert ApiRef("a", "b:c").Combined() == "a:b:c";
  }

  /** Equal refs hash equally, whatever the (salted) string hash is. */
  lemma HashConsistent(a: ApiRef, b: ApiRef, strHash: string -> int)
    requires a.Eq(b)
    ensures a.Hash(strHash) == b.Hash(strHash)
  {
  }

  /** `<` is a strict total order on refs, up to `Eq`. */
  lemma LtStrictTotalOrder(a: ApiRef, b: ApiRef, c: ApiRef)
    ensures !a.Lt(a)
    ensures a.Lt(b) && b.Lt(c) ==> a.Lt(c)
    ensures a.Lt(b) || a.Eq(b) || b.Lt(a)
    ensures !(a.Lt(b) && b.Lt(a))
  {
    LessTrichotomy(a.Combined(), b.Combined());
    if a.Lt(b) && b.Lt(c) {
      LessTransitive(a.Combined(), b.Combined(), c.Combined());
    }
  }

  /**
   * The order is that of the combined string, not of the pair: API `a-b` sorts
   * before API `a`, because `-` sorts before `:`.
   */
  lemma LtIsNotPairOrder()
    ensures Less("a", "a-b")
    ensures ApiRef("a-b", "y").Lt(ApiRef("a", "x"))
  {
    assert ApiRef("a-b", "y").Combined() == "a-b:y";
    assert ApiRef("a", "x").Combined() == "a:x";
    assert Less("-b:y", ":x");
  }

  /** A ref equals itself, sorts before a ref whose name is larger, and differs from one with a longer name. */
  lemma IdentityExamples()
    ensures ApiRef("Foo", "Bar").Eq(ApiRef("Foo", "Bar"))
    ensures ApiRef("Foo", "Bar").Lt(ApiRef("Foo", "Baz"))
    ensures !ApiRef("Foo", "Bar").Eq(ApiRef("Foo", "Barx"))
  {
    assert ApiRef("Foo", "Bar").Lt(ApiRef("Foo", "Baz")) <==> Less("Bar", "Baz");
    assert Less("r", "z");
    assert Less("Bar", "Baz") by {
      assert "Bar"[1..] == "ar" && "Baz"[1..] == "az";
      assert "ar"[1..] == "r" && "az"[1..] == "z";
    }
    assert |ApiRef("Foo", "Bar").Combined()| != |ApiRef("Foo", "Barx").Combined()|;
  }
}
