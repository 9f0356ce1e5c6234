/** Header normalisation: a multi-valued header map, keyed by names as they
    were received, becomes a single-valued map keyed by lower-cased names. */
module Headers {
  import opened Text

  /** A header name and all the values received for it, in order. */
  type HeaderMap = map<string, seq<string>>

  /** `m` is a map that normalizeHeaders can return for `h`: every name with
      at least one value is present in lower case, and every entry of `m` is
      the first value of some such name. Which name wins when two of them
      lower-case alike is left open, because Go visits a map in no fixed order. */
  ghost predicate IsNormalizationOf(h: HeaderMap, m: map<string, string>)
  {
    && (forall k :: k in h && h[k] != [] ==> ToLower(k) in m)
    && (forall key :: key in m ==>
          exists k :: k in h && h[k] != [] && ToLower(k) == key && m[key] == h[k][0])
  }

  /** No two names that carry values lower-case to the same name. */
  ghost predicate NoCollisions(h: HeaderMap)
  {
    forall k1, k2 :: k1 in h && k2 in h && h[k1] != [] && h[k2] != [] && ToLower(k1) == ToLower(k2) ==> k1 == k2
  }

  /** normalizeHeaders: visit the names in an order of the map's choosing,
      skip those without values and store the first value under the
      lower-cased name, a later visit overwriting an earlier one. */
  method NormalizeHeaders(h: HeaderMap) returns (m: map<string, string>)
    ensures IsNormalizationOf(h, m)
  {
    m := map[];
    var rest := h.Keys;
    while rest != {}
      invariant rest <= h.Keys
      invariant forall k :: k in h && k !in rest && h[k] != [] ==> ToLower(k) in m
      invariant forall key :: key in m ==>
                  exists k :: k in h && h[k] != [] && ToLower(k) == key && m[key] == h[k][0]
      decreases rest
    {
      var k :| k in rest;
      rest := rest - {k};
      if h[k] == [] {
        continue;
      }
      m := m[ToLower(k) := h[k][0]];
    }
  }

  /** Without collisions, the value under a lower-cased name is the first
      value received under the original name. */
  lemma NormalizedFirstValue(h: HeaderMap, m: map<string, string>, k: string)
    requires IsNormalizationOf(h, m) && NoCollisions(h)
    requires k in h && h[k] != []
    ensures ToLower(k) in m && m[ToLower(k)] == h[k][0]
  {
    var k' :| k' in h && h[k'] != [] && ToLower(k') == ToLower(k) && m[ToLower(k)] == h[k'][0];
  }

  /** Without collisions the nondeterminism is invisible: there is one normalisation. */
  lemma NormalizationUnique(h: HeaderMap, m1: map<string, string>, m2: map<string, string>)
    requires IsNormalizationOf(h, m1) && IsNormalizationOf(h, m2) && NoCollisions(h)
    ensures m1 == m2
  {
    forall key | key in m1
      ensures key in m2 && m1[key] == m2[key]
    {
      var k :| k in h && h[k] != [] && ToLower(k) == key && m1[key] == h[k][0];
      NormalizedFirstValue(h, m2, k);
    }
    forall key | key in m2
      ensures key in m1
    {
      var k :| k in h && h[k] != [] && ToLower(k) == key && m2[key] == h[k][0];
    }
  }

  /** Every name in a normalised map is in lower case. */
  lemma NormalizedKeysLower(h: HeaderMap, m: map<string, string>, key: string)
    requires IsNormalizationOf(h, m) && key in m
    ensures IsLower(key)
  {
    var k :| k in h && h[k] != [] && ToLower(k) == key && m[key] == h[k][0];
  }

  /** A name whose value list is empty contributes nothing: its lower-cased
      name is absent unless some name carrying values lower-cases to it. */
  lemma EmptyListSkipped(h: HeaderMap, m: map<string, string>, k: string)
    requires IsNormalizationOf(h, m)
    requires k in h && h[k] == []
    requires forall k' :: k' in h && h[k'] != [] ==> ToLower(k') != ToLower(k)
    ensures ToLower(k) !in m
  {
  }

  /** Two names that lower-case alike, both without values, give an empty map. */
  lemma EmptyListsExample(m: map<string, string>)
    requires IsNormalizationOf(map["X-A" := [], "x-a" := []], m)
    ensures m == map[]
  {
    var h: HeaderMap := map["X-A" := [], "x-a" := []];
    assert forall k :: k in h ==> h[k] == [];
  }

  /** The multi-valued view of a single-valued map: each value alone in its list. */
  function Singletons(m: map<string, string>): (h: HeaderMap)
    ensures h.Keys == m.Keys
    ensures forall k :: k in h ==> h[k] == [m[k]]
  {
    map k | k in m :: [m[k]]
  }

  /** Normalising an already normalised map, seen as single-value lists, gives it back. */
  lemma NormalizeSingletons(m0: map<string, string>, m: map<string, string>)
    requires forall k :: k in m0 ==> IsLower(k)
    requires IsNormalizationOf(Singletons(m0), m)
    ensures m == m0
  {
    var h := Singletons(m0);
    forall key | key in m0
      ensures ToLower(key) == key && h[key] == [m0[key]]
    {
    }
    assert IsNormalizationOf(h, m0);
    assert NoCollisions(h);
    NormalizationUnique(h, m, m0);
  }

  /** A single name with values normalises to its lower-cased name and first value. */
  lemma NormalizeOneHeader(name: string, values: seq<string>, m: map<string, string>)
    requires values != []
    requires IsNormalizationOf(map[name := values], m)
    ensures m == map[ToLower(name) := values[0]]
  {
    var h := map[name := values];
    assert name in h && h[name] != [];
    forall key | key in m
      ensures key == ToLower(name) && m[key] == values[0]
    {
      var k :| k in h && h[k] != [] && ToLower(k) == key && m[key] == h[k][0];
    }
  }

  /** "X-Test" with values "a" and "b" normalises to "x-test" with "a". */
  lemma NormalizeExample(m: map<string, string>)
    requires IsNormalizationOf(map["X-Test" := ["a", "b"]], m)
    ensures m == map["x-test" := "a"]
  {
    NormalizeOneHeader("X-Test", ["a", "b"], m);
    assert ToLower("X-Test") == "x-test";
  }
}
