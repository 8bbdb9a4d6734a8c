/** List helpers shared by the table code: distinctness and the order of
    first appearance that pandas' `unique()` returns. */
module Lists {

  predicate Distinct<T(==)>(s: seq<T>) {
    forall i, j :: 0 <= i < j < |s| ==> s[i] != s[j]
  }

  /** `pd.Series(s).unique()`: each value once, in order of first
      appearance. */
  function Unique<T(==)>(s: seq<T>): seq<T> {
    if s == [] then []
    else
      var u := Unique(s[..|s| - 1]);
      if s[|s| - 1] in u then u else u + [s[|s| - 1]]
  }

  lemma {:induction false} UniqueSpec<T>(s: seq<T>)
    ensures forall x :: x in Unique(s) <==> x in s
    ensures Distinct(Unique(s))
    ensures |Unique(s)| <= |s|
  {
    if s != [] {
      var init := s[..|s| - 1];
      UniqueSpec(init);
      assert s == init + [s[|s| - 1]];
    }
  }

  /** The first value stays first. */
  lemma UniqueHead<T>(s: seq<T>)
    requires s != []
    ensures Unique(s) != [] && Unique(s)[0] == s[0]
    decreases |s|
  {
    if |s| > 1 {
      var init := s[..|s| - 1];
      UniqueHead(init);
      assert init[0] == s[0];
    }
  }
}
