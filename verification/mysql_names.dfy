/** The identifier comparator and the name search that the row metadata relies on.

    The MySQL identifier rules themselves (case folding, quoted identifiers) are not part of
    this model. The comparator is any function obeying the `java.util.Comparator` contract,
    and the search is any function meeting the search contract below. A binary search under the
    comparator is proved to meet it. */
module MySqlNames {

  /** A three-way comparison: negative, zero or positive as the first name sorts before,
      together with, or after the second. */
  type Comparator = (string, string) -> int

  function Sign(x: int): int {
    if x < 0 then -1 else if x > 0 then 1 else 0
  }

  /** The contract of `java.util.Comparator.compare`. Each quantifier fires only on comparisons
      already present, so that it never generates new ones. */
  ghost predicate ComparatorContract(cmp: Comparator) {
    && (forall a, b {:trigger cmp(a, b), cmp(b, a)} :: Sign(cmp(a, b)) == -Sign(cmp(b, a)))
    && (forall a, b, c {:trigger cmp(a, b), cmp(b, c), cmp(a, c)} ::
          cmp(a, b) > 0 && cmp(b, c) > 0 ==> cmp(a, c) > 0)
    && (forall a, b, c {:trigger cmp(a, b), cmp(a, c), cmp(b, c)} ::
          cmp(a, b) == 0 ==> Sign(cmp(a, c)) == Sign(cmp(b, c)))
  }

  /** Names in non-decreasing order under the comparator. */
  ghost predicate Sorted(cmp: Comparator, names: seq<string>) {
    forall i, j :: 0 <= i < j < |names| ==> cmp(names[i], names[j]) <= 0
  }

  /** "Not after" is a total preorder: reflexive, total and transitive. */
  lemma NotAfterIsTotalPreorder(cmp: Comparator, a: string, b: string, c: string)
    requires ComparatorContract(cmp)
    ensures cmp(a, a) == 0
    ensures cmp(a, b) <= 0 || cmp(b, a) <= 0
    ensures cmp(a, b) <= 0 && cmp(b, c) <= 0 ==> cmp(a, c) <= 0
  {
    assert Sign(cmp(a, a)) == -Sign(cmp(a, a));
    if cmp(a, b) <= 0 && cmp(b, c) <= 0 {
      if cmp(a, b) == 0 {
        assert Sign(cmp(a, c)) == Sign(cmp(b, c));
      } else if cmp(b, c) == 0 {
        assert Sign(cmp(b, a)) == Sign(cmp(c, a));
      } else {
        assert cmp(c, b) > 0 && cmp(b, a) > 0;
      }
    }
  }

  /** A name strictly before one that is not after a third is strictly before the third,
      and symmetrically. */
  lemma StrictlyBefore(cmp: Comparator, a: string, b: string, c: string)
    requires ComparatorContract(cmp)
    ensures cmp(a, b) < 0 && cmp(b, c) <= 0 ==> cmp(a, c) < 0
    ensures cmp(a, b) <= 0 && cmp(b, c) < 0 ==> cmp(a, c) < 0
  {
    NotAfterIsTotalPreorder(cmp, a, b, c);
    if cmp(a, c) == 0 {
      assert Sign(cmp(a, b)) == Sign(cmp(c, b));
    }
  }

  /** Two names that compare equal are placed alike against every other name. */
  lemma EqualNamesCompareAlike(cmp: Comparator, a: string, b: string, n: string)
    requires ComparatorContract(cmp)
    requires cmp(a, b) == 0
    ensures Sign(cmp(n, a)) == Sign(cmp(n, b))
  {
    assert Sign(cmp(a, n)) == Sign(cmp(b, n));
  }

  /** A name search: given names sorted by the comparator and a query, an index or a negative
      value. */
  type NameSearcher = (seq<string>, string) -> int

  /** What a name search returns on `names`: an in-range index of a name comparing equal to the
      query, or a negative value exactly when no name compares equal. */
  ghost predicate SearchResult(cmp: Comparator, names: seq<string>, name: string, r: int) {
    && (r >= 0 ==> r < |names| && cmp(names[r], name) == 0)
    && (r < 0 <==> forall i :: 0 <= i < |names| ==> cmp(names[i], name) != 0)
  }

  /** The contract the row metadata relies on from `MySqlNames.nameSearch`: on every name-sorted
      sequence, the search gives such a result. */
  ghost predicate SearchContract(cmp: Comparator, search: NameSearcher) {
    forall names, name :: Sorted(cmp, names) ==> SearchResult(cmp, names, name, search(names, name))
  }

  /** Binary search for `name` among `names[lo..hi]`. An index it returns always holds a name
      comparing equal to the query; on sorted names under a lawful comparator it misses only
      when there is none. */
  function SearchRange(cmp: Comparator, names: seq<string>, name: string, lo: nat, hi: nat): (r: int)
    requires lo <= hi <= |names|
    ensures r == -1 || (lo <= r < hi && cmp(names[r], name) == 0)
    ensures ComparatorContract(cmp) && Sorted(cmp, names) ==>
              (r == -1 <==> forall i :: lo <= i < hi ==> cmp(names[i], name) != 0)
    decreases hi - lo
  {
    if lo == hi then -1
    else
      var mid := (lo + hi - 1) / 2;
      var c := cmp(names[mid], name);
      if c < 0 then
        assert ComparatorContract(cmp) && Sorted(cmp, names) ==>
                 forall i :: lo <= i <= mid ==> cmp(names[i], name) < 0 by {
          if ComparatorContract(cmp) && Sorted(cmp, names) {
            forall i | lo <= i <= mid ensures cmp(names[i], name) < 0 {
              StrictlyBefore(cmp, names[i], names[mid], name);
              NotAfterIsTotalPreorder(cmp, names[i], names[mid], name);
            }
          }
        }
        SearchRange(cmp, names, name, mid + 1, hi)
      else if c > 0 then
        assert ComparatorContract(cmp) && Sorted(cmp, names) ==>
                 forall i :: mid <= i < hi ==> cmp(names[i], name) > 0 by {
          if ComparatorContract(cmp) && Sorted(cmp, names) {
            forall i | mid <= i < hi ensures cmp(names[i], name) > 0 {
              StrictlyBefore(cmp, name, names[mid], names[i]);
              NotAfterIsTotalPreorder(cmp, name, names[mid], names[i]);
              assert Sign(cmp(name, names[i])) == -Sign(cmp(names[i], name));
              assert Sign(cmp(name, names[mid])) == -Sign(cmp(names[mid], name));
            }
          }
        }
        SearchRange(cmp, names, name, lo, mid)
      else
        mid
  }

  /** A binary search over the whole sequence, a witness that the search contract can be met. */
  function NameSearch(cmp: Comparator, names: seq<string>, name: string): (r: int)
    ensures r >= 0 ==> r < |names| && cmp(names[r], name) == 0
    ensures ComparatorContract(cmp) && Sorted(cmp, names) ==> SearchResult(cmp, names, name, r)
  {
    SearchRange(cmp, names, name, 0, |names|)
  }

  /** Under a lawful comparator, the binary search meets the search contract, so the contract
      can be met. */
  lemma BinarySearchMeetsContract(cmp: Comparator)
    requires ComparatorContract(cmp)
    ensures SearchContract(cmp, (names, name) => NameSearch(cmp, names, name))
  {
    var search: NameSearcher := (names, name) => NameSearch(cmp, names, name);
    forall names, name | Sorted(cmp, names)
      ensures SearchResult(cmp, names, name, search(names, name))
    {
      assert search(names, name) == NameSearch(cmp, names, name);
    }
  }
}
