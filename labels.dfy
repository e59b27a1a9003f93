/** Labels: translation from the identifiers that label the rows and columns
    of a table to positions, and the order-preserving de-duplication that
    builds the user and item universes from a column of observations. */
module Labels {

  datatype Option<T> = None | Some(value: T)

  /** The position of the first occurrence of label `x` in `s`, or None when
      `x` is not a label of `s` (the lookup a label-indexed table performs). */
  function IndexOf(s: seq<int>, x: int): (r: Option<nat>)
    ensures r.None? <==> x !in s
    ensures r.Some? ==> r.value < |s| && s[r.value] == x
  {
    if s == [] then None
    else if s[0] == x then Some(0)
    else match IndexOf(s[1..], x)
      case None => None
      case Some(k) => Some(k + 1)
  }

  /** No occurrence of `x` precedes the one IndexOf finds. */
  lemma {:induction false} IndexOfFirst(s: seq<int>, x: int)
    requires x in s
    ensures x !in s[..IndexOf(s, x).value]
  {
    if s[0] != x {
      var k := IndexOf(s[1..], x).value;
      IndexOfFirst(s[1..], x);
      assert s[1..][..k] == s[1..k + 1];
      assert s[..k + 1] == [s[0]] + s[1..k + 1];
    }
  }

  /** The first position of a label that occurs in `s`. */
  function FirstIndex(s: seq<int>, x: int): nat
    requires x in s
  {
    IndexOf(s, x).value
  }

  /** Any position that holds `x` with no earlier `x` is the one IndexOf finds. */
  lemma IndexOfUnique(s: seq<int>, x: int, k: nat)
    requires k < |s| && s[k] == x && x !in s[..k]
    ensures IndexOf(s, x) == Some(k)
  {
    IndexOfFirst(s, x);
  }

  /** Appending labels does not move the first occurrence of one already present. */
  lemma IndexOfExtend(s: seq<int>, t: seq<int>, x: int)
    requires x in s
    ensures IndexOf(s + t, x) == IndexOf(s, x)
  {
    var k := IndexOf(s, x).value;
    IndexOfFirst(s, x);
    assert (s + t)[..k] == s[..k];
    IndexOfUnique(s + t, x, k);
  }

  /** The distinct labels of `s` in order of first appearance, as pandas'
      `Series.unique()` returns them. */
  function Unique(s: seq<int>): (r: seq<int>)
    ensures forall x :: x in r <==> x in s
  {
    if s == [] then []
    else
      var p := Unique(s[..|s| - 1]);
      if s[|s| - 1] in p then p else p + [s[|s| - 1]]
  }

  /** `Unique` keeps each label once, ordered by where it first appears in `s`. */
  lemma {:induction false} UniqueOrder(s: seq<int>)
    ensures forall i, j :: 0 <= i < j < |Unique(s)| ==> Unique(s)[i] != Unique(s)[j]
    ensures forall i, j :: 0 <= i < j < |Unique(s)| ==>
              FirstIndex(s, Unique(s)[i]) < FirstIndex(s, Unique(s)[j])
  {
    if s != [] {
      var init, last := s[..|s| - 1], s[|s| - 1];
      assert s == init + [last];
      UniqueOrder(init);
      forall y | y in init
        ensures FirstIndex(s, y) == FirstIndex(init, y) && FirstIndex(init, y) < |init|
      {
        IndexOfExtend(init, [last], y);
      }
      if last !in Unique(init) {
        IndexOfUnique(s, last, |init|);
      }
    }
  }
}
