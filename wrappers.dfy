/** Optional values, and the `.filter(Boolean)` that the playgrounds run over
    lists of objects in which a dropped entry is `null`. */
module Wrappers {

  datatype Option<+T> = None | Some(value: T)

  /** Keeps the present values, in order: `.filter(Boolean)` over a list of
      objects and nulls (an object is always truthy). */
  function Somes<T(!new)>(xs: seq<Option<T>>): (r: seq<T>)
    ensures |r| <= |xs|
    ensures forall x :: x in r <==> Some(x) in xs
  {
    if |xs| == 0 then []
    else
      var rest := Somes(xs[1..]);
      assert forall x :: Some(x) in xs <==> xs[0] == Some(x) || Some(x) in xs[1..];
      match xs[0]
      case Some(x) => [x] + rest
      case None => rest
  }

  lemma {:induction false} SomesAppend<T(!new)>(a: seq<Option<T>>, b: seq<Option<T>>)
    ensures Somes(a + b) == Somes(a) + Somes(b)
  {
    if |a| == 0 {
      assert a + b == b;
    } else {
      assert (a + b)[1..] == a[1..] + b;
      SomesAppend(a[1..], b);
    }
  }

  /** With nothing dropped, `.filter(Boolean)` keeps every element in place. */
  lemma {:induction false} SomesAllPresent<T(!new)>(xs: seq<Option<T>>)
    requires forall i :: 0 <= i < |xs| ==> xs[i].Some?
    ensures |Somes(xs)| == |xs|
    ensures forall i :: 0 <= i < |xs| ==> Somes(xs)[i] == xs[i].value
  {
    if |xs| > 0 {
      SomesAllPresent(xs[1..]);
    }
  }
}
