/** The string operations the usage snippets are built from: JavaScript's
    `Array.prototype.join`, `.filter(Boolean)` over a list of `false` and
    strings, and the decimal text of an integer. */
module Text {
  import opened Wrappers

  /** `xs.join(sep)`. */
  function Join(sep: string, xs: seq<string>): string
  {
    if |xs| == 0 then ""
    else if |xs| == 1 then xs[0]
    else xs[0] + sep + Join(sep, xs[1..])
  }

  lemma JoinOne(sep: string, x: string)
    ensures Join(sep, [x]) == x
  {
  }

  lemma JoinTwo(sep: string, x: string, y: string)
    ensures Join(sep, [x, y]) == x + sep + y
  {
    assert [x, y][1..] == [y];
  }

  /** Every element preceded by `sep`: a reference definition of a joined
      list that starts on a fresh separator. */
  function Lines(sep: string, xs: seq<string>): string
  {
    if |xs| == 0 then "" else sep + xs[0] + Lines(sep, xs[1..])
  }

  /** Putting one separator in front of a joined non-empty list gives every
      element on its own separator-prefixed line. */
  lemma {:induction false} JoinAsLines(sep: string, xs: seq<string>)
    requires |xs| > 0
    ensures sep + Join(sep, xs) == Lines(sep, xs)
  {
    if |xs| == 1 {
      assert Lines(sep, xs[1..]) == "";
    } else {
      JoinAsLines(sep, xs[1..]);
    }
  }

  /** `.filter(Boolean)` over a list whose elements are `false` (None) or a
      string: `false` and the empty string are falsy and dropped. */
  function Compact(xs: seq<Option<string>>): (r: seq<string>)
    ensures |r| <= |xs|
    ensures forall s :: s in r <==> Some(s) in xs && s != ""
  {
    if |xs| == 0 then []
    else
      var rest := Compact(xs[1..]);
      assert forall s :: Some(s) in xs <==> xs[0] == Some(s) || Some(s) in xs[1..];
      match xs[0]
      case Some(s) => if s != "" then [s] + rest else rest
      case None => rest
  }

  lemma {:induction false} CompactAppend(a: seq<Option<string>>, b: seq<Option<string>>)
    ensures Compact(a + b) == Compact(a) + Compact(b)
  {
    if |a| == 0 {
      assert a + b == b;
    } else {
      assert (a + b)[1..] == a[1..] + b;
      CompactAppend(a[1..], b);
    }
  }

  /** A list holding only `false` filters to nothing. */
  lemma {:induction false} CompactNothing(xs: seq<Option<string>>)
    requires forall i :: 0 <= i < |xs| ==> xs[i].None?
    ensures Compact(xs) == []
  {
    if |xs| > 0 {
      CompactNothing(xs[1..]);
    }
  }

  function Digit(d: nat): char
    requires d < 10
  {
    "0123456789"[d]
  }

  function NatToString(n: nat): (r: string)
    ensures |r| > 0
    ensures forall i :: 0 <= i < |r| ==> '0' <= r[i] <= '9'
  {
    if n < 10 then [Digit(n)] else NatToString(n / 10) + [Digit(n % 10)]
  }

  /** `${n}` for an integral number. */
  function IntToString(n: int): string
  {
    if n < 0 then "-" + NatToString(-n) else NatToString(n)
  }
}
