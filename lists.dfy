/** The "for each result: normalise it, append it if it passes a test"
    pattern both scan loops follow, as a function on sequences. */
module Lists {

  /** The elements of `xs` that satisfy `keep`, each transformed by `f`, in order. */
  function FilterMap<A, B>(xs: seq<A>, keep: A -> bool, f: A -> B): (r: seq<B>)
    ensures |r| <= |xs|
  {
    if xs == [] then []
    else FilterMap(xs[..|xs| - 1], keep, f) + (if keep(xs[|xs| - 1]) then [f(xs[|xs| - 1])] else [])
  }

  /** `y` is in the result exactly when some kept element is transformed into it. */
  lemma {:induction false} FilterMapMembership<A, B>(xs: seq<A>, keep: A -> bool, f: A -> B, y: B)
    ensures y in FilterMap(xs, keep, f) <==> exists x :: x in xs && keep(x) && f(x) == y
  {
    if xs != [] {
      var init, last := xs[..|xs| - 1], xs[|xs| - 1];
      assert xs == init + [last];
      FilterMapMembership(init, keep, f, y);
      if y in FilterMap(xs, keep, f) {
        if y in FilterMap(init, keep, f) {
          var x :| x in init && keep(x) && f(x) == y;
          assert x in xs;
        } else {
          assert keep(last) && f(last) == y;
        }
      }
      if exists x :: x in xs && keep(x) && f(x) == y {
        var x :| x in xs && keep(x) && f(x) == y;
        if x in init {
          assert y in FilterMap(init, keep, f);
        } else {
          assert x == last;
        }
      }
    }
  }

  /** One more element: the result grows by that element's image exactly when it is kept. */
  lemma FilterMapSnoc<A, B>(xs: seq<A>, x: A, keep: A -> bool, f: A -> B)
    ensures FilterMap(xs + [x], keep, f) == FilterMap(xs, keep, f) + (if keep(x) then [f(x)] else [])
  {
    assert (xs + [x])[..|xs|] == xs;
  }

  /** Filtering a concatenation is concatenating the filtered parts. */
  lemma {:induction false} FilterMapAppend<A, B>(xs: seq<A>, ys: seq<A>, keep: A -> bool, f: A -> B)
    ensures FilterMap(xs + ys, keep, f) == FilterMap(xs, keep, f) + FilterMap(ys, keep, f)
  {
    if ys == [] {
      assert xs + ys == xs;
    } else {
      var init, last := ys[..|ys| - 1], ys[|ys| - 1];
      assert (xs + ys)[..|xs + ys| - 1] == xs + init;
      assert (xs + ys)[|xs + ys| - 1] == last;
      FilterMapAppend(xs, init, keep, f);
    }
  }
}
