/** Order-preserving selection: which positions of a list were kept, in their original order. */
module Selection {

  /** out lists the elements at positions f, f is increasing and lists exactly the chosen ones. */
  ghost predicate SelectsAt<T>(xs: seq<T>, chosen: set<nat>, out: seq<T>, f: seq<nat>) {
    && |f| == |out|
    && (forall k, l :: 0 <= k < l < |f| ==> f[k] < f[l])
    && (forall k :: 0 <= k < |f| ==> f[k] < |xs| && f[k] in chosen && out[k] == xs[f[k]])
    && (forall i :: i in chosen ==> i in f)
  }

  ghost predicate Selects<T>(xs: seq<T>, chosen: set<nat>, out: seq<T>) {
    exists f :: SelectsAt(xs, chosen, out, f)
  }

  lemma SelectsSnoc<T>(xs: seq<T>, chosen: set<nat>, out: seq<T>, f: seq<nat>, n: nat)
    requires SelectsAt(xs, chosen, out, f)
    requires n < |xs| && forall i :: i in chosen ==> i < n
    ensures SelectsAt(xs, chosen + {n}, out + [xs[n]], f + [n])
  {
    var g := f + [n];
    forall i | i in chosen + {n} ensures i in g {
      if i in chosen { assert i in f; } else { assert g[|f|] == n; }
    }
  }

  /** A projection, element by element. */
  ghost function Each<T, U>(xs: seq<T>, part: T -> U): (r: seq<U>)
    ensures |r| == |xs| && forall k :: 0 <= k < |r| ==> r[k] == part(xs[k])
  {
    seq(|xs|, k requires 0 <= k < |xs| => part(xs[k]))
  }

  lemma LastIsLargest<T>(xs: seq<T>, chosen: set<nat>, out: seq<T>, f: seq<nat>, i: nat)
    requires SelectsAt(xs, chosen, out, f) && i in chosen
    ensures |f| > 0 && i <= f[|f| - 1]
  {
    var k :| 0 <= k < |f| && f[k] == i;
  }

  /** The chosen positions determine the output. */
  lemma {:induction false} SelectsUnique<T>(xs: seq<T>, chosen: set<nat>, out: seq<T>, f: seq<nat>,
                                           out': seq<T>, f': seq<nat>)
    requires SelectsAt(xs, chosen, out, f) && SelectsAt(xs, chosen, out', f')
    ensures out == out' && f == f'
    decreases |f|
  {
    if |f| > 0 {
      LastIsLargest(xs, chosen, out', f', f[|f| - 1]);
      var last := f'[|f'| - 1];
      LastIsLargest(xs, chosen, out, f, last);
      assert f[|f| - 1] == last;
      SelectsInit(xs, chosen, out, f);
      SelectsInit(xs, chosen, out', f');
      SelectsUnique(xs, chosen - {last}, out[..|out| - 1], f[..|f| - 1], out'[..|out'| - 1], f'[..|f'| - 1]);
      assert f == f[..|f| - 1] + [last] && f' == f'[..|f'| - 1] + [last];
      assert out == out[..|out| - 1] + [xs[last]] && out' == out'[..|out'| - 1] + [xs[last]];
    } else if |f'| > 0 {
      LastIsLargest(xs, chosen, out, f, f'[0]);
    }
  }

  lemma SelectsInit<T>(xs: seq<T>, chosen: set<nat>, out: seq<T>, f: seq<nat>)
    requires SelectsAt(xs, chosen, out, f) && |f| > 0
    ensures SelectsAt(xs, chosen - {f[|f| - 1]}, out[..|out| - 1], f[..|f| - 1])
  {
    var init := f[..|f| - 1];
    forall i | i in chosen - {f[|f| - 1]} ensures i in init {
      var k :| 0 <= k < |f| && f[k] == i;
      assert init[k] == i;
    }
  }
}
