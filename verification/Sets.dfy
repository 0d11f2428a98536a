/** Sizes of finite sets. */
module Sets {

  lemma {:induction false} CardinalityMonotone<T>(a: set<T>, b: set<T>)
    requires a <= b
    ensures |a| <= |b|
  {
    if a != {} {
      var x :| x in a;
      CardinalityMonotone(a - {x}, b - {x});
    }
  }

  lemma CardinalityStrict<T>(a: set<T>, b: set<T>)
    requires a < b
    ensures |a| < |b|
  {
    var x :| x in b && x !in a;
    CardinalityMonotone(a, b - {x});
  }

  /** The pairs of a member of `s` and a number below `n`. */
  function Grid(s: set<nat>, n: nat): set<(nat, nat)> {
    set q, i: nat | q in s && i < n :: (q, i)
  }

  lemma {:induction false} RowSize(q: nat, n: nat)
    ensures |Grid({q}, n)| == n
  {
    if n == 0 {
      assert Grid({q}, 0) == {};
    } else {
      RowSize(q, n - 1);
      assert Grid({q}, n) == Grid({q}, n - 1) + {(q, n - 1)};
    }
  }

  lemma GridSplits(s: set<nat>, q: nat, n: nat)
    requires q in s
    ensures Grid(s, n) == Grid(s - {q}, n) + Grid({q}, n)
    ensures Grid(s - {q}, n) !! Grid({q}, n)
  {
  }

  lemma {:induction false} GridSize(s: set<nat>, n: nat)
    ensures |Grid(s, n)| == |s| * n
  {
    if s == {} {
      assert Grid(s, n) == {};
    } else {
      var q :| q in s;
      GridSize(s - {q}, n);
      RowSize(q, n);
      GridSplits(s, q, n);
      calc {
        |s| * n;
        (|s - {q}| + 1) * n;
        |s - {q}| * n + n;
      }
    }
  }

  /** The numbers below `n`. */
  function Below(n: nat): (s: set<nat>)
    ensures |s| == n && forall q: nat :: q in s <==> q < n
  {
    if n == 0 then {} else Below(n - 1) + {n - 1}
  }
}
