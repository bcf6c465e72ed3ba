/** The counted `for` loop that appends placements, as every generator writes it, and the
    facts about it that the generators' properties rest on. */
module Loops {
  import opened Blocks

  /** `for (int i = lo; i < hi; i++) plan.addAll(body(i));` — nothing when `hi <= lo`. */
  function Loop(lo: int, hi: int, body: int -> seq<Placement>): (r: seq<Placement>)
    ensures hi <= lo ==> r == []
    decreases hi - lo
  {
    if lo >= hi then [] else body(lo) + Loop(lo + 1, hi, body)
  }

  /** How many times the loop body runs. */
  function Trips(lo: int, hi: int): (n: nat)
    ensures lo <= hi ==> n == hi - lo
    ensures hi <= lo ==> n == 0
  {
    if lo < hi then hi - lo else 0
  }

  /** Every element of `s` satisfies `P`. */
  predicate All(s: seq<Placement>, P: Placement -> bool) {
    forall k :: 0 <= k < |s| ==> P(s[k])
  }

  lemma AllAppend(a: seq<Placement>, b: seq<Placement>, P: Placement -> bool)
    ensures All(a + b, P) <==> All(a, P) && All(b, P)
  {
    if All(a, P) && All(b, P) {
      forall k | 0 <= k < |a + b| ensures P((a + b)[k]) {
        if k >= |a| {
          assert (a + b)[k] == b[k - |a|];
        }
      }
    }
    if All(a + b, P) {
      forall k | 0 <= k < |a| ensures P(a[k]) {
        assert (a + b)[k] == a[k];
      }
      forall k | 0 <= k < |b| ensures P(b[k]) {
        assert (a + b)[|a| + k] == b[k];
      }
    }
  }

  lemma MulDistributes(a: int, b: int, n: int)
    ensures (a + b) * n == a * n + b * n
  {
  }

  lemma MulMonotone(a: int, b: int, n: nat)
    requires a <= b
    ensures a * n <= b * n
  {
  }

  /** A body whose every run emits exactly `n` placements makes the loop emit `n` per trip. */
  lemma {:induction false} LoopLength(lo: int, hi: int, body: int -> seq<Placement>, n: nat)
    requires forall i :: lo <= i < hi ==> |body(i)| == n
    ensures |Loop(lo, hi, body)| == Trips(lo, hi) * n
    decreases hi - lo
  {
    if lo < hi {
      LoopLength(lo + 1, hi, body, n);
      assert Trips(lo, hi) == 1 + Trips(lo + 1, hi);
      assert Trips(lo, hi) * n == n + Trips(lo + 1, hi) * n by {
        MulDistributes(1, Trips(lo + 1, hi), n);
      }
    }
  }

  lemma SlotInside(t: int, trips: nat, n: nat, j: int)
    requires 0 <= t < trips && 0 <= j < n
    ensures t * n + j < trips * n
  {
    MulDistributes(t, 1, n);
    MulMonotone(t + 1, trips, n);
  }

  /** With fixed-size bodies, trip `i` occupies the `n` positions starting at `(i - lo) * n`,
      in the body's own order. */
  lemma {:induction false} LoopIndex(lo: int, hi: int, body: int -> seq<Placement>, n: nat, i: int, j: int)
    requires forall t :: lo <= t < hi ==> |body(t)| == n
    requires lo <= i < hi && 0 <= j < n
    ensures |Loop(lo, hi, body)| == Trips(lo, hi) * n
    ensures (i - lo) * n + j < |Loop(lo, hi, body)|
    ensures Loop(lo, hi, body)[(i - lo) * n + j] == body(i)[j]
    decreases hi - lo
  {
    LoopLength(lo, hi, body, n);
    SlotInside(i - lo, Trips(lo, hi), n, j);
    if i > lo {
      var rest := Loop(lo + 1, hi, body);
      var k := (i - (lo + 1)) * n + j;
      assert Loop(lo, hi, body)[(i - lo) * n + j] == rest[k] by {
        assert Loop(lo, hi, body) == body(lo) + rest;
        assert (i - lo) * n + j == n + k by {
          MulDistributes(1, i - (lo + 1), n);
        }
      }
      LoopIndex(lo + 1, hi, body, n, i, j);
    }
  }

  /** What a loop emits is exactly what some trip of its body emits. */
  lemma {:induction false} LoopMember(lo: int, hi: int, body: int -> seq<Placement>, p: Placement)
    ensures p in Loop(lo, hi, body) <==> exists i :: lo <= i < hi && p in body(i)
    decreases hi - lo
  {
    if lo < hi {
      LoopMember(lo + 1, hi, body, p);
      var rest := Loop(lo + 1, hi, body);
      assert Loop(lo, hi, body) == body(lo) + rest;
      assert p in body(lo) + rest <==> p in body(lo) || p in rest;
      if p in body(lo) {
        assert lo <= lo < hi && p in body(lo);
      }
      if exists i :: lo <= i < hi && p in body(i) {
        var i :| lo <= i < hi && p in body(i);
        assert i == lo || (lo + 1 <= i < hi && p in body(i));
      }
    }
  }

  /** A property every trip's output has, the whole loop's output has. */
  lemma {:induction false} LoopAll(lo: int, hi: int, body: int -> seq<Placement>, P: Placement -> bool)
    requires forall i :: lo <= i < hi ==> All(body(i), P)
    ensures All(Loop(lo, hi, body), P)
    decreases hi - lo
  {
    if lo < hi {
      LoopAll(lo + 1, hi, body, P);
      AllAppend(body(lo), Loop(lo + 1, hi, body), P);
    }
  }

  /** Congruence: loops whose bodies agree on every trip emit the same placements. */
  lemma {:induction false} LoopCongruent(lo: int, hi: int, f: int -> seq<Placement>, g: int -> seq<Placement>)
    requires forall i :: lo <= i < hi ==> f(i) == g(i)
    ensures Loop(lo, hi, f) == Loop(lo, hi, g)
    decreases hi - lo
  {
    if lo < hi {
      LoopCongruent(lo + 1, hi, f, g);
    }
  }

  // ---- Two nested loops with one placement per cell --------------------------------------

  /** `for (i = 0; i < a; i++) for (j = 0; j < b; j++) plan.add(cell(i, j));` */
  function Cells(a: int, b: int, cell: (int, int) -> Placement): seq<Placement> {
    Loop(0, a, CellRow(b, cell))
  }

  function CellRow(b: int, cell: (int, int) -> Placement): int -> seq<Placement> {
    i => Loop(0, b, CellOne(cell, i))
  }

  function CellOne(cell: (int, int) -> Placement, i: int): int -> seq<Placement> {
    j => [cell(i, j)]
  }

  lemma CellRowLength(b: int, cell: (int, int) -> Placement, i: int)
    ensures |CellRow(b, cell)(i)| == Trips(0, b)
  {
    LoopLength(0, b, CellOne(cell, i), 1);
  }

  /** One placement per cell, row by row: cell `(i, j)` is at position `i * b + j`. */
  lemma CellsIndex(a: int, b: int, cell: (int, int) -> Placement, i: int, j: int)
    requires 0 <= i < a && 0 <= j < b
    ensures |Cells(a, b, cell)| == a * b
    ensures i * b + j < |Cells(a, b, cell)|
    ensures Cells(a, b, cell)[i * b + j] == cell(i, j)
  {
    var rows := CellRow(b, cell);
    assert forall t :: 0 <= t < a ==> |rows(t)| == b by {
      forall t | 0 <= t < a ensures |rows(t)| == b {
        CellRowLength(b, cell, t);
      }
    }
    var k := i * b + j;
    assert |Loop(0, a, rows)| == a * b && k < |Loop(0, a, rows)| && Loop(0, a, rows)[k] == rows(i)[j] by {
      LoopIndex(0, a, rows, b, i, j);
      assert Trips(0, a) == a;
      assert (i - 0) * b + j == k;
    }
    assert rows(i)[j] == cell(i, j) by {
      LoopIndex(0, b, CellOne(cell, i), 1, j, 0);
      assert (j - 0) * 1 + 0 == j;
    }
    assert Cells(a, b, cell) == Loop(0, a, rows);
  }

  lemma CellsLength(a: int, b: int, cell: (int, int) -> Placement)
    ensures |Cells(a, b, cell)| == Trips(0, a) * Trips(0, b)
  {
    forall t | 0 <= t < a ensures |CellRow(b, cell)(t)| == Trips(0, b) {
      CellRowLength(b, cell, t);
    }
    LoopLength(0, a, CellRow(b, cell), Trips(0, b));
  }

  /** A property of every cell is a property of the whole grid. */
  lemma CellsAll(a: int, b: int, cell: (int, int) -> Placement, P: Placement -> bool)
    requires forall i, j :: 0 <= i < a && 0 <= j < b ==> P(cell(i, j))
    ensures All(Cells(a, b, cell), P)
  {
    forall i | 0 <= i < a ensures All(CellRow(b, cell)(i), P) {
      LoopAll(0, b, CellOne(cell, i), P);
    }
    LoopAll(0, a, CellRow(b, cell), P);
  }
}
