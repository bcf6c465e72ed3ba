/** `divideBuildIntoSections`: splitting a plan into four spatial quadrants, each ordered
    bottom to top. */
module Partition {
  import opened Blocks
  import opened Sections
  import JavaMath

  /** The (x, z) bounding rectangle of a plan. */
  datatype Footprint = Footprint(minX: int, maxX: int, minZ: int, maxZ: int)

  /** `divideBuildIntoSections` folds from `Integer.MAX_VALUE`/`MIN_VALUE`; on a non-empty
      plan that fold yields exactly the extreme coordinates computed here. */
  function Bounds(plan: seq<Placement>): (b: Footprint)
    requires |plan| > 0
    ensures forall i :: 0 <= i < |plan| ==>
      b.minX <= plan[i].pos.x <= b.maxX && b.minZ <= plan[i].pos.z <= b.maxZ
    ensures exists i :: 0 <= i < |plan| && plan[i].pos.x == b.minX
    ensures exists i :: 0 <= i < |plan| && plan[i].pos.x == b.maxX
    ensures exists i :: 0 <= i < |plan| && plan[i].pos.z == b.minZ
    ensures exists i :: 0 <= i < |plan| && plan[i].pos.z == b.maxZ
  {
    var p := plan[0].pos;
    if |plan| == 1 then Footprint(p.x, p.x, p.z, p.z)
    else
      var b := Bounds(plan[1..]);
      assert forall i :: 1 <= i < |plan| ==> plan[i] == plan[1..][i - 1];
      Footprint(JavaMath.Min(p.x, b.minX), JavaMath.Max(p.x, b.maxX),
                JavaMath.Min(p.z, b.minZ), JavaMath.Max(p.z, b.maxZ))
  }

  /** The split point: `(minX + maxX) / 2` and `(minZ + maxZ) / 2` in Java's truncating division. */
  datatype Center = Center(cx: int, cz: int)

  function CenterOf(plan: seq<Placement>): (c: Center)
    requires |plan| > 0
    ensures var b := Bounds(plan); b.minX <= c.cx <= b.maxX && b.minZ <= c.cz <= b.maxZ
  {
    var b := Bounds(plan);
    JavaMath.MidpointInside(b.minX, b.maxX);
    JavaMath.MidpointInside(b.minZ, b.maxZ);
    Center(JavaMath.JavaDiv(b.minX + b.maxX, 2), JavaMath.JavaDiv(b.minZ + b.maxZ, 2))
  }

  const NW: nat := 0
  const NE: nat := 1
  const SW: nat := 2
  const SE: nat := 3

  /** Section labels, indexed by quadrant number. */
  const Labels: seq<string> := ["NORTH-WEST", "NORTH-EAST", "SOUTH-WEST", "SOUTH-EAST"]

  /** The if/else-if chain choosing a quadrant; ties on the centre line go west and north. */
  function Quadrant(p: Pos, c: Center): (q: nat)
    ensures q < 4
  {
    if p.x <= c.cx && p.z <= c.cz then NW
    else if p.x > c.cx && p.z <= c.cz then NE
    else if p.x <= c.cx && p.z > c.cz then SW
    else SE
  }

  /** Each quadrant is exactly the cell of the two half-planes its name says. */
  lemma QuadrantCells(p: Pos, c: Center)
    ensures Quadrant(p, c) == NW <==> p.x <= c.cx && p.z <= c.cz
    ensures Quadrant(p, c) == NE <==> p.x > c.cx && p.z <= c.cz
    ensures Quadrant(p, c) == SW <==> p.x <= c.cx && p.z > c.cz
    ensures Quadrant(p, c) == SE <==> p.x > c.cx && p.z > c.cz
  {
  }

  /** The plan's elements that fall in quadrant `q`, in plan order (the `add` calls of the loop). */
  function Bin(plan: seq<Placement>, q: nat, c: Center): (r: seq<Placement>)
    ensures |r| <= |plan|
    ensures forall i :: 0 <= i < |r| ==> Quadrant(r[i].pos, c) == q
  {
    if |plan| == 0 then []
    else (if Quadrant(plan[0].pos, c) == q then [plan[0]] else []) + Bin(plan[1..], q, c)
  }

  /** How often `e` occurs in bin `q`: as often as in the plan if `e` falls in `q`, else never. */
  lemma {:induction false} BinCount(plan: seq<Placement>, q: nat, c: Center, e: Placement)
    ensures multiset(Bin(plan, q, c))[e] == if Quadrant(e.pos, c) == q then multiset(plan)[e] else 0
  {
    if |plan| > 0 {
      BinCount(plan[1..], q, c, e);
      var head := if Quadrant(plan[0].pos, c) == q then [plan[0]] else [];
      assert Bin(plan, q, c) == head + Bin(plan[1..], q, c);
      assert multiset(Bin(plan, q, c)) == multiset(head) + multiset(Bin(plan[1..], q, c));
      assert plan == [plan[0]] + plan[1..];
      assert multiset(plan) == multiset{plan[0]} + multiset(plan[1..]);
    }
  }

  /** Every element lands in exactly one bin: the four bins together are the plan. */
  lemma BinsPartition(plan: seq<Placement>, c: Center)
    ensures multiset(Bin(plan, NW, c)) + multiset(Bin(plan, NE, c))
          + multiset(Bin(plan, SW, c)) + multiset(Bin(plan, SE, c)) == multiset(plan)
  {
    var m := multiset(Bin(plan, NW, c)) + multiset(Bin(plan, NE, c))
           + multiset(Bin(plan, SW, c)) + multiset(Bin(plan, SE, c));
    forall e
      ensures m[e] == multiset(plan)[e]
    {
      BinCount(plan, NW, c, e);
      BinCount(plan, NE, c, e);
      BinCount(plan, SW, c, e);
      BinCount(plan, SE, c, e);
    }
    assert m == multiset(plan);
  }

  // ---- Stable ordering by height -------------------------------------------------------

  predicate SortedByY(s: seq<Placement>) {
    forall i, j :: 0 <= i <= j < |s| ==> s[i].pos.y <= s[j].pos.y
  }

  /** The elements of `s` at height `v`, in order. A sort is stable iff it keeps these. */
  function AtHeight(s: seq<Placement>, v: int): (r: seq<Placement>)
    ensures |r| <= |s|
  {
    if |s| == 0 then []
    else (if s[0].pos.y == v then [s[0]] else []) + AtHeight(s[1..], v)
  }

  /** Inserts `p` in front of the first element that is not lower than it. */
  function Insert(p: Placement, r: seq<Placement>): (s: seq<Placement>)
    ensures |s| == |r| + 1
  {
    if |r| == 0 || p.pos.y <= r[0].pos.y then [p] + r
    else [r[0]] + Insert(p, r[1..])
  }

  lemma {:induction false} InsertPermutes(p: Placement, r: seq<Placement>)
    ensures multiset(Insert(p, r)) == multiset(r) + multiset{p}
  {
    if |r| > 0 && p.pos.y > r[0].pos.y {
      InsertPermutes(p, r[1..]);
      assert r == [r[0]] + r[1..];
    }
  }

  lemma {:induction false} InsertSorted(p: Placement, r: seq<Placement>)
    requires SortedByY(r)
    ensures SortedByY(Insert(p, r))
  {
    if |r| > 0 && p.pos.y > r[0].pos.y {
      var t := Insert(p, r[1..]);
      InsertSorted(p, r[1..]);
      InsertPermutes(p, r[1..]);
      var s := [r[0]] + t;
      forall k | 0 <= k < |t|
        ensures r[0].pos.y <= t[k].pos.y
      {
        assert t[k] in multiset(r[1..]) + multiset{p};
        if t[k] != p {
          assert t[k] in r[1..];
        }
      }
      assert forall i, j :: 0 < i <= j < |s| ==> s[i] == t[i - 1] && s[j] == t[j - 1];
    }
  }

  lemma {:induction false} InsertStable(p: Placement, r: seq<Placement>, v: int)
    ensures AtHeight(Insert(p, r), v) == (if p.pos.y == v then [p] else []) + AtHeight(r, v)
  {
    var mine := if p.pos.y == v then [p] else [];
    if |r| == 0 || p.pos.y <= r[0].pos.y {
      var s := [p] + r;
      assert s[0] == p && s[1..] == r;
      assert AtHeight(s, v) == mine + AtHeight(r, v);
    } else {
      var t := Insert(p, r[1..]);
      var s := [r[0]] + t;
      var theirs := if r[0].pos.y == v then [r[0]] else [];
      InsertStable(p, r[1..], v);
      assert s[0] == r[0] && s[1..] == t;
      assert AtHeight(s, v) == theirs + AtHeight(t, v);
      assert AtHeight(t, v) == mine + AtHeight(r[1..], v);
      assert AtHeight(r, v) == theirs + AtHeight(r[1..], v);
      assert theirs == [] || mine == [];
      assert theirs + mine == mine + theirs;
    }
  }

  /** `List.sort(Comparator.comparingInt(y))`: a stable sort by height, as Java's list sort
      guarantees for objects. */
  function SortByY(s: seq<Placement>): (r: seq<Placement>)
    ensures |r| == |s|
    ensures multiset(r) == multiset(s)
    ensures SortedByY(r)
    ensures forall v :: AtHeight(r, v) == AtHeight(s, v)
  {
    if |s| == 0 then []
    else
      var t := SortByY(s[1..]);
      assert s == [s[0]] + s[1..];
      InsertPermutes(s[0], t);
      InsertSorted(s[0], t);
      assert forall v :: AtHeight(Insert(s[0], t), v) == AtHeight(s, v) by {
        forall v
          ensures AtHeight(Insert(s[0], t), v) == AtHeight(s, v)
        {
          InsertStable(s[0], t, v);
        }
      }
      Insert(s[0], t)
  }

  lemma {:induction false} AtHeightMember(s: seq<Placement>, v: int)
    requires AtHeight(s, v) != []
    ensures exists i :: 0 <= i < |s| && s[i].pos.y == v
  {
    if s[0].pos.y != v {
      AtHeightMember(s[1..], v);
      var i :| 0 <= i < |s[1..]| && s[1..][i].pos.y == v;
      assert s[i + 1].pos.y == v;
    }
  }

  lemma AtOwnHeight(s: seq<Placement>)
    ensures |s| > 0 ==> AtHeight(s, s[0].pos.y) != []
  {
  }

  /** A stable sort by height has only one possible result: any sorted sequence with the
      same elements at every height, in the same order, is `SortByY`'s. So the model's
      insertion sort agrees with whatever stable algorithm the JDK uses. */
  lemma {:induction false} StableSortUnique(a: seq<Placement>, b: seq<Placement>)
    requires SortedByY(a) && SortedByY(b)
    requires forall v :: AtHeight(a, v) == AtHeight(b, v)
    ensures a == b
    decreases |a| + |b|
  {
    if |a| == 0 || |b| == 0 {
      AtOwnHeight(a);
      AtOwnHeight(b);
    } else {
      var va, vb := a[0].pos.y, b[0].pos.y;
      assert AtHeight(b, va) != [] by { assert AtHeight(a, va) != []; }
      AtHeightMember(b, va);
      assert AtHeight(a, vb) != [] by { assert AtHeight(b, vb) != []; }
      AtHeightMember(a, vb);
      assert va == vb;
      assert AtHeight(a, va)[0] == a[0];
      assert AtHeight(b, va)[0] == b[0];
      assert a[0] == b[0];
      forall v
        ensures AtHeight(a[1..], v) == AtHeight(b[1..], v)
      {
        if v == va {
          assert AtHeight(a, v) == [a[0]] + AtHeight(a[1..], v);
          assert AtHeight(b, v) == [b[0]] + AtHeight(b[1..], v);
          assert AtHeight(a[1..], v) == AtHeight(a, v)[1..];
          assert AtHeight(b[1..], v) == AtHeight(b, v)[1..];
        } else {
          assert AtHeight(a, v) == AtHeight(a[1..], v);
          assert AtHeight(b, v) == AtHeight(b[1..], v);
        }
      }
      StableSortUnique(a[1..], b[1..]);
      assert a == [a[0]] + a[1..];
      assert b == [b[0]] + b[1..];
    }
  }

  // ---- The division ------------------------------------------------------------------

  /** Quadrant `q` as a fresh section (cursor 0): its bin, stably sorted by height. */
  function QuadrantSection(plan: seq<Placement>, c: Center, q: nat): (s: Section)
    requires q < 4
  {
    Section(q, Labels[q], SortByY(Bin(plan, q, c)), 0)
  }

  /** All four quadrants, empty or not, in NW, NE, SW, SE order. */
  function Quadrants(plan: seq<Placement>): (qs: seq<Section>)
    requires |plan| > 0
    ensures |qs| == 4
    ensures forall q :: 0 <= q < 4 ==> qs[q] == QuadrantSection(plan, CenterOf(plan), q)
  {
    var c := CenterOf(plan);
    seq(4, q requires 0 <= q < 4 => QuadrantSection(plan, c, q))
  }

  /** Keeps the sections that have blocks, in order (the four `if (!isEmpty())` lines). */
  function NonEmpty(qs: seq<Section>): (ss: seq<Section>)
    ensures |ss| <= |qs|
  {
    if |qs| == 0 then []
    else (if |qs[0].blocks| > 0 then [qs[0]] else []) + NonEmpty(qs[1..])
  }

  /** `NonEmpty` keeps a section iff it has blocks. */
  lemma {:induction false} NonEmptyMembers(qs: seq<Section>, sec: Section)
    ensures sec in NonEmpty(qs) <==> sec in qs && |sec.blocks| > 0
  {
    if |qs| > 0 {
      NonEmptyMembers(qs[1..], sec);
      assert qs == [qs[0]] + qs[1..];
    }
  }

  /** All blocks of a list of sections, section after section. */
  function Flatten(ss: seq<Section>): seq<Placement> {
    if |ss| == 0 then [] else ss[0].blocks + Flatten(ss[1..])
  }

  function SumTotals(ss: seq<Section>): nat {
    if |ss| == 0 then 0 else Total(ss[0]) + SumTotals(ss[1..])
  }

  lemma {:induction false} SumTotalsIsFlattenSize(ss: seq<Section>)
    ensures SumTotals(ss) == |Flatten(ss)|
  {
    if |ss| > 0 {
      SumTotalsIsFlattenSize(ss[1..]);
    }
  }

  lemma {:induction false} NonEmptyKeepsBlocks(qs: seq<Section>)
    ensures multiset(Flatten(NonEmpty(qs))) == multiset(Flatten(qs))
  {
    if |qs| > 0 {
      NonEmptyKeepsBlocks(qs[1..]);
      var rest := NonEmpty(qs[1..]);
      var head := qs[0].blocks;
      assert Flatten(qs) == head + Flatten(qs[1..]);
      assert multiset(Flatten(qs)) == multiset(head) + multiset(Flatten(qs[1..]));
      if |head| > 0 {
        var ss := [qs[0]] + rest;
        assert NonEmpty(qs) == ss;
        assert ss[0] == qs[0] && ss[1..] == rest;
        assert Flatten(ss) == head + Flatten(rest);
        assert multiset(Flatten(ss)) == multiset(head) + multiset(Flatten(rest));
      } else {
        assert NonEmpty(qs) == rest;
        assert multiset(head) == multiset{};
      }
    }
  }

  /** Ids strictly increase along a list of sections. */
  predicate IdsAscending(ss: seq<Section>) {
    forall i, j :: 0 <= i < j < |ss| ==> ss[i].id < ss[j].id
  }

  lemma {:induction false} NonEmptyKeepsOrder(qs: seq<Section>)
    requires IdsAscending(qs)
    ensures IdsAscending(NonEmpty(qs))
  {
    if |qs| > 0 {
      NonEmptyKeepsOrder(qs[1..]);
      var rest := NonEmpty(qs[1..]);
      if |qs[0].blocks| > 0 {
        var ss := [qs[0]] + rest;
        assert NonEmpty(qs) == ss;
        forall i, j | 0 <= i < j < |ss|
          ensures ss[i].id < ss[j].id
        {
          if i == 0 {
            NonEmptyMembers(qs[1..], ss[j]);
            assert ss[j] in qs[1..];
          }
        }
      } else {
        assert NonEmpty(qs) == rest;
      }
    }
  }

  /** `divideBuildIntoSections`: no sections for an empty plan, otherwise the non-empty
      quadrants in NW, NE, SW, SE order. */
  function Divide(plan: seq<Placement>): (ss: seq<Section>)
    ensures |plan| == 0 ==> ss == []
    ensures |ss| <= 4
  {
    if |plan| == 0 then [] else NonEmpty(Quadrants(plan))
  }

  /** A section as the division produces it: a quadrant's number and label, cursor 0, some
      blocks, sorted by height. */
  predicate FreshQuadrant(s: Section) {
    && s.id < 4
    && s.name == Labels[s.id]
    && s.cursor == 0
    && |s.blocks| > 0
    && SortedByY(s.blocks)
  }

  /** Each quadrant section is fresh apart from possibly being empty. */
  lemma QuadrantFresh(plan: seq<Placement>, c: Center, q: nat)
    requires q < 4
    ensures var s := QuadrantSection(plan, c, q);
      s.id == q && s.name == Labels[q] && s.cursor == 0 && SortedByY(s.blocks)
  {
  }

  /** Every section of the division is a fresh quadrant section holding, stably ordered by
      height, exactly the plan's elements of that quadrant. */
  lemma DivideSections(plan: seq<Placement>)
    requires |plan| > 0
    ensures forall i :: 0 <= i < |Divide(plan)| ==>
      FreshQuadrant(Divide(plan)[i])
      && Divide(plan)[i].blocks == SortByY(Bin(plan, Divide(plan)[i].id, CenterOf(plan)))
  {
    var c := CenterOf(plan);
    var qs := Quadrants(plan);
    var ss := NonEmpty(qs);
    assert Divide(plan) == ss;
    forall i | 0 <= i < |ss|
      ensures FreshQuadrant(ss[i]) && ss[i].blocks == SortByY(Bin(plan, ss[i].id, c))
    {
      NonEmptyMembers(qs, ss[i]);
      var q :| 0 <= q < 4 && qs[q] == ss[i];
      QuadrantFresh(plan, c, q);
    }
  }

  /** Every quadrant the plan touches has its section. */
  lemma DivideCovers(plan: seq<Placement>)
    requires |plan| > 0
    ensures forall q :: 0 <= q < 4 && Bin(plan, q, CenterOf(plan)) != [] ==>
      exists i :: 0 <= i < |Divide(plan)| && Divide(plan)[i].id == q
  {
    var c := CenterOf(plan);
    var qs := Quadrants(plan);
    var ss := NonEmpty(qs);
    assert Divide(plan) == ss;
    forall q | 0 <= q < 4 && Bin(plan, q, c) != []
      ensures exists i :: 0 <= i < |ss| && ss[i].id == q
    {
      NonEmptyMembers(qs, qs[q]);
      var i :| 0 <= i < |ss| && ss[i] == qs[q];
    }
  }

  /** The sections come in NW, NE, SW, SE order. */
  lemma DivideOrdered(plan: seq<Placement>)
    ensures IdsAscending(Divide(plan))
  {
    if |plan| > 0 {
      var qs := Quadrants(plan);
      assert IdsAscending(qs);
      NonEmptyKeepsOrder(qs);
    }
  }

  /** The sections come in NW, NE, SW, SE order with the empty quadrants left out; section
      `id` holds, stably ordered by height, exactly the plan's elements of that quadrant; and
      every quadrant the plan touches has its section. */
  lemma DivideShape(plan: seq<Placement>)
    ensures IdsAscending(Divide(plan))
    ensures forall i :: 0 <= i < |Divide(plan)| ==> FreshQuadrant(Divide(plan)[i])
    ensures |plan| > 0 ==> forall i :: 0 <= i < |Divide(plan)| ==>
      Divide(plan)[i].blocks == SortByY(Bin(plan, Divide(plan)[i].id, CenterOf(plan)))
    ensures |plan| > 0 ==> forall q :: 0 <= q < 4 && Bin(plan, q, CenterOf(plan)) != [] ==>
      exists i :: 0 <= i < |Divide(plan)| && Divide(plan)[i].id == q
  {
    DivideOrdered(plan);
    if |plan| > 0 {
      DivideSections(plan);
      DivideCovers(plan);
    }
  }

  lemma FlattenFour(qs: seq<Section>)
    requires |qs| == 4
    ensures Flatten(qs) == qs[0].blocks + (qs[1].blocks + (qs[2].blocks + qs[3].blocks))
  {
    var t1, t2, t3 := qs[1..], qs[2..], qs[3..];
    assert Flatten(t3) == qs[3].blocks by {
      assert t3[0] == qs[3] && t3[1..] == [];
    }
    assert Flatten(t2) == qs[2].blocks + Flatten(t3) by {
      assert t2[0] == qs[2] && t2[1..] == t3;
    }
    assert Flatten(t1) == qs[1].blocks + Flatten(t2) by {
      assert t1[0] == qs[1] && t1[1..] == t2;
    }
  }

  /** The partition is exact: the sections together hold the plan's elements, each as often
      as it occurs in the plan, so the section totals add up to the plan size. */
  lemma DivideIsExact(plan: seq<Placement>)
    ensures multiset(Flatten(Divide(plan))) == multiset(plan)
    ensures SumTotals(Divide(plan)) == |plan|
  {
    var ss := Divide(plan);
    if |plan| > 0 {
      var c := CenterOf(plan);
      var qs := Quadrants(plan);
      NonEmptyKeepsBlocks(qs);
      var m0, m1, m2, m3 := multiset(Bin(plan, NW, c)), multiset(Bin(plan, NE, c)),
                            multiset(Bin(plan, SW, c)), multiset(Bin(plan, SE, c));
      assert multiset(Flatten(qs)) == m0 + (m1 + (m2 + m3)) by {
        FlattenFour(qs);
        var a0, a1, a2, a3 := qs[0].blocks, qs[1].blocks, qs[2].blocks, qs[3].blocks;
        assert multiset(a0) == m0 && multiset(a1) == m1 && multiset(a2) == m2 && multiset(a3) == m3;
        assert multiset(a2 + a3) == m2 + m3;
        assert multiset(a1 + (a2 + a3)) == m1 + (m2 + m3);
        assert multiset(a0 + (a1 + (a2 + a3))) == m0 + (m1 + (m2 + m3));
      }
      assert m0 + (m1 + (m2 + m3)) == multiset(plan) by {
        BinsPartition(plan, c);
        assert m0 + (m1 + (m2 + m3)) == m0 + m1 + m2 + m3;
      }
    }
    SumTotalsIsFlattenSize(ss);
    assert |multiset(Flatten(ss))| == |multiset(plan)|;
  }

  lemma SortedBinInQuadrant(plan: seq<Placement>, q: nat, c: Center)
    ensures forall k :: 0 <= k < |SortByY(Bin(plan, q, c))| ==> Quadrant(SortByY(Bin(plan, q, c))[k].pos, c) == q
  {
    var bin := Bin(plan, q, c);
    var sorted := SortByY(bin);
    forall k | 0 <= k < |sorted|
      ensures Quadrant(sorted[k].pos, c) == q
    {
      assert sorted[k] in multiset(bin);
      var j :| 0 <= j < |bin| && bin[j] == sorted[k];
    }
  }

  /** Every block of a section lies in the quadrant the section is named after. */
  lemma DivideRespectsQuadrants(plan: seq<Placement>)
    requires |plan| > 0
    ensures var ss := Divide(plan);
      forall i, k :: 0 <= i < |ss| && 0 <= k < |ss[i].blocks| ==>
        Quadrant(ss[i].blocks[k].pos, CenterOf(plan)) == ss[i].id
  {
    DivideShape(plan);
    var ss := Divide(plan);
    forall i | 0 <= i < |ss|
      ensures forall k :: 0 <= k < |ss[i].blocks| ==> Quadrant(ss[i].blocks[k].pos, CenterOf(plan)) == ss[i].id
    {
      SortedBinInQuadrant(plan, ss[i].id, CenterOf(plan));
    }
  }

  /** A single column's centre is the column itself. */
  lemma ColumnCenter(plan: seq<Placement>)
    requires |plan| > 0
    requires forall i :: 0 <= i < |plan| ==> plan[i].pos.x == plan[0].pos.x && plan[i].pos.z == plan[0].pos.z
    ensures CenterOf(plan) == Center(plan[0].pos.x, plan[0].pos.z)
  {
    var b := Bounds(plan);
    var p0 := plan[0].pos;
    assert b.minX == p0.x by {
      var i :| 0 <= i < |plan| && plan[i].pos.x == b.minX;
    }
    assert b.maxX == p0.x by {
      var i :| 0 <= i < |plan| && plan[i].pos.x == b.maxX;
    }
    assert b.minZ == p0.z by {
      var i :| 0 <= i < |plan| && plan[i].pos.z == b.minZ;
    }
    assert b.maxZ == p0.z by {
      var i :| 0 <= i < |plan| && plan[i].pos.z == b.maxZ;
    }
  }

  /** A plan whose footprint is a single column has one section, the north-west one, holding
      the whole plan ordered by height. */
  lemma SingleColumnIsOneSection(plan: seq<Placement>)
    requires |plan| > 0
    requires forall i :: 0 <= i < |plan| ==> plan[i].pos.x == plan[0].pos.x && plan[i].pos.z == plan[0].pos.z
    ensures |Divide(plan)| == 1 && Divide(plan)[0].id == NW
    ensures Divide(plan)[0].blocks == SortByY(plan)
  {
    ColumnCenter(plan);
    var c := CenterOf(plan);
    assert forall i :: 0 <= i < |plan| ==> Quadrant(plan[i].pos, c) == NW;
    BinAllOrNothing(plan, c, NW);
    var qs := Quadrants(plan);
    OnlyFirstNonEmpty(qs);
  }

  lemma OnlyFirstNonEmpty(qs: seq<Section>)
    requires |qs| == 4 && |qs[0].blocks| > 0
    requires qs[1].blocks == [] && qs[2].blocks == [] && qs[3].blocks == []
    ensures NonEmpty(qs) == [qs[0]]
  {
    assert NonEmpty(qs[3..]) == [] by {
      assert qs[3..][1..] == [];
    }
    assert NonEmpty(qs[2..]) == [] by {
      assert qs[2..][1..] == qs[3..];
    }
    assert NonEmpty(qs[1..]) == [] by {
      assert qs[1..][1..] == qs[2..];
    }
  }

  lemma {:induction false} BinAllOrNothing(plan: seq<Placement>, c: Center, q: nat)
    requires forall i :: 0 <= i < |plan| ==> Quadrant(plan[i].pos, c) == q
    ensures Bin(plan, q, c) == plan
    ensures forall q' :: q' != q ==> Bin(plan, q', c) == []
  {
    if |plan| > 0 {
      BinAllOrNothing(plan[1..], c, q);
      assert plan == [plan[0]] + plan[1..];
    }
  }
}
