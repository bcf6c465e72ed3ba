/** `CollaborativeBuild`: one shared project, its sections, and the policy that hands
    workers their next placement. Each call of `GetNextBlock` is one atomic step. */
module CollaborativeBuild {
  import opened Wrappers
  import opened Blocks
  import Sections
  import opened Partition

  type Section = Sections.Section

  /** `sections` are the plan's quadrants; `assignment` is `steveToSectionMap`, worker name
      to an index into `sections`; `participants` is `participatingSteves`. Java's
      `nextSectionIndex` counter is never read or written after construction and is left out. */
  datatype Build = Build(
    id: string,
    plan: seq<Placement>,
    sections: seq<Section>,
    assignment: map<string, nat>,
    participants: set<string>,
    start: Pos)

  /** Two section lists that differ at most in their cursors. */
  predicate SameLayout(ss: seq<Section>, ts: seq<Section>) {
    && |ss| == |ts|
    && forall i :: 0 <= i < |ss| ==>
         ss[i].id == ts[i].id && ss[i].name == ts[i].name && ss[i].blocks == ts[i].blocks
  }

  /** Every assignment names an existing section: all that dispensing needs. */
  predicate Indexed(b: Build) {
    forall w :: w in b.assignment ==> b.assignment[w] < |b.sections|
  }

  /** A build whose bindings all name existing sections. */
  type IndexedBuild = b: Build | Indexed(b) witness Build("", [], [], map[], {}, Pos(0, 0, 0))

  /** What every reachable build satisfies: its sections are the division of its plan (with
      whatever cursors), and every assignment names an existing section. */
  predicate Valid(b: Build) {
    SameLayout(b.sections, Divide(b.plan)) && Indexed(b)
  }

  /** Moving one section's cursor keeps a build valid. */
  lemma KeepsLayout(b: Build, k: nat, s: Section)
    requires k < |b.sections|
    requires s.id == b.sections[k].id && s.name == b.sections[k].name && s.blocks == b.sections[k].blocks
    ensures Valid(b) ==> Valid(b.(sections := b.sections[k := s]))
  {
    var ts := Divide(b.plan);
    if SameLayout(b.sections, ts) {
      SameLayoutUpdate(b.sections, ts, k, s);
    }
  }

  lemma SameLayoutUpdate(ss: seq<Section>, ts: seq<Section>, k: nat, s: Section)
    requires SameLayout(ss, ts) && k < |ss|
    requires s.id == ss[k].id && s.name == ss[k].name && s.blocks == ss[k].blocks
    ensures SameLayout(ss[k := s], ts)
  {
    forall i | 0 <= i < |ss| ensures ss[k := s][i].id == ts[i].id && ss[k := s][i].name == ts[i].name
      && ss[k := s][i].blocks == ts[i].blocks
    {
      if i != k {
        assert ss[k := s][i] == ss[i];
      }
    }
  }

  // ---- Aggregates over a list of sections ----------------------------------------------

  function SumPlaced(ss: seq<Section>): nat {
    if |ss| == 0 then 0 else Sections.Placed(ss[0]) + SumPlaced(ss[1..])
  }

  /** Everything handed out so far, over all sections, with multiplicity. */
  function DispensedAll(ss: seq<Section>): multiset<Placement> {
    if |ss| == 0 then multiset{} else multiset(Sections.Dispensed(ss[0])) + DispensedAll(ss[1..])
  }

  predicate AllComplete(ss: seq<Section>) {
    forall i :: 0 <= i < |ss| ==> Sections.IsComplete(ss[i])
  }

  /** All sections are complete iff the first one is and all the others are. */
  lemma AllCompleteCons(ss: seq<Section>)
    requires |ss| > 0
    ensures AllComplete(ss) <==> Sections.IsComplete(ss[0]) && AllComplete(ss[1..])
  {
    if Sections.IsComplete(ss[0]) && AllComplete(ss[1..]) {
      forall i | 0 <= i < |ss| ensures Sections.IsComplete(ss[i]) {
        if i > 0 {
          assert ss[i] == ss[1..][i - 1];
        }
      }
    }
    if AllComplete(ss) {
      forall i | 0 <= i < |ss[1..]| ensures Sections.IsComplete(ss[1..][i]) {
        assert ss[1..][i] == ss[i + 1];
      }
    }
  }

  /** The counts balance: the placed count never exceeds the sections' sizes, and reaches
      them exactly when every section is complete. */
  lemma {:induction false} AccountingCounts(ss: seq<Section>)
    ensures SumPlaced(ss) <= SumTotals(ss)
    ensures AllComplete(ss) <==> SumPlaced(ss) == SumTotals(ss)
  {
    if |ss| > 0 {
      AccountingCounts(ss[1..]);
      AllCompleteCons(ss);
    }
  }

  /** A section's blocks are what it has handed out followed by what remains. */
  lemma SectionSplit(s: Section)
    ensures var d := Sections.Dispensed(s);
      multiset(s.blocks) == multiset(d) + multiset(s.blocks[|d|..])
      && (!Sections.IsComplete(s) ==> |multiset(s.blocks[|d|..])| > 0)
  {
    var d := Sections.Dispensed(s);
    assert s.blocks == d + s.blocks[|d|..];
  }

  lemma DispensedAllCons(ss: seq<Section>)
    requires |ss| > 0
    ensures DispensedAll(ss) == multiset(Sections.Dispensed(ss[0])) + DispensedAll(ss[1..])
    ensures multiset(Flatten(ss)) == multiset(ss[0].blocks) + multiset(Flatten(ss[1..]))
  {
  }

  /** As many placements were handed out as the placed count says. */
  lemma {:induction false} DispensedSize(ss: seq<Section>)
    ensures SumPlaced(ss) == |DispensedAll(ss)|
  {
    if |ss| > 0 {
      DispensedSize(ss[1..]);
      DispensedAllCons(ss);
    }
  }

  /** What was handed out is part of the sections' blocks. */
  lemma {:induction false} DispensedWithin(ss: seq<Section>)
    ensures DispensedAll(ss) <= multiset(Flatten(ss))
  {
    if |ss| > 0 {
      DispensedWithin(ss[1..]);
      DispensedAllCons(ss);
      SectionSplit(ss[0]);
    }
  }

  /** Everything was handed out exactly when every section is complete. */
  lemma {:induction false} DispensedAllIffComplete(ss: seq<Section>)
    ensures AllComplete(ss) <==> DispensedAll(ss) == multiset(Flatten(ss))
  {
    if |ss| > 0 {
      var s := ss[0];
      DispensedAllIffComplete(ss[1..]);
      DispensedWithin(ss[1..]);
      DispensedAllCons(ss);
      AllCompleteCons(ss);
      SectionSplit(s);
      var md, mr := multiset(Sections.Dispensed(s)), multiset(s.blocks[|Sections.Dispensed(s)|..]);
      var da, fa := DispensedAll(ss[1..]), multiset(Flatten(ss[1..]));
      assert |md + da| == |md| + |da|;
      assert |md + mr + fa| == |md| + |mr| + |fa|;
      assert |da| <= |fa| by {
        assert fa == da + (fa - da);
      }
      if !Sections.IsComplete(s) {
        assert |md + da| < |md + mr + fa|;
      } else if !AllComplete(ss[1..]) {
        assert mr == multiset{};
        if md + da == md + fa {
          Cancel(da, fa, md);
        }
      }
    }
  }

  /** The books balance: what was handed out is part of the sections' blocks, its size is the
      placed count, and everything was handed out iff every section is complete. */
  lemma Accounting(ss: seq<Section>)
    ensures SumPlaced(ss) == |DispensedAll(ss)|
    ensures SumPlaced(ss) <= SumTotals(ss)
    ensures DispensedAll(ss) <= multiset(Flatten(ss))
    ensures AllComplete(ss) <==> SumPlaced(ss) == SumTotals(ss)
    ensures AllComplete(ss) <==> DispensedAll(ss) == multiset(Flatten(ss))
  {
    AccountingCounts(ss);
    DispensedSize(ss);
    DispensedWithin(ss);
    DispensedAllIffComplete(ss);
  }

  lemma {:induction false} SameLayoutFlatten(ss: seq<Section>, ts: seq<Section>)
    requires SameLayout(ss, ts)
    ensures Flatten(ss) == Flatten(ts)
    ensures SumTotals(ss) == SumTotals(ts)
  {
    if |ss| > 0 {
      SameLayoutFlatten(ss[1..], ts[1..]);
    }
  }

  /** Replacing one section changes the aggregates by that section's contribution only. */
  lemma {:induction false} UpdateOne(ss: seq<Section>, k: nat, t: Section)
    requires k < |ss|
    ensures SumPlaced(ss[k := t]) + Sections.Placed(ss[k]) == SumPlaced(ss) + Sections.Placed(t)
    ensures DispensedAll(ss[k := t]) + multiset(Sections.Dispensed(ss[k]))
         == DispensedAll(ss) + multiset(Sections.Dispensed(t))
  {
    if k == 0 {
      assert ss[k := t][1..] == ss[1..];
    } else {
      var rest := ss[1..];
      UpdateOne(rest, k - 1, t);
      assert rest[k - 1] == ss[k];
      var ss' := ss[k := t];
      assert ss'[0] == ss[0];
      assert ss'[1..] == rest[k - 1 := t];
      assert DispensedAll(ss') == multiset(Sections.Dispensed(ss[0])) + DispensedAll(rest[k - 1 := t]);
      assert DispensedAll(ss) == multiset(Sections.Dispensed(ss[0])) + DispensedAll(rest);
      var h, x, y := multiset(Sections.Dispensed(ss[0])), multiset(Sections.Dispensed(ss[k])), multiset(Sections.Dispensed(t));
      assert DispensedAll(rest[k - 1 := t]) + x == DispensedAll(rest) + y;
      assert (h + DispensedAll(rest[k - 1 := t])) + x == h + (DispensedAll(rest[k - 1 := t]) + x);
    }
  }

  lemma Cancel<T>(a: multiset<T>, b: multiset<T>, x: multiset<T>)
    requires a + x == b + x
    ensures a == b
  {
    forall e
      ensures a[e] == b[e]
    {
      assert (a + x)[e] == a[e] + x[e];
      assert (b + x)[e] == b[e] + x[e];
    }
  }

  // ---- The build's own queries ---------------------------------------------------------

  /** `new CollaborativeBuild(id, plan, start)`: no participants, no assignments. */
  function NewBuild(id: string, plan: seq<Placement>, start: Pos): (b: Build)
    ensures Valid(b)
    ensures b.id == id && b.plan == plan && b.start == start
    ensures b.participants == {} && b.assignment == map[]
  {
    Build(id, plan, Divide(plan), map[], {}, start)
  }

  /** `getTotalBlocks`: the size of the plan, not of the sections. */
  function TotalBlocks(b: Build): nat {
    |b.plan|
  }

  /** `getBlocksPlaced`: the sum of the sections' saturated counters. */
  function BlocksPlaced(b: Build): (n: nat)
    requires Valid(b)
    ensures n <= TotalBlocks(b)
  {
    Accounting(b.sections);
    SameLayoutFlatten(b.sections, Divide(b.plan));
    DivideIsExact(b.plan);
    SumPlaced(b.sections)
  }

  /** `isComplete`: every section is drained (vacuously true when there are none). */
  predicate IsComplete(b: Build) {
    AllComplete(b.sections)
  }

  /** Completion is the same thing as every block of the plan having been handed out, once. */
  lemma CompleteIffAllPlaced(b: Build)
    requires Valid(b)
    ensures IsComplete(b) <==> BlocksPlaced(b) == TotalBlocks(b)
    ensures IsComplete(b) <==> DispensedAll(b.sections) == multiset(b.plan)
    ensures DispensedAll(b.sections) <= multiset(b.plan)
  {
    Accounting(b.sections);
    SameLayoutFlatten(b.sections, Divide(b.plan));
    DivideIsExact(b.plan);
  }

  /** A fresh build is complete iff its plan is empty, and nothing has been placed yet. */
  lemma NewBuildProgress(id: string, plan: seq<Placement>, start: Pos)
    ensures IsComplete(NewBuild(id, plan, start)) <==> |plan| == 0
    ensures BlocksPlaced(NewBuild(id, plan, start)) == 0
  {
    var b := NewBuild(id, plan, start);
    DivideShape(plan);
    ZeroPlaced(b.sections);
    CompleteIffAllPlaced(b);
  }

  lemma {:induction false} ZeroPlaced(ss: seq<Section>)
    requires forall i :: 0 <= i < |ss| ==> ss[i].cursor == 0
    ensures SumPlaced(ss) == 0
  {
    if |ss| > 0 {
      ZeroPlaced(ss[1..]);
    }
  }

  /** `getProgressPercentage`: integer percentage of placed blocks. Java divides by the
      plan size, so an empty plan is excluded (it would throw). */
  function ProgressPercentage(b: Build): (pct: int)
    requires Valid(b) && |b.plan| > 0
    ensures 0 <= pct <= 100
    ensures pct == 100 <==> IsComplete(b)
  {
    var placed := BlocksPlaced(b);
    CompleteIffAllPlaced(b);
    PercentBounds(placed, |b.plan|);
    (placed * 100) / |b.plan|
  }

  lemma PercentBounds(placed: nat, total: nat)
    requires 0 < total && placed <= total
    ensures 0 <= (placed * 100) / total <= 100
    ensures (placed * 100) / total == 100 <==> placed == total
  {
    var a := placed * 100;
    var q := a / total;
    var m := a % total;
    assert a == q * total + m && 0 <= m < total;
    if placed == total {
      assert (q - 100) * total == -m;
    } else {
      assert a <= 100 * total - 100;
    }
  }

  // ---- Assignment and dispensing -------------------------------------------------------

  /** The first section at or after `from` that is incomplete and whose index is not in
      `skip`: one pass of `assignSteveToSection`'s loop. */
  function FirstOpen(ss: seq<Section>, skip: set<nat>, from: nat): (r: Option<nat>)
    ensures r.Some? ==> from <= r.value < |ss| && !Sections.IsComplete(ss[r.value]) && r.value !in skip
    ensures r.Some? ==> forall j :: from <= j < r.value ==> Sections.IsComplete(ss[j]) || j in skip
    ensures r.None? ==> forall j :: from <= j < |ss| ==> Sections.IsComplete(ss[j]) || j in skip
    decreases |ss| - from
  {
    if from >= |ss| then None
    else if !Sections.IsComplete(ss[from]) && from !in skip then Some(from)
    else FirstOpen(ss, skip, from + 1)
  }

  /** The two-pass choice, stated without the search: an incomplete section, the lowest-numbered
      one nobody is assigned to if there is such a section, else the lowest-numbered incomplete one. */
  predicate PreferredSection(b: Build, k: nat) {
    var ss, taken := b.sections, b.assignment.Values;
    && k < |ss|
    && !Sections.IsComplete(ss[k])
    && if exists j :: 0 <= j < |ss| && !Sections.IsComplete(ss[j]) && j !in taken
       then k !in taken && forall j :: 0 <= j < k ==> Sections.IsComplete(ss[j]) || j in taken
       else forall j :: 0 <= j < k ==> Sections.IsComplete(ss[j])
  }

  /** The two loops of `assignSteveToSection`: the first pass skips sections someone is
      assigned to, the second pass takes any incomplete section. */
  function ChooseSection(b: Build): (k: Option<nat>)
    ensures k.None? <==> IsComplete(b)
    ensures k.Some? ==> PreferredSection(b, k.value)
  {
    var taken := b.assignment.Values;
    var first := FirstOpen(b.sections, taken, 0);
    if first.Some? then
      assert exists j :: 0 <= j < |b.sections| && !Sections.IsComplete(b.sections[j]) && j !in taken;
      first
    else
      var second := FirstOpen(b.sections, {}, 0);
      assert !exists j :: 0 <= j < |b.sections| && !Sections.IsComplete(b.sections[j]) && j !in taken;
      assert second.None? ==> IsComplete(b);
      second
  }

  /** `assignSteveToSection`: binds the worker to the chosen section, if there is one. */
  function AssignToSection(b: Build, worker: string): (r: (Build, Option<nat>))
    requires Indexed(b)
    ensures Indexed(r.0) && (Valid(b) ==> Valid(r.0))
    ensures r.1.None? <==> IsComplete(b)
    ensures r.1.None? ==> r.0 == b
    ensures r.1.Some? ==> PreferredSection(b, r.1.value)
    ensures r.1.Some? ==> r.0 == b.(assignment := b.assignment[worker := r.1.value])
  {
    match ChooseSection(b)
    case Some(i) => (b.(assignment := b.assignment[worker := i]), Some(i))
    case None => (b, None)
  }

  /** Asks section `k` for its next placement. When the section is drained `getNextBlock` asks
      it a second time, in its `block == null` branch; the cursor moves again but the answer cannot change. */
  function Dispense(b: Build, k: nat): (r: (Build, Option<Placement>))
    requires Indexed(b) && k < |b.sections|
    ensures Indexed(r.0) && (Valid(b) ==> Valid(r.0))
    ensures r.0 == b.(sections := r.0.sections)
    ensures |r.0.sections| == |b.sections|
    ensures forall j :: 0 <= j < |b.sections| && j != k ==> r.0.sections[j] == b.sections[j]
    ensures r.0.sections[k].blocks == b.sections[k].blocks
    ensures r.0.sections[k].cursor == b.sections[k].cursor + (if r.1.Some? then 1 else 2)
    ensures r.1.Some? <==> !Sections.IsComplete(b.sections[k])
    ensures r.1.Some? ==> r.1.value == b.sections[k].blocks[Sections.Placed(b.sections[k])]
    ensures DispensedAll(r.0.sections)
         == DispensedAll(b.sections) + (if r.1.Some? then multiset{r.1.value} else multiset{})
  {
    var (s, answer) := Sections.NextWithRetry(b.sections[k]);
    DispenseAccounting(b.sections, k);
    KeepsLayout(b, k, s);
    (b.(sections := b.sections[k := s]), answer)
  }

  lemma DispenseAccounting(ss: seq<Section>, k: nat)
    requires k < |ss|
    ensures var (s, answer) := Sections.NextWithRetry(ss[k]);
      DispensedAll(ss[k := s]) == DispensedAll(ss) + (if answer.Some? then multiset{answer.value} else multiset{})
  {
    var (s, answer) := Sections.NextWithRetry(ss[k]);
    var extra := if answer.Some? then multiset{answer.value} else multiset{};
    var before := multiset(Sections.Dispensed(ss[k]));
    UpdateOne(ss, k, s);
    assert multiset(Sections.Dispensed(s)) == before + extra;
    Cancel(DispensedAll(ss[k := s]), DispensedAll(ss) + extra, before);
  }

  /** `CollaborativeBuildManager.getNextBlock`: nothing once the build is complete; otherwise
      the caller joins the participants, is bound to a section on its first call (and never
      rebound), and receives its section's next placement, if any. Every placement handed
      out is accounted for exactly once. */
  function GetNextBlock(b: Build, worker: string): (r: (Build, Option<Placement>))
    requires Indexed(b)
    ensures Indexed(r.0) && (Valid(b) ==> Valid(r.0))
    ensures r.0.id == b.id && r.0.plan == b.plan && r.0.start == b.start
    ensures IsComplete(b) ==> r == (b, None)
    ensures DispensedAll(r.0.sections)
         == DispensedAll(b.sections) + (if r.1.Some? then multiset{r.1.value} else multiset{})
  {
    if IsComplete(b) then (b, None)
    else
      var joined := b.(participants := b.participants + {worker});
      if worker in joined.assignment then Dispense(joined, joined.assignment[worker])
      else
        var (bound, index) := AssignToSection(joined, worker);
        if index.None? then (bound, None)  // `assignSteveToSection` found no section
        else Dispense(bound, index.value)
  }

  /** `participatingSteves` only grows, and every caller of an incomplete build joins it. */
  lemma ParticipantsGrow(b: Build, worker: string)
    requires Indexed(b)
    ensures var b' := GetNextBlock(b, worker).0;
      && b.participants <= b'.participants <= b.participants + {worker}
      && (!IsComplete(b) ==> worker in b'.participants)
  {
  }

  /** Bindings are sticky: an existing one never changes, only the caller can gain one, and the
      caller of an incomplete build always ends up bound, on its first call to the section the
      two-pass policy prefers. */
  lemma BindingsSticky(b: Build, worker: string)
    requires Indexed(b)
    ensures var b' := GetNextBlock(b, worker).0;
      && (forall u :: u in b.assignment ==> u in b'.assignment && b'.assignment[u] == b.assignment[u])
      && b'.assignment.Keys <= b.assignment.Keys + {worker}
      && (!IsComplete(b) ==> worker in b'.assignment)
      && (!IsComplete(b) && worker !in b.assignment ==> PreferredSection(b, b'.assignment[worker]))
  {
    if !IsComplete(b) && worker !in b.assignment {
      var joined := b.(participants := b.participants + {worker});
      var (bound, index) := AssignToSection(joined, worker);
      assert PreferredSection(joined, index.value);
      assert GetNextBlock(b, worker).0.assignment == bound.assignment;
    }
  }

  /** Only the caller's section moves, and only forward; the answer is that section's next
      placement in index order. */
  lemma AnswerIsNextOfOwnSection(b: Build, worker: string)
    requires Indexed(b)
    ensures var (b', answer) := GetNextBlock(b, worker);
      && |b'.sections| == |b.sections|
      && (forall j :: 0 <= j < |b.sections| ==>
            b'.sections[j].blocks == b.sections[j].blocks && b'.sections[j].cursor >= b.sections[j].cursor)
      && (forall j :: 0 <= j < |b.sections| && (worker !in b'.assignment || j != b'.assignment[worker]) ==>
            b'.sections[j] == b.sections[j])
      && (answer.Some? ==>
            && worker in b'.assignment
            && var k := b'.assignment[worker];
               answer.value == b.sections[k].blocks[Sections.Placed(b.sections[k])])
  {
    if !IsComplete(b) {
      var (b', answer) := GetNextBlock(b, worker);
      var k := StepSection(b, worker);
      assert (b', answer) == Dispense(b.(participants := b'.participants, assignment := b'.assignment), k);
    }
  }

  /** The section an incomplete build's caller is served from: its existing binding, or the
      one it is bound to now. */
  function StepSection(b: Build, worker: string): (k: nat)
    requires Indexed(b) && !IsComplete(b)
    ensures var (b', answer) := GetNextBlock(b, worker);
      && k < |b.sections|
      && worker in b'.assignment && b'.assignment[worker] == k
      && b'.participants == b.participants + {worker}
      && (worker !in b.assignment ==> b'.assignment == b.assignment[worker := k])
      && (worker in b.assignment ==> b'.assignment == b.assignment)
      && (b', answer) == Dispense(b.(participants := b'.participants, assignment := b'.assignment), k)
  {
    var joined := b.(participants := b.participants + {worker});
    if worker in joined.assignment then joined.assignment[worker]
    else
      var (bound, index) := AssignToSection(joined, worker);
      index.value
  }

  /** A worker bound to a drained section gets nothing, even while other sections still have
      work; any other caller of an incomplete build gets a placement. */
  lemma DrainedBindingStarves(b: Build, worker: string)
    requires Indexed(b)
    ensures var answer := GetNextBlock(b, worker).1;
      && (worker in b.assignment && Sections.IsComplete(b.sections[b.assignment[worker]]) ==> answer.None?)
      && ((!IsComplete(b) && (worker !in b.assignment || !Sections.IsComplete(b.sections[b.assignment[worker]])))
            ==> answer.Some?)
  {
  }

  /** A worker calling for the first time on an incomplete build always receives a placement,
      and it is one of the plan's. */
  lemma NewcomerPlaces(b: Build, worker: string)
    requires Valid(b) && !IsComplete(b) && worker !in b.assignment
    ensures GetNextBlock(b, worker).1.Some?
    ensures GetNextBlock(b, worker).1.value in b.plan
  {
    var joined := b.(participants := b.participants + {worker});
    var (bound, index) := AssignToSection(joined, worker);
    assert index.Some? && !Sections.IsComplete(bound.sections[index.value]);
    assert GetNextBlock(b, worker) == Dispense(bound, index.value);
    var (b', p) := GetNextBlock(b, worker);
    CompleteIffAllPlaced(b');
    assert p.value in DispensedAll(b'.sections);
  }

  // ---- Runs: sequences of atomic calls -------------------------------------------------

  /** Calls of `getNextBlock` by the given workers, one after the other, each one atomic step;
      the answers are in call order. This is the model of concurrent workers: any
      interleaving of whole calls is some sequence of workers. */
  function Run(b: Build, workers: seq<string>): (r: (Build, seq<Option<Placement>>))
    requires Indexed(b)
    ensures Indexed(r.0) && (Valid(b) ==> Valid(r.0)) && r.0.plan == b.plan && |r.1| == |workers|
    decreases |workers|
  {
    if |workers| == 0 then (b, [])
    else
      var (b1, answer) := GetNextBlock(b, workers[0]);
      var (b2, answers) := Run(b1, workers[1..]);
      (b2, [answer] + answers)
  }

  lemma RunStep(b: Build, workers: seq<string>)
    requires Indexed(b) && |workers| > 0
    ensures var (b1, answer) := GetNextBlock(b, workers[0]);
      Run(b, workers) == (Run(b1, workers[1..]).0, [answer] + Run(b1, workers[1..]).1)
  {
  }

  /** Over any run, the placements handed out are exactly what the sections' cursors moved past. */
  lemma {:induction false} RunAccounting(b: Build, workers: seq<string>)
    requires Indexed(b)
    ensures var (b', answers) := Run(b, workers);
      DispensedAll(b'.sections) == DispensedAll(b.sections) + multiset(Somes(answers))
    decreases |workers|
  {
    if |workers| > 0 {
      var (b1, answer) := GetNextBlock(b, workers[0]);
      RunAccounting(b1, workers[1..]);
      var (b2, answers) := Run(b1, workers[1..]);
      assert ([answer] + answers)[1..] == answers;
      assert Somes([answer] + answers) == (if answer.Some? then [answer.value] else []) + Somes(answers);
    }
  }

  lemma {:induction false} NothingDispensedYet(ss: seq<Section>)
    requires forall i :: 0 <= i < |ss| ==> ss[i].cursor == 0
    ensures DispensedAll(ss) == multiset{}
  {
    if |ss| > 0 {
      NothingDispensedYet(ss[1..]);
    }
  }

  /** However many workers call, in whatever order, a fresh build hands out each placement of
      its plan at most as often as it occurs in the plan, and it is complete exactly when it
      has handed out the whole plan. */
  lemma AtMostOnce(id: string, plan: seq<Placement>, start: Pos, workers: seq<string>)
    ensures var (b', answers) := Run(NewBuild(id, plan, start), workers);
      && multiset(Somes(answers)) <= multiset(plan)
      && (IsComplete(b') <==> multiset(Somes(answers)) == multiset(plan))
  {
    var b := NewBuild(id, plan, start);
    DivideShape(plan);
    NothingDispensedYet(b.sections);
    RunAccounting(b, workers);
    var (b', answers) := Run(b, workers);
    CompleteIffAllPlaced(b');
  }

  /** Completion is permanent: calls on a complete build change nothing and hand out nothing. */
  lemma {:induction false} CompleteIsFinal(b: Build, workers: seq<string>)
    requires Indexed(b) && IsComplete(b)
    ensures Run(b, workers).0 == b
    ensures forall i :: 0 <= i < |workers| ==> Run(b, workers).1[i].None?
    decreases |workers|
  {
    if |workers| > 0 {
      var rest := workers[1..];
      CompleteIsFinal(b, rest);
      RunStep(b, workers);
      assert GetNextBlock(b, workers[0]) == (b, None);
      var answers := [None] + Run(b, rest).1;
      assert Run(b, workers) == (b, answers);
      forall i | 0 <= i < |workers| ensures answers[i].None? {
        if i > 0 {
          assert answers[i] == Run(b, rest).1[i - 1];
        }
      }
    }
  }

  /** One call by a worker whose section is drained: nothing is handed out, the build stays
      incomplete and the worker stays bound to a drained section. */
  lemma StalledStep(b: Build, worker: string)
    requires Indexed(b) && !IsComplete(b)
    requires worker in b.assignment && Sections.IsComplete(b.sections[b.assignment[worker]])
    ensures GetNextBlock(b, worker).1.None?
    ensures !IsComplete(GetNextBlock(b, worker).0)
    ensures var b' := GetNextBlock(b, worker).0;
      worker in b'.assignment && Sections.IsComplete(b'.sections[b'.assignment[worker]])
  {
    DrainedBindingStarves(b, worker);
    BindingsSticky(b, worker);
    AnswerIsNextOfOwnSection(b, worker);
    var b1 := GetNextBlock(b, worker).0;
    var k := b.assignment[worker];
    var j :| 0 <= j < |b.sections| && !Sections.IsComplete(b.sections[j]);
    assert b1.sections[j] == b.sections[j];
    assert !Sections.IsComplete(b1.sections[j]);
    assert Sections.IsComplete(b1.sections[k]) by {
      assert b1.sections[k].blocks == b.sections[k].blocks;
    }
  }

  /** The sticky binding can stall a worker: once its own section is drained, a worker gets
      nothing on every later call even though other sections still have work, so a lone
      worker never finishes a build that spans several quadrants. */
  lemma {:induction false} DrainedWorkerStalls(b: Build, worker: string, calls: seq<string>)
    requires Indexed(b) && !IsComplete(b)
    requires worker in b.assignment && Sections.IsComplete(b.sections[b.assignment[worker]])
    requires forall i :: 0 <= i < |calls| ==> calls[i] == worker
    ensures !IsComplete(Run(b, calls).0)
    ensures forall i :: 0 <= i < |calls| ==> Run(b, calls).1[i].None?
    decreases |calls|
  {
    if |calls| > 0 {
      assert calls[0] == worker;
      StalledStep(b, worker);
      var r1 := GetNextBlock(b, worker);
      var rest := calls[1..];
      assert forall i :: 0 <= i < |rest| ==> rest[i] == worker by {
        forall i | 0 <= i < |rest| ensures rest[i] == worker {
          assert rest[i] == calls[i + 1];
        }
      }
      DrainedWorkerStalls(r1.0, worker, rest);
      RunStep(b, calls);
      var r2 := Run(r1.0, rest);
      var answers := [r1.1] + r2.1;
      assert Run(b, calls) == (r2.0, answers);
      forall i | 0 <= i < |answers| ensures answers[i].None? {
        if i > 0 {
          assert answers[i] == r2.1[i - 1];
        }
      }
    }
  }

  // ---- Spreading out -------------------------------------------------------------------

  /** The sections of a valid build are never empty. */
  lemma SectionsNonEmpty(b: Build)
    requires Valid(b)
    ensures forall i :: 0 <= i < |b.sections| ==> |b.sections[i].blocks| > 0
  {
    DivideShape(b.plan);
  }

  predicate Distinct(ws: seq<string>) {
    forall i, l :: 0 <= i < l < |ws| ==> ws[i] != ws[l]
  }

  /** After the first `j` of the distinct workers `ws` have called once each on a fresh build:
      worker `ws[i]` holds section `i`, nobody else holds one, and exactly the first `j`
      sections have moved by one placement. */
  ghost predicate SpreadAfter(b: Build, ws: seq<string>, j: nat) {
    && j <= |ws| <= |b.sections|
    && (forall w :: w in b.assignment <==> exists i :: 0 <= i < j && ws[i] == w)
    && (forall i :: 0 <= i < j ==> ws[i] in b.assignment && b.assignment[ws[i]] == i)
    && (forall i :: 0 <= i < |b.sections| ==> b.sections[i].cursor == if i < j then 1 else 0)
  }

  /** With the first `j` sections held by one worker each, the policy picks section `j`. */
  lemma SpreadChoosesNext(b: Build, ws: seq<string>, j: nat)
    requires Valid(b) && SpreadAfter(b, ws, j) && j < |ws|
    ensures ChooseSection(b) == Some(j)
  {
    SectionsNonEmpty(b);
    assert !Sections.IsComplete(b.sections[j]);
    var taken := b.assignment.Values;
    assert j !in taken;
    forall i | 0 <= i < j ensures i in taken {
      assert b.assignment[ws[i]] == i;
    }
  }

  /** The next distinct worker is bound to section `j`, which moves by one placement. */
  lemma SpreadStepEffect(b: Build, ws: seq<string>, j: nat)
    requires Valid(b) && Distinct(ws) && SpreadAfter(b, ws, j) && j < |ws|
    ensures var b' := GetNextBlock(b, ws[j]).0;
      && b'.assignment == b.assignment[ws[j] := j]
      && |b'.sections| == |b.sections|
      && (forall i :: 0 <= i < |b.sections| && i != j ==> b'.sections[i].cursor == b.sections[i].cursor)
      && b'.sections[j].cursor == 1
  {
    var w := ws[j];
    SpreadChoosesNext(b, ws, j);
    SectionsNonEmpty(b);
    assert w !in b.assignment;
    assert !IsComplete(b);
    var bound := b.(participants := b.participants + {w}, assignment := b.assignment[w := j]);
    assert GetNextBlock(b, w) == Dispense(bound, j);
  }

  /** One more distinct worker takes the next untouched section. */
  lemma SpreadStep(b: Build, ws: seq<string>, j: nat)
    requires Valid(b) && Distinct(ws) && SpreadAfter(b, ws, j) && j < |ws|
    ensures SpreadAfter(GetNextBlock(b, ws[j]).0, ws, j + 1)
  {
    SpreadStepEffect(b, ws, j);
    SpreadAfterNext(b, GetNextBlock(b, ws[j]).0, ws, j);
  }

  /** Binding worker `j` to section `j` and moving that section on extends the spread by one. */
  lemma SpreadAfterNext(b: Build, b': Build, ws: seq<string>, j: nat)
    requires Distinct(ws) && SpreadAfter(b, ws, j) && j < |ws|
    requires b'.assignment == b.assignment[ws[j] := j] && |b'.sections| == |b.sections|
    requires forall i :: 0 <= i < |b.sections| && i != j ==> b'.sections[i].cursor == b.sections[i].cursor
    requires b'.sections[j].cursor == 1
    ensures SpreadAfter(b', ws, j + 1)
  {
    assert forall v :: v in b'.assignment <==> exists i :: 0 <= i < j + 1 && ws[i] == v by {
      forall v ensures v in b'.assignment <==> exists i :: 0 <= i < j + 1 && ws[i] == v {
        if v in b.assignment {
          var i :| 0 <= i < j && ws[i] == v;
          assert 0 <= i < j + 1 && ws[i] == v;
        }
      }
    }
    assert forall i :: 0 <= i < j + 1 ==> ws[i] in b'.assignment && b'.assignment[ws[i]] == i by {
      forall i | 0 <= i < j + 1 ensures ws[i] in b'.assignment && b'.assignment[ws[i]] == i {
        if i < j {
          assert ws[i] != ws[j];
        }
      }
    }
  }

  /** Fairness: on a fresh build, the first distinct workers, at most one per section, each
      get a section of their own, in order, before any section gets a second worker. */
  lemma {:induction false} SpreadOut(b: Build, ws: seq<string>, j: nat)
    requires Valid(b) && Distinct(ws) && SpreadAfter(b, ws, j)
    ensures SpreadAfter(Run(b, ws[j..]).0, ws, |ws|)
    decreases |ws| - j
  {
    if j < |ws| {
      SpreadStep(b, ws, j);
      var b1 := GetNextBlock(b, ws[j]).0;
      SpreadOut(b1, ws, j + 1);
      assert ws[j..][1..] == ws[j + 1..];
    }
  }

  /** The first `|sections|` distinct workers to call on a fresh build are bound one to each
      section, in call order. */
  lemma FreshBuildSpreadsWorkers(id: string, plan: seq<Placement>, start: Pos, ws: seq<string>)
    requires Distinct(ws) && |ws| <= |Divide(plan)|
    ensures forall i :: 0 <= i < |ws| ==>
      ws[i] in Run(NewBuild(id, plan, start), ws).0.assignment
      && Run(NewBuild(id, plan, start), ws).0.assignment[ws[i]] == i
  {
    var b := NewBuild(id, plan, start);
    SpreadStart(id, plan, start, ws);
    SpreadOut(b, ws, 0);
    assert ws[0..] == ws;
  }

  /** Before anyone calls, no worker holds a section and no section has moved. */
  lemma SpreadStart(id: string, plan: seq<Placement>, start: Pos, ws: seq<string>)
    requires |ws| <= |Divide(plan)|
    ensures SpreadAfter(NewBuild(id, plan, start), ws, 0)
  {
    DivideShape(plan);
  }
}
