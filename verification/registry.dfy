/** `BuildManager`: the process-wide table of active collaborative builds (`activeBuilds`).

    Java hands out references: a worker that holds a build keeps using it after the table has
    dropped it. The model therefore keeps every build ever registered in `heap`, addressed by
    index, and the table `active` maps a build id to the index of its build. */
module BuildManager {
  import opened Wrappers
  import opened Blocks
  import Text
  import opened CollaborativeBuild

  datatype Registry = Registry(heap: seq<IndexedBuild>, active: map<string, nat>)

  /** Every entry of the table names a stored build whose id is the entry's key. */
  predicate Wellformed(r: Registry) {
    forall k :: k in r.active ==> r.active[k] < |r.heap| && r.heap[r.active[k]].id == k
  }

  const Empty := Registry([], map[])

  /** The id `registerBuild` gives a build: the structure type, an underscore and the clock
      reading in milliseconds, which the model takes as a parameter. */
  function BuildId(structureType: string, now: nat): (id: string)
    ensures Text.StartsWith(id, structureType)
    ensures |id| > |structureType| && id[|structureType|] == '_'
  {
    structureType + "_" + Text.Decimal(now)
  }

  /** Two registrations of one type at different instants get different ids. */
  lemma BuildIdInjective(structureType: string, m: nat, n: nat)
    requires BuildId(structureType, m) == BuildId(structureType, n)
    ensures m == n
  {
    var p := |structureType| + 1;
    assert Text.Decimal(m) == BuildId(structureType, m)[p..];
    assert Text.Decimal(n) == BuildId(structureType, n)[p..];
    Text.DecimalInjective(m, n);
  }

  /** `registerBuild`: makes a fresh build of the plan and puts it in the table under its id,
      replacing any build registered under the same id. Returns a reference to the new build. */
  function Register(r: Registry, structureType: string, plan: seq<Placement>, start: Pos, now: nat)
    : (res: (Registry, nat))
    requires Wellformed(r)
    ensures Wellformed(res.0)
    ensures var id := BuildId(structureType, now);
      && res.0.heap == r.heap + [NewBuild(id, plan, start)]
      && res.1 == |r.heap|
      && res.0.active.Keys == r.active.Keys + {id}
      && res.0.active[id] == res.1
      && (forall k :: k in r.active && k != id ==> res.0.active[k] == r.active[k])
  {
    Install(r, NewBuild(BuildId(structureType, now), plan, start))
  }

  /** Stores `b` and points the table entry for its id at it. */
  function Install(r: Registry, b: IndexedBuild): (res: (Registry, nat))
    requires Wellformed(r)
    ensures Wellformed(res.0)
    ensures res.0.heap == r.heap + [b] && res.1 == |r.heap|
    ensures res.0.active.Keys == r.active.Keys + {b.id} && res.0.active[b.id] == res.1
    ensures forall k :: k in r.active && k != b.id ==> res.0.active[k] == r.active[k]
  {
    AppendKeepsWellformed(r, b);
    (Registry(r.heap + [b], r.active[b.id := |r.heap|]), |r.heap|)
  }

  /** `getBuild`: the build registered under `id`, if the table still holds it. */
  function GetBuild(r: Registry, id: string): (found: Option<nat>)
    requires Wellformed(r)
    ensures found.Some? ==> found.value < |r.heap| && r.heap[found.value].id == id
    ensures found.None? <==> id !in r.active
  {
    if id in r.active then Some(r.active[id]) else None
  }

  /** `completeBuild`: drops `id` from the table; the build itself is untouched. */
  function CompleteBuild(r: Registry, id: string): (r': Registry)
    requires Wellformed(r)
    ensures Wellformed(r')
    ensures r'.heap == r.heap
    ensures r'.active.Keys == r.active.Keys - {id}
    ensures forall k :: k in r'.active ==> r'.active[k] == r.active[k]
  {
    Registry(r.heap, r.active - {id})
  }

  /** After `completeBuild` the id is gone, a second `completeBuild` changes nothing, and a
      reference held from before still designates the same build. */
  lemma CompleteBuildForgets(r: Registry, id: string, ref: nat)
    requires Wellformed(r) && ref < |r.heap|
    ensures GetBuild(CompleteBuild(r, id), id).None?
    ensures CompleteBuild(CompleteBuild(r, id), id) == CompleteBuild(r, id)
    ensures CompleteBuild(r, id).heap[ref] == r.heap[ref]
  {
  }

  /** The test `findActiveBuild` applies to each build: the id begins with the requested type
      (a plain prefix test, so "modern" also matches "modern_house_…") and the build is incomplete. */
  predicate Matches(b: Build, structureType: string) {
    Text.StartsWith(b.id, structureType) && !IsComplete(b)
  }

  /** Key `k` is in the table and its build passes the test. */
  predicate Hit(r: Registry, k: string, structureType: string) {
    k in r.active && r.active[k] < |r.heap| && Matches(r.heap[r.active[k]], structureType)
  }

  /** `findActiveBuild`. The table is a hash map whose iteration order Java leaves open, so
      the model takes that order as `order`, a list of keys; keys not in the table are skipped.
      The answer is the first matching build in that order. */
  function FindActive(r: Registry, structureType: string, order: seq<string>): (found: Option<nat>)
    ensures found.Some? ==>
      exists i :: 0 <= i < |order| && Hit(r, order[i], structureType) && r.active[order[i]] == found.value
        && forall j :: 0 <= j < i ==> !Hit(r, order[j], structureType)
    ensures found.None? <==> forall i :: 0 <= i < |order| ==> !Hit(r, order[i], structureType)
    decreases |order|
  {
    if |order| == 0 then None
    else if Hit(r, order[0], structureType) then Some(r.active[order[0]])
    else FindActiveRest(r, structureType, order)
  }

  function FindActiveRest(r: Registry, structureType: string, order: seq<string>): (found: Option<nat>)
    requires |order| > 0 && !Hit(r, order[0], structureType)
    ensures found.Some? ==>
      exists i :: 0 <= i < |order| && Hit(r, order[i], structureType) && r.active[order[i]] == found.value
        && forall j :: 0 <= j < i ==> !Hit(r, order[j], structureType)
    ensures found.None? <==> forall i :: 0 <= i < |order| ==> !Hit(r, order[i], structureType)
    decreases |order|, 0
  {
    var rest := FindActive(r, structureType, order[1..]);
    assert forall i :: 1 <= i < |order| ==> order[i] == order[1..][i - 1];
    if rest.Some? then
      var i :| 0 <= i < |order[1..]| && Hit(r, order[1..][i], structureType) && r.active[order[1..][i]] == rest.value
        && forall j :: 0 <= j < i ==> !Hit(r, order[1..][j], structureType);
      assert Hit(r, order[i + 1], structureType);
      rest
    else
      rest
  }

  /** When `order` lists every key of the table (as an iteration does), nothing is found
      exactly when no active build matches. */
  lemma FindActiveIsComplete(r: Registry, structureType: string, order: seq<string>)
    requires Wellformed(r)
    requires forall k :: k in r.active ==> k in order
    ensures FindActive(r, structureType, order).None? <==>
      forall k :: k in r.active ==> !Matches(r.heap[r.active[k]], structureType)
  {
    if FindActive(r, structureType, order).None? {
      forall k | k in r.active ensures !Matches(r.heap[r.active[k]], structureType) {
        var i :| 0 <= i < |order| && order[i] == k;
      }
    }
  }

  /** A build registered with a non-empty plan is found by its own type, whatever the order. */
  lemma RegisteredIsFound(r: Registry, structureType: string, plan: seq<Placement>, start: Pos, now: nat,
                          order: seq<string>)
    requires Wellformed(r) && |plan| > 0
    requires forall k :: k in Register(r, structureType, plan, start, now).0.active ==> k in order
    ensures FindActive(Register(r, structureType, plan, start, now).0, structureType, order).Some?
  {
    var (r', ref) := Register(r, structureType, plan, start, now);
    var id := BuildId(structureType, now);
    NewBuildProgress(id, plan, start);
    assert Matches(r'.heap[r'.active[id]], structureType);
    FindActiveIsComplete(r', structureType, order);
  }

  /** The prefix test matches across types: a request for one type also finds an open build of
      any longer type that begins with it ("modern" finds "modern_house_…") when that build
      comes first in the iteration. */
  lemma PrefixMatchesLongerType(r: Registry, requested: string, registered: string, plan: seq<Placement>,
                                start: Pos, now: nat, order: seq<string>)
    requires Wellformed(r) && |plan| > 0 && Text.StartsWith(registered, requested)
    requires |order| > 0 && order[0] == BuildId(registered, now)
    ensures var (r', ref) := Register(r, registered, plan, start, now);
      FindActive(r', requested, order) == Some(ref)
  {
    var (r', ref) := Register(r, registered, plan, start, now);
    var id := BuildId(registered, now);
    assert Hit(r', id, requested) by {
      NewBuildProgress(id, plan, start);
      assert id[..|requested|] == registered[..|requested|];
    }
  }

  lemma ModernFindsModernHouse(plan: seq<Placement>, start: Pos, now: nat)
    requires |plan| > 0
    ensures var (r', ref) := Register(Empty, "modern_house", plan, start, now);
      FindActive(r', "modern", [BuildId("modern_house", now)]) == Some(0)
  {
    assert "modern_house"[..|"modern"|] == "modern";
    PrefixMatchesLongerType(Empty, "modern", "modern_house", plan, start, now, [BuildId("modern_house", now)]);
  }

  /** `cleanupCompletedBuilds`: drops exactly the complete builds from the table. */
  function Sweep(r: Registry): (r': Registry)
    requires Wellformed(r)
    ensures Wellformed(r')
    ensures r'.heap == r.heap
    ensures forall k :: k in r'.active <==> k in r.active && !IsComplete(r.heap[r.active[k]])
    ensures forall k :: k in r'.active ==> r'.active[k] == r.active[k]
  {
    Registry(r.heap, map k | k in r.active && !IsComplete(r.heap[r.active[k]]) :: r.active[k])
  }

  /** Sweeping twice is sweeping once. */
  lemma SweepIdempotent(r: Registry)
    requires Wellformed(r)
    ensures Sweep(Sweep(r)) == Sweep(r)
  {
    assert Sweep(Sweep(r)).active == Sweep(r).active;
  }

  /** Sweeping never changes what `findActiveBuild` answers, since it skips complete builds anyway. */
  lemma {:induction false} SweepIsInvisible(r: Registry, structureType: string, order: seq<string>)
    requires Wellformed(r)
    ensures FindActive(Sweep(r), structureType, order) == FindActive(r, structureType, order)
    decreases |order|
  {
    if |order| > 0 {
      var k := order[0];
      assert Hit(Sweep(r), k, structureType) <==> Hit(r, k, structureType);
      SweepIsInvisible(r, structureType, order[1..]);
    }
  }

  lemma UpdateKeepsWellformed(r: Registry, ref: nat, b: IndexedBuild)
    requires Wellformed(r) && ref < |r.heap| && b.id == r.heap[ref].id
    ensures Wellformed(r.(heap := r.heap[ref := b]))
  {
    var heap := r.heap[ref := b];
    forall k | k in r.active ensures r.active[k] < |heap| && heap[r.active[k]].id == k {
      var i := r.active[k];
      assert heap[i].id == r.heap[i].id;
    }
  }

  lemma AppendKeepsWellformed(r: Registry, b: IndexedBuild)
    requires Wellformed(r)
    ensures Wellformed(Registry(r.heap + [b], r.active[b.id := |r.heap|]))
  {
    var heap := r.heap + [b];
    var active := r.active[b.id := |r.heap|];
    forall k | k in active ensures active[k] < |heap| && heap[active[k]].id == k {
      if k != b.id {
        assert heap[r.active[k]] == r.heap[r.active[k]];
      }
    }
  }

  /** `CollaborativeBuildManager.getNextBlock` on a held reference, which may or may not
      still be in the table. Only that build changes. */
  function NextBlock(r: Registry, ref: nat, worker: string): (res: (Registry, Option<Placement>))
    requires Wellformed(r) && ref < |r.heap|
    ensures Wellformed(res.0)
    ensures res.0.active == r.active && |res.0.heap| == |r.heap|
    ensures forall i :: 0 <= i < |r.heap| && i != ref ==> res.0.heap[i] == r.heap[i]
    ensures IsComplete(r.heap[ref]) ==> res == (r, None)
    ensures var (b, b') := (r.heap[ref], res.0.heap[ref]);
      && b'.id == b.id && b'.plan == b.plan && b'.start == b.start
      && DispensedAll(b'.sections)
         == DispensedAll(b.sections) + (if res.1.Some? then multiset{res.1.value} else multiset{})
  {
    var (b', answer) := GetNextBlock(r.heap[ref], worker);
    UpdateKeepsWellformed(r, ref, b');
    assert IsComplete(r.heap[ref]) ==> r.heap[ref := b'] == r.heap;
    (r.(heap := r.heap[ref := b']), answer)
  }

  /** Handing out a block never makes a build disappear from the table or another build's
      progress change, and a complete build stays complete. */
  lemma NextBlockKeepsCompletion(r: Registry, ref: nat, worker: string, i: nat)
    requires Wellformed(r) && ref < |r.heap| && i < |r.heap|
    requires IsComplete(r.heap[i])
    ensures IsComplete(NextBlock(r, ref, worker).0.heap[i])
  {
  }
}
