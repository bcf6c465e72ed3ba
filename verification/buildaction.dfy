/** The decision logic of the build action a worker runs: how it reads block names, materials
    and dimensions from its task, whether it joins an open collaborative build or registers a
    new one, and what each game tick does. The world (ground search, template files, block
    placement, movement, particles, sound) is outside the model: its answers are parameters. */
module BuildAction {
  import opened Wrappers
  import opened Blocks
  import Text
  import opened CollaborativeBuild
  import opened BuildManager

  // ---- Block names --------------------------------------------------------------------------

  /** The namespace `parseBlock` adds to a bare block name. */
  const Namespace := "minecraft:"

  /** One character of a block name after lower-casing and `replace(" ", "_")`. */
  function NameChar(c: char): (r: char)
    ensures r != ' ' && !('A' <= r <= 'Z')
  {
    if c == ' ' then '_' else Text.LowerChar(c)
  }

  /** `toLowerCase().replace(" ", "_")`, character by character. */
  function Spaced(name: string): (s: string)
    ensures |s| == |name|
    ensures forall i :: 0 <= i < |name| ==> s[i] == NameChar(name[i])
  {
    Text.ReplaceChar(Text.Lower(name), ' ', '_')
  }

  /** Lower-casing and replacing spaces neither adds nor removes a colon. */
  lemma SpacedColon(name: string)
    ensures Text.Contains(Spaced(name), ':') <==> Text.Contains(name, ':')
  {
    var s := Spaced(name);
    if Text.Contains(name, ':') {
      var i :| 0 <= i < |name| && name[i] == ':';
      assert s[i] == ':';
    }
    if Text.Contains(s, ':') {
      var i :| 0 <= i < |s| && s[i] == ':';
      assert name[i] == ':';
    }
  }

  lemma NamespaceChars()
    ensures |Namespace| == 10 && Namespace[9] == ':'
    ensures forall i :: 0 <= i < |Namespace| ==> Namespace[i] != ' ' && !('A' <= Namespace[i] <= 'Z')
  {
  }

  /** The name `parseBlock` looks up: lower-cased, spaces turned into underscores, and
      `minecraft:` put in front when the name has no namespace of its own. */
  function Normalize(name: string): (r: string)
    ensures Text.Contains(r, ':')
  {
    var s := Spaced(name);
    SpacedColon(name);
    if Text.Contains(s, ':') then s
    else
      NamespaceChars();
      assert (Namespace + s)[9] == ':';
      Namespace + s
  }

  /** The normal form is the name, character by character lower-cased with spaces made
      underscores, behind a `minecraft:` prefix exactly when the name has no colon; it is lower
      case and has no spaces. */
  lemma NormalizeShape(name: string)
    ensures var r := Normalize(name);
      && Text.IsLower(r) && !Text.Contains(r, ' ')
      && (|r| == |name| <==> Text.Contains(name, ':'))
      && (|r| == |name| || (|r| == |name| + |Namespace| && r[..|Namespace|] == Namespace))
      && (forall i :: 0 <= i < |name| ==> r[|r| - |name| + i] == NameChar(name[i]))
  {
    var s := Spaced(name);
    SpacedColon(name);
    NamespaceChars();
    if !Text.Contains(s, ':') {
      var r := Namespace + s;
      assert r[..|Namespace|] == Namespace;
      assert forall i :: 0 <= i < |s| ==> r[10 + i] == s[i];
    }
  }

  /** A normalised name is its own normal form. */
  lemma NormalizeIdempotent(name: string)
    ensures Normalize(Normalize(name)) == Normalize(name)
  {
    var r := Normalize(name);
    var r' := Normalize(r);
    NormalizeShape(name);
    NormalizeShape(r);
    assert |r'| == |r|;
    forall i | 0 <= i < |r| ensures r'[i] == r[i] {
      assert r'[|r'| - |r| + i] == NameChar(r[i]);
      assert r[i] != ' ' by {
        assert !Text.Contains(r, ' ');
      }
    }
  }

  /** The block registry: the block a resource id names, `None` where
      `BuiltInRegistries.BLOCK` returns `null`. */
  type Lookup = string -> Option<Block>

  /** `parseBlock`: the block the normalised name names, AIR when there is none. */
  function ParseBlock(name: string, lookup: Lookup): (b: Block)
    ensures b != Air ==> lookup(Normalize(name)) == Some(b)
    ensures lookup(Normalize(name)).None? ==> b == Air
  {
    match lookup(Normalize(name))
    case None => Air
    case Some(b) => b
  }

  /** Names that differ only in case, in spaces against underscores, or in an explicit
      `minecraft:` prefix parse to the same block; parsing a normalised name changes nothing. */
  lemma ParseBlockByNormalForm(a: string, b: string, lookup: Lookup)
    requires Normalize(a) == Normalize(b)
    ensures ParseBlock(a, lookup) == ParseBlock(b, lookup)
    ensures ParseBlock(Normalize(a), lookup) == ParseBlock(a, lookup)
  {
    NormalizeIdempotent(a);
  }

  // ---- Materials ----------------------------------------------------------------------------

  /** The loop over the `blocks` list: parse each name, keep the ones that are not AIR, in order. */
  function SolidBlocks(names: seq<string>, lookup: Lookup): (bs: seq<Block>)
    ensures |bs| <= |names|
    ensures forall i :: 0 <= i < |bs| ==> bs[i] != Air
  {
    if |names| == 0 then []
    else
      var b := ParseBlock(names[0], lookup);
      (if b != Air then [b] else []) + SolidBlocks(names[1..], lookup)
  }

  /** A block is kept exactly when some listed name parses to it and it is not AIR. */
  lemma {:induction false} SolidBlocksMembers(names: seq<string>, lookup: Lookup, b: Block)
    ensures b in SolidBlocks(names, lookup)
        <==> b != Air && exists i :: 0 <= i < |names| && ParseBlock(names[i], lookup) == b
  {
    if |names| > 0 {
      SolidBlocksMembers(names[1..], lookup, b);
      if exists i :: 0 <= i < |names| && ParseBlock(names[i], lookup) == b {
        var i :| 0 <= i < |names| && ParseBlock(names[i], lookup) == b;
        if i > 0 {
          assert names[1..][i - 1] == names[i];
        }
      }
      if exists i :: 0 <= i < |names| - 1 && ParseBlock(names[1..][i], lookup) == b {
        var i :| 0 <= i < |names| - 1 && ParseBlock(names[1..][i], lookup) == b;
        assert ParseBlock(names[i + 1], lookup) == b;
      }
    }
  }

  /** When every listed name parses to a real block, all of them are kept, in list order. */
  lemma {:induction false} SolidBlocksKeepsOrder(names: seq<string>, lookup: Lookup)
    requires forall i :: 0 <= i < |names| ==> ParseBlock(names[i], lookup) != Air
    ensures |SolidBlocks(names, lookup)| == |names|
    ensures forall i :: 0 <= i < |names| ==> SolidBlocks(names, lookup)[i] == ParseBlock(names[i], lookup)
  {
    if |names| > 0 {
      assert forall i :: 0 <= i < |names| - 1 ==> names[1..][i] == names[i + 1];
      SolidBlocksKeepsOrder(names[1..], lookup);
      var rest := SolidBlocks(names[1..], lookup);
      assert SolidBlocks(names, lookup) == [ParseBlock(names[0], lookup)] + rest;
    }
  }

  /** The default of the `material` parameter. */
  const DefaultMaterial := "oak_planks"

  /** The materials of a new build (`onStart`'s material defaulting): the solid blocks of
      the `blocks` list when it is a list and one survives; otherwise just the `material` parameter's block,
      or OAK_PLANKS when that parses to AIR. `blocks` is `None` when the parameter is not a list. */
  function Materials(blocks: Option<seq<string>>, material: Option<string>, lookup: Lookup): (ms: seq<Block>)
    ensures |ms| >= 1
    ensures forall i :: 0 <= i < |ms| ==> ms[i] != Air
    ensures blocks.Some? && |SolidBlocks(blocks.value, lookup)| > 0 ==> ms == SolidBlocks(blocks.value, lookup)
    ensures blocks.None? || |SolidBlocks(blocks.value, lookup)| == 0 ==>
      var fallback := ParseBlock(material.GetOr(DefaultMaterial), lookup);
      ms == [if fallback != Air then fallback else OakPlanks]
  {
    var listed := if blocks.Some? then SolidBlocks(blocks.value, lookup) else [];
    if |listed| > 0 then listed
    else
      var b := ParseBlock(material.GetOr(DefaultMaterial), lookup);
      [if b != Air then b else OakPlanks]
  }

  /** Every material comes from the request: from the `blocks` list, from the `material`
      parameter (or its default name), or is the OAK_PLANKS fallback. */
  lemma MaterialsFromTask(blocks: Option<seq<string>>, material: Option<string>, lookup: Lookup, b: Block)
    requires b in Materials(blocks, material, lookup)
    ensures || (blocks.Some? && exists i :: 0 <= i < |blocks.value| && ParseBlock(blocks.value[i], lookup) == b)
            || b == ParseBlock(material.GetOr(DefaultMaterial), lookup)
            || b == OakPlanks
  {
    if blocks.Some? && |SolidBlocks(blocks.value, lookup)| > 0 {
      SolidBlocksMembers(blocks.value, lookup, b);
    }
  }

  /** The materials used when joining an open build: a fixed list. */
  const JoinMaterials := [OakPlanks, Cobblestone, GlassPane]

  // ---- Dimensions ---------------------------------------------------------------------------

  datatype Dims = Dims(width: int, height: int, depth: int)

  /** `onStart`'s dimension defaulting. `dimensions` is `None` when the parameter is not a
      list; `width`, `height` and `depth` are the integer parameters, `None` when absent. */
  function Dimensions(dimensions: Option<seq<int>>, width: Option<int>, height: Option<int>, depth: Option<int>)
    : (d: Dims)
    ensures dimensions.Some? && |dimensions.value| >= 3 ==>
      d == Dims(dimensions.value[0], dimensions.value[1], dimensions.value[2])
    ensures dimensions.Some? && |dimensions.value| < 3 ==> d == Dims(9, 6, 9)
    ensures dimensions.None? ==> d == Dims(width.GetOr(5), height.GetOr(4), depth.GetOr(5))
  {
    if dimensions.Some? then
      var ds := dimensions.value;
      if |ds| >= 3 then Dims(ds[0], ds[1], ds[2]) else Dims(9, 6, 9)
    else Dims(width.GetOr(5), height.GetOr(4), depth.GetOr(5))
  }

  /** A `dimensions` list overrides the separate parameters entirely, and only its first three
      entries count. */
  lemma DimensionsListWins(ds: seq<int>, extra: seq<int>, w: Option<int>, h: Option<int>, d: Option<int>,
                           w': Option<int>, h': Option<int>, d': Option<int>)
    ensures Dimensions(Some(ds), w, h, d) == Dimensions(Some(ds), w', h', d')
    ensures |ds| >= 3 ==> Dimensions(Some(ds + extra), w, h, d) == Dimensions(Some(ds[..3]), w', h', d')
  {
    if |ds| >= 3 {
      assert (ds + extra)[..3] == ds[..3];
    }
  }

  // ---- onStart ------------------------------------------------------------------------------

  /** What a finished action reports. */
  datatype Outcome = Success(message: string) | Failure(message: string)

  /** The action's fields: the lower-cased structure type, the tick counter, whether it works
      on a collaborative build and which one (a reference into the registry), its materials and
      the plan it generated (`null` when it joined). */
  datatype Action = Action(
    structureType: string,
    ticks: nat,
    collaborative: bool,
    build: Option<nat>,
    materials: seq<Block>,
    plan: Option<seq<Placement>>)

  /** The task parameters `onStart` reads; a `None` list parameter is one that is not a list. */
  datatype Request = Request(
    structure: string,
    blocks: Option<seq<string>>,
    material: Option<string>,
    dimensions: Option<seq<int>>,
    width: Option<int>,
    height: Option<int>,
    depth: Option<int>)

  /** What the world answers while a build is set up: the ground position found (`None`
      stands for the `null` that `onStart` checks for; `findGroundLevel` as written always
      returns a position, so with it the `None` case never arises), the template plan loaded
      (`None` when no template exists), the state of the build table and its iteration order
      when the plan is ready (other workers may have acted since the action began), and the
      clock reading used for a new build's id. */
  datatype Site = Site(
    ground: Option<Pos>,
    template: Option<seq<Placement>>,
    later: Registry,
    laterOrder: seq<string>,
    now: nat)

  datatype Started = Started(registry: Registry, action: Action, outcome: Option<Outcome>)

  const NoGround := "Cannot find suitable ground for building in your field of view"
  const NoPlanPrefix := "Cannot generate build plan for: "

  /** `onStart`. An open build of the type is joined at once; otherwise the materials are read,
      ground is found, the template is loaded and, since the procedural fallback is commented
      out in `onStart`, a missing or empty template is a failure. With a plan in
      hand the table is consulted again: a build opened meanwhile is joined, else the plan is
      registered as a new build. */
  function OnStart(r: Registry, order: seq<string>, req: Request, lookup: Lookup, site: Site): (s: Started)
    requires Wellformed(r) && Wellformed(site.later)
    ensures Wellformed(s.registry)
    ensures s.action.structureType == Text.Lower(req.structure) && s.action.ticks == 0
    ensures s.outcome.None? <==> s.action.collaborative
    ensures s.outcome.None? ==> s.action.build.Some? && s.action.build.value < |s.registry.heap|
    ensures s.outcome.Some? ==> s.outcome.value.Failure? && s.registry == r && s.action.build.None?
  {
    var t := Text.Lower(req.structure);
    match FindActive(r, t, order)
    case Some(ref) =>
      FoundIsStored(r, t, order);
      Started(r, Action(t, 0, true, Some(ref), JoinMaterials, None), None)
    case None => Create(r, t, req, lookup, site)
  }

  /** A build `findActiveBuild` returns is a stored, matching build. */
  lemma FoundIsStored(r: Registry, t: string, order: seq<string>)
    requires FindActive(r, t, order).Some?
    ensures FindActive(r, t, order).value < |r.heap|
    ensures Matches(r.heap[FindActive(r, t, order).value], t)
  {
  }

  /** `onStart` after the first lookup missed (its create-or-join path). */
  function Create(r: Registry, t: string, req: Request, lookup: Lookup, site: Site): (s: Started)
    requires Wellformed(r) && Wellformed(site.later)
    ensures Wellformed(s.registry)
    ensures s.action.structureType == t && s.action.ticks == 0
    ensures s.action.materials == Materials(req.blocks, req.material, lookup)
    ensures s.outcome.None? <==> s.action.collaborative
    ensures s.outcome.None? ==> s.action.build.Some? && s.action.build.value < |s.registry.heap|
    ensures s.outcome.Some? ==> s.outcome.value.Failure? && s.registry == r && s.action.build.None?
  {
    var ms := Materials(req.blocks, req.material, lookup);
    if site.ground.None? then
      Started(r, Action(t, 0, false, None, ms, None), Some(Failure(NoGround)))
    else if site.template.None? || |site.template.value| == 0 then
      Started(r, Action(t, 0, false, None, ms, site.template), Some(Failure(NoPlanPrefix + t)))
    else
      var plan := site.template.value;
      match FindActive(site.later, t, site.laterOrder)
      case Some(ref) =>
        FoundIsStored(site.later, t, site.laterOrder);
        Started(site.later, Action(t, 0, true, Some(ref), ms, Some(plan)), None)
      case None =>
        var (r', ref) := Register(site.later, t, plan, site.ground.value, site.now);
        Started(r', Action(t, 0, true, Some(ref), ms, Some(plan)), None)
  }

  /** An open build of the requested type is joined: nothing is registered, no plan is made, and
      the fixed material list is used. */
  lemma StartJoinsOpenBuild(r: Registry, order: seq<string>, req: Request, lookup: Lookup, site: Site)
    requires Wellformed(r) && Wellformed(site.later)
    requires FindActive(r, Text.Lower(req.structure), order).Some?
    ensures OnStart(r, order, req, lookup, site).registry == r
    ensures OnStart(r, order, req, lookup, site).action.build == FindActive(r, Text.Lower(req.structure), order)
    ensures OnStart(r, order, req, lookup, site).action.materials == JoinMaterials
    ensures OnStart(r, order, req, lookup, site).action.plan.None?
  {
  }

  /** Without ground, or without a template, no build is registered and the action fails with
      the message `onStart` gives. */
  lemma StartWithoutPlanFails(r: Registry, order: seq<string>, req: Request, lookup: Lookup, site: Site)
    requires Wellformed(r) && Wellformed(site.later)
    requires FindActive(r, Text.Lower(req.structure), order).None?
    ensures site.ground.None? ==> OnStart(r, order, req, lookup, site).outcome == Some(Failure(NoGround))
    ensures site.ground.Some? && (site.template.None? || |site.template.value| == 0) ==>
      OnStart(r, order, req, lookup, site).outcome == Some(Failure(NoPlanPrefix + Text.Lower(req.structure)))
  {
  }

  /** With ground and a non-empty template, and no open build of the type at either lookup, the
      template is registered unchanged as a fresh build under a new id, and the action holds it. */
  lemma StartRegistersPlan(r: Registry, order: seq<string>, req: Request, lookup: Lookup, site: Site)
    requires Wellformed(r) && Wellformed(site.later)
    requires FindActive(r, Text.Lower(req.structure), order).None?
    requires site.ground.Some? && site.template.Some? && |site.template.value| > 0
    requires FindActive(site.later, Text.Lower(req.structure), site.laterOrder).None?
    ensures var s := OnStart(r, order, req, lookup, site);
      && s.outcome.None? && s.action.collaborative
      && s.action.build == Some(|site.later.heap|)
      && s.registry == Register(site.later, Text.Lower(req.structure), site.template.value,
                                site.ground.value, site.now).0
      && s.registry.heap == site.later.heap
           + [NewBuild(BuildId(Text.Lower(req.structure), site.now), site.template.value, site.ground.value)]
  {
  }

  /** When another worker opened a build of the type while this one was setting up, the
      second lookup joins that build: nothing is registered, and the action keeps the
      materials it parsed and the template it loaded. */
  lemma StartJoinsLateBuild(r: Registry, order: seq<string>, req: Request, lookup: Lookup, site: Site)
    requires Wellformed(r) && Wellformed(site.later)
    requires FindActive(r, Text.Lower(req.structure), order).None?
    requires site.ground.Some? && site.template.Some? && |site.template.value| > 0
    requires FindActive(site.later, Text.Lower(req.structure), site.laterOrder).Some?
    ensures var s := OnStart(r, order, req, lookup, site);
      && s.outcome.None? && s.action.collaborative
      && s.registry == site.later
      && s.action.build == FindActive(site.later, Text.Lower(req.structure), site.laterOrder)
      && s.action.plan == Some(site.template.value)
      && s.action.materials == Materials(req.blocks, req.material, lookup)
  {
  }

  /** The build registered at start is the one the next lookup of the type finds, in any
      iteration order covering the table: the second lookup, iterating over the whole table,
      saw no open build of the type, so the new build is the only one that matches. */
  lemma StartedBuildIsFound(r: Registry, order: seq<string>, req: Request, lookup: Lookup, site: Site,
                            nextOrder: seq<string>)
    requires Wellformed(r) && Wellformed(site.later)
    requires FindActive(r, Text.Lower(req.structure), order).None?
    requires site.ground.Some? && site.template.Some? && |site.template.value| > 0
    requires forall k :: k in site.later.active ==> k in site.laterOrder
    requires FindActive(site.later, Text.Lower(req.structure), site.laterOrder).None?
    requires forall k :: k in OnStart(r, order, req, lookup, site).registry.active ==> k in nextOrder
    ensures var s := OnStart(r, order, req, lookup, site);
      FindActive(s.registry, Text.Lower(req.structure), nextOrder) == s.action.build
  {
    var ty := Text.Lower(req.structure);
    var s := OnStart(r, order, req, lookup, site);
    StartRegistersPlan(r, order, req, lookup, site);
    RegisteredIsFound(site.later, ty, site.template.value, site.ground.value, site.now, nextOrder);
    FindActiveIsComplete(site.later, ty, site.laterOrder);
    var found := FindActive(s.registry, ty, nextOrder);
    var i :| 0 <= i < |nextOrder| && Hit(s.registry, nextOrder[i], ty) && s.registry.active[nextOrder[i]] == found.value;
  }

  // ---- onTick -------------------------------------------------------------------------------

  /** The tick budget of one build action. */
  const MaxTicks := 120000

  const Timeout := "Building timeout"
  const NotCollaborative := "Build system error: not in collaborative mode"

  /** The message of a finished collaborative build. */
  function Built(structureType: string): string {
    "Built " + structureType + " collaboratively!"
  }

  /** One tick's effect: the build table afterwards, the action afterwards, the outcome if the
      action ended, and the placement performed, if any. */
  datatype Ticked = Ticked(registry: Registry, action: Action, outcome: Option<Outcome>, placed: Option<Placement>)

  /** A reference the action holds designates a stored build. */
  predicate Holds(r: Registry, a: Action) {
    a.build.Some? ==> a.build.value < |r.heap|
  }

  /** `onTick`: count the tick; past the budget the action times out. A collaborative action on
      a complete build closes it and succeeds; otherwise it asks for one placement (at most one
      per tick) and performs it when there is one. An action not in collaborative mode fails. */
  function OnTick(r: Registry, a: Action, worker: string): (t: Ticked)
    requires Wellformed(r) && Holds(r, a)
    ensures Wellformed(t.registry) && Holds(t.registry, t.action)
    ensures t.action == a.(ticks := a.ticks + 1)
    ensures t.registry.heap == r.heap || (a.build.Some? && |t.registry.heap| == |r.heap|)
    ensures t.placed.Some? ==> t.outcome.None?
  {
    var a' := a.(ticks := a.ticks + 1);
    if a'.ticks > MaxTicks then Ticked(r, a', Some(Failure(Timeout)), None)
    else if a.collaborative && a.build.Some? then
      var b := r.heap[a.build.value];
      if IsComplete(b) then Ticked(CompleteBuild(r, b.id), a', Some(Success(Built(a.structureType))), None)
      else
        var (r', placed) := NextBlock(r, a.build.value, worker);
        Ticked(r', a', None, placed)
    else Ticked(r, a', Some(Failure(NotCollaborative)), None)
  }

  /** The timeout is checked first: past the budget nothing else happens, whatever the build. */
  lemma TimeoutComesFirst(r: Registry, a: Action, worker: string)
    requires Wellformed(r) && Holds(r, a) && a.ticks + 1 > MaxTicks
    ensures OnTick(r, a, worker) == Ticked(r, a.(ticks := a.ticks + 1), Some(Failure(Timeout)), None)
  {
  }

  /** Within the budget, a complete build is taken off the table and the action succeeds,
      without placing anything; the build itself stays as it was. */
  lemma CompleteBuildSucceeds(r: Registry, a: Action, worker: string)
    requires Wellformed(r) && Holds(r, a) && a.ticks + 1 <= MaxTicks
    requires a.collaborative && a.build.Some? && IsComplete(r.heap[a.build.value])
    ensures var t := OnTick(r, a, worker);
      && t.outcome == Some(Success(Built(a.structureType)))
      && t.placed.None?
      && GetBuild(t.registry, r.heap[a.build.value].id).None?
      && t.registry.heap == r.heap
  {
  }

  /** Within the budget, an incomplete build is asked exactly once for the worker's next
      placement, and the action goes on; a missing placement just ends the tick. */
  lemma WorkingTickAsksOnce(r: Registry, a: Action, worker: string)
    requires Wellformed(r) && Holds(r, a) && a.ticks + 1 <= MaxTicks
    requires a.collaborative && a.build.Some? && !IsComplete(r.heap[a.build.value])
    ensures var t := OnTick(r, a, worker);
      && t.outcome.None?
      && (t.registry, t.placed) == NextBlock(r, a.build.value, worker)
  {
  }

  /** An action that is not working on a collaborative build fails within the budget, and the
      table is left alone. */
  lemma NotCollaborativeFails(r: Registry, a: Action, worker: string)
    requires Wellformed(r) && Holds(r, a) && a.ticks + 1 <= MaxTicks
    requires !a.collaborative || a.build.None?
    ensures OnTick(r, a, worker) == Ticked(r, a.(ticks := a.ticks + 1), Some(Failure(NotCollaborative)), None)
  {
  }

  /** A worker that has just registered a build places a block of its plan on its first tick. */
  lemma FirstTickPlaces(r: Registry, order: seq<string>, req: Request, lookup: Lookup, site: Site, worker: string)
    requires Wellformed(r) && Wellformed(site.later)
    requires FindActive(r, Text.Lower(req.structure), order).None?
    requires site.ground.Some? && site.template.Some? && |site.template.value| > 0
    requires FindActive(site.later, Text.Lower(req.structure), site.laterOrder).None?
    ensures var s := OnStart(r, order, req, lookup, site);
      var t := OnTick(s.registry, s.action, worker);
      t.placed.Some? && t.placed.value in site.template.value
  {
    var id := BuildId(Text.Lower(req.structure), site.now);
    var plan := site.template.value;
    var b := NewBuild(id, plan, site.ground.value);
    var s := OnStart(r, order, req, lookup, site);
    StartRegistersPlan(r, order, req, lookup, site);
    var n := |site.later.heap|;
    assert s.registry.heap[n] == b;
    NewBuildProgress(id, plan, site.ground.value);
    WorkingTickAsksOnce(s.registry, s.action, worker);
    assert NextBlock(s.registry, n, worker).1 == GetNextBlock(b, worker).1;
    NewcomerPlaces(b, worker);
  }
}
