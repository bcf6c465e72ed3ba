# Collaborative building and task planning, modelled in Dafny

This project models the decision logic of the Steve AI Minecraft mod:

- how a collaborative build splits its block plan into four spatial quadrants;
- how the quadrants are handed out to the Steves (workers) that join the build, and how those workers are served blocks bottom to top;
- how the process-wide table of active builds is kept;
- how the procedural structure generators lay out houses, castles, towers, barns, modern houses, walls, platforms and boxes;
- how the build-structure action normalises block names, defaults its materials and dimensions, chooses between joining and creating a build, and orders each tick;
- how the task planner routes a request to an LLM provider, falls back to Groq, and filters the planned tasks by their required parameters.

Java's mutable objects become immutable datatypes. Each operation is a pure function from the old state to the new state and a result. Each call on the shared build (`getNextBlock`) is one atomic step. Concurrency between workers is modelled as an arbitrary sequence of such steps.

The files follow the program's structure:

| file | module | models |
|---|---|---|
| `wrappers.dfy` | `Wrappers` | `Option`, standing for Java's `null` |
| `javamath.dfy` | `JavaMath` | `Math.min`/`max`/`abs` and Java's truncating integer division |
| `text.dfy` | `Text` | `toLowerCase`, `replace`, `startsWith`, `contains` and decimal rendering of a number |
| `blocks.dfy` | `Blocks` | positions, the block kinds the core names, and block placements |
| `loops.dfy` | `Loops` | nested Java `for` loops that append placements, as a combinator with index and membership lemmas |
| `section.dfy` | `Sections` | `BuildSection` and its atomic cursor |
| `partition.dfy` | `Partition` | `divideBuildIntoSections`: bounds, centre, quadrants and the stable bottom-to-top sort |
| `build.dfy` | `CollaborativeBuild` | `CollaborativeBuild`, `getNextBlock`, `assignSteveToSection`, progress and completion |
| `registry.dfy` | `BuildManager` | the `activeBuilds` table: register, get, complete, find, clean up |
| `generators.dfy` | `Generators` | `StructureGenerators` |
| `buildaction.dfy` | `BuildAction` | `BuildStructureAction`: `parseBlock`, `onStart` and `onTick` |
| `planner.dfy` | `Planner` | `TaskPlanner`: provider dispatch with fallback, and task validation and filtering |

Where the world is consulted, its answer is a parameter, so the model covers every possible answer. This covers:

- the ground search;
- the template loader;
- the block registry lookup;
- the LLM clients;
- the response parser;
- the clock reading in a build id;
- the iteration order of the `activeBuilds` hash map.

## Model

| member | source | states |
|---|---|---|
| Sections.Next | src/main/java/com/steve/ai/action/CollaborativeBuildManager.java:140-146 | A call always advances the cursor. It yields a block exactly when the section was not complete, and that block is the next one in order. The blocks handed out grow by exactly that block. |
| Sections.NextWithRetry | src/main/java/com/steve/ai/action/CollaborativeBuildManager.java:198-207 | The retry in `getNextBlock` gives the same answer as a single call. It burns a second cursor step only when the first call found the section drained. |
| Sections.CallsAnswerInIndexOrder | src/main/java/com/steve/ai/action/CollaborativeBuildManager.java:140-153 | Over k calls, the i-th answer is the block at position cursor + i while that position exists, and null afterwards. The cursor advances by exactly k. The handed-out prefix grows by exactly the non-null answers, so no block is handed out twice. |
| Sections.FreshSectionDrains | src/main/java/com/steve/ai/action/CollaborativeBuildManager.java:140-153 | From a fresh section, k calls hand out exactly the first min(k, size) blocks. The counter reads min(k, size), and the section is complete exactly when k reaches its size. |
| Sections.AnswersAscendInHeight | src/main/java/com/steve/ai/action/CollaborativeBuildManager.java:80-84 | When a section's blocks are sorted bottom to top, the blocks it hands out come in non-decreasing height. |
| Partition.Bounds | src/main/java/com/steve/ai/action/CollaborativeBuildManager.java:48-56 | The min/max scan yields a box containing every placement, and each of its four edges is attained by some placement. |
| Partition.CenterOf | src/main/java/com/steve/ai/action/CollaborativeBuildManager.java:58-59 | The truncating midpoint of the bounds lies inside the bounds on both axes. |
| Partition.QuadrantCells | src/main/java/com/steve/ai/action/CollaborativeBuildManager.java:66-79 | A position falls in NW, NE, SW or SE exactly under the four `<=`/`>` conditions of the if-chain, both directions. |
| Partition.BinsPartition | src/main/java/com/steve/ai/action/CollaborativeBuildManager.java:61-79 | The four quadrant lists together are a permutation of the plan: every placement lands in exactly one, with its multiplicity. |
| Partition.SortByY | src/main/java/com/steve/ai/action/CollaborativeBuildManager.java:80-84 | The sort is a permutation and is sorted by height. It is stable: the placements at each height keep their original relative order. |
| Partition.StableSortUnique | src/main/java/com/steve/ai/action/CollaborativeBuildManager.java:80-84 | Two height-sorted lists that agree at every height are equal, so the stable sort's result is the only one possible. |
| Partition.NonEmptyMembers | src/main/java/com/steve/ai/action/CollaborativeBuildManager.java:86-90 | A quadrant appears among the sections exactly when it has at least one block. |
| Partition.DivideShape | src/main/java/com/steve/ai/action/CollaborativeBuildManager.java:43-96 | Each section is a fresh, non-empty quadrant with its label, sorted bottom to top, with ids ascending. Each section's blocks are its quadrant's placements, stably sorted by height. Every non-empty quadrant is present. |
| Partition.DivideIsExact | src/main/java/com/steve/ai/action/CollaborativeBuildManager.java:43-96 | The sections together hold exactly the plan's placements (as a multiset), and their sizes sum to the plan size. |
| Partition.DivideRespectsQuadrants | src/main/java/com/steve/ai/action/CollaborativeBuildManager.java:66-90 | Every block of a section lies in that section's quadrant relative to the plan's centre. |
| Partition.SingleColumnIsOneSection | src/main/java/com/steve/ai/action/CollaborativeBuildManager.java:58-90 | A plan in one x/z column becomes a single NW section holding the column sorted bottom to top. |
| CollaborativeBuild.NewBuild | src/main/java/com/steve/ai/action/CollaborativeBuildManager.java:26-37 | A new build is valid, with no participants and no assignments. |
| CollaborativeBuild.NewBuildProgress | src/main/java/com/steve/ai/action/CollaborativeBuildManager.java:26-37 | A new build has placed nothing, and it is complete only when its plan is empty. |
| CollaborativeBuild.BlocksPlaced | src/main/java/com/steve/ai/action/CollaborativeBuildManager.java:102-108 | The placed count never exceeds the plan size. |
| CollaborativeBuild.CompleteIffAllPlaced | src/main/java/com/steve/ai/action/CollaborativeBuildManager.java:102-117 | A build is complete iff its placed count equals the plan size, iff every placement of the plan has been handed out exactly once. What was handed out is always within the plan. |
| CollaborativeBuild.ProgressPercentage | src/main/java/com/steve/ai/action/CollaborativeBuildManager.java:119-121 | The percentage lies between 0 and 100, and it is 100 exactly when the build is complete. |
| CollaborativeBuild.ChooseSection | src/main/java/com/steve/ai/action/CollaborativeBuildManager.java:217-246 | No section is chosen iff the build is complete. When an incomplete, unassigned section exists, the first one is chosen; otherwise the first incomplete section is chosen. |
| CollaborativeBuild.AssignToSection | src/main/java/com/steve/ai/action/CollaborativeBuildManager.java:217-246 | Validity is preserved. A complete build is left untouched. Otherwise only the worker's binding changes, and it is set to the preferred section. |
| CollaborativeBuild.Dispense | src/main/java/com/steve/ai/action/CollaborativeBuildManager.java:198-209 | Only the chosen section's cursor moves. A block comes back iff that section was not drained, and it is that section's next block. The handed-out multiset grows by exactly the answer. |
| CollaborativeBuild.GetNextBlock | src/main/java/com/steve/ai/action/CollaborativeBuildManager.java:181-210 | Validity and identity are preserved. A complete build returns null unchanged. The handed-out multiset grows by exactly the returned block. |
| CollaborativeBuild.ParticipantsGrow | src/main/java/com/steve/ai/action/CollaborativeBuildManager.java:182-186 | Participants only grow, and at most by the caller. The caller is added whenever the build was not complete. |
| CollaborativeBuild.BindingsSticky | src/main/java/com/steve/ai/action/CollaborativeBuildManager.java:189-196 | Existing bindings never change, and only the caller can gain one. A newcomer is bound to the preferred section. |
| CollaborativeBuild.AnswerIsNextOfOwnSection | src/main/java/com/steve/ai/action/CollaborativeBuildManager.java:189-209 | Only the caller's section moves, and no cursor goes back. A non-null answer is the next block of the caller's own section. |
| CollaborativeBuild.DrainedBindingStarves | src/main/java/com/steve/ai/action/CollaborativeBuildManager.java:189-209 | A worker bound to a drained section gets null. Otherwise, a worker on an incomplete build gets a block. |
| CollaborativeBuild.NewcomerPlaces | src/main/java/com/steve/ai/action/CollaborativeBuildManager.java:181-231 | A worker with no binding who calls on an incomplete valid build always gets a block of the plan. |
| CollaborativeBuild.DrainedWorkerStalls | src/main/java/com/steve/ai/action/CollaborativeBuildManager.java:189-209 | A worker bound to a drained section gets null on every later call, and the build stays incomplete while only that worker calls. The source never rebinds such a worker. |
| CollaborativeBuild.RunAccounting | src/main/java/com/steve/ai/action/CollaborativeBuildManager.java:181-210 | Over any interleaving of worker calls, the handed-out multiset grows by exactly the blocks returned. |
| CollaborativeBuild.AtMostOnce | src/main/java/com/steve/ai/action/CollaborativeBuildManager.java:181-210 | From a fresh build, under any interleaving, no block is handed out more often than it occurs in the plan. The build is complete exactly when every block has been handed out. |
| CollaborativeBuild.CompleteIsFinal | src/main/java/com/steve/ai/action/CollaborativeBuildManager.java:182-184 | Once complete, a build is unchanged by any further calls, and every one of them returns null. |
| CollaborativeBuild.FreshBuildSpreadsWorkers | src/main/java/com/steve/ai/action/CollaborativeBuildManager.java:217-231 | On a fresh build, up to as many distinct workers as there are sections, each calling once in turn, are bound to sections 0, 1, 2, ... in order: one worker per quadrant. |
| BuildManager.BuildId | src/main/java/com/steve/ai/action/CollaborativeBuildManager.java:167 | A build id starts with its structure type, followed by an underscore. |
| BuildManager.BuildIdInjective | src/main/java/com/steve/ai/action/CollaborativeBuildManager.java:167 | Different clock readings give different ids for the same structure type. |
| BuildManager.Register | src/main/java/com/steve/ai/action/CollaborativeBuildManager.java:166-175 | The table stays well formed and gains exactly the new id, bound to a fresh build of the plan. Every other entry is unchanged. |
| BuildManager.GetBuild | src/main/java/com/steve/ai/action/CollaborativeBuildManager.java:251-253 | The lookup answers null exactly for ids not in the table, and otherwise returns the build with that id. |
| BuildManager.CompleteBuild | src/main/java/com/steve/ai/action/CollaborativeBuildManager.java:258-264 | Exactly the given id leaves the table. Every build object, including the removed one, is unchanged. |
| BuildManager.CompleteBuildForgets | src/main/java/com/steve/ai/action/CollaborativeBuildManager.java:258-264 | After completion the id is no longer found, and completing twice is the same as completing once. |
| BuildManager.FindActive | src/main/java/com/steve/ai/action/CollaborativeBuildManager.java:269-276 | The answer is the first build, in iteration order, whose id starts with the type and which is incomplete. It is null exactly when none qualifies. |
| BuildManager.FindActiveIsComplete | src/main/java/com/steve/ai/action/CollaborativeBuildManager.java:269-276 | With an iteration order covering the table, null means that no active build matches. |
| BuildManager.RegisteredIsFound | src/main/java/com/steve/ai/action/CollaborativeBuildManager.java:166-175 | Right after registering a non-empty plan, a search for its type finds an active build. |
| BuildManager.PrefixMatchesLongerType | src/main/java/com/steve/ai/action/CollaborativeBuildManager.java:271 | A search for a type also finds a build of any type it is a prefix of (e.g. "modern" finds a "modern_house" build). |
| BuildManager.Sweep | src/main/java/com/steve/ai/action/CollaborativeBuildManager.java:281-283 | Clean-up keeps exactly the entries whose build is incomplete, unchanged. |
| BuildManager.SweepIdempotent | src/main/java/com/steve/ai/action/CollaborativeBuildManager.java:281-283 | Cleaning up twice is the same as cleaning up once. |
| BuildManager.SweepIsInvisible | src/main/java/com/steve/ai/action/CollaborativeBuildManager.java:269-283 | Clean-up never changes what the active-build search returns. |
| BuildManager.NextBlock | src/main/java/com/steve/ai/action/CollaborativeBuildManager.java:181-210 | Serving a block through a held reference changes only that build and leaves the table's entries alone. The served build keeps its id and plan, and its handed-out multiset grows by exactly the returned block. A complete build returns null with nothing changed. |
| BuildManager.NextBlockKeepsCompletion | src/main/java/com/steve/ai/action/CollaborativeBuildManager.java:110-117 | A build that is complete stays complete whichever build is served. |
| JavaMath.JavaDiv | src/main/java/com/steve/ai/action/CollaborativeBuildManager.java:58-59 | Integer division truncates toward zero: the remainder takes the sign of the dividend. |
| JavaMath.MidpointInside | src/main/java/com/steve/ai/action/CollaborativeBuildManager.java:58-59 | The truncating midpoint of lo and hi lies between them. |
| Text.Lower | src/main/java/com/steve/ai/structure/StructureGenerators.java:17 | Lower-casing keeps the length and maps each character by the ASCII case rule. |
| Text.LowerIdempotent | src/main/java/com/steve/ai/structure/StructureGenerators.java:17 | Lower-casing twice is the same as lower-casing once. |
| Text.DecimalRoundTrip | src/main/java/com/steve/ai/action/CollaborativeBuildManager.java:167 | Reading back the decimal digits of a number gives the number. |
| Generators.GetMaterial | src/main/java/com/steve/ai/structure/StructureGenerators.java:30-33 | An empty list gives OAK_PLANKS. Otherwise the block is one of the materials, and exactly the indexed one when the index is in range. |
| Generators.GetMaterialWraps | src/main/java/com/steve/ai/structure/StructureGenerators.java:30-33 | Indices past the end wrap: one material serves slots 1 and 2, and two materials give slot 2 the first one. |
| Generators.LayerShape | src/main/java/com/steve/ai/structure/StructureGenerators.java:48-53 | A floor layer has width×depth placements, all of the given block, at the given height, inside the footprint. |
| Generators.PlatformShape | src/main/java/com/steve/ai/structure/StructureGenerators.java:341-352 | A platform has width×depth placements, all at ground level and all in material slot 0. |
| Generators.WallShape | src/main/java/com/steve/ai/structure/StructureGenerators.java:328-339 | A wall has width×height placements, all in the starting z plane and all in material slot 0. |
| Generators.WallIndex | src/main/java/com/steve/ai/structure/StructureGenerators.java:332-336 | The wall cell (x, y) is placement number x·height + y: the x loop is outer. |
| Generators.BoxSize | src/main/java/com/steve/ai/structure/StructureGenerators.java:354-367 | A box has width×height×depth placements. |
| Generators.BoxIndex | src/main/java/com/steve/ai/structure/StructureGenerators.java:358-364 | The box cell (x, y, z) is placement number (x·height + y)·depth + z, in material slot 0. |
| Generators.RoofMaterial | src/main/java/com/steve/ai/structure/StructureGenerators.java:39-45 | The roof is never glass or a glass pane. It is material slot 2, or OAK_PLANKS when that slot is glass. |
| Generators.HouseStartsWithFloor | src/main/java/com/steve/ai/structure/StructureGenerators.java:47-53 | A house's plan begins with its full width×depth floor of material slot 0. |
| Generators.HouseWallsShape | src/main/java/com/steve/ai/structure/StructureGenerators.java:55-84 | Every wall placement is on storeys 1 to height, and is the wall material, a glass pane or the door. |
| Generators.HouseRoofShape | src/main/java/com/steve/ai/structure/StructureGenerators.java:86-106 | Every roof placement lies on a layer the loop reaches. That layer's ring sits one storey higher and one block further in per layer, and the block is never glass. |
| Generators.HouseZones | src/main/java/com/steve/ai/structure/StructureGenerators.java:35-108 | By height, the house is floor material at level 0, wall material/panes/door on storeys 1 to height, and roof material above. |
| Generators.ModernFloorAndRoof | src/main/java/com/steve/ai/structure/StructureGenerators.java:234-279 | A modern house begins with a full smooth-stone floor and ends with a full dark-oak flat roof at the given height. |
| Generators.BarnRoofPeak | src/main/java/com/steve/ai/structure/StructureGenerators.java:314-323 | The barn roof height peaks exactly at column width/2 and is symmetric about it. |
| Generators.BarnRoofProfile | src/main/java/com/steve/ai/structure/StructureGenerators.java:314-325 | The barn plan ends with its width×depth roof. Roof cell (x, z) is spruce at height + width/2 − \|x − width/2\|. |
| Generators.BarnDoorOpening | src/main/java/com/steve/ai/structure/StructureGenerators.java:295-306 | On storeys 1 and 2, no front-wall placement falls in the door columns width/3 to 2·width/3. |
| Generators.CornerTowerShape | src/main/java/com/steve/ai/structure/StructureGenerators.java:141-171 | Every corner-tower placement is stone bricks or a pane, inside its 3×3 footprint, up to the crenellation level height+7. |
| Generators.WallMerlonsShape | src/main/java/com/steve/ai/structure/StructureGenerators.java:173-186 | Every wall crenellation is stone bricks within the castle's bounds. |
| Generators.CastleShape | src/main/java/com/steve/ai/structure/StructureGenerators.java:111-189 | Every castle placement is a castle block (stone bricks, cobblestone, pane or air) within the castle's x, z and y bounds. |
| Generators.CastleStartsWithFloor | src/main/java/com/steve/ai/structure/StructureGenerators.java:118-125 | A castle's plan begins with a full stone-brick floor. |
| Generators.TowerRoofShape | src/main/java/com/steve/ai/structure/StructureGenerators.java:220-230 | The tower roof's rings lie in the square footprint and stay below height + width/2 + 1. |
| Generators.TowerShape | src/main/java/com/steve/ai/structure/StructureGenerators.java:191-232 | Every tower placement is a tower block inside the width×width footprint. Its height is between the floor and the top of the roof. |
| Generators.TowerStartsWithFloor | src/main/java/com/steve/ai/structure/StructureGenerators.java:199-206 | A tower of positive height begins with a full stone-brick floor. |
| Generators.GenerateIgnoresCase | src/main/java/com/steve/ai/structure/StructureGenerators.java:17 | The structure type is matched case-insensitively. |
| Generators.CaseLabels | src/main/java/com/steve/ai/structure/StructureGenerators.java:18-25 | The aliases home, catle/fort, shed, modern_house and cube name the same kind as house, castle, barn, modern and box. |
| Generators.HouseAlias | src/main/java/com/steve/ai/structure/StructureGenerators.java:18 | "home" generates the same plan as "house". |
| Generators.CastleAlias | src/main/java/com/steve/ai/structure/StructureGenerators.java:19 | "catle" and "fort" generate the same plan as "castle". |
| Generators.BarnAlias | src/main/java/com/steve/ai/structure/StructureGenerators.java:23 | "shed" generates the same plan as "barn". |
| Generators.ModernAlias | src/main/java/com/steve/ai/structure/StructureGenerators.java:24 | "modern_house" generates the same plan as "modern". |
| Generators.BoxAlias | src/main/java/com/steve/ai/structure/StructureGenerators.java:25 | "cube" generates the same plan as "box". |
| Generators.UnknownTypeBuildsLargerHouse | src/main/java/com/steve/ai/structure/StructureGenerators.java:26 | An unknown type builds a house with each dimension raised to at least 5×4×5. |
| Planner.ValidateMatchesTable | src/main/java/com/steve/ai/llm/TaskPlanner.java:72-89 | A task validates iff its action is one of the eight known actions and it carries every parameter that action requires. An unknown action never validates. |
| Planner.FilterTasksKeepsValid | src/main/java/com/steve/ai/llm/TaskPlanner.java:91-95 | The filtered tasks are a subsequence of the input. Each valid task keeps its number of occurrences and every invalid task is dropped. Filtering again changes nothing. |
| Planner.FilterCount | src/main/java/com/steve/ai/llm/TaskPlanner.java:91-95 | The stream filter keeps every copy of an accepted task and no copy of a rejected one. |
| Planner.FilterMembers | src/main/java/com/steve/ai/llm/TaskPlanner.java:91-95 | A task survives the stream filter iff it was in the input and passes the predicate. |
| Planner.FilterIsSubsequence | src/main/java/com/steve/ai/llm/TaskPlanner.java:91-95 | The stream filter keeps the survivors in their original order. |
| Planner.FilterIdempotent | src/main/java/com/steve/ai/llm/TaskPlanner.java:91-95 | Filtering a filtered list changes nothing. |
| Planner.FilterAppend | src/main/java/com/steve/ai/llm/TaskPlanner.java:91-95 | Filtering decides task by task: filtering a concatenation concatenates the filtered parts. |
| Planner.Route | src/main/java/com/steve/ai/llm/TaskPlanner.java:54-62 | Gemini and OpenAI answer exactly for their own names. Every other name, known or not, goes to Groq. |
| Planner.GetAIResponse | src/main/java/com/steve/ai/llm/TaskPlanner.java:53-70 | One or two clients are asked: first the routed one, then Groq if a second request is made. |
| Planner.FallbackRule | src/main/java/com/steve/ai/llm/TaskPlanner.java:64-69 | The fallback happens exactly when the first answer is null and the provider is not "groq". The response is null iff every request failed, and otherwise it is the last answer received. |
| Planner.GroqAskedOnce | src/main/java/com/steve/ai/llm/TaskPlanner.java:55-64 | Provider "groq" is asked exactly once, with no fallback. |
| Planner.UnknownProviderAsksGroqTwice | src/main/java/com/steve/ai/llm/TaskPlanner.java:58-66 | An unknown provider whose request fails asks Groq a second time and returns that second answer. |
| Planner.PlanTasksNull | src/main/java/com/steve/ai/llm/TaskPlanner.java:31-45 | A plan is returned iff a response arrived and it parsed, and it is that parse. A missing response gives no plan. |
| Planner.PlanIgnoresCase | src/main/java/com/steve/ai/llm/TaskPlanner.java:28 | Provider settings that differ only in letter case ask the same clients and give the same plan. |
| BuildAction.Normalize | src/main/java/com/steve/ai/action/actions/BuildStructureAction.java:284-287 | A normalised block name always has a namespace. |
| BuildAction.NormalizeShape | src/main/java/com/steve/ai/action/actions/BuildStructureAction.java:284-287 | The normalised name is lower case with spaces turned into underscores. "minecraft:" is put in front exactly when the name had no colon. |
| BuildAction.NormalizeIdempotent | src/main/java/com/steve/ai/action/actions/BuildStructureAction.java:284-287 | Normalising a normalised name changes nothing. |
| BuildAction.ParseBlock | src/main/java/com/steve/ai/action/actions/BuildStructureAction.java:283-291 | A non-AIR result is what the registry holds for the normalised name. An unknown name parses to AIR. |
| BuildAction.ParseBlockByNormalForm | src/main/java/com/steve/ai/action/actions/BuildStructureAction.java:283-291 | Names with the same normal form parse alike, and parsing the normal form itself gives the same block. |
| BuildAction.SolidBlocksMembers | src/main/java/com/steve/ai/action/actions/BuildStructureAction.java:69-78 | A block is in the material list iff it is not AIR and some listed name parses to it. |
| BuildAction.SolidBlocksKeepsOrder | src/main/java/com/steve/ai/action/actions/BuildStructureAction.java:69-78 | When every name parses, the materials are the parsed blocks one for one, in order. |
| BuildAction.Materials | src/main/java/com/steve/ai/action/actions/BuildStructureAction.java:68-84 | The material list is never empty and never holds AIR. It is the parsed block list when that is non-empty, else the `material` parameter's block (default oak_planks), or OAK_PLANKS when that is AIR. |
| BuildAction.MaterialsFromTask | src/main/java/com/steve/ai/action/actions/BuildStructureAction.java:68-84 | Every material comes from the task's blocks, from its material parameter, or is the OAK_PLANKS fallback. |
| BuildAction.Dimensions | src/main/java/com/steve/ai/action/actions/BuildStructureAction.java:86-102 | A list of at least three gives its first three entries, and a shorter list keeps 9×6×9. Without a list, each of width, height and depth defaults separately to 5, 4 and 5. |
| BuildAction.DimensionsListWins | src/main/java/com/steve/ai/action/actions/BuildStructureAction.java:91-97 | With a dimensions list, the separate width/height/depth parameters never matter, and entries past the third are ignored. |
| BuildAction.OnStart | src/main/java/com/steve/ai/action/actions/BuildStructureAction.java:45-182 | The type is lower-cased, and the action ends in collaborative mode exactly when no failure is reported. It then holds a stored build. A failure leaves the table untouched. |
| BuildAction.StartJoinsOpenBuild | src/main/java/com/steve/ai/action/actions/BuildStructureAction.java:49-64 | When an open build of the type exists, the action joins it with the fixed material list, generates nothing and leaves the table untouched. |
| BuildAction.StartWithoutPlanFails | src/main/java/com/steve/ai/action/actions/BuildStructureAction.java:136-156 | No ground fails with the ground message. With ground but no template (or an empty one), it fails with the plan message naming the type. |
| BuildAction.StartRegistersPlan | src/main/java/com/steve/ai/action/actions/BuildStructureAction.java:160-176 | With ground, a non-empty template and no build opened meanwhile, the template is registered unchanged as a new build under a fresh id, and the action holds it. |
| BuildAction.StartJoinsLateBuild | src/main/java/com/steve/ai/action/actions/BuildStructureAction.java:160-165 | When a build of the type was opened while this action set up, the action joins it: nothing is registered, and the action keeps its parsed materials and loaded template. |
| BuildAction.StartedBuildIsFound | src/main/java/com/steve/ai/action/actions/BuildStructureAction.java:160-176 | After an action creates a build, the next lookup for the same type returns exactly that build. The lookups iterate over the whole table. |
| BuildAction.OnTick | src/main/java/com/steve/ai/action/actions/BuildStructureAction.java:185-261 | Every tick counts, the table stays well formed and the action keeps its build. A tick that places a block does not end the action. |
| BuildAction.TimeoutComesFirst | src/main/java/com/steve/ai/action/actions/BuildStructureAction.java:186-192 | Past 120000 ticks the action fails with the timeout message, and nothing else happens. |
| BuildAction.CompleteBuildSucceeds | src/main/java/com/steve/ai/action/actions/BuildStructureAction.java:194-200 | A complete build is removed from the table, and the action succeeds without placing anything. |
| BuildAction.WorkingTickAsksOnce | src/main/java/com/steve/ai/action/actions/BuildStructureAction.java:202-212 | On an incomplete build a tick asks for exactly one block, and the action goes on. |
| BuildAction.NotCollaborativeFails | src/main/java/com/steve/ai/action/actions/BuildStructureAction.java:257-260 | An action without a collaborative build fails with the error message, and nothing else happens. |
| BuildAction.FirstTickPlaces | src/main/java/com/steve/ai/action/actions/BuildStructureAction.java:160-214 | The first tick after an action creates a build places a block, and that block is from the template. |

## Left out

- The world is a parameter: the ground search, the player's field of view, template loading and the block registry lookup. Teleporting, looking, swinging, setting blocks, particles, sounds and flying are outside the model.
- `StructureRegistry.register` and the action's description are outside the model. So are `onCancel`, logging, and the unused `currentBlockIndex` and `BUILD_SPEED_MULTIPLIER`. The loop over `BLOCKS_PER_TICK` is one iteration, as that constant is 1.
- The procedural fallback in `onStart` is commented out in the source (it shares a line with a comment at `BuildStructureAction.java:148`). The model follows the code: a missing template is a failure. `Generators` models the generators themselves, which `generateBuildPlan` would call.
- Concurrency: each `getNextBlock` call is one atomic step, and interleavings are arbitrary call sequences. The table as seen when the plan is ready (`Site.later`) stands for other workers acting during `onStart`. `NewcomerPlaces`, the second half of `DrainedBindingStarves` and `FreshBuildSpreadsWorkers` rely on this grain. If calls interleave at the cursor's `getAndIncrement` instead, a newcomer can get null: another worker can drain its section between the newcomer's `isComplete` check and its cursor step.
- The iteration order of the concurrent hash map is a parameter of `FindActive`. Java leaves it unspecified. The order may list keys in any sequence and may omit some. Lemmas that rely on Java visiting every entry, such as `FindActiveIsComplete` and `StartedBuildIsFound`, require an order covering the table.
- The clock (`System.currentTimeMillis`) is a parameter of `Register`.
- `nextSectionIndex` is created and never used, so it is not modelled.
- `sectionName` labels are modelled. Section ids are modelled as the quadrant numbers the source stores in `yLevel`.
- 32-bit `int` overflow is not modelled: coordinates, counts and `getBlocksPlaced() * 100` are unbounded integers. Plans with more than about 21 million blocks are out of scope.
- Lower-casing covers ASCII letters only. Java's locale-dependent Unicode case mapping is not modelled.
- CollaborativeBuild.ProgressPercentage: an empty plan makes `getProgressPercentage` divide by zero and throw, and `registerBuild` accepts an empty plan. The model requires a non-empty plan. Its only caller never registers an empty plan: `onStart` fails on an empty one first.
- BuildAction.StartWithoutPlanFails: the no-ground failure is unreachable in the source, because `findGroundLevel` always returns a position. The model keeps the `null` check that `onStart` performs, with the ground search's answer as a parameter.
- Exceptions are not modelled: `ResourceLocation` rejecting a malformed name, a non-`Number` entry in the dimensions list, and the catch-all in `planTasks` that returns null.
- Dimension values are taken as the integers the request supplies; the `Number.intValue()` narrowing is not modelled.
- The LLM clients, `PromptBuilder`, `WorldKnowledge` and `ResponseParser` are parameters. Their requests, JSON parsing and HTTP behaviour are not modelled.
- A task's parameters are modelled as the set of keys present. `hasParameters` is taken to mean that every named key is present, since the `Task` class is not part of this model.
- The GUI (`SteveOverlayScreen`, `ClientSetup`) is not part of this model.
- Generators.GetMaterial: the contract states the in-range index, membership and the wrap-around for one or two materials. It does not state the general `index % size` rule for longer lists.
- The modern house, barn, castle and tower generators ignore the material list, as the source does; the tower also ignores the depth.
- Generators.CastleShape: stated as a bounding box and block set, not cell by cell. The floor is stated cell by cell in `CastleStartsWithFloor`.
- Generators.TowerShape: stated as a bounding box and block set, not cell by cell. The floor is stated cell by cell in `TowerStartsWithFloor`.
- Generators.HouseWallsShape: states the storey range and the block set of the walls, not the exact door and window cells.
- Planner.Route: the provider name reaching the switch is already lower-cased by `planTasks`; its lower-casing is stated in `PlanIgnoresCase`.
