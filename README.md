# RayForce core in Dafny

RayForce is a small C++ game engine. It puts PhysX (rigid-body simulation) under Raylib (windowing and drawing). This project models the bookkeeping the engine keeps between the two libraries and proves properties of that model:

- **PhysicsManager** (`physics.dfy`): three read-through caches. They map a material id to a PhysX material, a model id to a cooked convex geometry, and a geometry to a shape. Each cache has an `Unload*` operation, and the destructor sweeps all three.
  - Every native object lives in an `Sdk` object (`native.dfy`). It hands out fresh opaque handles and keeps a ghost log of each creation and release.
  - `Lifecycle` proves that in a disciplined log every handle is created at most once, never released twice, and alive exactly between its creation and its release.
  - The invariant `CacheInv` ties the caches to the live native objects: each cached object is alive and has the kind its key demands, and each live object of a cached kind is the one its cache holds. `OneLivePerKey` follows from it: at most one live object exists per key.
  - The operations keep the invariant and state which log entries they add and which cache entries they change.
- **RenderManager** (`render.dfy`): the instance buffer, which maps each model to the list of transforms queued this frame.
  - Adding appends to one list.
  - Clearing empties every list and keeps the keys.
  - Flushing visits the keys in the map's iteration order, issues one instanced draw per sub-mesh for every non-empty list, and empties it.
  - Draws are a ghost log. Lemmas count the draws per model and show that a second flush draws nothing.
- **ModelManager** (`models.dfy`): the model cache.
  - The file system is a parameter, `disk`.
  - A missing or empty file is replaced by a cube, and every stored material is forced to white with the manager's shader.
- **Entity** and its PhysX body (`entities.dfy`):
  - the defensive repairs in `SetHitbox`, and body creation only while there is none;
  - the Sync, PhysicsUpdate and Render data flow;
  - the column-major PhysX matrix to Raylib `m0..m15` mapping, with its round trip;
  - `PhysicsManager::UpdateEntities`.
- **Scene** and **SceneManager** (`scenes.dfy`):
  - the ordered entity list;
  - the time-step clamp;
  - the order of events within a frame, where engine hooks and world calls are recorded as ghost events;
  - teardown order;
  - the one-slot scene manager.

The repository holds the engine twice: `RayForce/src` (`Top`) and `RayForce/RayForce/src` (`Nested`). The model is one cache parameterised by `SourceTree` where the two differ:
- the "not loaded" warnings of the Unload operations (Top only);
- the warning on a null CreateShape argument (Nested only);
- the null check on the inner convex mesh in DeleteGeometry (Top only).

RayForce/src checks the result of `createConvexMesh` for null, and RayForce/RayForce/src does not (see "## Findings"). The model applies that check in both trees.

`Entity::SetHitbox` follows RayForce/src/entities/entity.cpp.

Floats are modelled by `Float`: a finite real, ±infinity or NaN. Only copies and comparisons with constants are modelled, and comparisons are false for NaN, as in IEEE 754. Each foreign outcome is an input:
- a cook or creation succeeding (`cooked`, `created`, `planeOk`);
- the frame time;
- the pause flag;
- the model file (`disk`);
- PxMat44's matrix for a pose (`poseMatrix`, which keeps the translation in column 3);
- `PxTransform::isValid` (`poseIsValid`).

## Model

| member | source | states |
|---|---|---|
| Native.Lifecycle | RayForce/RayForce/src/managers/physics.cpp:72-79 | in a log of creations of fresh handles and releases of live ones, every handle is created at most once and released no more often than created, and it is alive exactly when created and not yet released (no double release) |
| Models.ModelManager.constructor | RayForce/src/managers/model.cpp:5-15 | the cache starts empty with the given instancing shader |
| Models.ModelManager.GetModel | RayForce/src/managers/model.cpp:27-68 | a cached id returns the stored entry and loads nothing; a miss stores, at a new address, the file's model or, for a missing file or one with no meshes (with the matching warning), the purple cube, dressed white with the manager's shader, and returns the stored entry so a second call hits |
| Models.DressedProperties | RayForce/src/managers/model.cpp:60-63 | dressing keeps meshes, the mesh-to-material table and textures, makes every material white with the manager's shader (overwriting the fallback's purple), keeps well-formedness and is idempotent |
| Models.Dress | RayForce/src/managers/model.cpp:60-63 | the in-place loop over the materials yields exactly the dressed model |
| Models.ModelManager.UnloadModel | RayForce/src/managers/model.cpp:70-77 | erases exactly `id`; an absent id only warns |
| Models.ModelManager.Destroy | RayForce/src/managers/model.cpp:17-25 | the destructor leaves the cache empty and warns about nothing |
| Physics.GetModelMaterial | RayForce/src/managers/model.cpp:79-82 | returns the physics cache's material for the model's material id, so models sharing a material id share one handle; a hit keeps the material map and logs nothing; a miss adds exactly that id to the map and logs exactly one material creation with the id's properties; the other caches and the warnings are untouched |
| Physics.GatheredLength | RayForce/RayForce/src/managers/physics.cpp:136-146 | the cooking buffer holds three floats per vertex of every mesh, so the point count, its length divided by 3, is the total vertex count |
| Physics.GatheredAppend | RayForce/RayForce/src/managers/physics.cpp:136-140 | the buffer for one more mesh is the old buffer followed by that mesh's first 3 * vertexCount floats (mesh order kept) |
| Physics.GatherVertices | RayForce/src/managers/physics.cpp:177-183 | the push_back loops build exactly the concatenation, in mesh order, of each mesh's first 3 * vertexCount floats |
| Physics.CountTotals | RayForce/src/managers/physics.cpp:169-173 | the summing loop yields the total vertex and triangle counts |
| Physics.OneLivePerKey | RayForce/RayForce/src/managers/physics.cpp:106-116 | while the caches are consistent there is at most one live material per material id, one convex mesh and one wrapper per model id, one shape per geometry |
| Physics.AddMaterial | RayForce/RayForce/src/managers/physics.cpp:110-113 | creating a material for an uncached id and storing it keeps the caches consistent with the live objects |
| Physics.RemoveMaterial | RayForce/RayForce/src/managers/physics.cpp:118-124 | releasing a cached material and erasing its key keeps the caches consistent |
| Physics.AddGeometry | RayForce/src/managers/physics.cpp:207-213 | creating a convex mesh and its wrapper for an uncached model and storing the wrapper keeps the caches consistent |
| Physics.RemoveGeometry | RayForce/RayForce/src/managers/physics.cpp:170-176 | releasing a cached geometry's mesh and wrapper and erasing its key keeps the caches consistent |
| Physics.AddShape | RayForce/RayForce/src/managers/physics.cpp:207-208 | creating a shape for an uncached geometry and storing it keeps the caches consistent |
| Physics.RemoveShape | RayForce/RayForce/src/managers/physics.cpp:214-220 | releasing a cached shape and erasing its key keeps the caches consistent |
| Physics.PhysicsManager.GetMaterial | RayForce/RayForce/src/managers/physics.cpp:106-116 | a hit returns the stored handle and logs nothing; a miss creates exactly one material from the id's property triple, stores it under the id and returns it; the other caches are untouched |
| Physics.PhysicsManager.UnloadMaterial | RayForce/src/managers/physics.cpp:142-150 | releases and erases exactly the given id and nothing else; an absent id changes nothing (RayForce/src warns) |
| Physics.PhysicsManager.DeleteGeometry | RayForce/src/managers/physics.cpp:228-251 | null only warns; otherwise the inner mesh is released before the wrapper (Top only when the inner pointer is non-null) and nothing else is released |
| Physics.PhysicsManager.CreateGeometry | RayForce/src/managers/physics.cpp:152-216 | a hit returns the cached geometry and loads nothing; a model with no meshes, a failed cook or a failed createConvexMesh returns null and stores nothing; only full success stores a convex geometry under the model id; the cooked points are the gathered buffer and the count is the total vertex count; on a miss only the model cache's entry for the id may be added, and other model cache entries are kept |
| Physics.PhysicsManager.CookGeometry | RayForce/src/managers/physics.cpp:190-213 | records one cook of the gathered buffer; returns a geometry exactly when both cook and createConvexMesh succeed, and only then stores it |
| Physics.PhysicsManager.StoreGeometry | RayForce/src/managers/physics.cpp:207-213 | creates the convex mesh, then its wrapper, and stores the wrapper under the model id |
| Physics.PhysicsManager.UnloadGeometry | RayForce/src/managers/physics.cpp:218-226 | deletes and erases exactly the geometry cached for the model id; an absent id changes nothing (RayForce/src warns) |
| Physics.PhysicsManager.CreateShape | RayForce/RayForce/src/managers/physics.cpp:197-212 | a null geometry or material returns null and leaves the cache as it is (Nested warns); a cached geometry returns its shape whatever material is passed; otherwise one new shape of that geometry and that material is created and cached under the geometry |
| Physics.PhysicsManager.UnloadShape | RayForce/src/managers/physics.cpp:270-278 | releases and erases exactly the shape cached for the geometry; an absent key changes nothing (RayForce/src warns) |
| Physics.PhysicsManager.CreateScene | RayForce/src/managers/physics.cpp:105-108 | creates exactly one new world, owned by the calling scene |
| Physics.PhysicsManager.Destroy | RayForce/RayForce/src/managers/physics.cpp:68-90 | the destructor releases every cached material, geometry and shape, releases nothing else, and leaves the three maps empty |
| Physics.PhysicsManager.ReleaseMaterials | RayForce/RayForce/src/managers/physics.cpp:72-73 | the first loop releases only materials and empties their map |
| Physics.PhysicsManager.DeleteGeometries | RayForce/RayForce/src/managers/physics.cpp:75-76 | the second loop releases only geometry wrappers and their meshes and empties their map |
| Physics.PhysicsManager.ReleaseShapes | RayForce/RayForce/src/managers/physics.cpp:78-79 | the third loop releases only shapes and empties their map |
| Physics.NestedStoresUndeletable | RayForce/RayForce/src/managers/physics.cpp:160-193 | as written, a failed createConvexMesh caches a geometry whose null convex mesh DeleteGeometry then dereferences |
| Physics.CheckedStoresDeletable | RayForce/src/managers/physics.cpp:207-213 | with the null check a geometry is stored exactly when the convex mesh exists, and whatever is stored can be deleted by either tree |
| Render.RenderManager.constructor | RayForce/src/managers/render.cpp:3-5 | the buffer starts empty with no draws |
| Render.RenderManager.Add | RayForce/RayForce/src/managers/render.cpp:18-26 | a null model logs an error and leaves the buffer unchanged; otherwise the matrix goes at the end of that model's list (created empty if needed) and no other list changes |
| Render.RenderManager.Clear | RayForce/src/managers/render.cpp:21-31 | every list ends empty and every key is kept; nothing is drawn |
| Render.ClearedProperties | RayForce/RayForce/src/managers/render.cpp:32-36 | clearing keeps the keys, empties every list, and clearing twice is clearing once |
| Render.RenderManager.Flush | RayForce/src/managers/render.cpp:33-65 | visits every key once, in some order, and issues the draws FlushDraws prescribes for that order; afterwards every list is empty and every key kept |
| Render.RenderManager.FlushModel | RayForce/RayForce/src/managers/render.cpp:48-67 | an empty list is skipped; a non-empty one is drawn and then emptied, other lists untouched |
| Render.RenderManager.DrawModel | RayForce/src/managers/render.cpp:43-52 | the inner loop issues one draw per sub-mesh, in mesh order, with the material the model assigns to it and the whole list as instances |
| Render.FlushDrawsPerModel | RayForce/src/managers/render.cpp:33-65 | a flush issues, for each model, exactly meshCount draws when its list is non-empty and none otherwise |
| Render.FlushDrawsSound | RayForce/RayForce/src/managers/render.cpp:43-69 | every draw of a flush is of a model with a non-empty list, uses one of its sub-meshes with its assigned material, and instances the whole list |
| Render.FlushClearedDrawsNothing | RayForce/src/managers/render.cpp:38-63 | after a flush (or a clear) every list is empty, so a second flush without adds issues no draw |
| Render.RenderManager.Destroy | RayForce/RayForce/src/managers/render.cpp:7-10 | the destructor clears every list, then the map, drawing nothing |
| Entities.RigidBody.constructor | RayForce/src/entities/entity.cpp:118-127 | a new dynamic body has the given pose, no velocity, no shapes and the entity as userData |
| Entities.RigidBody.Configure | RayForce/src/entities/entity.cpp:139-148 | attaches the shape at the end of the body's shape list, sets the mass, zeroes both velocities, sets the sleep threshold to 0.2 only for a dynamic request, and keeps pose and userData |
| Entities.MatrixRoundTrip | RayForce/src/entities/entity.cpp:76-95 | m0..m14 are PhysX columns 0 to 3 read in order and m15 is 1, so PhysX to Raylib and back is the identity when column 3's w is 1, and Raylib to PhysX and back is the identity when m15 is 1 |
| Entities.SubmittedTranslation | RayForce/src/entities/entity.cpp:71-95 | the submitted matrix's m12, m13, m14 are the pose's position, and it converts back to PxMat44's matrix for the pose |
| Entities.RepairedPosition | RayForce/src/entities/entity.cpp:114 | the repaired x is always finite; a position with a finite x is kept as it is and any other becomes the origin (only x is checked) |
| Entities.RepairedMass | RayForce/src/entities/entity.cpp:115 | a mass at most 0 becomes 1; any other value, NaN included, is kept, so a numeric result is positive |
| Entities.Entity.constructor | RayForce/src/entities/entity.cpp:11-13 | stores position and model id and starts with the header's defaults and no body; the model is resolved read-through: a hit keeps the model cache, a miss adds only this id, whose entry is the dressed load of the model file (or the cube) |
| Entities.Entity.Destroy | RayForce/src/entities/entity.cpp:19-24 | releases the body exactly once if there is one, releases nothing else, and nulls the hitbox |
| Entities.Entity.PhysicsUpdate | RayForce/src/entities/entity.cpp:30-45 | no body: no change; otherwise position and rotation are copied from the cached transform (as stale as the last Render left it) and velocity from the body |
| Entities.Entity.Sync | RayForce/src/entities/entity.cpp:53-59 | no body: no change; otherwise the body's pose becomes (position, rotation) and its linear velocity the entity's velocity; its shapes, mass, angular velocity, sleep threshold and owner do not change |
| Entities.Entity.Render | RayForce/src/entities/entity.cpp:65-99 | without model and body nothing happens; otherwise the transform is refreshed from the body's pose and exactly one matrix, whose translation is the body's position and m15 is 1, is queued for the model |
| Entities.Entity.EnsureBody | RayForce/src/entities/entity.cpp:117-128 | an existing body is kept and nothing is created; otherwise one dynamic body owned by this entity is created at the position with identity rotation |
| Entities.Entity.ShapeFor | RayForce/src/entities/entity.cpp:131-132 | the shape is the geometry's cached shape: a cached one is returned as it was, and a new one is a shape of that geometry made with the material of the entity's model; the shape cache changes only at the geometry, the material cache only at the model's material id, the geometry cache not at all; the log gains the material's creation only on a material miss, then the shape's only on a shape miss |
| Entities.Entity.SetHitbox | RayForce/src/entities/entity.cpp:105-149 | a null geometry only warns and changes neither the entity's fields nor its existing body nor the caches nor the log; otherwise the position and mass repairs apply, a body is created only when there is none, the geometry's shape is appended to its shapes, its mass is the repaired mass, both velocities are zero, and the sleep threshold is 0.2 only when dynamic was asked for; the shape and material caches change only at the geometry and the model's material id, and the log gains exactly the body, material and shape creations that were misses; no native object dies and the geometry cache is untouched |
| Entities.Entity.Attach | RayForce/src/entities/entity.cpp:113-148 | with a geometry: the repairs, the body created only when missing (fresh, owned by this entity, at the repaired position), the cached shape appended, the mass set, both velocities zeroed, and the sleep threshold set only for a dynamic request; the log gains only the missed body, material and shape creations, and the caches change only at their two keys |
| Entities.Entity.Equip | RayForce/src/entities/entity.cpp:130-148 | the cached shape is appended to the existing body and its mass, velocities and (when dynamic) sleep threshold set, pose and owner kept; the log gains only the missed material and shape creations |
| Entities.UpdateEntities | RayForce/RayForce/src/managers/physics.cpp:225-237 | PhysicsUpdate runs for each active actor's owner in actor order, actors without one skipped, and every owner ends synced with its body |
| Scenes.TimeStep | RayForce/src/scenes/scene.cpp:74-90 | the step is 1/60 when paused, above 0.25 or negative, else the frame time itself (0 included); a non-NaN step lies in [0, 0.25]; the step is NaN exactly when unpaused with a NaN frame time |
| Scenes.DefaultEnvironment | RayForce/src/scenes/scene.cpp:12-22 | loads the basic material, and creates a ground plane with it exactly when plane creation succeeds; only the basic material's cache entry changes and the log grows by exactly EnvironmentLog (the material if it was not cached, then the plane if it was made) |
| Scenes.SetUp | RayForce/src/scenes/scene.cpp:9-22 | creates this scene's world, then the default environment: native objects only grow (Grows), only the basic material's cache entry changes, and the log grows by exactly the world's creation followed by EnvironmentLog |
| Scenes.Scene.constructor | RayForce/src/scenes/scene.cpp:7-23 | a new scene owns a new world, has no entities and no pending switch, and adds the ground plane to its world only if the plane was created; native objects only grow (Grows) and the log grows by exactly the world's creation followed by EnvironmentLog |
| Scenes.Scene.Destroy | RayForce/src/scenes/scene.cpp:29-40 | every entity's body is released and the list emptied, then the world is released last: the world's release is the final log entry and each body's release comes before it; only the world and the entities' bodies are released |
| Scenes.Scene.ReleaseEntities | RayForce/src/scenes/scene.cpp:31-33 | each entity releases its own body, which is dead afterwards and has a release entry among the new log entries; nothing but those bodies is released |
| Scenes.Scene.ReleaseAt | RayForce/src/scenes/scene.cpp:31-32 | one entity releases exactly its own body, if any, logging one release, and the scene stays consistent |
| Scenes.Scene.AddEntity | RayForce/src/scenes/scene.cpp:46-60 | null does nothing; otherwise the entity is appended, its Init runs, its body joins the world only if present with a valid pose, and then its state is pushed to the body, whose shapes, mass, angular velocity, user data and sleep threshold stay as they were |
| Scenes.RemoveFirstAt | RayForce/src/scenes/scene.cpp:67-69 | removing the first occurrence cuts the list exactly at the index the find loop stops at |
| Scenes.RemoveFirstCounts | RayForce/src/scenes/scene.cpp:66-71 | an absent entity leaves the list unchanged; a present one removes exactly one occurrence |
| Scenes.Scene.RemoveEntity | RayForce/src/scenes/scene.cpp:66-71 | the list loses only the first occurrence of the entity, which is not destroyed |
| Scenes.Scene.Render | RayForce/src/scenes/scene.cpp:81-101 | one simulate with the clamped step, then every entity submitted in list order, then exactly one flush; what is flushed is Queued of the buffer and the entity list, and the draws are FlushDraws of it; each entity with a model and a body ends with its transform equal to its body's pose, and every other entity keeps its transform |
| Scenes.Scene.SubmitAll | RayForce/src/scenes/scene.cpp:95-97 | the buffer ends as Queued of the old buffer and the entity list: each entity with a model and a body appends its pose's matrix to its model's list, in list order; nothing is drawn; each entity with a model and a body ends with its transform equal to its body's pose, every other entity keeps its transform |
| Scenes.Scene.Submit | RayForce/src/scenes/scene.cpp:95-96 | one turn of the loop extends Queued by the next entity of the list, and every entity with a model and a body up to it has its transform equal to its body's pose |
| Scenes.QueuedExtends | RayForce/src/scenes/scene.cpp:95-97 | queuing only appends: every list already in the buffer is a prefix of its list afterwards |
| Scenes.QueuedHolds | RayForce/src/entities/entity.cpp:65-99 | every entity with a model and a body has its pose's matrix in its model's list, and a model gains a list only from such an entity |
| Scenes.Scene.Update | RayForce/src/scenes/scene.cpp:107-146 | fetchResults, then Tick, then each entity's Update in list order, with no per-entity PhysicsUpdate; returns the requested next scene |
| Scenes.Scene.LoadScene | RayForce/src/scenes/scene.cpp:160-162 | only records the scene to switch to |
| Scenes.Scene.Init | RayForce/src/managers/scenes.cpp:19 | the Init hook runs once |
| Scenes.SceneManager.UnloadScene | RayForce/src/managers/scenes.cpp:22-29 | no scene: nothing changes; otherwise the scene is destroyed and the slot emptied, so a second call does nothing; each entity body is released before the world, whose release is the final log entry |
| Scenes.SceneManager.Destroy | RayForce/src/managers/scenes.cpp:5-7 | the destructor leaves no scene loaded; with no scene the native objects are untouched; otherwise the scene's world and entity bodies are released, the world last, and only objects the scene owned die |
| Scenes.SceneManager.LoadScene | RayForce/src/managers/scenes.cpp:9-20 | null leaves the slot and the native objects as they are; otherwise any current scene is destroyed first (its bodies, then its world, released, and only objects it owned dying), the new scene becomes current, and its Init runs exactly once |
| Scenes.SceneManager.Render | RayForce/src/managers/scenes.cpp:31-37 | forwards to the current scene only when there is one: then the buffer it flushes is Queued of the entities and the draws are FlushDraws of it; with no scene nothing is queued or drawn; the scene's entity list, world, plane and pending switch are unchanged, each entity with a model and a body ends with its transform equal to its body's pose and every other entity keeps its transform |
| Scenes.SceneManager.Update | RayForce/src/managers/scenes.cpp:39-45 | forwards to the current scene only when there is one; a switch requested during that Update then destroys it (bodies, then world, released, only its own objects dying) and loads the requested scene; without a switch the native objects are untouched, and the scene keeps its entity list, world and plane, has no pending switch, and every entity is unchanged |

## Left out

- PhysX, CUDA and cooking bring-up and teardown, and the window, main loop, OS hook and input code: these are foreign calls and I/O. `PhysicsManager`'s constructor only starts with empty caches.
- `CreateScene(PxSceneDesc)` (RayForce/src/managers/physics.cpp:110-119): it keeps the address of a by-value parameter, which is undefined behaviour.
- Convex cooking, the quaternion-to-Euler conversion in PhysicsUpdate, gravity, contact and rest offsets, and inertia: floating-point work inside the libraries. Cook and creation outcomes are inputs. `setMassAndUpdateInertia` is modelled as setting the mass.
- DrawGrid, DrawMeshInstanced and the F11 fullscreen toggle: graphics and window I/O. Draws are ghost events.
- simulate/fetchResults run asynchronously on a worker pool. Here they are ordered ghost events.
- The `(PxU32)` truncation of the point count and the float rounding of 1/60: counts are unbounded naturals and the step is an exact real.
- Entities.Entity.Render: PxMat44's rotation block is an input (`poseMatrix`); only its translation column and m15 are constrained.
- Entities.RigidBody.Configure: PhysX refuses to attach an exclusive shape that is already attached to another body. The model appends it anyway, which is what the engine asks for.
- Entities.Entity.Valid does not require `hitbox.userData == this`. Only Configure and the constructor set userData, and the frames stay small.
- Scenes.Scene.Update: the null-entity branch of the loop is unreachable because entities are non-null references. Erasing inside the range-for is left out with it.
- Scenes.SceneManager.Update: the engine switches scenes from inside `Scene::Update`, which deletes the running scene. The model performs the switch after the scene's Update returns and requires the requested scene to differ from the current one.
- Scenes.SceneManager.LoadScene requires that the scene being loaded is not the current one, since the engine would delete it before using it.
- Models.ModelManager.Destroy: the source erases from the map while iterating it. The model does what the loop intends: every entry is unloaded and the map is cleared. Unloading the shader is left out.
- Models.ModelManager.UnloadModel: the source erases the entry without calling Raylib's UnloadModel, so the GPU data leaks. GPU memory is not modelled.
- Scenes.Scene.Destroy: an entity listed twice would be deleted twice by the source. In the model, Entity.Destroy on an entity with no body does nothing. The ground plane is never released (a leak): the constructor's local `groundPlane` shadows the member, which stays null.
- PhysicsUpdate is called only from UpdateEntities; Scene::Update has the call commented out, and the model keeps that.
- `GetCurrentScene` and `GetPhysicsScene` return a field; the model reads `current` and `world` directly.
- The Init and Update hooks of entities and the Init and Tick hooks of scenes do nothing in the engine. They are recorded as events, and gameplay overrides are not modelled.
- `MaterialID::Basic` is the parameter `basic`.
- Shape cache entries keyed by a geometry that UnloadGeometry has deleted stay in the cache, as in the source.
- Native.Sdk.Create never hands out a handle twice. The C++ heap and PhysX can reuse a freed address, so a stale shape cache entry keyed by a deleted `PxGeometry*` could alias a geometry allocated later at the same address and Physics.PhysicsManager.CreateShape would return the old shape for it. That aliasing is not captured.
- Physics.PhysicsManager.CookGeometry: RayForce/RayForce/src/managers/physics.cpp:159-163 stores the geometry even when `createConvexMesh` returned null. The model checks for null in both trees, and the unchecked path is captured only by Physics.NestedStoresUndeletable (see "## Findings").
- Physics.PhysicsManager.CreateGeometry: inherits the same null check from CookGeometry in both trees.
- The `.at()` lookups of material properties (`materialsProperties`), model file paths (`modelFilepaths`) and model materials (`modelMaterials`) throw `std::out_of_range` for an id outside the tables. The model treats these tables as total functions (`properties`, `disk`, `materialOf`), so that exception is not modelled.

## Findings

| source | as written | input that shows it | evidently intended | confidence | as-written member | corrected member |
|---|---|---|---|---|---|---|
| RayForce/RayForce/src/managers/physics.cpp:160-193 | CreateGeometry wraps and caches the result of `createConvexMesh` without checking it for null; DeleteGeometry later calls `convexMesh->release()` on it | a model with meshes whose cooking succeeds but whose `createConvexMesh` returns null; then UnloadGeometry or the destructor | return null and cache nothing when the convex mesh is null, as RayForce/src/managers/physics.cpp:207-209 does | not executed | Physics.NestedStoresUndeletable | Physics.CheckedStoresDeletable |
