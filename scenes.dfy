/** A level (Scene) and the one-slot scene manager (SceneManager): the entity
    list, the frame protocol (simulate, submit, flush; fetch, tick, update)
    and the switch between levels. The engine's virtual hooks (Scene::Init,
    Scene::Tick, Entity::Init, Entity::Update) do nothing in the base classes
    and are recorded as events; gameplay overrides are not modelled. */
module Scenes {
  import opened Common
  import opened Native
  import Physics
  import Buffer = Render
  import opened Entities

  /** The fixed simulation step, 1/60 s (float rounding not modelled). */
  const FixedStep: real := 1.0 / 60.0

  /** The step handed to simulate: the fixed step when paused or when the
      frame time is above 0.25 or negative, else the frame time itself
      (0 included). A NaN frame time fails every comparison and is kept. */
  function TimeStep(paused: bool, frameTime: Float): (dt: Float)
    ensures paused ==> dt == Num(FixedStep)
    ensures frameTime.Exceeds(0.25) || frameTime.Under(0.0) ==> dt == Num(FixedStep)
    ensures !paused && frameTime.Num? && 0.0 <= frameTime.r <= 0.25 ==> dt == frameTime
    ensures dt != NaN ==> dt.Num? && 0.0 <= dt.r <= 0.25
    ensures dt == NaN <==> !paused && frameTime == NaN
  {
    if paused || frameTime.Exceeds(0.25) || frameTime.Under(0.0) then Num(FixedStep) else frameTime
  }

  /** What a scene does to the world and to its hooks, in order. */
  datatype Event =
    | Initialized
    | ActorAdded(actor: Handle)
    | EntityInitialized(entity: Entity)
    | Simulated(dt: Float)
    | Submitted(entity: Entity)
    | Flushed
    | ResultsFetched
    | Ticked
    | EntityUpdated(entity: Entity)

  function SubmittedAll(es: seq<Entity>): (r: seq<Event>)
    ensures |r| == |es| && forall i :: 0 <= i < |es| ==> r[i] == Submitted(es[i])
  {
    seq(|es|, i requires 0 <= i < |es| => Submitted(es[i]))
  }

  /** Extending the submitted prefix by one entity appends its event. */
  lemma SubmittedAllStep(es: seq<Entity>, i: nat)
    requires i < |es|
    ensures SubmittedAll(es[..i + 1]) == SubmittedAll(es[..i]) + [Submitted(es[i])]
  {
    assert es[..i + 1] == es[..i] + [es[i]];
  }

  function UpdatedAll(es: seq<Entity>): (r: seq<Event>)
    ensures |r| == |es| && forall i :: 0 <= i < |es| ==> r[i] == EntityUpdated(es[i])
  {
    seq(|es|, i requires 0 <= i < |es| => EntityUpdated(es[i]))
  }

  /** `t` appended to the list of `k`, which is created empty if needed. */
  function Enqueue(buffer: map<ModelRef, seq<Matrix>>, k: ModelRef, t: Matrix): map<ModelRef, seq<Matrix>> {
    buffer[k := (if k in buffer then buffer[k] else []) + [t]]
  }

  /** The render buffer after the entities `es`, in order, have queued their
      matrices: an entity with a model and a body appends the matrix of its
      body's pose to its model's list; any other entity queues nothing. */
  ghost function Queued(buffer: map<ModelRef, seq<Matrix>>, es: seq<Entity>, poseMatrix: Pose -> Mat44): map<ModelRef, seq<Matrix>>
    reads (set e | e in es)`model, (set e | e in es)`hitbox, (set e | e in es && e.hitbox != null :: e.hitbox)`pose
  {
    if es == [] then buffer
    else
      var e := es[|es| - 1];
      var prior := Queued(buffer, es[..|es| - 1], poseMatrix);
      if e.model.Some? && e.hitbox != null then Enqueue(prior, e.model.value, ToRaylib(poseMatrix(e.hitbox.pose)))
      else prior
  }

  /** Queuing only appends: every list already in the buffer stays there as
      a prefix of its new list. */
  lemma {:induction false} QueuedExtends(buffer: map<ModelRef, seq<Matrix>>, es: seq<Entity>, poseMatrix: Pose -> Mat44, k: ModelRef)
    requires k in buffer
    ensures k in Queued(buffer, es, poseMatrix) && buffer[k] <= Queued(buffer, es, poseMatrix)[k]
  {
    if es != [] {
      QueuedExtends(buffer, es[..|es| - 1], poseMatrix, k);
    }
  }

  /** Queuing one more entity: its matrix goes on top of what the entities
      before it queued, when it has a model and a body. */
  lemma QueuedStep(buffer: map<ModelRef, seq<Matrix>>, es: seq<Entity>, poseMatrix: Pose -> Mat44, i: nat)
    requires i < |es|
    ensures Queued(buffer, es[..i + 1], poseMatrix)
            == if es[i].model.Some? && es[i].hitbox != null
               then Enqueue(Queued(buffer, es[..i], poseMatrix), es[i].model.value, ToRaylib(poseMatrix(es[i].hitbox.pose)))
               else Queued(buffer, es[..i], poseMatrix)
  {
    assert es[..i + 1][..i] == es[..i];
  }

  /** Every entity with a model and a body has its body's matrix in its
      model's list, and a model gains a list only from such an entity. */
  lemma {:induction false} QueuedHolds(buffer: map<ModelRef, seq<Matrix>>, es: seq<Entity>, poseMatrix: Pose -> Mat44)
    ensures forall i | 0 <= i < |es| && es[i].model.Some? && es[i].hitbox != null ::
              && es[i].model.value in Queued(buffer, es, poseMatrix)
              && ToRaylib(poseMatrix(es[i].hitbox.pose)) in Queued(buffer, es, poseMatrix)[es[i].model.value]
    ensures forall k | k in Queued(buffer, es, poseMatrix) && k !in buffer ::
              exists i :: 0 <= i < |es| && es[i].model == Some(k) && es[i].hitbox != null
  {
    if es != [] {
      var n := |es| - 1;
      var prior := Queued(buffer, es[..n], poseMatrix);
      QueuedHolds(buffer, es[..n], poseMatrix);
      forall i | 0 <= i < n && es[i].model.Some? && es[i].hitbox != null
        ensures es[i].model.value in Queued(buffer, es, poseMatrix)
        ensures ToRaylib(poseMatrix(es[i].hitbox.pose)) in Queued(buffer, es, poseMatrix)[es[i].model.value]
      {
        assert es[..n][i] == es[i];
        var k := es[i].model.value;
        assert k in prior && ToRaylib(poseMatrix(es[i].hitbox.pose)) in prior[k];
        if es[n].model.Some? && es[n].hitbox != null && es[n].model.value == k {
          assert Queued(buffer, es, poseMatrix)[k] == prior[k] + [ToRaylib(poseMatrix(es[n].hitbox.pose))];
        }
      }
      forall k | k in Queued(buffer, es, poseMatrix) && k !in buffer
        ensures exists i :: 0 <= i < |es| && es[i].model == Some(k) && es[i].hitbox != null
      {
        if k in prior {
          var i :| 0 <= i < n && es[..n][i].model == Some(k) && es[..n][i].hitbox != null;
          assert es[i] == es[..n][i];
        } else {
          assert es[n].model == Some(k) && es[n].hitbox != null;
        }
      }
    }
  }

  /** `s` without its first occurrence of `x` (std::find then erase). */
  function RemoveFirst(s: seq<Entity>, x: Entity): seq<Entity> {
    if s == [] then []
    else if s[0] == x then s[1..]
    else [s[0]] + RemoveFirst(s[1..], x)
  }

  /** RemoveFirst cuts exactly the first `x`, at index `i`. */
  lemma {:induction false} RemoveFirstAt(s: seq<Entity>, x: Entity, i: nat)
    requires i < |s| && s[i] == x && forall j :: 0 <= j < i ==> s[j] != x
    ensures RemoveFirst(s, x) == s[..i] + s[i + 1..]
  {
    if i > 0 {
      RemoveFirstAt(s[1..], x, i - 1);
      assert s[1..][..i - 1] == s[1..i];
      assert s[1..][i..] == s[i + 1..];
      assert s[..i] == [s[0]] + s[1..i];
    }
  }

  /** Removing an absent entity changes nothing; removing a present one
      takes away exactly one occurrence of it. */
  lemma {:induction false} RemoveFirstCounts(s: seq<Entity>, x: Entity)
    ensures x !in s ==> RemoveFirst(s, x) == s
    ensures x in s ==> |RemoveFirst(s, x)| == |s| - 1 && multiset(RemoveFirst(s, x)) == multiset(s) - multiset{x}
  {
    if s != [] && s[0] != x {
      RemoveFirstCounts(s[1..], x);
      assert s == [s[0]] + s[1..];
    } else if s != [] {
      assert s == [s[0]] + s[1..];
    }
  }

  /** A resource a scene's destruction may release: its world, or the body
      of one of its entities. */
  ghost predicate OwnedBy(r: Resource, scene: object, entities: seq<Entity>) {
    r == WorldRes(scene) || (r.BodyRes? && exists i :: 0 <= i < |entities| && r.owner == entities[i])
  }

  /** The handles of the entities' bodies. */
  ghost function Bodies(entities: seq<Entity>): set<Handle>
    reads (set e | e in entities)`hitbox
  {
    set e | e in entities && e.hitbox != null :: e.hitbox.id
  }

  /** What destroying `scene` did to the native objects, from the log `log0`,
      live set `live0` and kinds `kind0` before it: no kind changed and no
      object was born; every body in `bodies` is dead and was released
      before the world, whose release is the last entry; and every object
      that died was the scene's world or one of its entities' bodies. */
  ghost predicate TornDown(log0: seq<Native.Event>, log: seq<Native.Event>, live0: set<Handle>, live: set<Handle>,
                           kind0: map<Handle, Resource>, kind: map<Handle, Resource>,
                           scene: object, world: Handle, entities: seq<Entity>, bodies: set<Handle>)
  {
    && kind == kind0 && live <= live0
    && log0 < log && log[|log| - 1] == Released(world) && world !in live
    && (forall h | h in bodies :: h !in live && Released(h) in log[|log0|..|log| - 1])
    && (forall h | h in live0 && h !in live :: h in kind && OwnedBy(kind[h], scene, entities))
  }

  /** The creations the default environment logs: the `basic` material
      when its id was not cached, then the plane when it was created. */
  ghost function EnvironmentLog(materials: map<MaterialId, Handle>, properties: MaterialId -> MaterialProps,
                                basic: MaterialId, material: Handle, plane: Option<Handle>): seq<Native.Event>
  {
    (if basic in materials then [] else [Created(material, MaterialRes(basic, properties(basic)))])
    + (if plane.Some? then [Created(plane.value, PlaneRes(material))] else [])
  }

  /** The scene's default environment: loads the `basic` material, then
      PxCreatePlane with it at y = 0, facing up, whose success is `planeOk`.
      Returns the plane when it was created. */
  method DefaultEnvironment(pm: Physics.PhysicsManager, basic: MaterialId, planeOk: bool) returns (plane: Option<Handle>)
    requires pm.Valid()
    modifies pm, pm.sdk
    ensures pm.Valid() && Grows(old(pm.sdk.live), old(pm.sdk.kind), pm.sdk.live, pm.sdk.kind)
    ensures basic in pm.materials
    ensures planeOk <==> plane.Some?
    ensures plane.Some? ==>
              && plane.value !in old(pm.sdk.kind) && plane.value in pm.sdk.live
              && pm.sdk.kind[plane.value] == PlaneRes(pm.materials[basic])
    ensures pm.materials == old(pm.materials)[basic := pm.materials[basic]]
    ensures pm.geometries == old(pm.geometries) && pm.shapes == old(pm.shapes)
    ensures pm.sdk.log == old(pm.sdk.log) + EnvironmentLog(old(pm.materials), pm.properties, basic, pm.materials[basic], plane)
  {
    var material := pm.GetMaterial(basic);
    assert pm.sdk.log == old(pm.sdk.log) + EnvironmentLog(old(pm.materials), pm.properties, basic, material, None);
    if !planeOk {
      return None;
    }
    var sdk := pm.sdk;
    ghost var live0, kind0 := sdk.live, sdk.kind;
    var h := sdk.Create(PlaneRes(material));
    Physics.ForeignCreate(live0, kind0, pm.properties, pm.Cached(), h, PlaneRes(material), sdk.live, sdk.kind);
    plane := Some(h);
  }

  /** The constructor's native work: the world for `owner`, then the
      default environment. */
  method SetUp(pm: Physics.PhysicsManager, owner: object, basic: MaterialId, planeOk: bool) returns (world: Handle, plane: Option<Handle>)
    requires pm.Valid()
    modifies pm, pm.sdk
    ensures pm.Valid() && Grows(old(pm.sdk.live), old(pm.sdk.kind), pm.sdk.live, pm.sdk.kind)
    ensures world !in old(pm.sdk.kind) && world in pm.sdk.live && pm.sdk.kind[world] == WorldRes(owner)
    ensures basic in pm.materials
    ensures planeOk <==> plane.Some?
    ensures plane.Some? ==> plane.value in pm.sdk.live && pm.sdk.kind[plane.value] == PlaneRes(pm.materials[basic])
    ensures pm.materials == old(pm.materials)[basic := pm.materials[basic]]
    ensures pm.geometries == old(pm.geometries) && pm.shapes == old(pm.shapes)
    ensures pm.sdk.log == old(pm.sdk.log) + [Created(world, WorldRes(owner))] + EnvironmentLog(old(pm.materials), pm.properties, basic, pm.materials[basic], plane)
  {
    world := pm.CreateScene(owner);
    plane := DefaultEnvironment(pm, basic, planeOk);
  }

  class Scene {
    /** The PxScene. */
    var world: Handle
    /** The ground plane, when PxCreatePlane succeeded. */
    var plane: Option<Handle>
    var entities: seq<Entity>
    /** The level to switch to at the end of this frame's Update. */
    var nextScene: Scene?
    ghost var events: seq<Event>

    /** The world is alive and was created for this scene, and every entity
        is valid. */
    ghost predicate Valid(sdk: Sdk)
      reads this, sdk, (set e | e in entities)
    {
      && world in sdk.live && world in sdk.kind && sdk.kind[world] == WorldRes(this)
      && forall e | e in entities :: e.Valid(sdk)
    }

    /** This scene and its entities: what its destruction changes. */
    ghost function Footprint(): set<object>
      reads this
    {
      {this as object} + set e | e in entities :: e as object
    }

    /** Creates the world, loads the `basic` material, and adds a ground
        plane made with it only when PxCreatePlane succeeded (`planeOk`). */
    constructor (pm: Physics.PhysicsManager, basic: MaterialId, planeOk: bool)
      requires pm.Valid()
      modifies pm, pm.sdk
      ensures pm.Valid() && Valid(pm.sdk)
      ensures Grows(old(pm.sdk.live), old(pm.sdk.kind), pm.sdk.live, pm.sdk.kind)
      ensures entities == [] && nextScene == null
      ensures world !in old(pm.sdk.kind) && basic in pm.materials
      ensures pm.materials == old(pm.materials)[basic := pm.materials[basic]]
      ensures pm.geometries == old(pm.geometries) && pm.shapes == old(pm.shapes)
      ensures pm.sdk.log == old(pm.sdk.log) + [Created(world, WorldRes(this))] + EnvironmentLog(old(pm.materials), pm.properties, basic, pm.materials[basic], plane)
      ensures planeOk ==>
                && plane.Some? && plane.value in pm.sdk.live
                && pm.sdk.kind[plane.value] == PlaneRes(pm.materials[basic])
                && events == [ActorAdded(plane.value)]
      ensures !planeOk ==> plane == None && events == []
    {
      world := 0;
      plane := None;
      entities := [];
      nextScene := null;
      events := [];
      new;
      world, plane := SetUp(pm, this, basic, planeOk);
      if plane.Some? {
        events := [ActorAdded(plane.value)];
      }
    }

    /** The destructor: every entity's body is released and the list
        cleared, then the world is released. */
    method Destroy(pm: Physics.PhysicsManager)
      requires pm.Valid() && Valid(pm.sdk)
      modifies this, (set e | e in entities), pm.sdk
      ensures pm.Valid() && entities == [] && events == old(events)
      ensures forall e | e in old(entities) :: e.hitbox == null && e.model == old(e.model)
      ensures pm.sdk.kind == old(pm.sdk.kind) && pm.sdk.live <= old(pm.sdk.live)
      ensures old(world) !in pm.sdk.live
      ensures old(pm.sdk.log) < pm.sdk.log && pm.sdk.log[|pm.sdk.log| - 1] == Released(old(world))
      ensures forall e | e in old(entities) && old(e.hitbox) != null ::
                old(e.hitbox.id) !in pm.sdk.live && Released(old(e.hitbox.id)) in pm.sdk.log[|old(pm.sdk.log)|..|pm.sdk.log| - 1]
      ensures forall h | h in old(pm.sdk.live) && h !in pm.sdk.live :: h in pm.sdk.kind && OwnedBy(pm.sdk.kind[h], this, old(entities))
    {
      ReleaseEntities(pm);
      entities := [];
      var sdk := pm.sdk;
      ghost var live0 := sdk.live;
      sdk.Release(world);
      Physics.ForeignRelease(live0, sdk.kind, pm.properties, pm.Cached(), world, sdk.live);
    }

    /** The first loop of the destructor: each entity releases its body. */
    method ReleaseEntities(pm: Physics.PhysicsManager)
      requires pm.Valid() && Valid(pm.sdk)
      modifies (set e | e in entities), pm.sdk
      ensures pm.Valid() && Valid(pm.sdk)
      ensures forall e | e in entities :: e.hitbox == null && e.model == old(e.model)
      ensures pm.sdk.kind == old(pm.sdk.kind) && pm.sdk.live <= old(pm.sdk.live)
      ensures old(pm.sdk.log) <= pm.sdk.log
      ensures forall e | e in entities && old(e.hitbox) != null ::
                old(e.hitbox.id) !in pm.sdk.live && Released(old(e.hitbox.id)) in pm.sdk.log[|old(pm.sdk.log)|..]
      ensures forall h | h in old(pm.sdk.live) && h !in pm.sdk.live :: h in pm.sdk.kind && OwnedBy(pm.sdk.kind[h], this, entities)
    {
      var i := 0;
      while i < |entities|
        invariant 0 <= i <= |entities|
        invariant pm.Valid() && Valid(pm.sdk)
        invariant forall j :: 0 <= j < i ==> entities[j].hitbox == null
        invariant forall j :: i <= j < |entities| && entities[j] !in entities[..i] ==> entities[j].hitbox == old(entities[j].hitbox)
        invariant forall e | e in entities :: e.model == old(e.model)
        invariant pm.sdk.kind == old(pm.sdk.kind) && pm.sdk.live <= old(pm.sdk.live)
        invariant old(pm.sdk.log) <= pm.sdk.log
        invariant forall j :: 0 <= j < i && old(entities[j].hitbox) != null ==>
                    old(entities[j].hitbox.id) !in pm.sdk.live && Released(old(entities[j].hitbox.id)) in pm.sdk.log[|old(pm.sdk.log)|..]
        invariant forall h | h in old(pm.sdk.live) && h !in pm.sdk.live :: h in pm.sdk.kind && OwnedBy(pm.sdk.kind[h], this, entities)
      {
        ghost var released := if entities[i].hitbox == null then {} else {entities[i].hitbox.id};
        ghost var before := pm.sdk.log;
        ReleaseAt(pm, i);
        assert pm.sdk.log[|old(pm.sdk.log)|..] == before[|old(pm.sdk.log)|..] + pm.sdk.log[|before|..];
        forall h | h in old(pm.sdk.live) && h !in pm.sdk.live
          ensures h in pm.sdk.kind && OwnedBy(pm.sdk.kind[h], this, entities)
        {
          if h in released {
            assert pm.sdk.kind[h].owner == entities[i];
          }
        }
        i := i + 1;
      }
    }

    /** One turn of that loop: entity `i` releases its body, which the world
        knew as entity `i`'s, and the scene stays valid. */
    method ReleaseAt(pm: Physics.PhysicsManager, i: nat)
      requires i < |entities| && pm.Valid() && Valid(pm.sdk)
      modifies {entities[i]}, pm.sdk
      ensures pm.Valid() && Valid(pm.sdk)
      ensures entities[i].hitbox == null && entities[i].model == old(entities[i].model)
      ensures pm.sdk.kind == old(pm.sdk.kind)
      ensures old(entities[i].hitbox) == null ==> pm.sdk.live == old(pm.sdk.live) && pm.sdk.log == old(pm.sdk.log)
      ensures old(entities[i].hitbox) != null ==>
                && old(entities[i].hitbox.id) in pm.sdk.kind && pm.sdk.kind[old(entities[i].hitbox.id)] == BodyRes(entities[i])
                && pm.sdk.live == old(pm.sdk.live) - {old(entities[i].hitbox.id)}
                && pm.sdk.log == old(pm.sdk.log) + [Released(old(entities[i].hitbox.id))]
    {
      var e := entities[i];
      e.Destroy(pm);
    }

    /** A null entity is ignored. Otherwise, in order: the entity is
        appended, its Init hook runs, its body (if any) joins the world when
        its pose is valid, and its state is pushed to the body. */
    method AddEntity(entity: Entity?, sdk: Sdk)
      requires Valid(sdk)
      requires entity != null ==> entity.Valid(sdk)
      modifies this`entities, this`events, if entity == null then null else entity.hitbox
      ensures Valid(sdk)
      ensures entity == null ==> entities == old(entities) && events == old(events)
      ensures entity != null ==>
                && entities == old(entities) + [entity]
                && events == old(events) + [EntityInitialized(entity)]
                     + (if entity.hitbox != null && sdk.poseIsValid(old(entity.hitbox.pose)) then [ActorAdded(entity.hitbox.id)] else [])
                && (entity.hitbox != null ==> entity.hitbox.pose == Pose(entity.position, entity.rotationQuat) && entity.hitbox.linearVelocity == entity.velocity)
      ensures entity != null && entity.hitbox != null ==>
                && entity.hitbox.angularVelocity == old(entity.hitbox.angularVelocity) && entity.hitbox.shapes == old(entity.hitbox.shapes)
                && entity.hitbox.mass == old(entity.hitbox.mass) && entity.hitbox.userData == old(entity.hitbox.userData)
                && entity.hitbox.sleepThreshold == old(entity.hitbox.sleepThreshold)
    {
      if entity == null {
        return;
      }
      entities := entities + [entity];
      events := events + [EntityInitialized(entity)];
      if entity.hitbox != null {
        if sdk.poseIsValid(entity.hitbox.pose) {
          events := events + [ActorAdded(entity.hitbox.id)];
        }
      }
      entity.Sync();
    }

    /** Erases the first occurrence of the entity, without destroying it; an
        absent entity leaves the list as it is. */
    method RemoveEntity(entity: Entity?)
      modifies this`entities
      ensures entity == null ==> entities == old(entities)
      ensures entity != null ==> entities == RemoveFirst(old(entities), entity)
    {
      var i := 0;
      while i < |entities| && entities[i] != entity
        invariant 0 <= i <= |entities|
        invariant forall j :: 0 <= j < i ==> entities[j] != entity
      {
        i := i + 1;
      }
      if i < |entities| {
        RemoveFirstAt(entities, entities[i], i);
        entities := entities[..i] + entities[i + 1..];
      } else if entity != null {
        RemoveFirstCounts(entities, entity);
      }
    }

    /** One frame's drawing: one simulation step of TimeStep's length, every
        entity submitted in list order, then exactly one flush. */
    method Render(rm: Buffer.RenderManager, sdk: Sdk, paused: bool, frameTime: Float) returns (ghost submitted: map<ModelRef, seq<Matrix>>, ghost order: seq<ModelRef>)
      requires Valid(sdk) && sdk.Valid() && rm.Valid()
      modifies this`events, rm, (set e | e in entities && e.model.Some? && e.hitbox != null)`transform
      ensures Valid(sdk) && rm.Valid() && entities == old(entities)
      ensures events == old(events) + [Simulated(TimeStep(paused, frameTime))] + SubmittedAll(entities) + [Flushed]
      ensures submitted == old(Queued(rm.buffer, entities, sdk.poseMatrix))
      ensures old(rm.buffer).Keys <= submitted.Keys
      ensures Buffer.IsEnumeration(order, submitted.Keys)
      ensures rm.buffer == Buffer.Cleared(submitted)
      ensures rm.draws == old(rm.draws) + Buffer.FlushDraws(submitted, order)
      ensures forall e | e in entities && e.model.Some? && e.hitbox != null :: e.transform == e.hitbox.pose
      ensures forall e | e in entities && (e.model.None? || e.hitbox == null) :: e.transform == old(e.transform)
    {
      ghost var queued := Queued(rm.buffer, entities, sdk.poseMatrix);
      var dt := TimeStep(paused, frameTime);
      events := events + [Simulated(dt)];
      SubmitAll(rm, sdk);
      submitted := rm.buffer;
      assert submitted == queued;
      order := rm.Flush();
      events := events + [Flushed];
    }

    /** The drawing loop of Render: each entity queues its matrix. */
    method SubmitAll(rm: Buffer.RenderManager, sdk: Sdk)
      requires Valid(sdk) && sdk.Valid() && rm.Valid()
      modifies this`events, rm, (set e | e in entities && e.model.Some? && e.hitbox != null)`transform
      ensures Valid(sdk) && rm.Valid() && rm.draws == old(rm.draws)
      ensures rm.buffer == Queued(old(rm.buffer), entities, sdk.poseMatrix)
      ensures old(rm.buffer).Keys <= rm.buffer.Keys
      ensures events == old(events) + SubmittedAll(entities)
      ensures forall e | e in entities && e.model.Some? && e.hitbox != null :: e.transform == e.hitbox.pose
      ensures forall e | e in entities && (e.model.None? || e.hitbox == null) :: e.transform == old(e.transform)
    {
      var i := 0;
      while i < |entities|
        invariant 0 <= i <= |entities|
        invariant Valid(sdk) && rm.Valid() && rm.draws == old(rm.draws)
        invariant rm.buffer == Queued(old(rm.buffer), entities[..i], sdk.poseMatrix)
        invariant old(rm.buffer).Keys <= rm.buffer.Keys
        invariant events == old(events) + SubmittedAll(entities[..i])
        invariant forall e | e in entities[..i] && e.model.Some? && e.hitbox != null :: e.transform == e.hitbox.pose
      {
        Submit(rm, sdk, i, old(rm.buffer));
        SubmittedAllStep(entities, i);
        i := i + 1;
      }
      assert entities[..i] == entities;
    }

    /** One turn of the drawing loop: entity `i` queues its matrix on top of
        what the entities before it queued onto `start`. */
    method Submit(rm: Buffer.RenderManager, sdk: Sdk, i: nat, ghost start: map<ModelRef, seq<Matrix>>)
      requires i < |entities| && Valid(sdk) && sdk.Valid() && rm.Valid()
      requires rm.buffer == Queued(start, entities[..i], sdk.poseMatrix)
      requires forall e | e in entities[..i] && e.model.Some? && e.hitbox != null :: e.transform == e.hitbox.pose
      modifies this`events, rm, (if entities[i].model.Some? && entities[i].hitbox != null then {entities[i]} else {})`transform
      ensures Valid(sdk) && rm.Valid() && rm.draws == old(rm.draws)
      ensures rm.buffer == Queued(start, entities[..i + 1], sdk.poseMatrix)
      ensures old(rm.buffer).Keys <= rm.buffer.Keys
      ensures events == old(events) + [Submitted(entities[i])]
      ensures forall e | e in entities[..i + 1] && e.model.Some? && e.hitbox != null :: e.transform == e.hitbox.pose
    {
      var e := entities[i];
      assert entities[..i + 1] == entities[..i] + [e];
      QueuedStep(start, entities, sdk.poseMatrix, i);
      ghost var next := Queued(start, entities[..i + 1], sdk.poseMatrix);
      e.Render(rm, sdk);
      assert rm.buffer == next;
      events := events + [Submitted(e)];
    }

    /** One frame's logic: wait for the simulation results, run the Tick hook,
        then each entity's Update hook in list order. Entities are not pulled
        from their bodies here. Returns the level requested for the switch
        that ends the frame. */
    method Update() returns (next: Scene?)
      modifies this`events
      ensures next == nextScene
      ensures events == old(events) + [ResultsFetched, Ticked] + UpdatedAll(entities)
    {
      events := events + [ResultsFetched, Ticked];
      var i := 0;
      while i < |entities|
        invariant 0 <= i <= |entities|
        invariant events == old(events) + [ResultsFetched, Ticked] + UpdatedAll(entities[..i])
      {
        assert UpdatedAll(entities[..i + 1]) == UpdatedAll(entities[..i]) + [EntityUpdated(entities[i])];
        events := events + [EntityUpdated(entities[i])];
        i := i + 1;
      }
      assert entities[..i] == entities;
      next := nextScene;
    }

    /** Records the level to switch to at the end of the current Update. */
    method LoadScene(scene: Scene?)
      modifies this`nextScene
      ensures nextScene == scene
    {
      nextScene := scene;
    }

    /** The Init hook. */
    method Init()
      modifies this`events
      ensures events == old(events) + [Initialized]
    {
      events := events + [Initialized];
    }
  }

  /** The single current-scene slot. */
  class SceneManager {
    var current: Scene?
    /** The scenes deleted so far, in order. */
    ghost var deleted: seq<Scene>

    ghost predicate Valid(sdk: Sdk)
      reads this, current, sdk, if current == null then {} else set e | e in current.entities
    {
      current != null ==> current.Valid(sdk)
    }

    constructor ()
      ensures current == null && deleted == []
    {
      current := null;
      deleted := [];
    }

    /** No scene: nothing happens. Otherwise the scene is destroyed and the
        slot emptied; a second call therefore does nothing. */
    method UnloadScene(pm: Physics.PhysicsManager)
      requires pm.Valid() && Valid(pm.sdk)
      modifies this, if current == null then {} else current.Footprint(), pm.sdk
      ensures pm.Valid() && Valid(pm.sdk) && current == null
      ensures old(current) == null ==> deleted == old(deleted) && pm.sdk.live == old(pm.sdk.live) && pm.sdk.log == old(pm.sdk.log)
      ensures old(current) != null ==> deleted == old(deleted) + [old(current)] && old(current.world) !in pm.sdk.live
      ensures old(current) != null ==>
                && old(pm.sdk.log) < pm.sdk.log && pm.sdk.log[|pm.sdk.log| - 1] == Released(old(current.world))
                && forall e | e in old(current.entities) && old(e.hitbox) != null ::
                     old(e.hitbox.id) !in pm.sdk.live && Released(old(e.hitbox.id)) in pm.sdk.log[|old(pm.sdk.log)|..|pm.sdk.log| - 1]
      ensures pm.sdk.kind == old(pm.sdk.kind) && pm.sdk.live <= old(pm.sdk.live)
      ensures old(current) != null ==>
                forall h | h in old(pm.sdk.live) && h !in pm.sdk.live :: h in pm.sdk.kind && OwnedBy(pm.sdk.kind[h], old(current), old(current.entities))
      ensures old(current) != null ==> forall e | e in old(current.entities) :: e.hitbox == null && e.model == old(e.model)
      ensures old(current) != null ==>
                TornDown(old(pm.sdk.log), pm.sdk.log, old(pm.sdk.live), pm.sdk.live, old(pm.sdk.kind), pm.sdk.kind,
                         old(current), old(current.world), old(current.entities), old(Bodies(current.entities)))
    {
      if current == null {
        return;
      }
      current.Destroy(pm);
      deleted := deleted + [current];
      current := null;
    }

    /** The destructor leaves no scene loaded. */
    method Destroy(pm: Physics.PhysicsManager)
      requires pm.Valid() && Valid(pm.sdk)
      modifies this, if current == null then {} else current.Footprint(), pm.sdk
      ensures pm.Valid() && current == null
      ensures deleted == old(deleted) + if old(current) == null then [] else [old(current)]
      ensures old(current) == null ==> pm.sdk.log == old(pm.sdk.log) && pm.sdk.live == old(pm.sdk.live) && pm.sdk.kind == old(pm.sdk.kind)
      ensures old(current) != null ==>
                TornDown(old(pm.sdk.log), pm.sdk.log, old(pm.sdk.live), pm.sdk.live, old(pm.sdk.kind), pm.sdk.kind,
                         old(current), old(current.world), old(current.entities), old(Bodies(current.entities)))
    {
      UnloadScene(pm);
    }

    /** A null scene is ignored. Otherwise the current scene, if any, is
        destroyed first, then `scene` becomes current and its Init hook runs
        once. Loading the current scene again would use it after deleting
        it, so the caller must not. */
    method LoadScene(scene: Scene?, pm: Physics.PhysicsManager)
      requires pm.Valid() && Valid(pm.sdk)
      requires scene != null ==> scene != current && scene.Valid(pm.sdk)
      modifies this, if current == null then {} else current.Footprint(), pm.sdk, if scene == null then null else scene
      ensures pm.Valid() && Valid(pm.sdk)
      ensures scene == null ==> current == old(current) && deleted == old(deleted)
      ensures scene != null ==>
                && current == scene
                && scene.events == old(scene.events) + [Initialized]
                && deleted == old(deleted) + if old(current) == null then [] else [old(current)]
      ensures scene == null || old(current) == null ==>
                pm.sdk.log == old(pm.sdk.log) && pm.sdk.live == old(pm.sdk.live) && pm.sdk.kind == old(pm.sdk.kind)
      ensures scene != null && old(current) != null ==>
                TornDown(old(pm.sdk.log), pm.sdk.log, old(pm.sdk.live), pm.sdk.live, old(pm.sdk.kind), pm.sdk.kind,
                         old(current), old(current.world), old(current.entities), old(Bodies(current.entities)))
    {
      if scene == null {
        return;
      }
      if current != null {
        ghost var leaving := current;
        ghost var leavingEntities := current.entities;
        UnloadScene(pm);
        assert scene.world in pm.sdk.live by {
          assert pm.sdk.kind[scene.world] != WorldRes(leaving);
        }
        forall e | e in scene.entities
          ensures e.Valid(pm.sdk)
        {
          if e !in leavingEntities && e.hitbox != null {
            assert pm.sdk.kind[e.hitbox.id] == BodyRes(e);
          }
        }
      }
      current := scene;
      current.Init();
    }

    /** Forwards to the current scene, if any. */
    method Render(rm: Buffer.RenderManager, sdk: Sdk, paused: bool, frameTime: Float) returns (ghost submitted: map<ModelRef, seq<Matrix>>, ghost order: seq<ModelRef>)
      requires Valid(sdk) && sdk.Valid() && rm.Valid()
      modifies rm, (if current == null then {} else {current})`events
      modifies (if current == null then {} else set e | e in current.entities && e.model.Some? && e.hitbox != null)`transform
      ensures Valid(sdk) && rm.Valid() && current == old(current)
      ensures old(current) == null ==> rm.buffer == old(rm.buffer) && rm.draws == old(rm.draws)
      ensures old(current) != null ==>
                && current.entities == old(current.entities) && current.nextScene == old(current.nextScene)
                && current.world == old(current.world) && current.plane == old(current.plane)
                && current.events == old(current.events) + [Simulated(TimeStep(paused, frameTime))] + SubmittedAll(current.entities) + [Flushed]
                && forall k | k in rm.buffer :: rm.buffer[k] == []
      ensures old(current) != null ==>
                && (forall e | e in current.entities && e.model.Some? && e.hitbox != null :: e.transform == e.hitbox.pose)
                && (forall e | e in current.entities && (e.model.None? || e.hitbox == null) :: e.transform == old(e.transform))
      ensures old(current) != null ==>
                && submitted == old(Queued(rm.buffer, current.entities, sdk.poseMatrix))
                && Buffer.IsEnumeration(order, submitted.Keys)
                && rm.buffer == Buffer.Cleared(submitted)
                && rm.draws == old(rm.draws) + Buffer.FlushDraws(submitted, order)
    {
      submitted, order := map[], [];
      if current != null {
        submitted, order := current.Render(rm, sdk, paused, frameTime);
      }
    }

    /** Forwards to the current scene, if any, then performs the switch the
        scene requested during its Update, if any. */
    method Update(pm: Physics.PhysicsManager)
      requires pm.Valid() && Valid(pm.sdk)
      requires current != null && current.nextScene != null ==> current.nextScene != current && current.nextScene.Valid(pm.sdk)
      modifies this, if current == null then {} else current.Footprint(), pm.sdk
      modifies if current == null || current.nextScene == null then null else current.nextScene
      ensures pm.Valid() && Valid(pm.sdk)
      ensures old(current) == null ==> current == null && deleted == old(deleted)
      ensures old(current) != null && old(current.nextScene) == null ==>
                && current == old(current) && deleted == old(deleted)
                && current.entities == old(current.entities) && current.nextScene == null
                && current.world == old(current.world) && current.plane == old(current.plane)
                && current.events == old(current.events) + [ResultsFetched, Ticked] + UpdatedAll(current.entities)
                && forall e | e in current.entities :: unchanged(e)
      ensures old(current) != null && old(current.nextScene) != null ==>
                && current == old(current.nextScene)
                && deleted == old(deleted) + [old(current)]
                && current.events == old(current.nextScene.events) + [Initialized]
      ensures old(current) == null || old(current.nextScene) == null ==>
                pm.sdk.log == old(pm.sdk.log) && pm.sdk.live == old(pm.sdk.live) && pm.sdk.kind == old(pm.sdk.kind)
      ensures old(current) != null && old(current.nextScene) != null ==>
                TornDown(old(pm.sdk.log), pm.sdk.log, old(pm.sdk.live), pm.sdk.live, old(pm.sdk.kind), pm.sdk.kind,
                         old(current), old(current.world), old(current.entities), old(Bodies(current.entities)))
    {
      if current == null {
        return;
      }
      var next := current.Update();
      if next != null {
        LoadScene(next, pm);
      }
    }
  }
}
