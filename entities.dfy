/** The entity transform bridge (Entity): an entity's Raylib-side state
    (position, rotation quaternion, velocity, mass and a cached PhysX pose)
    and its optional rigid body, with the copies between them, the matrix
    handed to the render buffer, and SetHitbox's body creation. */
module Entities {
  import opened Common
  import opened Native
  import Models
  import Physics
  import Render

  /** A PxRigidDynamic as the engine uses it. `sleepThreshold` None is PhysX's
      default. */
  class RigidBody {
    const id: Handle
    var pose: Pose
    var linearVelocity: Vec3
    var angularVelocity: Vec3
    var shapes: seq<Handle>
    var mass: Float
    var sleepThreshold: Option<real>
    /** The entity the body belongs to (PhysX's userData). */
    var userData: Entity?

    constructor (id: Handle, pose: Pose, owner: Entity?)
      ensures this.id == id && this.pose == pose && userData == owner
      ensures linearVelocity == Origin && angularVelocity == Origin
      ensures shapes == [] && mass == One && sleepThreshold == None
    {
      this.id := id;
      this.pose := pose;
      userData := owner;
      linearVelocity := Origin;
      angularVelocity := Origin;
      shapes := [];
      mass := One;
      sleepThreshold := None;
    }

    /** SetHitbox's settings: attaches `shape`, sets the mass, zeroes both
        velocities and, for a body meant to move, sets the sleep threshold to
        0.2. */
    method Configure(shape: Handle, m: Float, makeDynamic: bool)
      modifies this
      ensures shapes == old(shapes) + [shape] && mass == m
      ensures linearVelocity == Origin && angularVelocity == Origin
      ensures sleepThreshold == if makeDynamic then Some(0.2) else old(sleepThreshold)
      ensures pose == old(pose) && userData == old(userData)
    {
      shapes := shapes + [shape];
      mass := m;
      linearVelocity := Origin;
      angularVelocity := Origin;
      if makeDynamic {
        sleepThreshold := Some(0.2);
      }
    }
  }

  /** The column-to-field copy of Entity::Render: m0..m11 are columns 0 to 2
      read x, y, z, w; m12..m14 are column 3 read x, y, z; m15 is 1. */
  function ToRaylib(m: Mat44): Matrix {
    Matrix(m.column0.x, m.column0.y, m.column0.z, m.column0.w,
           m.column1.x, m.column1.y, m.column1.z, m.column1.w,
           m.column2.x, m.column2.y, m.column2.z, m.column2.w,
           m.column3.x, m.column3.y, m.column3.z, One)
  }

  /** The opposite reading: Raylib's m0..m15 as four PhysX columns. */
  function ToPhysx(r: Matrix): Mat44 {
    Mat44(Vec4(r.m0, r.m1, r.m2, r.m3),
          Vec4(r.m4, r.m5, r.m6, r.m7),
          Vec4(r.m8, r.m9, r.m10, r.m11),
          Vec4(r.m12, r.m13, r.m14, r.m15))
  }

  /** The copy loses nothing of a matrix whose last entry is 1 (every
      PxMat44 built from a PxTransform), in either direction. */
  lemma MatrixRoundTrip(m: Mat44, r: Matrix)
    ensures m.column3.w == One ==> ToPhysx(ToRaylib(m)) == m
    ensures r.m15 == One ==> ToRaylib(ToPhysx(r)) == r
    ensures ToRaylib(m).m15 == One
  {
  }

  /** The submitted matrix carries the pose's position as its translation
      (m12, m13, m14). */
  lemma SubmittedTranslation(poseMatrix: Pose -> Mat44, t: Pose)
    requires KeepsTranslation(poseMatrix)
    ensures ToRaylib(poseMatrix(t)).m12 == t.p.x
    ensures ToRaylib(poseMatrix(t)).m13 == t.p.y
    ensures ToRaylib(poseMatrix(t)).m14 == t.p.z
    ensures ToPhysx(ToRaylib(poseMatrix(t))) == poseMatrix(t)
  {
  }

  /** The value SetHitbox starts from: a non-finite x coordinate resets the
      position to the origin (the other coordinates are not checked). */
  function RepairedPosition(p: Vec3): (r: Vec3)
    ensures r.x.IsFinite()
    ensures p.x.IsFinite() ==> r == p
    ensures !p.x.IsFinite() ==> r == Origin
  {
    if p.x.IsFinite() then p else Origin
  }

  /** A mass that compares `<= 0` becomes 1; NaN compares false and is kept. */
  function RepairedMass(m: Float): (r: Float)
    ensures m.AtMost(0.0) ==> r == One
    ensures !m.AtMost(0.0) ==> r == m
    ensures r.Num? ==> r.r > 0.0
  {
    if m.AtMost(0.0) then One else m
  }

  class Entity {
    var position: Vec3
    var rotationQuat: Quat
    var velocity: Vec3
    var mass: Float
    /** The PhysX pose cached by Render; PhysicsUpdate reads it. */
    var transform: Pose
    var model: Option<ModelRef>
    const modelId: ModelId
    var hitbox: RigidBody?
    /** SetHitbox calls refused for a null geometry (each logs a warning). */
    ghost var nullGeometries: nat

    /** The entity's body, if any, is alive in `sdk` and was created for this
        entity, and its model can be drawn. */
    ghost predicate Valid(sdk: Sdk)
      reads this`model, this`hitbox, sdk
    {
      && (model.Some? ==> WellFormed(model.value.model))
      && (hitbox != null ==> hitbox.id in sdk.live && hitbox.id in sdk.kind && sdk.kind[hitbox.id] == BodyRes(this))
    }

    /** Stores the position and model id and resolves the model through the
        model cache. The cached pose starts undefined. */
    constructor (pos: Vec3, modelId: ModelId, mm: Models.ModelManager, sdk: Sdk)
      requires mm.Valid()
      modifies mm
      ensures mm.Valid() && Valid(sdk)
      ensures position == pos && this.modelId == modelId
      ensures modelId in mm.models && model == Some(mm.models[modelId])
      ensures modelId in old(mm.models) ==> mm.models == old(mm.models)
      ensures modelId !in old(mm.models) ==>
                && mm.models == old(mm.models)[modelId := model.value]
                && model.value.model == Models.Dressed(mm.Source(modelId), mm.shader)
      ensures rotationQuat == IdentityQuat && velocity == Origin && mass == Num(10.0)
      ensures hitbox == null && nullGeometries == 0
    {
      var m := mm.GetModel(modelId);
      position := pos;
      this.modelId := modelId;
      model := Some(m);
      rotationQuat := IdentityQuat;
      velocity := Origin;
      mass := Num(10.0);
      transform := *;
      hitbox := null;
      nullGeometries := 0;
    }

    /** The destructor: the body, if any, is released once and forgotten. */
    method Destroy(pm: Physics.PhysicsManager)
      requires pm.Valid() && Valid(pm.sdk)
      modifies this`hitbox, pm.sdk
      ensures pm.Valid() && Valid(pm.sdk) && hitbox == null
      ensures old(hitbox) == null ==> pm.sdk.log == old(pm.sdk.log)
      ensures old(hitbox) != null ==> pm.sdk.log == old(pm.sdk.log) + [Released(old(hitbox.id))]
      ensures pm.sdk.kind == old(pm.sdk.kind)
      ensures pm.sdk.live == old(pm.sdk.live) - if old(hitbox) == null then {} else {old(hitbox.id)}
      ensures position == old(position) && transform == old(transform) && model == old(model)
    {
      if hitbox != null {
        var sdk := pm.sdk;
        sdk.Release(hitbox.id);
        Physics.ForeignRelease(old(sdk.live), sdk.kind, pm.properties, pm.Cached(), old(hitbox.id), sdk.live);
        hitbox := null;
      }
    }

    /** Copies the cached pose into position and rotation and the body's
        linear velocity into velocity. The pose is the one the last Render
        cached, not the body's current one. No body: no change. */
    method PhysicsUpdate()
      modifies this`position, this`rotationQuat, this`velocity
      ensures old(hitbox) == null ==> position == old(position) && rotationQuat == old(rotationQuat) && velocity == old(velocity)
      ensures Synced(this)
    {
      if hitbox != null {
        position := Vec3(transform.p.x, transform.p.y, transform.p.z);
        rotationQuat := Quat(transform.q.x, transform.q.y, transform.q.z, transform.q.w);
        var v := hitbox.linearVelocity;
        velocity := Vec3(v.x, v.y, v.z);
      }
    }

    /** Pushes position, rotation and velocity to the body; no body: no
        change. */
    method Sync()
      modifies hitbox
      ensures hitbox != null ==> hitbox.pose == Pose(position, rotationQuat) && hitbox.linearVelocity == velocity
      ensures hitbox != null ==>
                && hitbox.angularVelocity == old(hitbox.angularVelocity) && hitbox.shapes == old(hitbox.shapes)
                && hitbox.mass == old(hitbox.mass) && hitbox.userData == old(hitbox.userData)
                && hitbox.sleepThreshold == old(hitbox.sleepThreshold)
    {
      if hitbox != null {
        var q := Quat(rotationQuat.x, rotationQuat.y, rotationQuat.z, rotationQuat.w);
        hitbox.pose := Pose(Vec3(position.x, position.y, position.z), q);
        hitbox.linearVelocity := Vec3(velocity.x, velocity.y, velocity.z);
      }
    }

    /** With a model and a body: caches the body's pose and queues its matrix
        for the model, so the queued translation is the body's position.
        Otherwise nothing happens. */
    method Render(rm: Render.RenderManager, sdk: Sdk)
      requires rm.Valid() && Valid(sdk) && sdk.Valid()
      modifies (if model.Some? && hitbox != null then {this} else {})`transform, rm
      ensures rm.Valid() && Valid(sdk) && rm.draws == old(rm.draws)
      ensures model.None? || hitbox == null ==> transform == old(transform) && rm.buffer == old(rm.buffer)
      ensures model.Some? && hitbox != null ==>
                && transform == hitbox.pose
                && model.value in rm.buffer
                && rm.buffer == old(rm.buffer)[model.value := (if model.value in old(rm.buffer) then old(rm.buffer)[model.value] else []) + [ToRaylib(sdk.poseMatrix(transform))]]
                && var t := Last(rm.buffer[model.value]); t.m12 == transform.p.x && t.m13 == transform.p.y && t.m14 == transform.p.z && t.m15 == One
    {
      if model.Some? && hitbox != null {
        transform := hitbox.pose;
        var renderMat := ToRaylib(sdk.poseMatrix(transform));
        SubmittedTranslation(sdk.poseMatrix, transform);
        rm.Add(model, renderMat);
        assert rm.buffer == old(rm.buffer)[model.value := (if model.value in old(rm.buffer) then old(rm.buffer)[model.value] else []) + [renderMat]];
      }
    }

    /** The body SetHitbox works on: the existing one, or a new dynamic body
        at the (repaired) position with identity rotation, owned by this
        entity. */
    method EnsureBody(pm: Physics.PhysicsManager)
      requires pm.Valid() && Valid(pm.sdk)
      modifies this`hitbox, pm.sdk
      ensures pm.Valid() && Valid(pm.sdk) && hitbox != null
      ensures Grows(old(pm.sdk.live), old(pm.sdk.kind), pm.sdk.live, pm.sdk.kind)
      ensures old(hitbox) != null ==> hitbox == old(hitbox) && pm.sdk.log == old(pm.sdk.log)
      ensures old(hitbox) == null ==>
                && fresh(hitbox) && hitbox.userData == this && hitbox.pose == Pose(position, IdentityQuat)
                && hitbox.shapes == [] && hitbox.sleepThreshold == None
                && hitbox.id !in old(pm.sdk.kind) && pm.sdk.kind[hitbox.id] == BodyRes(this)
                && pm.sdk.log == old(pm.sdk.log) + [Created(hitbox.id, BodyRes(this))]
    {
      if hitbox == null {
        var initialTransform := Pose(Vec3(position.x, position.y, position.z), IdentityQuat);
        var sdk := pm.sdk;
        var id := sdk.Create(BodyRes(this));
        Physics.ForeignCreate(old(sdk.live), old(sdk.kind), pm.properties, pm.Cached(), id, BodyRes(this), sdk.live, sdk.kind);
        hitbox := new RigidBody(id, initialTransform, this);
      }
    }

    /** The shape SetHitbox attaches: the geometry's cached shape, made with
        the material of this entity's model. */
    method ShapeFor(pm: Physics.PhysicsManager, mm: Models.ModelManager, geometry: Geometry) returns (shape: Handle)
      requires pm.Valid()
      modifies pm, pm.sdk
      ensures pm.Valid() && Grows(old(pm.sdk.live), old(pm.sdk.kind), pm.sdk.live, pm.sdk.kind)
      ensures mm.materialOf(modelId) in pm.materials
      ensures geometry in pm.shapes && shape == pm.shapes[geometry]
      ensures geometry in old(pm.shapes) ==> shape == old(pm.shapes[geometry])
      ensures geometry !in old(pm.shapes) ==> pm.sdk.kind[shape] == ShapeRes(geometry, pm.materials[mm.materialOf(modelId)])
      ensures pm.geometries == old(pm.geometries) && pm.warnings == old(pm.warnings)
      ensures pm.shapes == old(pm.shapes)[geometry := shape]
      ensures pm.materials == old(pm.materials)[mm.materialOf(modelId) := pm.materials[mm.materialOf(modelId)]]
      ensures pm.sdk.log == old(pm.sdk.log) + ShapeForLog(old(pm.materials), old(pm.shapes), pm.properties, mm.materialOf(modelId), pm.materials[mm.materialOf(modelId)], geometry, shape)
    {
      var material := Physics.GetModelMaterial(mm, pm, modelId);
      ghost var mat := mm.materialOf(modelId);
      ghost var materialLog := pm.sdk.log;
      assert materialLog == old(pm.sdk.log) + if mat in old(pm.materials) then [] else [Created(material, MaterialRes(mat, pm.properties(mat)))];
      var r := pm.CreateShape(Some(geometry), Some(material));
      shape := r.value;
      assert pm.sdk.log == materialLog + if geometry in old(pm.shapes) then [] else [Created(shape, ShapeRes(geometry, material))];
    }

    /** The creations ShapeFor logs: the model's material when its id was
        not cached, then the geometry's shape when the geometry was not
        cached; nothing on a double hit. */
    static ghost function ShapeForLog(materials: map<MaterialId, Handle>, shapes: map<Geometry, Handle>, properties: MaterialId -> MaterialProps,
                                      mat: MaterialId, material: Handle, geometry: Geometry, shape: Handle): seq<Event>
    {
      (if mat in materials then [] else [Created(material, MaterialRes(mat, properties(mat)))])
      + (if geometry in shapes then [] else [Created(shape, ShapeRes(geometry, material))])
    }

    /** With a null geometry only warns. Otherwise repairs position and mass;
        creates a dynamic body at the position with identity rotation and
        this entity as its owner only when there is none yet; attaches the
        geometry's cached shape made with the model's material; sets the mass
        and zeroes both velocities; sets the sleep threshold to 0.2 only when
        `makeDynamic`. */
    method SetHitbox(pm: Physics.PhysicsManager, mm: Models.ModelManager, geometry: Option<Geometry>, makeDynamic: bool)
      requires pm.Valid() && Valid(pm.sdk)
      modifies this`position, this`mass, this`hitbox, this`nullGeometries, hitbox, pm, pm.sdk
      ensures pm.Valid() && Valid(pm.sdk)
      ensures pm.geometries == old(pm.geometries) && pm.warnings == old(pm.warnings)
      ensures Grows(old(pm.sdk.live), old(pm.sdk.kind), pm.sdk.live, pm.sdk.kind)
      ensures geometry.None? ==>
                && nullGeometries == old(nullGeometries) + 1
                && position == old(position) && mass == old(mass) && hitbox == old(hitbox)
                && (hitbox != null ==> unchanged(hitbox))
                && pm.sdk.log == old(pm.sdk.log) && pm.shapes == old(pm.shapes) && pm.materials == old(pm.materials)
      ensures geometry.Some? ==>
                && nullGeometries == old(nullGeometries)
                && position == RepairedPosition(old(position)) && mass == RepairedMass(old(mass))
                && hitbox != null
                && (old(hitbox) != null ==> hitbox == old(hitbox))
                && (old(hitbox) == null ==>
                      && fresh(hitbox) && hitbox.userData == this && hitbox.pose == Pose(position, IdentityQuat)
                      && hitbox.id !in old(pm.sdk.kind) && pm.sdk.kind[hitbox.id] == BodyRes(this))
                && geometry.value in pm.shapes
                && mm.materialOf(modelId) in pm.materials
                && hitbox.shapes == (if old(hitbox) == null then [] else old(hitbox.shapes)) + [pm.shapes[geometry.value]]
                && hitbox.mass == mass && hitbox.linearVelocity == Origin && hitbox.angularVelocity == Origin
                && (makeDynamic ==> hitbox.sleepThreshold == Some(0.2))
                && (!makeDynamic ==> hitbox.sleepThreshold == if old(hitbox) == null then None else old(hitbox.sleepThreshold))
      ensures geometry.Some? ==>
                && pm.shapes == old(pm.shapes)[geometry.value := pm.shapes[geometry.value]]
                && pm.materials == old(pm.materials)[mm.materialOf(modelId) := pm.materials[mm.materialOf(modelId)]]
                && pm.sdk.log == old(pm.sdk.log) + (if old(hitbox) == null then [Created(hitbox.id, BodyRes(this))] else [])
                     + ShapeForLog(old(pm.materials), old(pm.shapes), pm.properties, mm.materialOf(modelId), pm.materials[mm.materialOf(modelId)], geometry.value, pm.shapes[geometry.value])
    {
      if geometry.None? {
        nullGeometries := nullGeometries + 1;
        return;
      }
      Attach(pm, mm, geometry.value, makeDynamic);
    }

    /** SetHitbox with a geometry: the repairs and the body, then Equip. */
    method Attach(pm: Physics.PhysicsManager, mm: Models.ModelManager, geometry: Geometry, makeDynamic: bool)
      requires pm.Valid() && Valid(pm.sdk)
      modifies this`position, this`mass, this`hitbox, hitbox, pm, pm.sdk
      ensures pm.Valid() && Valid(pm.sdk)
      ensures pm.geometries == old(pm.geometries) && pm.warnings == old(pm.warnings)
      ensures Grows(old(pm.sdk.live), old(pm.sdk.kind), pm.sdk.live, pm.sdk.kind)
      ensures position == RepairedPosition(old(position)) && mass == RepairedMass(old(mass))
      ensures hitbox != null
      ensures old(hitbox) != null ==> hitbox == old(hitbox)
      ensures old(hitbox) == null ==>
                && fresh(hitbox) && hitbox.userData == this && hitbox.pose == Pose(position, IdentityQuat)
                && hitbox.id !in old(pm.sdk.kind) && pm.sdk.kind[hitbox.id] == BodyRes(this)
      ensures geometry in pm.shapes && mm.materialOf(modelId) in pm.materials
      ensures pm.shapes == old(pm.shapes)[geometry := pm.shapes[geometry]]
      ensures pm.materials == old(pm.materials)[mm.materialOf(modelId) := pm.materials[mm.materialOf(modelId)]]
      ensures pm.sdk.log == old(pm.sdk.log) + (if old(hitbox) == null then [Created(hitbox.id, BodyRes(this))] else [])
                + ShapeForLog(old(pm.materials), old(pm.shapes), pm.properties, mm.materialOf(modelId), pm.materials[mm.materialOf(modelId)], geometry, pm.shapes[geometry])
      ensures hitbox.shapes == (if old(hitbox) == null then [] else old(hitbox.shapes)) + [pm.shapes[geometry]]
      ensures hitbox.mass == mass && hitbox.linearVelocity == Origin && hitbox.angularVelocity == Origin
      ensures makeDynamic ==> hitbox.sleepThreshold == Some(0.2)
      ensures !makeDynamic ==> hitbox.sleepThreshold == if old(hitbox) == null then None else old(hitbox.sleepThreshold)
    {
      position := RepairedPosition(position);
      mass := RepairedMass(mass);
      EnsureBody(pm);
      Equip(pm, mm, geometry, makeDynamic);
    }

    /** The rest of SetHitbox once the body exists: the geometry's cached
        shape, made with the model's material, is attached to the body, and
        the mass, velocities and (when dynamic) sleep threshold are set. */
    method Equip(pm: Physics.PhysicsManager, mm: Models.ModelManager, geometry: Geometry, makeDynamic: bool)
      requires pm.Valid() && Valid(pm.sdk) && hitbox != null
      modifies hitbox, pm, pm.sdk
      ensures pm.Valid() && Valid(pm.sdk)
      ensures pm.geometries == old(pm.geometries) && pm.warnings == old(pm.warnings)
      ensures Grows(old(pm.sdk.live), old(pm.sdk.kind), pm.sdk.live, pm.sdk.kind)
      ensures geometry in pm.shapes && mm.materialOf(modelId) in pm.materials
      ensures pm.shapes == old(pm.shapes)[geometry := pm.shapes[geometry]]
      ensures pm.materials == old(pm.materials)[mm.materialOf(modelId) := pm.materials[mm.materialOf(modelId)]]
      ensures pm.sdk.log == old(pm.sdk.log)
                + ShapeForLog(old(pm.materials), old(pm.shapes), pm.properties, mm.materialOf(modelId), pm.materials[mm.materialOf(modelId)], geometry, pm.shapes[geometry])
      ensures hitbox.shapes == old(hitbox.shapes) + [pm.shapes[geometry]]
      ensures hitbox.mass == mass && hitbox.linearVelocity == Origin && hitbox.angularVelocity == Origin
      ensures hitbox.sleepThreshold == if makeDynamic then Some(0.2) else old(hitbox.sleepThreshold)
      ensures hitbox.pose == old(hitbox.pose) && hitbox.userData == old(hitbox.userData)
    {
      var shape := ShapeFor(pm, mm, geometry);
      hitbox.Configure(shape, mass, makeDynamic);
    }
  }

  function Last<T>(s: seq<T>): T
    requires s != []
  {
    s[|s| - 1]
  }

  /** The entities owning the given actors, in actor order, null owners
      skipped. */
  function Owners(actors: seq<RigidBody>): seq<Entity>
    reads set a | a in actors
  {
    if actors == [] then []
    else
      var a := actors[|actors| - 1];
      Owners(actors[..|actors| - 1]) + if a.userData == null then [] else [a.userData]
  }

  /** The entities owning the given actors. */
  ghost function OwnerSet(actors: seq<RigidBody>): set<Entity>
    reads set a | a in actors
  {
    set a | a in actors && a.userData != null :: a.userData
  }

  /** PhysicsManager::UpdateEntities: PhysicsUpdate once for each active
      actor's owner, in actor order, skipping actors without one. The ghost
      `updated` only records that visiting order; what the loop promises is
      the `Synced` clause: every owner with a body ends with the position
      and rotation of its cached transform and its body's velocity. */
  method UpdateEntities(actors: seq<RigidBody>) returns (ghost updated: seq<Entity>)
    modifies OwnerSet(actors)`position, OwnerSet(actors)`rotationQuat, OwnerSet(actors)`velocity
    ensures updated == Owners(actors)
    ensures forall i | 0 <= i < |actors| && actors[i].userData != null :: Synced(actors[i].userData)
  {
    updated := [];
    var i := 0;
    while i < |actors|
      invariant 0 <= i <= |actors|
      invariant updated == Owners(actors[..i])
      invariant forall j | 0 <= j < i && actors[j].userData != null :: Synced(actors[j].userData)
    {
      assert actors[..i + 1][..i] == actors[..i];
      var ent := actors[i].userData;
      if ent != null {
        ent.PhysicsUpdate();
        updated := updated + [ent];
      }
      i := i + 1;
    }
    assert actors[..i] == actors;
  }

  /** An entity whose Raylib-side state was just copied from its body. */
  ghost predicate Synced(e: Entity)
    reads e, e.hitbox
  {
    e.hitbox != null ==> e.position == e.transform.p && e.rotationQuat == e.transform.q && e.velocity == e.hitbox.linearVelocity
  }
}
