/** The native side of the engine as the managers see it: PhysX (and the C++
    heap for geometry wrappers) hands out opaque handles and takes them back.
    `Sdk` allocates fresh handles and keeps a ghost log of every creation and
    release, from which the lifecycle facts (no handle created twice, none
    released twice or before it exists) are stated and proved. */
module Native {
  import opened Common

  datatype GeometryKind = ConvexMesh | TriangleMesh | Primitive

  /** A `PxGeometry*`: `wrapper` is the heap-allocated PxGeometry object and
      `mesh` the cooked triangle or convex mesh it points to (None is null). */
  datatype Geometry = Geometry(wrapper: Handle, kind: GeometryKind, mesh: Option<Handle>)

  /** One entry of the material list, in PxPhysics::createMaterial's argument order. */
  datatype MaterialProps = MaterialProps(staticFriction: real, dynamicFriction: real, restitution: real)

  /** What a handle stands for. Bodies and worlds name the object that owns them. */
  datatype Resource =
    | MaterialRes(id: MaterialId, props: MaterialProps)
    | ConvexMeshRes(model: ModelId)
    | GeometryRes(model: ModelId)
    | ShapeRes(geometry: Geometry, material: Handle)
    | BodyRes(owner: object)
    | WorldRes(owner: object)
    | PlaneRes(material: Handle)

  datatype Event =
    | Created(h: Handle, r: Resource)
    | Released(h: Handle)
    | Cooked(model: ModelId, points: seq<real>, count: nat)

  /** The handles a log leaves alive. */
  ghost function LiveOf(log: seq<Event>): set<Handle>
  {
    if log == [] then {}
    else
      var prior := LiveOf(log[..|log| - 1]);
      match log[|log| - 1]
      case Created(h, _) => prior + {h}
      case Released(h) => prior - {h}
      case Cooked(_, _, _) => prior
  }

  ghost function CreateCount(log: seq<Event>, h: Handle): nat
  {
    if log == [] then 0
    else CreateCount(log[..|log| - 1], h) + (if log[|log| - 1].Created? && log[|log| - 1].h == h then 1 else 0)
  }

  ghost function ReleaseCount(log: seq<Event>, h: Handle): nat
  {
    if log == [] then 0
    else ReleaseCount(log[..|log| - 1], h) + (if log[|log| - 1] == Released(h) then 1 else 0)
  }

  /** Every release is of a handle that is alive at that point. */
  ghost predicate NoDoubleRelease(log: seq<Event>) {
    forall i :: 0 <= i < |log| && log[i].Released? ==> log[i].h in LiveOf(log[..i])
  }

  /** Every creation hands out a handle never handed out before. */
  ghost predicate UniqueCreations(log: seq<Event>) {
    forall i :: 0 <= i < |log| && log[i].Created? ==> CreateCount(log[..i], log[i].h) == 0
  }

  ghost predicate Disciplined(log: seq<Event>) {
    NoDoubleRelease(log) && UniqueCreations(log)
  }

  lemma PrefixDisciplined(log: seq<Event>, k: nat)
    requires k <= |log| && Disciplined(log)
    ensures Disciplined(log[..k])
  {
    forall i | 0 <= i < k
      ensures log[..k][..i] == log[..i]
    {
    }
  }

  /** Appending a creation of a fresh handle, a release of a live one, or a
      cooking record keeps a log disciplined. */
  lemma AppendDisciplined(log: seq<Event>, e: Event)
    requires Disciplined(log)
    requires e.Released? ==> e.h in LiveOf(log)
    requires e.Created? ==> CreateCount(log, e.h) == 0
    ensures Disciplined(log + [e])
  {
    var log' := log + [e];
    assert log'[..|log|] == log;
    forall i | 0 <= i < |log|
      ensures log'[..i] == log[..i]
    {
    }
  }

  /** Lifecycle symmetry: in a disciplined log every handle is created at most
      once and released at most as often as it was created, and it is alive
      exactly when it was created and not yet released. */
  lemma {:induction false} Lifecycle(log: seq<Event>, h: Handle)
    requires Disciplined(log)
    ensures CreateCount(log, h) <= 1
    ensures ReleaseCount(log, h) <= CreateCount(log, h)
    ensures h in LiveOf(log) <==> CreateCount(log, h) == 1 && ReleaseCount(log, h) == 0
  {
    if log != [] {
      var n := |log| - 1;
      var prior := log[..n];
      assert log[..n] == prior;
      PrefixDisciplined(log, n);
      Lifecycle(prior, h);
      match log[n]
      case Created(h', _) =>
        if h' == h {
          assert CreateCount(log[..n], log[n].h) == 0;
        }
      case Released(h') =>
        if h' == h {
          assert log[n].h in LiveOf(log[..n]);
        }
      case Cooked(_, _, _) =>
    }
  }

  /** Every handle the log hands out is below `bound`. */
  ghost predicate Below(log: seq<Event>, bound: Handle) {
    forall i | 0 <= i < |log| && log[i].Created? :: log[i].h < bound
  }

  lemma {:induction false} NeverCreated(log: seq<Event>, h: Handle)
    requires Below(log, h)
    ensures CreateCount(log, h) == 0
  {
    if log != [] {
      NeverCreated(log[..|log| - 1], h);
    }
  }

  /** Only creations happened between (`live`, `kind`) and (`live'`, `kind'`):
      nothing live was released and no handle changed kind. */
  ghost predicate Grows(live: set<Handle>, kind: map<Handle, Resource>, live': set<Handle>, kind': map<Handle, Resource>) {
    && live <= live'
    && kind.Keys <= kind'.Keys
    && (forall h | h in kind :: kind'[h] == kind[h])
  }

  /** PhysX's PxMat44(PxTransform) puts the translation in the fourth column. */
  ghost predicate KeepsTranslation(f: Pose -> Mat44) {
    forall t: Pose :: f(t).column3 == Vec4(t.p.x, t.p.y, t.p.z, One)
  }

  /** The native library: handle allocation, the create/release log, and the
      floating-point routines the engine calls but does not implement. */
  class Sdk {
    var next: Handle
    ghost var log: seq<Event>
    ghost var live: set<Handle>
    ghost var kind: map<Handle, Resource>

    /** PxMat44's constructor from a PxTransform. */
    const poseMatrix: Pose -> Mat44
    /** PxTransform::isValid. */
    const poseIsValid: Pose -> bool

    ghost predicate Valid()
      reads this
    {
      && live == LiveOf(log)
      && Disciplined(log)
      && Below(log, next)
      && live <= kind.Keys
      && (forall h :: h in kind ==> h < next)
      && KeepsTranslation(poseMatrix)
    }

    constructor (poseMatrix: Pose -> Mat44, poseIsValid: Pose -> bool)
      requires KeepsTranslation(poseMatrix)
      ensures Valid()
      ensures log == [] && live == {} && kind == map[]
      ensures this.poseMatrix == poseMatrix && this.poseIsValid == poseIsValid
    {
      next := 0;
      log := [];
      live := {};
      kind := map[];
      this.poseMatrix := poseMatrix;
      this.poseIsValid := poseIsValid;
    }

    method Create(r: Resource) returns (h: Handle)
      requires Valid()
      modifies this
      ensures Valid()
      ensures h !in old(kind) && kind == old(kind)[h := r]
      ensures live == old(live) + {h} && h !in old(live)
      ensures log == old(log) + [Created(h, r)]
    {
      h := next;
      NeverCreated(log, h);
      AppendDisciplined(log, Created(h, r));
      ghost var log' := log + [Created(h, r)];
      assert log'[..|log|] == log;
      log := log';
      next := next + 1;
      live := live + {h};
      kind := kind[h := r];
    }

    method Release(h: Handle)
      requires Valid() && h in live
      modifies this
      ensures Valid()
      ensures kind == old(kind) && next == old(next)
      ensures live == old(live) - {h}
      ensures log == old(log) + [Released(h)]
    {
      AppendDisciplined(log, Released(h));
      ghost var log' := log + [Released(h)];
      assert log'[..|log|] == log;
      log := log';
      live := live - {h};
    }

    /** PxCooking::cookConvexMesh's input, recorded; its outcome is an input of
        the caller. */
    method Cook(model: ModelId, points: seq<real>, count: nat)
      requires Valid()
      modifies this
      ensures Valid()
      ensures kind == old(kind) && live == old(live) && next == old(next)
      ensures log == old(log) + [Cooked(model, points, count)]
    {
      AppendDisciplined(log, Cooked(model, points, count));
      ghost var log' := log + [Cooked(model, points, count)];
      assert log'[..|log|] == log;
      log := log';
    }
  }
}
