/** The physics resource cache (PhysicsManager): three read-through maps from
    material id to PhysX material, from model id to cooked convex geometry,
    and from geometry to shape, with their Unload operations and the
    destructor sweep. Every native object lives in `sdk`, whose ghost log
    records each creation and release. */
module Physics {
  import opened Common
  import opened Native
  import Models

  datatype Warning =
    | MaterialNotLoaded(material: MaterialId)
    | GeometryNotLoaded(model: ModelId)
    | ShapeNotLoaded(geometry: Geometry)
    | NullGeometry
    | NullShapeArgument

  /** The kinds of native object the three caches own. */
  predicate Cacheable(r: Resource) {
    r.MaterialRes? || r.ConvexMeshRes? || r.GeometryRes? || r.ShapeRes?
  }

  // ---------------------------------------------------------------------
  // Gathering the cooking input

  predicate AllWellFormed(meshes: seq<Mesh>) {
    forall i :: 0 <= i < |meshes| ==> MeshWellFormed(meshes[i])
  }

  /** The cooking buffer: each mesh's first 3 * vertexCount floats (x, y, z
      per vertex), mesh after mesh. */
  function Gathered(meshes: seq<Mesh>): seq<real>
    requires AllWellFormed(meshes)
  {
    if meshes == [] then []
    else
      var last := meshes[|meshes| - 1];
      Gathered(meshes[..|meshes| - 1]) + last.vertices[..3 * last.vertexCount]
  }

  function TotalVertexCount(meshes: seq<Mesh>): nat {
    if meshes == [] then 0 else TotalVertexCount(meshes[..|meshes| - 1]) + meshes[|meshes| - 1].vertexCount
  }

  function TotalTriangles(meshes: seq<Mesh>): nat {
    if meshes == [] then 0 else TotalTriangles(meshes[..|meshes| - 1]) + meshes[|meshes| - 1].triangleCount
  }

  /** The cooking buffer holds three floats per vertex of every mesh, so the
      point count handed to the cooker, its length divided by 3, is the total
      vertex count. */
  lemma {:induction false} GatheredLength(meshes: seq<Mesh>)
    requires AllWellFormed(meshes)
    ensures |Gathered(meshes)| == 3 * TotalVertexCount(meshes)
    ensures |Gathered(meshes)| / 3 == TotalVertexCount(meshes)
  {
    if meshes != [] {
      GatheredLength(meshes[..|meshes| - 1]);
    }
  }

  /** Gathering meshes one after another is gathering their concatenation. */
  lemma {:induction false} GatheredAppend(meshes: seq<Mesh>, m: Mesh)
    requires AllWellFormed(meshes) && MeshWellFormed(m)
    ensures AllWellFormed(meshes + [m])
    ensures Gathered(meshes + [m]) == Gathered(meshes) + m.vertices[..3 * m.vertexCount]
  {
    assert (meshes + [m])[..|meshes|] == meshes;
  }

  /** The push_back loops of CreateGeometry that fill `allVertices`. */
  method GatherVertices(meshes: seq<Mesh>) returns (all: seq<real>)
    requires AllWellFormed(meshes)
    ensures all == Gathered(meshes)
  {
    all := [];
    var i := 0;
    while i < |meshes|
      invariant 0 <= i <= |meshes|
      invariant all == Gathered(meshes[..i])
    {
      var m := meshes[i];
      var v := 0;
      while v < m.vertexCount * 3
        invariant 0 <= v <= m.vertexCount * 3
        invariant all == Gathered(meshes[..i]) + m.vertices[..v]
      {
        all := all + [m.vertices[v]];
        v := v + 1;
      }
      assert meshes[..i + 1] == meshes[..i] + [m];
      GatheredAppend(meshes[..i], m);
      i := i + 1;
    }
    assert meshes[..i] == meshes;
  }

  /** The loop of RayForce/src's CreateGeometry that sums vertex and triangle
      counts before reserving the buffer. */
  method CountTotals(meshes: seq<Mesh>) returns (vertices: nat, polygons: nat)
    ensures vertices == TotalVertexCount(meshes) && polygons == TotalTriangles(meshes)
  {
    vertices, polygons := 0, 0;
    var i := 0;
    while i < |meshes|
      invariant 0 <= i <= |meshes|
      invariant vertices == TotalVertexCount(meshes[..i]) && polygons == TotalTriangles(meshes[..i])
    {
      assert meshes[..i + 1][..i] == meshes[..i];
      vertices := vertices + meshes[i].vertexCount;
      polygons := polygons + meshes[i].triangleCount;
      i := i + 1;
    }
    assert meshes[..i] == meshes;
  }

  // ---------------------------------------------------------------------
  // Geometry teardown

  /** Whether DeleteGeometry releases an inner cooked mesh for `g`. */
  predicate HasInner(g: Geometry) {
    g.kind != Primitive && g.mesh.Some?
  }

  /** The releases DeleteGeometry performs: the inner cooked mesh first, then
      the heap-allocated wrapper. */
  function Teardown(g: Geometry): seq<Event> {
    (if HasInner(g) then [Released(g.mesh.value)] else []) + [Released(g.wrapper)]
  }

  function Handles(g: Geometry): set<Handle> {
    (if HasInner(g) then {g.mesh.value} else {}) + {g.wrapper}
  }

  /** What DeleteGeometry demands of a non-null geometry: RayForce/src checks
      the inner mesh pointer, RayForce/RayForce/src dereferences it unchecked
      for triangle and convex meshes. */
  predicate SafeToDelete(tree: SourceTree, g: Geometry) {
    tree == Nested && g.kind != Primitive ==> g.mesh.Some?
  }

  /** The tail of RayForce/RayForce/src's CreateGeometry: whatever
      createConvexMesh returned, null included, is wrapped and stored. */
  function NestedStoredGeometry(convexMesh: Option<Handle>, wrapper: Handle): Option<Geometry> {
    Some(Geometry(wrapper, ConvexMesh, convexMesh))
  }

  /** The tail with RayForce/src's null check: a null convex mesh stores
      nothing. */
  function CheckedStoredGeometry(convexMesh: Option<Handle>, wrapper: Handle): Option<Geometry> {
    if convexMesh.None? then None else Some(Geometry(wrapper, ConvexMesh, convexMesh))
  }

  /** When createConvexMesh fails, the nested tree caches a geometry that its
      own DeleteGeometry (called by UnloadGeometry and the destructor) would
      dereference through a null pointer. */
  lemma NestedStoresUndeletable(wrapper: Handle)
    ensures NestedStoredGeometry(None, wrapper).Some?
    ensures !SafeToDelete(Nested, NestedStoredGeometry(None, wrapper).value)
  {
  }

  /** With the null check, whatever is stored can be deleted by either tree,
      and a geometry is stored exactly when the convex mesh exists. */
  lemma CheckedStoresDeletable(convexMesh: Option<Handle>, wrapper: Handle, tree: SourceTree)
    ensures CheckedStoredGeometry(convexMesh, wrapper).Some? <==> convexMesh.Some?
    ensures CheckedStoredGeometry(convexMesh, wrapper).Some? ==> SafeToDelete(tree, CheckedStoredGeometry(convexMesh, wrapper).value)
  {
  }

  /** The three caches' contents. */
  datatype Caches = Caches(materials: map<MaterialId, Handle>, geometries: map<ModelId, Geometry>, shapes: map<Geometry, Handle>)

  /** A cached geometry: a live convex-mesh wrapper around a live convex mesh,
      both cooked for model `id`. */
  ghost predicate StoredGeometry(live: set<Handle>, kind: map<Handle, Resource>, id: ModelId, g: Geometry) {
    && g.kind == ConvexMesh && g.mesh.Some? && g.mesh.value != g.wrapper
    && g.wrapper in live && g.wrapper in kind && kind[g.wrapper] == GeometryRes(id)
    && g.mesh.value in live && g.mesh.value in kind && kind[g.mesh.value] == ConvexMeshRes(id)
  }

  /** A live native object of a cached kind is the one its cache holds. */
  ghost predicate Accounted(r: Resource, h: Handle, c: Caches) {
    match r
    case MaterialRes(id, _) => id in c.materials && c.materials[id] == h
    case GeometryRes(id) => id in c.geometries && c.geometries[id].wrapper == h
    case ConvexMeshRes(id) => id in c.geometries && c.geometries[id].mesh == Some(h)
    case ShapeRes(g, _) => g in c.shapes && c.shapes[g] == h
    case _ => true
  }

  /** The caches agree with the native objects alive: every cached object is
      alive and of its key's kind, and every live object of a cached kind is
      the one cached under its key. */
  ghost predicate CacheInv(live: set<Handle>, kind: map<Handle, Resource>, properties: MaterialId -> MaterialProps, c: Caches) {
    && (forall id | id in c.materials ::
          c.materials[id] in live && c.materials[id] in kind && kind[c.materials[id]] == MaterialRes(id, properties(id)))
    && (forall id | id in c.geometries :: StoredGeometry(live, kind, id, c.geometries[id]))
    && (forall g | g in c.shapes ::
          c.shapes[g] in live && c.shapes[g] in kind && kind[c.shapes[g]].ShapeRes? && kind[c.shapes[g]].geometry == g)
    && (forall h | h in live :: h in kind && Accounted(kind[h], h, c))
  }

  /** In a consistent state at most one live object exists per cache key. */
  lemma OneLivePerKey(live: set<Handle>, kind: map<Handle, Resource>, properties: MaterialId -> MaterialProps, c: Caches, h1: Handle, h2: Handle)
    requires CacheInv(live, kind, properties, c) && h1 in live && h2 in live
    ensures kind[h1].MaterialRes? && kind[h2].MaterialRes? && kind[h1].id == kind[h2].id ==> h1 == h2
    ensures kind[h1].GeometryRes? && kind[h2].GeometryRes? && kind[h1].model == kind[h2].model ==> h1 == h2
    ensures kind[h1].ConvexMeshRes? && kind[h2].ConvexMeshRes? && kind[h1].model == kind[h2].model ==> h1 == h2
    ensures kind[h1].ShapeRes? && kind[h2].ShapeRes? && kind[h1].geometry == kind[h2].geometry ==> h1 == h2
  {
    assert Accounted(kind[h1], h1, c) && Accounted(kind[h2], h2, c);
  }

  /** Creating an object of a kind no cache holds keeps the caches consistent. */
  lemma ForeignCreate(live: set<Handle>, kind: map<Handle, Resource>, properties: MaterialId -> MaterialProps, c: Caches, h: Handle, r: Resource, live': set<Handle>, kind': map<Handle, Resource>)
    requires CacheInv(live, kind, properties, c) && h !in kind && !Cacheable(r)
    requires live' == live + {h} && kind' == kind[h := r]
    ensures CacheInv(live', kind', properties, c)
  {
  }

  /** Releasing an object of a kind no cache holds keeps the caches consistent. */
  lemma ForeignRelease(live: set<Handle>, kind: map<Handle, Resource>, properties: MaterialId -> MaterialProps, c: Caches, h: Handle, live': set<Handle>)
    requires CacheInv(live, kind, properties, c) && h in kind && !Cacheable(kind[h])
    requires live' == live - {h}
    ensures CacheInv(live', kind, properties, c)
  {
  }

  lemma AddMaterial(live: set<Handle>, kind: map<Handle, Resource>, properties: MaterialId -> MaterialProps, c: Caches, id: MaterialId, h: Handle, live': set<Handle>, kind': map<Handle, Resource>, c': Caches)
    requires CacheInv(live, kind, properties, c) && h !in kind && id !in c.materials
    requires live' == live + {h} && kind' == kind[h := MaterialRes(id, properties(id))]
    requires c' == c.(materials := c.materials[id := h])
    ensures CacheInv(live', kind', properties, c')
  {
    forall h' | h' in live'
      ensures h' in kind' && Accounted(kind'[h'], h', c')
    {
      if h' != h {
        assert Accounted(kind[h'], h', c);
      }
    }
  }

  lemma RemoveMaterial(live: set<Handle>, kind: map<Handle, Resource>, properties: MaterialId -> MaterialProps, c: Caches, id: MaterialId, live': set<Handle>, c': Caches)
    requires CacheInv(live, kind, properties, c) && id in c.materials
    requires live' == live - {c.materials[id]} && c' == c.(materials := c.materials - {id})
    ensures CacheInv(live', kind, properties, c')
  {
    forall h' | h' in live'
      ensures h' in kind && Accounted(kind[h'], h', c')
    {
      assert Accounted(kind[h'], h', c);
    }
  }

  lemma AddGeometry(live: set<Handle>, kind: map<Handle, Resource>, properties: MaterialId -> MaterialProps, c: Caches, id: ModelId, mesh: Handle, wrapper: Handle,
                    live': set<Handle>, kind': map<Handle, Resource>, c': Caches)
    requires CacheInv(live, kind, properties, c) && mesh !in kind && wrapper !in kind && mesh != wrapper && id !in c.geometries
    requires live' == live + {mesh} + {wrapper} && kind' == kind[mesh := ConvexMeshRes(id)][wrapper := GeometryRes(id)]
    requires c' == c.(geometries := c.geometries[id := Geometry(wrapper, ConvexMesh, Some(mesh))])
    ensures CacheInv(live', kind', properties, c')
  {
    forall h' | h' in live'
      ensures h' in kind' && Accounted(kind'[h'], h', c')
    {
      if h' != mesh && h' != wrapper {
        assert Accounted(kind[h'], h', c);
      }
    }
  }

  lemma RemoveGeometry(live: set<Handle>, kind: map<Handle, Resource>, properties: MaterialId -> MaterialProps, c: Caches, id: ModelId, live': set<Handle>, c': Caches)
    requires CacheInv(live, kind, properties, c) && id in c.geometries
    requires live' == live - Handles(c.geometries[id]) && c' == c.(geometries := c.geometries - {id})
    ensures CacheInv(live', kind, properties, c')
  {
    var g := c.geometries[id];
    assert forall h | h in Handles(g) :: kind[h] == GeometryRes(id) || kind[h] == ConvexMeshRes(id);
    forall h' | h' in live'
      ensures h' in kind && Accounted(kind[h'], h', c')
    {
      assert Accounted(kind[h'], h', c);
    }
  }

  lemma AddShape(live: set<Handle>, kind: map<Handle, Resource>, properties: MaterialId -> MaterialProps, c: Caches, g: Geometry, material: Handle, h: Handle,
                 live': set<Handle>, kind': map<Handle, Resource>, c': Caches)
    requires CacheInv(live, kind, properties, c) && h !in kind && g !in c.shapes
    requires live' == live + {h} && kind' == kind[h := ShapeRes(g, material)] && c' == c.(shapes := c.shapes[g := h])
    ensures CacheInv(live', kind', properties, c')
  {
    forall h' | h' in live'
      ensures h' in kind' && Accounted(kind'[h'], h', c')
    {
      if h' != h {
        assert Accounted(kind[h'], h', c);
      }
    }
  }

  lemma RemoveShape(live: set<Handle>, kind: map<Handle, Resource>, properties: MaterialId -> MaterialProps, c: Caches, g: Geometry, live': set<Handle>, c': Caches)
    requires CacheInv(live, kind, properties, c) && g in c.shapes
    requires live' == live - {c.shapes[g]} && c' == c.(shapes := c.shapes - {g})
    ensures CacheInv(live', kind, properties, c')
  {
    forall h' | h' in live'
      ensures h' in kind && Accounted(kind[h'], h', c')
    {
      assert Accounted(kind[h'], h', c);
    }
  }

  class PhysicsManager {
    const tree: SourceTree
    const sdk: Sdk
    /** The material list: (static friction, dynamic friction, restitution)
        per material id. */
    const properties: MaterialId -> MaterialProps

    var materials: map<MaterialId, Handle>
    var geometries: map<ModelId, Geometry>
    var shapes: map<Geometry, Handle>
    ghost var warnings: seq<Warning>

    ghost function Cached(): Caches
      reads this
    {
      Caches(materials, geometries, shapes)
    }

    ghost predicate Valid()
      reads this, sdk
    {
      sdk.Valid() && CacheInv(sdk.live, sdk.kind, properties, Cached())
    }

    constructor (tree: SourceTree, sdk: Sdk, properties: MaterialId -> MaterialProps)
      requires sdk.Valid()
      requires forall h | h in sdk.live :: h in sdk.kind && !Cacheable(sdk.kind[h])
      ensures Valid() && materials == map[] && geometries == map[] && shapes == map[] && warnings == []
      ensures this.tree == tree && this.sdk == sdk && this.properties == properties
    {
      this.tree := tree;
      this.sdk := sdk;
      this.properties := properties;
      materials := map[];
      geometries := map[];
      shapes := map[];
      warnings := [];
    }

    /** Read-through: a cached id returns its material and creates nothing; a
        miss creates exactly one material from the id's property triple and
        stores it. */
    method GetMaterial(id: MaterialId) returns (h: Handle)
      requires Valid()
      modifies this, sdk
      ensures Valid()
      ensures id in materials && h == materials[id]
      ensures geometries == old(geometries) && shapes == old(shapes) && warnings == old(warnings)
      ensures Grows(old(sdk.live), old(sdk.kind), sdk.live, sdk.kind)
      ensures id in old(materials) ==> h == old(materials[id]) && materials == old(materials) && sdk.log == old(sdk.log)
      ensures id !in old(materials) ==>
                && materials == old(materials)[id := h]
                && sdk.log == old(sdk.log) + [Created(h, MaterialRes(id, properties(id)))]
    {
      if id in materials {
        return materials[id];
      }
      h := sdk.Create(MaterialRes(id, properties(id)));
      materials := materials[id := h];
      AddMaterial(old(sdk.live), old(sdk.kind), properties, old(Cached()), id, h, sdk.live, sdk.kind, Cached());
    }

    /** Releases and erases exactly `id`. An absent id changes nothing;
        RayForce/src also warns. */
    method UnloadMaterial(id: MaterialId)
      requires Valid()
      modifies this, sdk
      ensures Valid()
      ensures materials == old(materials) - {id}
      ensures geometries == old(geometries) && shapes == old(shapes) && sdk.kind == old(sdk.kind)
      ensures id in old(materials) ==>
                && sdk.log == old(sdk.log) + [Released(old(materials[id]))] && warnings == old(warnings)
                && sdk.live == old(sdk.live) - {old(materials[id])}
      ensures id !in old(materials) ==>
                && sdk.log == old(sdk.log) && sdk.live == old(sdk.live)
                && warnings == old(warnings) + if tree == Top then [MaterialNotLoaded(id)] else []
    {
      if id !in materials {
        if tree == Top {
          warnings := warnings + [MaterialNotLoaded(id)];
        }
        return;
      }
      sdk.Release(materials[id]);
      materials := materials - {id};
      RemoveMaterial(old(sdk.live), sdk.kind, properties, old(Cached()), id, sdk.live, Cached());
    }

    /** The live inner mesh and wrapper of a geometry about to be deleted. */
    ghost predicate Deletable(g: Geometry)
      reads sdk
    {
      && g.wrapper in sdk.live
      && (HasInner(g) ==> g.mesh.value in sdk.live && g.mesh.value != g.wrapper)
    }

    /** A null geometry only warns. Otherwise the inner triangle or convex mesh
        is released (RayForce/src only when that pointer is non-null) and then
        the wrapper; the caches are not touched. */
    method DeleteGeometry(geo: Option<Geometry>)
      requires sdk.Valid()
      requires geo.Some? ==> Deletable(geo.value) && SafeToDelete(tree, geo.value)
      modifies this`warnings, sdk
      ensures sdk.Valid() && sdk.kind == old(sdk.kind)
      ensures geo.None? ==> sdk.log == old(sdk.log) && sdk.live == old(sdk.live) && warnings == old(warnings) + [NullGeometry]
      ensures geo.Some? ==>
                && sdk.log == old(sdk.log) + Teardown(geo.value)
                && sdk.live == old(sdk.live) - Handles(geo.value)
                && warnings == old(warnings)
    {
      if geo.None? {
        warnings := warnings + [NullGeometry];
        return;
      }
      var g := geo.value;
      if g.kind == TriangleMesh || g.kind == ConvexMesh {
        if g.mesh.Some? {
          sdk.Release(g.mesh.value);
        }
      }
      sdk.Release(g.wrapper);
    }

    /** Read-through on the model id. A miss fetches the model from the model
        cache; no meshes gives null, otherwise the gathered vertices are
        cooked, and only a successful cook whose convex mesh is created
        stores a new geometry. `cooked` and `created` are the outcomes of
        cookConvexMesh and createConvexMesh. */
    method CreateGeometry(mm: Models.ModelManager, modelId: ModelId, cooked: bool, created: bool) returns (r: Option<Geometry>)
      requires Valid() && mm.Valid()
      modifies this, sdk, mm
      ensures Valid() && mm.Valid()
      ensures materials == old(materials) && shapes == old(shapes) && warnings == old(warnings)
      ensures modelId in old(geometries) ==>
                && r == Some(old(geometries[modelId]))
                && geometries == old(geometries) && sdk.log == old(sdk.log) && mm.models == old(mm.models)
      ensures modelId !in old(geometries) ==> modelId in mm.models && AllWellFormed(mm.models[modelId].model.meshes)
      ensures modelId !in old(geometries) ==> mm.models == old(mm.models)[modelId := mm.models[modelId]]
      ensures modelId !in old(geometries) && modelId in old(mm.models) ==> mm.models == old(mm.models)
      ensures modelId !in old(geometries) && mm.models[modelId].model.meshes == [] ==>
                r == None && geometries == old(geometries) && sdk.log == old(sdk.log)
      ensures modelId !in old(geometries) && mm.models[modelId].model.meshes != [] ==>
                var meshes := mm.models[modelId].model.meshes;
                var cook := Cooked(modelId, Gathered(meshes), TotalVertexCount(meshes));
                && (r.Some? <==> cooked && created)
                && (r.None? ==> geometries == old(geometries) && sdk.log == old(sdk.log) + [cook])
                && (r.Some? ==>
                      && r.value.kind == ConvexMesh && r.value.mesh.Some?
                      && geometries == old(geometries)[modelId := r.value]
                      && sdk.log == old(sdk.log) + [cook, Created(r.value.mesh.value, ConvexMeshRes(modelId)),
                                                    Created(r.value.wrapper, GeometryRes(modelId))])
    {
      if modelId in geometries {
        return Some(geometries[modelId]);
      }
      var model := mm.GetModel(modelId);
      var meshes := model.model.meshes;
      assert AllWellFormed(meshes);
      if |meshes| == 0 {
        return None;
      }
      r := CookGeometry(modelId, meshes, cooked, created);
    }

    /** The cooking half of CreateGeometry for a model with meshes: the
        gathered vertices are cooked, and a geometry is stored only when both
        the cook and the creation of the convex mesh succeed. */
    method CookGeometry(modelId: ModelId, meshes: seq<Mesh>, cooked: bool, created: bool) returns (r: Option<Geometry>)
      requires Valid() && modelId !in geometries && AllWellFormed(meshes)
      modifies this, sdk
      ensures Valid()
      ensures materials == old(materials) && shapes == old(shapes) && warnings == old(warnings)
      ensures var cook := Cooked(modelId, Gathered(meshes), TotalVertexCount(meshes));
              && (r.Some? <==> cooked && created)
              && (r.None? ==> geometries == old(geometries) && sdk.log == old(sdk.log) + [cook])
              && (r.Some? ==>
                    && r.value.kind == ConvexMesh && r.value.mesh.Some?
                    && geometries == old(geometries)[modelId := r.value]
                    && sdk.log == old(sdk.log) + [cook, Created(r.value.mesh.value, ConvexMeshRes(modelId)),
                                                  Created(r.value.wrapper, GeometryRes(modelId))])
    {
      var points := GatherVertices(meshes);
      GatheredLength(meshes);
      if tree == Top {
        var vertexTotal, polygons := CountTotals(meshes);
        assert |points| == 3 * vertexTotal;
      }
      sdk.Cook(modelId, points, |points| / 3);
      if !cooked || !created {
        return None;
      }
      var g := StoreGeometry(modelId);
      r := Some(g);
    }

    /** The end of a successful CreateGeometry: the convex mesh, then the
        wrapper around it, are created and cached under `modelId`. */
    method StoreGeometry(modelId: ModelId) returns (g: Geometry)
      requires Valid() && modelId !in geometries
      modifies this, sdk
      ensures Valid()
      ensures materials == old(materials) && shapes == old(shapes) && warnings == old(warnings)
      ensures g.kind == ConvexMesh && g.mesh.Some?
      ensures geometries == old(geometries)[modelId := g]
      ensures sdk.log == old(sdk.log) + [Created(g.mesh.value, ConvexMeshRes(modelId)), Created(g.wrapper, GeometryRes(modelId))]
    {
      var convexMesh := sdk.Create(ConvexMeshRes(modelId));
      var wrapper := sdk.Create(GeometryRes(modelId));
      g := Geometry(wrapper, ConvexMesh, Some(convexMesh));
      geometries := geometries[modelId := g];
      AddGeometry(old(sdk.live), old(sdk.kind), properties, old(Cached()), modelId, convexMesh, wrapper, sdk.live, sdk.kind, Cached());
    }

    /** Deletes and erases exactly the geometry cached for `modelId`; an
        absent id changes nothing, and RayForce/src warns. Shapes built on
        the geometry stay cached. */
    method UnloadGeometry(modelId: ModelId)
      requires Valid()
      modifies this, sdk
      ensures Valid()
      ensures geometries == old(geometries) - {modelId}
      ensures materials == old(materials) && shapes == old(shapes) && sdk.kind == old(sdk.kind)
      ensures modelId in old(geometries) ==>
                && sdk.log == old(sdk.log) + Teardown(old(geometries[modelId]))
                && sdk.live == old(sdk.live) - Handles(old(geometries[modelId]))
                && warnings == old(warnings)
      ensures modelId !in old(geometries) ==>
                && sdk.log == old(sdk.log)
                && warnings == old(warnings) + if tree == Top then [GeometryNotLoaded(modelId)] else []
    {
      if modelId !in geometries {
        if tree == Top {
          warnings := warnings + [GeometryNotLoaded(modelId)];
        }
        return;
      }
      assert StoredGeometry(sdk.live, sdk.kind, modelId, geometries[modelId]);
      DeleteGeometry(Some(geometries[modelId]));
      geometries := geometries - {modelId};
      RemoveGeometry(old(sdk.live), sdk.kind, properties, old(Cached()), modelId, sdk.live, Cached());
    }

    /** A null argument returns null and changes nothing (RayForce/RayForce/src
        warns). A geometry already in the cache returns its shape, whatever
        material is passed; otherwise one exclusive shape is created and
        cached under the geometry. */
    method CreateShape(geometry: Option<Geometry>, material: Option<Handle>) returns (r: Option<Handle>)
      requires Valid()
      modifies this, sdk
      ensures Valid()
      ensures materials == old(materials) && geometries == old(geometries)
      ensures Grows(old(sdk.live), old(sdk.kind), sdk.live, sdk.kind)
      ensures geometry.None? || material.None? ==>
                && r == None && shapes == old(shapes) && sdk.log == old(sdk.log)
                && warnings == old(warnings) + if tree == Nested then [NullShapeArgument] else []
      ensures geometry.Some? && material.Some? ==> warnings == old(warnings) && geometry.value in shapes && r == Some(shapes[geometry.value])
      ensures geometry.Some? && material.Some? && geometry.value in old(shapes) ==>
                shapes == old(shapes) && sdk.log == old(sdk.log)
      ensures geometry.Some? && material.Some? && geometry.value !in old(shapes) ==>
                && shapes == old(shapes)[geometry.value := r.value]
                && r.value !in old(sdk.kind) && sdk.kind == old(sdk.kind)[r.value := ShapeRes(geometry.value, material.value)]
                && sdk.log == old(sdk.log) + [Created(r.value, ShapeRes(geometry.value, material.value))]
    {
      if geometry.None? || material.None? {
        if tree == Nested {
          warnings := warnings + [NullShapeArgument];
        }
        return None;
      }
      if geometry.value in shapes {
        return Some(shapes[geometry.value]);
      }
      var shape := sdk.Create(ShapeRes(geometry.value, material.value));
      shapes := shapes[geometry.value := shape];
      AddShape(old(sdk.live), old(sdk.kind), properties, old(Cached()), geometry.value, material.value, shape, sdk.live, sdk.kind, Cached());
      r := Some(shape);
    }

    /** Releases and erases exactly the shape cached for `geometry`; an
        absent key changes nothing, and RayForce/src warns. */
    method UnloadShape(geometry: Geometry)
      requires Valid()
      modifies this, sdk
      ensures Valid()
      ensures shapes == old(shapes) - {geometry}
      ensures materials == old(materials) && geometries == old(geometries) && sdk.kind == old(sdk.kind)
      ensures geometry in old(shapes) ==>
                && sdk.log == old(sdk.log) + [Released(old(shapes[geometry]))] && warnings == old(warnings)
                && sdk.live == old(sdk.live) - {old(shapes[geometry])}
      ensures geometry !in old(shapes) ==>
                && sdk.log == old(sdk.log) && sdk.live == old(sdk.live)
                && warnings == old(warnings) + if tree == Top then [ShapeNotLoaded(geometry)] else []
    {
      if geometry !in shapes {
        if tree == Top {
          warnings := warnings + [ShapeNotLoaded(geometry)];
        }
        return;
      }
      sdk.Release(shapes[geometry]);
      shapes := shapes - {geometry};
      RemoveShape(old(sdk.live), sdk.kind, properties, old(Cached()), geometry, sdk.live, Cached());
    }

    /** createScene with the manager's scene description: a new world owned
        by `owner`. */
    method CreateScene(owner: object) returns (world: Handle)
      requires Valid()
      modifies sdk
      ensures Valid()
      ensures sdk.log == old(sdk.log) + [Created(world, WorldRes(owner))]
      ensures world !in old(sdk.kind) && sdk.kind == old(sdk.kind)[world := WorldRes(owner)]
      ensures sdk.live == old(sdk.live) + {world}
    {
      world := sdk.Create(WorldRes(owner));
      ForeignCreate(old(sdk.live), old(sdk.kind), properties, Cached(), world, WorldRes(owner), sdk.live, sdk.kind);
    }

    /** The destructor's sweep: every cached material, geometry (inner mesh
        and wrapper) and shape is released, nothing else is, and the three
        maps end empty. */
    method Destroy()
      requires Valid()
      modifies this, sdk
      ensures Valid()
      ensures materials == map[] && geometries == map[] && shapes == map[] && warnings == old(warnings)
      ensures sdk.kind == old(sdk.kind) && sdk.live <= old(sdk.live)
      ensures forall h | h in sdk.live :: !Cacheable(sdk.kind[h])
      ensures forall h | h in old(sdk.live) && !Cacheable(sdk.kind[h]) :: h in sdk.live
    {
      ReleaseMaterials();
      DeleteGeometries();
      ReleaseShapes();
      forall h | h in sdk.live
        ensures !Cacheable(sdk.kind[h])
      {
        assert Accounted(sdk.kind[h], h, Cached());
      }
    }

    /** The destructor's first loop: every cached material is released. */
    method ReleaseMaterials()
      requires Valid()
      modifies this, sdk
      ensures Valid() && materials == map[] && geometries == old(geometries) && shapes == old(shapes) && warnings == old(warnings)
      ensures sdk.kind == old(sdk.kind) && sdk.live <= old(sdk.live)
      ensures forall h | h in old(sdk.live) && !sdk.kind[h].MaterialRes? :: h in sdk.live
    {
      while materials != map[]
        invariant Valid() && geometries == old(geometries) && shapes == old(shapes) && warnings == old(warnings)
        invariant sdk.kind == old(sdk.kind) && sdk.live <= old(sdk.live)
        invariant forall h | h in old(sdk.live) && !sdk.kind[h].MaterialRes? :: h in sdk.live
        decreases materials.Keys
      {
        var id :| id in materials;
        assert sdk.kind[materials[id]].MaterialRes?;
        UnloadMaterial(id);
      }
    }

    /** The destructor's second loop: every cached geometry is deleted, inner
        mesh and wrapper. */
    method DeleteGeometries()
      requires Valid()
      modifies this, sdk
      ensures Valid() && geometries == map[] && materials == old(materials) && shapes == old(shapes) && warnings == old(warnings)
      ensures sdk.kind == old(sdk.kind) && sdk.live <= old(sdk.live)
      ensures forall h | h in old(sdk.live) && !sdk.kind[h].GeometryRes? && !sdk.kind[h].ConvexMeshRes? :: h in sdk.live
    {
      while geometries != map[]
        invariant Valid() && materials == old(materials) && shapes == old(shapes) && warnings == old(warnings)
        invariant sdk.kind == old(sdk.kind) && sdk.live <= old(sdk.live)
        invariant forall h | h in old(sdk.live) && !sdk.kind[h].GeometryRes? && !sdk.kind[h].ConvexMeshRes? :: h in sdk.live
        decreases geometries.Keys
      {
        var id :| id in geometries;
        assert StoredGeometry(sdk.live, sdk.kind, id, geometries[id]);
        ghost var gone := Handles(geometries[id]);
        assert forall h | h in gone :: sdk.kind[h].GeometryRes? || sdk.kind[h].ConvexMeshRes?;
        UnloadGeometry(id);
      }
    }

    /** The destructor's third loop: every cached shape is released. */
    method ReleaseShapes()
      requires Valid()
      modifies this, sdk
      ensures Valid() && shapes == map[] && materials == old(materials) && geometries == old(geometries) && warnings == old(warnings)
      ensures sdk.kind == old(sdk.kind) && sdk.live <= old(sdk.live)
      ensures forall h | h in old(sdk.live) && !sdk.kind[h].ShapeRes? :: h in sdk.live
    {
      while shapes != map[]
        invariant Valid() && materials == old(materials) && geometries == old(geometries) && warnings == old(warnings)
        invariant sdk.kind == old(sdk.kind) && sdk.live <= old(sdk.live)
        invariant forall h | h in old(sdk.live) && !sdk.kind[h].ShapeRes? :: h in sdk.live
        decreases shapes.Keys
      {
        var g :| g in shapes;
        assert sdk.kind[shapes[g]].ShapeRes?;
        UnloadShape(g);
      }
    }
  }

  /** ModelManager::GetModelMaterial: the physics material of a model is
      GetMaterial of the model's material id, so models sharing a material id
      share one material. */
  method GetModelMaterial(mm: Models.ModelManager, pm: PhysicsManager, id: ModelId) returns (h: Handle)
    requires pm.Valid()
    modifies pm, pm.sdk
    ensures pm.Valid()
    ensures mm.materialOf(id) in pm.materials && h == pm.materials[mm.materialOf(id)]
    ensures mm.materialOf(id) in old(pm.materials) ==>
              h == old(pm.materials[mm.materialOf(id)]) && pm.materials == old(pm.materials) && pm.sdk.log == old(pm.sdk.log)
    ensures mm.materialOf(id) !in old(pm.materials) ==>
              && pm.materials == old(pm.materials)[mm.materialOf(id) := h]
              && pm.sdk.log == old(pm.sdk.log) + [Created(h, MaterialRes(mm.materialOf(id), pm.properties(mm.materialOf(id))))]
    ensures pm.geometries == old(pm.geometries) && pm.shapes == old(pm.shapes) && pm.warnings == old(pm.warnings)
    ensures Grows(old(pm.sdk.live), old(pm.sdk.kind), pm.sdk.live, pm.sdk.kind)
  {
    h := pm.GetMaterial(mm.materialOf(id));
  }
}
