/** The model cache (ModelManager): a read-through map from model id to a
    loaded Raylib model, with a purple cube standing in for a model that cannot
    be loaded, and every stored material forced to WHITE and the manager's
    instancing shader. Loading a file is an input (`disk`), not modelled. */
module Models {
  import opened Common

  /** What looking up and loading a model's file yields: the file is missing,
      LoadModel returned no meshes, or it returned a model. */
  datatype LoadResult = Missing | NoMeshes | Loaded(model: Model)

  datatype Warning = FileMissing(id: ModelId) | LoadFailed(id: ModelId) | ModelNotLoaded(id: ModelId)

  /** LoadModelFromMesh(cube) with its one material's diffuse colour set to
      PURPLE: the debug stand-in for a model that could not be loaded. */
  function Fallback(cube: Mesh): Model {
    Model([cube], [Material(Purple, DefaultShader, 0)], [0])
  }

  /** `m` with every material's diffuse colour WHITE and its shader `s`. */
  function Dressed(m: Model, s: Shader): Model {
    m.(materials := seq(|m.materials|, i requires 0 <= i < |m.materials| => m.materials[i].(diffuse := White, shader := s)))
  }

  /** Every material of `m` is WHITE and uses shader `s`. */
  predicate Styled(m: Model, s: Shader) {
    forall i :: 0 <= i < |m.materials| ==> m.materials[i].diffuse == White && m.materials[i].shader == s
  }

  /** Dressing keeps the meshes, the mesh-to-material table and every other
      material property, styles every material, and is idempotent. */
  lemma DressedProperties(m: Model, s: Shader)
    ensures Dressed(m, s).meshes == m.meshes && Dressed(m, s).meshMaterial == m.meshMaterial
    ensures |Dressed(m, s).materials| == |m.materials|
    ensures forall i :: 0 <= i < |m.materials| ==> Dressed(m, s).materials[i].texture == m.materials[i].texture
    ensures Styled(Dressed(m, s), s)
    ensures WellFormed(m) ==> WellFormed(Dressed(m, s))
    ensures Dressed(Dressed(m, s), s) == Dressed(m, s)
  {
  }

  /** The loop at the end of ModelManager::GetModel that overwrites each
      material's diffuse colour and shader. */
  method Dress(m: Model, s: Shader) returns (r: Model)
    ensures r == Dressed(m, s)
  {
    var materials := m.materials;
    var i := 0;
    while i < |materials|
      invariant 0 <= i <= |materials| && |materials| == |m.materials|
      invariant forall j :: 0 <= j < i ==> materials[j] == m.materials[j].(diffuse := White, shader := s)
      invariant forall j :: i <= j < |materials| ==> materials[j] == m.materials[j]
    {
      materials := materials[i := materials[i].(diffuse := White, shader := s)];
      i := i + 1;
    }
    r := m.(materials := materials);
  }

  class ModelManager {
    /** The instancing shader loaded by the constructor. */
    const shader: Shader
    /** The outcome of loading each model's file. */
    const disk: ModelId -> LoadResult
    /** GenMeshCube(1, 1, 1). */
    const cube: Mesh
    /** The model list's material column (modelMaterials). */
    const materialOf: ModelId -> MaterialId

    var models: map<ModelId, ModelRef>
    var nextSlot: nat
    ghost var warnings: seq<Warning>

    ghost predicate Valid()
      reads this
    {
      && MeshWellFormed(cube)
      && (forall id :: disk(id).Loaded? ==> WellFormed(disk(id).model))
      && (forall id | id in models :: models[id].slot < nextSlot && WellFormed(models[id].model) && Styled(models[id].model, shader))
      && (forall a, b | a in models && b in models && a != b :: models[a].slot != models[b].slot)
    }

    /** The model GetModel stores for `id` on a miss, before dressing. */
    function Source(id: ModelId): Model {
      if disk(id).Loaded? then disk(id).model else Fallback(cube)
    }

    constructor (shader: Shader, disk: ModelId -> LoadResult, cube: Mesh, materialOf: ModelId -> MaterialId)
      requires MeshWellFormed(cube)
      requires forall id :: disk(id).Loaded? ==> WellFormed(disk(id).model)
      ensures Valid() && models == map[] && warnings == []
      ensures this.shader == shader && this.disk == disk && this.cube == cube && this.materialOf == materialOf
    {
      this.shader := shader;
      this.disk := disk;
      this.cube := cube;
      this.materialOf := materialOf;
      models := map[];
      nextSlot := 0;
      warnings := [];
    }

    /** Read-through: a cached id returns its stored model and loads nothing;
        a miss loads the file (or the cube), dresses it, stores it under `id`
        at a new address and returns the stored entry. */
    method GetModel(id: ModelId) returns (r: ModelRef)
      requires Valid()
      modifies this
      ensures Valid()
      ensures id in models && r == models[id]
      ensures WellFormed(r.model) && Styled(r.model, shader)
      ensures id in old(models) ==> r == old(models[id]) && models == old(models) && warnings == old(warnings)
      ensures id !in old(models) ==>
                && models == old(models)[id := r]
                && r.model == Dressed(Source(id), shader)
                && (forall k | k in old(models) :: old(models[k]).slot != r.slot)
                && warnings == old(warnings) + match disk(id)
                                               case Missing => [FileMissing(id)]
                                               case NoMeshes => [LoadFailed(id)]
                                               case Loaded(_) => []
    {
      if id in models {
        return models[id];
      }
      var loaded: Model;
      match disk(id) {
        case Missing =>
          warnings := warnings + [FileMissing(id)];
          loaded := Fallback(cube);
        case NoMeshes =>
          warnings := warnings + [LoadFailed(id)];
          loaded := Fallback(cube);
        case Loaded(m) =>
          loaded := m;
      }
      var dressed := Dress(loaded, shader);
      DressedProperties(loaded, shader);
      models := models[id := ModelRef(nextSlot, dressed)];
      nextSlot := nextSlot + 1;
      r := models[id];
    }

    /** Erases exactly `id`; an absent id only warns. */
    method UnloadModel(id: ModelId)
      requires Valid()
      modifies this
      ensures Valid()
      ensures models == old(models) - {id}
      ensures warnings == old(warnings) + if id in old(models) then [] else [ModelNotLoaded(id)]
    {
      if id !in models {
        warnings := warnings + [ModelNotLoaded(id)];
        return;
      }
      models := models - {id};
    }

    /** The destructor: unloads every cached model and clears the map. */
    method Destroy()
      requires Valid()
      modifies this
      ensures Valid() && models == map[] && warnings == old(warnings)
    {
      var pending := models.Keys;
      while pending != {}
        invariant Valid() && pending == models.Keys && warnings == old(warnings)
        decreases pending
      {
        var id :| id in pending;
        UnloadModel(id);
        pending := pending - {id};
      }
      models := map[];
    }
  }
}
