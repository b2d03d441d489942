/** The instance render buffer (RenderManager): per model, the list of
    transforms queued this frame. Flushing issues one instanced draw per
    sub-mesh of every model with a non-empty list and empties that list. Draw
    calls are recorded in a ghost log. */
module Render {
  import opened Common

  /** One DrawMeshInstanced call: sub-mesh `meshIndex` of `model`, drawn with
      the material the model assigns to it, once per transform in
      `instances`. */
  datatype Draw = Draw(model: ModelRef, meshIndex: nat, mesh: Mesh, material: Material, instances: seq<Matrix>)

  /** Every list emptied, every key kept. */
  function Cleared(buffer: map<ModelRef, seq<Matrix>>): map<ModelRef, seq<Matrix>> {
    map k | k in buffer :: []
  }

  /** The draws for one buffered model: none for an empty list, otherwise one
      per sub-mesh, in mesh order, each with the whole list. */
  function ModelDraws(k: ModelRef, instances: seq<Matrix>): seq<Draw>
    requires WellFormed(k.model)
  {
    if instances == [] then []
    else
      seq(|k.model.meshes|, i requires 0 <= i < |k.model.meshes| =>
        Draw(k, i, k.model.meshes[i], k.model.materials[k.model.meshMaterial[i]], instances))
  }

  predicate Distinct<T(==)>(s: seq<T>) {
    forall i, j :: 0 <= i < j < |s| ==> s[i] != s[j]
  }

  /** `order` lists every key of `keys` exactly once. */
  ghost predicate IsEnumeration(order: seq<ModelRef>, keys: set<ModelRef>) {
    Distinct(order) && (forall k :: k in order <==> k in keys)
  }

  predicate AllWellFormed(buffer: map<ModelRef, seq<Matrix>>) {
    forall k | k in buffer :: WellFormed(k.model)
  }

  /** The draws a flush issues when it visits the buffer's keys in `order`. */
  function FlushDraws(buffer: map<ModelRef, seq<Matrix>>, order: seq<ModelRef>): seq<Draw>
    requires AllWellFormed(buffer) && forall k | k in order :: k in buffer
  {
    if order == [] then []
    else
      var k := order[|order| - 1];
      FlushDraws(buffer, order[..|order| - 1]) + ModelDraws(k, buffer[k])
  }

  lemma FlushDrawsStep(buffer: map<ModelRef, seq<Matrix>>, order: seq<ModelRef>, k: ModelRef)
    requires AllWellFormed(buffer) && k in buffer && forall j | j in order :: j in buffer
    ensures forall j | j in order + [k] :: j in buffer
    ensures FlushDraws(buffer, order + [k]) == FlushDraws(buffer, order) + ModelDraws(k, buffer[k])
  {
    assert (order + [k])[..|order|] == order;
  }

  lemma AppendAssociates(a: seq<Draw>, b: seq<Draw>, c: seq<Draw>)
    ensures a + b + c == a + (b + c)
  {
  }

  /** Part way through a flush of `start`: the keys not yet visited are
      `remaining` and keep their lists, those visited are listed once each in
      `order` and have empty lists. */
  ghost predicate FlushProgress(start: map<ModelRef, seq<Matrix>>, now: map<ModelRef, seq<Matrix>>, remaining: set<ModelRef>, order: seq<ModelRef>) {
    && now.Keys == start.Keys && remaining <= start.Keys
    && Distinct(order)
    && (forall k :: k in order <==> k in start && k !in remaining)
    && (forall k | k in now :: now[k] == if k in remaining then start[k] else [])
  }

  lemma FlushProgressStep(start: map<ModelRef, seq<Matrix>>, now: map<ModelRef, seq<Matrix>>, remaining: set<ModelRef>, order: seq<ModelRef>, k: ModelRef)
    requires FlushProgress(start, now, remaining, order) && k in remaining
    ensures k in now && now[k] == start[k]
    ensures FlushProgress(start, now[k := []], remaining - {k}, order + [k])
  {
  }

  lemma FlushProgressDone(start: map<ModelRef, seq<Matrix>>, now: map<ModelRef, seq<Matrix>>, order: seq<ModelRef>)
    requires FlushProgress(start, now, {}, order)
    ensures IsEnumeration(order, start.Keys) && now == Cleared(start)
  {
  }

  /** How many draws of `draws` are for model `k`. */
  function DrawsOf(draws: seq<Draw>, k: ModelRef): nat {
    if draws == [] then 0
    else DrawsOf(draws[..|draws| - 1], k) + if draws[|draws| - 1].model == k then 1 else 0
  }

  lemma {:induction false} DrawsOfAppend(a: seq<Draw>, b: seq<Draw>, k: ModelRef)
    ensures DrawsOf(a + b, k) == DrawsOf(a, k) + DrawsOf(b, k)
  {
    if b != [] {
      assert (a + b)[..|a + b| - 1] == a + b[..|b| - 1];
      DrawsOfAppend(a, b[..|b| - 1], k);
    } else {
      assert a + b == a;
    }
  }

  lemma {:induction false} DrawsOfModel(k: ModelRef, instances: seq<Matrix>, k': ModelRef)
    requires WellFormed(k.model)
    ensures DrawsOf(ModelDraws(k, instances), k') == if k == k' && instances != [] then |k.model.meshes| else 0
  {
    var d := ModelDraws(k, instances);
    if d != [] {
      var n := |d| - 1;
      var prefix := seq(n, i requires 0 <= i < n => Draw(k, i, k.model.meshes[i], k.model.materials[k.model.meshMaterial[i]], instances));
      assert d[..n] == prefix;
      DrawsOfPrefix(k, instances, n, k');
    }
  }

  lemma {:induction false} DrawsOfPrefix(k: ModelRef, instances: seq<Matrix>, n: nat, k': ModelRef)
    requires WellFormed(k.model) && n <= |k.model.meshes|
    ensures DrawsOf(seq(n, i requires 0 <= i < n => Draw(k, i, k.model.meshes[i], k.model.materials[k.model.meshMaterial[i]], instances)), k')
            == if k == k' then n else 0
  {
    var s := seq(n, i requires 0 <= i < n => Draw(k, i, k.model.meshes[i], k.model.materials[k.model.meshMaterial[i]], instances));
    if n > 0 {
      var s' := seq(n - 1, i requires 0 <= i < n - 1 => Draw(k, i, k.model.meshes[i], k.model.materials[k.model.meshMaterial[i]], instances));
      assert s[..n - 1] == s';
      DrawsOfPrefix(k, instances, n - 1, k');
    }
  }

  /** A flush over an enumeration of the keys issues, for each model, exactly
      one draw per sub-mesh when its list is non-empty and none otherwise. */
  lemma {:induction false} FlushDrawsPerModel(buffer: map<ModelRef, seq<Matrix>>, order: seq<ModelRef>, k: ModelRef)
    requires AllWellFormed(buffer) && Distinct(order) && forall j | j in order :: j in buffer
    ensures DrawsOf(FlushDraws(buffer, order), k) == if k in order && buffer[k] != [] then |k.model.meshes| else 0
  {
    if order != [] {
      var n := |order| - 1;
      var prior := order[..n];
      assert forall j | j in prior :: j in order;
      FlushDrawsPerModel(buffer, prior, k);
      DrawsOfAppend(FlushDraws(buffer, prior), ModelDraws(order[n], buffer[order[n]]), k);
      DrawsOfModel(order[n], buffer[order[n]], k);
      assert k in order <==> k in prior || k == order[n];
      assert order[n] !in prior;
    }
  }

  /** Every draw of a flush is of a model whose list was non-empty, uses that
      model's sub-mesh and its assigned material, and instances the whole
      list. */
  lemma {:induction false} FlushDrawsSound(buffer: map<ModelRef, seq<Matrix>>, order: seq<ModelRef>)
    requires AllWellFormed(buffer) && forall k | k in order :: k in buffer
    ensures forall d | d in FlushDraws(buffer, order) ::
              && d.model in order && d.instances == buffer[d.model] && d.instances != []
              && d.meshIndex < |d.model.model.meshes|
              && d.mesh == d.model.model.meshes[d.meshIndex]
              && d.material == d.model.model.materials[d.model.model.meshMaterial[d.meshIndex]]
  {
    if order != [] {
      var n := |order| - 1;
      assert forall j | j in order[..n] :: j in order;
      FlushDrawsSound(buffer, order[..n]);
    }
  }

  /** After a flush or a clear every list is empty, so a flush issues no draw. */
  lemma {:induction false} FlushClearedDrawsNothing(buffer: map<ModelRef, seq<Matrix>>, order: seq<ModelRef>)
    requires AllWellFormed(buffer) && forall k | k in order :: k in buffer
    ensures AllWellFormed(Cleared(buffer))
    ensures FlushDraws(Cleared(buffer), order) == []
  {
    if order != [] {
      var n := |order| - 1;
      assert forall j | j in order[..n] :: j in order;
      FlushClearedDrawsNothing(buffer, order[..n]);
    }
  }

  /** Clearing keeps the keys, empties every list, and a second clear changes
      nothing. */
  lemma ClearedProperties(buffer: map<ModelRef, seq<Matrix>>)
    ensures Cleared(buffer).Keys == buffer.Keys
    ensures forall k | k in Cleared(buffer) :: Cleared(buffer)[k] == []
    ensures Cleared(Cleared(buffer)) == Cleared(buffer)
  {
  }

  class RenderManager {
    var buffer: map<ModelRef, seq<Matrix>>
    ghost var draws: seq<Draw>
    /** How many adds were refused for a null model (each logs an error). */
    ghost var nullModels: nat

    ghost predicate Valid()
      reads this
    {
      AllWellFormed(buffer)
    }

    constructor ()
      ensures Valid() && buffer == map[] && draws == [] && nullModels == 0
    {
      buffer := map[];
      draws := [];
      nullModels := 0;
    }

    /** AddModelToRenderBuffer: a null model is refused and changes nothing;
        otherwise `t` goes at the end of that model's list, created empty if
        needed, and no other list changes. */
    method Add(model: Option<ModelRef>, t: Matrix)
      requires Valid()
      requires model.Some? ==> WellFormed(model.value.model)
      modifies this
      ensures Valid() && draws == old(draws)
      ensures model.None? ==> buffer == old(buffer) && nullModels == old(nullModels) + 1
      ensures model.Some? ==>
                && nullModels == old(nullModels)
                && buffer.Keys == old(buffer).Keys + {model.value}
                && buffer[model.value] == (if model.value in old(buffer) then old(buffer)[model.value] else []) + [t]
                && forall k | k in old(buffer) && k != model.value :: buffer[k] == old(buffer)[k]
    {
      if model.None? {
        nullModels := nullModels + 1;
        return;
      }
      var k := model.value;
      var list := if k in buffer then buffer[k] else [];
      buffer := buffer[k := list + [t]];
    }

    /** ClearRenderBuffer: every list is emptied and every key kept. */
    method Clear()
      requires Valid()
      modifies this
      ensures Valid() && draws == old(draws) && nullModels == old(nullModels)
      ensures buffer == Cleared(old(buffer))
    {
      var remaining := buffer.Keys;
      while remaining != {}
        invariant remaining <= buffer.Keys && buffer.Keys == old(buffer).Keys
        invariant forall k | k in buffer :: buffer[k] == if k in remaining then old(buffer)[k] else []
        invariant Valid() && draws == old(draws) && nullModels == old(nullModels)
        decreases remaining
      {
        var k :| k in remaining;
        if buffer[k] != [] {
          buffer := buffer[k := []];
        }
        remaining := remaining - {k};
      }
    }

    /** RenderBuffer: visits the models in the map's iteration order `order`
        and for each non-empty list issues one instanced draw per sub-mesh,
        then empties the list. */
    method Flush() returns (ghost order: seq<ModelRef>)
      requires Valid()
      modifies this
      ensures Valid() && nullModels == old(nullModels)
      ensures IsEnumeration(order, old(buffer).Keys)
      ensures buffer == Cleared(old(buffer))
      ensures draws == old(draws) + FlushDraws(old(buffer), order)
    {
      order := [];
      var remaining := buffer.Keys;
      while remaining != {}
        invariant FlushProgress(old(buffer), buffer, remaining, order)
        invariant Valid() && nullModels == old(nullModels)
        invariant draws == old(draws) + FlushDraws(old(buffer), order)
        decreases remaining
      {
        var k :| k in remaining;
        ghost var flushed := FlushDraws(old(buffer), order);
        ghost var step := ModelDraws(k, old(buffer)[k]);
        ghost var before := buffer;
        FlushDrawsStep(old(buffer), order, k);
        FlushModel(k);
        FlushProgressStep(old(buffer), before, remaining, order, k);
        order := order + [k];
        AppendAssociates(old(draws), flushed, step);
        remaining := remaining - {k};
      }
      FlushProgressDone(old(buffer), buffer, order);
    }

    /** One iteration of RenderBuffer: a model with a non-empty list is drawn
        and its list emptied; an empty list is skipped. */
    method FlushModel(k: ModelRef)
      requires Valid() && k in buffer
      modifies this
      ensures Valid() && nullModels == old(nullModels)
      ensures buffer == old(buffer)[k := []]
      ensures draws == old(draws) + ModelDraws(k, old(buffer)[k])
    {
      var matrices := buffer[k];
      if matrices != [] {
        DrawModel(k, matrices);
        buffer := buffer[k := []];
      } else {
        assert draws == draws + ModelDraws(k, matrices);
      }
    }

    /** The inner loop of RenderBuffer for one model with a non-empty list. */
    method DrawModel(k: ModelRef, matrices: seq<Matrix>)
      requires WellFormed(k.model) && matrices != []
      modifies this`draws
      ensures draws == old(draws) + ModelDraws(k, matrices)
    {
      var i := 0;
      while i < |k.model.meshes|
        invariant 0 <= i <= |k.model.meshes|
        invariant draws == old(draws) + ModelDraws(k, matrices)[..i]
      {
        var materialIndex := k.model.meshMaterial[i];
        draws := draws + [Draw(k, i, k.model.meshes[i], k.model.materials[materialIndex], matrices)];
        i := i + 1;
      }
      assert ModelDraws(k, matrices)[..i] == ModelDraws(k, matrices);
    }

    /** The destructor: every list is cleared, then the map itself. */
    method Destroy()
      requires Valid()
      modifies this
      ensures Valid() && buffer == map[] && draws == old(draws)
    {
      Clear();
      buffer := map[];
    }
  }
}
