/** Values shared by the managers, the entities and the scenes: PhysX and Raylib
    plain-data structs, asset identifiers and the Raylib model description. */
module Common {

  datatype Option<+T> = None | Some(value: T)

  /** The repository ships the engine twice: `Top` is RayForce/src and
      `Nested` is RayForce/RayForce/src. Where the two differ, operations
      take the tree as a parameter. */
  datatype SourceTree = Top | Nested

  /** A 32-bit float as the engine sees it: a finite value or one of IEEE 754's
      special values. Only copies and comparisons with constants are modelled. */
  datatype Float = Num(r: real) | PosInf | NegInf | NaN {

    predicate IsFinite() { Num? }

    /** `this <= c` as IEEE 754 evaluates it: false whenever NaN is involved. */
    predicate AtMost(c: real) {
      match this
      case Num(r) => r <= c
      case NegInf => true
      case _ => false
    }

    /** `this > c`, false for NaN. */
    predicate Exceeds(c: real) {
      match this
      case Num(r) => r > c
      case PosInf => true
      case _ => false
    }

    /** `this < c`, false for NaN. */
    predicate Under(c: real) {
      match this
      case Num(r) => r < c
      case NegInf => true
      case _ => false
    }
  }

  const Zero: Float := Num(0.0)
  const One: Float := Num(1.0)

  /** Raylib's Vector3 and PhysX's PxVec3. */
  datatype Vec3 = Vec3(x: Float, y: Float, z: Float)

  const Origin: Vec3 := Vec3(Zero, Zero, Zero)

  /** Raylib's Quaternion and PhysX's PxQuat, components in (x, y, z, w) order. */
  datatype Quat = Quat(x: Float, y: Float, z: Float, w: Float)

  const IdentityQuat: Quat := Quat(Zero, Zero, Zero, One)

  /** PhysX's PxTransform: a position `p` and an orientation `q`. */
  datatype Pose = Pose(p: Vec3, q: Quat)

  /** PhysX's PxVec4 and the column-major PxMat44. */
  datatype Vec4 = Vec4(x: Float, y: Float, z: Float, w: Float)
  datatype Mat44 = Mat44(column0: Vec4, column1: Vec4, column2: Vec4, column3: Vec4)

  /** Raylib's Matrix: sixteen named floats, m0..m3 being the first column. */
  datatype Matrix = Matrix(
    m0: Float, m1: Float, m2: Float, m3: Float,
    m4: Float, m5: Float, m6: Float, m7: Float,
    m8: Float, m9: Float, m10: Float, m11: Float,
    m12: Float, m13: Float, m14: Float, m15: Float)

  /** Native objects (materials, meshes, geometry wrappers, shapes, bodies,
      worlds) are opaque handles. */
  type Handle = nat

  /** The enumerators of MaterialID and ModelID; their lists are build inputs. */
  type MaterialId = nat
  type ModelId = nat

  datatype Color = Color(r: nat, g: nat, b: nat, a: nat)

  const White: Color := Color(255, 255, 255, 255)
  const Purple: Color := Color(200, 122, 255, 255)

  datatype Shader = Shader(id: nat)

  /** The shader Raylib gives a default material. */
  const DefaultShader: Shader := Shader(0)

  /** A Raylib mesh: `vertices` holds x, y, z per vertex. */
  datatype Mesh = Mesh(vertexCount: nat, triangleCount: nat, vertices: seq<real>)

  /** A Raylib material: its diffuse colour, its shader and, standing for the
      rest of its maps, a texture id. */
  datatype Material = Material(diffuse: Color, shader: Shader, texture: nat)

  /** A Raylib model; `meshCount` is `|meshes|` and mesh `i` is drawn with
      material `meshMaterial[i]`. */
  datatype Model = Model(meshes: seq<Mesh>, materials: seq<Material>, meshMaterial: seq<nat>)

  predicate MeshWellFormed(m: Mesh) {
    |m.vertices| >= 3 * m.vertexCount
  }

  /** What Raylib guarantees of a loaded model. */
  predicate WellFormed(m: Model) {
    && |m.meshMaterial| == |m.meshes|
    && (forall i :: 0 <= i < |m.meshes| ==> MeshWellFormed(m.meshes[i]))
    && (forall i :: 0 <= i < |m.meshMaterial| ==> m.meshMaterial[i] < |m.materials|)
  }

  /** A `Model*`: the address of a model stored in the model cache (`slot`
      stands for the address) together with the model it points to. */
  datatype ModelRef = ModelRef(slot: nat, model: Model)
}
