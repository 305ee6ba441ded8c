/** Values shared by the draw storage, the ray-tracing scene and the
    resource loader: materials, object categories, meshes and matrices. */
module Types {

  datatype Option<+T> = None | Some(value: T)

  /** Material::AlphaFunc, an 8-bit enum: its values in declaration
      order.  `operator<` on the enum compares these integers. */
  newtype AlphaFunc = x: int | 0 <= x < 8

  const Solid: AlphaFunc := 0
  const AlphaTest: AlphaFunc := 1
  const Water: AlphaFunc := 2
  const Ghost: AlphaFunc := 3
  const Multiply: AlphaFunc := 4
  const Multiply2: AlphaFunc := 5
  const Transparent: AlphaFunc := 6
  const AdditiveLight: AlphaFunc := 7

  /** The integer value of an alpha function. */
  function Rank(a: AlphaFunc): (r: nat)
    ensures r < 8
    ensures a == Solid <==> r == 0
    ensures a == AlphaTest <==> r == 1
  {
    a as nat
  }

  /** Texture handles are opaque; a material may have none. */
  type TextureId = nat

  /** A material is compared by value.  Only the alpha function and the
      diffuse texture are read by the modelled code; every other field is
      folded into `rest`. */
  datatype Material = Material(alpha: AlphaFunc, tex: Option<TextureId>, rest: nat)

  /** Material(): Solid, without a texture. */
  const DefaultMaterial: Material := Material(Solid, None, 0)

  /** Meshes are opaque; their identity is their address in the source. */
  type MeshId = nat

  /** DrawStorage::Type. */
  datatype ObjType = Landscape | Static | Movable | Animated | Pfx | Morph

  /** Floating-point values are opaque here: the model copies them and
      never computes with them. */
  datatype Vec3 = Vec3(x: real, y: real, z: real)

  /** A 4x4 transform.  Row 3 holds the translation (`pos[3][0..2]`);
      the other entries are carried along unchanged. */
  datatype Matrix = Matrix(linear: seq<real>, translation: Vec3)

  const Identity: Matrix := Matrix([1.0, 0.0, 0.0, 0.0, 0.0, 1.0, 0.0, 0.0, 0.0, 0.0, 1.0, 0.0], Vec3(0.0, 0.0, 0.0))
}
