/** The read-only scene description of src/scene.rs. */
module Scenes {
  import opened Vectors
  import opened Colors
  import opened Geometry

  /** A light infinitely far away; `direction` is the way the light travels. */
  datatype DirectionalLight = DirectionalLight(direction: Vec3, color: Color, intensity: real)

  /**
   * Image size in pixels, field of view in degrees, and the objects in the
   * order that breaks ties between equally near hits.
   */
  datatype Scene = Scene(
    backgroundColor: Color,
    width: nat,
    height: nat,
    fov: real,
    objects: seq<Object>,
    light: DirectionalLight)
}
