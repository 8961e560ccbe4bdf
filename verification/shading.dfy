/**
 * `get_pixel` of src/shapes.rs: Lambertian shading under the scene's one
 * directional light, with a hard shadow decided by a shadow ray sent
 * through the tracer.
 */
module Shading {
  import opened Options
  import opened Vectors
  import opened Colors
  import opened Geometry
  import opened Scenes
  import opened Tracing

  /** Offset of the shadow ray's origin along the surface normal (`shadow_bias`). */
  const ShadowBias: real := 0.0000000000001

  /** `-scene.light.direction.normalize()`: the way back towards the light. */
  function DirectionToLight(m: Maths, scene: Scene): Vec3 {
    Neg(m.normalize(scene.light.direction))
  }

  /** The shadow ray: from just off the surface, towards the light. */
  function ShadowRay(m: Maths, normal: Vec3, hitPoint: Vec3, scene: Scene): Ray {
    Ray(Add(hitPoint, Scale(normal, ShadowBias)), DirectionToLight(m, scene))
  }

  /**
   * The light reaching the hit point: the light's intensity, or 0 when the
   * shadow ray hits any object at all (the light is infinitely far away).
   */
  function LightIntensity(m: Maths, normal: Vec3, hitPoint: Vec3, scene: Scene): real {
    match NearestHit(scene.objects, ShadowRay(m, normal, hitPoint, scene))
    case None => scene.light.intensity
    case Some(_) => 0.0
  }

  /** max(0, cos) * intensity, with cos = dot(direction to light, normal). */
  function LightPower(m: Maths, normal: Vec3, hitPoint: Vec3, scene: Scene): (p: real)
    ensures scene.light.intensity >= 0.0 ==> p >= 0.0
    ensures Dot(DirectionToLight(m, scene), normal) <= 0.0 ==> p == 0.0
  {
    Max(Dot(DirectionToLight(m, scene), normal), 0.0) * LightIntensity(m, normal, hitPoint, scene)
  }

  /** The Lambertian BRDF factor albedo / PI. */
  function LightReflected(albedo: real): real {
    albedo / Pi
  }

  /** `Plane::get_pixel`: ((colour x light colour) * power) * reflected, clamped, to 8 bits. */
  function PlanePixel(m: Maths, p: Plane, hitPoint: Vec3, scene: Scene): Rgb {
    var normal := PlaneSurfaceNormal(p, hitPoint);
    var power := LightPower(m, normal, hitPoint, scene);
    var reflected := LightReflected(p.albedo);
    var color := Clamp(ScaleColor(ScaleColor(MulColor(p.color, scene.light.color), power), reflected));
    ToRgb(color)
  }

  /** `Sphere::get_pixel`: ((colour * power) * reflected) x light colour, clamped, to 8 bits. */
  function SpherePixel(m: Maths, s: Sphere, hitPoint: Vec3, scene: Scene): Rgb {
    var normal := SphereSurfaceNormal(m, s, hitPoint);
    var power := LightPower(m, normal, hitPoint, scene);
    var reflected := LightReflected(s.albedo);
    var color := Clamp(MulColor(ScaleColor(ScaleColor(s.color, power), reflected), scene.light.color));
    ToRgb(color)
  }

  /** `Object::get_pixel`: dispatch to the variant. */
  function GetPixel(m: Maths, obj: Object, hitPoint: Vec3, scene: Scene): Rgb {
    match obj
    case SphereObject(s) => SpherePixel(m, s, hitPoint, scene)
    case PlaneObject(p) => PlanePixel(m, p, hitPoint, scene)
  }

  /**
   * A plane whose surface faces the light never blocks its own shadow ray:
   * seen from the shadow ray the plane is back-facing, so the one-sided
   * intersection test rejects it.
   */
  lemma PlaneDoesNotShadowItself(m: Maths, p: Plane, hitPoint: Vec3, scene: Scene)
    requires Dot(DirectionToLight(m, scene), PlaneSurfaceNormal(p, hitPoint)) > 0.0
    ensures PlaneIntersect(p, ShadowRay(m, PlaneSurfaceNormal(p, hitPoint), hitPoint, scene)).None?
  {
    DotSymmetric(p.normal, DirectionToLight(m, scene));
  }

  /**
   * The two shaders differ only in the order of their colour products: a
   * sphere is shaded exactly as a plane whose surface normal, colour and
   * albedo are the sphere's at that point.
   */
  lemma SphereShadesLikePlane(m: Maths, s: Sphere, hitPoint: Vec3, scene: Scene, origin: Vec3)
    ensures var normal := SphereSurfaceNormal(m, s, hitPoint);
      SpherePixel(m, s, hitPoint, scene) ==
        PlanePixel(m, Plane(origin, Neg(normal), s.color, s.albedo), hitPoint, scene)
  {
    var normal := SphereSurfaceNormal(m, s, hitPoint);
    var p := Plane(origin, Neg(normal), s.color, s.albedo);
    assert PlaneSurfaceNormal(p, hitPoint) == normal;
    ShadingOrdersAgree(s.color, scene.light.color,
      LightPower(m, normal, hitPoint, scene), LightReflected(s.albedo));
  }

  /** Any object on the shadow ray turns the light off. */
  lemma ShadowIffOccluder(m: Maths, normal: Vec3, hitPoint: Vec3, scene: Scene)
    ensures var shadow := ShadowRay(m, normal, hitPoint, scene);
      LightIntensity(m, normal, hitPoint, scene) ==
        if AllMiss(scene.objects, shadow, |scene.objects|) then scene.light.intensity else 0.0
  {
    NearestHitSpec(scene.objects, ShadowRay(m, normal, hitPoint, scene));
  }

  /** Where no light power arrives, every object is rendered black. */
  lemma NoPowerIsBlack(m: Maths, obj: Object, hitPoint: Vec3, scene: Scene)
    requires LightPower(m, SurfaceNormal(m, obj, hitPoint), hitPoint, scene) == 0.0
    ensures GetPixel(m, obj, hitPoint, scene) == Rgb(0, 0, 0)
  {
  }

  /** A hit point whose shadow ray meets some object (the occluder) is rendered black. */
  lemma InShadowIsBlack(m: Maths, obj: Object, hitPoint: Vec3, scene: Scene, occluder: nat)
    requires occluder < |scene.objects|
    requires Intersect(scene.objects[occluder], ShadowRay(m, SurfaceNormal(m, obj, hitPoint), hitPoint, scene)).Some?
    ensures GetPixel(m, obj, hitPoint, scene) == Rgb(0, 0, 0)
  {
    ShadowIffOccluder(m, SurfaceNormal(m, obj, hitPoint), hitPoint, scene);
    NoPowerIsBlack(m, obj, hitPoint, scene);
  }

  /**
   * With no object on the shadow ray, a light of positive intensity and a
   * surface facing the light, the light power reaching the surface is
   * positive.
   */
  lemma LitWithoutOccluder(m: Maths, normal: Vec3, hitPoint: Vec3, scene: Scene)
    requires AllMiss(scene.objects, ShadowRay(m, normal, hitPoint, scene), |scene.objects|)
    requires scene.light.intensity > 0.0
    requires Dot(DirectionToLight(m, scene), normal) > 0.0
    ensures LightPower(m, normal, hitPoint, scene) > 0.0
  {
    ShadowIffOccluder(m, normal, hitPoint, scene);
  }

  /** The shaded colour is clamped before conversion, so each byte is floor(255 * c). */
  lemma PixelIsFloorOfClamped(c: Color)
    ensures ToRgb(Clamp(c)).r as int == (255.0 * Clamp(c).r).Floor
    ensures ToRgb(Clamp(c)).g as int == (255.0 * Clamp(c).g).Floor
    ensures ToRgb(Clamp(c)).b as int == (255.0 * Clamp(c).b).Floor
  {
    ToRgbInUnit(Clamp(c));
  }
}
