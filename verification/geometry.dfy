/**
 * Rays and the two primitives of src/shapes.rs: intersection and surface
 * normals, and the closed `Object` enum that dispatches to them.
 */
module Geometry {
  import opened Options
  import opened Vectors
  import opened Colors

  /** A ray (src/rays.rs): origin and (normalised, by its callers) direction. */
  datatype Ray = Ray(origin: Vec3, direction: Vec3)

  datatype Sphere = Sphere(center: Vec3, radius: real, color: Color, albedo: real)

  /** A plane through `origin`; `normal` need not have unit length. */
  datatype Plane = Plane(origin: Vec3, normal: Vec3, color: Color, albedo: real)

  /** The closed set of primitives (`enum Object`). */
  datatype Object = SphereObject(sphere: Sphere) | PlaneObject(plane: Plane)

  /** Point p lies on the ray at signed distance d: p == origin + direction * d. */
  ghost predicate OnRay(ray: Ray, d: real, p: Vec3) {
    p == Add(ray.origin, Scale(ray.direction, d))
  }

  /** The threshold below which `dot(normal, direction)` counts as no hit. */
  const PlaneEpsilon: real := 0.000001

  /**
   * `Plane::intersect`: one-sided. A hit needs dot(normal, direction) > 1e-6
   * and a distance that is not negative; its point lies both on the ray and
   * on the plane.
   */
  function PlaneIntersect(p: Plane, ray: Ray): (r: Option<(real, Vec3)>)
    ensures Dot(p.normal, ray.direction) <= PlaneEpsilon ==> r.None?
    ensures r.Some? ==> r.value.0 >= 0.0 && OnRay(ray, r.value.0, r.value.1)
    ensures r.Some? ==> Dot(Sub(r.value.1, p.origin), p.normal) == 0.0
    ensures r.None? ==>
      Dot(p.normal, ray.direction) <= PlaneEpsilon ||
      Dot(Sub(p.origin, ray.origin), p.normal) < 0.0
  {
    var normal := p.normal;
    var denom := Dot(normal, ray.direction);
    if denom > PlaneEpsilon then
      var v := Sub(p.origin, ray.origin);
      var distance := Dot(v, normal) / denom;
      if distance >= 0.0 then
        var hitPoint := Add(ray.origin, Scale(ray.direction, distance));
        PlaneHitOnPlane(p, ray, distance);
        Some((distance, hitPoint))
      else
        assert Dot(v, normal) < 0.0 by { NumeratorSign(Dot(v, normal), denom); }
        None
    else
      None
  }

  /** With a positive denominator, a quotient's sign is its numerator's. */
  lemma NumeratorSign(num: real, denom: real)
    requires denom > 0.0
    ensures num / denom >= 0.0 <==> num >= 0.0
  {
  }

  /** The point at distance dot(origin - ray.origin, normal) / denom along the ray lies on the plane. */
  lemma PlaneHitOnPlane(p: Plane, ray: Ray, distance: real)
    requires Dot(p.normal, ray.direction) > PlaneEpsilon
    requires distance == Dot(Sub(p.origin, ray.origin), p.normal) / Dot(p.normal, ray.direction)
    ensures Dot(Sub(Add(ray.origin, Scale(ray.direction, distance)), p.origin), p.normal) == 0.0
  {
  }

  /** `Plane::surface_normal`: the negated stored normal, whatever the hit point. */
  function PlaneSurfaceNormal(p: Plane, hitPoint: Vec3): (n: Vec3)
    ensures Add(n, p.normal) == Zero
  {
    Neg(p.normal)
  }

  /** The plane's normal does not depend on the hit point. */
  lemma PlaneNormalIgnoresHitPoint(p: Plane, a: Vec3, b: Vec3)
    ensures PlaneSurfaceNormal(p, a) == PlaneSurfaceNormal(p, b)
  {
  }

  /**
   * Planes are one-sided: a ray can only hit a plane whose surface normal
   * points back against the ray's direction.
   */
  lemma PlaneHitFacesRay(p: Plane, ray: Ray, hitPoint: Vec3)
    requires PlaneIntersect(p, ray).Some?
    ensures Dot(PlaneSurfaceNormal(p, hitPoint), ray.direction) < -PlaneEpsilon
  {
  }

  /** Squared distance from the sphere's centre to the ray's line, when the direction has unit length. */
  function PerpendicularDistance2(s: Sphere, ray: Ray): real {
    var oc := Sub(s.center, ray.origin);
    Dot(oc, oc) - Dot(oc, ray.direction) * Dot(oc, ray.direction)
  }

  /**
   * `Sphere::intersect`, formula as written: with oc = center - origin,
   * adj = dot(oc, direction) and d2 = dot(oc, oc) - adj^2, no hit when
   * d2 > radius^2, otherwise distance adj^2 - (radius^2 - d2), not filtered
   * for sign. That distance equals dot(oc, oc) - radius^2: it depends only
   * on where the ray starts, not on its direction.
   */
  function SphereIntersect(s: Sphere, ray: Ray): (r: Option<(real, Vec3)>)
    ensures r.None? <==> PerpendicularDistance2(s, ray) > s.radius * s.radius
    ensures r.Some? ==> OnRay(ray, r.value.0, r.value.1)
    ensures r.Some? ==>
      var oc := Sub(s.center, ray.origin);
      r.value.0 == Dot(oc, oc) - s.radius * s.radius
  {
    var rayCenter := Sub(s.center, ray.origin);
    var adj := Dot(rayCenter, ray.direction);
    var d2 := Dot(rayCenter, rayCenter) - adj * adj;
    var radius2 := s.radius * s.radius;
    if d2 > radius2 then
      None
    else
      var adj2 := adj * adj;
      var dist := adj2 - (radius2 - d2);
      var hitPoint := Add(ray.origin, Scale(ray.direction, dist));
      Some((dist, hitPoint))
  }

  /** A ray starting inside a sphere always hits it, at a negative distance. */
  lemma SphereHitBehindOrigin(s: Sphere, ray: Ray)
    requires Dot(Sub(s.center, ray.origin), Sub(s.center, ray.origin)) < s.radius * s.radius
    ensures SphereIntersect(s, ray).Some? && SphereIntersect(s, ray).value.0 < 0.0
  {
  }

  /** `Sphere::surface_normal`: normalize(hit_point - center). */
  function SphereSurfaceNormal(m: Maths, s: Sphere, hitPoint: Vec3): Vec3 {
    m.normalize(Sub(hitPoint, s.center))
  }

  /** `Object::intersect`: dispatch to the variant. */
  function Intersect(obj: Object, ray: Ray): (r: Option<(real, Vec3)>)
    ensures r.Some? ==> OnRay(ray, r.value.0, r.value.1)
    ensures obj.PlaneObject? && r.Some? ==> r.value.0 >= 0.0
    ensures obj.PlaneObject? && Dot(obj.plane.normal, ray.direction) <= PlaneEpsilon ==> r.None?
  {
    match obj
    case SphereObject(s) => SphereIntersect(s, ray)
    case PlaneObject(p) => PlaneIntersect(p, ray)
  }

  /** `Object::surface_normal`: dispatch to the variant. */
  function SurfaceNormal(m: Maths, obj: Object, hitPoint: Vec3): (n: Vec3)
    ensures obj.PlaneObject? ==> Add(n, obj.plane.normal) == Zero
  {
    match obj
    case SphereObject(s) => SphereSurfaceNormal(m, s, hitPoint)
    case PlaneObject(p) => PlaneSurfaceNormal(p, hitPoint)
  }
}
