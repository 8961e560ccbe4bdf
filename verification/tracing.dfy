/**
 * src/rays.rs: the camera's primary rays and the nearest-hit tracer.
 */
module Tracing {
  import opened Options
  import opened Vectors
  import opened Geometry
  import opened Scenes

  // ---------------------------------------------------------------------
  // Primary rays (`Ray::create_prime_ray`)
  // ---------------------------------------------------------------------

  /** tan(to_radians(fov) / 2). */
  function FovAdjustment(m: Maths, scene: Scene): real {
    m.tan(ToRadians(scene.fov) / 2.0)
  }

  /** Horizontal sensor coordinate of the centre of pixel column x. */
  function SensorX(x: nat, width: nat, aspectRatio: real, fovAdj: real): real
    requires width > 0
  {
    (((x as real + 0.5) / width as real) * 2.0 - 1.0) * aspectRatio * fovAdj
  }

  /** Vertical sensor coordinate of the centre of pixel row y (rows grow downwards). */
  function SensorY(y: nat, height: nat, fovAdj: real): real
    requires height > 0
  {
    (1.0 - ((y as real + 0.5) / height as real) * 2.0) * fovAdj
  }

  /** The direction of the primary ray through pixel (x, y), before normalisation. */
  function SensorPoint(m: Maths, x: nat, y: nat, scene: Scene): (v: Vec3)
    requires scene.width > 0 && scene.height > 0
    ensures v.z == -1.0
  {
    var aspectRatio := scene.width as real / scene.height as real;
    var fovAdj := FovAdjustment(m, scene);
    Vec3(SensorX(x, scene.width, aspectRatio, fovAdj), SensorY(y, scene.height, fovAdj), -1.0)
  }

  /**
   * `Ray::create_prime_ray`: from the camera at the origin through the
   * sensor point one unit down the -z axis. The source asserts
   * width > height.
   */
  function CreatePrimeRay(m: Maths, x: nat, y: nat, scene: Scene): (r: Ray)
    requires scene.width > scene.height > 0
    ensures r.origin == Zero
    ensures r.direction == m.normalize(SensorPoint(m, x, y, scene))
  {
    var v := SensorPoint(m, x, y, scene);
    Ray(Vec3(0.0, 0.0, 0.0), m.normalize(v))
  }

  /** A quotient of two positives, the smaller over the larger, lies strictly between 0 and 1. */
  lemma FractionInUnit(a: real, b: real)
    requires 0.0 < a < b
    ensures 0.0 < a / b < 1.0
  {
    QuotientPositive(a, b);
    QuotientPositive(b - a, b);
    QuotientsAdd(a, b - a, b);
    assert b / b == 1.0;
  }

  /** (x + 0.5) / n lies strictly between 0 and 1 for a pixel index x < n. */
  lemma PixelFraction(x: nat, n: nat)
    requires x < n
    ensures 0.0 < (x as real + 0.5) / n as real < 1.0
  {
    FractionInUnit(x as real + 0.5, n as real);
  }

  /** A factor strictly inside (-1, 1) shrinks a positive k. */
  lemma ShrinkBound(t: real, k: real)
    requires -1.0 < t < 1.0 && k > 0.0
    ensures Abs(t * k) < k
  {
  }

  /** A pixel column's sensor coordinate lies strictly inside (-aspect*fovAdj, aspect*fovAdj). */
  lemma SensorXBound(x: nat, width: nat, aspectRatio: real, fovAdj: real)
    requires x < width
    requires aspectRatio * fovAdj > 0.0
    ensures Abs(SensorX(x, width, aspectRatio, fovAdj)) < aspectRatio * fovAdj
  {
    PixelFraction(x, width);
    var t := ((x as real + 0.5) / width as real) * 2.0 - 1.0;
    var k := aspectRatio * fovAdj;
    assert SensorX(x, width, aspectRatio, fovAdj) == t * k;
    ShrinkBound(t, k);
  }

  /** A pixel row's sensor coordinate lies strictly inside (-fovAdj, fovAdj). */
  lemma SensorYBound(y: nat, height: nat, fovAdj: real)
    requires y < height
    requires fovAdj > 0.0
    ensures Abs(SensorY(y, height, fovAdj)) < fovAdj
  {
    PixelFraction(y, height);
    var t := 1.0 - ((y as real + 0.5) / height as real) * 2.0;
    assert SensorY(y, height, fovAdj) == t * fovAdj;
    ShrinkBound(t, fovAdj);
  }

  /** Every pixel of the raster lands inside the sensor rectangle. */
  lemma SensorBounds(m: Maths, x: nat, y: nat, scene: Scene)
    requires scene.width > scene.height > 0
    requires x < scene.width && y < scene.height
    requires FovAdjustment(m, scene) > 0.0
    ensures var aspectRatio := scene.width as real / scene.height as real;
      Abs(SensorPoint(m, x, y, scene).x) < aspectRatio * FovAdjustment(m, scene)
    ensures Abs(SensorPoint(m, x, y, scene).y) < FovAdjustment(m, scene)
  {
    var aspectRatio := scene.width as real / scene.height as real;
    var f := FovAdjustment(m, scene);
    QuotientPositive(scene.width as real, scene.height as real);
    assert aspectRatio * f > 0.0;
    SensorXBound(x, scene.width, aspectRatio, f);
    SensorYBound(y, scene.height, f);
  }

  lemma QuotientPositive(a: real, b: real)
    requires a > 0.0 && b > 0.0
    ensures a / b > 0.0
  {
  }

  /** Quotients with a common positive divisor add up as their numerators do. */
  lemma QuotientsAdd(a: real, b: real, c: real)
    requires c > 0.0
    ensures a / c + b / c == (a + b) / c
  {
  }

  /** (x + 0.5) / n and (n - 1 - x + 0.5) / n add up to 1. */
  lemma MirrorFractions(x: nat, n: nat)
    requires x < n
    ensures (x as real + 0.5) / n as real + ((n - 1 - x) as real + 0.5) / n as real == 1.0
  {
  }

  /** The sensor is symmetric about the optical axis. */
  lemma SensorSymmetric(m: Maths, x: nat, y: nat, scene: Scene)
    requires scene.width > scene.height > 0
    requires x < scene.width && y < scene.height
    ensures SensorPoint(m, x, y, scene).x == -SensorPoint(m, scene.width - 1 - x, y, scene).x
    ensures SensorPoint(m, x, y, scene).y == -SensorPoint(m, x, scene.height - 1 - y, scene).y
  {
  }

  // ---------------------------------------------------------------------
  // The tracer (`Ray::trace`)
  // ---------------------------------------------------------------------

  /** Which object was hit (its position in `scene.objects`) and where. */
  datatype Hit = Hit(index: nat, point: Vec3)

  /**
   * The tracer's state after its loop has looked at objects[..n]: the hit
   * kept so far with its distance, or None for "no hit yet" (the source's
   * `min_dist = INFINITY`).
   */
  function Scan(objects: seq<Object>, ray: Ray, n: nat): (r: Option<(real, Hit)>)
    requires n <= |objects|
    ensures r.Some? ==> r.value.1.index < n
    ensures r.Some? ==> Intersect(objects[r.value.1.index], ray) == Some((r.value.0, r.value.1.point))
  {
    if n == 0 then None
    else
      var kept := Scan(objects, ray, n - 1);
      match Intersect(objects[n - 1], ray)
      case None => kept
      case Some((dist, hitPoint)) =>
        if kept.None? || dist < kept.value.0 then Some((dist, Hit(n - 1, hitPoint))) else kept
  }

  /** What `trace` returns: the kept hit once every object has been looked at. */
  function NearestHit(objects: seq<Object>, ray: Ray): (r: Option<Hit>)
    ensures r.Some? ==> r.value.index < |objects|
  {
    match Scan(objects, ray, |objects|)
    case None => None
    case Some((_, h)) => Some(h)
  }

  /** No object among objects[..n] is hit by the ray. */
  ghost predicate AllMiss(objects: seq<Object>, ray: Ray, n: nat)
    requires n <= |objects|
  {
    forall j :: 0 <= j < n ==> Intersect(objects[j], ray).None?
  }

  /**
   * h is a nearest hit among objects[..n]: the object at h.index is hit at
   * h.point, no object is hit strictly nearer, and every object before it
   * is hit strictly farther or not at all (so equal distances go to the
   * earliest object).
   */
  ghost predicate IsNearest(objects: seq<Object>, ray: Ray, n: nat, h: Hit)
    requires n <= |objects|
  {
    h.index < n &&
    Intersect(objects[h.index], ray).Some? &&
    Intersect(objects[h.index], ray).value.1 == h.point &&
    var d := Intersect(objects[h.index], ray).value.0;
    (forall j :: 0 <= j < n && Intersect(objects[j], ray).Some? ==> d <= Intersect(objects[j], ray).value.0) &&
    (forall j :: 0 <= j < h.index && Intersect(objects[j], ray).Some? ==> d < Intersect(objects[j], ray).value.0)
  }

  /** The loop's state after n objects is the argmin over those n objects, with ties to the earliest. */
  lemma {:induction false} ScanIsNearest(objects: seq<Object>, ray: Ray, n: nat)
    requires n <= |objects|
    ensures Scan(objects, ray, n).None? <==> AllMiss(objects, ray, n)
    ensures Scan(objects, ray, n).Some? ==> IsNearest(objects, ray, n, Scan(objects, ray, n).value.1)
  {
    if n > 0 {
      ScanIsNearest(objects, ray, n - 1);
    }
  }

  /** A nearest hit is unique: the characterisation determines `trace`'s answer. */
  lemma NearestIsUnique(objects: seq<Object>, ray: Ray, h1: Hit, h2: Hit)
    requires IsNearest(objects, ray, |objects|, h1)
    requires IsNearest(objects, ray, |objects|, h2)
    ensures h1 == h2
  {
  }

  /** `trace` finds nothing exactly when every object misses the ray, and otherwise the nearest hit. */
  lemma NearestHitSpec(objects: seq<Object>, ray: Ray)
    ensures NearestHit(objects, ray).None? <==> AllMiss(objects, ray, |objects|)
    ensures NearestHit(objects, ray).Some? ==> IsNearest(objects, ray, |objects|, NearestHit(objects, ray).value)
  {
    ScanIsNearest(objects, ray, |objects|);
  }

  /** Of two objects hit at the same distance, `trace` never returns the later one. */
  lemma TieGoesToEarliest(objects: seq<Object>, ray: Ray, i: nat, j: nat)
    requires i < j < |objects|
    requires Intersect(objects[i], ray).Some? && Intersect(objects[j], ray).Some?
    requires Intersect(objects[i], ray).value.0 == Intersect(objects[j], ray).value.0
    ensures NearestHit(objects, ray).Some? && NearestHit(objects, ray).value.index != j
  {
    NearestHitSpec(objects, ray);
  }

  /**
   * `Ray::trace`: a scan of `scene.objects` in order that keeps a hit only
   * when it is strictly nearer than the one kept so far.
   */
  method Trace(ray: Ray, scene: Scene) returns (ans: Option<Hit>)
    ensures ans == NearestHit(scene.objects, ray)
    ensures ans.None? <==> AllMiss(scene.objects, ray, |scene.objects|)
    ensures ans.Some? ==> IsNearest(scene.objects, ray, |scene.objects|, ans.value)
  {
    ans := None;
    var minDist: Option<real> := None;  // None stands for INFINITY
    for i := 0 to |scene.objects|
      invariant ans.None? <==> minDist.None?
      invariant Scan(scene.objects, ray, i) ==
        if ans.None? then None else Some((minDist.value, ans.value))
    {
      match Intersect(scene.objects[i], ray)
      case None =>
      case Some((dist, hitPoint)) =>
        if minDist.None? || dist < minDist.value {
          minDist := Some(dist);
          ans := Some(Hit(i, hitPoint));
        }
    }
    ScanIsNearest(scene.objects, ray, |scene.objects|);
  }
}
