# A verified model of the rust-raytracer rendering pipeline

This project models the decision logic of the ray caster that `src/main.rs`
builds from its `rays`, `scene` and `shapes` modules, in Dafny over `real`
numbers as an idealisation of `f64`:

- **Camera rays** (`Ray::create_prime_ray`). One primary ray per pixel, from
  the origin through a sensor point one unit down the −z axis.
- **Primitives** (`Sphere`, `Plane`, the closed `Object` enum). Intersection
  and surface normals. The plane is one-sided: a hit needs
  `dot(normal, direction) > 1e-6` and a distance that is not negative. The
  sphere uses its formula as written. The model shows that the reported
  sphere distance `adj² − (radius² − d2)` simplifies to
  `dot(oc, oc) − radius²`. So it depends only on where the ray starts, not on
  its direction, and it is negative for a ray that starts inside the sphere.
- **Nearest-hit tracer** (`Ray::trace`). This is an imperative scan of the
  scene's objects that keeps a hit only when it is strictly nearer. It is
  proved to return the argmin of the hit distances, with ties going to the
  earliest object, and `None` exactly when every object misses.
- **Shading** (`get_pixel`). A shadow ray is sent through the tracer. Any
  occluder turns the light off. The Lambertian term `max(0, cos)` follows,
  then the colour products, `clamp`, and the conversion to 8 bits.
- **Colours and the compositor** (`Color` arithmetic, `clamp`, `Scene::render`).
  `render` fills a freshly allocated row-major raster in place. A pixel whose
  primary ray hits nothing gets the background colour.

Modules, leaves first: `Options`, `Vectors` (the cgmath operations and the
abstract library maths), `Colors`, `Geometry`, `Scenes`, `Tracing`,
`Shading`, `Rendering`.

`normalize` (a square root) and `tan` are fields of a `Maths` record of
function values that every operation that needs them takes as a parameter.
Nothing is assumed about them. `PI` is 3.141592653589793, the shortest
decimal that rounds to the `f64` value of `std::f64::consts::PI`; as a real
it differs slightly from that binary value. `to_radians` is
`degrees * (PI / 180)`, as in Rust's `f64`.

The model keeps these details of the code:
- The shadow bias is `1e-13`.
- The direction to the light is `-(normalize(direction))`.
- The background colour is converted with Rust's saturating `as u8` cast and
  is not clamped first.
- `src/scene.rs:100` assigns the tracer's `(object, point)` result straight
  to a pixel. That line does not type-check. The model uses the behaviour the
  commented-out line `src/rays.rs:59` shows: a hit `(obj, pt)` becomes
  `obj.get_pixel(pt, scene)`.

## Model

| member | source | states |
|---|---|---|
| `Colors.ScaleColor` | src/scene.rs:49-60 | the ratio of every pair of channels is kept, a zero channel stays zero and black stays black; factor 0 gives black, factor 1 the colour itself |
| `Colors.ScaleColorComposes` | src/scene.rs:52-58 | scaling by k1 and then by k2 is scaling once by k1·k2 |
| `Colors.MulColor` | src/scene.rs:62-73 | a black operand gives black; multiplying by white changes nothing |
| `Colors.MulColorCommutative` | src/scene.rs:65-72 | colour × colour is commutative |
| `Colors.MulColorAssociative` | src/scene.rs:65-72 | colour × colour is associative |
| `Colors.ClampChannel` | src/scene.rs:78-80 | `v.min(1.0).max(0.0)` lies in [0,1], keeps a value already in [0,1], and sends values below 0 to 0 and above 1 to 1 |
| `Colors.Clamp` | src/scene.rs:76-82 | every channel of the result is in [0,1]; a colour already in [0,1] is unchanged |
| `Colors.ClampIdempotent` | src/scene.rs:76-82 | clamping twice is clamping once |
| `Colors.ShadingOrdersAgree` | src/shapes.rs:163-164 | the sphere's order ((c·p)·q)×l and the plane's ((c×l)·p)·q of the colour products give the same colour |
| `Colors.AsU8` | src/scene.rs:97-99 | Rust's `f64 as u8`: 0 at or below 0, 255 at or above 255, and in between the integer part (b ≤ v < b+1) |
| `Colors.ToRgb` | src/shapes.rs:107-111 | no contract of its own; `Colors.AsU8` states the cast of each channel and `Colors.ToRgbInUnit` the bytes of a colour in [0,1] |
| `Colors.ToRgbInUnit` | src/shapes.rs:107-111 | for a colour in [0,1] each byte is floor(255·c) |
| `Geometry.PlaneIntersect` | src/shapes.rs:69-82 | no hit when dot(normal, direction) ≤ 1e-6; any hit has distance ≥ 0, lies on the ray at that distance and on the plane (dot(hit − origin, normal) = 0); a miss past the guard means the plane is behind the ray |
| `Geometry.PlaneHitOnPlane` | src/shapes.rs:73-76 | the point at distance dot(origin − ray.origin, normal)/denom along the ray lies on the plane |
| `Geometry.PlaneSurfaceNormal` | src/shapes.rs:114-116 | the normal is the negated stored normal (n + normal = 0) |
| `Geometry.PlaneNormalIgnoresHitPoint` | src/shapes.rs:114 | the plane's normal is the same whatever the hit point |
| `Geometry.PlaneHitFacesRay` | src/shapes.rs:71-72 | planes are one-sided: a ray that hits a plane has dot(surface normal, direction) < −1e-6 |
| `Geometry.PerpendicularDistance2` | src/shapes.rs:122-126 | `d2 = dot(oc, oc) − adj²`; no contract of its own; `Geometry.SphereIntersect` states that the sphere is missed exactly when it exceeds radius² |
| `Geometry.SphereIntersect` | src/shapes.rs:120-141 | None exactly when d2 > radius²; a hit lies on the ray at its distance, and that distance is dot(oc, oc) − radius² |
| `Geometry.SphereHitBehindOrigin` | src/shapes.rs:130-139 | a ray starting inside the sphere always hits it, at a negative distance: the distance is not filtered for sign |
| `Geometry.SphereSurfaceNormal` | src/shapes.rs:173-175 | `normalize(hit_point − center)` with the abstract `normalize`; no contract of its own (see "## Left out") |
| `Geometry.Intersect` | src/shapes.rs:46-51 | `Object::intersect` forwards to the variant: every hit lies on the ray; plane hits are never negative and need dot(normal, direction) > 1e-6 |
| `Geometry.SurfaceNormal` | src/shapes.rs:60-65 | `Object::surface_normal` forwards to the variant; for a plane it is the negated stored normal |
| `Tracing.CreatePrimeRay` | src/rays.rs:25-39 | requires width > height (the source asserts it); the origin is (0,0,0) and the direction is the normalised sensor point, whose z is −1 by `Tracing.SensorPoint`'s contract |
| `Tracing.FovAdjustment` | src/rays.rs:29 | `tan(to_radians(fov) / 2)`; no contract of its own, since `tan` is abstract; `Tracing.SensorBounds` uses it as the bound |
| `Tracing.SensorX` | src/rays.rs:31-32 | no contract of its own; `Tracing.SensorXBound` states that a column's sensor x lies strictly inside ±aspect_ratio·fov_adj |
| `Tracing.SensorY` | src/rays.rs:33 | no contract of its own; `Tracing.SensorYBound` states that a row's sensor y lies strictly inside ±fov_adj |
| `Tracing.SensorPoint` | src/rays.rs:31-37 | the point before normalisation always has z = −1; `Tracing.SensorBounds` and `Tracing.SensorSymmetric` state its bounds and its symmetry |
| `Tracing.SensorBounds` | src/rays.rs:31-33 | for x < width and y < height and a positive fov adjustment, abs(sensor_x) < aspect_ratio·fov_adj and abs(sensor_y) < fov_adj |
| `Tracing.SensorXBound` | src/rays.rs:31-32 | for a column x < width, abs(sensor_x) < aspect_ratio·fov_adj whenever that bound is positive |
| `Tracing.SensorYBound` | src/rays.rs:33 | for a row y < height, abs(sensor_y) < fov_adj whenever fov_adj is positive |
| `Tracing.SensorSymmetric` | src/rays.rs:31-33 | sensor_x(x) = −sensor_x(width−1−x) and sensor_y(y) = −sensor_y(height−1−y) |
| `Tracing.Scan` | src/rays.rs:48-63 | the hit the loop keeps after n objects comes from one of those objects, and is that object's own intersection |
| `Tracing.NearestHit` | src/rays.rs:45-69 | a returned hit names an object of the scene |
| `Tracing.ScanIsNearest` | src/rays.rs:53-63 | after n objects the kept hit is absent exactly when all n miss, and otherwise is a nearest hit with ties to the earliest object |
| `Tracing.NearestIsUnique` | src/rays.rs:56-58 | the nearest-hit characterisation determines the answer uniquely |
| `Tracing.NearestHitSpec` | src/rays.rs:48-68 | `trace` returns None exactly when every object's intersect returns None, and otherwise the nearest hit |
| `Tracing.TieGoesToEarliest` | src/rays.rs:56 | of two objects hit at equal distance, the later one is never returned (strict `<`) |
| `Tracing.Trace` | src/rays.rs:45-69 | the loop returns the nearest hit: None iff every object misses; otherwise the returned object is hit at the returned point, no object is hit nearer, and every earlier object is missed or hit strictly farther |
| `Shading.DirectionToLight` | src/shapes.rs:87 | `-(normalize(light.direction))`, used by both shaders (src/shapes.rs:146 for the sphere); no contract of its own, its use is stated by `Shading.LightPower` and `Shading.PlaneDoesNotShadowItself` |
| `Shading.ShadowRay` | src/shapes.rs:89-92 | no contract of its own; what it does to planes is stated by `Shading.PlaneDoesNotShadowItself` |
| `Shading.PlaneDoesNotShadowItself` | src/shapes.rs:71-72 | a plane whose surface normal faces the light is never hit by its own shadow ray, because from that ray it is back-facing |
| `Shading.LightIntensity` | src/shapes.rs:94-99 | no contract of its own; `Shading.ShadowIffOccluder` states it is the light's intensity exactly when the shadow ray misses every object, and 0 otherwise |
| `Shading.LightPower` | src/shapes.rs:101 | light power is never negative when the light's intensity is not negative, and is 0 when the surface faces away from the light |
| `Shading.ShadowIffOccluder` | src/shapes.rs:94-99 | the light intensity is the light's own when no object meets the shadow ray, and 0 otherwise |
| `Shading.NoPowerIsBlack` | src/shapes.rs:53-58 | `Object::get_pixel` renders black wherever no light power arrives, for both variants |
| `Shading.InShadowIsBlack` | src/shapes.rs:94-111 | if any object of the scene meets the shadow ray, the pixel is [0,0,0] |
| `Shading.LitWithoutOccluder` | src/shapes.rs:153-160 | with no occluder, positive intensity and a surface facing the light, the light power is positive |
| `Shading.LightReflected` | src/shapes.rs:102 | `albedo / PI`, the Lambertian factor of both shaders (src/shapes.rs:161 for the sphere); no contract of its own; it enters `Shading.PlanePixel` and `Shading.SpherePixel` as the same factor, which `Shading.SphereShadesLikePlane` relies on |
| `Shading.PlanePixel` | src/shapes.rs:84-112 | no contract of its own; `Shading.NoPowerIsBlack`, `Shading.InShadowIsBlack` and `Shading.PixelIsFloorOfClamped` state its properties |
| `Shading.SpherePixel` | src/shapes.rs:143-171 | no contract of its own; `Shading.SphereShadesLikePlane` relates it to the plane shader, and `Shading.NoPowerIsBlack` and `Shading.InShadowIsBlack` state when it is black |
| `Shading.GetPixel` | src/shapes.rs:53-58 | no contract of its own; `Shading.NoPowerIsBlack` and `Shading.InShadowIsBlack` state its properties for both variants |
| `Shading.SphereShadesLikePlane` | src/shapes.rs:143-171 | the sphere's shader equals the plane's shader given the same normal, colour and albedo |
| `Shading.PixelIsFloorOfClamped` | src/shapes.rs:104-111 | each shaded byte is floor(255·c) of the clamped channel |
| `Rendering.BackgroundPixel` | src/scene.rs:97-99 | no contract of its own; `Rendering.BackgroundIsFloor` states its bytes for a background in [0,1] |
| `Rendering.PixelAt` | src/scene.rs:93-101 | no contract of its own; `Rendering.MissShowsBackground` and `Rendering.EmptySceneIsBackground` state when it is the background, otherwise it is `get_pixel` of the nearest hit |
| `Rendering.RasterPixel` | src/scene.rs:89-101 | no contract of its own; `Rendering.Render` states that pixel i of the raster is `RasterPixel` i, the pixel at column i % width and row i / width |
| `Rendering.RowMajor` | src/scene.rs:89 | pixel i of a width×height raster is column i % width, row i / width, both in range |
| `Rendering.Render` | src/scene.rs:86-105 | the raster has exactly width×height pixels and pixel i is the pixel computed for (i % width, i / width) |
| `Rendering.MissShowsBackground` | src/scene.rs:96-99 | a pixel whose primary ray misses every object is the converted background |
| `Rendering.EmptySceneIsBackground` | src/scene.rs:93-99 | with an empty object list every pixel is the converted background |
| `Rendering.BackgroundIsFloor` | src/scene.rs:97-99 | for a background in [0,1] each background byte is floor(255·c) |

## Left out

- Floating point: the model works over exact reals. It has no rounding, no
  NaN and no infinities. The tracer's `min_dist = INFINITY` is modelled as
  "no hit yet".
- `normalize`, `tan`: these are abstract function parameters. The unit
  length of normals and ray directions is not modelled or proved.
- `Geometry.SphereSurfaceNormal`: it is `normalize(hit − center)` with the
  abstract `normalize`, so it has no contract.
- `Tracing.CreatePrimeRay`: it also requires height > 0. The real-valued
  division `width / height` has no infinity to fall back on. `render` only
  calls it for y < height, so there height > 0 always holds.
- `Rendering.Render`: it requires width = 0, height = 0 or width > height.
  This is exactly when the source's assertion cannot fire, because
  `create_prime_ray` only runs when the raster has a pixel.
- `u32` widths and pixel coordinates are unbounded naturals. The 32-bit
  limit on width × height is not modelled.
- `Tracing.Trace`: the returned hit names the object by its position in
  `scene.objects` rather than by reference.
- `Shading.LightPower`: one definition serves both shaders. It uses the
  plane's operand order `dot(to_light, normal)`. The sphere's
  `dot(normal, to_light)` (src/shapes.rs:160) is the same real number,
  because the dot product is symmetric.
- `render` takes `&mut self` but never writes the scene. Here the scene is an
  immutable value, so "render does not change the scene" holds by
  construction and has no member of its own.
- Scene construction and PNG output in `src/main.rs` are left out. They are
  configuration and file I/O.
- `src/lib.rs` is an older snapshot of the pipeline that the binary does not
  use. It is not part of this model.
- The prototypes in `src/tests/` are left out. They do image file I/O,
  random noise and use unrelated types.
