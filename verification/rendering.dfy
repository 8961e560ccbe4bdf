/**
 * `Scene::render` (src/scene.rs): one primary ray per pixel, in row-major
 * order, written into a freshly allocated raster.
 */
module Rendering {
  import opened Options
  import opened Vectors
  import opened Colors
  import opened Geometry
  import opened Scenes
  import opened Tracing
  import opened Shading

  /** The rendered raster: row-major, `width * height` pixels. */
  datatype Image = Image(width: nat, height: nat, pixels: seq<Rgb>)

  /** The background colour converted to 8 bits, without clamping. */
  function BackgroundPixel(scene: Scene): Rgb {
    ToRgb(scene.backgroundColor)
  }

  /** The colour of pixel (x, y): the shaded nearest hit of its primary ray, or the background. */
  function PixelAt(m: Maths, scene: Scene, x: nat, y: nat): Rgb
    requires x < scene.width && y < scene.height && scene.width > scene.height
  {
    match NearestHit(scene.objects, CreatePrimeRay(m, x, y, scene))
    case None => BackgroundPixel(scene)
    case Some(h) => GetPixel(m, scene.objects[h.index], h.point, scene)
  }

  /** Pixel i of a row-major raster of the given width sits at column i % width, row i / width. */
  lemma RowMajor(i: nat, width: nat, height: nat)
    requires i < width * height
    ensures width > 0 && i % width < width && i / width < height
  {
  }

  /** The colour of the i-th pixel of the row-major raster. */
  function RasterPixel(m: Maths, scene: Scene, i: nat): Rgb
    requires i < scene.width * scene.height
    requires scene.width > scene.height
  {
    RowMajor(i, scene.width, scene.height);
    PixelAt(m, scene, i % scene.width, i / scene.width)
  }

  /**
   * `Scene::render`. The source asserts width > height inside
   * `create_prime_ray`, which only runs when the raster has a pixel.
   */
  method Render(m: Maths, scene: Scene) returns (img: Image)
    requires scene.width == 0 || scene.height == 0 || scene.width > scene.height
    ensures img.width == scene.width && img.height == scene.height
    ensures |img.pixels| == scene.width * scene.height
    ensures |img.pixels| > 0 ==> scene.width > scene.height
    ensures forall i :: 0 <= i < |img.pixels| ==> img.pixels[i] == RasterPixel(m, scene, i)
  {
    var buffer := new Rgb[scene.width * scene.height];
    assert buffer.Length > 0 ==> scene.width > scene.height;
    for i := 0 to buffer.Length
      invariant forall k :: 0 <= k < i ==> buffer[k] == RasterPixel(m, scene, k)
    {
      RowMajor(i, scene.width, scene.height);
      var x, y := i % scene.width, i / scene.width;
      var pr := CreatePrimeRay(m, x, y, scene);
      var hitObj := Trace(pr, scene);
      var px: Rgb;
      match hitObj {
        case None =>
          px := BackgroundPixel(scene);
        case Some(h) =>
          px := GetPixel(m, scene.objects[h.index], h.point, scene);
      }
      assert px == RasterPixel(m, scene, i);
      buffer[i] := px;
    }
    img := Image(scene.width, scene.height, buffer[..]);
  }

  /** A pixel whose primary ray misses every object shows the background. */
  lemma MissShowsBackground(m: Maths, scene: Scene, x: nat, y: nat)
    requires x < scene.width && y < scene.height && scene.width > scene.height
    requires AllMiss(scene.objects, CreatePrimeRay(m, x, y, scene), |scene.objects|)
    ensures PixelAt(m, scene, x, y) == BackgroundPixel(scene)
  {
    NearestHitSpec(scene.objects, CreatePrimeRay(m, x, y, scene));
  }

  /** With no objects, every pixel of the raster is the background colour. */
  lemma EmptySceneIsBackground(m: Maths, scene: Scene, i: nat)
    requires scene.objects == []
    requires scene.width > scene.height
    requires i < scene.width * scene.height
    ensures RasterPixel(m, scene, i) == BackgroundPixel(scene)
  {
  }

  /** The background pixel truncates 255 * c per channel, for channels in [0, 1]. */
  lemma BackgroundIsFloor(scene: Scene)
    requires InUnit(scene.backgroundColor)
    ensures BackgroundPixel(scene).r as int == (255.0 * scene.backgroundColor.r).Floor
    ensures BackgroundPixel(scene).g as int == (255.0 * scene.backgroundColor.g).Floor
    ensures BackgroundPixel(scene).b as int == (255.0 * scene.backgroundColor.b).Floor
  {
    ToRgbInUnit(scene.backgroundColor);
  }
}
