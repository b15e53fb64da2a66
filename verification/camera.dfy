/** `RayTracingEngine.Rendering.Camera`: one primary ray per pixel of a
    640 by 480 image, through a screen at distance 1. */
module Camera {
  import opened Vectors
  import opened Rays

  const Width: nat := 640
  const Height: nat := 480
  const DefaultPosition: Vec3 := Zero

  /** The direction of the primary ray through pixel `(x, y)`. */
  function PixelDirection(x: nat, y: nat): (d: Vec3)
    requires x < Width && y < Height
    ensures -0.5 <= d.x < 0.5 && -0.5 <= d.y < 0.5 && d.z == 1.0
    ensures x == 0 ==> d.x == -0.5
    ensures y == 0 ==> d.y == -0.5
  {
    Vec3(x as real / Width as real - 0.5, y as real / Height as real - 0.5, 1.0)
  }

  /** Pixels further right get directions further right, and lower rows
      directions further down, with nothing else changing. */
  lemma PixelDirectionMonotonic(x1: nat, x2: nat, y1: nat, y2: nat)
    requires x1 < x2 < Width && y1 < y2 < Height
    ensures PixelDirection(x1, y1).x < PixelDirection(x2, y1).x
    ensures PixelDirection(x1, y1).y == PixelDirection(x2, y1).y
    ensures PixelDirection(x1, y1).y < PixelDirection(x1, y2).y
    ensures PixelDirection(x1, y1).x == PixelDirection(x1, y2).x
  {
  }

  /** `Render`: the rays the two loops create, in the order they are
      created. The source discards each ray; here they are collected to
      state that every pixel gets exactly one, row by row. */
  method Render(position: Vec3) returns (rays: seq<Ray>)
    ensures |rays| == Width * Height
    ensures forall y, x :: 0 <= y < Height && 0 <= x < Width ==>
              rays[y * Width + x] == NewRayIntended(position, PixelDirection(x, y))
  {
    rays := [];
    for y := 0 to Height
      invariant |rays| == y * Width
      invariant forall y', x :: 0 <= y' < y && 0 <= x < Width ==>
                  rays[y' * Width + x] == NewRayIntended(position, PixelDirection(x, y'))
    {
      for x := 0 to Width
        invariant |rays| == y * Width + x
        invariant forall y', x' :: 0 <= y' < y && 0 <= x' < Width ==>
                    rays[y' * Width + x'] == NewRayIntended(position, PixelDirection(x', y'))
        invariant forall x' :: 0 <= x' < x ==>
                    rays[y * Width + x'] == NewRayIntended(position, PixelDirection(x', y))
      {
        rays := rays + [NewRayIntended(position, PixelDirection(x, y))];
      }
    }
  }

  /** The pixel a ray of `Render` belongs to: index `i` is pixel
      `(i % Width, i / Width)`, so each index names one pixel. */
  lemma RenderIndexIsPixel(i: nat)
    requires i < Width * Height
    ensures i / Width < Height && i % Width < Width
    ensures (i / Width) * Width + i % Width == i
  {
  }
}
