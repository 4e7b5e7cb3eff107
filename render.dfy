/** The raster renderer: maps every pixel of the 800 x 600 grid to a point of
 *  the complex plane, evaluates the selected fractal there and stores the
 *  colour in an RGBA raster, then hands the raster to the file writer.
 */
module Render {
  import opened Escape

  const Width: nat := 800
  const Height: nat := 600

  /** One RGBA pixel, eight bits per channel. */
  datatype Rgba = Rgba(r: Byte, g: Byte, b: Byte, a: Byte)

  /** The colour of every pixel of a freshly allocated raster. */
  const Blank := Rgba(0, 0, 0, 0)

  /** The fractals the renderer knows by name. */
  datatype Fractal = MandelbrotSet | JuliaSet

  /** The name dispatch of the fill loop. */
  function Select(name: string): (f: Option<Fractal>)
    ensures f == Some(MandelbrotSet) <==> name == "mandelbrot"
    ensures f == Some(JuliaSet) <==> name == "julia"
    ensures f == None <==> name != "mandelbrot" && name != "julia"
  {
    if name == "mandelbrot" then Some(MandelbrotSet)
    else if name == "julia" then Some(JuliaSet)
    else None
  }

  /** The intensity of the selected fractal at point z. */
  function Evaluate(f: Fractal, z: Complex): (v: Byte)
    ensures v <= 254
  {
    match f
    case MandelbrotSet => EscapeTime(Zero, z, MaxIter)
    case JuliaSet => EscapeTime(z, JuliaC, MaxIter)
  }

  /** The point of the complex plane that pixel (x, y) stands for. Both axes
   *  are scaled by 4 / Width. */
  function ToPlane(x: int, y: int): (z: Complex)
    ensures z.re == (x - 400) as real / 200.0
    ensures z.im == (y - 300) as real / 200.0
  {
    Complex((x - Width / 2) as real * 4.0 / Width as real,
            (y - Height / 2) as real * 4.0 / Width as real)
  }

  /** The colour of intensity v: red v, no green, blue 255 - v, fully opaque. */
  function Colour(v: Byte): (p: Rgba)
    ensures p.r == v && p.g == 0 && p.a == 255
    ensures p.r + p.b == 255
  {
    Rgba(v, 0, 255 - v, 255)
  }

  /** The colour of pixel (x, y) of fractal f. */
  function PixelColour(f: Fractal, x: int, y: int): Rgba {
    Colour(Evaluate(f, ToPlane(x, y)))
  }

  /** The colour pixel (x, y) holds once the fill for `name` is over: the
   *  fractal's colour for a known name, the blank colour otherwise. */
  function Painted(name: string, x: int, y: int): Rgba {
    match Select(name)
    case Some(f) => PixelColour(f, x, y)
    case None => Blank
  }

  /** How a render ends: a panic with its message (and whether the output file
   *  had been created by then), or the file the raster was written to. */
  datatype Outcome = Panicked(msg: string, created: bool) | Written(file: string)

  /** The `must` guard: no error when the condition holds, the message otherwise. */
  function Must(cond: bool, msg: string): (err: Option<string>)
    ensures err == None <==> cond
    ensures err.Some? ==> err.value == msg
  {
    if cond then None else Some(msg)
  }

  /** The outcome of a render of `name`, given whether creating and encoding
   *  the output file succeed. */
  function DrawOutcome(name: string, createOk: bool, encodeOk: bool): (o: Outcome)
    ensures o.Written? <==> Select(name).Some? && createOk && encodeOk
    ensures o.Written? ==> o.file == name + ".png"
    ensures Select(name).None? ==> o == Panicked("unknown fractal type", false)
    ensures o.Panicked? && o.created ==> Select(name).Some? && createOk && !encodeOk
    ensures Select(name).Some? && !createOk ==> o == Panicked("failed to create file", false)
    ensures Select(name).Some? && createOk && !encodeOk ==> o == Panicked("failed to encode png", true)
  {
    if Select(name).None? then Panicked("unknown fractal type", false)
    else if !createOk then Panicked("failed to create file", false)
    else if !encodeOk then Panicked("failed to encode png", true)
    else Written(name + ".png")
  }

  /** Every pixel of a finished raster obeys the colour law: red + blue = 255,
   *  no green, fully opaque, and blue at least 1 since the intensity is at most 254. */
  lemma PixelColourLaw(f: Fractal, x: int, y: int)
    ensures var p := PixelColour(f, x, y);
      p.r + p.b == 255 && p.g == 0 && p.a == 255 && p.r <= 254 && p.b >= 1
  {
  }

  /** The corner pixels map to -2 - 1.5i and 1.995 + 1.495i. */
  lemma PlaneCorners()
    ensures ToPlane(0, 0) == Complex(-2.0, -1.5)
    ensures ToPlane(Width - 1, Height - 1) == Complex(1.995, 1.495)
  {
  }

  /** Adjacent pixels are 0.005 apart on both axes (both are scaled by 4 / Width),
   *  the real part depends only on x and the imaginary part only on y. */
  lemma PlaneSpacing(x: int, y: int, x': int, y': int)
    ensures ToPlane(x + 1, y).re - ToPlane(x, y).re == 0.005
    ensures ToPlane(x, y + 1).im - ToPlane(x, y).im == 0.005
    ensures ToPlane(x, y).re == ToPlane(x, y').re
    ensures ToPlane(x, y).im == ToPlane(x', y).im
  {
  }

  /** The raster covers the rectangle [-2, 2) x [-1.5, 1.5), one point per pixel. */
  lemma PlaneBounds(x: int, y: int, x': int, y': int)
    requires 0 <= x < Width && 0 <= y < Height
    ensures -2.0 <= ToPlane(x, y).re < 2.0
    ensures -1.5 <= ToPlane(x, y).im < 1.5
    ensures ToPlane(x, y) == ToPlane(x', y') ==> x == x' && y == y'
  {
  }

  /** An unknown name panics before any file exists, whatever the file system would do. */
  lemma UnknownNameFailsFirst(name: string, createOk: bool, encodeOk: bool)
    requires name != "mandelbrot" && name != "julia"
    ensures DrawOutcome(name, createOk, encodeOk) == Panicked("unknown fractal type", false)
    ensures forall x, y :: Painted(name, x, y) == Blank
  {
  }

  /** Render the fractal called `name`: fill an 800 x 600 raster column by
   *  column, then write it to `name`.png. createOk and encodeOk stand for the
   *  answers of the file system and of the PNG encoder. */
  method DrawFractal(name: string, createOk: bool, encodeOk: bool) returns (img: array2<Rgba>, outcome: Outcome)
    ensures fresh(img) && img.Length0 == Width && img.Length1 == Height
    ensures outcome == DrawOutcome(name, createOk, encodeOk)
    ensures forall x, y :: 0 <= x < Width && 0 <= y < Height ==> img[x, y] == Painted(name, x, y)
    ensures Select(name).Some? ==>
      forall x, y :: 0 <= x < Width && 0 <= y < Height ==>
        img[x, y].r + img[x, y].b == 255 && img[x, y].g == 0 && img[x, y].a == 255 && img[x, y].b >= 1
  {
    img := new Rgba[Width, Height]((_, _) => Blank);
    for x := 0 to Width
      invariant x > 0 ==> Select(name).Some?
      invariant forall i, j :: 0 <= i < Width && 0 <= j < Height ==>
        img[i, j] == if i < x then Painted(name, i, j) else Blank
    {
      for y := 0 to Height
        invariant x > 0 || y > 0 ==> Select(name).Some?
        invariant forall i, j :: 0 <= i < Width && 0 <= j < Height ==>
          img[i, j] == if i < x || (i == x && j < y) then Painted(name, i, j) else Blank
      {
        var z := ToPlane(x, y);
        var v: Byte;
        if name == "mandelbrot" {
          v := Mandelbrot(z);
        } else if name == "julia" {
          v := Julia(z);
        } else {
          return img, Panicked("unknown fractal type", false);
        }
        img[x, y] := Colour(v);
      }
    }
    forall x, y | 0 <= x < Width && 0 <= y < Height && Select(name).Some?
      ensures img[x, y].r + img[x, y].b == 255 && img[x, y].g == 0 && img[x, y].a == 255 && img[x, y].b >= 1
    {
      PixelColourLaw(Select(name).value, x, y);
    }
    var err := Must(createOk, "failed to create file");
    if err.Some? {
      return img, Panicked(err.value, false);
    }
    err := Must(encodeOk, "failed to encode png");
    if err.Some? {
      return img, Panicked(err.value, true);
    }
    outcome := Written(name + ".png");
  }
}
