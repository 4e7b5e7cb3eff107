# Escape-time fractal renderer

A Dafny model of the renderer in `main.go`. The program draws the Mandelbrot
set and a Julia set (constant -0.7 + 0.27015i) on an 800 x 600 grid. Each
pixel is coloured by how fast the orbit of `z <- z*z + c` leaves the disc of
radius 2 within 1000 steps. The raster is then written as `<name>.png`.

The model has two modules:

- `Escape` (escape.dfy) holds the escape-time evaluators. Complex numbers are
  pairs of exact reals. The orbit is a recursive function (`Orbit`), and the
  escape loop has a recursive specification (`EscapeFrom`, `EscapeIndex`,
  `EscapeTime`). The Go loops of `mandelbrot` and `julia` differ only in the
  starting point and the constant. They become one loop method, `EscapeLoop`,
  proved equal to `EscapeTime`, and `Mandelbrot` and `Julia` call it with their
  starting values. The uint8 conversion is written out (`ToByte`), and the
  model proves that it never truncates.
- `Render` (render.dfy) holds the fill of `drawFractal`. `ToPlane` is the
  pixel-to-plane transform and `Select` is the name dispatch. `Colour` is the
  colour rule RGBA(v, 0, 255 - v, 255). `DrawFractal` allocates an
  `array2<Rgba>` of blank pixels and fills it column by column with nested
  loops. A name other than "mandelbrot" or "julia" panics at the first pixel.
  After the fill, the two `must` guards on file creation and PNG encoding run.
  Whether creation and encoding succeed is a parameter of `DrawFractal`.

Behaviour of `main.go` worth knowing:

- The step counter starts at 0 (`i := 0`). An orbit that escapes at the
  first step therefore gets intensity 0, like a point inside
  (`ImmediateEscapeLooksInside`). No intensity reaches 255.
- Pixel (0, 0) maps to -2 - 1.5i and pixel (799, 599) maps to 1.995 + 1.495i.
- Both axes are divided by the width, which gives square pixels: 0.005 per
  pixel on both axes (`PlaneSpacing`). The plane rectangle is 4 x 3, the same
  shape as the 800 x 600 grid.
- If encoding fails, the created file stays on disk, because the code does no
  clean-up. The outcome records this as `Panicked("failed to encode png", true)`.

## Model

| member | source | states |
|---|---|---|
| `Escape.StepExpanded` | main.go:26 | one step `z = z*z + c` takes (re, im) to (re*re - im*im + c.re, 2*re*im + c.im); the same step is used at main.go:37 |
| `Escape.Norm2` | main.go:27 | the squared modulus re*re + im*im is never negative |
| `Escape.EscapedBounds` | main.go:27 | the escape test `Escaped`, `re*re + im*im > 4`: every point outside the square [-2, 2] x [-2, 2] has escaped, and an escaped point has re*re > 2 or im*im > 2; the same test is used at main.go:38 |
| `Escape.ModulusTest` | main.go:27 | for any m >= 0 with m*m = re*re + im*im, the test `m > 2` holds exactly when `re*re + im*im > 4` |
| `Escape.EscapeFrom` | main.go:25-31 | the step the loop reports, if any, lies between the current counter and maxIter - 1 |
| `Escape.EscapeIndexCorrect` | main.go:25-31 | the loop reports Some(k) exactly when k is the first 0-based step after which the orbit has left the disc; it reports None exactly when none of the first maxIter steps leaves it |
| `Escape.ToByte` | main.go:28 | the uint8 conversion keeps the value modulo 256 and is the identity on 0..255 |
| `Escape.Quantize` | main.go:28 | for every step below maxIter the intensity is exactly 255 * i / maxIter and at most 254, so the uint8 conversion never wraps |
| `Escape.QuantizeMonotone` | main.go:28 | a later escape never gets a smaller intensity |
| `Escape.EscapeTime` | main.go:23-43 | the intensity of any orbit is at most 254 |
| `Escape.EscapeTimeMeaning` | main.go:25-31 | the intensity is 255 * k / maxIter for the first escape step k, and 0 when the orbit stays inside for maxIter steps |
| `Escape.ImmediateEscapeLooksInside` | main.go:25-28 | an orbit that escapes after the first step reports step 0 and intensity 0, the same intensity as a point inside |
| `Escape.NonzeroMeansLateEscape` | main.go:25-28 | with maxIter = 1000, a nonzero intensity means the orbit escaped, and at step 4 or later |
| `Escape.FixedPointStays` | main.go:25-31 | an orbit at a fixed point of the step inside the disc never escapes |
| `Escape.MandelbrotOrigin` | main.go:24-31 | the Mandelbrot orbit of c = 0 never escapes, so its intensity is 0 |
| `Escape.EscapeLoop` | main.go:25-31 | the loop returns EscapeTime of its start point and constant, which is at most 254 |
| `Escape.Mandelbrot` | main.go:23-32 | the orbit starts at 0 with the input as the constant; the result is at most 254, and 0 for input 0 |
| `Escape.Julia` | main.go:34-43 | the orbit starts at the input with constant -0.7 + 0.27015i; the result is at most 254 |
| `Render.Select` | main.go:57-64 | "mandelbrot" selects `MandelbrotSet` and "julia" selects `JuliaSet`; every other name selects nothing |
| `Render.Evaluate` | main.go:57-61 | the dispatched intensity is at most 254 |
| `Render.Colour` | main.go:66 | the pixel is red v, green 0, alpha 255, with red + blue = 255 |
| `Render.Must` | main.go:17-21 | the guard yields no error exactly when its condition holds, and its own message otherwise |
| `Render.DrawOutcome` | main.go:57-75 | a render writes `name.png` exactly when the name is known and creation and encoding succeed; an unknown name panics with no file created; a failed create panics with no file; a failed encode panics and leaves the created file behind, and only then is a file left behind |
| `Render.PixelColourLaw` | main.go:66 | every rendered pixel has red + blue = 255, green 0, alpha 255, red at most 254 and blue at least 1 |
| `Render.ToPlane` | main.go:52-53 | pixel (x, y) maps to ((x - 400) * 4 / 800, (y - 300) * 4 / 800), that is ((x - 400) / 200, (y - 300) / 200) |
| `Render.PlaneCorners` | main.go:52-53 | pixel (0, 0) maps to -2 - 1.5i and pixel (799, 599) maps to 1.995 + 1.495i |
| `Render.PlaneSpacing` | main.go:52-53 | neighbouring pixels are 0.005 apart on both axes; the real part depends only on x and the imaginary part only on y |
| `Render.PlaneBounds` | main.go:52-53 | every pixel maps into [-2, 2) x [-1.5, 1.5), and distinct pixels map to distinct points |
| `Render.UnknownNameFailsFirst` | main.go:57-71 | an unknown name panics with "unknown fractal type" whatever the file system would answer, and leaves every pixel blank |
| `Render.DrawFractal` | main.go:45-76 | the raster is 800 x 600; every pixel holds the selected fractal's colour at its plane point (blank for an unknown name); every pixel of a known fractal obeys the colour law; the outcome is DrawOutcome |

`DrawFractal` fixes every pixel as a function of the name alone. Two renders
of the same name therefore give the same raster.

## Left out

- float64 rounding and the square root inside `cmplx.Abs`. The model uses
  exact reals and the squared-norm test, so it claims no bit-exact agreement
  with the Go output. No orbit trace for a particular input is proved.
- The float64 literal -0.7 + 0.27015i is taken as the exact real it denotes.
- `os.Create`, `png.Encode` and `file.Close` are I/O. Whether the first two
  succeed is a parameter of `DrawFractal`, and the encoded bytes are not
  modelled.
- The internals of `image.NewRGBA` and `img.Set` (stride layout, bounds
  clipping) are not modelled. A 2D array of blank pixels stands in for them.
- The `must(img != nil, ...)` guard is not modelled, because allocation
  cannot fail in the model.
- `main` is not modelled as a method. Its checks are on the positive constants
  800, 600 and 1000. The escape-time specification takes the bound as a
  parameter with `maxIter > 0` as its precondition instead. Its two calls are
  `DrawFractal("mandelbrot", ...)` and `DrawFractal("julia", ...)`, and the
  second one runs only if the first does not panic.
- A panic ends the Go process. In the model it is an outcome returned to the
  caller.
