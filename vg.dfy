/** The few types of the plotting library's `vg` package (and of Go's
    `image/color`) that the canvas consumes. */
module Vg {

  /** A device-independent length, counted in points (1/72 inch). */
  type Length = real

  const PointsPerInch: real := 72.0

  /** `vg.Inches(x)`: the length of x inches. */
  function Inches(x: real): Length {
    x * PointsPerInch
  }

  /** `l.Dots(c)`: the length in pixels at the canvas resolution `dpi`. */
  function Dots(l: Length, dpi: real): real {
    l / PointsPerInch * dpi
  }

  /** A pixel count turned into a length with `Inches(px / dpi)` converts
      back to the same pixel count. */
  lemma DotsOfInches(px: real, dpi: real)
    requires dpi > 0.0
    ensures Dots(Inches(px / dpi), dpi) == px
  {
  }

  /** The other direction: a length converted to pixels and back is the
      same length. */
  lemma InchesOfDots(l: Length, dpi: real)
    requires dpi > 0.0
    ensures Inches(Dots(l, dpi) / dpi) == l
  {
  }

  /** The kinds of path component, in the order `vg` declares them. */
  const MoveComp: int := 0
  const LineComp: int := 1
  const ArcComp: int := 2
  const CloseComp: int := 3

  /** One component of a `vg.Path`. X and Y are the point (the centre for
      an arc); Start and Angle are the arc's start angle and sweep in radians. */
  datatype PathComp = PathComp(kind: int, x: Length, y: Length, radius: Length, start: real, angle: real)

  type Path = seq<PathComp>

  function PathMove(x: Length, y: Length): PathComp { PathComp(MoveComp, x, y, 0.0, 0.0, 0.0) }
  function PathLine(x: Length, y: Length): PathComp { PathComp(LineComp, x, y, 0.0, 0.0, 0.0) }
  function PathArc(x: Length, y: Length, r: Length, start: real, angle: real): PathComp { PathComp(ArcComp, x, y, r, start, angle) }
  function PathClose(): PathComp { PathComp(CloseComp, 0.0, 0.0, 0.0, 0.0, 0.0) }

  /** A `vg.Font`: its name (`font.Name()`) and size. The face it loads
      (`font.Font()`) is represented by the font value itself. */
  datatype Font = Font(name: string, size: Length)

  /** A `color.Color`, by the 16-bit RGBA values it reports. */
  datatype Color = Rgba(r: nat, g: nat, b: nat, a: nat)

  /** `color.Black`. */
  const Black: Color := Rgba(0, 0, 0, 0xffff)
}
