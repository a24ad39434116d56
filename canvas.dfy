/** `XImgCanvas`: the `vg.Canvas` implementation on top of a draw2d graphic
    context. Its colour stack is kept step for step with the backend's
    save/restore stack. */
module Canvas {
  import opened Common
  import opened Vg
  import opened Draw2D
  import Paths
  import Fonts

  /** `dpi`: the canvas resolution in dots per inch. */
  const Dpi: int := 96

  class XImgCanvas {
    const gc: GraphicContext
    const fonts: Fonts.FontRegistry
    /** The physical size of the canvas. */
    const w: Length
    const h: Length
    /** The colour stack; its top is the current colour. */
    var color: seq<Color>
    /** The current line width. */
    var width: Length

    /** The pixel bounds of the image drawn on. */
    ghost const pixelWidth: nat
    ghost const pixelHeight: nat

    /** The colour stack has one entry more than the backend has saved
        states, so it is never empty; counted over the trace, its length is
        1 + saves - restores. The backend's resolution is `Dpi`. */
    ghost predicate Valid()
      reads this, gc
    {
      && gc.Valid()
      && gc.dpi == Dpi
      && |color| == gc.depth + 1
      && Restores(gc.trace) <= Saves(gc.trace)
      && |color| + Restores(gc.trace) == 1 + Saves(gc.trace)
      && w == Inches(pixelWidth as real / Dpi as real)
      && h == Inches(pixelHeight as real / Dpi as real)
    }

    /** `NewImage`, for an image of the given pixel bounds: the backend is
        set to `Dpi` and its y axis flipped to point up, the colour stack
        holds black alone and the line width is zero. Opening the X
        connection and the window is not modelled. */
    constructor NewImage(imageWidth: nat, imageHeight: nat, registry: Fonts.FontRegistry)
      ensures Valid() && fresh(gc) && fonts == registry
      ensures gc.trace == [SetDpi(Dpi), Command.Scale(1.0, -1.0), Command.Translate(0.0, -(imageHeight as real))]
      ensures color == [Black] && width == 0.0
      ensures pixelWidth == imageWidth && pixelHeight == imageHeight
    {
      var wd := imageWidth as real;
      var ht := imageHeight as real;
      var g := new GraphicContext();
      g.SetDPI(Dpi);
      g.Emit(Command.Scale(1.0, -1.0));
      g.Emit(Command.Translate(0.0, -ht));
      gc := g;
      fonts := registry;
      w := Inches(wd / Dpi as real);
      h := Inches(ht / Dpi as real);
      color := [Black];
      width := 0.0;
      pixelWidth := imageWidth;
      pixelHeight := imageHeight;
    }

    /** The resolution the backend was set to. */
    function DPI(): (r: real)
      reads this, gc
      requires gc.dpi == Dpi
      ensures r == Dpi as real
    {
      gc.GetDPI() as real
    }

    /** The physical size, which converts back to the image's pixel bounds. */
    function Size(): (r: (Length, Length))
      reads this, gc
      requires Valid()
      ensures Dots(r.0, DPI()) == pixelWidth as real
      ensures Dots(r.1, DPI()) == pixelHeight as real
    {
      DotsOfInches(pixelWidth as real, Dpi as real);
      DotsOfInches(pixelHeight as real, Dpi as real);
      (w, h)
    }

    method SetLineWidth(lw: Length)
      requires Valid()
      modifies this`width, gc
      ensures Valid()
      ensures width == lw
      ensures gc.trace == old(gc.trace) + [Command.SetLineWidth(Dots(lw, DPI()))]
    {
      width := lw;
      gc.Emit(Command.SetLineWidth(Dots(lw, DPI())));
    }

    /** Forwards the dash lengths, in order and each in pixels, with the
        offset in pixels. */
    method SetLineDash(ds: seq<Length>, offs: Length)
      requires Valid()
      modifies gc
      ensures Valid()
      ensures |gc.trace| == |old(gc.trace)| + 1 && gc.trace[..|old(gc.trace)|] == old(gc.trace)
      ensures var last := gc.trace[|gc.trace| - 1];
        && last.SetLineDash?
        && |last.dashes| == |ds|
        && (forall i :: 0 <= i < |ds| ==> last.dashes[i] == Dots(ds[i], DPI()))
        && last.offset == Dots(offs, DPI())
    {
      var dashes := new real[|ds|];
      for i := 0 to |ds|
        modifies dashes
        invariant forall k :: 0 <= k < i ==> dashes[k] == Dots(ds[k], DPI())
      {
        dashes[i] := Dots(ds[i], DPI());
      }
      gc.Emit(Command.SetLineDash(dashes[..], Dots(offs, DPI())));
    }

    /** Sets fill and stroke colour to `clr`, black for nil, and makes it
        the top of the colour stack; the entries below are untouched. */
    method SetColor(clr: Option<Color>)
      requires Valid()
      modifies this`color, gc
      ensures Valid()
      ensures var c := if clr.None? then Black else clr.value;
        && gc.trace == old(gc.trace) + [SetFillColor(c), SetStrokeColor(c)]
        && |color| == |old(color)|
        && color[|color| - 1] == c
        && color[..|color| - 1] == old(color)[..|old(color)| - 1]
    {
      var c := if clr.None? then Black else clr.value;
      gc.Emit(SetFillColor(c));
      gc.Emit(SetStrokeColor(c));
      assert gc.depth == old(gc.depth);
      color := color[|color| - 1 := c];
    }

    method Rotate(t: real)
      requires Valid()
      modifies gc
      ensures Valid()
      ensures gc.trace == old(gc.trace) + [Command.Rotate(t)]
    {
      gc.Emit(Command.Rotate(t));
    }

    method Translate(x: Length, y: Length)
      requires Valid()
      modifies gc
      ensures Valid()
      ensures gc.trace == old(gc.trace) + [Command.Translate(Dots(x, DPI()), Dots(y, DPI()))]
    {
      gc.Emit(Command.Translate(Dots(x, DPI()), Dots(y, DPI())));
    }

    method Scale(x: real, y: real)
      requires Valid()
      modifies gc
      ensures Valid()
      ensures gc.trace == old(gc.trace) + [Command.Scale(x, y)]
    {
      gc.Emit(Command.Scale(x, y));
    }

    /** Duplicates the current colour and saves the backend state: one
        more entry on the colour stack and one more saved backend state. */
    method Push()
      requires Valid()
      modifies this`color, gc
      ensures Valid()
      ensures color == old(color) + [old(color)[|old(color)| - 1]]
      ensures gc.trace == old(gc.trace) + [Save]
      ensures gc.depth == old(gc.depth) + 1
    {
      color := color + [color[|color| - 1]];
      gc.Emit(Save);
    }

    /** Drops the top colour and restores the backend state. The base
        colour is never popped. */
    method Pop()
      requires Valid()
      requires |color| > 1
      modifies this`color, gc
      ensures Valid()
      ensures color == old(color)[..|old(color)| - 1]
      ensures gc.trace == old(gc.trace) + [Restore]
      ensures gc.depth == old(gc.depth) - 1
    {
      color := color[..|color| - 1];
      gc.Emit(Restore);
    }

    /** Strokes the path, or does nothing at all when the line width is
        exactly zero. */
    method Stroke(p: Path) returns (fault: Option<Fault>)
      requires Valid()
      modifies gc
      ensures Valid()
      ensures width == 0.0 ==> gc.trace == old(gc.trace) && fault == None
      ensures width != 0.0 ==>
        && gc.trace == old(gc.trace) + Paths.Draw(p, DPI(), Command.Stroke).cmds
        && fault == Paths.Draw(p, DPI(), Command.Stroke).fault
    {
      if width == 0.0 {
        return None;
      }
      fault := Outline(p);
      if fault.Some? {
        return;
      }
      gc.Emit(Command.Stroke);
    }

    /** Fills the path, whatever the line width. */
    method Fill(p: Path) returns (fault: Option<Fault>)
      requires Valid()
      modifies gc
      ensures Valid()
      ensures gc.trace == old(gc.trace) + Paths.Draw(p, DPI(), Command.Fill).cmds
      ensures fault == Paths.Draw(p, DPI(), Command.Fill).fault
    {
      fault := Outline(p);
      if fault.Some? {
        return;
      }
      gc.Emit(Command.Fill);
    }

    /** `outline`: begins a backend path and emits one command per
        component, panicking at the first component of unknown kind. */
    method Outline(p: Path) returns (fault: Option<Fault>)
      requires Valid()
      modifies gc
      ensures Valid()
      ensures gc.trace == old(gc.trace) + Paths.Outline(p, DPI()).cmds
      ensures fault == Paths.Outline(p, DPI()).fault
    {
      var dpi := DPI();
      gc.Emit(BeginPath);
      var i := 0;
      while i < |p|
        invariant i <= |p|
        invariant gc.Valid() && gc.dpi == Dpi && gc.depth == old(gc.depth)
        invariant Saves(gc.trace) == Saves(old(gc.trace)) && Restores(gc.trace) == Restores(old(gc.trace))
        invariant Paths.Outline(p[..i], dpi).fault == None
        invariant gc.trace == old(gc.trace) + Paths.Outline(p[..i], dpi).cmds
      {
        Paths.OutlineStep(p, i, dpi);
        var known := EmitComponent(p[i], dpi);
        if !known {
          Paths.OutlineFaultStable(p, dpi, i + 1);
          return Some(UnknownPathComponent(p[i].kind));
        }
        i := i + 1;
      }
      assert p[..|p|] == p;
      fault := None;
    }

    /** The switch of `outline` on one component: emits its command, or
        nothing for an unknown kind. */
    method EmitComponent(comp: PathComp, dpi: real) returns (known: bool)
      requires gc.Valid()
      modifies gc
      ensures gc.Valid() && gc.dpi == old(gc.dpi) && gc.depth == old(gc.depth)
      ensures Saves(gc.trace) == Saves(old(gc.trace)) && Restores(gc.trace) == Restores(old(gc.trace))
      ensures known == Paths.Known(comp.kind)
      ensures gc.trace == old(gc.trace) + (if known then [Paths.CompCommand(comp, dpi).value] else [])
    {
      known := true;
      if comp.kind == MoveComp {
        gc.Emit(MoveTo(Dots(comp.x, dpi), Dots(comp.y, dpi)));
      } else if comp.kind == LineComp {
        gc.Emit(LineTo(Dots(comp.x, dpi), Dots(comp.y, dpi)));
      } else if comp.kind == ArcComp {
        gc.Emit(ArcTo(Dots(comp.x, dpi), Dots(comp.y, dpi),
                      Dots(comp.radius, dpi), Dots(comp.radius, dpi),
                      comp.start, comp.angle));
      } else if comp.kind == CloseComp {
        gc.Emit(Close);
      } else {
        known := false;
      }
    }

    /** Draws `text` at (x, y) in font `font`, registering the font with
        draw2d the first time its name is seen. The backend state is saved
        first and restored on every exit, the panic on an unknown font name
        included. */
    method FillString(font: Font, x: Length, y: Length, text: string) returns (fault: Option<Fault>)
      requires Valid()
      modifies gc, fonts
      ensures Valid()
      ensures var e := Fonts.FillStringEffect(old(fonts.registered), font, x, y, text, DPI());
        && gc.trace == old(gc.trace) + e.cmds
        && fonts.registered == e.registered
        && fault == e.fault
    {
      gc.Emit(Save);
      if font.name !in Fonts.FontMap {
        gc.Emit(Restore);
        return Some(UnknownFont(font.name));
      }
      var data := Fonts.FontMap[font.name];
      RegisterOnce(data, font);
      DrawString(data, x, y, text);
      gc.Emit(Restore);
      fault := None;
    }

    /** Registers the font with draw2d unless its name is already in the
        process-wide registry, and records the name there. */
    method RegisterOnce(data: FontData, font: Font)
      requires gc.Valid()
      modifies gc, fonts
      ensures gc.Valid() && gc.dpi == old(gc.dpi) && gc.depth == old(gc.depth)
      ensures Saves(gc.trace) == Saves(old(gc.trace)) && Restores(gc.trace) == Restores(old(gc.trace))
      ensures gc.trace == old(gc.trace) + (if font.name in old(fonts.registered) then [] else [RegisterFont(data, font)])
      ensures fonts.registered == old(fonts.registered) + {font.name}
    {
      if font.name !in fonts.registered {
        gc.Emit(RegisterFont(data, font));
        fonts.registered := fonts.registered + {font.name};
      }
    }

    /** The body of `FillString` once the font is resolved. */
    method DrawString(data: FontData, x: Length, y: Length, text: string)
      requires gc.Valid() && gc.dpi == Dpi
      modifies gc
      ensures gc.Valid() && gc.dpi == Dpi && gc.depth == old(gc.depth)
      ensures Saves(gc.trace) == Saves(old(gc.trace)) && Restores(gc.trace) == Restores(old(gc.trace))
      ensures gc.trace == old(gc.trace) + Fonts.Drawn(data, x, y, text, DPI())
    {
      gc.Emit(SetFontData(data));
      gc.Emit(Command.Translate(Dots(x, DPI()), Dots(y, DPI())));
      gc.Emit(Command.Scale(1.0, -1.0));
      gc.Emit(Command.FillString(text));
    }
  }
}
