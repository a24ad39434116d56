/** The draw2d graphic context, seen from the canvas: every call the canvas
    makes on it is appended to a command trace. Rasterising, matrix
    composition and text shaping stay inside the backend. */
module Draw2D {
  import opened Vg

  datatype FontFamily = FontFamilySans | FontFamilySerif | FontFamilyMono

  /** The style bits of `draw2d.FontStyle`; the normal style is the empty set. */
  datatype StyleFlag = FontStyleBold | FontStyleItalic

  datatype FontData = FontData(name: string, family: FontFamily, style: set<StyleFlag>)

  /** One call on the backend. All coordinates and lengths are in pixels. */
  datatype Command =
    | SetDpi(dpi: int)
    | Save
    | Restore
    | SetLineWidth(width: real)
    | SetLineDash(dashes: seq<real>, offset: real)
    | SetFillColor(fill: Color)
    | SetStrokeColor(stroke: Color)
    | Rotate(angle: real)
    | Translate(tx: real, ty: real)
    | Scale(sx: real, sy: real)
    | BeginPath
    | MoveTo(x: real, y: real)
    | LineTo(x: real, y: real)
    | ArcTo(cx: real, cy: real, rx: real, ry: real, startAngle: real, sweep: real)
    | Close
    | Stroke
    | Fill
    | RegisterFont(data: FontData, font: Font)
    | SetFontData(data: FontData)
    | FillString(text: string)

  /** The save depth after one command; restoring with nothing saved
      leaves the backend as it is. */
  function StepDepth(d: nat, c: Command): nat {
    if c.Save? then d + 1
    else if c.Restore? then (if d == 0 then 0 else d - 1)
    else d
  }

  /** The save depth of the backend after the commands of `t`. */
  function Depth(t: seq<Command>): nat {
    if t == [] then 0 else StepDepth(Depth(t[..|t| - 1]), t[|t| - 1])
  }

  /** Commands that touch neither end of the save/restore stack. */
  predicate KeepsDepth(c: Command) {
    !c.Save? && !c.Restore?
  }

  lemma DepthSnoc(t: seq<Command>, c: Command)
    ensures Depth(t + [c]) == StepDepth(Depth(t), c)
  {
  }

  /** Appending commands that keep the depth leaves the depth unchanged. */
  lemma {:induction false} DepthNeutral(t: seq<Command>, u: seq<Command>)
    requires forall i :: 0 <= i < |u| ==> KeepsDepth(u[i])
    ensures Depth(t + u) == Depth(t)
  {
    if u == [] {
      assert t + u == t;
    } else {
      var u' := u[..|u| - 1];
      assert t + u == (t + u') + [u[|u| - 1]];
      DepthNeutral(t, u');
      DepthSnoc(t + u', u[|u| - 1]);
    }
  }

  /** The numbers of saves and of restores in a trace. */
  function Saves(t: seq<Command>): nat {
    if t == [] then 0 else Saves(t[..|t| - 1]) + (if t[|t| - 1].Save? then 1 else 0)
  }

  function Restores(t: seq<Command>): nat {
    if t == [] then 0 else Restores(t[..|t| - 1]) + (if t[|t| - 1].Restore? then 1 else 0)
  }

  lemma CountsSnoc(t: seq<Command>, c: Command)
    ensures Saves(t + [c]) == Saves(t) + (if c.Save? then 1 else 0)
    ensures Restores(t + [c]) == Restores(t) + (if c.Restore? then 1 else 0)
  {
    assert (t + [c])[..|t + [c]| - 1] == t;
  }

  /** When no prefix of the trace restores more often than it saves, the
      save depth is the number of saves less the number of restores. */
  lemma {:induction false} DepthCounts(t: seq<Command>)
    requires forall k :: 0 <= k <= |t| ==> Restores(t[..k]) <= Saves(t[..k])
    ensures Depth(t) == Saves(t) - Restores(t)
  {
    if t != [] {
      var t' := t[..|t| - 1];
      forall k | 0 <= k <= |t'|
        ensures Restores(t'[..k]) <= Saves(t'[..k])
      {
        assert t'[..k] == t[..k];
      }
      DepthCounts(t');
      assert t[..|t|] == t;
    }
  }

  /** The backend graphic context. `depth` is the backend's save depth,
      kept step for step with the trace. */
  class GraphicContext {
    var trace: seq<Command>
    var dpi: int
    ghost var depth: nat

    ghost predicate Valid()
      reads this
    {
      depth == Depth(trace)
    }

    /** A fresh context, as `draw2d.NewGraphicContextWithPainter` returns
        it; its initial resolution is the backend's own and is overwritten
        by the canvas at once. */
    constructor ()
      ensures Valid() && trace == [] && depth == 0
      ensures Saves(trace) == 0 && Restores(trace) == 0
    {
      trace := [];
      depth := 0;
    }

    /** One backend call other than `SetDPI`. */
    method Emit(c: Command)
      requires Valid()
      modifies this
      ensures Valid()
      ensures trace == old(trace) + [c]
      ensures depth == StepDepth(old(depth), c)
      ensures Saves(trace) == Saves(old(trace)) + (if c.Save? then 1 else 0)
      ensures Restores(trace) == Restores(old(trace)) + (if c.Restore? then 1 else 0)
      ensures dpi == old(dpi)
    {
      DepthSnoc(trace, c);
      CountsSnoc(trace, c);
      trace := trace + [c];
      depth := StepDepth(depth, c);
    }

    method SetDPI(d: int)
      requires Valid()
      modifies this
      ensures Valid()
      ensures trace == old(trace) + [SetDpi(d)]
      ensures depth == old(depth) && dpi == d
      ensures Saves(trace) == Saves(old(trace)) && Restores(trace) == Restores(old(trace))
    {
      DepthSnoc(trace, SetDpi(d));
      CountsSnoc(trace, SetDpi(d));
      trace := trace + [SetDpi(d)];
      dpi := d;
    }

    function GetDPI(): int
      reads this
    {
      dpi
    }
  }
}
