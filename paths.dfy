/** What `outline` emits for a path, as a function of the path: the
    specification the canvas's `Outline`, `Stroke` and `Fill` are proved
    against. */
module Paths {
  import opened Common
  import opened Vg
  import opened Draw2D

  /** The commands emitted, and the panic that cut them short, if any. */
  datatype Traced = Traced(cmds: seq<Command>, fault: Option<Fault>)

  predicate Known(kind: int) {
    kind == MoveComp || kind == LineComp || kind == ArcComp || kind == CloseComp
  }

  /** The backend command for one component, or None for an unknown kind. */
  function CompCommand(c: PathComp, dpi: real): (r: Option<Command>)
    ensures r.Some? <==> Known(c.kind)
    ensures r.Some? ==> KeepsDepth(r.value)
  {
    if c.kind == MoveComp then Some(MoveTo(Dots(c.x, dpi), Dots(c.y, dpi)))
    else if c.kind == LineComp then Some(LineTo(Dots(c.x, dpi), Dots(c.y, dpi)))
    else if c.kind == ArcComp then
      Some(ArcTo(Dots(c.x, dpi), Dots(c.y, dpi), Dots(c.radius, dpi), Dots(c.radius, dpi), c.start, c.angle))
    else if c.kind == CloseComp then Some(Close)
    else None
  }

  /** `outline`: BeginPath, then the components in order, stopping at the
      first one of unknown kind. */
  function Outline(p: Path, dpi: real): (r: Traced)
    ensures 1 <= |r.cmds| <= |p| + 1 && r.cmds[0] == BeginPath
    ensures r.fault.None? ==> |r.cmds| == |p| + 1
  {
    if p == [] then Traced([BeginPath], None)
    else
      var prev := Outline(p[..|p| - 1], dpi);
      if prev.fault.Some? then prev
      else match CompCommand(p[|p| - 1], dpi)
        case None => Traced(prev.cmds, Some(UnknownPathComponent(p[|p| - 1].kind)))
        case Some(c) => Traced(prev.cmds + [c], None)
  }

  /** The outline followed by the command that paints it (Stroke or Fill),
      which is not reached when the outline panics. */
  function Draw(p: Path, dpi: real, paint: Command): (r: Traced)
    ensures r.fault == Outline(p, dpi).fault
    ensures |r.cmds| >= 1 && r.cmds[0] == BeginPath
    ensures r.fault.None? ==> |r.cmds| == |p| + 2 && r.cmds[|r.cmds| - 1] == paint
  {
    var o := Outline(p, dpi);
    if o.fault.Some? then o else Traced(o.cmds + [paint], None)
  }

  /** One more component extends an outline that has not panicked:
      with its command when its kind is known, with a panic otherwise. */
  lemma OutlineStep(p: Path, i: nat, dpi: real)
    requires i < |p| && Outline(p[..i], dpi).fault == None
    ensures Known(p[i].kind) ==>
      Outline(p[..i + 1], dpi) == Traced(Outline(p[..i], dpi).cmds + [CompCommand(p[i], dpi).value], None)
    ensures !Known(p[i].kind) ==>
      Outline(p[..i + 1], dpi) == Traced(Outline(p[..i], dpi).cmds, Some(UnknownPathComponent(p[i].kind)))
  {
    assert p[..i + 1][..i] == p[..i];
  }

  /** A path of known components becomes BeginPath and exactly one command
      per component, in path order: coordinates and radii in pixels, arc
      angles unconverted. */
  lemma {:induction false} OutlineTranslates(p: Path, dpi: real)
    requires forall i :: 0 <= i < |p| ==> Known(p[i].kind)
    ensures var r := Outline(p, dpi);
      && r.fault == None
      && |r.cmds| == |p| + 1
      && r.cmds[0] == BeginPath
      && (forall i :: 0 <= i < |p| && p[i].kind == MoveComp ==>
            r.cmds[i + 1] == MoveTo(Dots(p[i].x, dpi), Dots(p[i].y, dpi)))
      && (forall i :: 0 <= i < |p| && p[i].kind == LineComp ==>
            r.cmds[i + 1] == LineTo(Dots(p[i].x, dpi), Dots(p[i].y, dpi)))
      && (forall i :: 0 <= i < |p| && p[i].kind == ArcComp ==>
            r.cmds[i + 1] == ArcTo(Dots(p[i].x, dpi), Dots(p[i].y, dpi),
                                   Dots(p[i].radius, dpi), Dots(p[i].radius, dpi),
                                   p[i].start, p[i].angle))
      && (forall i :: 0 <= i < |p| && p[i].kind == CloseComp ==> r.cmds[i + 1] == Close)
  {
    OutlineAt(p, dpi);
  }

  lemma {:induction false} OutlineAt(p: Path, dpi: real)
    requires forall i :: 0 <= i < |p| ==> Known(p[i].kind)
    ensures var r := Outline(p, dpi);
      && r.fault == None && |r.cmds| == |p| + 1 && r.cmds[0] == BeginPath
      && forall i :: 0 <= i < |p| ==> Some(r.cmds[i + 1]) == CompCommand(p[i], dpi)
  {
    if p != [] {
      var p' := p[..|p| - 1];
      assert forall i :: 0 <= i < |p'| ==> p'[i] == p[i];
      OutlineAt(p', dpi);
    }
  }

  /** Once a prefix of the path has panicked, the rest of the path adds
      nothing. */
  lemma {:induction false} OutlineFaultStable(p: Path, dpi: real, j: nat)
    requires j <= |p|
    requires Outline(p[..j], dpi).fault.Some?
    ensures Outline(p, dpi) == Outline(p[..j], dpi)
    decreases |p| - j
  {
    if j == |p| {
      assert p[..j] == p;
    } else {
      var p' := p[..|p| - 1];
      assert p'[..j] == p[..j];
      OutlineFaultStable(p', dpi, j);
    }
  }

  /** The first component of unknown kind panics: the commands emitted
      are those of the components before it, and nothing after it is emitted. */
  lemma OutlineFaultsAtFirstUnknown(p: Path, dpi: real, j: nat)
    requires j < |p| && !Known(p[j].kind)
    requires forall i :: 0 <= i < j ==> Known(p[i].kind)
    ensures Outline(p, dpi) == Traced(Outline(p[..j], dpi).cmds, Some(UnknownPathComponent(p[j].kind)))
  {
    var q := p[..j + 1];
    assert q[..|q| - 1] == p[..j];
    assert forall i :: 0 <= i < j ==> p[..j][i] == p[i];
    OutlineAt(p[..j], dpi);
    OutlineFaultStable(p, dpi, j + 1);
  }

  /** `outline` panics exactly when some component has an unknown kind. */
  lemma {:induction false} OutlineFaultIff(p: Path, dpi: real)
    ensures Outline(p, dpi).fault.None? <==> forall i :: 0 <= i < |p| ==> Known(p[i].kind)
  {
    if p != [] {
      var p' := p[..|p| - 1];
      assert forall i :: 0 <= i < |p'| ==> p'[i] == p[i];
      OutlineFaultIff(p', dpi);
    }
  }

  /** An outline never saves or restores backend state. */
  lemma {:induction false} OutlineKeepsDepth(p: Path, dpi: real)
    ensures forall i :: 0 <= i < |Outline(p, dpi).cmds| ==> KeepsDepth(Outline(p, dpi).cmds[i])
  {
    if p != [] {
      OutlineKeepsDepth(p[..|p| - 1], dpi);
    }
  }

  /** Stroking or filling leaves the backend's save depth as it was. */
  lemma DrawKeepsDepth(t: seq<Command>, p: Path, dpi: real, paint: Command)
    requires KeepsDepth(paint)
    ensures Depth(t + Draw(p, dpi, paint).cmds) == Depth(t)
  {
    OutlineKeepsDepth(p, dpi);
    var cmds := Draw(p, dpi, paint).cmds;
    assert forall i :: 0 <= i < |cmds| ==> KeepsDepth(cmds[i]);
    DepthNeutral(t, cmds);
  }

  /** A path of known components is drawn as BeginPath, one command per
      component, and the painting command last, whatever that command is. */
  lemma DrawShape(p: Path, dpi: real, paint: Command)
    requires forall i :: 0 <= i < |p| ==> Known(p[i].kind)
    ensures var r := Draw(p, dpi, paint);
      && r.fault == None
      && |r.cmds| == |p| + 2
      && r.cmds[0] == BeginPath
      && r.cmds[|p| + 1] == paint
      && r.cmds[..|p| + 1] == Outline(p, dpi).cmds
  {
    OutlineAt(p, dpi);
  }

  /** Move(0,0), Line(10,0), Line(10,10), Close stroked at 96 dpi: three
      vertices of an L closed back to the origin, 10 points being 40/3 pixels. */
  lemma StrokedCorner()
    ensures Draw([PathMove(0.0, 0.0), PathLine(10.0, 0.0), PathLine(10.0, 10.0), PathClose()], 96.0, Stroke).cmds
         == [BeginPath, MoveTo(0.0, 0.0), LineTo(40.0 / 3.0, 0.0), LineTo(40.0 / 3.0, 40.0 / 3.0), Close, Stroke]
  {
    var p := [PathMove(0.0, 0.0), PathLine(10.0, 0.0), PathLine(10.0, 10.0), PathClose()];
    DrawShape(p, 96.0, Stroke);
    OutlineTranslates(p, 96.0);
    var cmds := Draw(p, 96.0, Stroke).cmds;
    var o := Outline(p, 96.0).cmds;
    assert p[0].kind == MoveComp && p[1].kind == LineComp && p[2].kind == LineComp && p[3].kind == CloseComp;
    assert cmds[..5] == o;
    assert o[1] == MoveTo(0.0, 0.0) && o[2] == LineTo(40.0 / 3.0, 0.0);
    assert o[3] == LineTo(40.0 / 3.0, 40.0 / 3.0) && o[4] == Close;
    assert cmds[1] == MoveTo(0.0, 0.0);
    assert cmds[2] == LineTo(40.0 / 3.0, 0.0);
    assert cmds[3] == LineTo(40.0 / 3.0, 40.0 / 3.0);
  }
}
