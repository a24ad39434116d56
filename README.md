# A verified model of the `XImgCanvas` canvas adapter

`XImgCanvas` implements the plotting library's `vg.Canvas` on top of a
draw2d graphic context that paints into an X window.

The model describes the backend context by the calls the canvas makes on
it. `Draw2D.GraphicContext` keeps an appended trace of `Save`, `Restore`,
`SetFillColor`, `MoveTo`, `ArcTo`, `FillString` and the other calls. It also
keeps a ghost counter of the backend's save depth, tied to the trace by
`Draw2D.Depth`. `RegisterFont` is a package-level draw2d call, not a call on
the context, and it changes process-wide state that `Restore` does not undo.
The trace records it anyway, in the order it happens.

`Canvas.XImgCanvas` is a class with the adapter's own state:
- the colour stack;
- the current line width;
- the shared registry of fonts already registered with draw2d.

Every method states the canvas state and the trace it leaves. The object
invariant `Valid()` says that the colour stack has exactly one entry more
than the backend has saved states. Counted over the whole trace, the stack
length is 1 + saves - restores, with FillString's own Save and Restore
included. Every method keeps that invariant.

What the commands are is specified by pure functions:
- `Paths.Outline` gives what `outline` emits for a path, and
  `Paths.Draw` gives the outline followed by Stroke or Fill;
- `Fonts.FillStringEffect` gives what `FillString` emits and how it
  changes the registry.

Lemmas about these functions prove the properties worth knowing:
- one command per path component, in order;
- the panic at the first component of unknown kind;
- save depth preserved by stroking, filling and text;
- each font name registered with draw2d once.

Go panics are returned as `Option<Fault>`. The trace keeps what was emitted
before the panic. For an unknown font name this includes the deferred
`Restore`, which runs while the panic unwinds.

Lengths are `real`. `Vg.Dots(l, dpi)` is the only conversion from lengths to
pixels. Coordinates, radii, dash lengths and translations go through it.
Arc angles and rotate and scale factors do not.

The `vg` package is not part of this model. The model relies on three of its
conventions:
- a `vg.Length` counts points of 1/72 inch;
- the path component kinds are numbered Move = 0, Line = 1, Arc = 2,
  Close = 3;
- `color.Black` reports RGBA (0, 0, 0, 0xffff).

draw2d is not part of this model either. Its `Restore` with nothing saved is
taken to leave the depth at zero. The modelled canvas never makes that call,
because `Pop` requires a second colour.

Points of the code that the model keeps, and the one place it adds a
precondition:
- `Pop` requires more than one stacked colour, because popping the base
  colour is a mismatched Push/Pop. The code does not check this
  (vgximg.go:141): the reslice leaves an empty stack and calls
  `gc.Restore()` with nothing saved, and the next `SetColor` or `Push`
  panics.
- `FillString` saves the backend state before it looks the font up
  (vgximg.go:187-193), so an unknown font emits `Save`, `Restore` and nothing
  else.
- `SetLineWidth` forwards the width to the backend even when it is zero
  (vgximg.go:103). Only `Stroke` treats a zero width as "no line".

## Model

| member | source | states |
|---|---|---|
| Vg.DotsOfInches | vgximg.go:79-82 | a pixel size stored as `vg.Inches(w / dpi)` converts back to exactly `w` pixels |
| Vg.InchesOfDots | vgximg.go:43-44 | a length converted to pixels at a positive resolution and back is the same length |
| Draw2D.GraphicContext.Emit | vgximg.go:25 | each backend call appends exactly its command to the trace and moves the save depth by one for Save or Restore only; the resolution is unchanged |
| Draw2D.GraphicContext.constructor | vgximg.go:69 | the context `NewGraphicContextWithPainter` returns has an empty trace and nothing saved |
| Draw2D.GraphicContext.SetDPI | vgximg.go:70 | `SetDPI` records the resolution and appends one command, leaving the save depth |
| Draw2D.DepthCounts | vgximg.go:135-143 | if no prefix of a trace restores more often than it saves, the backend depth after it is the number of saves minus the number of restores |
| Draw2D.DepthNeutral | vgximg.go:158-180 | commands other than Save and Restore leave the save depth unchanged |
| Paths.CompCommand | vgximg.go:161-178 | a component yields a command exactly when its kind is Move, Line, Arc or Close, and that command never saves or restores |
| Paths.Outline | vgximg.go:158-180 | the outline always starts with BeginPath, has at most one command per component, and exactly one per component when it does not panic |
| Paths.Draw | vgximg.go:145-156 | stroking or filling panics exactly when the outline does; otherwise it is BeginPath, one command per component and the painting command last |
| Paths.OutlineTranslates | vgximg.go:158-180 | a path of known components becomes BeginPath and then one command per component, in order: Move to MoveTo and Line to LineTo at the converted point, Arc to ArcTo with the converted centre, the converted radius for both radii and the angles unconverted, Close to Close |
| Paths.OutlineStep | vgximg.go:160-179 | one more component extends an unfailed outline by its command, or ends it with a panic naming its kind |
| Paths.OutlineFaultStable | vgximg.go:176-177 | once a prefix of the path has panicked, later components add nothing |
| Paths.OutlineFaultsAtFirstUnknown | vgximg.go:176-177 | the first component of unknown kind panics with that kind, after the commands of the components before it |
| Paths.OutlineFaultIff | vgximg.go:160-179 | `outline` panics if and only if some component has an unknown kind |
| Paths.OutlineKeepsDepth | vgximg.go:158-180 | no command of an outline saves or restores backend state |
| Paths.DrawKeepsDepth | vgximg.go:145-156 | stroking or filling a path leaves the backend save depth as it was |
| Paths.DrawShape | vgximg.go:153-156 | a well-formed path is painted as BeginPath, one command per component, then the painting command |
| Paths.StrokedCorner | vgximg.go:145-151 | Move(0,0), Line(10,0), Line(10,10), Close is stroked as an L of three vertices in pixels, closed back to the origin |
| Fonts.FontRegistry.constructor | vgximg.go:204-207 | the registry of fonts registered with draw2d starts empty |
| Fonts.FontMapNames | vgximg.go:213-274 | `fontMap` knows exactly the twelve PostScript names, each served by the Nimbus fonts |
| Fonts.Drawn | vgximg.go:198-201 | the drawing part of `FillString` is four commands ending in FillString, none of which saves, restores or registers a font |
| Fonts.FillStringEffect | vgximg.go:186-202 | `FillString` panics exactly on a name missing from `fontMap`, always begins with Save and ends with Restore, and never shrinks the registered set |
| Fonts.FillStringRegisters | vgximg.go:190-197 | a known font is registered with draw2d exactly when its name was not yet registered, and is registered afterwards; no other font is registered; an unknown name registers nothing and leaves the set unchanged |
| Fonts.FillStringTwiceRegistersOnce | vgximg.go:194-197 | two calls with the same font name, at any positions and with any texts, register it at most once, and never on the second call |
| Fonts.FillStringTwoNamesRegisterTwice | vgximg.go:194-197 | two calls with distinct known names not yet registered, at any positions, lead to one registration each |
| Fonts.FillStringKeepsDepth | vgximg.go:187-188 | the Save and the deferred Restore bracket the call, so the save depth afterwards equals the depth before, on both exit paths |
| Canvas.XImgCanvas.NewImage | vgximg.go:69-83 | before `vg.Initialize`, the initial trace is SetDPI(96), Scale(1,-1), Translate(0,-h); the colour stack is [Black], the line width zero, and the size converts back to the image's pixel bounds |
| Canvas.XImgCanvas.DPI | vgximg.go:182-184 | the resolution reported is the 96 dpi the backend was set to |
| Canvas.XImgCanvas.Size | vgximg.go:97-99 | the size converts back to the pixel bounds of the image |
| Canvas.XImgCanvas.SetLineWidth | vgximg.go:101-104 | the width is stored and forwarded to the backend in pixels |
| Canvas.XImgCanvas.SetLineDash | vgximg.go:106-112 | one SetLineDash command whose dash list has the same length and order as the input, entry i in pixels, with the offset in pixels |
| Canvas.XImgCanvas.SetColor | vgximg.go:114-121 | nil becomes black; fill and stroke colour are set to the same value; only the top of the colour stack changes, to that value |
| Canvas.XImgCanvas.Rotate | vgximg.go:123-125 | the angle is forwarded unconverted |
| Canvas.XImgCanvas.Translate | vgximg.go:127-129 | the offsets are forwarded in pixels |
| Canvas.XImgCanvas.Scale | vgximg.go:131-133 | the factors are forwarded unconverted |
| Canvas.XImgCanvas.Push | vgximg.go:135-138 | the top colour is duplicated and exactly one Save is emitted, so the stack stays one longer than the save depth and equal to 1 + saves - restores of the trace |
| Canvas.XImgCanvas.Pop | vgximg.go:140-143 | with more than one colour stacked, the top colour is dropped and exactly one Restore is emitted, keeping the stack one longer than the save depth and equal to 1 + saves - restores |
| Canvas.XImgCanvas.Stroke | vgximg.go:145-151 | a zero line width emits nothing at all; otherwise the outline then one Stroke, or the outline's panic |
| Canvas.XImgCanvas.Fill | vgximg.go:153-156 | whatever the line width, the outline then one Fill, or the outline's panic |
| Canvas.XImgCanvas.Outline | vgximg.go:158-180 | the commands emitted and the panic are those of the outline specification |
| Canvas.XImgCanvas.EmitComponent | vgximg.go:161-178 | the switch on one component emits that component's command, or nothing for an unknown kind |
| Canvas.XImgCanvas.FillString | vgximg.go:186-202 | the commands, the new registered set and the panic are those of the `FillString` specification |
| Canvas.XImgCanvas.RegisterOnce | vgximg.go:194-197 | RegisterFont is emitted exactly when the name is not yet registered, and the name is registered afterwards |
| Canvas.XImgCanvas.DrawString | vgximg.go:198-201 | emits exactly `Fonts.Drawn`: the font data, the translation to the converted point, the y flip and the text, without saving or restoring |

## Left out

- The X11 plumbing is foreign I/O and is not modelled: opening the connection, initialising key bindings, creating the image and pixmap, and showing the window (vgximg.go:58-67, 74). The model has no failure path for `NewImage`.
- `Paint` (`XDraw`, `XPaint`) is foreign I/O (vgximg.go:92-95).
- The `xevent.Main` dispatch goroutine is concurrency outside the canvas (vgximg.go:75-77).
- `New` is not modelled. Its rounding `int(w+0.5)` of a float product is floating-point arithmetic. The model starts from `NewImage` with the image's pixel bounds.
- draw2d's work is not modelled: rasterising, composing the affine matrix for Rotate, Scale and Translate, and shaping text. These calls appear only as trace commands.
- Canvas.XImgCanvas.NewImage: its ensures describe the canvas as it is before `vg.Initialize(c)` at vgximg.go:88. That call receives the canvas and may set the line width, the dash pattern and the colour through the canvas's own methods. Whatever it sets is not modelled, so a canvas fresh from the model still has width zero and drops every `Stroke`.
- `NewXimgPainter` and `vg.Initialize(c)` are foreign calls whose bodies are outside this model.
- The Go `float64` lengths and angles are modelled as exact reals.
- The font face that `font.Font()` loads is represented by the `vg.Font` value itself.
- example/example.go is a demonstration driver with no logic of its own.
