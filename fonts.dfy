/** The font tables behind `FillString`: the fixed `fontMap`, the
    process-wide set of fonts already registered with draw2d, and what one
    `FillString` call emits. */
module Fonts {
  import opened Common
  import opened Vg
  import opened Draw2D

  /** `fontMap`: the twelve PostScript font names the canvas can draw. */
  const FontMap: map<string, FontData> := map[
    "Courier"               := FontData("Nimbus", FontFamilyMono, {}),
    "Courier-Bold"          := FontData("Nimbus", FontFamilyMono, {FontStyleBold}),
    "Courier-Oblique"       := FontData("Nimbus", FontFamilyMono, {FontStyleItalic}),
    "Courier-BoldOblique"   := FontData("Nimbus", FontFamilyMono, {FontStyleItalic, FontStyleBold}),
    "Helvetica"             := FontData("Nimbus", FontFamilySans, {}),
    "Helvetica-Bold"        := FontData("Nimbus", FontFamilySans, {FontStyleBold}),
    "Helvetica-Oblique"     := FontData("Nimbus", FontFamilySans, {FontStyleItalic}),
    "Helvetica-BoldOblique" := FontData("Nimbus", FontFamilySans, {FontStyleItalic, FontStyleBold}),
    "Times-Roman"           := FontData("Nimbus", FontFamilySerif, {}),
    "Times-Bold"            := FontData("Nimbus", FontFamilySerif, {FontStyleBold}),
    "Times-Italic"          := FontData("Nimbus", FontFamilySerif, {FontStyleItalic}),
    "Times-BoldItalic"      := FontData("Nimbus", FontFamilySerif, {FontStyleItalic, FontStyleBold})
  ]

  /** The font map knows exactly the twelve names, and every one of them
      is served by the Nimbus fonts. */
  lemma FontMapNames()
    ensures FontMap.Keys == {"Courier", "Courier-Bold", "Courier-Oblique", "Courier-BoldOblique",
                             "Helvetica", "Helvetica-Bold", "Helvetica-Oblique", "Helvetica-BoldOblique",
                             "Times-Roman", "Times-Bold", "Times-Italic", "Times-BoldItalic"}
    ensures forall n :: n in FontMap ==> FontMap[n].name == "Nimbus"
  {
  }

  /** `registeredFont`: the names already registered with draw2d. It is
      shared by every canvas and only ever grows. */
  class FontRegistry {
    var registered: set<string>

    constructor ()
      ensures registered == {}
    {
      registered := {};
    }
  }

  /** The drawing part of `FillString` once the font is resolved: select
      the font, move the origin to (x, y) in pixels, flip the y axis back
      for the glyphs, and draw. */
  function Drawn(data: FontData, x: Length, y: Length, text: string, dpi: real): (r: seq<Command>)
    ensures |r| == 4 && r[|r| - 1] == FillString(text)
    ensures forall i :: 0 <= i < |r| ==> KeepsDepth(r[i]) && !r[i].RegisterFont?
  {
    [SetFontData(data), Translate(Dots(x, dpi), Dots(y, dpi)), Scale(1.0, -1.0), FillString(text)]
  }

  /** What one `FillString` does: the commands it emits, the registered
      set afterwards, and its panic if any. */
  datatype TextEffect = TextEffect(cmds: seq<Command>, registered: set<string>, fault: Option<Fault>)

  /** `FillString(font, x, y, text)` at resolution `dpi` given the names
      already registered. An unknown name panics between the Save and the
      deferred Restore. */
  function FillStringEffect(registered: set<string>, font: Font, x: Length, y: Length, text: string, dpi: real): (r: TextEffect)
    ensures r.fault.Some? <==> font.name !in FontMap
    ensures |r.cmds| >= 2 && r.cmds[0] == Save && r.cmds[|r.cmds| - 1] == Restore
    ensures registered <= r.registered
  {
    if font.name !in FontMap then
      TextEffect([Save, Restore], registered, Some(UnknownFont(font.name)))
    else
      var data := FontMap[font.name];
      var registration := if font.name in registered then [] else [RegisterFont(data, font)];
      TextEffect([Save] + registration + Drawn(data, x, y, text, dpi) + [Restore], registered + {font.name}, None)
  }

  /** The number of draw2d registrations of the font named `name` in a trace. */
  function Registrations(t: seq<Command>, name: string): nat {
    if t == [] then 0
    else Registrations(t[..|t| - 1], name) + (if t[|t| - 1].RegisterFont? && t[|t| - 1].font.name == name then 1 else 0)
  }

  lemma {:induction false} RegistrationsAppend(a: seq<Command>, b: seq<Command>, name: string)
    ensures Registrations(a + b, name) == Registrations(a, name) + Registrations(b, name)
  {
    if b == [] {
      assert a + b == a;
    } else {
      var b' := b[..|b| - 1];
      assert (a + b)[..|a + b| - 1] == a + b';
      RegistrationsAppend(a, b', name);
    }
  }

  /** A trace with no registration in it registers no font. */
  lemma {:induction false} NoRegistrations(t: seq<Command>, name: string)
    requires forall i :: 0 <= i < |t| ==> !t[i].RegisterFont?
    ensures Registrations(t, name) == 0
  {
    if t != [] {
      NoRegistrations(t[..|t| - 1], name);
    }
  }

  /** A known font is registered with draw2d by the call exactly when its
      name was not registered before, and is registered afterwards; no
      other name is registered; an unknown font registers nothing. */
  lemma FillStringRegisters(registered: set<string>, font: Font, x: Length, y: Length, text: string, dpi: real)
    ensures var r := FillStringEffect(registered, font, x, y, text, dpi);
      && Registrations(r.cmds, font.name) == (if font.name in FontMap && font.name !in registered then 1 else 0)
      && r.registered == (if font.name in FontMap then registered + {font.name} else registered)
      && forall n :: n != font.name ==> Registrations(r.cmds, n) == 0
  {
    var r := FillStringEffect(registered, font, x, y, text, dpi);
    if font.name in FontMap {
      var data := FontMap[font.name];
      var registration := if font.name in registered then [] else [RegisterFont(data, font)];
      var tail := Drawn(data, x, y, text, dpi) + [Restore];
      assert r.cmds == [Save] + registration + tail;
      forall n
        ensures Registrations(r.cmds, n) == (if n == font.name && font.name !in registered then 1 else 0)
      {
        RegistrationsAppend([Save] + registration, tail, n);
        RegistrationsAppend([Save], registration, n);
        NoRegistrations([Save], n);
        NoRegistrations(tail, n);
        if registration != [] {
          assert registration[..0] == [];
          NoRegistrations([], n);
        }
      }
    } else {
      forall n
        ensures Registrations(r.cmds, n) == 0
      {
        NoRegistrations(r.cmds, n);
      }
    }
  }

  /** Drawing text twice with one font name registers that font at most
      once, and exactly once when it is known and was not yet registered. */
  lemma FillStringTwiceRegistersOnce(registered: set<string>, f1: Font, f2: Font,
                                     x1: Length, y1: Length, x2: Length, y2: Length, s1: string, s2: string, dpi: real)
    requires f1.name == f2.name
    ensures var r1 := FillStringEffect(registered, f1, x1, y1, s1, dpi);
      var r2 := FillStringEffect(r1.registered, f2, x2, y2, s2, dpi);
      && Registrations(r1.cmds + r2.cmds, f1.name) == (if f1.name in FontMap && f1.name !in registered then 1 else 0)
      && Registrations(r2.cmds, f1.name) == 0
  {
    var r1 := FillStringEffect(registered, f1, x1, y1, s1, dpi);
    var r2 := FillStringEffect(r1.registered, f2, x2, y2, s2, dpi);
    FillStringRegisters(registered, f1, x1, y1, s1, dpi);
    FillStringRegisters(r1.registered, f2, x2, y2, s2, dpi);
    RegistrationsAppend(r1.cmds, r2.cmds, f1.name);
  }

  /** Two distinct known names, neither registered yet, register two fonts. */
  lemma FillStringTwoNamesRegisterTwice(registered: set<string>, f1: Font, f2: Font,
                                        x1: Length, y1: Length, x2: Length, y2: Length, s1: string, s2: string, dpi: real)
    requires f1.name != f2.name
    requires f1.name in FontMap && f2.name in FontMap
    requires f1.name !in registered && f2.name !in registered
    ensures var r1 := FillStringEffect(registered, f1, x1, y1, s1, dpi);
      var r2 := FillStringEffect(r1.registered, f2, x2, y2, s2, dpi);
      && Registrations(r1.cmds + r2.cmds, f1.name) == 1
      && Registrations(r1.cmds + r2.cmds, f2.name) == 1
      && r2.registered == registered + {f1.name, f2.name}
  {
    var r1 := FillStringEffect(registered, f1, x1, y1, s1, dpi);
    var r2 := FillStringEffect(r1.registered, f2, x2, y2, s2, dpi);
    FillStringRegisters(registered, f1, x1, y1, s1, dpi);
    FillStringRegisters(r1.registered, f2, x2, y2, s2, dpi);
    RegistrationsAppend(r1.cmds, r2.cmds, f1.name);
    RegistrationsAppend(r1.cmds, r2.cmds, f2.name);
  }

  /** The Save and the deferred Restore bracket the call: the backend's
      save depth afterwards is the depth before, on both exit paths. */
  lemma FillStringKeepsDepth(t: seq<Command>, registered: set<string>, font: Font, x: Length, y: Length, text: string, dpi: real)
    ensures Depth(t + FillStringEffect(registered, font, x, y, text, dpi).cmds) == Depth(t)
  {
    var mid: seq<Command> := [];
    if font.name in FontMap {
      var data := FontMap[font.name];
      var registration := if font.name in registered then [] else [RegisterFont(data, font)];
      mid := registration + Drawn(data, x, y, text, dpi);
    }
    assert t + FillStringEffect(registered, font, x, y, text, dpi).cmds == (t + [Save] + mid) + [Restore];
    DepthSnoc(t, Save);
    DepthNeutral(t + [Save], mid);
    DepthSnoc(t + [Save] + mid, Restore);
  }
}
