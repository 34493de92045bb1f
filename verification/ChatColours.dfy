/** The colours of a wrapped chat message: what a client paints, and what the message asks
    for. */
module ChatColours {
  import opened World
  import opened ChatWrap

  /** A character that can be seen, and its colour. */
  datatype Dot = Dot(glyph: Byte, colour: Byte)

  // ---- What a client paints ---------------------------------------------------------------

  function Painted(m: seq<Byte>, colour: Byte): seq<Dot> {
    if m == [] then []
    else if m[0] == AMP then (if |m| >= 2 then Painted(m[2..], m[1]) else [])
    else if m[0] == SPACE then Painted(m[1..], colour)
    else [Dot(m[0], colour)] + Painted(m[1..], colour)
  }

  /** The colour that is on at the end. */
  function LastColour(m: seq<Byte>, colour: Byte): Byte {
    if m == [] then colour
    else if m[0] == AMP then (if |m| >= 2 then LastColour(m[2..], m[1]) else colour)
    else LastColour(m[1..], colour)
  }

  lemma {:induction false} PaintedConcat(a: seq<Byte>, b: seq<Byte>, colour: Byte)
    requires Whole(a)
    ensures Painted(a + b, colour) == Painted(a, colour) + Painted(b, LastColour(a, colour))
    ensures LastColour(a + b, colour) == LastColour(b, LastColour(a, colour))
    decreases |a|
  {
    if a == [] {
      assert a + b == b;
    } else if a[0] == AMP {
      assert (a + b)[2..] == a[2..] + b;
      PaintedConcat(a[2..], b, a[1]);
    } else {
      assert (a + b)[1..] == a[1..] + b;
      PaintedConcat(a[1..], b, colour);
    }
  }

  function Dots(c: Byte, colour: Byte): seq<Dot> { if c == SPACE then [] else [Dot(c, colour)] }

  lemma OnePainted(c: Byte, colour: Byte)
    requires c != AMP
    ensures Painted([c], colour) == Dots(c, colour) && LastColour([c], colour) == colour
  {
    assert [c][1..] == [];
  }

  lemma CodePainted(ink: Byte, colour: Byte)
    ensures Painted([AMP, ink], colour) == [] && LastColour([AMP, ink], colour) == ink
  {
    assert [AMP, ink][2..] == [];
  }

  lemma {:induction false} SpacesPainted(n: nat, colour: Byte)
    ensures Painted(Spaces(n), colour) == []
  {
    if n > 0 {
      assert Spaces(n)[1..] == Spaces(n - 1);
      SpacesPainted(n - 1, colour);
    }
  }

  // ---- What the message asks for ------------------------------------------------------------

  function Wanted(palette: Palette, chat: seq<Byte>, s: nat, ink: Byte): seq<Dot>
    decreases |chat| - s
  {
    if s >= |chat| then []
    else if IsCode(palette, chat, s) then Wanted(palette, chat, s + 2, ColourAt(palette, chat, s))
    else Dots(Glyph(chat, s), ink) + Wanted(palette, chat, s + 1, ink)
  }

  /** The colour asked for at `to`, by the codes from `s` on. */
  function InkAt(palette: Palette, chat: seq<Byte>, s: nat, to: nat, ink: Byte): Byte
    decreases |chat| - s
  {
    if s >= to || s >= |chat| then ink
    else if IsCode(palette, chat, s) then InkAt(palette, chat, s + 2, to, ColourAt(palette, chat, s))
    else InkAt(palette, chat, s + 1, to, ink)
  }

  /** Reading from `s` on, a character or code starts at `to`. */
  predicate Reaches(palette: Palette, chat: seq<Byte>, s: nat, to: nat)
    decreases |chat| - s
  {
    s == to || (s < |chat| && s < to && Reaches(palette, chat, After(palette, chat, s), to))
  }

  lemma {:induction false} InkNext(palette: Palette, chat: seq<Byte>, s: nat, to: nat, ink: Byte)
    requires to < |chat| && Reaches(palette, chat, s, to)
    ensures Reaches(palette, chat, s, After(palette, chat, to))
    ensures InkAt(palette, chat, s, After(palette, chat, to), ink)
         == if IsCode(palette, chat, to) then ColourAt(palette, chat, to) else InkAt(palette, chat, s, to, ink)
    decreases |chat| - s
  {
    hide IsCode, ColourAt;
    var end := After(palette, chat, to);
    if s < to {
      InkNext(palette, chat, After(palette, chat, s), to,
              if IsCode(palette, chat, s) then ColourAt(palette, chat, s) else ink);
    } else {
      assert Reaches(palette, chat, end, end);
    }
  }

  // ---- One line ---------------------------------------------------------------------------

  /** The mark of a continued line is white. */
  function MarkDots(line: seq<Byte>, first: bool): seq<Dot> {
    if line == [] || first then [] else [Dot(GT, WHITE)]
  }

  /** The line so far is painted as asked for, and `to` is where the rest begins. */
  ghost predicate InColour(palette: Palette, chat: seq<Byte>, first: bool, from: nat, ink: Byte, line: seq<Byte>,
                           to: nat)
  {
    && Reaches(palette, chat, from, to)
    && Painted(line, WHITE) + Wanted(palette, chat, to, InkAt(palette, chat, from, to, ink))
       == MarkDots(line, first) + Wanted(palette, chat, from, ink)
  }

  /** The pen knows which colour is on, if it is not -1. */
  ghost predicate PenRight(pen: Pen, first: bool) {
    && Whole(pen.line) && pen.mark == (pen.line == [] && !first)
    && (pen.colour == -1 || pen.colour == LastColour(pen.line, WHITE) as int)
  }

  lemma MarkPainted(mark: bool, colour: int)
    requires mark ==> colour == -1 || colour == WHITE as int
    ensures Painted(Mark(mark, colour), WHITE) == (if mark then [Dot(GT, WHITE)] else [])
    ensures LastColour(Mark(mark, colour), WHITE) == WHITE && Whole(Mark(mark, colour))
  {
    MarkShown(mark, colour);
    if mark {
      var m := [GT] + [SPACE];
      assert m == [GT, SPACE];
      OnePainted(GT, WHITE);
      OnePainted(SPACE, WHITE);
      OneShown(GT);
      PaintedConcat([GT], [SPACE], WHITE);
      CodePainted(WHITE, WHITE);
      assert Whole([AMP, WHITE]) by { CodeShown(WHITE); }
      PaintedConcat([AMP, WHITE], m, WHITE);
      assert [] + m == m;
    }
  }

  /** `on` is the colour that is on when the character is added. */
  lemma TintedPainted(c: Byte, mark: bool, now: int, ink: Byte, needs: int, on: Byte)
    requires c != AMP && (now == -1 || now == on as int)
    requires needs > 1 || now == ink as int || c == SPACE
    ensures var t := Tinted(c, mark, now, ink, needs);
            && Painted(t, on) == Dots(c, ink)
            && (LastColour(t, on) == if needs > 1 then ink else on)
  {
    OnePainted(c, on);
    OnePainted(c, ink);
    CodePainted(ink, on);
    assert Whole([AMP, ink]) by { CodeShown(ink); }
    PaintedConcat([AMP, ink], [c], on);
    assert [AMP, ink] + [c] == [AMP, ink, c];
  }

  lemma InkedPaints(pen: Pen, first: bool, c: Byte)
    requires c != AMP && PenRight(pen, first)
    ensures var p := Inked(pen, c);
            && PenRight(p, first) && p.line != []
            && Painted(p.line, WHITE)
               == Painted(pen.line, WHITE) + (if pen.mark then [Dot(GT, WHITE)] else []) + Dots(c, pen.ink)
  {
    hide Painted, LastColour, Whole, Tinted, Mark;
    var needs, now := Needs(pen, c), if pen.mark then WHITE as int else pen.colour;
    var mark, tint := Mark(pen.mark, pen.colour), Tinted(c, pen.mark, now, pen.ink, needs);
    EmptyPainted();
    MarkPainted(pen.mark, pen.colour);
    MarkNothing(pen);
    var on := if pen.mark then WHITE else LastColour(pen.line, WHITE);
    TintedPainted(c, pen.mark, now, pen.ink, needs, on);
    AddedShown(c, pen.mark, pen.colour, pen.ink, needs);
    ShownConcat(pen.line, mark + tint);
    PaintedConcat(pen.line, mark + tint, WHITE);
    PaintedConcat(mark, tint, LastColour(pen.line, WHITE));
  }

  lemma EmptyPainted()
    ensures forall colour :: Painted([], colour) == [] && LastColour([], colour) == colour
  {
  }

  lemma MarkNothing(pen: Pen)
    ensures !pen.mark ==> Mark(pen.mark, pen.colour) == []
  {
  }

  /** Laying out keeps the colours right, and so does going back to a break. */
  lemma {:induction false} RunUpInColour(palette: Palette, chat: seq<Byte>, first: bool, from: nat, ink: Byte,
                                         pen: Pen, s: nat, brk: Break)
    requires |pen.line| < WIDTH
    requires PenRight(pen, first) && pen.ink == InkAt(palette, chat, from, s, ink)
    requires InColour(palette, chat, first, from, ink, pen.line, s)
    requires brk.line != [] ==> InColour(palette, chat, first, from, ink, brk.line, brk.at + 1)
    ensures var stop := RunUp(palette, chat, pen, s, brk);
            var c := CutAt(palette, chat, stop);
            && InColour(palette, chat, first, from, ink, c.line, c.next)
            && Reaches(palette, chat, from, stop.at) && stop.pen.ink == InkAt(palette, chat, from, stop.at, ink)
    decreases |chat| - s
  {
    hide IsCode, Glyph, Inked, Overflows, InColour, PenRight, ColourAt, InkAt, Reaches, Wanted;
    InColourReaches(palette, chat, first, from, ink, pen.line, s);
    if s < |chat| {
      var brk' := if IsSpace(palette, chat, s) then Break(s, pen.line) else brk;
      var next, end := PenStep(palette, chat, pen, s), After(palette, chat, s);
      StepInColour(palette, chat, first, from, ink, pen, s);
      PenMark(pen, first);
      if !Refuses(palette, chat, pen, s) {
        StepWidth(palette, chat, pen, s);
        if !Halts(palette, chat, pen, s) {
          RunUpInColour(palette, chat, first, from, ink, next, end, brk');
        }
      }
    }
  }

  lemma PenMark(pen: Pen, first: bool)
    requires PenRight(pen, first)
    ensures pen.mark ==> pen.line == []
  {
  }

  lemma InColourReaches(palette: Palette, chat: seq<Byte>, first: bool, from: nat, ink: Byte, line: seq<Byte>, to: nat)
    requires InColour(palette, chat, first, from, ink, line, to)
    ensures Reaches(palette, chat, from, to)
  {
  }

  lemma WantedNext(palette: Palette, chat: seq<Byte>, s: nat, ink: Byte)
    requires s < |chat|
    ensures Wanted(palette, chat, s, ink)
         == if IsCode(palette, chat, s) then Wanted(palette, chat, s + 2, ColourAt(palette, chat, s))
            else Dots(Glyph(chat, s), ink) + Wanted(palette, chat, s + 1, ink)
  {
    hide IsCode, ColourAt, Glyph;
  }

  lemma StepInColour(palette: Palette, chat: seq<Byte>, first: bool, from: nat, ink: Byte, pen: Pen, s: nat)
    requires s < |chat| && PenRight(pen, first)
    requires pen.ink == InkAt(palette, chat, from, s, ink)
    requires InColour(palette, chat, first, from, ink, pen.line, s)
    ensures var next, end := PenStep(palette, chat, pen, s), After(palette, chat, s);
            && PenRight(next, first) && next.ink == InkAt(palette, chat, from, end, ink)
            && InColour(palette, chat, first, from, ink, next.line, end)
    ensures IsSpace(palette, chat, s) ==> InColour(palette, chat, first, from, ink, pen.line, s + 1)
  {
    hide IsCode, ColourAt, Glyph, Inked, Wanted, InkAt, Reaches, Painted;
    InkNext(palette, chat, from, s, ink);
    WantedNext(palette, chat, s, pen.ink);
    if !IsCode(palette, chat, s) {
      var c := Glyph(chat, s);
      InkedPaints(pen, first, c);
      InkedInk(pen, c);
      EmptyPainted();
      Regroup(Painted(pen.line, WHITE), pen.mark, Dots(c, pen.ink), Wanted(palette, chat, s + 1, pen.ink),
              MarkDots(pen.line, first), Wanted(palette, chat, from, ink));
    }
  }

  /** `before` and all the rest are what is wanted, behind a mark if there was one. */
  lemma Regroup(before: seq<Dot>, mark: bool, dots: seq<Dot>, rest: seq<Dot>, marked: seq<Dot>, wanted: seq<Dot>)
    requires before + (dots + rest) == marked + wanted && (mark ==> before == [] && marked == [])
    ensures (before + (if mark then [Dot(GT, WHITE)] else []) + dots) + rest
         == (if mark then [Dot(GT, WHITE)] else marked) + wanted
    ensures dots == [] ==> before + rest == marked + wanted
  {
    assert (before + dots) + rest == before + (dots + rest);
    assert [] + (dots + rest) == dots + rest && [] + wanted == wanted && [] + dots == dots;
    if mark {
      assert before + [Dot(GT, WHITE)] == [Dot(GT, WHITE)];
      assert ([Dot(GT, WHITE)] + dots) + rest == [Dot(GT, WHITE)] + (dots + rest);
    } else {
      assert before + [] == before;
    }
    if dots == [] { assert [] + rest == rest; }
  }

  lemma InkedInk(pen: Pen, c: Byte)
    ensures Inked(pen, c).ink == pen.ink
  {
  }

  /** Every line is painted in the colours that the message asks for from its start on; the
      next line goes on with the colour asked for where the line was stopped, even if it
      starts before that. */
  lemma LineInColour(palette: Palette, chat: seq<Byte>, first: bool, from: nat, ink: Byte)
    requires (first ==> from == 0 && ink == YELLOW)
    ensures var c := NextCut(palette, chat, first, from, ink);
            var stop := RunUp(palette, chat, NewPen(chat, first, from, ink), from, NO_BREAK);
            && InColour(palette, chat, first, from, ink, c.line, c.next)
            && Reaches(palette, chat, from, stop.at) && c.ink == InkAt(palette, chat, from, stop.at, ink)
  {
    hide RunUp, Wanted;
    var pen := NewPen(chat, first, from, ink);
    EmptyPainted();
    RunUpInColour(palette, chat, first, from, ink, pen, from, NO_BREAK);
  }
}
