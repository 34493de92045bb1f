/** When the lines of a wrapped chat message go on in the right colour.  A line that is broken
    before a change of colour goes on in the colour behind it. */
module ColourContinuity {
  import opened World
  import opened ChatWrap
  import opened ChatColours

  /** What a client paints, without the marks. */
  function PaintedAll(ps: seq<seq<Byte>>, first: bool): seq<Dot> {
    if ps == [] then []
    else
      var dots := Painted(ps[0], WHITE);
      (if first || dots == [] then dots else dots[1..]) + PaintedAll(ps[1..], false)
  }

  // ---- What is asked for up to some place ------------------------------------------------------

  function WantedTo(palette: Palette, chat: seq<Byte>, s: nat, to: nat, ink: Byte): seq<Dot>
    decreases |chat| - s
  {
    if s >= to || s >= |chat| then []
    else if IsCode(palette, chat, s) then WantedTo(palette, chat, s + 2, to, ColourAt(palette, chat, s))
    else Dots(Glyph(chat, s), ink) + WantedTo(palette, chat, s + 1, to, ink)
  }

  /** A character that can be seen stands before `to` and before the first colour code. */
  predicate Sees(palette: Palette, chat: seq<Byte>, s: nat, to: nat)
    decreases |chat| - s
  {
    s < to && s < |chat| && !IsCode(palette, chat, s)
    && (Glyph(chat, s) != SPACE || Sees(palette, chat, s + 1, to))
  }

  lemma {:induction false} WantedSplits(palette: Palette, chat: seq<Byte>, s: nat, to: nat, ink: Byte)
    requires Reaches(palette, chat, s, to)
    ensures Wanted(palette, chat, s, ink)
         == WantedTo(palette, chat, s, to, ink) + Wanted(palette, chat, to, InkAt(palette, chat, s, to, ink))
    decreases |chat| - s
  {
    hide IsCode, ColourAt, Glyph;
    if s == to {
      assert WantedTo(palette, chat, s, to, ink) == [];
    } else if IsCode(palette, chat, s) {
      WantedSplits(palette, chat, s + 2, to, ColourAt(palette, chat, s));
    } else {
      WantedSplits(palette, chat, s + 1, to, ink);
      var a, b, c := Dots(Glyph(chat, s), ink), WantedTo(palette, chat, s + 1, to, ink),
                     Wanted(palette, chat, to, InkAt(palette, chat, s + 1, to, ink));
      assert a + (b + c) == (a + b) + c;
    }
  }

  /** How much is asked for does not depend on the colour; what is asked for does, exactly if
      something is seen in it. */
  lemma {:induction false} ColourMatters(palette: Palette, chat: seq<Byte>, s: nat, to: nat, a: Byte, b: Byte)
    ensures |WantedTo(palette, chat, s, to, a)| == |WantedTo(palette, chat, s, to, b)|
    ensures WantedTo(palette, chat, s, to, a) == WantedTo(palette, chat, s, to, b)
            <==> a == b || !Sees(palette, chat, s, to)
    decreases |chat| - s
  {
    hide IsCode, ColourAt, Glyph;
    if s < to && s < |chat| && !IsCode(palette, chat, s) {
      ColourMatters(palette, chat, s + 1, to, a, b);
      var g, x, y := Glyph(chat, s), WantedTo(palette, chat, s + 1, to, a), WantedTo(palette, chat, s + 1, to, b);
      if g == SPACE {
        assert [] + x == x && [] + y == y;
      } else {
        assert ([Dot(g, a)] + x)[0] == Dot(g, a) && ([Dot(g, b)] + y)[0] == Dot(g, b);
        assert a == b ==> x == y;
      }
    }
  }

  lemma FilledPaints(line: seq<Byte>)
    requires |line| <= WIDTH && Whole(line)
    ensures Painted(Filled(line), WHITE) == Painted(line, WHITE)
  {
    SpacesPainted(WIDTH - |line|, LastColour(line, WHITE));
    PaintedConcat(line, Spaces(WIDTH - |line|), WHITE);
  }

  lemma {:induction false} PaintedShown(m: seq<Byte>, colour: Byte)
    ensures |Painted(m, colour)| == |Shown(m)|
    decreases |m|
  {
    if m == [] {
    } else if m[0] == AMP {
      if |m| >= 2 { PaintedShown(m[2..], m[1]); }
    } else {
      PaintedShown(m[1..], colour);
    }
  }

  // ---- One line, and all of them ------------------------------------------------------------

  /** What a line shows is what is asked for up to where it is cut, from the colour on in which
      it was laid out. */
  lemma LineShows(palette: Palette, chat: seq<Byte>, first: bool, from: nat, ink: Byte)
    requires first ==> from == 0 && ink == YELLOW
    ensures var c := NextCut(palette, chat, first, from, ink);
            && |c.line| <= WIDTH && Whole(c.line) && Reaches(palette, chat, from, c.next)
            && Painted(c.line, WHITE) == MarkDots(c.line, first) + WantedTo(palette, chat, from, c.next, ink)
            && (c.line == [] ==> c.next >= |chat|)
  {
    hide NextCut, Wanted, WantedTo, Painted, InkAt, Reaches, RunUp;
    var c := NextCut(palette, chat, first, from, ink);
    LineInColour(palette, chat, first, from, ink);
    CutHolds(palette, chat, first, from, ink);
    WantedSplits(palette, chat, from, c.next, ink);
    var onward := Wanted(palette, chat, c.next, InkAt(palette, chat, from, c.next, ink));
    SameFront(Painted(c.line, WHITE), MarkDots(c.line, first), WantedTo(palette, chat, from, c.next, ink), onward);
  }

  lemma SameFront<T>(a: seq<T>, b: seq<T>, c: seq<T>, tail: seq<T>)
    requires a + tail == b + (c + tail)
    ensures a == b + c
  {
    assert b + (c + tail) == (b + c) + tail;
    assert |a| == |b + c|;
    assert a == (a + tail)[..|a|] && b + c == ((b + c) + tail)[..|a|];
  }

  /** From `from` on, laid out in the colour `ink` where `asked` is asked for: no line shows
      anything in a colour it should not have. */
  ghost predicate RightlyInked(palette: Palette, chat: seq<Byte>, first: bool, from: nat, ink: Byte, asked: Byte)
    decreases |chat| - from
  {
    var c := NextCut(palette, chat, first, from, ink);
    CutGoesOn(palette, chat, first, from, ink);
    c.line != [] ==>
      && (ink == asked || !Sees(palette, chat, from, c.next))
      && RightlyInked(palette, chat, false, c.next, c.ink, InkAt(palette, chat, from, c.next, asked))
  }

  /** Every character of a message is painted in the colour asked for it, if and only if each
      line either goes on in that colour or has a colour code before anything can be seen. */
  lemma {:induction false} MessageInColour(palette: Palette, chat: seq<Byte>, first: bool, from: nat, ink: Byte,
                                           asked: Byte)
    requires first ==> from == 0 && ink == YELLOW
    ensures PaintedAll(Packets(palette, chat, first, from, ink), first) == Wanted(palette, chat, from, asked)
            <==> RightlyInked(palette, chat, first, from, ink, asked)
    decreases |chat| - from
  {
    hide NextCut, Wanted, WantedTo, Painted, InkAt, Reaches, Sees;
    var c := NextCut(palette, chat, first, from, ink);
    LineShows(palette, chat, first, from, ink);
    CutGoesOn(palette, chat, first, from, ink);
    EmptyPainted();
    var asked' := InkAt(palette, chat, from, c.next, asked);
    WantedSplits(palette, chat, from, c.next, asked);
    ColourMatters(palette, chat, from, c.next, ink, asked);
    if c.line == [] {
      NothingFrom(palette, chat, from, c.next, ink, asked);
      NothingPainted(palette, chat, first, from, ink);
    } else {
      MessageInColour(palette, chat, false, c.next, c.ink, asked');
      LinePainted(palette, chat, first, from, ink);
      SamePair(WantedTo(palette, chat, from, c.next, ink),
               PaintedAll(Packets(palette, chat, false, c.next, c.ink), false),
               WantedTo(palette, chat, from, c.next, asked), Wanted(palette, chat, c.next, asked'));
    }
  }

  lemma SamePair<T>(a: seq<T>, b: seq<T>, a': seq<T>, b': seq<T>)
    requires |a| == |a'|
    ensures a + b == a' + b' <==> a == a' && b == b'
  {
    if a + b == a' + b' {
      assert a == (a + b)[..|a|] && a' == (a' + b')[..|a|];
      assert b == (a + b)[|a|..] && b' == (a' + b')[|a|..];
    }
  }

  lemma NothingFrom(palette: Palette, chat: seq<Byte>, from: nat, to: nat, ink: Byte, asked: Byte)
    requires Painted([], WHITE) == [] + WantedTo(palette, chat, from, to, ink) && to >= |chat|
    requires |WantedTo(palette, chat, from, to, ink)| == |WantedTo(palette, chat, from, to, asked)|
    requires Wanted(palette, chat, from, asked)
          == WantedTo(palette, chat, from, to, asked) + Wanted(palette, chat, to, InkAt(palette, chat, from, to, asked))
    ensures Wanted(palette, chat, from, asked) == []
  {
    EmptyPainted();
  }

  lemma NothingPainted(palette: Palette, chat: seq<Byte>, first: bool, from: nat, ink: Byte)
    requires NextCut(palette, chat, first, from, ink).line == []
    ensures PaintedAll(Packets(palette, chat, first, from, ink), first) == []
  {
    hide NextCut;
    SpacesPainted(WIDTH, WHITE);
    if first { assert [Spaces(WIDTH)][1..] == []; }
  }

  lemma LinePainted(palette: Palette, chat: seq<Byte>, first: bool, from: nat, ink: Byte)
    requires first ==> from == 0 && ink == YELLOW
    requires NextCut(palette, chat, first, from, ink).line != []
    ensures var c := NextCut(palette, chat, first, from, ink);
            PaintedAll(Packets(palette, chat, first, from, ink), first)
            == WantedTo(palette, chat, from, c.next, ink)
               + PaintedAll(Packets(palette, chat, false, c.next, c.ink), false)
  {
    hide NextCut, WantedTo, Painted, Reaches;
    var c := NextCut(palette, chat, first, from, ink);
    LineShows(palette, chat, first, from, ink);
    FilledPaints(c.line);
    var rest := Packets(palette, chat, false, c.next, c.ink);
    assert Packets(palette, chat, first, from, ink) == [Filled(c.line)] + rest;
    assert ([Filled(c.line)] + rest)[1..] == rest;
    var dots := WantedTo(palette, chat, from, c.next, ink);
    assert [] + dots == dots && ([Dot(GT, WHITE)] + dots)[1..] == dots;
  }

  // ---- Messages that are safe ----------------------------------------------------------------

  /** Every colour code stands at the start, directly after a space, or directly after another
      code.  `free` says that a code may stand at `s`. */
  predicate CodesLeadWords(palette: Palette, chat: seq<Byte>, s: nat, free: bool)
    decreases |chat| - s
  {
    s >= |chat|
    || (if IsCode(palette, chat, s) then free && CodesLeadWords(palette, chat, s + 2, true)
        else CodesLeadWords(palette, chat, s + 1, Glyph(chat, s) == SPACE))
  }

  lemma {:induction false} LeadLater(palette: Palette, chat: seq<Byte>, s: nat, free: bool, to: nat)
    returns (free': bool)
    requires CodesLeadWords(palette, chat, s, free) && Reaches(palette, chat, s, to)
    ensures CodesLeadWords(palette, chat, to, free')
    decreases |chat| - s
  {
    hide IsCode, Glyph;
    if s == to { return free; }
    var next := After(palette, chat, s);
    free' := LeadLater(palette, chat, next, if IsCode(palette, chat, s) then true else Glyph(chat, s) == SPACE, to);
  }

  /** Without a space no word ends, so no code comes up inside it. */
  lemma {:induction false} NoCodeInWord(palette: Palette, chat: seq<Byte>, s: nat, to: nat, ink: Byte)
    requires CodesLeadWords(palette, chat, s, false) && !SpaceIn(palette, chat, s, to, true)
    ensures InkAt(palette, chat, s, to, ink) == ink
    decreases |chat| - s
  {
    hide IsCode, Glyph;
    if s < to && s < |chat| && !IsCode(palette, chat, s) { NoCodeInWord(palette, chat, s + 1, to, ink); }
  }

  lemma {:induction false} InkSplits(palette: Palette, chat: seq<Byte>, s: nat, mid: nat, to: nat, ink: Byte)
    requires Reaches(palette, chat, s, mid) && mid <= to
    ensures InkAt(palette, chat, s, to, ink) == InkAt(palette, chat, mid, to, InkAt(palette, chat, s, mid, ink))
    decreases |chat| - s
  {
    hide IsCode, ColourAt;
    if s < mid {
      InkSplits(palette, chat, After(palette, chat, s), mid, to,
                if IsCode(palette, chat, s) then ColourAt(palette, chat, s) else ink);
    }
  }

  /** If nothing is seen in front of the first code, the colour is the one of the last code, or
      still nothing is seen. */
  lemma {:induction false} BlindStretch(palette: Palette, chat: seq<Byte>, s: nat, to: nat, a: Byte, b: Byte)
    requires Reaches(palette, chat, s, to) && !Sees(palette, chat, s, |chat|)
    ensures InkAt(palette, chat, s, to, a) == InkAt(palette, chat, s, to, b) || !Sees(palette, chat, to, |chat|)
    decreases |chat| - s
  {
    hide IsCode, ColourAt, Glyph;
    if s < to && !IsCode(palette, chat, s) { BlindStretch(palette, chat, s + 1, to, a, b); }
  }

  lemma {:induction false} SeesLess(palette: Palette, chat: seq<Byte>, s: nat, to: nat)
    requires Sees(palette, chat, s, to)
    ensures Sees(palette, chat, s, |chat|)
    decreases |chat| - s
  {
    hide IsCode, Glyph;
    if Glyph(chat, s) == SPACE { SeesLess(palette, chat, s + 1, to); }
  }

  /** Where a line goes back, what it goes back over has no space in it, and starts directly
      after one. */
  lemma GoesBackOverAWord(palette: Palette, chat: seq<Byte>, first: bool, from: nat, ink: Byte)
    requires first ==> from == 0 && ink == YELLOW
    ensures var c := NextCut(palette, chat, first, from, ink);
            var stop := RunUp(palette, chat, NewPen(chat, first, from, ink), from, NO_BREAK);
            && Reaches(palette, chat, from, c.next) && c.ink == InkAt(palette, chat, from, stop.at, ink)
            && (c.next <= stop.at || (stop.at < |chat| && c.next == stop.at + 1 && !IsCode(palette, chat, stop.at)))
            && Reaches(palette, chat, from, stop.at)
            && (c.next < stop.at ==>
                  && from < c.next <= |chat| && IsSpace(palette, chat, c.next - 1)
                     && Reaches(palette, chat, from, c.next - 1)
                  && !SpaceIn(palette, chat, c.next, stop.at + 1, true))
  {
    hide RunUp, Wanted, Painted, InkAt, IsCode, Glyph;
    LineInColour(palette, chat, first, from, ink);
    var pen := NewPen(chat, first, from, ink);
    StopPen(palette, chat, pen, from, NO_BREAK);
    LastSpace(palette, chat, pen, from, NO_BREAK);
    BreakReached(palette, chat, pen, from, NO_BREAK, from);
    StopIsGlyph(palette, chat, first, from, ink);
  }

  lemma {:induction false} BreakReached(palette: Palette, chat: seq<Byte>, pen: Pen, s: nat, brk: Break, from: nat)
    requires Reaches(palette, chat, from, s) && from <= s
             && (brk.line != [] ==> from <= brk.at && Reaches(palette, chat, from, brk.at))
    ensures var stop := RunUp(palette, chat, pen, s, brk);
            stop.brk.line != [] ==> from <= stop.brk.at && Reaches(palette, chat, from, stop.brk.at)
    decreases |chat| - s
  {
    hide IsCode, Glyph, Halts, PenStep, Reaches;
    if s < |chat| {
      var brk' := if IsSpace(palette, chat, s) then Break(s, pen.line) else brk;
      InkNext(palette, chat, from, s, 0);
      if !Halts(palette, chat, pen, s) {
        BreakReached(palette, chat, PenStep(palette, chat, pen, s), After(palette, chat, s), brk', from);
      }
    }
  }

  lemma StopIsGlyph(palette: Palette, chat: seq<Byte>, first: bool, from: nat, ink: Byte)
    ensures var stop := RunUp(palette, chat, NewPen(chat, first, from, ink), from, NO_BREAK);
            stop.at < |chat| ==> !IsCode(palette, chat, stop.at)
  {
    hide IsCode, Glyph, RunUp;
    StopPen(palette, chat, NewPen(chat, first, from, ink), from, NO_BREAK);
  }

  /** The colour that the next line goes on in is right, or it has a code first. */
  lemma NextIsRight(palette: Palette, chat: seq<Byte>, first: bool, from: nat, ink: Byte, asked: Byte, free: bool)
    requires first ==> from == 0 && ink == YELLOW
    requires CodesLeadWords(palette, chat, from, free) && (ink == asked || !Sees(palette, chat, from, |chat|))
    ensures var c := NextCut(palette, chat, first, from, ink);
            c.ink == InkAt(palette, chat, from, c.next, asked) || !Sees(palette, chat, c.next, |chat|)
  {
    hide RunUp, NextCut, IsCode, Glyph, InkAt, Reaches;
    GoesBackOverAWord(palette, chat, first, from, ink);
    var c := NextCut(palette, chat, first, from, ink);
    var stop := RunUp(palette, chat, NewPen(chat, first, from, ink), from, NO_BREAK);
    if ink != asked { BlindStretch(palette, chat, from, c.next, ink, asked); }
    if c.next > stop.at {
      InkNext(palette, chat, from, stop.at, ink);
    } else if c.next < stop.at {
      InkSplits(palette, chat, from, c.next, stop.at, ink);
      WordAhead(palette, chat, from, free, c.next, stop.at, InkAt(palette, chat, from, c.next, ink));
    }
  }

  /** After a space comes a code, or a word without one. */
  lemma WordAhead(palette: Palette, chat: seq<Byte>, from: nat, free: bool, next: nat, to: nat, ink: Byte)
    requires CodesLeadWords(palette, chat, from, free) && 0 < next < to && next <= |chat|
    requires Reaches(palette, chat, from, next - 1) && IsSpace(palette, chat, next - 1)
             && !SpaceIn(palette, chat, next, to + 1, true)
    ensures InkAt(palette, chat, next, to, ink) == ink || !Sees(palette, chat, next, |chat|)
  {
    hide Glyph;
    var f := LeadLater(palette, chat, from, free, next - 1);
    if next < |chat| && !IsCode(palette, chat, next) {
      if SpaceIn(palette, chat, next + 1, to, true) { SpaceBefore(palette, chat, next + 1, to, to + 1); }
      NoCodeInWord(palette, chat, next + 1, to, ink);
    }
  }

  lemma {:induction false} SpaceBefore(palette: Palette, chat: seq<Byte>, s: nat, to: nat, later: nat)
    requires to <= later && SpaceIn(palette, chat, s, to, true)
    ensures SpaceIn(palette, chat, s, later, true)
    decreases |chat| - s
  {
    hide IsCode, Glyph;
    if IsCode(palette, chat, s) { SpaceBefore(palette, chat, s + 2, to, later); }
    else if Glyph(chat, s) != SPACE { SpaceBefore(palette, chat, s + 1, to, later); }
  }

  lemma {:induction false} SafeIsRight(palette: Palette, chat: seq<Byte>, first: bool, from: nat, ink: Byte,
                                       asked: Byte, free: bool)
    requires first ==> from == 0 && ink == YELLOW
    requires CodesLeadWords(palette, chat, from, free) && (ink == asked || !Sees(palette, chat, from, |chat|))
    ensures RightlyInked(palette, chat, first, from, ink, asked)
    decreases |chat| - from
  {
    hide NextCut, InkAt, CodesLeadWords, Sees, Reaches;
    var c := NextCut(palette, chat, first, from, ink);
    CutGoesOn(palette, chat, first, from, ink);
    if c.line != [] {
      LineShows(palette, chat, first, from, ink);
      NextIsRight(palette, chat, first, from, ink, asked, free);
      var free' := LeadLater(palette, chat, from, free, c.next);
      if Sees(palette, chat, from, c.next) { SeesLess(palette, chat, from, c.next); }
      SafeIsRight(palette, chat, false, c.next, c.ink, InkAt(palette, chat, from, c.next, asked), free');
    }
  }

  /** A message with no colour code inside a word is painted as it asks for. */
  lemma SafeMessage(palette: Palette, chat: seq<Byte>)
    requires CodesLeadWords(palette, chat, 0, true)
    ensures PaintedAll(Packets(palette, chat, true, 0, YELLOW), true) == Wanted(palette, chat, 0, YELLOW)
  {
    SafeIsRight(palette, chat, true, 0, YELLOW, YELLOW, true);
    MessageInColour(palette, chat, true, 0, YELLOW, YELLOW);
  }

  // ---- A message that loses its colour --------------------------------------------------------

  const A: Byte := 0x61
  const B: Byte := 0x62
  const RED: Byte := 0x63

  function Letters(n: nat): (m: seq<Byte>)
    ensures |m| == n
  {
    seq(n, _ => B)
  }

  /** "a ", and a long word that is yellow at first and red later. */
  const TWO_COLOURS: seq<Byte> := [A, SPACE] + Letters(30) + [AMP, RED] + Letters(40)

  /** The pen after one more letter. */
  function LetterLaid(pen: Pen): Pen {
    var coloured := Needs(pen, B) > 1 && pen.colour != pen.ink as int;
    Pen(pen.line + (if coloured then [AMP, pen.ink, B] else [B]), false,
        if Needs(pen, B) > 1 then pen.ink as int else pen.colour, pen.ink)
  }

  lemma LetterStep(palette: Palette, chat: seq<Byte>, pen: Pen, s: nat, brk: Break)
    requires s < |chat| && chat[s] == B && !pen.mark && |pen.line| + Needs(pen, B) < WIDTH
    ensures RunUp(palette, chat, pen, s, brk) == RunUp(palette, chat, LetterLaid(pen), s + 1, brk)
  {
    assert Mark(false, pen.colour) == [];
    assert forall t: seq<Byte> :: [] + t == t;
  }

  lemma {:induction false} LettersLaid(palette: Palette, chat: seq<Byte>, pen: Pen, s: nat, n: nat, brk: Break)
    requires s + n <= |chat| && forall i :: s <= i < s + n ==> chat[i] == B
    requires !pen.mark && pen.line != [] && pen.colour == pen.ink as int && |pen.line| + n < WIDTH
    ensures RunUp(palette, chat, pen, s, brk)
         == RunUp(palette, chat, Pen(pen.line + Letters(n), false, pen.colour, pen.ink), s + n, brk)
    decreases n
  {
    hide RunUp;
    if n == 0 {
      assert pen.line + Letters(0) == pen.line;
    } else {
      LetterStep(palette, chat, pen, s, brk);
      var next := Pen(pen.line + [B], false, pen.colour, pen.ink);
      LettersLaid(palette, chat, next, s + 1, n - 1, brk);
      assert pen.line + Letters(n) == (pen.line + [B]) + Letters(n - 1);
    }
  }

  lemma FirstTwo(palette: Palette)
    ensures RunUp(palette, TWO_COLOURS, NewPen(TWO_COLOURS, true, 0, YELLOW), 0, NO_BREAK)
         == RunUp(palette, TWO_COLOURS, Pen([AMP, YELLOW, A, SPACE], false, YELLOW as int, YELLOW), 2,
            Break(1, [AMP, YELLOW, A]))
  {
    var chat := TWO_COLOURS;
    assert chat[0] == A && chat[1] == SPACE;
    var pen0, pen1 := NewPen(chat, true, 0, YELLOW), Pen([AMP, YELLOW, A], false, YELLOW as int, YELLOW);
    assert Mark(false, WHITE as int) == [] && Mark(false, YELLOW as int) == [];
    assert [] + ([] + [AMP, YELLOW, A]) == [AMP, YELLOW, A];
    assert PenStep(palette, chat, pen0, 0) == pen1;
    assert RunUp(palette, chat, pen0, 0, NO_BREAK) == RunUp(palette, chat, pen1, 1, NO_BREAK);
    assert [AMP, YELLOW, A] + ([] + [SPACE]) == [AMP, YELLOW, A, SPACE];
  }

  /** The first line is broken at the space, when the colour has changed already. */
  lemma FirstLineBreaks(palette: Palette)
    requires !palette[RED].defined
    ensures NextCut(palette, TWO_COLOURS, true, 0, YELLOW) == Cut([AMP, YELLOW, A], 2, RED)
  {
    hide RunUp;
    var chat := TWO_COLOURS;
    var brk := Break(1, [AMP, YELLOW, A]);
    var pen2 := Pen([AMP, YELLOW, A, SPACE], false, YELLOW as int, YELLOW);
    FirstTwo(palette);
    assert forall i :: 2 <= i < 32 ==> chat[i] == B;
    LettersLaid(palette, chat, pen2, 2, 30, brk);
    var pen32 := Pen(pen2.line + Letters(30), false, YELLOW as int, YELLOW);
    assert chat[32] == AMP && chat[33] == RED;
    CodeTurn(palette, chat, pen32, 32, brk);
    var pen34 := pen32.(ink := RED);
    assert forall i :: 34 <= i < 74 ==> chat[i] == B;
    LetterStep(palette, chat, pen34, 34, brk);
    var pen35 := Pen(pen34.line + [AMP, RED, B], false, RED as int, RED);
    LettersLaid(palette, chat, pen35, 35, 26, brk);
    var pen61 := Pen(pen35.line + Letters(26), false, RED as int, RED);
    Turn(palette, chat, pen61, 61, brk);
  }

  lemma {:induction false} FewerWords(palette: Palette, chat: seq<Byte>, s: nat, to: nat)
    requires Reaches(palette, chat, s, to)
    ensures |Words(palette, chat, to)| <= |Words(palette, chat, s)|
    decreases |chat| - s
  {
    hide IsCode;
    if s < to { FewerWords(palette, chat, After(palette, chat, s), to); }
  }

  /** Its second line starts in the wrong colour. */
  lemma SecondLineRed(palette: Palette)
    ensures var dots := PaintedAll(Packets(palette, TWO_COLOURS, false, 2, RED), false);
            dots != [] && dots[0] == Dot(B, RED)
  {
    hide NextCut, Wanted, Painted, InkAt, Reaches, Words;
    var chat := TWO_COLOURS;
    var c := NextCut(palette, chat, false, 2, RED);
    LineInColour(palette, chat, false, 2, RED);
    CutHolds(palette, chat, false, 2, RED);
    CutGoesOn(palette, chat, false, 2, RED);
    assert chat[2] == B;
    WordsNext(palette, chat, 2);
    WantedNext(palette, chat, 2, RED);
    if c.line == [] { WordsEnd(palette, chat, c.next); }
    ReachesOn(palette, chat, 2, c.next);
    FewerWords(palette, chat, 3, c.next);
    PaintedShown(c.line, WHITE);
    FilledPaints(c.line);
    var dots := Painted(c.line, WHITE);
    assert |dots| >= 2;
    assert (dots + Wanted(palette, chat, c.next, InkAt(palette, chat, 2, c.next, RED)))[1] == dots[1];
  }

  lemma WordsEnd(palette: Palette, chat: seq<Byte>, s: nat)
    requires s >= |chat|
    ensures Words(palette, chat, s) == []
  {
  }

  lemma ReachesOn(palette: Palette, chat: seq<Byte>, s: nat, to: nat)
    requires s < |chat| && s < to && Reaches(palette, chat, s, to) && !IsCode(palette, chat, s)
    ensures Reaches(palette, chat, s + 1, to)
  {
  }

  /** Colours can be lost: this message is not painted as it asks for. */
  lemma ColourLost(palette: Palette)
    requires !palette[RED].defined
    ensures !RightlyInked(palette, TWO_COLOURS, true, 0, YELLOW, YELLOW)
    ensures PaintedAll(Packets(palette, TWO_COLOURS, true, 0, YELLOW), true) != Wanted(palette, TWO_COLOURS, 0, YELLOW)
  {
    hide NextCut, Wanted, Painted;
    var chat := TWO_COLOURS;
    assert chat[0] == A && chat[1] == SPACE && chat[2] == B;
    FirstLineBreaks(palette);
    SecondLineRed(palette);
    WantedNext(palette, chat, 0, YELLOW);
    WantedNext(palette, chat, 1, YELLOW);
    WantedNext(palette, chat, 2, YELLOW);
    var line := [AMP, YELLOW, A];
    var rest := Packets(palette, chat, false, 2, RED);
    assert ([Filled(line)] + rest)[1..] == rest;
    FirstPainted(line);
    var painted := PaintedAll(Packets(palette, chat, true, 0, YELLOW), true);
    assert Packets(palette, chat, true, 0, YELLOW) == [Filled(line)] + rest;
    assert painted == [Dot(A, YELLOW)] + PaintedAll(rest, false);
    assert painted[1] == Dot(B, RED);
    assert Wanted(palette, chat, 0, YELLOW)[1] == Dot(B, YELLOW);
    MessageInColour(palette, chat, true, 0, YELLOW, YELLOW);
  }

  lemma FirstPainted(line: seq<Byte>)
    requires line == [AMP, YELLOW, A]
    ensures Painted(Filled(line), WHITE) == [Dot(A, YELLOW)]
  {
    assert line == [AMP, YELLOW] + [A];
    CodeShown(YELLOW);
    OneShown(A);
    ShownConcat([AMP, YELLOW], [A]);
    CodePainted(YELLOW, WHITE);
    OnePainted(A, YELLOW);
    PaintedConcat([AMP, YELLOW], [A], WHITE);
    FilledPaints(line);
  }
}
