/** `post_chat`: cutting a long chat message into packets of 64 characters at spaces, and
    repeating the colours as they are needed. */
module ChatWrap {
  import opened World

  const WIDTH: nat := 64
  const AMP: Byte := 0x26
  const SPACE: Byte := 0x20
  const GT: Byte := 0x3E
  const WHITE: Byte := 0x66
  const YELLOW: Byte := 0x65
  const UNKNOWN: Byte := 0xA8

  /** A text colour; a remapped one is shown as another. */
  datatype Colour = Colour(defined: bool, remapped: bool, fallback: Byte)

  /** `textcolour`: one entry for every byte. */
  type Palette = p: seq<Colour> | |p| == 256 witness seq(256, _ => Colour(false, false, 0))

  // ---- What a message says --------------------------------------------------------------

  /** Behind the message there is a NUL. */
  function CharAt(chat: seq<Byte>, i: nat): Byte {
    if i < |chat| then chat[i] else 0
  }

  function ColourAt(palette: Palette, chat: seq<Byte>, i: nat): Byte
  {
    var col := CharAt(chat, i + 1);
    if palette[col].defined && palette[col].remapped then palette[col].fallback else col
  }

  predicate IsCode(palette: Palette, chat: seq<Byte>, i: nat)
    requires i < |chat|
  {
    var col := ColourAt(palette, chat, i);
    chat[i] == AMP && (palette[col].defined || 0x30 <= col <= 0x39 || 0x61 <= col <= 0x66)
  }

  /** The character shown for one that is not part of a colour code. */
  function Glyph(chat: seq<Byte>, i: nat): (c: Byte)
    requires i < |chat|
    ensures c != AMP && c != 0
  {
    if chat[i] == AMP then UNKNOWN else if chat[i] == 0 then SPACE else chat[i]
  }

  /** The characters from `i` on, without colour codes and spaces. */
  function Words(palette: Palette, chat: seq<Byte>, i: nat): seq<Byte>
    decreases |chat| - i
  {
    if i >= |chat| then []
    else if IsCode(palette, chat, i) then Words(palette, chat, i + 2)
    else (if Glyph(chat, i) == SPACE then [] else [Glyph(chat, i)]) + Words(palette, chat, i + 1)
  }

  // ---- What a packet shows --------------------------------------------------------------

  /** Colour codes are complete. */
  predicate Whole(m: seq<Byte>) {
    m == [] || (if m[0] == AMP then |m| >= 2 && Whole(m[2..]) else Whole(m[1..]))
  }

  /** The characters of a packet, without colour codes and spaces. */
  function Shown(m: seq<Byte>): seq<Byte> {
    if m == [] then []
    else if m[0] == AMP then (if |m| >= 2 then Shown(m[2..]) else [])
    else if m[0] == SPACE then Shown(m[1..])
    else [m[0]] + Shown(m[1..])
  }

  lemma {:induction false} ShownConcat(a: seq<Byte>, b: seq<Byte>)
    requires Whole(a)
    ensures Shown(a + b) == Shown(a) + Shown(b) && Whole(a + b) == Whole(b)
  {
    if a == [] {
      assert a + b == b;
    } else if a[0] == AMP {
      assert (a + b)[2..] == a[2..] + b;
      ShownConcat(a[2..], b);
    } else {
      assert (a + b)[1..] == a[1..] + b;
      ShownConcat(a[1..], b);
    }
  }

  function Spaces(n: nat): (m: seq<Byte>)
    ensures |m| == n
  {
    seq(n, _ => SPACE)
  }

  lemma {:induction false} SpacesShowNothing(n: nat)
    ensures Shown(Spaces(n)) == [] && Whole(Spaces(n))
  {
    if n > 0 {
      assert Spaces(n)[1..] == Spaces(n - 1);
      SpacesShowNothing(n - 1);
    }
  }

  lemma OneShown(c: Byte)
    requires c != AMP
    ensures Whole([c]) && Shown([c]) == if c == SPACE then [] else [c]
  {
    assert [c][1..] == [];
  }

  lemma CodeShown(col: Byte)
    ensures Whole([AMP, col]) && Shown([AMP, col]) == []
  {
    assert [AMP, col][2..] == [];
  }

  /** Every packet but the first starts with a mark that is not part of the message. */
  predicate Continues(m: seq<Byte>) { |Shown(m)| > 0 && Shown(m)[0] == GT }

  function TextOf(m: seq<Byte>, first: bool): seq<Byte>
    requires first || Continues(m)
  {
    if first then Shown(m) else Shown(m)[1..]
  }

  predicate IsPacket(m: seq<Byte>) { |m| == WIDTH && Whole(m) }

  ghost predicate ArePackets(ps: seq<seq<Byte>>) {
    forall i :: 0 <= i < |ps| ==> IsPacket(ps[i]) && (i > 0 ==> Continues(ps[i]))
  }

  ghost function Text(ps: seq<seq<Byte>>): seq<Byte>
    requires ArePackets(ps)
  {
    if ps == [] then [] else Text(ps[..|ps| - 1]) + TextOf(ps[|ps| - 1], |ps| == 1)
  }

  // ---- What a line holds ----------------------------------------------------------------

  /** Where the line has got to: it holds a beginning of what is left of the message at
      `from`, and `to` is where it ends. */
  ghost predicate Holds(palette: Palette, chat: seq<Byte>, line: seq<Byte>, first: bool, from: nat, to: nat)
    ensures Holds(palette, chat, line, first, from, to) ==> |line| <= WIDTH
  {
    && Whole(line) && |line| <= WIDTH
    && (line != [] && !first ==> Continues(line))
    && (if line == [] then [] else TextOf(line, first)) + Words(palette, chat, to) == Words(palette, chat, from)
  }

  /** What is put into the line for one character: a mark if the line is a continuation,
      and a colour code if the colour is another now. */
  function Mark(mark: bool, colour: int): seq<Byte> {
    if mark then (if colour != WHITE then [AMP, WHITE] else []) + [GT, SPACE] else []
  }

  function Tinted(c: Byte, mark: bool, colour: int, ncolour: Byte, needs: int): seq<Byte> {
    if needs > 1 && colour != ncolour then [AMP, ncolour, c]
    else if !mark || c != SPACE then [c] else []
  }

  function Added(c: Byte, mark: bool, colour: int, ncolour: Byte, needs: int): seq<Byte> {
    Mark(mark, colour) + Tinted(c, mark, if mark then WHITE else colour, ncolour, needs)
  }

  lemma MarkShown(mark: bool, colour: int)
    ensures Whole(Mark(mark, colour)) && Shown(Mark(mark, colour)) == if mark then [GT] else []
  {
    OneShown(GT);
    OneShown(SPACE);
    CodeShown(WHITE);
    ShownConcat([GT], [SPACE]);
    ShownConcat([AMP, WHITE], [GT] + [SPACE]);
    assert [GT] + [SPACE] == [GT, SPACE] && [GT] + [] == [GT] && [] + [GT] == [GT];
    assert [] + [GT, SPACE] == [GT, SPACE];
  }

  lemma TintedShown(c: Byte, mark: bool, colour: int, ncolour: Byte, needs: int)
    requires c != AMP
    ensures var t := Tinted(c, mark, colour, ncolour, needs);
            Whole(t) && Shown(t) == if c == SPACE then [] else [c]
  {
    OneShown(c);
    CodeShown(ncolour);
    ShownConcat([AMP, ncolour], [c]);
    assert [AMP, ncolour] + [c] == [AMP, ncolour, c];
  }

  lemma AddedShown(c: Byte, mark: bool, colour: int, ncolour: Byte, needs: int)
    requires c != AMP && (needs == 1 || needs == 3)
    ensures var a := Added(c, mark, colour, ncolour, needs);
            && Whole(a) && |a| <= (if mark then 4 else 0) + needs && (mark || a != [])
            && Shown(a) == (if mark then [GT] else []) + (if c == SPACE then [] else [c])
  {
    var now := if mark then WHITE else colour;
    MarkShown(mark, colour);
    TintedShown(c, mark, now, ncolour, needs);
    ShownConcat(Mark(mark, colour), Tinted(c, mark, now, ncolour, needs));
  }

  /** A line that has grown by what one character needs holds that character too. */
  lemma HoldsMore(palette: Palette, chat: seq<Byte>, line: seq<Byte>, first: bool, from: nat, s: nat,
                  mark: bool, colour: int, ncolour: Byte, needs: int)
    requires s < |chat| && !IsCode(palette, chat, s) && (needs == 1 || needs == 3)
    requires Holds(palette, chat, line, first, from, s) && mark == (line == [] && !first)
    requires |line| + needs <= WIDTH
    ensures var a := Added(Glyph(chat, s), mark, colour, ncolour, needs);
            line + a != [] && Holds(palette, chat, line + a, first, from, s + 1)
  {
    hide Words, Shown, Added, IsCode, Glyph;
    var c := Glyph(chat, s);
    var a := Added(c, mark, colour, ncolour, needs);
    AddedShown(c, mark, colour, ncolour, needs);
    ShownConcat(line, a);
    WordsNext(palette, chat, s);
    ShownNothing();
  }

  lemma ShownNothing()
    ensures Shown([]) == []
  {
  }

  lemma WordsNext(palette: Palette, chat: seq<Byte>, s: nat)
    requires s < |chat| && !IsCode(palette, chat, s)
    ensures Words(palette, chat, s)
         == (if Glyph(chat, s) == SPACE then [] else [Glyph(chat, s)]) + Words(palette, chat, s + 1)
  {
  }

  /** A line filled up with spaces is a packet and says no more than before. */
  lemma Padded(line: seq<Byte>, first: bool)
    requires Whole(line) && |line| <= WIDTH && (!first ==> Continues(line))
    ensures var p := line + Spaces(WIDTH - |line|);
            IsPacket(p) && (!first ==> Continues(p)) && TextOf(p, first) == TextOf(line, first)
  {
    SpacesShowNothing(WIDTH - |line|);
    ShownConcat(line, Spaces(WIDTH - |line|));
    assert Shown(line) + [] == Shown(line);
  }

  ghost predicate Sent(palette: Palette, chat: seq<Byte>, ps: seq<seq<Byte>>, from: nat)
  {
    ArePackets(ps) && Text(ps) + Words(palette, chat, from) == Words(palette, chat, 0)
  }

  lemma SentMore(palette: Palette, chat: seq<Byte>, ps: seq<seq<Byte>>, p: seq<Byte>, from: nat, to: nat)
    requires Sent(palette, chat, ps, from)
    requires IsPacket(p) && (ps != [] ==> Continues(p))
    requires TextOf(p, ps == []) + Words(palette, chat, to) == Words(palette, chat, from)
    ensures Sent(palette, chat, ps + [p], to)
  {
    hide Words, Shown, Whole, IsPacket;
    var more := ps + [p];
    assert more[..|more| - 1] == ps;
    assert Text(ps) + (TextOf(p, ps == []) + Words(palette, chat, to))
           == (Text(ps) + TextOf(p, ps == [])) + Words(palette, chat, to);
  }

  // ---- How lines are cut ------------------------------------------------------------------

  /** The line so far, whether a mark goes in front of it, the colour that its last
      character has (or -1) and the colour that the next one should have. */
  datatype Pen = Pen(line: seq<Byte>, mark: bool, colour: int, ink: Byte)

  /** The last space that a line may be broken at, and the line before it. */
  datatype Break = Break(at: nat, line: seq<Byte>)

  const NO_BREAK := Break(0, [])

  /** Where laying out a line came to an end. */
  datatype Stop = Stop(at: nat, pen: Pen, brk: Break)

  /** A line, and where and in which colour the next one starts. */
  datatype Cut = Cut(line: seq<Byte>, next: nat, ink: Byte)

  predicate IsPlain(b: Byte) { 0x20 < b <= 0x7E }

  function NewPen(chat: seq<Byte>, first: bool, from: nat, ink: Byte): Pen {
    var plain :=
      if first then chat != [] && IsPlain(chat[0])
      else !(0 < from <= |chat|) || chat[from - 1] == 0 || SPACE <= chat[from - 1] <= 0x7E;
    Pen([], !first, if plain then WHITE as int else -1, ink)
  }

  /** The columns set aside for a character. */
  function Needs(pen: Pen, c: Byte): (n: int)
    ensures n == 1 || n == 3
  {
    if (pen.line == [] && c <= SPACE) || (pen.colour != pen.ink as int && c != SPACE) then 3 else 1
  }

  /** The character does not go into the line: there is no room for it, or just enough for
      it but not for the rest of its word. */
  predicate Overflows(chat: seq<Byte>, s: nat, d: nat, needs: int) {
    (d + needs == WIDTH && s + 1 < |chat| && chat[s + 1] != SPACE) || d + needs > WIDTH
  }

  function Inked(pen: Pen, c: Byte): Pen {
    var needs, now := Needs(pen, c), if pen.mark then WHITE as int else pen.colour;
    Pen(pen.line + Added(c, pen.mark, pen.colour, pen.ink, needs), false,
        if needs > 1 then pen.ink as int else now, pen.ink)
  }

  function PenStep(palette: Palette, chat: seq<Byte>, pen: Pen, s: nat): Pen
    requires s < |chat|
  {
    if IsCode(palette, chat, s) then pen.(ink := ColourAt(palette, chat, s)) else Inked(pen, Glyph(chat, s))
  }

  function After(palette: Palette, chat: seq<Byte>, s: nat): nat
    requires s < |chat|
  {
    if IsCode(palette, chat, s) then s + 2 else s + 1
  }

  predicate Refuses(palette: Palette, chat: seq<Byte>, pen: Pen, s: nat)
    requires s < |chat|
  {
    !IsCode(palette, chat, s) && Overflows(chat, s, |pen.line|, Needs(pen, Glyph(chat, s)))
  }

  predicate Halts(palette: Palette, chat: seq<Byte>, pen: Pen, s: nat)
    requires s < |chat|
  {
    Refuses(palette, chat, pen, s) || |PenStep(palette, chat, pen, s).line| == WIDTH
  }

  predicate IsSpace(palette: Palette, chat: seq<Byte>, s: nat)
    requires s < |chat|
  {
    !IsCode(palette, chat, s) && Glyph(chat, s) == SPACE
  }

  /** Characters are laid out until the line is full or the message ends. */
  function RunUp(palette: Palette, chat: seq<Byte>, pen: Pen, s: nat, brk: Break): Stop
    decreases |chat| - s
  {
    if s >= |chat| then Stop(s, pen, brk)
    else
      var brk' := if IsSpace(palette, chat, s) then Break(s, pen.line) else brk;
      if Halts(palette, chat, pen, s) then Stop(s, pen, brk')
      else RunUp(palette, chat, PenStep(palette, chat, pen, s), After(palette, chat, s), brk')
  }

  /** A line that refuses a character ends before its last space, if it has one. */
  function CutAt(palette: Palette, chat: seq<Byte>, stop: Stop): Cut
  {
    if stop.at >= |chat| then Cut(stop.pen.line, stop.at, stop.pen.ink)
    else if !Refuses(palette, chat, stop.pen, stop.at) then
      Cut(PenStep(palette, chat, stop.pen, stop.at).line, stop.at + 1, stop.pen.ink)
    else if stop.brk.line == [] then Cut(stop.pen.line, stop.at, stop.pen.ink)
    else Cut(stop.brk.line, stop.brk.at + 1, stop.pen.ink)
  }

  function NextCut(palette: Palette, chat: seq<Byte>, first: bool, from: nat, ink: Byte): Cut
  {
    CutAt(palette, chat, RunUp(palette, chat, NewPen(chat, first, from, ink), from, NO_BREAK))
  }

  lemma {:induction false} RunUpAdvances(palette: Palette, chat: seq<Byte>, from: nat, pen: Pen, s: nat, brk: Break)
    requires from <= s && |pen.line| < WIDTH
    requires (s == from ==> pen.line == []) && (pen.line != [] || brk.line != [] ==> from < |chat|)
    requires brk.line != [] ==> brk.at >= from && |brk.line| <= WIDTH
    requires pen.mark ==> pen.line == []
    ensures var c := CutAt(palette, chat, RunUp(palette, chat, pen, s, brk));
            && |c.line| <= WIDTH
            && if c.line == [] then c.next >= |chat| else from < |chat| && c.next > from
    decreases |chat| - s
  {
    hide IsCode, Glyph, Added;
    if s < |chat| {
      var brk' := if IsSpace(palette, chat, s) then Break(s, pen.line) else brk;
      if !Refuses(palette, chat, pen, s) { StepWidth(palette, chat, pen, s); }
      if !Halts(palette, chat, pen, s) {
        RunUpAdvances(palette, chat, from, PenStep(palette, chat, pen, s), After(palette, chat, s), brk');
      }
    }
  }

  /** What a character adds is no more than was set aside for it, but for the mark. */
  lemma StepWidth(palette: Palette, chat: seq<Byte>, pen: Pen, s: nat)
    requires s < |chat| && |pen.line| < WIDTH && !Refuses(palette, chat, pen, s)
    requires pen.mark ==> pen.line == []
    ensures |PenStep(palette, chat, pen, s).line| <= WIDTH
  {
    hide IsCode, Glyph;
  }

  function Filled(line: seq<Byte>): (p: seq<Byte>)
    requires |line| <= WIDTH
    ensures |p| == WIDTH
  {
    line + Spaces(WIDTH - |line|)
  }

  /** All packets from one place in the message on. */
  function Packets(palette: Palette, chat: seq<Byte>, first: bool, from: nat, ink: Byte): (ps: seq<seq<Byte>>)
    ensures first ==> ps != []
    decreases |chat| - from
  {
    var c := NextCut(palette, chat, first, from, ink);
    RunUpAdvances(palette, chat, from, NewPen(chat, first, from, ink), from, NO_BREAK);
    if c.line == [] then (if first then [Spaces(WIDTH)] else [])
    else [Filled(c.line)] + Packets(palette, chat, false, c.next, c.ink)
  }

  // ---- Nothing is lost ------------------------------------------------------------------

  lemma {:induction false} RunUpHolds(palette: Palette, chat: seq<Byte>, first: bool, from: nat, pen: Pen, s: nat,
                                      brk: Break)
    requires |pen.line| < WIDTH && pen.mark == (pen.line == [] && !first)
    requires Holds(palette, chat, pen.line, first, from, s)
    requires brk.line != [] ==> Holds(palette, chat, brk.line, first, from, brk.at + 1)
    ensures var c := CutAt(palette, chat, RunUp(palette, chat, pen, s, brk));
            Holds(palette, chat, c.line, first, from, c.next)
    decreases |chat| - s
  {
    hide Holds, IsCode, Glyph, Added, Overflows;
    if s < |chat| {
      var brk' := if IsSpace(palette, chat, s) then Break(s, pen.line) else brk;
      if IsCode(palette, chat, s) {
        CodeHeld(palette, chat, pen.line, first, from, s);
        RunUpHolds(palette, chat, first, from, PenStep(palette, chat, pen, s), s + 2, brk');
      } else {
        if IsSpace(palette, chat, s) { SpaceHeld(palette, chat, pen.line, first, from, s); }
        if !Refuses(palette, chat, pen, s) {
          RoomFor(chat, s, |pen.line|, Needs(pen, Glyph(chat, s)));
          HoldsMore(palette, chat, pen.line, first, from, s, pen.mark, pen.colour, pen.ink, Needs(pen, Glyph(chat, s)));
          if !Halts(palette, chat, pen, s) {
            HoldsWidth(palette, chat, PenStep(palette, chat, pen, s).line, first, from, s + 1);
            RunUpHolds(palette, chat, first, from, PenStep(palette, chat, pen, s), s + 1, brk');
          }
        }
      }
    }
  }

  lemma RoomFor(chat: seq<Byte>, s: nat, d: nat, needs: int)
    requires !Overflows(chat, s, d, needs)
    ensures d + needs <= WIDTH
  {
  }

  lemma HoldsWidth(palette: Palette, chat: seq<Byte>, line: seq<Byte>, first: bool, from: nat, to: nat)
    requires Holds(palette, chat, line, first, from, to)
    ensures |line| <= WIDTH
  {
  }

  lemma CutHolds(palette: Palette, chat: seq<Byte>, first: bool, from: nat, ink: Byte)
    ensures var c := NextCut(palette, chat, first, from, ink);
            && Holds(palette, chat, c.line, first, from, c.next)
            && |c.line| <= WIDTH && (c.line == [] ==> c.next >= |chat|)
  {
    hide RunUp, CutAt, Words, Whole, Shown, Continues;
    NothingHeld(palette, chat, first, from);
    RunUpHolds(palette, chat, first, from, NewPen(chat, first, from, ink), from, NO_BREAK);
    RunUpAdvances(palette, chat, from, NewPen(chat, first, from, ink), from, NO_BREAK);
  }

  lemma {:induction false} PacketsSent(palette: Palette, chat: seq<Byte>, ps: seq<seq<Byte>>, from: nat, ink: Byte)
    requires Sent(palette, chat, ps, from)
    ensures var all := ps + Packets(palette, chat, ps == [], from, ink);
            ArePackets(all) && Text(all) == Words(palette, chat, 0)
    decreases |chat| - from
  {
    hide Sent, Holds, NextCut, Spaces, Words, Text, ArePackets;
    var c := NextCut(palette, chat, ps == [], from, ink);
    CutHolds(palette, chat, ps == [], from, ink);
    CutGoesOn(palette, chat, ps == [], from, ink);
    if c.line == [] && ps != [] {
      LineSkipped(palette, chat, ps, from, c.next);
      NothingLeft(palette, chat, ps, c.next);
      assert ps + [] == ps;
    } else {
      LineSent(palette, chat, ps, c.line, from, c.next);
      if c.line != [] {
        PacketsSent(palette, chat, ps + [Filled(c.line)], c.next, c.ink);
        assert ps + ([Filled(c.line)] + Packets(palette, chat, false, c.next, c.ink))
            == (ps + [Filled(c.line)]) + Packets(palette, chat, false, c.next, c.ink);
      } else {
        NothingLeft(palette, chat, ps + [Filled(c.line)], c.next);
        assert Filled([]) == Spaces(WIDTH);
      }
    }
  }

  lemma CutGoesOn(palette: Palette, chat: seq<Byte>, first: bool, from: nat, ink: Byte)
    ensures var c := NextCut(palette, chat, first, from, ink);
            c.line != [] ==> from < |chat| && c.next > from
  {
    RunUpAdvances(palette, chat, from, NewPen(chat, first, from, ink), from, NO_BREAK);
  }

  /** The packets hold the text of the message, in order, none lost and none twice. */
  lemma PacketsKeepText(palette: Palette, chat: seq<Byte>)
    ensures var ps := Packets(palette, chat, true, 0, YELLOW);
            && ArePackets(ps) && Text(ps) == Words(palette, chat, 0)
            && ArePackets(ps[..1]) && Text(ps[..1]) <= Words(palette, chat, 0)
  {
    hide Sent, Text, ArePackets, Packets, Words, Holds;
    NothingSent(palette, chat);
    PacketsSent(palette, chat, [], 0, YELLOW);
    var ps := Packets(palette, chat, true, 0, YELLOW);
    assert [] + ps == ps;
    FirstSent(palette, chat);
  }

  lemma FirstSent(palette: Palette, chat: seq<Byte>)
    ensures var ps := Packets(palette, chat, true, 0, YELLOW);
            ArePackets(ps[..1]) && Text(ps[..1]) <= Words(palette, chat, 0)
  {
    hide Sent, Text, ArePackets, NextCut, Words, Holds, Spaces;
    var c := NextCut(palette, chat, true, 0, YELLOW);
    var ps := Packets(palette, chat, true, 0, YELLOW);
    NothingSent(palette, chat);
    CutHolds(palette, chat, true, 0, YELLOW);
    LineSent(palette, chat, [], c.line, 0, c.next);
    assert Filled([]) == Spaces(WIDTH);
    assert ps[..1] == [] + [Filled(c.line)];
    NothingLeft(palette, chat, ps[..1], c.next);
  }

  // ---- Where lines are broken -------------------------------------------------------------

  /** A space stands among the characters from `s` to before `to`, the very first character
      of a line (`!begun`) not counting. */
  predicate SpaceIn(palette: Palette, chat: seq<Byte>, s: nat, to: nat, begun: bool)
    decreases |chat| - s
  {
    s < to && s < |chat| &&
    if IsCode(palette, chat, s) then SpaceIn(palette, chat, s + 2, to, begun)
    else (begun && Glyph(chat, s) == SPACE) || SpaceIn(palette, chat, s + 1, to, true)
  }

  /** The break is the last space that came up. */
  lemma {:induction false} LastSpace(palette: Palette, chat: seq<Byte>, pen: Pen, s: nat, brk: Break)
    ensures var stop := RunUp(palette, chat, pen, s, brk);
            && s <= stop.at
            && if SpaceIn(palette, chat, s, stop.at + 1, true) then
                 && s <= stop.brk.at <= stop.at && stop.brk.at < |chat| && IsSpace(palette, chat, stop.brk.at)
                 && !SpaceIn(palette, chat, stop.brk.at + 1, stop.at + 1, true)
               else stop.brk == brk
    decreases |chat| - s
  {
    hide IsCode, Glyph, Overflows, PenStep, Halts;
    var stop := RunUp(palette, chat, pen, s, brk);
    if s < |chat| {
      var next := After(palette, chat, s);
      if !Halts(palette, chat, pen, s) {
        var brk' := if IsSpace(palette, chat, s) then Break(s, pen.line) else brk;
        LastSpace(palette, chat, PenStep(palette, chat, pen, s), next, brk');
      }
      assert SpaceIn(palette, chat, s, stop.at + 1, true)
        <==> IsSpace(palette, chat, s) || SpaceIn(palette, chat, next, stop.at + 1, true);
    }
  }

  lemma StepBegins(palette: Palette, chat: seq<Byte>, pen: Pen, s: nat)
    requires s < |chat|
    ensures PenStep(palette, chat, pen, s).line != [] <==> pen.line != [] || !IsCode(palette, chat, s)
  {
    hide IsCode, Glyph;
  }

  /** A line has a break exactly if a space came up behind its first character. */
  lemma {:induction false} HasBreak(palette: Palette, chat: seq<Byte>, pen: Pen, s: nat, brk: Break)
    requires (brk.line != [] ==> pen.line != [])
    ensures var stop := RunUp(palette, chat, pen, s, brk);
            stop.brk.line != [] <==> brk.line != [] || SpaceIn(palette, chat, s, stop.at + 1, pen.line != [])
    decreases |chat| - s
  {
    hide IsCode, Glyph, Overflows, PenStep, Halts;
    LastSpace(palette, chat, pen, s, brk);
    if s < |chat| && !Halts(palette, chat, pen, s) {
      var brk' := if IsSpace(palette, chat, s) then Break(s, pen.line) else brk;
      StepBegins(palette, chat, pen, s);
      HasBreak(palette, chat, PenStep(palette, chat, pen, s), After(palette, chat, s), brk');
      LastSpace(palette, chat, PenStep(palette, chat, pen, s), After(palette, chat, s), brk');
    }
  }

  lemma SpaceAnyhow(palette: Palette, chat: seq<Byte>, s: nat, to: nat)
    ensures SpaceIn(palette, chat, s, to, false) ==> SpaceIn(palette, chat, s, to, true)
    decreases |chat| - s
  {
  }

  /** A line that is just full ends with a word. */
  lemma FullMeans(palette: Palette, chat: seq<Byte>, pen: Pen, s: nat)
    requires s + 1 < |chat| && |pen.line| < WIDTH && (pen.mark ==> pen.line == [])
    requires !Refuses(palette, chat, pen, s) && |PenStep(palette, chat, pen, s).line| == WIDTH
    ensures chat[s + 1] == SPACE
  {
    hide IsCode, Glyph;
  }

  lemma {:induction false} StopPen(palette: Palette, chat: seq<Byte>, pen: Pen, s: nat, brk: Break)
    requires (pen.mark ==> pen.line == []) && |pen.line| < WIDTH
    ensures var stop := RunUp(palette, chat, pen, s, brk);
            && (stop.pen.mark ==> stop.pen.line == []) && |stop.pen.line| < WIDTH
            && (stop.at < |chat| ==> Halts(palette, chat, stop.pen, stop.at))
    decreases |chat| - s
  {
    hide IsCode, Glyph;
    if s < |chat| && !Halts(palette, chat, pen, s) {
      var brk' := if IsSpace(palette, chat, s) then Break(s, pen.line) else brk;
      StepWidth(palette, chat, pen, s);
      StopPen(palette, chat, PenStep(palette, chat, pen, s), After(palette, chat, s), brk');
    }
  }

  /** Unless it is the last, a line is full and ends with a word; or it ends before the last
      space that came up before the first character that found no room; or it is full of a
      single word. */
  lemma LinesBreakAtSpaces(palette: Palette, chat: seq<Byte>, first: bool, from: nat, ink: Byte)
    ensures var stop := RunUp(palette, chat, NewPen(chat, first, from, ink), from, NO_BREAK);
            var c := NextCut(palette, chat, first, from, ink);
            c.next >= |chat|
            || (|c.line| == WIDTH && chat[c.next] == SPACE)
            || (stop.at < |chat| && Refuses(palette, chat, stop.pen, stop.at)
                && if SpaceIn(palette, chat, from, stop.at + 1, false) then
                     && c.next > 0 && IsSpace(palette, chat, c.next - 1)
                     && !SpaceIn(palette, chat, c.next, stop.at + 1, true)
                   else c == Cut(stop.pen.line, stop.at, stop.pen.ink))
  {
    hide IsCode, Glyph, Overflows, RunUp;
    var pen := NewPen(chat, first, from, ink);
    var stop := RunUp(palette, chat, pen, from, NO_BREAK);
    StopPen(palette, chat, pen, from, NO_BREAK);
    LastSpace(palette, chat, pen, from, NO_BREAK);
    HasBreak(palette, chat, pen, from, NO_BREAK);
    SpaceAnyhow(palette, chat, from, stop.at + 1);
    if stop.at + 1 < |chat| && !Refuses(palette, chat, stop.pen, stop.at) {
      FullMeans(palette, chat, stop.pen, stop.at);
    }
  }

  lemma NothingSent(palette: Palette, chat: seq<Byte>)
    ensures Sent(palette, chat, [], 0) && Holds(palette, chat, [], true, 0, 0)
  {
  }

  lemma CodeHeld(palette: Palette, chat: seq<Byte>, line: seq<Byte>, first: bool, from: nat, s: nat)
    requires s < |chat| && IsCode(palette, chat, s)
    requires Holds(palette, chat, line, first, from, s)
    ensures Holds(palette, chat, line, first, from, s + 2)
  {
  }

  /** A full line is a packet; what comes next starts a line of its own. */
  lemma LineSent(palette: Palette, chat: seq<Byte>, ps: seq<seq<Byte>>, line: seq<Byte>, from: nat, to: nat)
    requires Sent(palette, chat, ps, from)
    requires Holds(palette, chat, line, ps == [], from, to) && (ps != [] ==> line != [])
    ensures var p := line + Spaces(WIDTH - |line|);
            Sent(palette, chat, ps + [p], to) && Holds(palette, chat, [], false, to, to)
  {
    hide Words, Shown, Whole, IsPacket, Sent, Continues;
    ShownNothing();
    assert TextOf([], true) == [];
    Padded(line, ps == []);
    SentMore(palette, chat, ps, line + Spaces(WIDTH - |line|), from, to);
    NothingHeld(palette, chat, false, to);
  }

  lemma LineSkipped(palette: Palette, chat: seq<Byte>, ps: seq<seq<Byte>>, from: nat, to: nat)
    requires Sent(palette, chat, ps, from) && Holds(palette, chat, [], ps == [], from, to)
    ensures Sent(palette, chat, ps, to)
  {
  }

  lemma NothingHeld(palette: Palette, chat: seq<Byte>, first: bool, at: nat)
    ensures Holds(palette, chat, [], first, at, at)
  {
  }

  lemma NothingLeft(palette: Palette, chat: seq<Byte>, ps: seq<seq<Byte>>, at: nat)
    requires Sent(palette, chat, ps, at)
    ensures ArePackets(ps) && Text(ps) <= Words(palette, chat, 0)
    ensures at >= |chat| ==> Text(ps) == Words(palette, chat, 0)
  {
  }

  /** A space is nothing to hold: a line that ends before it holds it as well. */
  lemma SpaceHeld(palette: Palette, chat: seq<Byte>, line: seq<Byte>, first: bool, from: nat, s: nat)
    requires s < |chat| && !IsCode(palette, chat, s) && Glyph(chat, s) == SPACE
    requires Holds(palette, chat, line, first, from, s)
    ensures Holds(palette, chat, line, first, from, s + 1)
  {
    hide Words, Shown, Whole, IsCode;
    WordsNext(palette, chat, s);
    assert [] + Words(palette, chat, s + 1) == Words(palette, chat, s + 1);
  }

  // ---- The loop -------------------------------------------------------------------------

  /** A character is added: the mark of a continued line first, then a colour code if one
      is needed.  A space right after the mark is swallowed. */
  method PutCharacter(line: seq<Byte>, c: Byte, addGt: bool, colour: int, ncolour: Byte, needs: int)
    returns (grown: seq<Byte>, now: int)
    requires needs == Needs(Pen(line, addGt, colour, ncolour), c)
    ensures Pen(grown, false, now, ncolour) == Inked(Pen(line, addGt, colour, ncolour), c) && line <= grown
  {
    grown, now := line, colour;
    var eatSpace := false;
    if addGt {
      if now != WHITE as int {
        grown, now := grown + [AMP] + [WHITE], WHITE as int;
      }
      grown, eatSpace := grown + [GT] + [SPACE], true;
    }
    assert grown == line + Mark(addGt, colour);
    if needs > 1 && now != ncolour as int {
      grown, now := grown + [AMP] + [ncolour] + [c], ncolour as int;
    } else if !eatSpace || c != SPACE {
      grown := grown + [c];
    }
  }

  /** `post_chat` for a message that goes to this client only.  Messages of other types
      than 0 are cut off after one packet. */
  method PostChat(chat: seq<Byte>, normal: bool, palette: Palette) returns (ps: seq<seq<Byte>>)
    ensures var all := Packets(palette, chat, true, 0, YELLOW);
            ps == if normal then all else all[..1]
  {
    hide RunUp, CutAt, NextCut, Packets, NewPen, IsCode, Glyph, Added, Spaces, ColourAt, Halts, Refuses, Pending,
         Marks, Inked;
    ps := [];
    var colour: int, ncolour := WHITE as int, YELLOW;
    if chat == [] || !IsPlain(chat[0]) { colour := -1; }
    var s, line: seq<Byte>, ws, wd, addGt, el := 0, [], -1, -1, false, true;
    ghost var from, ink, brk := 0, YELLOW, NO_BREAK;
    ghost var all := Packets(palette, chat, true, 0, YELLOW);
    FirstPen(chat);
    AtFirst(all);
    MarksNone(line);
    while s < |chat|
      invariant 0 <= from <= s && (s == from ==> line == [])
      invariant |line| < WIDTH && (addGt ==> line == []) && el == (ps == []) && (addGt ==> !el)
      invariant Marks(brk, line, ws, wd) && (wd > 0 ==> from <= ws < s)
      invariant RunUp(palette, chat, NewPen(chat, el, from, ink), from, NO_BREAK)
             == RunUp(palette, chat, Pen(line, addGt, colour, ncolour), s, brk)
      invariant Pending(ps, Packets(palette, chat, el, from, ink), all)
      invariant !normal ==> ps == []
      decreases |chat| - from, |chat| - s
    {
      ghost var pen := Pen(line, addGt, colour, ncolour);
      if IsCode(palette, chat, s) {
        CodeTurn(palette, chat, pen, s, brk);
        ncolour := ColourAt(palette, chat, s);
        s := s + 2;
        continue;
      }
      Turn(palette, chat, pen, s, brk);
      var c := Glyph(chat, s);
      if c == SPACE {
        ws, wd, brk := s, |line|, Break(s, line);
        MarksHere(line, s);
      }
      var needs := 1;
      if colour != ncolour as int && c != SPACE { needs := 3; }
      if line == [] && c <= SPACE { needs := 3; }

      var last := s;
      if Overflows(chat, s, |line|, needs) {
        MarksUse(brk, line, ws, wd);
        last := s - 1;
        if wd > 0 {
          line := line[..wd];
          last := ws;
        }
        ghost var cut := line;
        line := line + Spaces(WIDTH - |line|);
        NewLine(palette, chat, el, from, ink, Cut(cut, last + 1, ncolour));
      } else {
        var grown, now := PutCharacter(line, c, addGt, colour, ncolour, needs);
        MarksGrow(brk, line, grown, ws, wd);
        line, colour, addGt := grown, now, false;
        if |line| == WIDTH {
          assert line + Spaces(0) == line;
          NewLine(palette, chat, el, from, ink, Cut(line, s + 1, ncolour));
        }
      }
      s := last + 1;
      if |line| >= WIDTH {
        Joined(ps, line, Packets(palette, chat, false, s, ncolour), all);
        ps := ps + [line];
        if !normal { return; }
        el, line, addGt := false, [], true;
        colour := WHITE as int;
        if 0 <= last < |chat| && chat[last] != 0 && !(SPACE <= chat[last] <= 0x7E) { colour := -1; }
        ws, wd, brk := -1, -1, NO_BREAK;
        MarksNone(line);
        from, ink := s, ncolour;
        LaterPen(chat, from, ink);
      }
    }
    LastLine(palette, chat, el, from, ink, Pen(line, addGt, colour, ncolour), s, brk);
    AtLast(ps, Packets(palette, chat, el, from, ink), all);
    if line != [] || el {
      ps := ps + [line + Spaces(WIDTH - |line|)];
    }
  }

  /** `ws` and `wd` stand for the break. */
  ghost predicate Marks(brk: Break, line: seq<Byte>, ws: int, wd: int) {
    if wd > 0 then ws >= 0 && wd <= |line| && brk == Break(ws, line[..wd]) else brk.line == []
  }

  lemma MarksGrow(brk: Break, line: seq<Byte>, grown: seq<Byte>, ws: int, wd: int)
    requires Marks(brk, line, ws, wd) && line <= grown
    ensures Marks(brk, grown, ws, wd)
  {
    if wd > 0 { assert grown[..wd] == line[..wd]; }
  }

  lemma MarksUse(brk: Break, line: seq<Byte>, ws: int, wd: int)
    requires Marks(brk, line, ws, wd)
    ensures if wd > 0 then ws >= 0 && wd <= |line| && brk == Break(ws, line[..wd]) && brk.line != [] else brk.line == []
  {
  }

  lemma MarksHere(line: seq<Byte>, s: nat)
    ensures Marks(Break(s, line), line, s, |line|)
  {
    assert line[..|line|] == line;
  }

  lemma MarksNone(line: seq<Byte>)
    ensures Marks(NO_BREAK, line, -1, -1)
  {
  }

  /** What has been sent and what is still to come are everything. */
  ghost predicate Pending(sent: seq<seq<Byte>>, rest: seq<seq<Byte>>, all: seq<seq<Byte>>) {
    sent + rest == all
  }

  lemma AtFirst(all: seq<seq<Byte>>)
    ensures Pending([], all, all)
  {
    assert [] + all == all;
  }

  lemma Joined(sent: seq<seq<Byte>>, p: seq<Byte>, rest: seq<seq<Byte>>, all: seq<seq<Byte>>)
    requires Pending(sent, [p] + rest, all)
    ensures Pending(sent + [p], rest, all) && (sent == [] ==> sent + [p] == all[..1])
  {
  }

  lemma AtLast(sent: seq<seq<Byte>>, rest: seq<seq<Byte>>, all: seq<seq<Byte>>)
    requires Pending(sent, rest, all)
    ensures sent + rest == all && (sent == [] && |rest| == 1 ==> rest == all[..1])
  {
    if sent == [] { assert sent + rest == rest; }
  }

  lemma FirstPen(chat: seq<Byte>)
    ensures NewPen(chat, true, 0, YELLOW)
         == Pen([], false, if chat == [] || !IsPlain(chat[0]) then -1 else WHITE as int, YELLOW)
  {
  }

  lemma LaterPen(chat: seq<Byte>, from: nat, ink: Byte)
    requires from > 0
    ensures NewPen(chat, false, from, ink)
         == Pen([], true,
                if from <= |chat| && chat[from - 1] != 0 && !(SPACE <= chat[from - 1] <= 0x7E) then -1
                else WHITE as int,
                ink)
  {
  }

  /** One turn of the loop, as `RunUp` and `CutAt` see it. */
  lemma CodeTurn(palette: Palette, chat: seq<Byte>, pen: Pen, s: nat, brk: Break)
    requires s < |chat| && IsCode(palette, chat, s) && |pen.line| < WIDTH
    ensures RunUp(palette, chat, pen, s, brk)
         == RunUp(palette, chat, pen.(ink := ColourAt(palette, chat, s)), s + 2, brk)
  {
    hide IsCode;
  }

  lemma Turn(palette: Palette, chat: seq<Byte>, pen: Pen, s: nat, brk: Break)
    requires s < |chat| && !IsCode(palette, chat, s) && |pen.line| < WIDTH
    requires pen.mark ==> pen.line == []
    ensures var c := Glyph(chat, s);
            var brk' := if c == SPACE then Break(s, pen.line) else brk;
            var run, grown := RunUp(palette, chat, pen, s, brk), Inked(pen, c);
            if Overflows(chat, s, |pen.line|, Needs(pen, c)) then
              CutAt(palette, chat, run)
              == if brk'.line == [] then Cut(pen.line, s, pen.ink) else Cut(brk'.line, brk'.at + 1, pen.ink)
            else
              && |grown.line| <= WIDTH
              && if |grown.line| == WIDTH then CutAt(palette, chat, run) == Cut(grown.line, s + 1, pen.ink)
                 else run == RunUp(palette, chat, grown, s + 1, brk')
  {
    hide IsCode, Glyph, Inked, Overflows;
    if !Refuses(palette, chat, pen, s) { StepWidth(palette, chat, pen, s); }
  }

  lemma NewLine(palette: Palette, chat: seq<Byte>, first: bool, from: nat, ink: Byte, c: Cut)
    requires c.line != [] && |c.line| <= WIDTH
    requires CutAt(palette, chat, RunUp(palette, chat, NewPen(chat, first, from, ink), from, NO_BREAK)) == c
    ensures Packets(palette, chat, first, from, ink)
         == [c.line + Spaces(WIDTH - |c.line|)] + Packets(palette, chat, false, c.next, c.ink)
  {
    hide RunUp, CutAt, NewPen, Spaces;
  }

  lemma LastLine(palette: Palette, chat: seq<Byte>, first: bool, from: nat, ink: Byte, pen: Pen, s: nat, brk: Break)
    requires |pen.line| <= WIDTH && s >= |chat|
    requires RunUp(palette, chat, NewPen(chat, first, from, ink), from, NO_BREAK) == RunUp(palette, chat, pen, s, brk)
    ensures Packets(palette, chat, first, from, ink)
         == if pen.line != [] || first then [pen.line + Spaces(WIDTH - |pen.line|)] else []
  {
    hide NewPen, Spaces;
    assert [] + Spaces(WIDTH) == Spaces(WIDTH);
    if pen.line != [] { NothingBehind(palette, chat, s, pen.ink); }
  }

  lemma NothingBehind(palette: Palette, chat: seq<Byte>, s: nat, ink: Byte)
    requires s >= |chat|
    ensures Packets(palette, chat, false, s, ink) == []
  {
  }
}
