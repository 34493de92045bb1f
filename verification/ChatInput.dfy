/** Chat as it comes in: text of 64 characters in every packet, longer lines in several. */
module ChatInput {
  import opened World
  import opened Wrappers

  const STRLEN: nat := 64
  const PKBUF: nat := 8192
  const SPACE: Byte := 0x20
  const NBSP: Byte := 0xFF
  const CONTINUED: Byte := 1

  type Ascii = b: int | 0 < b < 128 witness 1

  /** `cp437_ascii`: what the upper half of the code page looks like in plain ASCII. */
  const LOOK_ALIKES: seq<Ascii> := [
    0x43, 0x75, 0x65, 0x61, 0x61, 0x61, 0x61, 0x63, 0x65, 0x65, 0x65, 0x69, 0x69, 0x69, 0x41, 0x41,
    0x45, 0x2A, 0x2A, 0x6F, 0x6F, 0x6F, 0x75, 0x75, 0x79, 0x4F, 0x55, 0x63, 0x24, 0x59, 0x50, 0x73,
    0x61, 0x69, 0x6F, 0x75, 0x6E, 0x4E, 0x61, 0x6F, 0x3F, 0x2B, 0x2B, 0x2A, 0x2A, 0x21, 0x3C, 0x3E,
    0x23, 0x23, 0x23, 0x7C, 0x7C, 0x7C, 0x7C, 0x2B, 0x2B, 0x7C, 0x7C, 0x2B, 0x2B, 0x2B, 0x2B, 0x2B,
    0x2B, 0x2D, 0x2D, 0x7C, 0x2D, 0x2B, 0x7C, 0x7C, 0x2B, 0x2B, 0x2D, 0x2D, 0x7C, 0x2D, 0x2B, 0x2D,
    0x2D, 0x2D, 0x2D, 0x2B, 0x2B, 0x2B, 0x2B, 0x2B, 0x2B, 0x2B, 0x2B, 0x23, 0x23, 0x7C, 0x7C, 0x23,
    0x61, 0x42, 0x54, 0x50, 0x45, 0x73, 0x79, 0x74, 0x2A, 0x2A, 0x2A, 0x2A, 0x2A, 0x2A, 0x45, 0x4E,
    0x3D, 0x2B, 0x3E, 0x3C, 0x2B, 0x2B, 0x2D, 0x3D, 0x2E, 0x2E, 0x2E, 0x20, 0x6E, 0x32, 0x2A, 0x20
  ]

  /** A packet's text field, and the byte in front of it. */
  datatype Packet = Packet(messageType: Byte, text: seq<Byte>)

  predicate IsPacket(p: Packet) { |p.text| == STRLEN }

  // ---- The text of one packet ------------------------------------------------------------

  function NulAs(fullCp437: bool): (b: Byte)
    ensures b != 0
  {
    if fullCp437 then NBSP else SPACE
  }

  /** A character of a packet that is continued. */
  function Continued(b: Byte, fullCp437: bool): Byte {
    if b == 0 then NulAs(fullCp437) else b
  }

  /** A character of any other packet. */
  function Plain(b: Byte, fullCp437: bool): (c: Byte)
    ensures c != 0
  {
    if b == 0 then NulAs(fullCp437)
    else if !fullCp437 && b >= 128 then LOOK_ALIKES[b - 128]
    else b
  }

  function AllContinued(s: seq<Byte>, fullCp437: bool): (r: seq<Byte>)
    ensures |r| == |s|
  {
    seq(|s|, i requires 0 <= i < |s| => Continued(s[i], fullCp437))
  }

  function AllPlain(s: seq<Byte>, fullCp437: bool): (r: seq<Byte>)
    ensures |r| == |s| && 0 !in r
  {
    seq(|s|, i requires 0 <= i < |s| => Plain(s[i], fullCp437))
  }

  predicate IsBlank(b: Byte) { b == SPACE || b == 0 }

  /** Without the blanks at the end. */
  function Trimmed(s: seq<Byte>): (r: seq<Byte>)
    ensures r <= s && (r != [] ==> !IsBlank(r[|r| - 1]))
    ensures forall i :: |r| <= i < |s| ==> IsBlank(s[i])
  {
    if s != [] && IsBlank(s[|s| - 1]) then Trimmed(s[..|s| - 1]) else s
  }

  /** `sanitise_nbstring` */
  function Sanitised(s: seq<Byte>, fullCp437: bool): seq<Byte> {
    Trimmed(AllPlain(Trimmed(s), fullCp437))
  }

  lemma {:induction false} TrimmedUnique(s: seq<Byte>, r: seq<Byte>)
    requires r <= s && (r != [] ==> !IsBlank(r[|r| - 1]))
    requires forall i :: |r| <= i < |s| ==> IsBlank(s[i])
    ensures Trimmed(s) == r
  {
    if |r| < |s| {
      TrimmedUnique(s[..|s| - 1], r);
    }
  }

  lemma {:induction false} UpToNulIs(s: seq<Byte>, n: nat)
    requires n < |s| && s[n] == 0 && 0 !in s[..n]
    ensures UpToNul(s) == s[..n]
    decreases n
  {
    if n > 0 {
      assert s[..n][0] == s[0] && s[1..][..n - 1] == s[..n][1..];
      UpToNulIs(s[1..], n - 1);
    }
  }

  /** Character by character: no blank is left at the end; a NUL before that is shown as a blank
      of the kind that the client knows; and one that only knows ASCII gets what looks like it. */
  lemma SanitisedMeans(s: seq<Byte>, fullCp437: bool)
    ensures var r := Sanitised(s, fullCp437);
            && |r| <= |s| && (r != [] ==> r[|r| - 1] !in [0, 0x20] && s[|r| - 1] !in [0, 0x20])
            && (forall i :: 0 <= i < |r| ==>
                  r[i] == if s[i] == 0 then (if fullCp437 then 0xFF else 0x20)
                          else if s[i] < 128 || fullCp437 then s[i] else LOOK_ALIKES[s[i] - 128])
            && (forall i :: |r| <= i < |s| ==>
                  s[i] in [0, 0x20] || (!fullCp437 && s[i] >= 128 && LOOK_ALIKES[s[i] - 128] == 0x20))
  {
    var plain := AllPlain(Trimmed(s), fullCp437);
    assert forall i :: 0 <= i < |plain| ==> plain[i] == Plain(s[i], fullCp437);
  }

  /** The length of the string without the blanks at its end. */
  method TextLength(buf: array<Byte>) returns (l: nat)
    requires buf.Length == STRLEN + 1
    ensures l <= STRLEN && buf[..l] == Trimmed(buf[..STRLEN])
  {
    hide Trimmed;
    l := 0;
    for i := 0 to STRLEN
      invariant 0 <= l <= i && (l > 0 ==> !IsBlank(buf[l - 1]))
      invariant forall j :: l <= j < i ==> IsBlank(buf[j])
    {
      if buf[i] != SPACE && buf[i] != 0 { l := i + 1; }
    }
    TrimmedUnique(buf[..STRLEN], buf[..l]);
  }

  method Replace(buf: array<Byte>, l: nat, fullCp437: bool)
    requires l <= STRLEN < buf.Length
    modifies buf
    ensures buf[..l] == AllPlain(old(buf[..l]), fullCp437)
    ensures forall j :: l <= j < buf.Length ==> buf[j] == old(buf[j])
  {
    for i := 0 to l
      invariant forall j :: 0 <= j < i ==> buf[j] == Plain(old(buf[j]), fullCp437)
      invariant forall j :: i <= j < buf.Length ==> buf[j] == old(buf[j])
    {
      if fullCp437 {
        if buf[i] == 0 { buf[i] := NBSP; }
      } else if buf[i] == 0 {
        buf[i] := SPACE;
      } else if buf[i] >= 128 {
        buf[i] := LOOK_ALIKES[buf[i] - 128];
      }
    }
  }

  /** The blanks at the end of the buffer become NULs. */
  method CutBlanks(buf: array<Byte>) returns (p: nat)
    requires buf.Length == STRLEN + 1 && buf[STRLEN] == 0
    modifies buf
    ensures p <= STRLEN && buf[..p] == Trimmed(old(buf[..STRLEN]))
    ensures forall j :: p <= j <= STRLEN ==> buf[j] == 0
  {
    hide Trimmed;
    p := STRLEN;
    while p > 0 && (buf[p - 1] == SPACE || buf[p - 1] == 0)
      invariant 0 <= p <= STRLEN
      invariant buf[..p] == old(buf[..p])
      invariant forall j :: p <= j < STRLEN ==> IsBlank(old(buf[j]))
      invariant forall j :: p <= j <= STRLEN ==> buf[j] == 0
    {
      p := p - 1;
      buf[p] := 0;
    }
    TrimmedUnique(old(buf[..STRLEN]), buf[..p]);
  }

  lemma TrimmedFurther(s: seq<Byte>, t: seq<Byte>)
    requires s <= t && forall j :: |s| <= j < |t| ==> IsBlank(t[j])
    ensures Trimmed(t) == Trimmed(s)
  {
    TrimmedUnique(t, Trimmed(s));
  }

  /** The string is tidied in a buffer of its own, which ends up with NULs behind it. */
  method SanitiseNbString(str: seq<Byte>, fullCp437: bool) returns (buf: array<Byte>)
    requires |str| == STRLEN
    ensures fresh(buf) && buf.Length == STRLEN + 1 && buf[STRLEN] == 0
    ensures UpToNul(buf[..]) == Sanitised(str, fullCp437)
  {
    hide Trimmed, AllPlain, UpToNul;
    buf := new Byte[STRLEN + 1](_ => 0);
    forall i | 0 <= i < STRLEN { buf[i] := str[i]; }
    assert buf[..STRLEN] == str;
    var l := TextLength(buf);
    Replace(buf, l, fullCp437);
    ghost var plain := AllPlain(Trimmed(str), fullCp437);
    assert forall j :: l <= j < STRLEN ==> buf[j] == str[j];
    ghost var now := buf[..STRLEN];
    assert now[..l] == buf[..l] == plain;
    assert forall j :: l <= j < STRLEN ==> now[j] == str[j] && IsBlank(str[j]);
    TrimmedFurther(plain, now);
    var p := CutBlanks(buf);
    assert buf[..p] <= plain && 0 !in buf[..p];
    assert buf[..][..p] == buf[..p];
    UpToNulIs(buf[..], p);
  }

  /** A continued packet keeps all its characters. */
  method KeepAll(str: seq<Byte>, fullCp437: bool) returns (buf: array<Byte>)
    requires |str| == STRLEN
    ensures fresh(buf) && buf.Length == STRLEN + 1 && buf[..] == AllContinued(str, fullCp437) + [0]
    ensures forall j :: 0 <= j < STRLEN ==>
              buf[j] == if str[j] != 0 then str[j] else if fullCp437 then 0xFF else 0x20
  {
    buf := new Byte[STRLEN + 1](i => 0);
    forall i | 0 <= i < STRLEN { buf[i] := str[i]; }
    for i := 0 to STRLEN
      invariant forall j :: 0 <= j < i ==> buf[j] == Continued(str[j], fullCp437)
      invariant forall j :: i <= j < STRLEN ==> buf[j] == str[j]
      invariant buf[STRLEN] == 0
    {
      if buf[i] == 0 { buf[i] := if fullCp437 then NBSP else SPACE; }
    }
  }

  // ---- Putting packets together ----------------------------------------------------------

  /** What is still pending after a packet, and the line that it completes, if any. */
  function Take(pending: seq<Byte>, p: Packet, fullCp437: bool): (seq<Byte>, Option<seq<Byte>>) {
    if p.messageType == CONTINUED then (pending + AllContinued(p.text, fullCp437), None)
    else ([], Some(pending + Sanitised(p.text, fullCp437)))
  }

  /** All lines that a stream of packets completes. */
  function TakeAll(pending: seq<Byte>, ps: seq<Packet>, fullCp437: bool): (seq<Byte>, seq<seq<Byte>>)
    decreases |ps|
  {
    if ps == [] then (pending, [])
    else
      var (next, line) := Take(pending, ps[0], fullCp437);
      var (end, lines) := TakeAll(next, ps[1..], fullCp437);
      (end, (if line.Some? then [line.value] else []) + lines)
  }

  /** The buffer in which a line is collected. */
  class Input {
    var pendingChat: array?<Byte>
    var pendingLen: nat

    ghost predicate Valid()
      reads this, pendingChat
    {
      if pendingChat == null then pendingLen == 0
      else STRLEN < pendingChat.Length && pendingLen < pendingChat.Length && 0 !in pendingChat[..pendingLen]
    }

    ghost function Pending(): seq<Byte>
      reads this, pendingChat
      requires Valid()
    {
      if pendingChat == null then [] else pendingChat[..pendingLen]
    }

    constructor ()
      ensures Valid() && Pending() == []
    {
      pendingChat, pendingLen := null, 0;
    }

    /** There is room for one more packet and a NUL behind it. */
    method MakeRoom()
      requires Valid()
      modifies this
      ensures Valid() && Pending() == old(Pending())
      ensures pendingChat != null && pendingLen + STRLEN < pendingChat.Length
      ensures pendingChat == old(pendingChat) || fresh(pendingChat)
    {
      if pendingChat == null {
        pendingChat, pendingLen := new Byte[PKBUF](_ => 0), 0;
      }
      if pendingLen + STRLEN >= pendingChat.Length {
        var longer := new Byte[pendingChat.Length * 2](_ => 0);
        forall i | 0 <= i < pendingLen { longer[i] := pendingChat[i]; }
        assert longer[..pendingLen] == pendingChat[..pendingLen];
        pendingChat := longer;
      }
    }

    method Collect(msg: array<Byte>)
      requires Valid() && pendingChat != null && pendingLen + STRLEN < pendingChat.Length
      requires msg != pendingChat && msg.Length == STRLEN + 1
      modifies this`pendingLen, pendingChat
      ensures pendingLen == old(pendingLen) + STRLEN && pendingLen < pendingChat.Length
      ensures pendingChat[..pendingLen] == old(Pending()) + msg[..STRLEN] && pendingChat[pendingLen] == 0
    {
      forall i | 0 <= i < STRLEN { pendingChat[pendingLen + i] := msg[i]; }
      pendingLen := pendingLen + STRLEN;
      pendingChat[pendingLen] := 0;
    }

    /** `process_chat_message` as far as the line is complete.  The message arrives in a
        buffer that ends with a NUL. */
    method ProcessChatMessage(messageType: Byte, msg: array<Byte>) returns (line: Option<seq<Byte>>)
      requires Valid() && msg != pendingChat && msg.Length == STRLEN + 1 && msg[STRLEN] == 0
      requires messageType == CONTINUED ==> 0 !in msg[..STRLEN]
      modifies this, pendingChat
      ensures Valid() && (pendingChat == old(pendingChat) || fresh(pendingChat))
      ensures Pending() == if messageType == CONTINUED then old(Pending()) + old(msg[..STRLEN]) else []
      ensures line == if messageType == CONTINUED then None else Some(old(Pending()) + old(UpToNul(msg[..])))
    {
      ghost var text := msg[..];
      var all := msg[..];
      if messageType == CONTINUED || pendingLen > 0 {
        MakeRoom();
        Collect(msg);
        if messageType == CONTINUED { return None; }
        all := pendingChat[..pendingLen + 1];
        UpToNulBehind(old(Pending()), text);
        assert all == old(Pending()) + text;
      } else {
        assert [] + UpToNul(text) == UpToNul(text);
      }
      pendingLen := 0;
      line := Some(UpToNul(all));
    }

    /** A message packet is decoded and taken. */
    method Receive(p: Packet, fullCp437: bool) returns (line: Option<seq<Byte>>)
      requires Valid() && IsPacket(p)
      modifies this, pendingChat
      ensures Valid() && (pendingChat == old(pendingChat) || fresh(pendingChat))
      ensures (Pending(), line) == Take(old(Pending()), p, fullCp437)
    {
      var buf;
      if p.messageType == CONTINUED {
        buf := KeepAll(p.text, fullCp437);
        assert buf[..STRLEN] == AllContinued(p.text, fullCp437);
      } else {
        buf := SanitiseNbString(p.text, fullCp437);
      }
      line := ProcessChatMessage(p.messageType, buf);
    }
  }

  lemma {:induction false} UpToNulBehind(s: seq<Byte>, t: seq<Byte>)
    requires 0 !in s
    ensures UpToNul(s + t) == s + UpToNul(t)
  {
    if s == [] {
      assert s + t == t;
    } else {
      assert (s + t)[1..] == s[1..] + t;
      UpToNulBehind(s[1..], t);
    }
  }

  // ---- Lines arrive --------------------------------------------------------------------

  predicate IsText(s: seq<Byte>) { 0 !in s }

  function Padded(s: seq<Byte>): seq<Byte>
    requires |s| <= STRLEN
  {
    s + seq(STRLEN - |s|, _ => SPACE)
  }

  /** A line as a client sends it: some packets that are continued, and one that is not. */
  function Cut(line: seq<Byte>, full: nat, lastType: Byte): (ps: seq<Packet>)
    requires full * STRLEN <= |line| <= full * STRLEN + STRLEN
    ensures |ps| == full + 1 && forall p <- ps :: IsPacket(p)
  {
    if full == 0 then [Packet(lastType, Padded(line))]
    else [Packet(CONTINUED, line[..STRLEN])] + Cut(line[STRLEN..], full - 1, lastType)
  }

  /** The part of a line that is in its last packet. */
  function LastPart(line: seq<Byte>, full: nat): seq<Byte>
    requires full * STRLEN <= |line|
  {
    line[full * STRLEN..]
  }

  predicate Arrives(line: seq<Byte>, full: nat, fullCp437: bool)
    requires full * STRLEN <= |line|
  {
    var last := LastPart(line, full);
    (last != [] ==> last[|last| - 1] != SPACE) && (fullCp437 || forall b <- last :: b < 128)
  }

  lemma PaddedTrims(s: seq<Byte>)
    requires IsText(s) && |s| <= STRLEN
    ensures Trimmed(Padded(s)) == Trimmed(s)
  {
    var t := Trimmed(s);
    assert t <= Padded(s);
    forall i | |t| <= i < STRLEN ensures IsBlank(Padded(s)[i]) { }
    TrimmedUnique(Padded(s), t);
  }

  /** The last packet's text is taken as it is exactly if nothing in it is replaced or
      trimmed away. */
  lemma LastPartTaken(s: seq<Byte>, fullCp437: bool)
    requires IsText(s) && |s| <= STRLEN
    ensures Sanitised(Padded(s), fullCp437) == s
            <==> (s != [] ==> s[|s| - 1] != SPACE) && (fullCp437 || forall b <- s :: b < 128)
  {
    PaddedTrims(s);
    var plain := AllPlain(Trimmed(s), fullCp437);
    if (s != [] ==> s[|s| - 1] != SPACE) && (fullCp437 || forall b <- s :: b < 128) {
      TrimmedUnique(s, s);
      forall i | 0 <= i < |s| ensures plain[i] == s[i] { assert s[i] in s; }
      assert plain == s;
    }
    if Sanitised(Padded(s), fullCp437) == s && !fullCp437 {
      assert |Trimmed(plain)| <= |plain| <= |s|;
      assert plain == s;
      forall b | b in s ensures b < 128 {
        var i :| 0 <= i < |s| && s[i] == b;
        assert plain[i] == Plain(s[i], fullCp437);
      }
    }
  }

  /** What comes out of a line cut into packets: only the end of it may be changed. */
  function Received(line: seq<Byte>, full: nat, fullCp437: bool): seq<Byte>
    requires full * STRLEN <= |line| <= full * STRLEN + STRLEN
  {
    line[..full * STRLEN] + Sanitised(Padded(LastPart(line, full)), fullCp437)
  }

  lemma ReceivedMore(line: seq<Byte>, full: nat, fullCp437: bool)
    requires 0 < full && full * STRLEN <= |line| <= full * STRLEN + STRLEN
    ensures Received(line, full, fullCp437) == line[..STRLEN] + Received(line[STRLEN..], full - 1, fullCp437)
  {
    hide Sanitised, Padded;
    assert LastPart(line[STRLEN..], full - 1) == LastPart(line, full);
    assert line[..full * STRLEN] == line[..STRLEN] + line[STRLEN..][..(full - 1) * STRLEN];
  }

  lemma TakeOne(pending: seq<Byte>, p: Packet, more: seq<Packet>, fullCp437: bool)
    ensures var (end, lines) := TakeAll(Take(pending, p, fullCp437).0, more, fullCp437);
            TakeAll(pending, [p] + more, fullCp437)
            == (end, (if p.messageType == CONTINUED then [] else [pending + Sanitised(p.text, fullCp437)]) + lines)
  {
    hide Sanitised, AllContinued;
    assert ([p] + more)[1..] == more;
  }

  lemma TextKept(s: seq<Byte>, fullCp437: bool)
    requires IsText(s)
    ensures AllContinued(s, fullCp437) == s
  {
    forall i | 0 <= i < |s| ensures s[i] != 0 { assert s[i] in s; }
  }

  lemma {:induction false} LineTaken(pending: seq<Byte>, line: seq<Byte>, full: nat, lastType: Byte, fullCp437: bool,
                                     more: seq<Packet>)
    requires IsText(line) && full * STRLEN <= |line| <= full * STRLEN + STRLEN && lastType != CONTINUED
    ensures var (end, lines) := TakeAll([], more, fullCp437);
            TakeAll(pending, Cut(line, full, lastType) + more, fullCp437)
            == (end, [pending + Received(line, full, fullCp437)] + lines)
    decreases full
  {
    hide Sanitised, AllContinued, TakeAll, Padded, Received;
    if full == 0 {
      TakeOne(pending, Packet(lastType, Padded(line)), more, fullCp437);
      ReceivedAlone(line, fullCp437);
    } else {
      var head, rest := line[..STRLEN], line[STRLEN..];
      var later := Cut(rest, full - 1, lastType) + more;
      TextKept(head, fullCp437);
      TakeOne(pending, Packet(CONTINUED, head), later, fullCp437);
      assert Cut(line, full, lastType) + more == [Packet(CONTINUED, head)] + later;
      LineTaken(pending + head, rest, full - 1, lastType, fullCp437, more);
      ReceivedMore(line, full, fullCp437);
      assert (pending + head) + Received(rest, full - 1, fullCp437)
             == pending + (head + Received(rest, full - 1, fullCp437));
      Prefixless([pending + Received(line, full, fullCp437)] + TakeAll([], more, fullCp437).1);
    }
  }

  lemma ReceivedAlone(line: seq<Byte>, fullCp437: bool)
    requires |line| <= STRLEN
    ensures Received(line, 0, fullCp437) == Sanitised(Padded(line), fullCp437)
  {
    hide Sanitised, Padded;
    assert line[0..] == line;
    Prefixless(Sanitised(Padded(line), fullCp437));
  }

  lemma Prefixless<T>(s: seq<T>)
    ensures [] + s == s
  {
  }

  /** A line, the number of its packets that are full and continued, and the type of the
      last one. */
  datatype Sent = Sent(line: seq<Byte>, full: nat, lastType: Byte)

  predicate IsSent(m: Sent) {
    && IsText(m.line) && m.full * STRLEN <= |m.line| <= m.full * STRLEN + STRLEN && m.lastType != CONTINUED
  }

  function CutAll(ms: seq<Sent>): seq<Packet>
    requires forall i :: 0 <= i < |ms| ==> IsSent(ms[i])
  {
    if ms == [] then []
    else
      assert IsSent(ms[0]);
      Cut(ms[0].line, ms[0].full, ms[0].lastType) + CutAll(ms[1..])
  }

  /** A line is received as it was sent exactly if its last packet is taken as it is. */
  lemma ReceivedAsSent(m: Sent, fullCp437: bool)
    requires IsSent(m)
    ensures Received(m.line, m.full, fullCp437) == m.line <==> Arrives(m.line, m.full, fullCp437)
  {
    hide Sanitised, Padded;
    var last, taken := LastPart(m.line, m.full), Received(m.line, m.full, fullCp437);
    LastPartTaken(last, fullCp437);
    assert m.line == m.line[..m.full * STRLEN] + last;
    assert taken[m.full * STRLEN..] == Sanitised(Padded(last), fullCp437);
  }

  /** Whatever lines a client sends, each of them cut up as it pleases, they come out one by
      one, and exactly as they were if and only if every last packet is taken as it is. */
  lemma {:induction false} LinesArrive(ms: seq<Sent>, fullCp437: bool)
    requires forall i :: 0 <= i < |ms| ==> IsSent(ms[i])
    ensures var (pending, lines) := TakeAll([], CutAll(ms), fullCp437);
            && pending == [] && |lines| == |ms|
            && forall i :: 0 <= i < |ms| ==>
                 lines[i] == Received(ms[i].line, ms[i].full, fullCp437)
                 && (lines[i] == ms[i].line <==> Arrives(ms[i].line, ms[i].full, fullCp437))
  {
    hide TakeAll, Received, Arrives, Cut;
    if ms != [] {
      var m, rest := ms[0], ms[1..];
      LinesArrive(rest, fullCp437);
      LineTaken([], m.line, m.full, m.lastType, fullCp437, CutAll(rest));
      Prefixless(Received(m.line, m.full, fullCp437));
      ReceivedAsSent(m, fullCp437);
      var lines := TakeAll([], CutAll(rest), fullCp437).1;
      var all := [Received(m.line, m.full, fullCp437)] + lines;
      assert forall i :: 0 < i < |ms| ==> ms[i] == rest[i - 1] && all[i] == lines[i - 1];
    } else {
      NothingTaken(fullCp437);
    }
  }

  lemma NothingTaken(fullCp437: bool)
    ensures TakeAll([], [], fullCp437) == ([], [])
  {
  }
}
