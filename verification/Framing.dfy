/** Cutting the byte stream from a client into packets.  The length of a packet depends on
    its first byte and on what has been negotiated so far, and handling a packet may
    change that; reads end anywhere. */
module Framing {
  import opened Wrappers
  import opened World

  /** `length` is 0 for a byte that starts no packet; no state is left when a packet ends
      the session. */
  datatype Protocol<!E> = Protocol(length: (E, Byte) -> nat, handle: (E, seq<Byte>) -> Option<E>)

  datatype Conn<E> = Conn(env: E, pending: seq<Byte>, alive: bool, delivered: seq<seq<Byte>>)

  function Deliver<E>(p: Protocol<E>, c: Conn<E>, packet: seq<Byte>): Conn<E> {
    var next := p.handle(c.env, packet);
    if next.None? then Conn(c.env, [], false, c.delivered + [packet])
    else Conn(next.value, [], true, c.delivered + [packet])
  }

  function Refuse<E>(c: Conn<E>): Conn<E> { c.(pending := [], alive := false) }

  // ---- Byte by byte -------------------------------------------------------------------

  function Feed<E>(p: Protocol<E>, c: Conn<E>, b: Byte): Conn<E> {
    if !c.alive then c
    else
      var buf := c.pending + [b];
      var n := p.length(c.env, buf[0]);
      if n > |buf| then c.(pending := buf)
      else if n == 0 then Refuse(c)
      else Deliver(p, c, buf)
  }

  function FeedAll<E>(p: Protocol<E>, c: Conn<E>, s: seq<Byte>): Conn<E>
    decreases |s|
  {
    if s == [] then c else FeedAll(p, Feed(p, c, s[0]), s[1..])
  }

  lemma {:induction false} FeedConcat<E>(p: Protocol<E>, c: Conn<E>, a: seq<Byte>, b: seq<Byte>)
    ensures FeedAll(p, c, a + b) == FeedAll(p, FeedAll(p, c, a), b)
    decreases |a|
  {
    if a == [] {
      assert a + b == b;
    } else {
      assert (a + b)[0] == a[0] && (a + b)[1..] == a[1..] + b;
      FeedConcat(p, Feed(p, c, a[0]), a[1..], b);
    }
  }

  lemma {:induction false} FeedDead<E>(p: Protocol<E>, c: Conn<E>, s: seq<Byte>)
    requires !c.alive
    ensures FeedAll(p, c, s) == c
    decreases |s|
  {
    if s != [] { FeedDead(p, c, s[1..]); }
  }

  /** What is pending is the start of one packet. */
  predicate IsStart<E>(p: Protocol<E>, c: Conn<E>) {
    c.alive && c.pending != [] ==> p.length(c.env, c.pending[0]) > |c.pending|
  }

  /** The rest of a packet completes it. */
  lemma {:induction false} FeedPacket<E>(p: Protocol<E>, c: Conn<E>, s: seq<Byte>)
    requires c.alive && |s| > 0
    requires var whole := c.pending + s; |whole| <= p.length(c.env, whole[0])
    ensures var whole := c.pending + s;
            FeedAll(p, c, s)
            == if |whole| == p.length(c.env, whole[0]) then Deliver(p, c, whole) else c.(pending := whole)
    decreases |s|
  {
    var buf, whole := c.pending + [s[0]], c.pending + s;
    assert buf + s[1..] == whole && buf[0] == whole[0];
    if |s| == 1 {
      assert buf == whole && s[1..] == [];
    } else {
      FeedPacket(p, c.(pending := buf), s[1..]);
    }
  }

  // ---- At one go ----------------------------------------------------------------------

  /** The packets of a stream that is there as a whole. */
  function Parse<E>(p: Protocol<E>, env: E, s: seq<Byte>): Conn<E>
    decreases |s|
  {
    if s == [] then Conn(env, [], true, [])
    else
      var n := p.length(env, s[0]);
      if n == 0 then Conn(env, [], false, [])
      else if n > |s| then Conn(env, s, true, [])
      else
        var next := p.handle(env, s[..n]);
        if next.None? then Conn(env, [], false, [s[..n]])
        else var rest := Parse(p, next.value, s[n..]); rest.(delivered := [s[..n]] + rest.delivered)
  }

  lemma {:induction false} FeedIsParse<E>(p: Protocol<E>, env: E, s: seq<Byte>, before: seq<seq<Byte>>)
    ensures var parsed := Parse(p, env, s);
            FeedAll(p, Conn(env, [], true, before), s) == parsed.(delivered := before + parsed.delivered)
    decreases |s|
  {
    var c := Conn(env, [], true, before);
    if s == [] {
      assert before + [] == before;
    } else {
      var n := p.length(env, s[0]);
      if n == 0 {
        assert c.pending + [s[0]] == [s[0]];
        FeedDead(p, Feed(p, c, s[0]), s[1..]);
        assert before + [] == before;
      } else if n > |s| {
        assert c.pending + s == s;
        FeedPacket(p, c, s);
        assert before + [] == before;
      } else {
        var packet, rest := s[..n], s[n..];
        assert s == packet + rest && c.pending + packet == packet;
        FeedConcat(p, c, packet, rest);
        FeedPacket(p, c, packet);
        var next := p.handle(env, packet);
        if next.None? {
          FeedDead(p, Deliver(p, c, packet), rest);
        } else {
          FeedIsParse(p, next.value, rest, before + [packet]);
          var more := Parse(p, next.value, rest).delivered;
          assert before + ([packet] + more) == (before + [packet]) + more;
        }
      }
    }
  }

  // ---- However it is cut ----------------------------------------------------------------

  function Joined(chunks: seq<seq<Byte>>): seq<Byte> {
    if chunks == [] then [] else chunks[0] + Joined(chunks[1..])
  }

  function Receive<E>(p: Protocol<E>, c: Conn<E>, chunks: seq<seq<Byte>>): Conn<E>
    decreases |chunks|
  {
    if chunks == [] then c else Receive(p, FeedAll(p, c, chunks[0]), chunks[1..])
  }

  lemma {:induction false} ReceiveJoined<E>(p: Protocol<E>, c: Conn<E>, chunks: seq<seq<Byte>>)
    ensures Receive(p, c, chunks) == FeedAll(p, c, Joined(chunks))
    decreases |chunks|
  {
    if chunks != [] {
      ReceiveJoined(p, FeedAll(p, c, chunks[0]), chunks[1..]);
      FeedConcat(p, c, chunks[0], Joined(chunks[1..]));
    }
  }

  /** However a stream is cut into reads, the same packets are delivered, in the same
      states, as from the whole of it at one go; and the same bytes are left pending. */
  lemma CutsDoNotMatter<E>(p: Protocol<E>, env: E, chunks: seq<seq<Byte>>)
    ensures Receive(p, Conn(env, [], true, []), chunks) == Parse(p, env, Joined(chunks))
  {
    ReceiveJoined(p, Conn(env, [], true, []), chunks);
    FeedIsParse(p, env, Joined(chunks), []);
    var parsed := Parse(p, env, Joined(chunks));
    assert [] + parsed.delivered == parsed.delivered;
  }

  /** `remote_received`, with `rcvdpkt` and what goes with it. */
  class Receiver<E> {
    const p: Protocol<E>
    var env: E
    var rcvdpkt: seq<Byte>
    var alive: bool
    var delivered: seq<seq<Byte>>

    ghost function View(): Conn<E>
      reads this
    {
      Conn(env, rcvdpkt, alive, delivered)
    }

    ghost predicate Valid()
      reads this
    {
      IsStart(p, View())
    }

    constructor (p: Protocol<E>, env: E)
      ensures Valid() && this.p == p && View() == Conn(env, [], true, [])
    {
      this.p, this.env, rcvdpkt, alive, delivered := p, env, [], true, [];
    }

    method ProcessClientMessage(packet: seq<Byte>)
      requires alive
      modifies this
      ensures View() == Deliver(p, old(View()), packet)
    {
      delivered := delivered + [packet];
      rcvdpkt := [];
      var next := p.handle(env, packet);
      if next.None? { alive := false; } else { env := next.value; }
    }

    /** What one read has brought.  A read that is exactly one packet is not copied. */
    method RemoteReceived(str: seq<Byte>)
      requires Valid() && str != []
      modifies this
      ensures Valid() && View() == FeedAll(p, old(View()), str)
    {
      ghost var c := View();
      if !alive {
        FeedDead(p, c, str);
        return;
      }
      if rcvdpkt == [] {
        var clen := p.length(env, str[0]);
        if clen == |str| {
          assert c.pending + str == str;
          FeedPacket(p, c, str);
          ProcessClientMessage(str);
          return;
        }
      }
      var i := 0;
      while i < |str|
        invariant 0 <= i <= |str| && Valid() && alive
        invariant FeedAll(p, View(), str[i..]) == FeedAll(p, c, str)
      {
        ghost var now := View();
        assert str[i..][1..] == str[i + 1..];
        rcvdpkt := rcvdpkt + [str[i]];
        var clen := p.length(env, rcvdpkt[0]);
        if clen <= |rcvdpkt| {
          if clen == 0 {
            rcvdpkt, alive := [], false;
            FeedDead(p, View(), str[i + 1..]);
            return;
          }
          ProcessClientMessage(rcvdpkt);
          if !alive {
            FeedDead(p, View(), str[i + 1..]);
            return;
          }
        }
        i := i + 1;
      }
    }
  }

  // ---- The other direction --------------------------------------------------------------

  /** What waits to be sent. */
  class Outgoing {
    var buf: seq<Byte>
    var start: nat
    ghost var written: seq<Byte>
    ghost var sent: seq<Byte>

    /** Everything written is either sent or waiting, in order, and nothing twice. */
    ghost predicate Valid()
      reads this
    {
      start <= |buf| && sent + buf[start..] == written
    }

    constructor ()
      ensures Valid() && written == [] && sent == []
    {
      buf, start, written, sent := [], 0, [], [];
    }

    /** `write_to_remote` */
    method WriteToRemote(str: seq<Byte>)
      requires Valid()
      modifies this
      ensures Valid() && written == old(written) + str && sent == old(sent)
    {
      ghost var waiting := buf[start..];
      buf := buf + str;
      written := written + str;
      assert buf[start..] == waiting + str;
    }

    /** `flush_to_remote`; `rv` is how many bytes the system took, or negative. */
    method FlushToRemote(rv: int)
      requires Valid() && rv <= |buf| - start
      modifies this
      ensures Valid() && written == old(written)
      ensures sent == old(sent) + (if rv > 0 then old(buf[start..start + rv]) else [])
    {
      if rv > 0 {
        ghost var waiting := buf[start..];
        sent := sent + buf[start..start + rv];
        assert waiting == buf[start..start + rv] + buf[start + rv..];
        if rv != |buf| - start { start := start + rv; } else { buf, start := [], 0; }
      }
    }
  }
}
