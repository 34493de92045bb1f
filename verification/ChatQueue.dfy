/** Chat messages of any length in a ring of fixed-size entries: cut up under one lock,
    and put together again by every session that is meant to see them. */
module ChatQueue {
  import opened World
  import opened Ring
  import opened FixedQueue

  const CHUNK: nat := 64

  type Body = s: seq<Byte> | |s| == CHUNK witness seq(CHUNK, _ => 0)

  /** Who is to see an entry; -1 for no restriction. */
  datatype Route = Route(isGlobal: int, toPlayer: int, toLevel: int, toTeam: int, notPlayer: int, from: int)

  /** `len` counts the rest of the message, from this entry on. */
  datatype Entry = Entry(route: Route, mtype: int, len: int, body: Body)

  datatype Message = Message(route: Route, mtype: int, text: seq<Byte>)

  datatype Post = Post(mtype: int, text: seq<Byte>)

  function Routed(toWhere: int, toId: int, me: int): Route {
    Route(if toWhere == 0 then toId else 0, if toWhere == 1 then toId else -1,
          if toWhere == 2 then toId else -1, if toWhere == 3 then toId else -1, -1, me)
  }

  // ---- Cutting up ---------------------------------------------------------------------

  function Least(a: int, b: int): int { if a < b then a else b }

  /** The entries hold the message; what is behind the end of the last piece is whatever
      the slot held before. */
  ghost predicate Carries(es: seq<Entry>, m: Message) {
    var n := Least(|m.text|, CHUNK);
    && es != []
    && es[0].route == m.route && es[0].mtype == m.mtype && es[0].len == |m.text|
    && es[0].body[..n] == m.text[..n]
    && if |m.text| <= CHUNK then |es| == 1 else Carries(es[1..], m.(text := m.text[CHUNK..]))
  }

  /** How many entries a message takes. */
  function Pieces(len: nat): (n: nat)
    ensures n >= 1
  {
    if len <= CHUNK then 1 else 1 + Pieces(len - CHUNK)
  }

  lemma {:induction false} CarriesPieces(es: seq<Entry>, m: Message)
    requires Carries(es, m)
    ensures |es| == Pieces(|m.text|)
    decreases |m.text|
  {
    if |m.text| > CHUNK { CarriesPieces(es[1..], m.(text := m.text[CHUNK..])); }
  }

  function FilledSlot(old0: Body, piece: seq<Byte>): Body
    requires |piece| <= CHUNK
  {
    piece + old0[|piece|..]
  }

  /** `queue_chat`: all pieces go in under one lock; no session's place is touched. */
  method QueueChat(q: Queue<Entry>, toWhere: int, toId: int, mtype: int, text: seq<Byte>, me: int)
    requires q.Valid()
    modifies q
    ensures q.Valid() && q.queueLen == old(q.queueLen) && PlacesKept(old(q.Now()), q.Now())
    ensures old(q.trace.hist) <= q.trace.hist
    ensures Carries(q.trace.hist[|old(q.trace.hist)|..], Message(Routed(toWhere, toId, me), mtype, text))
  {
    var route := Routed(toWhere, toId, me);
    var rest, more := text, true;
    ghost var start, sent := q.trace.hist, [];
    assert forall es: seq<Entry> :: [] + es == es;
    while more
      invariant q.Valid() && q.queueLen == old(q.queueLen) && PlacesKept(old(q.Now()), q.Now())
      invariant q.trace.hist == start + sent
      invariant more ==> forall es :: Carries(es, Message(route, mtype, rest)) ==>
                  Carries(sent + es, Message(route, mtype, text))
      invariant !more ==> Carries(sent, Message(route, mtype, text))
      decreases |rest|, more
    {
      var n := Least(|rest|, CHUNK);
      var e := Entry(route, mtype, |rest|, FilledSlot(q.updates[q.currOffset].body, rest[..n]));
      q.Put(e);
      CarriesMore(sent, e, Message(route, mtype, rest), Message(route, mtype, text));
      sent := sent + [e];
      rest := rest[n..];
      more := |rest| > 0;
    }
    assert q.trace.hist[|start|..] == sent;
  }

  /** One more piece, whether or not it is the last. */
  lemma CarriesMore(sent: seq<Entry>, e: Entry, rest: Message, whole: Message)
    requires forall es :: Carries(es, rest) ==> Carries(sent + es, whole)
    requires e.route == rest.route && e.mtype == rest.mtype && e.len == |rest.text|
    requires e.body[..Least(|rest.text|, CHUNK)] == rest.text[..Least(|rest.text|, CHUNK)]
    ensures |rest.text| <= CHUNK ==> Carries(sent + [e], whole)
    ensures |rest.text| > CHUNK ==>
              forall es :: Carries(es, rest.(text := rest.text[CHUNK..])) ==> Carries(sent + [e] + es, whole)
  {
    if |rest.text| <= CHUNK {
      assert Carries([e], rest);
    } else {
      forall es | Carries(es, rest.(text := rest.text[CHUNK..])) ensures Carries(sent + [e] + es, whole) {
        assert ([e] + es)[1..] == es;
        assert Carries([e] + es, rest);
        assert sent + ([e] + es) == sent + [e] + es;
      }
    }
  }

  // ---- Putting together ---------------------------------------------------------------

  /** What decides which entries a session takes; none of it changes during one reading. */
  datatype Filter = Filter(me: int, level: int, levelChat: bool, ignored: set<int>)

  predicate Accepts(f: Filter, r: Route) {
    && !(r.notPlayer >= 0 && r.notPlayer == f.me)
    && !(r.toPlayer >= 0 && r.toPlayer != f.me)
    && !(r.toLevel >= 0 && r.toLevel != f.level)
    && !(f.levelChat && r.isGlobal != 0)
    && !(r.toTeam >= 0)
    && !(r.from >= 0 && r.from in f.ignored)
  }

  function Positive(n: int): nat { if n < 0 then 0 else n }

  /** One entry, given what is left over from the entries before. */
  function Take(f: Filter, buf: seq<Byte>, e: Entry): (seq<Post>, seq<Byte>) {
    if !Accepts(f, e.route) then ([], buf)
    else if e.len <= CHUNK && buf == [] then
      ([Post(e.mtype, if e.len <= 0 then UpToNul(e.body) else e.body[..e.len])], [])
    else
      var more := buf + e.body[..Positive(Least(e.len, CHUNK))];
      if e.len <= CHUNK then ([Post(e.mtype, more)], []) else ([], more)
  }

  function TakeAll(f: Filter, buf: seq<Byte>, es: seq<Entry>): (seq<Post>, seq<Byte>)
    decreases |es|
  {
    if es == [] then ([], buf)
    else
      var (posts, buf1) := Take(f, buf, es[0]);
      var (rest, buf2) := TakeAll(f, buf1, es[1..]);
      (posts + rest, buf2)
  }

  lemma {:induction false} TakeAllConcat(f: Filter, buf: seq<Byte>, a: seq<Entry>, b: seq<Entry>)
    ensures var (p1, b1) := TakeAll(f, buf, a);
            var (p2, b2) := TakeAll(f, b1, b);
            TakeAll(f, buf, a + b) == (p1 + p2, b2)
    decreases |a|
  {
    hide Take;
    if a == [] {
      assert a + b == b;
      assert [] + TakeAll(f, buf, b).0 == TakeAll(f, buf, b).0;
    } else {
      assert (a + b)[0] == a[0] && (a + b)[1..] == a[1..] + b;
      var (posts, buf1) := Take(f, buf, a[0]);
      TakeAllConcat(f, buf1, a[1..], b);
      var (p1, b1) := TakeAll(f, buf1, a[1..]);
      var p2 := TakeAll(f, b1, b).0;
      assert posts + (p1 + p2) == (posts + p1) + p2;
    }
  }

  /** `send_queued_chats`, reading until there is nothing more.  `lost` says that the
      session was overtaken and has started again at the end. */
  method SendQueuedChats(rd: Reading<Entry>, q: Queue<Entry>, f: Filter, buf0: seq<Byte>)
    returns (posts: seq<Post>, buf: seq<Byte>, lost: bool)
    requires rd.Valid(q)
    modifies rd
    ensures rd.Valid(q) && rd.At(q) == |q.trace.hist|
    ensures lost <==> !StillThere(q.View(), old(rd.Place()))
    ensures old(rd.Uncut(q)) ==> rd.Uncut(q) && (lost <==> |q.trace.hist| - old(rd.At(q)) >= q.queueLen)
    ensures (posts, buf) == if lost then ([], buf0) else TakeAll(f, buf0, q.trace.hist[old(rd.At(q))..])
  {
    hide Take, Inv, StillThere, Unbroken, Position, PreviousRoundKept, Usable;
    posts, buf, lost := [], buf0, false;
    if rd.Uncut(q) { WhenLost(rd, q); }
    ghost var start, hist := rd.At(q), q.trace.hist;
    while true
      invariant rd.Valid(q) && start <= rd.At(q) <= |hist| && (old(rd.Uncut(q)) ==> rd.Uncut(q))
      invariant (posts, buf) == TakeAll(f, buf0, hist[start..rd.At(q)])
      invariant if rd.At(q) == start then rd.Place() == old(rd.Place()) && (posts, buf) == ([], buf0)
                else StillThere(q.View(), old(rd.Place())) && StillThere(q.View(), rd.Place())
      decreases |hist| - rd.At(q)
    {
      ghost var at := rd.At(q);
      var r := rd.Next(q);
      match r {
        case Overflow =>
          lost := true;
          return;
        case Drained =>
          assert hist[start..at] == hist[start..];
          return;
        case Got(e, _) =>
          TakeAllConcat(f, buf0, hist[start..at], [e]);
          assert hist[start..at] + [e] == hist[start..at + 1];
          TakeOne(f, buf, e);
          var more;
          more, buf := TakeEntry(f, buf, e);
          posts := posts + more;
      }
    }
  }

  lemma WhenLost(rd: Reading<Entry>, q: Queue<Entry>)
    requires rd.Valid(q) && rd.Uncut(q)
    ensures !StillThere(q.View(), rd.Place()) <==> |q.trace.hist| - rd.At(q) >= q.queueLen
  {
    FixedLengthOverflow(q.View(), q.trace, rd.Place());
  }

  lemma TakeOne(f: Filter, buf: seq<Byte>, e: Entry)
    ensures TakeAll(f, buf, [e]) == Take(f, buf, e)
  {
    assert [e][1..] == [];
    assert Take(f, buf, e).0 + [] == Take(f, buf, e).0;
  }

  method TakeEntry(f: Filter, buf0: seq<Byte>, e: Entry) returns (posts: seq<Post>, buf: seq<Byte>)
    ensures (posts, buf) == Take(f, buf0, e)
  {
    buf, posts := buf0, [];
    if !Accepts(f, e.route) { return; }
    if e.len <= CHUNK && buf == [] {
      var text := if e.len <= 0 then UpToNul(e.body) else e.body[..e.len];
      posts := [Post(e.mtype, text)];
    } else {
      var len := Positive(Least(e.len, CHUNK));
      buf := buf + e.body[..len];
      if e.len <= CHUNK {
        posts := [Post(e.mtype, buf)];
        buf := [];
      }
    }
  }

  // ---- Every message arrives whole ------------------------------------------------------

  /** A message, read after something was left over from another. */
  lemma {:induction false} MessageTaken(f: Filter, buf: seq<Byte>, es: seq<Entry>, m: Message)
    requires Carries(es, m) && |m.text| > 0
    ensures TakeAll(f, buf, es) == if Accepts(f, m.route) then ([Post(m.mtype, buf + m.text)], []) else ([], buf)
    decreases |m.text|
  {
    var e, n := es[0], Least(|m.text|, CHUNK);
    var (p1, b1) := Take(f, buf, e);
    if |m.text| <= CHUNK {
      assert es == [e];
      TakeOne(f, buf, e);
      assert m.text[..n] == m.text;
      if buf == [] { assert buf + m.text == m.text; }
    } else {
      MessageTaken(f, b1, es[1..], m.(text := m.text[CHUNK..]));
      assert m.text == m.text[..CHUNK] + m.text[CHUNK..];
      if Accepts(f, m.route) {
        assert b1 == buf + m.text[..CHUNK];
        assert buf + m.text[..CHUNK] + m.text[CHUNK..] == buf + m.text;
        assert [] + [Post(m.mtype, buf + m.text)] == [Post(m.mtype, buf + m.text)];
      }
    }
  }

  /** The entries hold these messages, one after the other. */
  ghost predicate CarriesAll(es: seq<Entry>, ms: seq<Message>) {
    if ms == [] then es == []
    else
      var n := Pieces(|ms[0].text|);
      n <= |es| && Carries(es[..n], ms[0]) && CarriesAll(es[n..], ms[1..])
  }

  lemma {:induction false} CarriesBoth(a: seq<Entry>, m: seq<Message>, b: seq<Entry>, n: seq<Message>)
    requires CarriesAll(a, m) && CarriesAll(b, n)
    ensures CarriesAll(a + b, m + n)
    decreases |m|
  {
    hide Carries, Pieces;
    if m == [] {
      assert a + b == b && m + n == n;
    } else {
      var k := Pieces(|m[0].text|);
      var (es, ms) := (a + b, m + n);
      CarriesBoth(a[k..], m[1..], b, n);
      assert es[..k] == a[..k] && es[k..] == a[k..] + b;
      assert ms[0] == m[0] && ms[1..] == m[1..] + n;
    }
  }

  lemma CarriesOne(es: seq<Entry>, m: Message)
    requires Carries(es, m)
    ensures CarriesAll(es, [m])
  {
    CarriesPieces(es, m);
    assert es[..|es|] == es && es[|es|..] == [] && [m][1..] == [];
  }

  /** How many entries these messages take. */
  function AllPieces(ms: seq<Message>): nat {
    if ms == [] then 0 else Pieces(|ms[0].text|) + AllPieces(ms[1..])
  }

  lemma {:induction false} CarriesAllPieces(es: seq<Entry>, ms: seq<Message>)
    requires CarriesAll(es, ms)
    ensures |es| == AllPieces(ms)
    decreases |ms|
  {
    if ms != [] { CarriesAllPieces(es[Pieces(|ms[0].text|)..], ms[1..]); }
  }

  /** What a session is meant to see. */
  function Meant(f: Filter, ms: seq<Message>): seq<Post> {
    if ms == [] then []
    else (if Accepts(f, ms[0].route) then [Post(ms[0].mtype, ms[0].text)] else []) + Meant(f, ms[1..])
  }

  /** ... if something was left over: it becomes the start of the first of them. */
  function MeantAfter(f: Filter, buf: seq<Byte>, ms: seq<Message>): (seq<Post>, seq<Byte>) {
    if ms == [] then ([], buf)
    else if Accepts(f, ms[0].route) then ([Post(ms[0].mtype, buf + ms[0].text)] + Meant(f, ms[1..]), [])
    else MeantAfter(f, buf, ms[1..])
  }

  lemma {:induction false} Reassembled(f: Filter, buf: seq<Byte>, es: seq<Entry>, ms: seq<Message>)
    requires CarriesAll(es, ms) && forall m :: m in ms ==> |m.text| > 0
    ensures TakeAll(f, buf, es) == MeantAfter(f, buf, ms)
    decreases |ms|
  {
    hide Take, Carries;
    if ms != [] {
      var m, n := ms[0], Pieces(|ms[0].text|);
      assert m in ms;
      MessageTaken(f, buf, es[..n], m);
      TakeAllConcat(f, buf, es[..n], es[n..]);
      assert es[..n] + es[n..] == es;
      var buf1 := if Accepts(f, m.route) then [] else buf;
      Reassembled(f, buf1, es[n..], ms[1..]);
      MeantAfterNothing(f, ms[1..]);
      assert [] + MeantAfter(f, buf, ms[1..]).0 == MeantAfter(f, buf, ms[1..]).0;
    }
  }

  lemma {:induction false} MeantAfterNothing(f: Filter, ms: seq<Message>)
    ensures MeantAfter(f, [], ms) == (Meant(f, ms), [])
    decreases |ms|
  {
    if ms != [] {
      MeantAfterNothing(f, ms[1..]);
      assert [] + ms[0].text == ms[0].text && [] + Meant(f, ms[1..]) == Meant(f, ms[1..]);
    }
  }

  /** Every message of positive length, multiples of 64 included, arrives with exactly its
      text and type, in order, and only where it is meant to be seen.  This holds if and
      only if nothing was left over: after being overtaken in the middle of a message a
      session puts the torn piece in front of the next one it takes. */
  lemma EveryMessageArrives(f: Filter, buf: seq<Byte>, es: seq<Entry>, ms: seq<Message>)
    requires CarriesAll(es, ms) && forall m :: m in ms ==> |m.text| > 0
    ensures TakeAll(f, buf, es) == (Meant(f, ms), []) <==> buf == []
  {
    Reassembled(f, buf, es, ms);
    MeantAfterNothing(f, ms);
    if buf != [] { LeftOverShows(f, buf, ms); }
  }

  lemma {:induction false} LeftOverShows(f: Filter, buf: seq<Byte>, ms: seq<Message>)
    requires buf != []
    ensures MeantAfter(f, buf, ms) != (Meant(f, ms), [])
    decreases |ms|
  {
    if ms != [] {
      var m := ms[0];
      if Accepts(f, m.route) {
        assert |buf + m.text| > |m.text|;
        assert MeantAfter(f, buf, ms).0[0] == Post(m.mtype, buf + m.text) && Meant(f, ms)[0] == Post(m.mtype, m.text);
      } else {
        LeftOverShows(f, buf, ms[1..]);
        assert [] + Meant(f, ms[1..]) == Meant(f, ms[1..]);
      }
    }
  }

  // ---- From one session to another ---------------------------------------------------------

  /** The arguments of `queue_chat`. */
  datatype Said = Said(toWhere: int, toId: int, mtype: int, text: seq<Byte>, me: int)

  function Messages(said: seq<Said>): (ms: seq<Message>)
    ensures |ms| == |said|
  {
    seq(|said|, i requires 0 <= i < |said| =>
      Message(Routed(said[i].toWhere, said[i].toId, said[i].me), said[i].mtype, said[i].text))
  }

  /** Who sees a message that was said: everybody; one player; one level; a team, which is
      nobody yet.  Sessions that ignore the speaker do not. */
  lemma WhoSees(f: Filter, s: Said)
    ensures s.me >= 0 && s.me in f.ignored ==> Meant(f, Messages([s])) == []
    ensures s.me < 0 || s.me !in f.ignored ==>
              && (s.toWhere == 1 && s.toId >= 0 ==>
                    Meant(f, Messages([s])) == if s.toId == f.me then [Post(s.mtype, s.text)] else [])
              && (s.toWhere == 2 && s.toId >= 0 ==>
                    Meant(f, Messages([s])) == if s.toId == f.level then [Post(s.mtype, s.text)] else [])
              && (s.toWhere == 0 ==>
                    Meant(f, Messages([s])) == if f.levelChat && s.toId != 0 then [] else [Post(s.mtype, s.text)])
              && (s.toWhere == 3 && s.toId >= 0 ==> Meant(f, Messages([s])) == [])
              && ((s.toWhere < 0 || s.toWhere > 3 || (s.toWhere != 0 && s.toId < 0)) ==>
                    Meant(f, Messages([s])) == [Post(s.mtype, s.text)])
  {
    var ms := Messages([s]);
    assert Meant(f, ms[1..]) == [];
  }

  lemma {:induction false} MeantBoth(f: Filter, a: seq<Message>, b: seq<Message>)
    ensures Meant(f, a + b) == Meant(f, a) + Meant(f, b)
    decreases |a|
  {
    hide Accepts;
    if a == [] {
      assert a + b == b;
    } else {
      assert (a + b)[1..] == a[1..] + b;
      MeantBoth(f, a[1..], b);
    }
  }

  /** What a session sees of all that was said: each message on its own, in order. */
  lemma {:induction false} MeantEach(f: Filter, said: seq<Said>)
    ensures said == [] ==> Meant(f, Messages(said)) == []
    ensures said != [] ==> Meant(f, Messages(said)) == Meant(f, Messages([said[0]])) + Meant(f, Messages(said[1..]))
  {
    if said != [] {
      assert Messages(said) == Messages([said[0]]) + Messages(said[1..]);
      MeantBoth(f, Messages([said[0]]), Messages(said[1..]));
    }
  }

  /** An entry that is not for a player is passed over by its session, and by no other. */
  lemma NotForThem(f: Filter, buf: seq<Byte>, e: Entry)
    ensures Take(f, buf, e)
         == if e.route.notPlayer >= 0 && e.route.notPlayer == f.me then ([], buf)
            else Take(f, buf, e.(route := e.route.(notPlayer := -1)))
  {
  }

  /** Any number of messages, by any sessions. */
  method QueueAll(q: Queue<Entry>, said: seq<Said>)
    requires q.Valid()
    modifies q
    ensures q.Valid() && q.queueLen == old(q.queueLen) && PlacesKept(old(q.Now()), q.Now())
    ensures old(q.trace.hist) <= q.trace.hist
    ensures CarriesAll(q.trace.hist[|old(q.trace.hist)|..], Messages(said))
  {
    hide Inv, Carries, CarriesAll, PlacesKept;
    ghost var start := q.trace.hist;
    PlacesKeptFirst(q.Now());
    NothingCarried(start);
    for i := 0 to |said|
      invariant q.Valid() && q.queueLen == old(q.queueLen) && PlacesKept(old(q.Now()), q.Now())
      invariant start <= q.trace.hist && CarriesAll(q.trace.hist[|start|..], Messages(said)[..i])
    {
      ghost var was, before := q.Now(), q.trace.hist;
      QueueChat(q, said[i].toWhere, said[i].toId, said[i].mtype, said[i].text, said[i].me);
      PlacesKeptOn(old(q.Now()), was, q.Now());
      ghost var more := q.trace.hist[|before|..];
      CarriesOne(more, Messages(said)[i]);
      CarriesBoth(before[|start|..], Messages(said)[..i], more, [Messages(said)[i]]);
      assert before[|start|..] + more == q.trace.hist[|start|..];
      assert Messages(said)[..i] + [Messages(said)[i]] == Messages(said)[..i + 1];
    }
    assert Messages(said)[..|said|] == Messages(said);
  }

  lemma NothingCarried(hist: seq<Entry>)
    ensures CarriesAll(hist[|hist|..], [])
  {
  }

  lemma PlacesKeptFirst<T>(a: Moment<T>)
    ensures PlacesKept(a, a)
  {
  }

  lemma PlacesKeptOn<T>(a: Moment<T>, b: Moment<T>, c: Moment<T>)
    requires PlacesKept(a, b) && PlacesKept(b, c)
    ensures PlacesKept(a, c)
  {
  }

  /** A session loses its place if it is a whole ring behind, and, unless it was cut off before,
      only then.  If it does not, it posts, of the messages that were waiting for it and of those
      queued now, exactly the ones it is meant to see, if and only if nothing was left over from
      before. */
  method ChatArrives(q: Queue<Entry>, said: seq<Said>, rd: Reading<Entry>, f: Filter, buf0: seq<Byte>,
                     ghost waiting: seq<Message>)
    returns (posts: seq<Post>, buf: seq<Byte>, lost: bool)
    requires rd.Valid(q) && CarriesAll(q.trace.hist[rd.At(q)..], waiting)
    requires forall m <- waiting + Messages(said) :: |m.text| > 0
    modifies q, rd
    ensures rd.Valid(q) && rd.At(q) == |q.trace.hist| && q.queueLen == old(q.queueLen)
    ensures old(rd.Uncut(q)) ==> rd.Uncut(q) && (lost <==> AllPieces(waiting + Messages(said)) >= q.queueLen)
    ensures (posts, buf) == if lost then ([], buf0) else MeantAfter(f, buf0, waiting + Messages(said))
    ensures !lost ==> ((posts, buf) == (Meant(f, waiting + Messages(said)), []) <==> buf0 == [])
  {
    hide Inv, Carries, CarriesAll, TakeAll, MeantAfter, Meant, AllPieces;
    ghost var before, at := q.trace.hist, rd.At(q);
    QueueAll(q, said);
    assert rd.Valid(q) && rd.At(q) == at && (old(rd.Uncut(q)) ==> rd.Uncut(q));
    CarriesBoth(before[at..], waiting, q.trace.hist[|before|..], Messages(said));
    assert before[at..] + q.trace.hist[|before|..] == q.trace.hist[at..];
    CarriesAllPieces(q.trace.hist[at..], waiting + Messages(said));
    posts, buf, lost := SendQueuedChats(rd, q, f, buf0);
    if !lost {
      Reassembled(f, buf0, q.trace.hist[at..], waiting + Messages(said));
      EveryMessageArrives(f, buf0, q.trace.hist[at..], waiting + Messages(said));
    }
  }

  /** A message of no length shows what its slot held before, up to the first NUL. */
  lemma EmptyMessageEchoes(f: Filter, es: seq<Entry>, m: Message)
    requires Carries(es, m) && m.text == [] && Accepts(f, m.route)
    ensures TakeAll(f, [], es) == ([Post(m.mtype, UpToNul(es[0].body))], [])
    ensures TakeAll(f, [], es) == ([Post(m.mtype, m.text)], []) <==> es[0].body[0] == 0
  {
    TakeOne(f, [], es[0]);
    assert es == [es[0]];
  }
}
