/** One session follows what another does to the map. */
module EditsFollowed {
  import opened Ring
  import opened World
  import opened BlockQueue
  import opened Level
  import opened Edits
  import opened BulkEdits

  /** Any edits at all, and then `fetch_queued_blocks` by a session that had read everything:
      either it is told that it has lost its place, or replaying what it fetches on the old map
      gives the new one, and it has again read everything. */
  method EditAndFetch(l: Level, commands: seq<Command>, limit: nat, exempt: bool, s: Session)
    returns (list: seq<Update>)
    requires l.Valid() && l.dims.x > 0 && l.dims.y > 0 && l.dims.z > 0 && Known(l.dims, l.blocks[..])
    requires s.Valid(l.queue) && s.reloadPending == 0 && s.lastId >= 0
    requires Position(l.queue.trace, s.Place()) == |l.queue.trace.hist|
    modifies l.blocks, l.queue, s
    ensures l.Valid() && Known(l.dims, l.blocks[..]) && s.Valid(l.queue) && s.reloadPending == 0
    ensures if StillThere(l.queue.View(), old(s.Place())) then
              && s.lastId >= 0 && Position(l.queue.trace, s.Place()) == |l.queue.trace.hist|
              && AllFit(l.dims, list) && Replay(l.dims, old(l.blocks[..]), list) == l.blocks[..]
            else list == [] && s.lastId < 0
  {
    hide Inv, StillThere, Known, Replay, Position, DefsOk;
    ghost var m, was, place := l.blocks[..], l.queue.Now(), s.Place();
    PerformAll(l, commands, limit, exempt);
    ghost var now := l.queue.Now();
    assert Tracks(was.ring, was.trace, place) && NobodyMoved(was, now);
    assert Position(now.trace, place) == |was.trace.hist|;
    hide Tracks, NobodyMoved;
    list := s.FetchQueuedBlocks(l.queue);
    if s.lastId >= 0 { assert list == now.trace.hist[|was.trace.hist|..]; }
  }
}
