# MCCHost, modelled and proved in Dafny

MCCHost is a Minecraft Classic server in which every player is served by a process of its own. The processes of one
level share its block array and a ring of recent block changes; chat and commands travel through two more rings. This
project models the parts of the server that are hardest to get right and proves what they promise. `dafny verify
dfyconfig.toml` checks it.

The main results, and where they are:

- **When a save is one moment of the map.** The saver copies up to four byte planes in separate passes, without a lock,
  while everybody edits. `SaveProtocol.ConsistentSave` says for every interleaving exactly when the planes, with the
  queued changes replayed on them, are the shared map as it was when the queue was drained. They are, if no cell that was
  copied while it was silently changed goes without a queued change, and none is outstanding at that moment
  (`SaveProtocol.SaveIsAMoment`); that is so if each silent write has been followed by an entry saying what its cell
  holds (`SaveProtocol.SettledSave`), and always where each edit is one locked step (`SaveProtocol.LockedSave`).
  `SaveFile.FileHoldsAMoment` carries this through the bytes of the level file and back through the loader.
- **A live client is in step with the map.** `ClientConvergence.QueueIsShown` is about every reachable state: there is no
  map yet, or a reload is pending, or the client's view, with the entries that are still unread replayed on it, is what
  the queue says of the map, block numbers converted for the client, if no cell copied while silently changed has gone
  unnamed. `ClientConvergence.ClientConverges` says exactly when that is the shared map; `SettledInStep` and
  `LockedInStep` give conditions on the steps. Left alone the client gets there: `LiveClient.CatchesUp`.
- **The ring is sound and precise.** `Ring.ReadIsExact` and `Ring.RunIsFaithful`: over appends, wraps, growth, repair and
  "/reload all", a reader is handed the contiguous history from its place or told that it was overtaken, and it is told
  so exactly when the stated condition holds.
- **Falling sand and other edits are logged.** `Level.Level.CheckForSand`, `Edits.UpdateBlock`, `BulkEdits.PerformAll`:
  replaying what was appended to the queue gives the new map, the deferred updates of falling sand included, and no
  reader's place is moved, so a session that fetches them has the new map (`EditsFollowed.EditAndFetch`).
  `EditCases` has what a player sees of an edit, case by case, `Figures` the cells of the figures that are drawn;
  `FallingSand.SettleIsAFall` and its neighbours say what falling means, and `SandSteps.NeverNamed` which cells falling
  sand writes without an entry to follow.
- **Decoding UTF-8 loses nothing and is exact.** `Utf8.Lossless`, `Utf8.ExactlyWellFormed`, and
  `PackedUtf8.DecodeUtf8` for the form that keeps its state in one machine word. `Cp437.RoundTrip` and
  `FileNames.NameRoundTrip` rest on it.
- **Level files round trip.** `NbtRoundTrip.DocumentRead`: a document is read back completely, and reported as intended
  if and only if no value follows a nested compound inside a named one and every value fits.
- **Chat arrives.** `ChatWrap.PacketsKeepText`, `ChatWrap.LinesBreakAtSpaces` and `ColourContinuity.MessageInColour`
  (word wrap with backtracking, which `ChatWrap.PostChat` performs), `ChatInput.LinesArrive` (lines that come in several
  packets), `ChatQueue.ChatArrives` (messages cut into the entries of a ring by some sessions and put together by
  another), `Framing.CutsDoNotMatter` (packets out of reads that end anywhere).
- **Arithmetic.** `BoundedRandom.EveryResultAlike`, `Sha1.Sha1Digest`, `SplitMix.JumpIsMany`.
- **The rate limiter.** `AntiSpam.BoundIsExact` has the exact number of events that can pass in a time;
  `AntiSpamBans.BanHolds`, `AntiSpamBans.Forgiven` and `AntiSpamBans.StayingAheadIsCaught` say who is banned, and for how
  long.
- **What clients are sent for blocks they do not know.** `BlockConvert.FirstKnownFallback` and its neighbours.
- **The search for a spawn point ends**, and finds the first landing there is: `SpawnSearch.ShiftSpawnToLand`,
  `SpawnSearch.SearchIsComplete`.

Code that updates things step by step is written as classes and methods and proved against functions on values; the
lemmas are about those functions. Interleavings of several processes are step systems (`SaveProtocol`, `LiveClient`,
`Ring`), in which one locked section is one step and every cell is copied in a step of its own. A session that edits a
single cell writes it before it takes the lock, and so does falling sand, so there a write and its entry in the queue are
two steps.

Where the code and what is said about it differ, the model follows the code:

- While sand falls a cell may be emptied and filled again, and no change is queued for it any more; that happens exactly
  where there is a single gap below it and the next block to fall is of its kind (`SandSteps.NeverNamed`). A save or a map
  transfer that copies it in between has air there for good: `SandSlips.SaveLosesSand`, `SandSlips.ClientMissesSand`.
- The note above `add_antispam_event` speaks of so many events in so many seconds. `AntiSpam.MoreThanTheCount` lets three
  through in a millisecond where two are allowed in two seconds; what the code keeps, when the window is a multiple of
  the count, is exactly the bound of `AntiSpam.BoundIsExact`.
- The number of blocks that has to be permitted for a wire frame is not the number of its cells, unless it is four
  high: `Figures.WireMiscounted`.
- A line of chat that is wrapped in front of a change of colour goes on in the colour behind the change:
  `ColourContinuity.ColourLost`. `ColourContinuity.MessageInColour` says exactly which messages are painted as they ask
  for; all those are whose colour codes only stand in front of words (`ColourContinuity.SafeMessage`).
- Of a long line from a client that does not know all of code page 437 only the last packet is turned into ASCII, and
  only there are blanks trimmed: `ChatInput.LinesArrive` has the exact condition.
- A reader of the chat ring that is overtaken in the middle of a message keeps the torn piece, and puts it in front of
  the next message it takes: `ChatQueue.EveryMessageArrives` holds if and only if nothing was left over.
- A chat message of no length shows whatever its slot held before, up to the first NUL: `ChatQueue.EmptyMessageEchoes`.
- With wide block numbers but without held blocks, a position packet is one byte longer than what is decoded from it:
  `PacketLengths.DecodersAgree`.
- Byte arrays of more than 256 bytes that are no block planes are skipped by the reader, and a number cut short by the
  end of the file is filled up with 255s; `NbtFormat` has both.

## Model

| member | source | states |
|---|---|---|
| `Ring.WriteKeepsInv` | queue_block.c:241-259 | every write to the ring, growth, repair and generation jumps included, keeps each live slot holding the update the history says, and moves no reader |
| `Ring.OpenMakesUsable` | shared.c:395-454 | opening repairs any header whatsoever: the next slot exists and the ring is as long as wanted |
| `Ring.MarkTracks` | queue_block.c:261-271 | a fresh position stands at the end of the history |
| `Ring.ReadIsExact` | queue_block.c:318-353 | one read gives the next update of the history, or says rightly that there is none; it overflows exactly if the position was cut off, or the ring grew since the last wrap, or the reader is a whole ring behind |
| `Ring.FixedLengthOverflow` | queue_chat.c:117-131 | on a ring of constant length a reader loses its place exactly if it is a whole ring behind |
| `Ring.RunIsFaithful` | queue_block.c:286-357 | over any run of writes and reads the reader is handed exactly the contiguous history from its start, never a stale slot; and no run gets stuck |
| `World.PackInjective` | mapinfo.c:8 | different cells have different places in the flat block array |
| `World.ReplayConcat` | queue_block.c:316-356 | replaying one log after another is replaying both |
| `World.ReplayRepairs` | send_map_file.c:135-140 | a copy that is wrong only where the log touches is put right by replaying the log |
| `World.ReplayLeaves` | queue_block.c:316-356 | a cell that no update names keeps its block |
| `BlockQueue.Queue.Attach` | shared.c:378-455 | whatever the file holds, the queue is usable once it is attached |
| `BlockQueue.Queue.RepairHeader` | shared.c:396-411 | a header that makes no sense is replaced, and no other |
| `BlockQueue.Queue.WantedSlots` | shared.c:416-423 | the ring is to hold as many updates as take the bytes of the last download, 250 at least, and at most 2040 more than that |
| `BlockQueue.Queue.CreateBlockQueue` | shared.c:378-455 | opening repairs, then only ever lengthens, and maps the whole ring |
| `BlockQueue.Queue.CheckBlockQueue` | shared.c:466-487 | following a growth by another process loses no history and moves no reader |
| `BlockQueue.Queue.PrelockedUpdate` | queue_block.c:224-239 | one update is appended to the history, wrap included, and no reader moves |
| `BlockQueue.Queue.SendUpdate` | queue_block.c:241-259 | the same with the mapping checked first |
| `BlockQueue.Queue.ReloadAll` | command/cmdreload.c:31-32 | the generation jump makes every position unreachable without touching the history |
| `BlockQueue.Session.SetLastBlockQueueId` | queue_block.c:261-271 | the place taken is the end of the history |
| `BlockQueue.Session.ReadSlot` | queue_block.c:318-353 | one locked reading gives the next update ever appended, or the right excuse |
| `BlockQueue.Session.CountDown` | queue_block.c:289-309 | the map is sent again exactly when the count is down to one and nothing is queued for the client; then the place is the end of the history |
| `BlockQueue.Session.SendQueuedBlocks` | queue_block.c:286-357 | what is sent is the contiguous history from the place on; it stops after 1024, at the end, or with a reload pending |
| `BlockQueue.Session.FetchQueuedBlocks` | queue_block.c:359-417 | everything since the place was taken, and then the place is the end of the history, unless the place was lost |
| `SaveProtocol.ConsistentSave` | nbtsave.c:337-444 | for every interleaving of writes and queue entries with the four passes and the drain: loading the planes and applying the redo records gives the shared map as it was at the end of the drain, if and only if each cell holds what its last record says, or has no record and its copied bytes fit together |
| `SaveProtocol.QueueIsSaved` | nbtsave.c:337-444 | it gives what the queue says of the map, if every cell that was copied while silently changed is named by a record; and only then, if the lowest plane is the only one |
| `SaveProtocol.SaveIsAMoment` | nbtsave.c:337-444 | so the save is one moment of the map if besides nothing is silently changed at that moment |
| `SaveProtocol.LockedEditsOnly` | command/cmdcuboid.c:131-147 | where every edit is a cell and its entry under one lock, nothing is ever silently changed |
| `SaveProtocol.LockedSave` | command/cmdcuboid.c:131-147 | so a save during which there are only such edits is the shared map as it was when the queue was found drained |
| `SaveProtocol.SettledSave` | queue_block.c:103-116 | the same with writes made before the lock is taken, if the last silent change of every cell has been followed, when the queue is found drained, by a locked edit of it or by an entry saying what it holds |
| `SaveProtocol.FinishIsAMoment` | nbtsave.c:429-444 | that map is the one that was shared when the queue was found empty, and the records are all entries since the save began |
| `SaveProtocol.RunKeeps` | nbtsave.c:41-407 | in every reachable state the bytes copied are those of the blocks found, and these are what the queue says unless the cell is named since the start or was copied while silently changed |
| `SandSlips.SaveLosesSand` | queue_block.c:181-221 | a run of a save in which everything but the saver's steps is what `check_for_sand` does to a column of air, sand, sand, in its order: nothing overflows, the map is what the queue says of it, and the file has air where the map has sand; the sand put back in the middle is the silent write that no entry follows |
| `SandSlips.ClientMissesSand` | queue_block.c:181-221 | the same for a client, which has read everything and goes on showing air |
| `SandSlips.ColumnSettles` | queue_block.c:157-222 | the map these runs end with is what settling makes of the column, and the writes and entries in them are those of settling it |
| `SaveProtocol.RunGoesOn` | nbtsave.c:337-444 | no save gets stuck: from every reachable state the next step exists |
| `ClientConvergence.ClientConverges` | send_map_file.c:252-365 | in every run, from any map and queue, at every moment while the client is live with no reload pending: with the entries still unread, it shows in a cell the block of the shared map, converted for it, exactly if the cell looks like what the queue last said of it, or was not named and was sent right; and so if it was not copied while silently changed or was named since, and is not silently changed now |
| `ClientConvergence.ViewConverges` | send_map_file.c:135-140 | the same for the whole view: with the entries still unread it is the shared map, converted, if and only if every cell is faithful in that sense |
| `ClientConvergence.QueueIsShown` | send_map_file.c:135-140 | every reachable state: not live, or a reload pending, or the view with the unread entries replayed on it is what the queue says of the map, if every cell copied while silently changed has been named since |
| `ClientConvergence.LockedEditsOnly` | command/cmdcuboid.c:131-147 | where every edit is one locked step, nothing is ever silently changed |
| `ClientConvergence.LockedInStep` | command/cmdcuboid.c:131-147 | so at every live moment of such a run the view with the unread entries replayed on it is the shared map, converted |
| `ClientConvergence.SettledInStep` | queue_block.c:103-116 | the same with writes made before the lock is taken, if the last silent change of every cell has been followed by a locked edit of it or by an entry saying what it holds |
| `LiveClient.ViewCell` | send_map_file.c:304-358 | at every live moment, with the unread entries: a cell shows what the queue has last said of it since the transfer began, or else what was sent |
| `LiveClient.RunKeeps` | queue_block.c:286-357 | every reachable state has no map, is sending it, has a reload pending, or shows what was sent with what was passed on replayed on it |
| `LiveClient.TransferSynchronises` | send_map_file.c:304-358 | from the end of a transfer on, with the entries that are still unread, a cell that was not copied while silently changed, or has been named since, shows what the queue says of it |
| `LiveClient.ShownReplay` | queue_block.c:355 | converting every block commutes with replaying a log |
| `MapTransfer.ConversionTable` | send_map_file.c:261-262 | the table has the conversion of every block |
| `MapTransfer.SendPart` | send_map_file.c:267-328 | one part, a buffer at a time: a byte for every cell, and word of any block that needs two |
| `MapTransfer.SendBlockArray` | send_map_file.c:252-358 | while nobody edits, the client ends up with the shared map as converted for it; the length is announced right, and the second part is sent exactly if it is needed and understood |
| `LiveClient.CatchesUp` | queue_block.c:311-357 | left alone, a client has read everything after as many passes as there are unread entries, and shows its view with these replayed on it, or has a reload pending |
| `BlockConvert.ChaseFallbacks` | send_map_file.c:62-81 | the loop is the chain of at most four fallbacks |
| `BlockConvert.FBlockConvert` | send_map_file.c:56-99 | the method computes the conversion |
| `BlockConvert.SentAsItself` | send_map_file.c:59-69 | a block below the limit of the level is sent as itself, and so is one that the client knows if nothing speaks against it |
| `BlockConvert.FirstKnownFallback` | send_map_file.c:62-81 | in place of a block the client does not know it is sent the first that it knows among its fallbacks, up to the fourth |
| `BlockConvert.FourFallbacks` | send_map_file.c:79-80 | the fourth fallback is the last that is tried |
| `BlockConvert.FallbackInstead` | send_map_file.c:67-71 | a client limited to the classic blocks, or without block definitions or the texture of a block, is sent its fallback |
| `BlockConvert.BedrockElse` | send_map_file.c:60-98 | there is always bedrock |
| `BlockConvert.WithoutCustomBlocks` | send_map_file.c:83-89 | the sixteen stand-ins for a client without the CustomBlocks extension |
| `BlockConvert.ForOlderProtocols` | send_map_file.c:91-98 | the stand-ins for clients of older protocols, applied twice at most |
| `BlockConvert.ConvertFits` | send_map_file.c:56-99 | whatever the definitions say, cycles included, a client is only sent block numbers that it knows and that fit the negotiated width |
| `BlockPlanes.CellRoundTrip` | nbtsave.c:350-404 | any 16 bit block value is restored from the bytes of the planes that it needs, whichever others are there |
| `BlockPlanes.PlaneNeeded` | nbtsave.c:350-404 | a plane is needed for exactly the blocks that are lost without it, and those are flagged |
| `BlockPlanes.LowestPlaneAlone` | nbtsave.c:350-361 | who takes the lowest plane alone sees low bytes, and stand-ins for the physics blocks 769 to 1022 |
| `BlockPlanes.FirstPass` | nbtsave.c:350-361 | the first pass writes every low byte and finds out exactly which other planes some block needs |
| `BlockPlanes.SavePlanes` | nbtsave.c:337-405 | a later plane is written exactly if some block needs it, every byte is what its block calls for, and the planes load to the array saved |
| `BlockPlanes.ReadBlockArray` | nbtload.c:384-429 | the lowest plane sets the cells it covers and no others |
| `BlockPlanes.ReadBlockArray2` | nbtload.c:431-474 | a high byte replaces only the high byte |
| `BlockPlanes.ReadBlockArray3` | nbtload.c:476-512 | a zero leaves the cell alone |
| `BlockPlanes.ReadBlockArrayPhysics` | nbtload.c:514-564 | a byte other than zero stands for a block above the limit |
| `BlockPlanes.LoadPlanes` | nbtload.c:384-564 | the four in file order give the map that the planes hold |
| `FallingSand.SettleIsAFall` | queue_block.c:157-222 | in one stretch of the column the fallen blocks lie at the bottom in their old order with only air above; nothing else moves |
| `FallingSand.SettleConserves` | queue_block.c:157-222 | no block is gained or lost |
| `FallingSand.SettleTwice` | queue_block.c:157-222 | after settling nothing is left to fall |
| `Level.Level.FindFloor` | queue_block.c:164-172 | the walk down ends at the lowest cell of the stretch |
| `Level.Level.DropAll` | queue_block.c:174-221 | the main loop packs the stretch, what it has announced replays to it, and its writes and entries are those of the moves in their order |
| `Level.Level.CheckForSand` | queue_block.c:157-222 | the column settles, no other changes, and replaying the updates in the order they were sent gives the new map despite the deferred and restored air; no reader is moved, and the writes and entries, silent ones included, are exactly `SandDoings` of the column |
| `SandSteps.NeverNamed` | queue_block.c:181-221 | the cells that settling writes and never names afterwards are exactly those with a single gap below them, and solid from there, into which the next block falls and is of the kind that was there |
| `SandSteps.MovesLeave` | queue_block.c:201-216 | after any number of moves: of the cells written, those not named since are the one just emptied and those |
| `Edits.GrowDirtBlock` | queue_block.c:128-155 | dirt becomes grass exactly if there is grass of that kind among its up to 26 neighbours |
| `Edits.DecideEdit` | queue_block.c:51-99 | what an edit puts into its cell and the one below: stacking, grass and dirt |
| `Edits.UpdateBlock` | queue_block.c:27-126 | only one column changes, as decided and then settled, the queue has every change, and no reader is moved; nothing is done where the cell holds what is asked for; a falling block above has come to rest |
| `Edits.ComesToRest` | queue_block.c:119-125 | after an edit settling again changes nothing: from the block above, if it falls, and from what was put in over air, if that does |
| `EditCases.Dug` | queue_block.c:36-37 | digging leaves air, and what was above and falls comes down from there |
| `EditCases.Put` | queue_block.c:101-123 | a block that neither grows nor withers is put where it is asked for, and falls if there is nothing below; a slab, too, unless it goes into the air above one of its kind |
| `EditCases.SlabOnSlab` | queue_block.c:55-65 | one slab on another makes the whole block in the lower cell, and leaves the upper one empty |
| `EditCases.GrassCovered` | queue_block.c:95-97 | an opaque block on grass turns it to dirt |
| `EditCases.DirtUncovered` | queue_block.c:90-94 | digging above dirt lets it grow if there is grass of its kind beside it, and only then |
| `EditCases.DirtPut` | queue_block.c:73-84 | dirt put in the light becomes grass beside grass of its kind, and stays dirt elsewhere |
| `EditCases.GrassPutInTheDark` | queue_block.c:73-79 | grass put under something opaque is dirt |
| `EditCases.NotStraightBack` | queue_block.c:77-82 | dirt put in place of its grass, or grass in place of its dirt, stays what was put |
| `Edits.PlainEdit` | queue_block.c:27-126 | where nothing stacks, grows, withers or falls an edit changes its one cell |
| `Edits.EditKeepsKnown` | queue_block.c:36-37 | an edit stores no block number that has no definition |
| `BulkEdits.ClampCuboid` | setblock.c:483-517 | the box is exactly what of the two corners' cuboid lies on the map |
| `BulkEdits.DoCuboid` | command/cmdcuboid.c:86-209 | exactly the cells of the figure become the block, in spite of the skips in the loops, and the queue has every change; it is done exactly if something is selected and the limit, if any, is kept or does not apply |
| `BulkEdits.ThinFigures` | command/cmdcuboid.c:92-104 | in a thin box the hollow figures are solid anyway |
| `Figures.FigureMeans` | command/cmdcuboid.c:135-209 | the hollow figure is the cells beside which the box ends, the walls those where it does to a side, and the frame those where it does along two axes |
| `Figures.CountMeans` | command/cmdcuboid.c:87-107 | the number of blocks that has to be permitted is the number of cells of the figure, for all but the frame |
| `Figures.WireMiscounted` | command/cmdcuboid.c:105-107 | the cells of a frame are counted right exactly if the box is four high |
| `BulkEdits.ReplaceBlocks` | command/cmdreplace.c:100-160 | exactly the listed blocks in the box are replaced, and the queue has every change |
| `BulkEdits.FixgrassBlocks` | command/cmdfixgrass.c:37-90 | grass under something opaque becomes dirt and lit dirt grass, in the box and nowhere else, and the queue has every change |
| `BulkEdits.FixgrassMeans` | command/cmdfixgrass.c:55-85 | block by block: dirt under something opaque, grass in the light, and all else stays |
| `BulkEdits.PerformAll` | command/cmdcuboid.c:128-209 | for any sequence of edits of all kinds, replaying what was appended onto the old map gives the new one, and no reader is moved |
| `EditsFollowed.EditAndFetch` | queue_block.c:359-417 | after any edits, a session that had read everything fetches updates that replay the old map to the new one and has read everything again, exactly if its place was not overwritten |
| `Utf8.Lossless` | utf8.c:6-15 | decoding any stream, with an end of input for every byte still to be reported, and writing the results back regenerates it exactly |
| `Utf8.DecodeKeepsBytes` | utf8.c:39-149 | one call accounts for every byte: held and taken in are reported and held |
| `Utf8.ExactlyWellFormed` | utf8.c:19-95 | exactly the sequences of Table 3-7 in section 3.9 of the Unicode Standard are answered by one code point, and it is theirs |
| `Utf8.DecodesEncoded` | utf8.c:53-95 | every code point that is no surrogate survives encoding and decoding |
| `PackedUtf8.UnpackPartial` | utf8.c:103-120 | the bytes of an unfinished sequence are recovered from the word |
| `PackedUtf8.UnpackBroken` | utf8.c:121-131 | the bytes still to be reported are recovered from the word |
| `PackedUtf8.Repack` | utf8.c:138-146 | all but the first byte go back into a negative word |
| `PackedUtf8.JudgedRight` | utf8.c:72-93 | the masks and range tests give the value of the sequence exactly if it is acceptable |
| `PackedUtf8.DecodeUtf8` | utf8.c:39-149 | with its state packed into one word the decoder answers what the simple machine answers, and the word goes on standing for its state |
| `Utf8Text.NextToken` | cp437.c:58-68 | the reading loop re-reads a byte while others are still to be reported, and yields the same tokens |
| `Utf8Text.TokensOfEncoded` | cp437.c:58-68 | an encoded code point is read as itself whatever follows |
| `Cp437Table.RomInverse` | cp437.c:156-189 | no two characters of the table have the same code point |
| `Cp437.ConvertToUtf8` | cp437.c:92-118 | the buffer gets whole characters only, all of them if there is room |
| `Cp437.SearchRom` | cp437.c:72-74 | the search finds the place of a code point exactly if it is in the table |
| `Cp437.ConvertToCp437` | cp437.c:52-90 | in place, what is written never overtakes what is read, and it is the text read |
| `Cp437.RoundTrip` | cp437.c:52-118 | text without NUL survives the trip to UTF-8 and back |
| `FileNames.FixFname` | filenames.c:173-217 | the name becomes its look-alike, dots taken up to three at a time, all of it or as much as fills the buffer; with its NUL it fits exactly if it is short enough or some characters just fill the buffer, and otherwise goes at most two bytes further |
| `FileNames.UnfixFname` | filenames.c:223-267 | the name that a file name stands for, or the empty one if it is no name's |
| `FileNames.AsciiMeans` | filenames.c:236-239 | ASCII in a file name stands for itself, or makes it nobody's file name |
| `FileNames.OthersMean` | filenames.c:241-262 | and so do broken sequences and code points that stand for nothing |
| `FileNames.NameRoundTrip` | filenames.c:170-267 | every name without NUL is recovered from its file name, runs of dots and slashes included |
| `FileNames.FixedIsSafe` | filenames.c:180-199 | no file name has a slash, a backslash, a dot or a control character in it |
| `FileNames.FixedCases` | filenames.c:180-215 | printable ASCII stands for itself, slash, backslash and up to three dots for their look-alikes, and the rest for what code page 437 has |
| `FileNames.FirstAndRest` | filenames.c:178-216 | the bytes of a file name are those of its first character and of the rest |
| `NbtRoundTrip.NumberBack` | nbtload.c:348-358 | a number of any width is read back, cut down to that width |
| `NbtRoundTrip.ReadNode` | nbtload.c:217-382 | a node is read back from exactly its bytes, whatever follows, with the nesting depth restored |
| `NbtRoundTrip.ReportedAsIntended` | nbtload.c:308-323 | each value is reported with its own compound's name and exact value, exactly if no value that names its section follows a nested compound in a named one and every value fits |
| `NbtRoundTrip.DocumentRead` | nbtload.c:217-382 | a whole document: its bytes and no others are consumed, the depth is restored, and the report is as intended if and only if it is well placed |
| `NbtCodec.Writer.BcString` | nbtsave.c:446-453 | a length of two bytes and the bytes |
| `NbtCodec.Writer.BcEntInt` | nbtsave.c:489-514 | an `int` is written in one, two or four bytes as its value allows |
| `NbtCodec.IntWidth` | nbtsave.c:493-500 | the width chosen holds every 32 bit value |
| `NbtCodec.Writer.BcEntLong` | nbtsave.c:516-545 | a 64 bit number is written in the fewest of one, two, four and eight bytes |
| `NbtCodec.LongWidth` | nbtsave.c:519-544 | the width chosen holds every 64 bit value |
| `NbtCodec.Writer.BcEntInt64` | nbtsave.c:561-574 | eight bytes, highest first |
| `NbtCodec.Writer.BcEntBytes` | nbtsave.c:471-487 | a length of four bytes and the bytes |
| `NbtCodec.Writer.BcEntString` | nbtsave.c:461-469 | tag, label, two length bytes and the text |
| `NbtCodec.Writer.BcEntFloat` | nbtsave.c:547-559 | the four bytes of a 32 bit float, highest first |
| `NbtCodec.Loader.ReadString` | nbtload.c:264-306 | labels are made harmless or dropped, strings end at a NUL or at 4095 bytes, and a short file is noticed |
| `NbtCodec.Loader.ReadByteArray` | nbtload.c:222-262 | planes, small arrays and arrays to skip are told apart, with every way to fail |
| `NbtCodec.Loader.ReadElementOf` | nbtload.c:217-382 | the recursive reader with its flat memory of label, section and depth is the reading function, on every input, and it terminates |
| `NbtCodec.Loader.LoadCwFile` | nbtload.c:154-215 | which files are taken for level files, and what is read from them |
| `NbtCases.LabelRead` | nbtload.c:264-297 | a label keeps letters, underscores, parentheses and digits that are not first, has dashes for the rest, and is dropped if it is too long |
| `NbtCases.TextRead` | nbtload.c:264-306 | a string is reported up to its first NUL and 4095 bytes |
| `NbtCases.CutShort` | nbtload.c:266-278 | a string beyond the end of the file is noticed |
| `NbtCases.ArrayRead` | nbtload.c:222-262 | what becomes of byte arrays: planes, planes without an array for them, short and long ones, and cut off ones |
| `NbtCases.EndMayBeMissing` | nbtload.c:308-318 | the end of a compound may be missing from the end of the file |
| `NbtCases.ListRead` | nbtload.c:325-342 | a list of numbers is read to its end |
| `NbtCases.ListCutShort` | nbtload.c:326-332 | one that ends before its length is noticed |
| `NbtCases.BadTag` | nbtload.c:344-346 | a tag that does not exist is refused |
| `NbtCases.OtherFiles` | nbtload.c:161-206 | what is refused and what is left to other formats |
| `NbtCases.OtherName` | nbtload.c:185-197 | a document of another name is refused |
| `SaveFile.BcWriteSetblocks` | nbtsave.c:429-444 | the records written are those of the list in its order |
| `SaveFile.WriteMap` | nbtsave.c:337-410 | planes, records and end complete the document begun |
| `SaveFile.RecordsApplied` | nbtload.c:602-611 | loading the records replays the log |
| `SaveFile.PlanesApplied` | nbtload.c:384-564 | loading the planes puts the map there, whatever was there before |
| `SaveFile.SavedFileLoads` | nbtload.c:154-382 | the file of a save is read to its last byte and leaves the planes' map with the log replayed |
| `SaveFile.SizeHeaderIsHeader` | nbtsave.c:61-73 | version, identifier and size, followed by members that do not touch the block array, are such a header |
| `SaveFile.SizeOfSavedFile` | nbtload.c:581-600 | the size read from the file of a save is the one it was written with, whatever was known before |
| `SaveFile.SizeCases` | nbtload.c:581-593 | where a size is taken from, and what values are meant |
| `SaveFile.SameLetters` | nbtload.c:602 | section names are compared without regard to case |
| `SaveFile.FileHoldsAMoment` | nbtsave.c:26-444 | from the first step of a save to the bytes of its file and back: the size, and the map that was shared when the queue was found drained, exactly under the condition of `SaveProtocol.ConsistentSave`, and so if every edit is one locked step or every silent write has been settled |
| `ChatWrap.PostChat` | chat_message.c:205-297 | the loop ends although it goes back, and sends the packets that laying the message out line by line gives; other types are cut to the first of them |
| `ChatWrap.PutCharacter` | chat_message.c:252-276 | what is added for one character: mark, colour code, and the space that is swallowed |
| `ChatWrap.RunUpAdvances` | chat_message.c:242-250 | every cut is further on in the message, although it may lie before characters already laid out, and no line is too long |
| `ChatWrap.PacketsKeepText` | chat_message.c:214-297 | every packet has 64 characters; without colours, marks and spaces the packets hold the message's characters in order, none lost and none twice, and the first of them a beginning |
| `ChatWrap.LinesBreakAtSpaces` | chat_message.c:235-250 | a line ends full and with a word, or before the last space that came up before the first character without room, or it is full of a single word |
| `ChatColours.LineInColour` | chat_message.c:219-276 | each line is painted as asked for from its start on; the next goes on with the colour asked for where this one was stopped |
| `ColourContinuity.MessageInColour` | chat_message.c:219-290 | every character is painted in its colour, if and only if each line goes on in the colour asked for, or has a colour code before anything in it can be seen |
| `ColourContinuity.SafeMessage` | chat_message.c:219-290 | so it is if every colour code stands at the start, directly after a space or directly after another code |
| `ColourContinuity.ColourLost` | chat_message.c:242-250 | a message with a code inside a long word, which is not painted as it asks for |
| `ChatInput.SanitiseNbString` | requestloop.c:295-316 | the text of a packet without the blanks at its end, NULs replaced and, if need be, turned into ASCII |
| `ChatInput.KeepAll` | requestloop.c:444-455 | a continued packet keeps all its 64 characters, NULs replaced |
| `ChatInput.SanitisedMeans` | requestloop.c:295-316 | character by character: what is shown for a NUL and for what is not ASCII, and that no blank is left at the end |
| `ChatInput.Input.MakeRoom` | chat_message.c:14-28 | the buffer always has room for one more packet, and keeps what it has |
| `ChatInput.Input.ProcessChatMessage` | chat_message.c:9-38 | continued packets are collected, and any other completes the line |
| `ChatInput.Input.Receive` | requestloop.c:433-460 | decoding and collecting together |
| `ChatInput.LastPartTaken` | requestloop.c:295-316 | the last part of a line is taken as it is exactly if it does not end with a space and has nothing that is turned into ASCII |
| `ChatInput.LinesArrive` | chat_message.c:9-38 | lines of any length, cut up in any way, come out one by one, changed in their last part at most, and exactly as sent if and only if that is taken as it is |
| `FixedQueue.Queue.Create` | shared.c:516-544 | any header is made usable |
| `FixedQueue.Queue.Put` | queue_cmd.c:47-63 | an entry is appended to the history, and no reader moves or is cut off |
| `FixedQueue.Reading.Next` | queue_cmd.c:91-118 | the next entry ever appended, or none, or a new start for a reader that is a whole ring behind |
| `ChatQueue.QueueChat` | queue_chat.c:41-78 | the entries appended carry the message, each with the length of the rest, and no session's place is touched |
| `ChatQueue.SendQueuedChats` | queue_chat.c:98-191 | what is posted is what the entries from the place on amount to, or nothing if the session has lost its place, which is exactly if it is a whole ring behind or was cut off before |
| `ChatQueue.Reassembled` | queue_chat.c:144-190 | messages of positive length are put together with exact text, type and order, after what was left over, if anything |
| `ChatQueue.EveryMessageArrives` | queue_chat.c:171-190 | each message meant for a session arrives exactly, multiples of 64 included, if and only if nothing was left over |
| `ChatQueue.ChatArrives` | queue_chat.c:41-191 | from one session to another: of the messages waiting and those queued now a session posts exactly the ones meant for it if and only if nothing was left over; unless it was cut off before it loses its place exactly if they take a whole ring of entries |
| `ChatQueue.WhoSees` | queue_chat.c:49-60 | whom a message is meant for: one player, one level, everybody but those who keep level chat to themselves, or no team; and never those who ignore the speaker |
| `ChatQueue.MeantEach` | queue_chat.c:115-190 | what is meant of many messages is what is meant of each, in order |
| `ChatQueue.NotForThem` | queue_chat.c:144-146 | an entry that is not for a player is passed over by its session and by no other |
| `ChatQueue.EmptyMessageEchoes` | queue_chat.c:62-69 | a message of no length shows its slot's old text, so it arrives empty exactly if that text was empty |
| `Framing.FeedIsParse` | requestloop.c:272-282 | feeding byte by byte delivers the packets of the whole stream |
| `Framing.CutsDoNotMatter` | requestloop.c:252-283 | however a stream is cut into reads, the same packets are delivered in the same states and the same bytes left pending, while handling packets changes their lengths |
| `Framing.Receiver.RemoteReceived` | requestloop.c:252-283 | one read, with its way past the buffer for a read that is exactly one packet, is the same as its bytes one by one; an unknown packet ends it |
| `Framing.Outgoing.WriteToRemote` | requestloop.c:48-76 | what is written waits behind what was written before |
| `Framing.Outgoing.FlushToRemote` | requestloop.c:78-98 | what the system takes is sent, in order and once |
| `PacketLengths.RewriteLengths` | cpe_login.c:288-343 | the assignments give each kind of packet the length that its extensions call for |
| `PacketLengths.RewriteAgain` | cpe_login.c:288-343 | what was assigned when fewer extensions were known is assigned anew |
| `PacketLengths.TableFollowsFlags` | cpe_login.c:174-343 | for any stream the table depends only on which extensions are on, not on the order of their announcement |
| `PacketLengths.LengthsByContent` | packet.c:131-246 | every length is the basic one with six bytes for a wide position, one for every wide block number, one for every wide texture and four for the size of a fast map |
| `PacketLengths.DecodersAgree` | requestloop.c:343-405 | block changes are decoded from exactly the bytes of their packet; so are positions if and only if wide block numbers come with held blocks |
| `BoundedRandom.EveryResultAlike` | pcg_basic.c:195-205 | of all 2^32 words exactly floor(2^32/bound) are accepted for each result |
| `BoundedRandom.EveryRemainderAlike` | random.c:337-346 | the remainder method has the same counts |
| `BoundedRandom.MostAreAccepted` | pcg_basic.c:180-186 | fewer words are rejected than not |
| `BoundedRandom.BoundedRand` | pcg_basic.c:161-206 | the loop stops at the first accepted word with its result; the early way out and the 32 bit threshold change nothing |
| `BoundedRandom.BoundedRemainder` | random.c:337-346 | the same for the remainder |
| `SplitMix.JumpIsMany` | splitmix64.c:35-41 | one multiplication is as good as any number of steps, wrap-around included |
| `SplitMix.KnownNumbers` | splitmix64.c:27-33 | the first numbers for two seeds are those of Vigna's splitmix64 |
| `SplitMix.Generator.Jump` | splitmix64.c:39-41 | the state after the jump |
| `SplitMix.Peek` | splitmix64.c:47-50 | the number that comes after that many others |
| `AntiSpam.Counter.AddEvent` | antispam.c:25-77 | the answer and the new counters, in every branch |
| `AntiSpam.DeadlineGrows` | antispam.c:43-64 | every event, refused or not, moves the deadline on by its spacing, through resets and carry-overs |
| `AntiSpam.BetweenEvents` | antispam.c:25-77 | from any event to any accepted one |
| `AntiSpam.WindowBound` | antispam.c:25-77 | k accepted events within W ms satisfy (k-1)*T < N*(W+T) |
| `AntiSpam.BoundIsExact` | antispam.c:25-77 | if T is a multiple of N, k events can be accepted within W ms if and only if (k-1)*T < N*(W+T) |
| `AntiSpam.MoreThanTheCount` | antispam.c:16-23 | two events are allowed in two seconds, and a run has three accepted within a millisecond |
| `AntiSpam.NeverRefused` | antispam.c:46-53 | who keeps to the allowed rate is never refused |
| `AntiSpamBans.BanHolds` | antispam.c:69-76 | in every run, who is refused is refused for as long as the ban lasts, and until what was counted would be through at the allowed rate |
| `AntiSpamBans.Forgiven` | antispam.c:36-57 | who waits until every ban is over and nothing is outstanding, and then keeps to the rate, is not refused any more |
| `AntiSpamBans.StayingAheadIsCaught` | antispam.c:59-70 | of four times the count of events in a row, each four or more ahead of the rate, the last is refused |
| `AntiSpamBans.RefusedExactly` | antispam.c:45-77 | an event is refused without a ban in force exactly if it is a window ahead, or ahead at all with the third offence since nothing was outstanding |
| `AntiSpamBans.AcceptedAre` | antispam.c:17-20 | the number of accepted events in the bounds is the number of those that were not refused |
| `Landing.IsFlat` | createmap.c:447-457 | the loops check every cell of the space |
| `SpawnSearch.ShiftSpawnToLand` | createmap.c:397-468 | terminates, and moves the spawn point to the first spot that suits, or leaves it alone at the first ring that is off the map; if nothing on the rings inside suits and the column to the east of the next does, that is the place |
| `SpawnSearch.FromHome` | createmap.c:419-428 | the eight directions in their order |
| `SpawnSearch.RingInOrder` | createmap.c:417-428 | the spots of a ring are east, west, south and north of the start, and then the four corners, as far away as its number |
| `SpawnSearch.HomeMeans` | createmap.c:403-414 | the search starts in the cell of the spawn point, or in the middle of the map if that is beyond it, and at the top if it is too high or too low |
| `SpawnSearch.OffTheEdge` | createmap.c:407-411 | the same for points before the first cell |
| `SpawnSearch.FoundForGood` | createmap.c:460-465 | a place once found is where another search stays |
| `Landing.RestMeans` | createmap.c:432-440 | the walk in a column comes out at the first open place above, or drops through air to the first ground, and never turns round |
| `SpawnSearch.SearchIsComplete` | createmap.c:410-430 | if the spawn point is left alone then no spot on any ring would have done |
| `Landing.LandingMeans` | createmap.c:437-463 | air for feet and head over a solid floor of three by three, all on the map, with no liquid right below |
| `Sha1.TwoAtOnce` | teeny-sha1.c:157-160 | the rotate-by-2 recurrence is the schedule of section 6.1.2 of FIPS 180-4 |
| `Sha1.Extend` | teeny-sha1.c:151-160 | the eighty words are those of the standard |
| `Sha1.FewestZeros` | teeny-sha1.c:100-103 | the padding is the shortest possible |
| `Sha1.MakeTail` | teeny-sha1.c:100-122 | data and tail together are the padded message of section 5.1.1 |
| `Sha1.FeedBlock` | teeny-sha1.c:130-149 | the byte feed across the end of the data gives the words of the block |
| `Sha1.MainLoop` | teeny-sha1.c:162-197 | the eighty rounds, with `or` for the exclusive `or` of the standard |
| `Sha1.ConstantsMeant` | teeny-sha1.c:172-189 | the round constants are square roots times 2^30 |
| `Sha1.RotationByOne` | teeny-sha1.c:151-154 | the two shifts rotate a word by one |
| `Sha1.RotationByTwo` | teeny-sha1.c:155-160 | the same by two |
| `Sha1.RotationByFive` | teeny-sha1.c:191 | the same by five |
| `Sha1.RotationByThirty` | teeny-sha1.c:194 | the same by thirty |
| `Sha1.ChMeant` | teeny-sha1.c:171-175 | the first function chooses bit by bit |
| `Sha1.ParityMeant` | teeny-sha1.c:176-180 | the second is the sum without carries |
| `Sha1.MajMeant` | teeny-sha1.c:181-185 | the third is the majority bit by bit |
| `Sha1.FunctionOfRound` | teeny-sha1.c:171-190 | which of the three functions a round uses |
| `Sha1.Sha1Digest` | teeny-sha1.c:74-206 | the digest is SHA-1 of the data |

## Left out

- Ring.RunIsFaithful: generations are unbounded numbers; the source counts them in 32 bits, which matters to a reader that is four thousand million generations behind.
- BlockQueue.Queue.CreateBlockQueue: the build with `posix_fallocate` only; the fallback that sets the file's length would shorten it on every opening (shared.c:66-70).
- BlockQueue.Session.SendQueuedBlocks: the methods are sequential; what other processes do in between is in `Ring`, `SaveProtocol` and `LiveClient`. The mapping is checked once before up to 1024 readings, each with a lock of its own, so if another process lengthens the ring in between, a position may pass the end of what this process has mapped (queue_block.c:311-318).
- SaveProtocol.ConsistentSave: says nothing of a save whose queue overflowed, which the source reports and finishes all the same.
- Edits.UpdateBlock: what one session does alone. The source writes the cell before it takes the lock; what others may see in between is in `SaveProtocol` and `LiveClient`, where two sessions editing one cell at the same time may leave it silently changed. The packet for a player in paint mode and user statistics are not modelled.
- BulkEdits.DoCuboid: whether the user may handle a block, and is exempt from the limit, are parameters.
- BulkEdits.FixgrassBlocks: stored block numbers have definitions; the source indexes the definitions without a check.
- BlockPlanes.SavePlanes: the stand-ins for physics blocks are a parameter (nbtload.c:45-62), as nothing depends on them.
- ClientConvergence.ClientConverges: block definitions and properties of the level do not change while a client is live; what clients show before the server answers is theirs.
- NbtRoundTrip.DocumentRead: lists are read but never written by the source, so no document has them. Floating point values are bits.
- NbtCodec.Writer.BcEntString: the text is already UTF-8; `Cp437` has the conversion.
- SaveFile.FileHoldsAMoment: the properties of the level are any members that the loader takes in without touching the block array; which ones a save writes is not listed.
- Cp437.RoundTrip: malformed and truncated UTF-8 is converted by the same method, without a claim of what it means.
- NbtCodec.Loader.ReadString: reports the bytes of a string; that they are turned into code page 437 first (nbtload.c:303) is left to `Cp437`.
- ChatInput.Input.ProcessChatMessage: ends where the line is complete; what it says to a command or a private message is not modelled.
- MapTransfer.SendBlockArray: maps of at most 2^32 cells, where the source stops at 2^31; compression is the identity and progress is not counted.
- ChatQueue.SendQueuedChats: what decides who sees a message does not change during one reading.
- ChatQueue.ChatArrives: a process that attaches to the chat ring, finds that its header makes no sense and resets it while others read (shared.c:516-544) is not among the steps.
- Framing.CutsDoNotMatter: handling a packet is any function of the state and the packet; that no packet is longer than the buffer of 8192 bytes (requestloop.c:13) is not among its results.
- BoundedRandom.BoundedRand: takes the words of the generator as given; the generators themselves, but for splitmix64, are not modelled.
- ChatQueue.EmptyMessageEchoes: a slot without a NUL is taken to end after its 64 bytes, where the source would read on.
- AntiSpam.Counter.AddEvent: the product of events and window is unbounded; the source computes it in 32 bits.
- Sha1.Sha1Digest: missing arguments and writing the digest in hexadecimal.
- The padded map for clients with odd dimensions (`send_padded_block_array`), the build with 8 bit blocks, zlib (taken to be the identity), locks, sockets, memory mapping, signals and failures to allocate memory.
- Commands, permissions, login, web sockets and terrain generation.
