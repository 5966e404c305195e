# Accelerators, driver and overlay: a verified model

This project models two clocked accelerators, the Linux driver that runs tiles through them, and
the script that cuts a device-tree overlay out of generated text, and proves what they are for.

- **The accelerators.** `sparse_cnn_axi` takes a tile of operand pairs over an AXI4-Stream,
  multiplies and accumulates them while skipping zeros, and answers in registers. `relu_axi`
  transforms a tile beat by beat and sends it back. Each is a class whose `Tick` is one clock edge,
  every next value taken from the values before the edge, proved equal to a step of a value machine.
  That machine carries a reference beside the registers: what the ports have said, in order, with
  no clock. The invariants (`SparseCnnAxi.Inv`, `ReluAxi.Inv`) tie the registers to the reference in
  every reachable state, and the `…Runs` modules draw the whole-run theorems from them: poll-loop
  safety, exact latency, held answers, stream refinement, the COUNT law and its conservation form.
- **The board.** `Board` puts one accelerator between two DMA channels, tile buffers and the CPU's
  register accesses, on one clock. All choices (whether a channel offers or takes a beat, other
  masters' reads, response stalls, a slope store waiting on another CPU) are free in every cycle.
- **The driver.** `AccelDriver` is the transport and both register layers over that board.
  `Session` runs any sequence of `write`, `read` and slope stores, with any failures and any timing,
  and promises of every call exactly what it is due, in terms of the golden models and of the calls
  before it alone.
- **In plain terms.** A definition that model and specification share is tied down by laws that name
  neither: the register maps by offset and value, the activation by its products with 256, the skip
  count by the zero bytes of a tile, sessions by sizes, error numbers and values read (`Sessions`), the
  overlay by the texts it makes of a generated tree (`GeneratedTree`).
- **The overlay.** `Overlay` has the brace-depth extractor over text and proves that extraction
  undoes printing; `Interrupts` has the channel-interrupt alignment and `DmaLink` the connection of the
  DMA to its client, over nodes whose property values are text.

| file | content |
|---|---|
| Words.dfy, Wrappers.dfy | two's complement, byte lanes, powers of two; Option |
| SparseMac.dfy | the multiply-accumulate element and its golden model |
| AxiLite.dfy | the AXI4-Lite slave both accelerators carry (AMBA AXI Protocol Specification, IHI 0022, sections A3.2 and A3.3) |
| SparseCnnAxi.dfy, SparseCnnRuns.dfy | the first accelerator, and its whole runs |
| ReluUnit.dfy, ReluAxi.dfy, ReluRuns.dfy | the second accelerator, its arithmetic, and its whole runs |
| Board.dfy, AccelDriver.dfy, Sessions.dfy | an accelerator with its DMA, the driver above it, and what a session of calls promises |
| Strings.dfy | the text operations of the overlay script: splitting, quoting, erasing |
| Overlay.dfy, Interrupts.dfy, DmaLink.dfy, GeneratedTree.dfy | the overlay script, and its transformations on a tree as it is generated |

## Where the code and its documentation differ

The model follows the code. Each difference is a lemma: the condition under which the documentation
holds, and, where that alone does not name one, an input on which it does not.

- docs/register-map-sparse-cnn.md:56 says START is ignored while BUSY. That holds of a START iff it
  does not commit in the latch cycle; in that cycle it is taken although a tile is under way
  (`SparseCnnRuns.StartTakenIff`, with `SparseCnnRuns.StartWhileBusy` as a concrete run).
- docs/register-map-sparse-cnn.md:49-50 says START and CLEAR always read back 0. They read back 1
  in the one cycle after a commit that sets them, and in no other (`SparseCnnRuns.CtrlReadback`).
- docs/register-map-sparse-cnn.md:47 and 86-87 say CLEAR zeroes the accumulator immediately. In the
  cycle after it commits ACC and SKIP still read what they would have read without it, so the promise
  holds there iff both are zero anyway; from the next cycle they read zero until another tile finishes
  (`SparseCnnRuns.ClearShowsLate`, `SparseCnnRuns.ClearedUntil`, with `SparseCnnRuns.ClearStillShown`
  as a concrete run).
- rtl/relu_axi.sv:272-277 adds to a finishing tile the next tile's first beat when it is accepted in
  the cycle the last one leaves. COUNT is a tile's length modulo 2^16 iff that happened at both of
  its ends or at neither (`ReluRuns.CountIsLengthIff`, with `ReluRuns.OverlapMiscounts` as a
  concrete run). The driver never lets it happen (`Board.ReluApart`).
- docs/register-map-relu.md:54-59 says BUSY is up from a tile's first beat until its last leaves, and
  DONE when the last tile completed. Each holds iff no beat is miscredited, that is except from such an
  overlap until the new tile's second beat is accepted, or for as long as a new tile of one beat stays
  (`ReluRuns.StatusIff`, with `ReluRuns.OverlapMiscounts`).
- docs/register-map-relu.md:95-101 polls DONE right after the transfers are set going and then reads the
  tile's COUNT. A DONE sample is this tile's iff a beat of it has been accepted; before that it is the
  previous tile's (`ReluRuns.DoneIsMineIff`, `ReluRuns.PollAnswer`, with `ReluRuns.StaleDone` as a
  concrete run). The driver polls only once every beat is back (`Board.ReluFinished`).
- rtl/relu_unit.sv:23-25 allows the product one bit more than it needs: `DATA_W + SLOPE_W` bits hold
  every product, and one fewer holds them all iff SLOPE_W is 1 (`ReluUnit.ProductWidth`).
- flows/embedded/overlay.py:91-105 speaks of one specifier per name. A node with interrupt names and no
  interrupt cells reaches a slice width of zero, which raises an error, and no other node does
  (`Interrupts.AlignChannelInterrupts`, with `Interrupts.NameWithoutCells` as a concrete node).
- flows/embedded/overlay.py:108-116 says each channel takes the entry named for its direction. The
  search at line 75 also stops at a property whose longer name ends with the one looked for after a
  character that is no part of a word, such as `num-interrupts` or `xlnx,interrupts`. A value is read from
  the right property iff nothing before it passes for it so, or what does has the same value; a channel's
  own interrupts are rewritten iff nothing before them does, or they were right already
  (`Interrupts.ReadsOwnIff`, `Interrupts.RightPropertyIff`, with `Interrupts.MisledNode` and
  `Interrupts.Misled` as concrete nodes). Where nothing passes for another, each channel does take its
  entry (`Interrupts.ChannelsAligned`).
- flows/embedded/overlay.py:65 speaks of a node's own property text. Sub-nodes are taken out of it
  wherever their text stands, so it is the node's own lines when each of those texts stands only where a
  sub-node with that text does, and can keep a piece of a sub-node when one ends another
  (`Overlay.PartsOfNode`, with `Overlay.LeftBehind`). It can also come out right by chance
  (`Overlay.RightByChance`).

## Model

| member | source | states |
|---|---|---|
| AccelDriver.Session | driver/accel_transport.c:118-269 | from whatever state an accelerator is found in, for every sequence of calls, every DMA failure, timeout and timing: each read returns exactly the golden answer to the calls before it, or the error its caller can account for; each write is refused for a reason in its own environment, times out if a completion is late, and otherwise succeeds given time; on an accelerator found bare none is refused as busy unless one has timed out since the last that got past that check; once one is, every later one is |
| AccelDriver.Serve | driver/accel_transport.c:225-269 | one call on a device keeps that promise |
| AccelDriver.AccelDevice.constructor | driver/accel_transport.c:338-344 | a device once claimed reports nothing (relu) or zeros (sparse_cnn), and leaves the accelerator as it found it |
| AccelDriver.StandsAgain | driver/accel_transport.c:324-344 | whatever state a device leaves its accelerator in, another may claim it |
| AccelDriver.OutOfReset | rtl/relu_axi.sv:155-201 | either accelerator out of reset may be claimed, and is bare |
| AccelDriver.AccelDevice.Write | driver/accel_transport.c:225-249 | the exact error for each refusal; otherwise success iff no completion was late and every beat moved, which it does given time; which calls a reader can tell happened; and whether the accelerator is left clean: it is unless the tile timed out with part of it inside |
| AccelDriver.AccelDevice.Read | driver/accel_transport.c:257-269 | all of the answer the calls so far are due, or exactly which error |
| AccelDriver.AccelDevice.SlopeStore | driver/relu.c:142-168 | refused rather than truncated above 255; otherwise the slope is the one in force for the next tile, and nothing else changes |
| AccelDriver.AccelDevice.RunTile | driver/accel_transport.c:118-223 | on every exit both channels are vacant, exactly the steps that were taken are recorded, and the exit is the one its environment calls for: success iff nothing stands in the way, no completion is late and every beat moved; nothing is started unless every descriptor was queued; results are published iff the tile is the golden one |
| AccelDriver.AccelDevice.Send | driver/accel_transport.c:178-223 | of a queued tile: started, released return path first, waited for and finished, or torn down; its outcome, and what it leaves inside |
| AccelDriver.AccelDevice.Finish | driver/accel_transport.c:200-217 | once every beat is through, the register layer always agrees, and what is published is the golden result of the bytes in the buffer |
| AccelDriver.AccelDevice.Launch | driver/accel_transport.c:178-188 | start before anything moves, the return path released before the outgoing one, and the tile under way afterwards |
| AccelDriver.AccelDevice.Queue | driver/accel_transport.c:155-169 | both descriptors queued or an error with the outgoing channel vacant; nothing has moved and the hardware is as it was |
| AccelDriver.AccelDevice.Wait | driver/accel_transport.c:107-116 | completes iff in time with every beat moved; either way the channel holds no descriptor afterwards; each willing cycle gains a beat |
| AccelDriver.AccelDevice.Submit | driver/accel_transport.c:155-169 | a refused submit changes nothing; an accepted one queues without moving a beat |
| AccelDriver.AccelDevice.IssuePending | driver/accel_transport.c:186-188 | releases exactly the queued descriptor, allowed only after the start |
| AccelDriver.AccelDevice.Terminate | driver/accel_transport.c:219-222 | the channel is empty; hardware, buffers and the other channel are untouched |
| AccelDriver.AccelDevice.Accept | driver/relu.c:58-63 | refuses iff part of an earlier tile is still inside the accelerator |
| AccelDriver.AccelDevice.Start | driver/sparse_cnn.c:60-68 | the accelerator is enabled and exactly the tile in the buffer is under way |
| AccelDriver.AccelDevice.PollDone | driver/sparse_cnn.c:77-84 | done iff its last STATUS sample showed DONE; for sparse_cnn that is a latched result, and a landed tile is always seen done |
| AccelDriver.AccelDevice.ReluFinish | driver/relu.c:77-106 | success iff DONE was seen and then COUNT equalled the beats sent, with which error otherwise; a landed tile passes both |
| AccelDriver.AccelDevice.SparseFinish | driver/sparse_cnn.c:70-89 | the stored pair is the unbounded dot product and zero count of the tile, or what it was |
| AccelDriver.AccelDevice.ReadReg | driver/relu.c:60-61 | a read held until it is accepted, and its response until it is taken, carries what the register map showed in the cycle it was accepted |
| AccelDriver.AccelDevice.WriteReg | driver/relu.c:165-165 | a write held until it is accepted, its halves together or in either order and any time apart, lands whole in one cycle |
| AccelDriver.AccelDevice.PostHalf | rtl/sparse_cnn_axi.sv:156-167 | half a write waits for the other through any number of cycles, and nothing is applied meanwhile |
| AccelDriver.AccelDevice.Elapse | driver/accel_transport.c:110-110 | whatever happens while the CPU waits keeps the tile, the slope, the lock and the answer, and makes progress |
| AccelDriver.WrittenThenRead | driver/accel_transport.c:206-217 | a write that succeeds and is read back gives the golden tile under the slope in force when it was written: every byte the greatest whole number not above its product with slope / 256, or itself; or the sum of products and the number of pairs with a zero byte |
| AccelDriver.FailedThenRead | driver/accel_transport.c:127-127 | a write that reached the accelerator and failed leaves relu nothing to read and sparse_cnn what it had |
| Sessions.LastTileRead | driver/accel_transport.c:206-217 | so does any later read, however many reads, slope stores and refused writes lie between |
| Sessions.NothingToRead | driver/accel_transport.c:127-127 | relu has nothing to read after a tile that reached the accelerator and failed |
| Sessions.NothingYet | driver/accel_transport.c:338-344 | before any tile relu has nothing and sparse_cnn zeros |
| Sessions.FavouredWrite | driver/accel_transport.c:118-249 | a write of a whole tile of at most 4096 beats that nothing stands in the way of succeeds |
| Sessions.NotBusyAfter | driver/sparse_cnn.c:53-58 | no write is refused as busy after one that succeeded, or failed for want of a descriptor, with no timeout since |
| Sessions.BusyForGood | driver/accel_transport.c:171-177 | after one refused as busy none gets through |
| Sessions.WriteErrors | driver/accel_transport.c:225-249 | exactly when a write fails with each of the errors that come before the tile is looked at, by its size in bytes, and what the others tell |
| Sessions.ReadErrors | driver/relu.c:108-121 | exactly when a read fails with each error, and that it otherwise returns the whole answer |
| Sessions.SlopeErrors | driver/relu.c:149-157 | exactly when a slope store fails with each error |
| Sessions.SlopeInForce | driver/relu.c:159-166 | a tile is written under the last slope stored |
| Sessions.SlopeAsFound | driver/relu.c:159-166 | or under the one the accelerator was found with |
| DriverSpec.TileScales | tb/model/relu_model.py:34-38 | the golden tile, byte by byte, by its products |
| DriverSpec.TileZeros | tb/model/sparse_mac_model.py:26-31 | the golden skip count is the number of pairs with a zero byte |
| DriverSpec.TileDot | tb/model/sparse_mac_model.py:26-31 | the golden sum grows by the product of the two bytes, read as signed |
| AccelDriver.LandedIsDone | driver/relu.c:51-56 | DONE is up in every STATUS sample once the transfers are complete and a cycle has passed |
| AccelDriver.OrderedGrows | driver/accel_transport.c:171-188 | order is kept by steps that may follow the ones before |
| Board.OnKeeps | rtl/relu_axi.sv:211-246 | a tile's record of beats sent and returned is exact after every cycle, whatever its timing |
| Board.CoreKeeps | rtl/relu_axi.sv:230-279 | a cycle in which no register write lands keeps every invariant, and tiles the driver runs never overlap in the pipeline |
| Board.ReluApart | rtl/relu_axi.sv:272-277 | during a tile no beat is accepted in the cycle its last one leaves |
| Board.ContendsIff | driver/relu.c:159-166 | a waiting slope store goes ahead iff nobody holds the lock |
| Board.ReluDue | rtl/relu_axi.sv:233-246 | the output register is occupied iff a sent beat is not back, and holds the next one due |
| Board.Progress | rtl/sparse_cnn_axi.sv:284-287 | a measure no cycle raises and every cycle with both channels willing lowers |
| Board.HalvesLand | rtl/sparse_cnn_axi.sv:172-179 | a half that waited lands with the half that comes, whichever came first |
| Board.ReadWaits | rtl/sparse_cnn_axi.sv:266-276 | a response waits unchanged until it is taken |
| Board.CleanKeeps | driver/accel_transport.c:171-177 | with the channels idle a tile left unfinished stays unfinished and none is begun |
| Board.CleanIff | driver/accel_transport.c:171-177 | stopped anywhere, a tile leaves nothing inside iff it is all through, or is relu's and has not begun |
| Board.NotBusy | driver/sparse_cnn.c:53-58 | BUSY reads 0 only when no beat of any tile is left inside, and iff so once the sequencer has settled |
| Board.SparseStarts | driver/sparse_cnn.c:60-68 | writing EN and START in one go begins the tile about to be sent, with nothing of an earlier one in it |
| Board.ReluStarts | driver/relu.c:65-75 | the enable disturbs nothing |
| Board.SlopeLands | driver/relu.c:164-166 | a slope store between tiles sets the slope and nothing else, and neither begins nor finishes a tile |
| Board.ReluLastTile | driver/accel_transport.c:206-214 | the last tile the stream spells out is the one just sent, whole |
| Board.ReluFinished | driver/relu.c:92-104 | with every beat back STATUS reads DONE alone and COUNT the tile's length |
| Board.SparseFinished | driver/sparse_cnn.c:41-45 | with every beat sent and one idle cycle passed the result is latched |
| Board.AnsweredIff | rtl/sparse_cnn_axi.sv:230-245 | a STATUS sample reads DONE iff the last tile's result is latched and no START is on its way |
| Board.AnswerShown | driver/sparse_cnn.c:86-87 | ACC read as s32 is the unbounded dot product of the tile sent and SKIP its zero count |
| SparseCnnAxi.SparseCnnAxi.Tick | rtl/sparse_cnn_axi.sv:159-355 | one clock edge keeps every invariant and moves registers and reference together |
| SparseCnnAxi.SparseCnnAxi.Clock | rtl/sparse_cnn_axi.sv:213-355 | every register's next value comes from the values before the edge |
| SparseCnnAxi.SparseCnnAxi.Reset | rtl/sparse_cnn_axi.sv:184-188 | a reset cycle reaches the initial state, captured address and data aside |
| SparseCnnAxi.SparseCnnAxi.constructor | rtl/sparse_cnn_axi.sv:322-326 | power-up satisfies every invariant |
| SparseCnnAxi.SparseCnnAxi.TickTile | rtl/sparse_cnn_axi.sv:321-355 | the sequencer's block, an explicit clear winning over a latch |
| SparseCnnAxi.SparseCnnAxi.TickCtrl | rtl/sparse_cnn_axi.sv:213-225 | pulses fall, then a strobed write lands |
| SparseCnnAxi.StepKeeps | rtl/sparse_cnn_axi.sv:159-355 | every invariant survives every cycle under every input |
| SparseCnnAxi.PulseLaw | rtl/sparse_cnn_axi.sv:209-225 | a pulse is high in exactly the cycle after a commit that asks for it, never two cycles running, with the response outstanding; EN moves only with a write that strobes it |
| SparseCnnAxi.PhaseKeeps | rtl/sparse_cnn_axi.sv:328-346 | the sequencer is running iff a START was taken and its last beat has not come |
| SparseCnnAxi.ElementKeeps | rtl/sparse_cnn_axi.sv:287-319 | the element holds the wrapped sum and zero count of exactly the beats kept since the last clear |
| SparseCnnAxi.ResultKeeps | rtl/sparse_cnn_axi.sv:337-353 | ACC and SKIP hold the last finished tile's result, change only at a latch or a clear, and equal the element when idle |
| SparseCnnRuns.EveryRun | rtl/sparse_cnn_axi.sv:159-355 | every state of every run satisfies the invariant |
| SparseCnnRuns.PollLoop | rtl/sparse_cnn_axi.sv:230-245 | from the cycle a START commits every STATUS sample reads BUSY alone until that tile's last beat is in; with no other START every sample reads BUSY or DONE alone, and a DONE finds ACC and SKIP golden for exactly the beats accepted since |
| SparseCnnRuns.PollAnswer | rtl/sparse_cnn_axi.sv:230-355 | once a STATUS sample after a START reads DONE, every ACC and SKIP sample reads the golden result of exactly the pairs accepted since that START and the last CLEAR, until another tile finishes or a CLEAR commits |
| SparseCnnRuns.StatusLaw | rtl/sparse_cnn_axi.sv:237-245 | BUSY and DONE are never both set, exactly one is from the first START on, and DONE means a golden result |
| SparseCnnRuns.AnswerHeld | rtl/sparse_cnn_axi.sv:321-355 | ACC and SKIP keep their values until a tile finishes or a CLEAR commits, even while the next is running |
| SparseCnnRuns.ClearShowsLate | rtl/sparse_cnn_axi.sv:348-353 | in the cycle after a CLEAR commits ACC and SKIP are as they would have been without it, which is the cleared result iff both are zero; in the next they are zero |
| SparseCnnRuns.ClearedUntil | rtl/sparse_cnn_axi.sv:348-353 | and they read zero until another tile finishes or a CLEAR commits |
| SparseCnnRuns.ClearStillShown | rtl/sparse_cnn_axi.sv:348-353 | a run at every length in which a read after a committed CLEAR still shows the sum, and the next one zero |
| SparseCnnRuns.OneTile | rtl/sparse_cnn_axi.sv:328-344 | one START finishes at most one tile, and has finished it iff none is running |
| SparseCnnRuns.TileSoFar | rtl/sparse_cnn_axi.sv:281-294 | the reference's tile is the beats that crossed the stream since the START |
| SparseCnnRuns.NothingTaken | rtl/sparse_cnn_axi.sv:284-287 | while EN is clear nothing is taken off the stream, until a write sets it |
| SparseCnnRuns.StartDisabled | rtl/sparse_cnn_axi.sv:284-287 | a START written without EN begins a tile of which nothing is taken and STATUS reads BUSY alone, until EN is set |
| SparseCnnRuns.StartAlone | rtl/sparse_cnn_axi.sv:213-225 | as 0x1 written to CTRL out of reset does |
| SparseCnnRuns.NothingDiscarded | rtl/sparse_cnn_axi.sv:287-290 | without a CLEAR everything sent is kept |
| SparseCnnRuns.TilesGrow | rtl/sparse_cnn_axi.sv:336-344 | finished tiles are never forgotten |
| SparseCnnRuns.StartTakenIff | rtl/sparse_cnn_axi.sv:328-344 | a START is taken iff the sequencer is idle or latching when it commits; so it is ignored exactly when a tile is under way iff it does not commit in the latch cycle |
| SparseCnnRuns.StartWhileBusy | rtl/sparse_cnn_axi.sv:328-344 | a run at every length in which a START is taken with a tile under way |
| SparseCnnRuns.CtrlReadback | rtl/sparse_cnn_axi.sv:251-251 | exactly when a pulse bit reads back as 1; reserved bits never do |
| SparseCnnRuns.RegisterMap | rtl/sparse_cnn_axi.sv:247-257 | what each offset reads, by number, and that all others read zero |
| SparseCnnRuns.ResetMap | rtl/sparse_cnn_axi.sv:126-126 | out of reset CTRL reads 4 and the others zero |
| SparseCnnRuns.Latency | rtl/sparse_cnn_axi.sv:287-346 | a tile of n beats with s source stalls reads BUSY for n + s + 4 cycles from its START commit and then DONE |
| SparseCnnRuns.StraightTile | rtl/sparse_cnn_axi.sv:328-346 | at every length there is such a tile: from reset, with no stall, DONE shows n + 4 cycles after the START commit |
| SparseCnnRuns.StraightSum | rtl/sparse_cnn_axi.sv:337-344 | and with all operands 1 its ACC then reads n |
| SparseCnnRuns.Sequencing | rtl/sparse_cnn_axi.sv:328-346 | the sequencer's state in every cycle of an undisturbed tile, and how many beats are in |
| SparseMac.SparseMacPe.Tick | rtl/sparse_mac_pe.sv:46-71 | one clock of the element: freeze, then clear, then count or accumulate |
| SparseMac.MacStep | rtl/sparse_mac_pe.sv:56-63 | skipping zeros and wrapping every cycle lose nothing against the wrapped dot product |
| SparseMac.PeLaw | rtl/sparse_mac_pe.sv:46-71 | frozen without the enable, cleared before anything else, one more counted for a product of zero, the product added otherwise |
| SparseMac.Golden | tb/model/sparse_mac_model.py:22-32 | the golden model is the plain dot product and the number of pairs whose product is zero |
| SparseMac.ZerosCount | rtl/sparse_mac_pe.sv:36-40 | what is counted is the pairs whose product is zero, each once |
| SparseMac.DotAdds | tb/model/sparse_mac_model.py:26-31 | the sum is that of its parts, and one pair's is its product |
| SparseMac.Unpack | rtl/sparse_cnn_axi.sv:314-315 | both operands of a beat are signed bytes |
| SparseMac.UnpackPacked | rtl/sparse_cnn_axi.sv:314-315 | a beat made of two bytes carries them back, weight in the low lane |
| SparseMac.DotBound | rtl/sparse_cnn_pkg.sv:12-14 | the dot product of n pairs lies in [-16256 n, 16384 n] |
| SparseMac.ExactWithinWidths | rtl/sparse_cnn_pkg.sv:10-17 | the accumulator is exact to 131071 pairs and the skip count to 65535 |
| SparseMac.WorstTile | rtl/sparse_cnn_pkg.sv:12-14 | and 131072 products of -128 by -128 wrap |
| SparseMac.AllZeroTile | rtl/sparse_cnn_pkg.sv:16-17 | and 65536 zero pairs read back as none |
| Words.ToSigned | tb/model/sparse_mac_model.py:46-50 | masking and subtracting gives the one number in the signed range with those low bits |
| Words.Signed | tb/model/relu_model.py:28-31 | a two's-complement reading is in range, congruent to the raw value, and the identity where nothing wraps |
| Words.SignedAbsorbs | rtl/sparse_mac_pe.sv:58-58 | a running sum may wrap at every addition |
| Words.LanesAre | rtl/sparse_cnn_axi.sv:220-222 | a word's lanes are its bytes, the least significant first |
| AxiLite.EveryWriteRun | rtl/sparse_cnn_axi.sv:159-207 | over every run, the k-th commit is the k-th address with the k-th data and strobe whichever came first, each answered once and after both, at most one pending |
| AxiLite.WriteHandshakes | rtl/sparse_cnn_axi.sv:164-172 | what crosses each handshake in one cycle, and when a write is applied |
| AxiLite.EveryReadRun | rtl/sparse_cnn_axi.sv:259-276 | over every run, each response carries the view of its own accept cycle, in order |
| AxiLite.WriteKeeps | rtl/relu_axi.sv:155-178 | one cycle keeps the write law; a commit raises the response it finds low |
| AxiLite.ReadKeeps | rtl/relu_axi.sv:310-320 | one cycle keeps the read law; a stalled response is held |
| AxiLite.WriteChannel.Tick | rtl/sparse_cnn_axi.sv:184-207 | the channel's clocked block, with its log |
| AxiLite.ReadChannel.Tick | rtl/sparse_cnn_axi.sv:266-276 | the channel's clocked block, with its log |
| AxiLite.ApplyStrobes | rtl/sparse_cnn_axi.sv:220-222 | the strobe loop replaces exactly the strobed lanes and keeps only storage bits |
| ReluAxi.ReluAxi.Tick | rtl/relu_axi.sv:155-279 | one clock edge keeps every invariant and moves registers and reference together |
| ReluAxi.ReluAxi.TickStream | rtl/relu_axi.sv:233-279 | the output register's and the accounting's blocks, a leaving tile winning over an arriving one |
| ReluAxi.ReluAxi.TickControl | rtl/relu_axi.sv:189-201 | EN and SLOPE take strobed writes and nothing else |
| ReluAxi.ReluAxi.Reset | rtl/relu_axi.sv:155-159 | a reset cycle reaches the initial state, captured address and data aside |
| ReluAxi.StepKeeps | rtl/relu_axi.sv:155-279 | every invariant survives every cycle under every input |
| ReluAxi.StreamKeeps | rtl/relu_axi.sv:211-246 | what has left and what is held is the golden activation of what came in, after every cycle |
| ReluAxi.CountKeeps | rtl/relu_axi.sv:257-279 | the counters follow the beats pending, less one already counted to the tile before |
| ReluAxi.FinishedTile | rtl/relu_axi.sv:272-277 | COUNT of every tile is its length, plus the beat it took, less the beat its predecessor took, modulo 2^16 |
| ReluRuns.EveryRun | rtl/relu_axi.sv:155-279 | every state of every run satisfies the invariant |
| ReluRuns.Refinement | rtl/relu_axi.sv:203-246 | beats leave in order, at most one behind, tlast in place: a value that is not negative as it is, a negative one as the greatest whole number not above its product with slope / 256, the slope being that of its own accept cycle (section 2.2 of the AMBA AXI4-Stream Protocol Specification, IHI 0051) |
| ReluRuns.Recorded | rtl/relu_axi.sv:224-246 | a beat is recorded as the signed byte it was, under the slope held in that cycle |
| ReluRuns.SlopeLaw | rtl/relu_axi.sv:199-199 | the slope moves only with a write to 0x0C that strobes the low byte, and to that byte |
| ReluRuns.NothingTaken | rtl/relu_axi.sv:212-213 | while EN is clear no beat is accepted, until a write sets it |
| ReluRuns.EnableLaw | rtl/relu_axi.sv:194-198 | EN moves only with a write to 0x04 that strobes the low byte, and to its bit 0 |
| ReluRuns.RegisterMap | rtl/relu_axi.sv:291-301 | what each offset reads, by number, and that all others read zero |
| ReluRuns.ResetMap | rtl/relu_axi.sv:116-117 | out of reset CTRL reads 1 and SLOPE 25 |
| ReluRuns.StalledBeat | rtl/relu_axi.sv:233-246 | a stalled output beat does not change |
| ReluRuns.CountIsLengthIff | rtl/relu_axi.sv:272-277 | COUNT is the tile's length modulo 2^16 iff both its ends overlapped a neighbour or neither did |
| ReluRuns.CountedIsSpanned | rtl/relu_axi.sv:272-277 | the sum of COUNTs is the sum of lengths plus the beat carried, modulo 2^16 |
| ReluRuns.EveryBeatIsCounted | rtl/relu_axi.sv:264-277 | COUNTs so far plus the running counter account for every beat accepted, modulo 2^16 |
| ReluRuns.LengthsCover | rtl/relu_axi.sv:230-231 | the lengths a stream spells out, with its unfinished part, are the whole stream |
| ReluRuns.StatusIff | rtl/relu_axi.sv:248-279 | over every run, BUSY is up iff a beat inside is in no COUNT yet and DONE iff a tile has left and BUSY is down; so each means what the register map says iff no beat is miscredited |
| ReluRuns.DoneIsMineIff | rtl/relu_axi.sv:264-277 | a DONE sample taken on an accelerator that was empty is the new tile's iff a beat has been accepted since, and then COUNT is the number of those beats |
| ReluRuns.PollAnswer | rtl/relu_axi.sv:264-277 | COUNT goes on reading so until a second tile has left; and is the tile's length iff none of those beats is still inside |
| ReluRuns.StaleDone | rtl/relu_axi.sv:264-270 | a run in which the sample is the previous tile's |
| ReluRuns.OverlapMiscounts | rtl/relu_axi.sv:272-277 | a run in which a one-beat tile reads COUNT 2 and BUSY 0 with the next tile's beat in flight |
| ReluUnit.UnitIsLeaky | rtl/relu_unit.sv:25-30 | at every positive width the bit-level unit is the golden model and fits its output |
| ReluUnit.LeakyShrinks | tb/model/relu_model.py:34-38 | a negative activation is drawn towards zero and never past it |
| ReluUnit.LeakyMonotone | tb/model/relu_model.py:34-38 | the activation preserves order |
| ReluUnit.LeakyScales | tb/model/relu_model.py:34-38 | the golden activation is the floor of the product over 2 to the slope's width |
| ReluUnit.ProductFits | rtl/relu_unit.sv:23-28 | the product of any operand and any slope fits its register with a bit to spare |
| ReluUnit.ProductWidth | rtl/relu_unit.sv:23-25 | DATA_W + SLOPE_W bits hold every product, and one fewer holds them all iff SLOPE_W is 1 |
| Overlay.NodeBody | flows/embedded/overlay.py:30-41 | the text between the mark's first brace and the one brace that closes it, and fails iff there is none |
| Overlay.ChildNodes | flows/embedded/overlay.py:44-61 | the loop over lines computes the blocks of the depth scan |
| Overlay.SplitNode | flows/embedded/overlay.py:64-67 | an error iff a brace is missing, else the blocks of the body, and the body with each of them taken out |
| Overlay.Extract | flows/embedded/overlay.py:218-218 | from any text holding a printed container, exactly its printed children, in order |
| Overlay.Reextract | flows/embedded/overlay.py:254-256 | writing the nodes out and extracting again changes nothing |
| Overlay.ScanInside | flows/embedded/overlay.py:57-58 | inside a block a printed forest is buffered whole and leaves the depth where it was |
| Overlay.ScanOutside | flows/embedded/overlay.py:52-60 | outside, one block per node, in order, properties dropped |
| Overlay.ChildrenOfPrinted | flows/embedded/overlay.py:44-61 | scanning a printed body gives back its printed children |
| Overlay.ChildrenOfNode | flows/embedded/overlay.py:64-67 | splitting a printed node at any depth gives back its own printed children |
| Overlay.PartsOfNode | flows/embedded/overlay.py:64-71 | and exactly its own lines, when each sub-node's text stands only where sub-nodes with that text do |
| Overlay.OwnOfPrinted | flows/embedded/overlay.py:68-70 | taking out such texts, equal ones among them, leaves the property lines and an empty line for each node |
| Overlay.LeftBehind | flows/embedded/overlay.py:69-70 | two sub-nodes whose texts do not, and the piece of one that is left among the node's own lines |
| Overlay.RightByChance | flows/embedded/overlay.py:69-70 | three sub-nodes that do not stand apart and yet leave exactly the own lines |
| Overlay.EnclosesOnce | flows/embedded/overlay.py:34-41 | a brace is closed in one place only |
| Overlay.PrintedCovered | flows/embedded/overlay.py:44-50 | a printed forest closes exactly what it opens, and never more |
| Overlay.SplitText | flows/embedded/overlay.py:52-52 | splitting gives back the lines that were printed |
| Overlay.LineEnds | flows/embedded/overlay.py:52-52 | a line ends at any line end, and at a carriage return and line feed together |
| Overlay.OpenEnds | flows/embedded/overlay.py:54-54 | the opening test passes on a line with one brace, the last thing on it but blanks |
| Overlay.EndsOpenIff | flows/embedded/overlay.py:54-54 | and on any line iff what is last on it but blanks is an opening brace |
| Strings.EraseClear | flows/embedded/overlay.py:70-70 | text in which no occurrence begins stays as it is |
| Overlay.EraseStands | flows/embedded/overlay.py:70-70 | taking out a text that stands only as sub-nodes takes out those sub-nodes, all of them, and nothing else |
| Overlay.NetCounts | flows/embedded/overlay.py:58-58 | the depth change is openings less closings |
| Interrupts.ChunksPartition | flows/embedded/overlay.py:104-105 | equal slices: as many as fit, each whole, every cell in its place |
| Interrupts.SpecsPartition | flows/embedded/overlay.py:91-105 | one specifier per name, of equal width, together all the cells that the search finds, in order |
| Interrupts.ShareOf | flows/embedded/overlay.py:101-105 | the n-th specifier is the n-th share of those cells |
| Interrupts.BracketsDoNotMatter | flows/embedded/overlay.py:94-105 | two property values with the same cells, however each is bracketed, spaced and broken over lines, give the same specifiers |
| Interrupts.GroupsDoNotMatter | flows/embedded/overlay.py:94-101 | a group for each interrupt and one group for all of them read as the same cells and give the same specifiers |
| Strings.LayoutReads | flows/embedded/overlay.py:101-101 | whatever brackets, commas and blanks stand between them, the cells read back are those written |
| Strings.LayingIs | flows/embedded/overlay.py:101-101 | and every value is some such layout |
| Strings.GroupsRead | flows/embedded/overlay.py:101-101 | cells in any number of bracketed groups read back as the cells alone |
| Strings.BracketIs | flows/embedded/overlay.py:141-141 | a specifier is written as one group, its cells a space apart |
| Strings.NamesRead | flows/embedded/overlay.py:119-119 | a printed list of quoted names reads back as the names |
| Interrupts.ByNamePicks | flows/embedded/overlay.py:120-120 | the k-th name stands for the k-th specifier, unless it comes again later |
| Interrupts.AlignChannelInterrupts | flows/embedded/overlay.py:117-146 | an error for want of cells iff there are names and no cells; otherwise the exact result: every child as it must come out, or which interrupt is missing and for which child |
| Interrupts.NameWithoutCells | flows/embedded/overlay.py:101-105 | a node with a named interrupt and no interrupts property is such a node |
| Interrupts.ChannelsAligned | flows/embedded/overlay.py:108-116 | a channel quoting "xlnx,axi-dma-mm2s-channel" takes the share of the IP node's own cells at "mm2s_introut", one quoting "xlnx,axi-dma-s2mm-channel" the share at "s2mm_introut", as one group in its own interrupts property, where nothing passes for a property read or written |
| Interrupts.Directions | flows/embedded/overlay.py:85-88 | which interrupt each kind of channel takes, by name |
| GeneratedTree.ChannelsRight | tests/test-overlay.sh:46-58 | on the generated DMA node, bracketed either way, the mm2s channel ends with <0 89 4>, the s2mm channel with <0 90 4>, and nothing else changes |
| Interrupts.RightPropertyIff | flows/embedded/overlay.py:139-144 | the interrupts property ends as the specifier iff nothing before it passes for it or it was so already |
| Interrupts.ReadsOwnIff | flows/embedded/overlay.py:74-76 | a value is read from the property of that very name iff nothing before it passes for it, or what does has its value |
| Interrupts.StopsRightIff | flows/embedded/overlay.py:74-76 | the search stops at the property of that very name iff nothing before it passes for it |
| Interrupts.Lookalikes | flows/embedded/overlay.py:75-75 | num-interrupts and xlnx,interrupts pass for interrupts |
| Interrupts.NotLookalike | flows/embedded/overlay.py:75-75 | a name with part of a word before interrupts, or anything after it, does not pass |
| Interrupts.WordChars | flows/embedded/overlay.py:75-75 | letters, digits and the underscore make up words; other characters of property names do not |
| Interrupts.MisledNode | flows/embedded/overlay.py:101-120 | an IP node whose channel is given another property's cell |
| Interrupts.Misled | flows/embedded/overlay.py:139-144 | a child whose own interrupts are left as they were |
| Interrupts.Rewritten | flows/embedded/overlay.py:139-144 | one value changes and everything else stays, names included, and doing it again changes nothing |
| Interrupts.StaysChannel | flows/embedded/overlay.py:125-131 | an aligned channel is still the channel it was |
| Interrupts.AlignedTwice | flows/embedded/overlay.py:124-145 | aligning a child twice is aligning it once |
| Interrupts.AlignTwice | flows/embedded/overlay.py:117-146 | so is aligning a node |
| DmaLink.LinkedIff | flows/embedded/overlay.py:160-209 | succeeds iff no node is a DMA or a client, or just one is a DMA, with a label and a channel, and just one a client |
| DmaLink.UnconnectedStays | flows/embedded/overlay.py:171-172 | with nothing to connect the nodes are left as they are |
| DmaLink.LinkedClient | flows/embedded/overlay.py:179-209 | otherwise the client alone changes |
| DmaLink.AsksIff | flows/embedded/overlay.py:156-192 | tx is asked for iff a sub-node quotes "xlnx,axi-dma-mm2s-channel" and rx iff one quotes "xlnx,axi-dma-s2mm-channel", tx first |
| DmaLink.LinkedReads | flows/embedded/overlay.py:196-208 | a linked client has two properties before its own: the names read back as those channels in order, and the k-th two cells of dmas are the reference to the DMA and 0 where the k-th name is tx, 1 where it is rx |
| DmaLink.DmasRead | flows/embedded/overlay.py:200-205 | the cells of the written dmas text |
| GeneratedTree.ConnectedRight | tests/test-overlay.sh:160-165 | on the generated nodes the client gains dmas = <&axi_dma_0 0>, <&axi_dma_0 1> and dma-names = "tx", "rx", and nothing else changes |

## Left out

- Testbenches, runners and the random generators of tb/: simulation drivers.
- Probe, resource cleanup, device registration and the ID check of driver/accel_transport.c: kernel plumbing settled by reading one branch each.
- `slope_show`, driver/relu.c:134-140: a single register read.
- AccelDriver.AccelDevice.constructor: an accelerator in whose record two relu tiles overlapped, which no driver of this kind brings about, is not one that may be claimed.
- AccelDriver.AccelDevice.WriteReg: the write is taken to have landed before the call returns, where `writel` only posts it.
- AccelDriver.AccelDevice.Wait: a DMA channel moves at most one beat per cycle, completes no earlier than its last beat, and moves nothing once terminated; bursts, descriptor rings and bus errors are not modelled. Time-outs are free choices of the environment, not clocks.
- AccelDriver.AccelDevice.PollDone: the number of polls before the time is up is a free choice.
- AccelDriver.Session: calls on one device run one after another, as the transport's lock makes them; the one path that could reach the registers beside a tile, a slope store, contends in the cycles the driver waits out and is held off by the lock; in the cycles of the driver's own accesses it is taken to wait.
- AccelDriver.AccelDevice.SlopeStore: `kstrtou32` is a parameter giving a number or one of its two errors.
- AccelDriver.AccelDevice.Queue: `dma_submit_error` codes are one error value.
- Interrupts.AlignChannelInterrupts: works on nodes already parsed, each property's value being the text after its equals sign; the code searches and replaces in the whole text of a node, so it could also find a name inside another property's value or in a node nested in a channel.
- Overlay.Extract: promises the round trip for text printed the way the generator prints it (one property per line, each node opened and closed by lines of its own, no braces in property text), as the extractor's own documentation requires.
- Overlay.PartsOfNode: its condition is not necessary: what remains of a damaged sub-node may happen to be a later one's text, as Overlay.RightByChance shows, so whether the text comes out right also depends on what each removal leaves behind.
- DmaLink.LinkedIff: looks properties up among a node's own, where the code searches its whole text, sub-nodes included; its label is a field rather than matched from its text; and the indentation of the two new properties is not modelled.
- The renaming of the interrupt parent and the check for unresolved labels, flows/embedded/overlay.py:228-246: one substitution and one set difference over text, on which nothing else in the model depends.
- Reading the generated tree and writing the overlay file: input and output.
- Elaboration-time width checks and unmapped offsets beyond their zero reading; timing closure, resource counts and unknown values: the model starts from reset with two-valued signals.
- Shell, Tcl, container and board-provisioning scripts, and flows/embedded/boot.py: orchestration of tools that are not visible here.
