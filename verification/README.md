# Akvarium, verified

A Dafny model of Akvarium's message bus and the proofs of what it is for. Akvarium connects processes on
one machine into a ring of named pipes, over which they broadcast messages cut into frames, and gives them
blocks in shared memory. The model covers, in the order of the modules:

* **The frame protocol** (`Sequences`, `Arithmetic`, `Wire`, `Codec`, `Sheets`, `Layout`, `Loss`, `Counting`, `Protocol`, `Buffer`,
  `Transport`).
  `AkvaWriter` packs messages of any length into frames of fixed capacity, each with a 10-bit counter, a
  6-bit origin and a pointer word; `AkvaReader` puts them together again and notices lost frames. `Codec`
  says what both compute, `Transport` has them as classes that change buffers in place, and the other
  modules prove the theorems: over messages of all 16-bit lengths the round trip holds exactly for the runs
  in which every length is from 1 to 65532 and no message is written when one word is free; under loss,
  every message all of whose frames arrive comes out, and layout and delivery tell what else does; the
  reassembly buffer suffices exactly if no message is longer.
* **The ring** (`Ring`, `Demux`, `Broadcast`, `Lines`, `Traffic`, `EndToEnd`, `Links`). Every process picks its neighbours from
  the table of occupied slots; a tube forwards foreign frames and feeds one reader per origin; a pipe
  queues frames and writes one at a time. The neighbours form one cycle, every process handles each
  origin's frames in order and once, and a frame does not travel for ever (`Broadcast`, with a channel per
  link). `Traffic` takes the channels apart into what waits, is in flight and is on the wire, refines
  `Broadcast`, and says exactly which frames can get on before the next `Play`. End to end, every process
  puts together a prefix of what each origin writes, and all of it once the ring is drained.
* **The scheduler** (`Scheduler`, `Queue`, `Driver`). Tasks form a list that every worker walks. `Scheduler`
  is the state machine with its invariant, `Driver` the object whose methods perform its steps, and
  `Queue` the intrusive ring of workers that a task holds, with its pointers.
* **The skip list and the block allocator** (`Levels`, `SkipList`, `Markers`, `Space`, `EasySpace`). `SkipList`
  is `CoreSpace` on heap nodes that are reused with stale links above their height; every operation is
  proved against the finite map from keys to nodes, for any heights drawn. `Space` is the allocator as a
  state machine, and `EasySpace` the class on top of the skip list that performs it.
* **The versioned shared slots** (`Registr`, `RegularRegistr`). Processes write, read and free blocks of each
  other's spaces in any interleaving; `Registr` proves when a slot can be handed out again and what a
  version says, and `RegularRegistr` is one process's object, on the same skip list.
* **Membership** (`Leader`, `RegLogs`, `Regedit`). Leader selection by process number, and the table of
  registers in a shared file that every process reads, merges and writes phase by phase.

State machines are written as functions from states to states with a predicate `Run` (the states that any
sequence of steps reaches); classes are proved against those functions, method by method. Random heights,
the worker drawn next, whether an action is finished, clocks and marks are parameters, so that the
theorems hold for every choice.

## Where the code does not do what one would expect

Each of these is a lemma with a concrete input, next to the exact condition or to the theorem that holds.

* A message written when exactly one word is free in the last frame is not read back: its header fills the
  frame, and the frame with its payload carries the pointer 0 (`Protocol.TightFails`, `Protocol.RoundTripIff`).
* A message of length 0 makes the reader drop what follows in the frame, in any state and any frame
  (`Protocol.ZeroStops`), and lengths above 65532 wrap to 0 bytes (`Wire.NormalizeKeeps`): neither is ever
  read back (`Protocol.RoundTripIff`).
* After a loss the reader may report a message that was never sent, under the last header it saw
  (`Protocol.StaleHeader`). It does exactly when the words kept and those of a broken continuation are as
  many as that header announces; both numbers follow from the layout and the delivery (`Loss.SpuriousIs`,
  `Protocol.Resync`).
* The reader copies without looking at the size of its buffer, 16384 bytes or 4096 words in a tube
  (src/akva/akva.hpp:59), while a message has up to 65532 bytes. The copies stay within the buffer exactly
  if no message sent is longer (`Buffer.WithinIff`).
* A frame that is passed on to a process whose pipe is idle waits until that process's next `Play`
  (`Traffic.Waits`, `Traffic.DeliverableIff`, `Traffic.PlayWakes`).
* `CoreSpace::Delete` takes out the first key from the one asked for on (`SkipList.DeletesKey`).
* `EasySpace::Free` ignores the version in a marker: giving a marker back twice takes the block from the
  next writer (`Space.FreedTwice`, `Space.FreeChanges`). `Allocator::Aquare` never reaches a successful
  `EasySpace::Read` (`Space.AquareNeverReads`).
* `RegularRegistr::Write` hands out a slot that a process whose space is not known still reads
  (`Registr.UnknownReader`), and with a marker of its own it does not set its own bit: the bit
  stays as it was, and the assertion behind it fails exactly if it was clear (`Registr.OwnBit`,
  `Registr.OwnBitClear`).
* One call of `Driver::Overwatch` need not find the greatest process number (`Leader.NotAtOnce`; when it does:
  `Leader.OnceIff`), and a magic
  replaced in its slot by the greatest register is kept for good (`Leader.ConvergesIff`).

## Model

| member | source | states |
|---|---|---|
| Wire.NormalizeKeeps | src/engine/protocol.hpp:130 | rounding up takes as few words as hold the bytes; in 16 bits it keeps the size exactly for lengths up to 65532, and gives 0 above |
| Transport.Block.Copy | src/engine/block.hpp:155-171 | words go behind the ones there exactly if there are some and they fit; otherwise nothing changes |
| Transport.Writer.NewFrame | src/engine/protocol.hpp:110-117 | a frame with the next counter, the origin and pointer 0 is queued |
| Transport.Writer.Begin | src/engine/protocol.hpp:109-128 | the body header goes to the last frame if a word is free there, otherwise to a new one |
| Transport.Writer.Turn | src/engine/protocol.hpp:132-164 | one turn of the payload loop, with the pointer patched in place, leaves the same result still to be computed |
| Transport.Writer.Write | src/engine/protocol.hpp:107-165 | the queue of frames and the counter become those of the specification, and no queued block is replaced |
| Transport.Reader.Complited | src/engine/protocol.cpp:19-22 | true exactly if the bytes put together are the rounded length of the last header |
| Transport.Reader.Head | src/engine/protocol.cpp:24-82 | counter, loss flag, header, buffer and window become those of the specification, in all four branches |
| Transport.Reader.Next | src/engine/protocol.cpp:84-108 | the next message of the frame is begun, or null at the end of the frame and on length 0 |
| Layout.RunLays | src/engine/protocol.hpp:107-165 | if no message is written with exactly one word free, with frames flushed at any points, the frames are the encoding of a chain of sheets that carries exactly the messages sent, in order |
| Layout.WriteLays | src/engine/protocol.hpp:107-165 | one more message extends the chain by its frames, unless one word is free |
| Sheets.ReceiveSheet | src/engine/protocol.cpp:24-108 | a frame read in any state does what its sheet says: the continuation first, then every message inside it, then the beginning of the next |
| Sheets.DrainStarts | src/engine/protocol.cpp:84-108 | reading on through a frame reports each whole message in it once, in order |
| Codec.DecodeConcat | src/engine/protocol.cpp:24-108 | a stream may be cut between frames anywhere: the reader's state carries over |
| Protocol.RoundTrip | src/engine/protocol.hpp:107-165 | reading the frames in order reports every message once, in order, with its spec, length and words |
| Protocol.RoundTripIff | src/engine/protocol.hpp:107-165 | for messages of all 16-bit lengths: the messages come back as they were sent if and only if every length is from 1 to 65532 and none is written when exactly one word is free |
| Protocol.RoomyIff | src/engine/protocol.hpp:133-157 | among messages of those lengths the round trip holds if and only if none is written when exactly one word is free |
| Protocol.DecodeReports | src/engine/protocol.cpp:19-108 | whatever frames with payload are read, in any state: every message reported has a positive length and the words that it rounds to |
| Protocol.ReportableIff | src/engine/protocol.cpp:19-22 | of the messages that can be written, exactly those of length 1 to 65532 can be reported as they are |
| Protocol.TightFails | src/engine/protocol.hpp:133-157 | a run with such a write is not read back, whatever follows |
| Counting.RunShaped | src/engine/protocol.hpp:107-165 | every frame of a run is stamped with its number and origin, and the words in the frames are those of the messages and the headers |
| Counting.DecodeWeight | src/engine/protocol.cpp:24-108 | of frames with consecutive numbers, read by a reader that has seen the one before: the words reported and the header held never exceed the words read, and what is held goes uncounted when the first frame continues nothing |
| Counting.TightWrite | src/engine/protocol.hpp:133-157 | a write with one word free leaves a frame with pointer 0 whose first payload word is payload of the message |
| Protocol.SentPrefix | src/akva/akva.cpp:265-271 | the frames flushed so far read back as a prefix of what is sent |
| Layout.FlushesSend | src/akva/akva.cpp:265-271 | each frame that leaves the writer is the first one left, and nothing is lost or changed on the way |
| Protocol.SentWhole | src/akva/akva.cpp:265-271 | when all frames have left the writer, what has left reads back as all that is sent |
| Protocol.ZeroStops | src/engine/protocol.cpp:64-78 | in any state of the reader and any words of a frame: the messages in front of a body header of length 0 come out, nothing behind it does |
| Protocol.Recovered | src/engine/protocol.cpp:24-82 | with fewer than 1023 frames lost in a row, a message all of whose frames arrive, or that lies inside a frame that arrives, even behind a broken continuation, is reported with its own words, whatever state the loss left the reader in |
| Protocol.Resync | src/engine/protocol.cpp:24-82 | what comes out of the frames that arrive is, frame by frame, at most one spurious report and then exactly the messages that the frame finishes; nothing spurious comes out if and only if for no broken continuation the words kept and brought, counted from the layout and the delivery, are as many as the last header announces |
| Loss.ArrivalReports | src/engine/protocol.cpp:24-108 | the same for one arrival, in any state a delivery can lead to |
| Loss.ReportsExact | src/engine/protocol.cpp:30-57 | the reports are the expected ones if and only if that condition holds for every arrival; otherwise there are more of them |
| Loss.StateIs | src/engine/protocol.cpp:24-82 | in every state of a delivery: how many words the reader holds and which header it remembers, from the layout and the delivery alone |
| Loss.SpuriousIs | src/engine/protocol.cpp:19-57 | the reader takes a broken continuation for the end of a message exactly if those two numbers agree |
| Loss.TracksAt | src/engine/protocol.cpp:30-39 | in every state of a delivery the buffer holds the last words sent of the open message, and all of them under its own header if its frames arrived without a gap |
| Buffer.ArrivalPeak | src/engine/protocol.cpp:41-108 | the most words the buffer holds at any point while a frame is read, in any state a delivery can lead to, from the layout and the delivery |
| Buffer.BufferBounded | src/engine/protocol.cpp:41-108 | however frames are lost, no frame needs more than the longest message of the chain |
| Buffer.LossyWithin | src/engine/protocol.cpp:41-108 | however frames of a run are lost, the reader never copies beyond the length of the longest message sent, wherever in a frame it is |
| Buffer.WithinIff | src/engine/protocol.cpp:41-108 | when all frames arrive the reader stays within a buffer of a given size if and only if no message sent is longer |
| Protocol.StaleHeader | src/engine/protocol.cpp:32-59 | a delivery after which a message that was never sent is reported |
| Ring.Neighbours | src/akva/manager.cpp:184-200 | the two search loops find the previous and the next occupied slot, which is the process's own if it is alone |
| Ring.PrevNext | src/akva/manager.cpp:188-200 | the previous neighbour of the next one is the process itself |
| Ring.NextPrev | src/akva/manager.cpp:188-200 | the next neighbour of the previous one is the process itself |
| Ring.SingleCycle | src/akva/manager.cpp:187-200 | going from neighbour to neighbour visits every occupied slot exactly once and is then back, from any slot |
| Demux.Demultiplex | src/akva/akva.cpp:384-403 | whatever the interleaving of the origins' frames, each origin is decoded as if it were alone |
| Links.Tube.HandleRead | src/akva/akva.cpp:376-408 | if the buffer holds what is copied: a foreign frame is forwarded once, an own one is not, and the reader of the frame's origin, and no other, reads it |
| Links.Tube.Play | src/akva/akva.cpp:390-403 | the loop over `Head` and `Next` collects exactly the messages completed by the frame, if the buffer holds what is copied |
| Links.Tube.Listen | src/akva/akva.cpp:333-408 | one read after the other: the foreign frames are forwarded in order, and the readers and what they put together are those of the demultiplexer |
| Links.Pipe.Direct | src/akva/akva.cpp:139-142 | the frame is queued last, and nothing else happens: no write is started |
| Links.Pipe.AsyncWrite | src/akva/akva.cpp:205-216 | the first waiting frame is in flight if no write was; at most one write is in flight, and the frames on the wire, in flight and waiting stay in order |
| Links.Pipe.HandleWrite | src/akva/akva.cpp:244-256 | the frame in flight is on the wire, and the next one starts if the pipe is connected |
| Links.Pipe.Flush | src/akva/akva.cpp:265-271 | all frames of the writer but the last are queued in order, and the last too if nothing else was waiting |
| Links.Pipe.Play | src/akva/akva.cpp:265-274 | frames are flushed if the process is connected, and in any case a write is started |
| Broadcast.RunConserves | src/akva/akva.cpp:376-388 | in every run, for every link and origin: the frames handled behind the link and those in its channel are together what the process in front has handled, or, at the origin, injected |
| Broadcast.InOrder | src/akva/akva.cpp:376-388 | every process handles of every origin's frames a prefix, in order and once, and all of them when the channels are empty |
| Broadcast.DeliverWorks | src/akva/akva.cpp:384-388 | every delivery does exactly one unit of the work left, measured by the distance of the frames to their origins: no frame travels for ever |
| Broadcast.WorkLeft | src/akva/akva.cpp:376-388 | work is left exactly while some channel holds a frame |
| Traffic.RunWhole | src/akva/akva.cpp:139-142 | every run with frames waiting, in flight and on the wire is a run with channels, so that all of the above holds of it |
| Traffic.DeliverableIff | src/akva/akva.cpp:205-256 | a frame held on a link can be handled by the neighbour without another `Play` if and only if it is on the wire, or a write is in flight on that link |
| Traffic.PlayWakes | src/akva/akva.cpp:258-275 | after a `Play`, with or without frames of its own, everything held on the link can be |
| Traffic.Waits | src/akva/akva.cpp:376-388 | on every ring of at least two processes a state can be reached in which a forwarded frame waits in an idle pipe and nothing can happen without another `Play` |
| Traffic.WorkLeft | src/akva/akva.cpp:205-256 | work is left exactly while some link holds a frame; something can happen without another `Play` if and only if a frame is on a wire or in flight |
| Traffic.QuietWorks | src/akva/akva.cpp:244-256 | every end of a write and every read lowers a number that only `Play` can raise |
| Traffic.QuietEnds | src/akva/akva.cpp:244-256 | without another `Play` the ring comes to rest after no more events than that number |
| EndToEnd.Delivered | src/akva/akva.cpp:376-408 | each process puts together a prefix of each origin's messages, and all of them once they are flushed and nothing waits, is in flight or on a wire |
| EndToEnd.BuffersSuffice | src/akva/akva.cpp:376-403 | if no message of an origin is longer than the buffers, no process copies beyond the buffer it keeps for that origin, in any run of the ring |
| EndToEnd.WriterInjects | src/engine/protocol.hpp:115-116 | every frame a writer produces carries its origin |
| Scheduler.DispatchInv | src/akva/driver.cpp:391-418 | the loop under the lock keeps the invariant; what it takes out is consecutive, finished by everybody and referenced by nobody; if tasks remain, somebody stands at the first |
| Scheduler.OnFinished | src/akva/driver.cpp:113-139 | a finished action is the next task in turn for its worker, once, and keeps the invariant |
| Scheduler.OnUnfinished | src/akva/driver.cpp:113-139 | an action that goes on leaves everybody in place |
| Scheduler.ReapInv | src/akva/driver.cpp:107-109 | an empty head task with a full count has been finished by every worker, and may go |
| Scheduler.RunInv | src/akva/driver.cpp:333-418 | in every run each worker is in exactly one queue, the one it believes to be in; counts equal the workers that have passed; markers are consecutive |
| Scheduler.ExactlyOnce | src/akva/driver.cpp:113-139 | in every run each worker has finished the tasks 1, 2, ..., k, each once and in order; k is what it carries, and no more than were posted |
| Scheduler.PostedIs | src/akva/driver.cpp:347-348 | in every run the number of the last task is the number of postings |
| Scheduler.PostedIn | src/akva/driver.cpp:347-348 | every task ever posted is in the list under its number, or every worker has finished it |
| Scheduler.AllFinished | src/akva/driver.cpp:391-418 | when the list is empty every worker has finished every task ever posted, each once and in order |
| Scheduler.SafeReclamation | src/akva/driver.cpp:407-414 | a task that is freed has been finished by every worker and is referenced by none |
| Scheduler.Progress | src/akva/driver.cpp:391-418 | no reachable state is stuck: after the loop somebody stands at the head; every finished action takes one off the pending actions; with none pending the list empties |
| Queue.Ring.Put | src/akva/driver.cpp:53-60 | the worker is linked in at the end of the ring |
| Queue.Ring.Pop | src/akva/driver.cpp:62-75 | the first worker leaves the ring; null exactly if it is empty |
| Queue.Ring.Del | src/akva/driver.cpp:77-97 | the worker, wherever it is in the ring, leaves it and the others keep their order |
| Queue.Ring.Count | src/akva/driver.cpp:99-101 | the length of the ring |
| Driver.Driver.constructor | src/akva/driver.cpp:265-280 | all workers start idle |
| Driver.Driver.Exec | src/akva/driver.cpp:333-355 | the number goes up by one, a task with it that nobody has finished is appended, and workers and idle queue stay |
| Driver.Driver.Drained | src/akva/driver.cpp:333-418 | with no task left every worker has finished all tasks that were ever appended |
| Driver.Driver.AssignHead | src/akva/driver.cpp:393-404 | the idle queue is gone through once: workers behind the head task go to it in order, the others stay in order |
| Driver.Driver.Dispatch | src/akva/driver.cpp:391-418 | the nested loops perform the dispatch step and return what is freed |
| Driver.Driver.On | src/akva/driver.cpp:113-139 | the worker performs its task and goes on to the next one or to the idle queue; unfinished, it stays; the others are untouched |
| Driver.Driver.Turn | src/akva/driver.cpp:391-454 | one turn with a worker drawn at random: what it does, that the head is manned, and by how much the pending actions fall |
| Driver.Driver.TurnAll | src/akva/driver.cpp:455-462 | one turn of the other build, all workers: if all actions are finished, something is taken off the pending actions or no task is left |
| Levels.NextInserted | src/engine/memory.hpp:144-147 | which link of which level changes when a node comes in, and where it leads |
| Levels.NextOfNew | src/engine/memory.hpp:144-147 | the new node takes over its predecessor's link at every level it reaches |
| SkipList.CoreSpace.Search | src/engine/memory.hpp:110-122 | the result is the first node from the key on, and the trace has the last node before the key at every level in use |
| SkipList.CoreSpace.Walk | src/engine/memory.hpp:114-118 | the walk along a level stops at the last node of that level before the key |
| SkipList.CoreSpace.Insert | src/engine/memory.hpp:124-151 | an absent key is put on the node given or on a new one, with the height drawn, a present key keeps its node; the rest of the map stays |
| SkipList.CoreSpace.Delete | src/engine/memory.hpp:153-175 | the first key from the one asked for on leaves the map, with its node returned if wanted; without one nothing changes |
| SkipList.CoreSpace.Contains | src/engine/memory.hpp:186-194 | the node of the key, null exactly if it is absent |
| SkipList.CoreSpace.Interval | src/engine/memory.hpp:177-184 | the node of the first key in the interval, null exactly if there is none |
| SkipList.CoreSpace.Move | src/engine/memory.hpp:196-205 | the node gets the new key, and the height drawn, exactly if that key is free; otherwise nothing changes |
| SkipList.CoreSpace.Lower | src/engine/memory.hpp:164-166 | the level is again the greatest height in the list |
| SkipList.BackTest | src/engine/memory.hpp:157-162 | the predecessor at a level leads to the node exactly if the node reaches the level, so the loop stops where it must |
| SkipList.HalfEnd | src/engine/memory.hpp:144-147 | when the levels a node reaches lead through it, the whole list with it is linked, whatever the node's links above its height hold |
| SkipList.MapInserted | src/engine/memory.hpp:124-151 | a node at its rank is one more entry of the map |
| SkipList.DeletesKey | src/engine/memory.hpp:153-175 | taking out the first key from `key` on is taking out `key` if and only if `key` is there |
| Markers.UnpackPack | src/engine/allocator.hpp:39-60 | version, position and holder come back from a marker |
| Markers.PackOrder | src/engine/allocator.hpp:39 | a later version has the greater marker |
| Space.WriteInv | src/engine/memory.cpp:78-113 | every Write keeps each block either free, once, and held by nobody, or held |
| Space.FreeInv | src/engine/memory.cpp:134-150 | so does every Free, whatever the marker |
| Space.Accounted | src/engine/memory.cpp:32-150 | free blocks and held blocks add up to all blocks |
| Space.RunGood | src/engine/memory.cpp:78-150 | in every run the holders of a block are exactly those who were handed it and have not given it back |
| Space.WriteIsExclusive | src/engine/memory.cpp:78-113 | the markers of Writes never repeat; a Write hands out a block that nobody holds, or renews a current marker and keeps its holders |
| Space.ReadIsDistinct | src/engine/memory.cpp:115-132 | a Read of a current marker gives a number under which nobody holds the block |
| Space.FreedByLast | src/engine/memory.cpp:134-150 | a block returns to the free queue exactly when its last holder gives it back, and then behind all others |
| Space.FirstInFirstOut | src/engine/memory.cpp:97-144 | in every run a block freed behind k others is handed out by the fresh Write number k + 1 from then on, and by none before |
| Space.OneOwner | src/engine/memory.cpp:78-113 | two current markers never share a block |
| Space.AquareHandsOut | src/engine/allocator.hpp:122-126 | who asks with 0 or an owner's marker gets one exactly if his own is current, a block is free or another may be made; it is a current one of the next version, under number 0, for his own block or for one nobody holds |
| Space.AquareNeverReads | src/engine/allocator.hpp:122-132 | a marker that the allocator passes to Read is never current: nothing is handed out |
| Space.FreedTwice | src/engine/memory.cpp:134-150 | giving a marker back twice frees the next writer's block |
| Space.FreeChanges | src/engine/memory.cpp:134-150 | Free changes something if and only if somebody holds the block under the number in the marker |
| EasySpace.EasySpace.constructor | src/engine/memory.cpp:32-49 | all blocks are free, the last one first |
| EasySpace.EasySpace.Write | src/engine/memory.cpp:78-113 | performs the step of the state machine in all four branches, on nodes, queue and index; a fresh one takes the node at the front of the queue |
| EasySpace.EasySpace.Aquare | src/engine/allocator.hpp:122-132 | 0 and owners' markers are written and succeed as said; any other gets nothing |
| EasySpace.EasySpace.Read | src/engine/memory.cpp:115-132 | performs the step, given that a holder number is left |
| EasySpace.EasySpace.Pick | src/engine/memory.cpp:120-126 | the loop over holder numbers, 0 coming after 63, ends at the first free one |
| EasySpace.EasySpace.Free | src/engine/memory.cpp:134-150 | performs the step: the node goes to the end of the queue exactly when its last holder leaves; a position beyond the blocks is an error that changes nothing |
| EasySpace.EasySpace.Lookup | src/engine/memory.cpp:80 | the index finds exactly the current markers, and finds the right block |
| Registr.StepInv | src/engine/regular_registr.cpp:201-382 | every operation of every process keeps: array and index agree, announcements are nodes, no marker is newer than its block |
| Registr.RunInv | src/engine/regular_registr.cpp:201-382 | the same over all interleavings |
| Registr.UsableIff | src/engine/regular_registr.cpp:272-278 | what the scan looks at says exactly whether the slot is held by the process or by a process it knows |
| Registr.Reclaimed | src/engine/regular_registr.cpp:268-293 | a fresh Write never hands out a slot that the process or a process it knows still holds |
| Registr.FreshTakes | src/engine/regular_registr.cpp:279-290 | after a fresh Write the process holds the slot under the marker handed out and has announced it; nobody else's holdings change |
| Registr.ReadTakes | src/engine/regular_registr.cpp:323-346 | after a Read the process holds the slot under the later of the marker and its own key, which is what it is given, and has announced it; nobody else's holdings change |
| Registr.FreeGives | src/engine/regular_registr.cpp:361-382 | with its node's marker a process gives up the slot and withdraws the announcement; with any other nothing changes |
| Registr.FreedUsable | src/engine/regular_registr.cpp:272-278 | a slot given back can be handed out again if and only if no process its owner knows, itself included, still holds it |
| Registr.ScanFinds | src/engine/regular_registr.cpp:270-292 | the scan from `bias_` finds a slot if and only if some position is usable |
| Registr.OneTurn | src/engine/regular_registr.cpp:270-271 | the scan looks at no position twice |
| Registr.InTurn | src/engine/regular_registr.cpp:270-288 | the next fresh Write starts behind the slot handed out last, and hands out the next position if that is usable |
| Registr.NeverRepeats | src/engine/regular_registr.cpp:231-293 | every Write hands out the next version of one block, a marker never handed out before, and no other block changes |
| Registr.OkIff | src/engine/regular_registr.cpp:409-413 | `Ok` on a marker that was read is true if and only if no later version has been handed out |
| Registr.KeysRise | src/engine/regular_registr.cpp:239-254 | while a process has a node for a slot, the node's key never falls |
| Registr.UnknownReader | src/engine/regular_registr.cpp:397-407 | without knowing the reader's space a process hands a slot out again that is still read |
| Registr.OwnBit | src/engine/regular_registr.cpp:239-266 | in every run a Write with a marker of its own leaves the process's own bit as it was, and clear if it had no node for the slot: what the code asserts of the bit holds exactly if it was set |
| Registr.OwnBitClear | src/engine/regular_registr.cpp:256-266 | there are runs in which it is clear |
| RegularRegistr.RegularRegistr.WriteFresh | src/engine/regular_registr.cpp:268-293 | the scanning loop performs the fresh Write |
| RegularRegistr.RegularRegistr.WriteMarked | src/engine/regular_registr.cpp:238-267 | the three branches with a marker perform the marked Write |
| RegularRegistr.RegularRegistr.Read | src/engine/regular_registr.cpp:323-346 | a node is made or brought up to date, and the reading is announced |
| RegularRegistr.RegularRegistr.Free | src/engine/regular_registr.cpp:361-382 | the announcement is withdrawn and the node goes, exactly if the marker is that of a node |
| RegularRegistr.RegularRegistr.Ok | src/engine/regular_registr.cpp:392-417 | the loop over the spaces and the lookup decide as the specification says |
| RegularRegistr.RegularRegistr.Update | src/engine/regular_registr.cpp:201-212 | afterwards the spaces known are those known before and those given |
| RegularRegistr.RegularRegistr.Lookup | src/engine/regular_registr.cpp:239 | index and array agree on which node a marker has |
| Leader.Overwatch | src/akva/driver.cpp:469-491 | the loop computes the sweep: the last register above the leader's number wins; nobody guilty is chosen, nobody at all exactly if every ok register is guilty, and nobody with a smaller number than a leader that counts |
| Leader.ElectRises | src/akva/driver.cpp:472-488 | one call moves to a register above the leader's, or keeps the leader, and then none is above |
| Leader.ConvergesIff | src/akva/driver.cpp:469-491 | over an unchanging table, repeated calls come to the ok register, not guilty, with the greatest process number and stay, if and only if the leader remembered is not a stale magic in the greatest register's slot |
| Leader.Agreement | src/akva/driver.cpp:469-491 | processes with the same view that start without a leader or with a member agree |
| Leader.OnceIff | src/akva/driver.cpp:472-488 | one call finds the greatest if and only if no register behind it is above the leader's number, or, with none above, the leader is the greatest already |
| Leader.NotAtOnce | src/akva/driver.cpp:482-487 | a table on which one call does not |
| RegLogs.LoadIs | src/engine/regedit.cpp:265-282 | the table has the ok records of the file, each in its slot |
| RegLogs.UpdateIs | src/engine/regedit.cpp:306-311 | the view takes exactly the records with a newer log or a newer mark |
| RegLogs.SaveIs | src/engine/regedit.cpp:289-305 | of its slot a process writes the view's record if it is newer, however often it is committed, and nothing else |
| RegLogs.RunInv | src/engine/regedit.cpp:284-323 | over all interleavings of the phases: views and tables are not ahead of the file except for a process's own commits, and all records are ones that their process made |
| RegLogs.FileLogsRise | src/engine/regedit.cpp:289-305 | the logs in the file never fall, and only the slot of the process that moves changes |
| RegLogs.NewLogIsGreatest | src/engine/regedit.cpp:349-358 | a changed record gets a log above its own and above all in the table last read |
| RegLogs.OwnSees | src/engine/regedit.cpp:117-160 | in every run a process's own record is ok exactly if it has been made, and has an edge exactly if the last `AddEdge` or `DelEdge` of it since was an `AddEdge` |
| RegLogs.OwnNames | src/engine/regedit.cpp:117-126 | and it has the kind, magic and process number it was made with last |
| RegLogs.SameLogSameRecord | src/engine/regedit.cpp:284-323 | slot and log determine a record, but for the mark, wherever it is found |
| RegLogs.NoRollback | src/engine/regedit.cpp:216-221 | no step takes a record of any view back, although the test is for either the newer log or the newer mark |
| RegLogs.LoadingReads | src/engine/regedit.cpp:265-282 | in every run the reading phase brings the ok records of the file into the table |
| RegLogs.SavingPublishes | src/engine/regedit.cpp:289-305 | after the saving phase the file has the process's own record as its view has it |
| RegLogs.MarkingMarks | src/engine/regedit.cpp:313-322 | the marking phase changes the mark of the own slot and nothing else |
| RegLogs.CatchesUp | src/engine/regedit.cpp:306-311 | after a merge the view has for every slot the record that was read, or the process's own newer one |
| Regedit.Regedit.W2 | src/engine/regedit.cpp:265-282 | the table becomes the one loaded from the file |
| Regedit.Regedit.ReCalcLog | src/engine/regedit.cpp:349-358 | one more than the log given and all logs in the table |
| Regedit.Regedit.AddNode | src/engine/regedit.cpp:117-126 | the record of the slot is made anew: kind, magic and process number those given, no edges, a new log; it is committed |
| Regedit.Regedit.AddEdge | src/engine/regedit.cpp:139-147 | an ok record has the old edges and the new one, and a new log, and is otherwise the same; the slot is committed |
| Regedit.Regedit.DelEdge | src/engine/regedit.cpp:149-160 | an ok record has the old edges without this one, and a new log, and is otherwise the same; the slot is committed |
| Regedit.Regedit.SaveCommits | src/engine/regedit.cpp:289-305 | the saving phase |
| Regedit.Regedit.UpdateView | src/engine/regedit.cpp:306-311 | the updating phase |
| Regedit.Regedit.Merge | src/engine/regedit.cpp:284-323 | the four phases in a row |

## Left out

- Transport.Writer.Write: data are whole words (`Frame::ceil4`, src/engine/frame.cpp:163, rounds up); bytes past the end of a message whose length is not a multiple of 4 are padding.
- Transport.Reader.Head: requires a body header behind a header word with pointer 0 (the code reads past the frame; no writer makes such a frame, `Protocol.ExecWide`), and a buffer that holds what is copied. The code checks neither; what it does to memory outside the buffer is not modelled, but `Buffer.WithinIff` and `EndToEnd.BuffersSuffice` say exactly when that does not arise. The 16-bit count of bytes is a count of words, which stays below its wrap in such a buffer.
- Transport.Reader.Next: requires a buffer that holds what is copied, as `Head` does.
- Protocol.RoundTrip: messages have a length from 1 to 65532; `Protocol.RoundTripIff` is over all lengths.
- Links.Tube.HandleRead: requires a buffer that holds what is copied (`Buffer.WithinIff`); the filter `g->ok()` and the division of the length by 4 before a message is passed on, and the `length % 4` test of the wrapper `Head`, are not modelled.
- Links.Tube.Play: requires a buffer that holds what is copied.
- Links.Pipe.HandleWrite: writes succeed; on failure the code clears the flag twice.
- Broadcast.InOrder: the ring is stable and channels do not lose frames.
- Traffic.DeliverableIff: `Play` may flush any frames of its own, of which those that `Links.Pipe.Flush` chooses are some; when the scheduler calls `Play` is not modelled.
- Driver.Driver.On: tasks and workers are values in sequences, a task is addressed by its marker and a worker by its number; the relinking of the intrusive task list is not modelled (that of the worker rings is, in Queue).
- EasySpace.EasySpace.Write: the queue of free blocks is a sequence of nodes, not the circular list through them; versions stay below 2^42; the block's bytes are not modelled.
- EasySpace.EasySpace.Read: requires that one of the 64 holder numbers is free; the loop in the code has no end when none is.
- Registr.Reclaimed: for a Write without a marker; a Write with a stale marker of its own takes its slot back without looking at who reads it, as the code does.
- RegularRegistr.RegularRegistr.WriteFresh: requires a usable position; the fallback that overwrites a block in use (src/engine/regular_registr.cpp:295-312) and the recency list that serves it are not modelled.
- Regedit.Regedit.AddEdge: one process per slot, no `DelNode`; in RegLogs a process does not change its slot in the middle of its own merge.
- Windows pipes, overlapped and asynchronous input and output, shared-memory mapping, heaps and file locks.
- Interleavings finer than a step (spin locks, memory orders, reading `job_->next_` outside the lock).
- Joining and leaving workers at run time, `Driver::Detach`, and restarts of a process in a slot still in use.
- Frame, burst and frame stack, message unpacking and views (src/engine/frame.hpp, src/engine/view.cpp).
- How `Manager::Loop` fills the table of neighbours and the set of guilty ones (src/akva/manager.cpp:158-182), and the contexts held in `holds_` (src/akva/akva.cpp:29-67).
- Logger, console, notifications, statistics and the command line.
- src/engine/ring_buffer.hpp and src/engine/bit_utils.hpp.
