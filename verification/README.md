# RT2870 station driver: a Dafny model

The project models the core of the RT2870 USB 802.11n station driver, version 1.4.0.0, and states
what its code guarantees. Each part has a specification on values, laws about it, and, where the
driver updates state in place, classes and methods with the driver's own fields and loops proved
equal to the specification.

| part | files |
|---|---|
| Block-ack reorder buffer | `SeqNum`, `Reorder`, `ReorderRefinement`, `ReorderSteps`, `ReorderOrder`, `ReorderStrict`, `ReorderPermutation`, `ReorderConservation`, `ReorderDrops`, `ReorderTheorems`, `BaReceiver` |
| USB data transmit ring | `TxRing`, `TxChain`, `TxRingInv`, `TxRingBulk`, `TxRingTheorems`, `TxWire`, `TxContext` |
| Block-ack session tables | `BaTables`, `BaSessions` |
| Management transmit ring | `MgmtRing` |
| Receive ring and record parsing | `RxRing` |
| MAC address table | `MacTable` |
| AES-128, two implementations | `AesTables`, `Aes`, `AesTtable`, `BlockCipher`, `AesInjective` |
| MD5 and SHA-1 streaming | `HashStream` |
| AES key wrap | `KeyWrap` |
| WEP | `FcsTable`, `Wep` |
| CCMP decryption | `Ccmp`, `CcmpFields`, `CcmpQos` |
| Shared lemmas | `Modular`, `Sequences`, `Options` |

`dafny verify dfyconfig.toml` checks everything.

## What the code does not meet

The model keeps these as they are in the code; the members named give the exact condition.

- Transmit ring: if the write cursor wraps before the first bulk transfer was started, the ring looks
  full to writers and empty to bulk-out, for good (`TxRingTheorems.DeadlockIff`,
  `TxRingTheorems.FillsUntilStuck`).
- Management ring: the tests for a free cell and for a waiting cell are made outside the locks and not
  repeated inside. Overtaken callers submit a packet twice or wrap the free count
  (`MgmtRingSpec.StepKeeps`, `MgmtRingSpec.SubmittedTwice`, `MgmtRingSpec.CountWraps`).
- Reorder buffer: a BAR whose starting frame is queued, and a queued number that is indicated at once
  when it arrives, let a number be delivered twice; a frame indicated for lack of a block leaves a queued
  successor behind; in the reset state half of all BARs are ignored (`ReorderStrict.RunStrict`,
  `ReorderStrict.RepeatBreaks`, `ReorderInt.EnqueueKeepsGapIff`, `ReorderTheorems.BarInResetState`).
- MAC table: a look-up stops at a direct-link entry whatever its address (`MacTableSpec.WalkIsScan`,
  `MacTable.PeerShadows`). The default build has no direct-link entries.
- Hash updates: with a partly filled block, a length within 63 of 2^32 wraps the buffering guard
  (`HashSpec.GuardWraps`); the methods require that it does not.
- CCMP: the QoS control field is not counted in the header, and in-place decryption overwrites the
  byte the priority is read from (`Ccmp.DecryptPayload`). A QoS frame with a message of 32 bytes or more
  is opened as RFC 3610 prescribes exactly if the priority in the frame and the low nibble of the first
  plaintext byte are zero (`CcmpQos.DecryptedIff`). A caller can check the first before the call, and
  `CcmpQos.QosFrameFails` needs no more; the second shows only in the plaintext. For shorter messages
  the condition suffices (`Ccmp.OpensAsCcm`) and is not necessary (`CcmpQos.EmptyMayAgree`).
- Key unwrap: A is never compared with its initial value, and the last 8 bytes stored are whatever the
  work buffer held (`KeyWrap.Unwrap`, `KeyWrapSpec.WrapImage`).

## Reading the model

- Steps are the driver's critical sections and the unlocked tests before them; runs are arbitrary
  sequences of steps. The transmit writer's unlocked copy is one step per byte.
- The clock is an unbounded monotone integer in ticks of 10 ms (HZ = 100).
- Sequence numbers, byte-sized fields and 32-bit counters are truncated where the code truncates them.
- Pointers into fixed tables are indices; `-1` or `0` stands for NULL where the code uses that.
- Reorder runs over integers stand for the 12-bit ones as long as the numbers an event compares are less
  than 2048 apart. A run is called legal if, besides, a frame that finds no free block never has its
  successor queued; only the gap in the queue and the order law with hit marks need that.
- The idle timer of a recipient session is never armed: the call that would do so is compiled out
  (`common/ba_action.c:700-702`). Its event is modelled; no failing run uses it.
- The length and counter fields of CCM are two bytes and taken modulo 2^16, as in the code. RFC 3610 has
  no messages of 2^16 bytes or more; received frames stay below 4096.
- Transmit frames have a 16-byte TXWI, and their record with the 8 bytes before and after it fits
  LOCAL_TXBUF_SIZE.
- Multi-byte fields are little-endian, as in the default build.

## Model

| member | source | states |
|---|---|---|
| `SeqNum.SmallerIsLess` | 2008_0925_RT2870_Linux_STA_v1.4.0.0/include/mlme.h:1029 | The modular comparison of two 12-bit numbers is `<` on the true numbers, both ways, when these are less than 2048 apart. |
| `SeqNum.StepOneIsSuccessor` | 2008_0925_RT2870_Linux_STA_v1.4.0.0/include/mlme.h:1028 | The modular successor test is `a == b + 1` on the true numbers, both ways, up to 2048 apart. |
| `SeqNum.WrapInjective` | 2008_0925_RT2870_Linux_STA_v1.4.0.0/include/rtmp.h:285 | Equal 12-bit numbers mean equal true numbers within half the number space. |
| `SeqNum.SmallerThanReset` | 2008_0925_RT2870_Linux_STA_v1.4.0.0/common/ba_action.c:44 | Compared with the reset value 0xffff, exactly the numbers below 2048 count as later. |
| `ReorderRefinement.RunRefines` | 2008_0925_RT2870_Linux_STA_v1.4.0.0/common/ba_action.c:1636-1795 | Every run of arrivals, oversized frames, BARs, flushes and idle timeouts on 12-bit numbers gives the deliveries, drops, queue, free list and cursor of the same run over unbounded integers, reduced modulo 4096, as long as the numbers an event compares are less than 2048 apart; with free blocks or without. |
| `ReorderRefinement.StepRefines` | 2008_0925_RT2870_Linux_STA_v1.4.0.0/common/ba_action.c:1348-1412 | The same for one event of any kind, from any state with an ascending queue that ends within the window. |
| `ReorderInt.LooseStep` | 2008_0925_RT2870_Linux_STA_v1.4.0.0/common/ba_action.c:1636-1795 | Every event, whatever its number and however many blocks are free, keeps the queue ascending and within the window. |
| `ReorderRefinement.CasesAgree` | 2008_0925_RT2870_Linux_STA_v1.4.0.0/common/ba_action.c:1708-1793 | The five cases of an arrival are told apart by the 12-bit tests exactly as by the integer comparisons with the last number and the window. |
| `ReorderRefinement.ScanNarrow` | 2008_0925_RT2870_Linux_STA_v1.4.0.0/common/ba_action.c:146-173 | The sorted insertion's scan finds a duplicate exactly when the true number is queued, and otherwise the position of the integer order. |
| `ReorderRefinement.InOrderCountNarrow` | 2008_0925_RT2870_Linux_STA_v1.4.0.0/common/ba_action.c:337-369 | The in-order drain stops exactly where consecutive true numbers stop. |
| `ReorderRefinement.LeCountNarrow` | 2008_0925_RT2870_Linux_STA_v1.4.0.0/common/ba_action.c:371-397 | The drain up to a number takes exactly the frames at or below it. |
| `ReorderRefinement.FlushNarrow` | 2008_0925_RT2870_Linux_STA_v1.4.0.0/common/ba_action.c:426-469 | The two-stage timeout flush agrees with its integer form. |
| `ReorderRefinement.BarNarrow` | 2008_0925_RT2870_Linux_STA_v1.4.0.0/common/ba_action.c:1402-1407 | A BAR moves the window as on the integers, also when its start is 0. |
| `ReorderRefinement.SlideNarrow` | 2008_0925_RT2870_Linux_STA_v1.4.0.0/common/ba_action.c:1763-1793 | A frame beyond the window slides it as on the integers, through the wrap-around of the new window start. |
| `ReorderInt.StepKeeps` | 2008_0925_RT2870_Linux_STA_v1.4.0.0/common/ba_action.c:1636-1795 | Queue invariant: reset state means an empty queue; otherwise queued numbers are strictly ascending at distances 2 to BAWinSize past the last indicated one. |
| `ReorderInt.EnqueueKeepsGapIff` | 2008_0925_RT2870_Linux_STA_v1.4.0.0/common/ba_action.c:1553-1615 | Storing a frame keeps the gap invariant if and only if a block is free or its successor is not queued: without a block the frame is indicated and its successor is left in the queue. |
| `ReorderSteps.ArrivalLaw` | 2008_0925_RT2870_Linux_STA_v1.4.0.0/common/ba_action.c:1708-1793 | A new frame past the last number, with a block to spare unless it is next: the window moves up just so far that the frame fits, then past every number that is there; the queued frames and the new one, in order, are exactly those delivered (at or below the new last number) followed by those still queued. |
| `ReorderSteps.NoBlockLaw` | 2008_0925_RT2870_Linux_STA_v1.4.0.0/common/ba_action.c:1593-1615 | Without a block the frame is delivered after exactly the queued frames at or below it, and is the new last number. |
| `ReorderSteps.RequestLaw` | 2008_0925_RT2870_Linux_STA_v1.4.0.0/common/ba_action.c:1402-1407 | A BAR past the last number delivers exactly the queued frames at or below its start, which is awaited next; any other changes nothing. |
| `ReorderSteps.GiveUpLaw` | 2008_0925_RT2870_Linux_STA_v1.4.0.0/common/ba_action.c:449-469 | A first timeout gives up one number and delivers exactly the consecutive ones that follow it. |
| `ReorderOrder.RunOrdered` | 2008_0925_RT2870_Linux_STA_v1.4.0.0/common/ba_action.c:337-469 | Between resets, over every legal run, the delivered numbers never go back, and repeat only across a hit mark. |
| `ReorderStrict.StepHits` | 2008_0925_RT2870_Linux_STA_v1.4.0.0/common/ba_action.c:1593-1615 | A hit mark is left by exactly these events: an honoured BAR that starts at a queued number, and a frame to be stored that is queued already when no block is free. |
| `ReorderStrict.RunStrict` | 2008_0925_RT2870_Linux_STA_v1.4.0.0/common/ba_action.c:1636-1795 | Over every run, legal or not, in which no honoured BAR starts at a queued number and no queued number arrives that is indicated at once (being next, or finding no block), the delivered numbers strictly increase between resets. |
| `ReorderStrict.RepeatBreaks` | 2008_0925_RT2870_Linux_STA_v1.4.0.0/common/ba_action.c:1593-1615 | The converse: from any such state the event that was excluded leads, with at most one arrival or timeout flush more, to a log that is not strictly increasing; the numbers compared are near. |
| `ReorderTheorems.DriverRunOrdered` | 2008_0925_RT2870_Linux_STA_v1.4.0.0/common/ba_action.c:1708-1793 | From a new session, a legal 12-bit run of the driver is the integer run, which keeps the queue invariant and the delivery order, strictly without the events above. |
| `ReorderTheorems.DriverStrict` | 2008_0925_RT2870_Linux_STA_v1.4.0.0/common/ba_action.c:1708-1793 | From a new session, the driver's 12-bit run delivers strictly increasing numbers between resets whenever the numbers compared are less than 2048 apart and none of the events above occurs. |
| `ReorderTheorems.DriverRepeats` | 2008_0925_RT2870_Linux_STA_v1.4.0.0/common/ba_action.c:1708-1793 | The converse of the 12-bit run: with one of the events above it goes on to a log that is not strictly increasing. |
| `ReorderTheorems.PoolSuffices` | 2008_0925_RT2870_Linux_STA_v1.4.0.0/common/ba_action.c:264-324 | With at least BAWinSize blocks and no BARs a run of near arrivals is legal, and none of the events above can occur. |
| `ReorderTheorems.PoolStrict` | 2008_0925_RT2870_Linux_STA_v1.4.0.0/common/ba_action.c:1708-1793 | So a session with BAWinSize blocks and no BARs delivers strictly increasing numbers between resets. |
| `ReorderTheorems.BarRedelivers` | 2008_0925_RT2870_Linux_STA_v1.4.0.0/common/ba_action.c:1402-1407 | In any state, a BAR whose start is queued makes the 12-bit code deliver that number, and deliver it again when it arrives. |
| `ReorderTheorems.BarRunFails` | 2008_0925_RT2870_Linux_STA_v1.4.0.0/common/ba_action.c:1402-1407 | A concrete run of a new session that delivers 0, 2 and 2. |
| `ReorderTheorems.NoBlockRedelivers` | 2008_0925_RT2870_Linux_STA_v1.4.0.0/common/ba_action.c:1593-1615 | In any state without a free block, a duplicate of a queued frame makes the 12-bit code deliver its number twice. |
| `ReorderTheorems.NoBlockRunFails` | 2008_0925_RT2870_Linux_STA_v1.4.0.0/common/ba_action.c:1593-1615 | A concrete run of a new session with one block that delivers 0, 2 and 2. |
| `ReorderTheorems.StrandedRun` | 2008_0925_RT2870_Linux_STA_v1.4.0.0/common/ba_action.c:1593-1615 | A concrete run of a new session with one block, frames 0, 3 and 2, after which 2 is the last indicated number and 3 is still queued. |
| `ReorderTheorems.BarInResetState` | 2008_0925_RT2870_Linux_STA_v1.4.0.0/common/ba_action.c:1402-1407 | In the reset state a BAR is honoured exactly for starts below 2048. |
| `ReorderPermutation.PermutationRestored` | 2008_0925_RT2870_Linux_STA_v1.4.0.0/common/ba_action.c:1723-1762 | Frames a..b arriving once each, in any order that stays within the window and without timeouts, are delivered as exactly a, a+1, ..., b, each the frame that arrived, and the queue ends empty. |
| `ReorderTheorems.DriverRestoresPermutation` | 2008_0925_RT2870_Linux_STA_v1.4.0.0/common/ba_action.c:1723-1762 | The same of the driver's 12-bit run. |
| `ReorderConservation.PacketsConserved` | 2008_0925_RT2870_Linux_STA_v1.4.0.0/common/ba_action.c:1553-1615 | Over every run of any number of sessions on one pool, with tear-downs, renewals, resource releases and frames of no session: the packets delivered, dropped and queued anywhere are together exactly those at the start and those received, each as often. |
| `ReorderConservation.StepConserves` | 2008_0925_RT2870_Linux_STA_v1.4.0.0/common/ba_action.c:179-206 | Every event conserves packets and blocks, on the paths without a free block too. |
| `ReorderConservation.TearDownConserves` | 2008_0925_RT2870_Linux_STA_v1.4.0.0/common/ba_action.c:226-262 | Tear-down and resource release conserve packets and blocks and leave an empty queue. |
| `ReorderConservation.PoolPartition` | 2008_0925_RT2870_Linux_STA_v1.4.0.0/common/ba_action.c:264-334 | Free blocks and the blocks queued in all sessions are at all times a partition of the original pool, whatever happens in whichever session. |
| `ReorderDrops.TearDownDelivers` | 2008_0925_RT2870_Linux_STA_v1.4.0.0/common/ba_action.c:1017-1026 | A tear-down delivers the queued frames in list order after what was delivered before, releases nothing, and resets the cursor to 0xffff and the window to 0. |
| `ReorderDrops.RenewDelivers` | 2008_0925_RT2870_Linux_STA_v1.4.0.0/common/ba_action.c:666-690 | So does a request for a session that exists, which then starts afresh with the new window. |
| `ReorderDrops.ReleaseDrops` | 2008_0925_RT2870_Linux_STA_v1.4.0.0/common/ba_action.c:226-262 | A resource release releases the queued frames in list order and delivers nothing. |
| `ReorderDrops.StepDrops` | 2008_0925_RT2870_Linux_STA_v1.4.0.0/common/ba_action.c:1636-1795 | Every event releases the frame it brings or nothing, and only adds to the delivered log. |
| `ReorderDrops.OnlyArrivalsDropped` | 2008_0925_RT2870_Linux_STA_v1.4.0.0/common/ba_action.c:952-1037 | Over every run of all sessions, tear-downs included, what a session releases is a subsequence of the frames that arrived for it: a frame once queued is released only with the resources. |
| `ReorderDrops.DiscardsExactly` | 2008_0925_RT2870_Linux_STA_v1.4.0.0/common/ba_action.c:1708-1760 | A frame is released exactly if it is too long, is neither the next nor after the last number, or is queued already when a block is free. |
| `ReorderDrops.FlushTimes` | 2008_0925_RT2870_Linux_STA_v1.4.0.0/common/ba_action.c:426-469 | Nothing is flushed up to 100 ms after the last arrival; up to 500 ms, or with one frame queued, one number is given up; later all frames are delivered in order and the session is reset. |
| `BaReceiver.BlockPool.constructor` | 2008_0925_RT2870_Linux_STA_v1.4.0.0/common/ba_action.c:264-308 | The pool starts with every block once. |
| `BaReceiver.BlockPool.Alloc` | 2008_0925_RT2870_Linux_STA_v1.4.0.0/common/ba_action.c:310-324 | The head of the free list, or nothing exactly when it is empty. |
| `BaReceiver.BlockPool.Free` | 2008_0925_RT2870_Linux_STA_v1.4.0.0/common/ba_action.c:326-334 | The block becomes the head of the free list. |
| `BaReceiver.RecSession.constructor` | 2008_0925_RT2870_Linux_STA_v1.4.0.0/common/ba_action.c:641-693 | Window size from the request and the limit, truncated to a byte, with 64 for 0; empty queue, reset cursor. |
| `BaReceiver.RecSession.InsertSorted` | 2008_0925_RT2870_Linux_STA_v1.4.0.0/common/ba_action.c:146-173 | In-place insertion equals the specified position, or reports a duplicate and changes nothing. |
| `BaReceiver.RecSession.AnnounceHead` | 2008_0925_RT2870_Linux_STA_v1.4.0.0/common/ba_action.c:354-361 | The head is delivered and its block freed. |
| `BaReceiver.RecSession.IndicateInOrder` | 2008_0925_RT2870_Linux_STA_v1.4.0.0/common/ba_action.c:337-369 | The loop delivers the longest run of successors and returns its last number, or the reset value. |
| `BaReceiver.RecSession.IndicateLe` | 2008_0925_RT2870_Linux_STA_v1.4.0.0/common/ba_action.c:371-397 | The loop delivers exactly the leading frames at or before the number. |
| `BaReceiver.RecSession.RefreshAll` | 2008_0925_RT2870_Linux_STA_v1.4.0.0/common/ba_action.c:400-422 | Everything queued is delivered and the cursor reset. |
| `BaReceiver.RecSession.FlushTimeout` | 2008_0925_RT2870_Linux_STA_v1.4.0.0/common/ba_action.c:426-469 | The flush equals its specification for every clock value. |
| `BaReceiver.RecSession.EnqueuePacket` | 2008_0925_RT2870_Linux_STA_v1.4.0.0/common/ba_action.c:1553-1615 | Store, duplicate and no-block paths equal the specification. |
| `BaReceiver.RecSession.IndicateAmpdu` | 2008_0925_RT2870_Linux_STA_v1.4.0.0/common/ba_action.c:1636-1795 | The whole arrival path equals the specification the refinement is about. |
| `BaReceiver.RecSession.BlockAckRequest` | 2008_0925_RT2870_Linux_STA_v1.4.0.0/common/ba_action.c:1348-1412 | The BAR path equals the specification. |
| `BaReceiver.RecSession.Readd` | 2008_0925_RT2870_Linux_STA_v1.4.0.0/common/ba_action.c:649-690 | The renewal in place. |
| `BaReceiver.RecSession.TearDownSession` | 2008_0925_RT2870_Linux_STA_v1.4.0.0/common/ba_action.c:1013-1026 | The tear-down in place: the queue is delivered in order, nothing is released. |
| `BaReceiver.RecSession.ReleaseQueue` | 2008_0925_RT2870_Linux_STA_v1.4.0.0/common/ba_action.c:238-251 | The release in place: the queue is released in order, nothing is delivered. |
| `TxRingTheorems.FifoByteExact` | 2008_0925_RT2870_Linux_STA_v1.4.0.0/common/rtusb_bulk.c:202-447 | Over every interleaving of single writers (payload byte by byte), bulk starts and completions, the ring is in the deadlock below with no transfer ever started, or the completed transfers are, byte for byte, the frames accepted in order: each transfer is its records with USBDMANextVLD set in all but the last, and 4 or 8 zero bytes; nothing pending and nothing waiting means all accepted frames are out. |
| `TxRingTheorems.RunSound` | 2008_0925_RT2870_Linux_STA_v1.4.0.0/common/cmm_data_2870.c:232-347 | The ring invariant (cursors, queued records, region in flight, writer, log) holds after every run, or the ring is deadlocked and no transfer was ever started. |
| `TxRingTheorems.StuckExactly` | 2008_0925_RT2870_Linux_STA_v1.4.0.0/common/cmm_data_2870.c:328-336 | A step of a laid-out ring deadlocks it (writer idle, nothing pending, full to writers, empty to bulk-out) exactly if it ends the frame that wraps before any transfer was started. |
| `TxRingTheorems.DeadlockIff` | 2008_0925_RT2870_Linux_STA_v1.4.0.0/common/cmm_data_2870.c:48-65 | A run deadlocks if and only if it gets to such a step. |
| `TxRingInv.NotStuck` | 2008_0925_RT2870_Linux_STA_v1.4.0.0/common/cmm_data_2870.c:48-65 | A laid-out ring is never deadlocked: when it is empty a writer has room, also behind a wrapped batch. |
| `TxRingBulk.BatchBound` | 2008_0925_RT2870_Linux_STA_v1.4.0.0/common/rtusb_bulk.c:282-391 | Every record of a batch is taken with less than 0x8000 bytes before it. |
| `TxRingInv.EndGood` | 2008_0925_RT2870_Linux_STA_v1.4.0.0/common/cmm_data_2870.c:328-336 | Ending a write keeps the invariant if and only if not both the write wraps and no transfer was ever started; otherwise the ring is deadlocked. |
| `TxRingTheorems.StuckStays` | 2008_0925_RT2870_Linux_STA_v1.4.0.0/common/cmm_data_2870.c:48-65 | In the deadlock no step changes anything. |
| `TxRingTheorems.FillsUntilStuck` | 2008_0925_RT2870_Linux_STA_v1.4.0.0/common/cmm_data_2870.c:328-336 | The deadlock is reachable: writing without a bulk start leads there, with frames accepted and none sent. |
| `TxRingTheorems.NeverStuckAfterTransfer` | 2008_0925_RT2870_Linux_STA_v1.4.0.0/common/rtusb_bulk.c:240-265 | Once a transfer has been started no run deadlocks, and every run keeps the ring invariant. |
| `TxRingTheorems.LimitKept` | 2008_0925_RT2870_Linux_STA_v1.4.0.0/common/cmm_data_2870.c:41-69 | Over every run no byte at or beyond MAX_TXBULK_LIMIT is written, and no transfer reads one. |
| `TxWire.DeviceReadsFrames` | 2008_0925_RT2870_Linux_STA_v1.4.0.0/common/rtusb_bulk.c:202-447 | End to end over every interleaving, unless the ring deadlocked before the first transfer: a reader of the completed transfers that follows little-endian USBDMATxPktLen and bit 30 finds exactly the first of the frames handed to a writable ring, each once, in order, on a word boundary, for the EDCA queue, with header, payload and zeros up to a multiple of 4; and all of them once nothing is pending, waiting or being written. |
| `TxWire.PadRight` | 2008_0925_RT2870_Linux_STA_v1.4.0.0/common/cmm_data_2870.c:288-294 | USBDMATxPktLen is the next multiple of 4 from header and payload. |
| `TxWire.AlwaysAligned` | 2008_0925_RT2870_Linux_STA_v1.4.0.0/common/cmm_data_2870.c:328-336 | Over every run CurWritePosition, NextBulkOutPosition and ENextBulkOutPosition are multiples of 4. |
| `TxWire.AcceptedExactly` | 2008_0925_RT2870_Linux_STA_v1.4.0.0/common/cmm_data_2870.c:259-336 | Over every run the frames accepted, with the one being written, are those of the write requests that found the ring writable, in order. |
| `TxWire.WriteGoesThrough` | 2008_0925_RT2870_Linux_STA_v1.4.0.0/common/cmm_data_2870.c:259-336 | From every laid-out writable ring every frame that fits can be written and is accepted. |
| `TxWire.RefusedExactly` | 2008_0925_RT2870_Linux_STA_v1.4.0.0/common/cmm_data_2870.c:41-69 | A writer is refused exactly if another is at work or fewer than 2048 bytes lie ahead of it, and a descriptor request exactly if that many more do not. |
| `TxWire.TransferSizeIs` | 2008_0925_RT2870_Linux_STA_v1.4.0.0/common/rtusb_bulk.c:439-447 | A transfer has 4 or 8 bytes more than its records and is never a whole number of USB packets. |
| `TxWire.NeverOnBoundary` | 2008_0925_RT2870_Linux_STA_v1.4.0.0/common/rtusb_bulk.c:439-447 | Over every run no transfer pending or done is a whole number of USB packets. |
| `TxWire.BatchLimits` | 2008_0925_RT2870_Linux_STA_v1.4.0.0/common/rtusb_bulk.c:282-330 | A bulk-out takes the queued frames in order, the last with less than 0x6000 bytes before it (0x1000 if all are CCK, 0x800 below high speed), and leaves frames behind only past 0x6000 (0x1000 if one is CCK, 0x800 below high speed). |
| `TxWire.TransferReads` | 2008_0925_RT2870_Linux_STA_v1.4.0.0/common/rtusb_bulk.c:380-402 | The device reads a transfer as exactly its frames. |
| `TxRingTheorems.WriterSparesFlight` | 2008_0925_RT2870_Linux_STA_v1.4.0.0/common/cmm_data_2870.c:275-336 | No byte a writer stores lies in the region in flight or the 8 bytes behind it. |
| `TxRingTheorems.ReservationStable` | 2008_0925_RT2870_Linux_STA_v1.4.0.0/common/rtusb_data.c:71-107 | Once the descriptor request succeeds, any number of bulk starts and completions leave the write test succeeding. |
| `TxRingInv.BeginGood` | 2008_0925_RT2870_Linux_STA_v1.4.0.0/common/cmm_data_2870.c:259-322 | Starting a write, refused or not, keeps the invariant: in bounds, and clear of queued records and the region in flight. |
| `TxRingInv.CopyGood` | 2008_0925_RT2870_Linux_STA_v1.4.0.0/common/cmm_data_2870.c:324-326 | Every unlocked byte copy keeps the invariant. |
| `TxRingBulk.StartGood` | 2008_0925_RT2870_Linux_STA_v1.4.0.0/common/rtusb_bulk.c:240-447 | A bulk start, with its restoring and zeroing of 8 bytes, keeps the invariant. |
| `TxRingBulk.LaunchBuf` | 2008_0925_RT2870_Linux_STA_v1.4.0.0/common/rtusb_bulk.c:404-447 | The zeroed tail changes 8 bytes only, and putting SavedPad back restores the buffer when it was saved. |
| `TxRingBulk.RegionIsTransfer` | 2008_0925_RT2870_Linux_STA_v1.4.0.0/common/rtusb_bulk.c:404-447 | The region submitted is the wire form of the frames in flight with 4 or 8 zero bytes. |
| `TxRingBulk.CompleteGood` | 2008_0925_RT2870_Linux_STA_v1.4.0.0/common/2870_rtmp_init.c:1691-1778 | A completion puts exactly the frames in flight on the log. |
| `TxChain.TakeBatchTakes` | 2008_0925_RT2870_Linux_STA_v1.4.0.0/common/rtusb_bulk.c:282-402 | The batching loop takes whole records from the front, marks all but the last with USBDMANextVLD, leaves every other byte, and reports the wrap exactly when it took the last record before it. |
| `TxContext.HtTxContext.constructor` | 2008_0925_RT2870_Linux_STA_v1.4.0.0/common/2870_rtmp_init.c:249-262 | Cursors of a fresh ring. |
| `TxContext.HtTxContext.CanWrite` | 2008_0925_RT2870_Linux_STA_v1.4.0.0/common/cmm_data_2870.c:41-69 | The three refusals of the write test. |
| `TxContext.HtTxContext.BeginWrite` | 2008_0925_RT2870_Linux_STA_v1.4.0.0/common/cmm_data_2870.c:259-322 | The locked part of the single writer equals the specified step, in bounds. |
| `TxContext.HtTxContext.CopyByte` | 2008_0925_RT2870_Linux_STA_v1.4.0.0/common/cmm_data_2870.c:324-326 | One byte of the unlocked copy equals the specified step, in bounds. |
| `TxContext.HtTxContext.EndWrite` | 2008_0925_RT2870_Linux_STA_v1.4.0.0/common/cmm_data_2870.c:328-336 | The cursor update after the copy equals the specified step. |
| `TxContext.HtTxContext.TakeRecords` | 2008_0925_RT2870_Linux_STA_v1.4.0.0/common/rtusb_bulk.c:282-391 | The do-while loop over TXINFO headers equals the specified batch and stays in the buffer. |
| `TxContext.HtTxContext.BulkOutData` | 2008_0925_RT2870_Linux_STA_v1.4.0.0/common/rtusb_bulk.c:202-447 | The whole bulk start equals the specified step. |
| `TxContext.HtTxContext.BulkOutComplete` | 2008_0925_RT2870_Linux_STA_v1.4.0.0/common/2870_rtmp_init.c:1691-1778 | The completion equals the specified step. |
| `AesTables.TablesOk` | 2008_0925_RT2870_Linux_STA_v1.4.0.0/common/md5.c:708-813 | Every entry of both S-boxes is the affine image of the multiplicative inverse, and every T-table entry is its 2, 1, 1 and 3 multiples (section 5.1.1 and 5.1.3 of FIPS 197). |
| `AesTables.AffineInverts` | 2008_0925_RT2870_Linux_STA_v1.4.0.0/common/rtmp_tkip.c:121-138 | The inverse affine map by which the S-box law is stated undoes the affine map of section 5.1.1 of FIPS 197, both ways. |
| `AesBytewise.RconTable` | 2008_0925_RT2870_Linux_STA_v1.4.0.0/common/rtmp_tkip.c:1471-1496 | The round-constant table is the power sequence of section 5.2 of FIPS 197 for the ten rounds that use it. |
| `AesBytewise.Xor128` | 2008_0925_RT2870_Linux_STA_v1.4.0.0/common/rtmp_tkip.c:1458-1469 | AddRoundKey, also when the output is an input. |
| `AesBytewise.NextKeyInPlace` | 2008_0925_RT2870_Linux_STA_v1.4.0.0/common/rtmp_tkip.c:1471-1496 | The in-place key update is the next four words of the key expansion. |
| `AesBytewise.ByteSub` | 2008_0925_RT2870_Linux_STA_v1.4.0.0/common/rtmp_tkip.c:1511-1522 | SubBytes. |
| `AesBytewise.ShiftRow` | 2008_0925_RT2870_Linux_STA_v1.4.0.0/common/rtmp_tkip.c:1529-1549 | ShiftRows. |
| `AesBytewise.MixColumnAt` | 2008_0925_RT2870_Linux_STA_v1.4.0.0/common/rtmp_tkip.c:1551-1612 | The carry-mask arithmetic on four bytes is MixColumns of the column. |
| `AesBytewise.Encrypt` | 2008_0925_RT2870_Linux_STA_v1.4.0.0/common/rtmp_tkip.c:1010-1046 | aes128k128d is Cipher of FIPS 197 for every key and block, also in place. |
| `AesTtable.RoundWordIs` | 2008_0925_RT2870_Linux_STA_v1.4.0.0/common/md5.c:1147-1170 | One line of the T-table round is the mixed, shifted and substituted column plus its key word. |
| `AesTtable.FinalWordIs` | 2008_0925_RT2870_Linux_STA_v1.4.0.0/common/md5.c:1196-1216 | One line of the last round is the shifted and substituted column plus its key word. |
| `AesTtable.ScheduleWordIs` | 2008_0925_RT2870_Linux_STA_v1.4.0.0/common/md5.c:1021-1025 | The schedule word is RotWord, SubWord and Rcon of section 5.2 of FIPS 197. |
| `AesTtable.AesContext.SetKey128` | 2008_0925_RT2870_Linux_STA_v1.4.0.0/common/md5.c:993-1031 | The 44 words are the key expansion of the 128-bit key. |
| `AesTtable.AesContext.Encrypt` | 2008_0925_RT2870_Linux_STA_v1.4.0.0/common/md5.c:1137-1222 | rtmp_aes_encrypt is Cipher of FIPS 197 for every key and block, also in place. |
| `AesTtable.SameCiphertext` | 2008_0925_RT2870_Linux_STA_v1.4.0.0/common/md5.c:1137-1222 | For every key and block the two implementations leave the same sixteen bytes. |
| `AesInjective.MixFourTimes` | 2008_0925_RT2870_Linux_STA_v1.4.0.0/common/rtmp_tkip.c:1551-1612 | MixColumns four times is the identity. |
| `AesInjective.SboxInjective` | 2008_0925_RT2870_Linux_STA_v1.4.0.0/common/rtmp_tkip.c:121-138 | No two bytes have the same S-box entry. |
| `AesInjective.Aes128Injective` | 2008_0925_RT2870_Linux_STA_v1.4.0.0/common/rtmp_tkip.c:1010-1046 | Under every key, different blocks have different ciphertexts. |
| `HashSpec.BlocksAppend` | 2008_0925_RT2870_Linux_STA_v1.4.0.0/common/md5.c:198-252 | Iterating the transform over whole blocks is a fold that extends block by block. |
| `HashSpec.AddModulo` | 2008_0925_RT2870_Linux_STA_v1.4.0.0/common/md5.c:205-213 | The two-word bit count with its detected carry is exact modulo 2^64 for every length. |
| `HashSpec.OverflowTest` | 2008_0925_RT2870_Linux_STA_v1.4.0.0/common/md5.c:501-511 | SHAUpdate's overflow test fires exactly when the message would reach 2^64 bits. |
| `HashSpec.GuardWraps` | 2008_0925_RT2870_Linux_STA_v1.4.0.0/common/md5.c:222-226 | The buffering guard, computed modulo 2^32, is wrong exactly when the pending bytes and the length reach 2^32 together. |
| `HashContext.Absorb` | 2008_0925_RT2870_Linux_STA_v1.4.0.0/common/md5.c:215-252 | Top-up, whole blocks and tail leave the context holding the longer message, however the data are split. |
| `HashContext.Pad` | 2008_0925_RT2870_Linux_STA_v1.4.0.0/common/md5.c:277-318 | In both padding branches, one transform of the first 56 bytes and the length finishes the padded message. |
| `HashContext.Md5Context.constructor` | 2008_0925_RT2870_Linux_STA_v1.4.0.0/common/md5.c:170-179 | The initial state holds the empty message. |
| `HashContext.Md5Context.Update` | 2008_0925_RT2870_Linux_STA_v1.4.0.0/common/md5.c:198-252 | From the state for m to the state for m followed by the data. |
| `HashContext.Md5Context.Final` | 2008_0925_RT2870_Linux_STA_v1.4.0.0/common/md5.c:269-334 | The digest of the padded message of section 3 of RFC 1321. |
| `HashContext.Md5Stream` | 2008_0925_RT2870_Linux_STA_v1.4.0.0/common/md5.c:198-334 | For every way of splitting a message into updates, the result is the digest of the whole, of any length. |
| `HashContext.ShaContext.constructor` | 2008_0925_RT2870_Linux_STA_v1.4.0.0/common/md5.c:466-476 | The initial state holds the empty message. |
| `HashContext.ShaContext.Update` | 2008_0925_RT2870_Linux_STA_v1.4.0.0/common/md5.c:494-555 | As for MD5; the error is returned exactly at 2^64 bits, and then only the counters have changed. |
| `HashContext.ShaContext.Final` | 2008_0925_RT2870_Linux_STA_v1.4.0.0/common/md5.c:559-633 | The digest of the padded message of sections 4 and 6.1 of RFC 3174. |
| `HashContext.ShaStream` | 2008_0925_RT2870_Linux_STA_v1.4.0.0/common/md5.c:494-633 | For every split: all updates succeed exactly for messages below 2^64 bits, and then the result is the digest of the whole. |
| `HashSpec.PaddedIs` | 2008_0925_RT2870_Linux_STA_v1.4.0.0/common/md5.c:277-318 | Padding is the byte 0x80, the fewest zeros that make whole blocks, and the 8-byte length at the end. |
| `HashSpec.LengthBytes` | 2008_0925_RT2870_Linux_STA_v1.4.0.0/common/md5.c:297-310 | The length field is the value, low byte first for MD5 and high byte first for SHA-1. |
| `HashSpec.EncodeAt` | 2008_0925_RT2870_Linux_STA_v1.4.0.0/common/md5.c:320-334 | Digest byte 4i+j is byte j of word i. |
| `HashSpec.LowByteFirst` | 2008_0925_RT2870_Linux_STA_v1.4.0.0/common/md5.c:320-334 | The four bytes of a word in an MD5 digest run from the least significant up. |
| `HashSpec.HighByteFirst` | 2008_0925_RT2870_Linux_STA_v1.4.0.0/common/md5.c:615-633 | The four bytes of a word in a SHA-1 digest run from the most significant down. |
| `HashContext.InitialStates` | 2008_0925_RT2870_Linux_STA_v1.4.0.0/common/md5.c:170-179 | The initial states are the byte sequences of section 3.3 of RFC 1321 and section 6.1 of RFC 3174. |
| `KeyWrapSpec.UnmixInverts` | 2008_0925_RT2870_Linux_STA_v1.4.0.0/common/cmm_wpa.c:808-826 | Undoing the mixing steps in reverse order gives back the registers, for any number of registers and steps. |
| `KeyWrapSpec.CountIs` | 2008_0925_RT2870_Linux_STA_v1.4.0.0/common/cmm_wpa.c:822-824 | The step count enters as a 64-bit number, highest byte first. |
| `KeyWrapSpec.UnwrapWrap` | 2008_0925_RT2870_Linux_STA_v1.4.0.0/common/cmm_wpa.c:785-909 | Unwrap of wrap is the plaintext, with A back at 0xA6...A6, given only that decryption undoes encryption (sections 2.2.1 and 2.2.2 of RFC 3394). |
| `KeyWrapSpec.WrapImage` | 2008_0925_RT2870_Linux_STA_v1.4.0.0/common/cmm_wpa.c:887-907 | A is the initial value exactly for the ciphertexts that are a wrap of something: the check that the code leaves out would be exact. |
| `KeyWrap.StepNumber` | 2008_0925_RT2870_Linux_STA_v1.4.0.0/common/cmm_wpa.c:822 | The 8-bit step counter never truncates and names the register being worked on. |
| `KeyWrap.Wrap` | 2008_0925_RT2870_Linux_STA_v1.4.0.0/common/cmm_wpa.c:785-836 | AES_GTK_KEY_WRAP is the wrap of RFC 3394 of the whole 8-byte halves, in 8 bytes more; nothing beyond is written. |
| `KeyWrap.Unwrap` | 2008_0925_RT2870_Linux_STA_v1.4.0.0/common/cmm_wpa.c:854-909 | AES_GTK_KEY_UNWRAP is the unwrap of RFC 3394 in all but the last 8 of the bytes it stores; those, and all of them for a length below 8, are what the work buffer held when allocated; without memory nothing is stored. |
| `KeyWrap.WrapThenUnwrap` | 2008_0925_RT2870_Linux_STA_v1.4.0.0/common/cmm_wpa.c:785-909 | The round trip of the two routines for every whole number of halves up to 240 bytes. |
| `FcsTable.TableStepIs` | 2008_0925_RT2870_Linux_STA_v1.4.0.0/common/rtmp_wep.c:471-481 | A table step of the checksum is eight bit steps of the reflected CRC-32 polynomial, for every register and byte. |
| `FcsTable.CalcFcs32` | 2008_0925_RT2870_Linux_STA_v1.4.0.0/common/rtmp_wep.c:471-481 | The loop computes the bitwise CRC-32. |
| `WepSpec.IcvVectors` | 2008_0925_RT2870_Linux_STA_v1.4.0.0/common/rtmp_wep.c:499-507 | The ICV of the empty message and of a zero byte are the known CRC-32 values, low byte first. |
| `WepSpec.AlwaysPermutation` | 2008_0925_RT2870_Linux_STA_v1.4.0.0/common/rtmp_wep.c:287-353 | The RC4 state is a permutation after key scheduling and after any number of bytes. |
| `WepSpec.StartsInOrder` | 2008_0925_RT2870_Linux_STA_v1.4.0.0/common/rtmp_wep.c:302-305 | The key schedule starts from the identity, and the key stream after 256 rounds with both indices 0. |
| `WepSpec.RoundIs` | 2008_0925_RT2870_Linux_STA_v1.4.0.0/common/rtmp_wep.c:306-318 | A round moves the index by entry and key byte and exchanges the two entries; all others stay. |
| `WepSpec.RepeatedKey` | 2008_0925_RT2870_Linux_STA_v1.4.0.0/common/rtmp_wep.c:306-318 | A key and the same key written twice give the same schedule. |
| `WepSpec.NextIs` | 2008_0925_RT2870_Linux_STA_v1.4.0.0/common/rtmp_wep.c:333-353 | A step moves both indices, exchanges the two entries, and outputs the entry that their sum points at. |
| `WepSpec.NextUndone` | 2008_0925_RT2870_Linux_STA_v1.4.0.0/common/rtmp_wep.c:333-353 | A step can be undone, so no two contexts have the same successor. |
| `WepSpec.CryptAppend` | 2008_0925_RT2870_Linux_STA_v1.4.0.0/common/rtmp_wep.c:407-417 | Encrypting piece by piece is encrypting the concatenation. |
| `WepSpec.AcceptsSealed` | 2008_0925_RT2870_Linux_STA_v1.4.0.0/common/rtmp_wep.c:228-265 | Decryption accepts a frame body, whatever the reserved bits of its key-id byte, if and only if it is the encryption of some payload with its ICV under that key and vector. |
| `Wep.ArcFour.Init` | 2008_0925_RT2870_Linux_STA_v1.4.0.0/common/rtmp_wep.c:287-319 | The in-place key schedule equals its recursive definition. |
| `Wep.ArcFour.NextByte` | 2008_0925_RT2870_Linux_STA_v1.4.0.0/common/rtmp_wep.c:333-353 | The swap and output equal the specified step. |
| `Wep.ArcFour.Process` | 2008_0925_RT2870_Linux_STA_v1.4.0.0/common/rtmp_wep.c:374-417 | Output equals that of separate buffers, also when it runs behind the input in the same buffer. |
| `Wep.Engine.Start` | 2008_0925_RT2870_Linux_STA_v1.4.0.0/common/rtmp_wep.c:139-175 | Vector and key id are stored and the stream keyed; with CKIP the vector is the start of the key. |
| `Wep.Engine.EncryptData` | 2008_0925_RT2870_Linux_STA_v1.4.0.0/common/rtmp_wep.c:198-206 | The piece extends the encryption and the checksum of what came before. |
| `Wep.Engine.SetIcv` | 2008_0925_RT2870_Linux_STA_v1.4.0.0/common/rtmp_wep.c:499-507 | The complemented checksum, little-endian, encrypted. |
| `Wep.Engine.SoftDecrypt` | 2008_0925_RT2870_Linux_STA_v1.4.0.0/common/rtmp_wep.c:228-265 | No key: refused, frame untouched. Otherwise the body is decrypted four bytes towards the header and the verdict is the ICV comparison. |
| `Wep.RoundTrip` | 2008_0925_RT2870_Linux_STA_v1.4.0.0/common/rtmp_wep.c:139-265 | For every key of 1 to 13 bytes, vector, key id and payload in any number of pieces, decryption returns TRUE and recovers the payload. |
| `Ccm.OpenExact` | 2008_0925_RT2870_Linux_STA_v1.4.0.0/common/rtmp_tkip.c:1364-1444 | The decrypted tag is the message's tag if and only if the body is the sealed form of the message (section 2.2 and 2.3 of RFC 3610). |
| `CcmpFields.NonceIs` | 2008_0925_RT2870_Linux_STA_v1.4.0.0/common/rtmp_tkip.c:975-990 | The nonce is the priority, the transmitter address and the packet number highest byte first, the number being f[h] + 2^8 f[h+1] + 2^16 f[h+4] + 2^24 f[h+5] + 2^32 f[h+6] + 2^40 f[h+7]. |
| `CcmpFields.NonceInjective` | 2008_0925_RT2870_Linux_STA_v1.4.0.0/common/rtmp_tkip.c:975-990 | Two frames share a nonce exactly if transmitter, packet number and priority are the same. |
| `CcmpFields.CounterIs` | 2008_0925_RT2870_Linux_STA_v1.4.0.0/common/rtmp_tkip.c:1051-1082 | The counter block in terms of the frame's bytes: flags 1, priority nibble, address, packet number, counter modulo 2^16 highest byte first. |
| `CcmpFields.MicIvIs` | 2008_0925_RT2870_Linux_STA_v1.4.0.0/common/rtmp_tkip.c:960-995 | The first MIC block likewise, with flags 0x59 and the payload length. |
| `CcmpFields.TwoIs` | 2008_0925_RT2870_Linux_STA_v1.4.0.0/common/rtmp_tkip.c:990-994 | Length and counter fields are the number modulo 2^16, highest byte first. |
| `CcmpFields.AadIff` | 2008_0925_RT2870_Linux_STA_v1.4.0.0/common/rtmp_tkip.c:883-953 | Two frames have the same additional data exactly if they agree in addresses, fragment number and all frame control bits but the two CF bits, retry, power management and more data. |
| `CcmpFields.FlagsAre` | 2008_0925_RT2870_Linux_STA_v1.4.0.0/common/rtmp_tkip.c:1280-1298 | Four addresses exactly with both DS bits set; QoS exactly for the subtypes 8 to 11. |
| `CcmpFields.KeyIdIs` | 2008_0925_RT2870_Linux_STA_v1.4.0.0/common/rtmp_tkip.c:1300-1301 | The key id is the upper two bits of its byte. |
| `Ccmp.HeaderBlocks` | 2008_0925_RT2870_Linux_STA_v1.4.0.0/common/rtmp_tkip.c:883-953 | If the QoS nibble is zero, as it is without QoS, the two header blocks are the padded length and additional data of RFC 3610, with and without a fourth address. |
| `Ccmp.DecryptPayload` | 2008_0925_RT2870_Linux_STA_v1.4.0.0/common/rtmp_tkip.c:1322-1362 | Decrypting in place 8 bytes behind the read cursor equals counter mode on the original payload, for every length; in a QoS frame the blocks after the first use the priority nibble of the plaintext that has replaced the QoS byte. |
| `Ccmp.TrailMic` | 2008_0925_RT2870_Linux_STA_v1.4.0.0/common/rtmp_tkip.c:1364-1381 | The received tag under counter 0 and the later priority. |
| `Ccmp.ComputeMic` | 2008_0925_RT2870_Linux_STA_v1.4.0.0/common/rtmp_tkip.c:1386-1439 | The CBC-MAC over initial block, headers and the payload padded to 16. |
| `Ccmp.SoftDecrypt` | 2008_0925_RT2870_Linux_STA_v1.4.0.0/common/rtmp_tkip.c:1241-1452 | Without a key: refused, frame untouched. Otherwise the message replaces the CCMP header onwards, the protected bit is set, and the verdict is the comparison of received and computed tag; for a non-QoS frame it is TRUE exactly if the body was the sealed form of that message. |
| `Ccmp.OpensAsCcm` | 2008_0925_RT2870_Linux_STA_v1.4.0.0/common/rtmp_tkip.c:1309-1444 | Decryption is that of RFC 3610 for every frame without QoS and every QoS frame whose two priority nibbles are zero. |
| `CcmpQos.StreamsDiffer` | 2008_0925_RT2870_Linux_STA_v1.4.0.0/common/rtmp_tkip.c:1322-1345 | Under an injective cipher two priorities give different key-stream bytes in every whole block. |
| `CcmpQos.MessageIff` | 2008_0925_RT2870_Linux_STA_v1.4.0.0/common/rtmp_tkip.c:1322-1362 | For 32 bytes and more, the message is that of counter mode under a priority exactly if both priorities the code reads are that one. |
| `CcmpQos.OwnPriorityIff` | 2008_0925_RT2870_Linux_STA_v1.4.0.0/common/rtmp_tkip.c:1322-1362 | It is that of counter mode under the priority in the frame exactly if the first plaintext byte repeats that priority. |
| `CcmpQos.CcmIff` | 2008_0925_RT2870_Linux_STA_v1.4.0.0/common/rtmp_tkip.c:1309-1444 | For 32 bytes and more, message and verdict are those of RFC 3610 exactly if both priorities are zero. |
| `CcmpQos.NeverCcm` | 2008_0925_RT2870_Linux_STA_v1.4.0.0/common/rtmp_tkip.c:1309-1444 | With a priority other than zero and 16 bytes or more they never are. |
| `CcmpQos.DecryptedIff` | 2008_0925_RT2870_Linux_STA_v1.4.0.0/common/rtmp_tkip.c:1241-1452 | The same of the routine with AES-128, for every key and frame. |
| `CcmpQos.QosFrameFails` | 2008_0925_RT2870_Linux_STA_v1.4.0.0/common/rtmp_tkip.c:1241-1452 | Under every key, every QoS frame with a priority other than zero and 16 bytes or more is not opened as RFC 3610 prescribes. |
| `CcmpQos.EmptyMayAgree` | 2008_0925_RT2870_Linux_STA_v1.4.0.0/common/rtmp_tkip.c:1241-1452 | Without a message the condition is not necessary: behind every header there is a tag that the code and RFC 3610 both refuse. |
| `Ccmp.SealedAccepted` | 2008_0925_RT2870_Linux_STA_v1.4.0.0/common/rtmp_tkip.c:1309-1444 | A sealed frame is accepted and its message recovered. |
| `MacTable.Table.Lookup` | 2008_0925_RT2870_Linux_STA_v1.4.0.0/common/cmm_data.c:1738-1759 | Returns the index at which a walk along the address's chain stops. |
| `MacTable.Table.Insert` | 2008_0925_RT2870_Linux_STA_v1.4.0.0/common/cmm_data.c:1771-1921 | Takes the first vacancy, appends it to its chain, keeps the table valid; a full table changes nothing. |
| `MacTable.Table.Delete` | 2008_0925_RT2870_Linux_STA_v1.4.0.0/common/cmm_data.c:1929-2027 | Removes exactly a used entry with that address, unlinks it and keeps the table valid. |
| `MacTableSpec.WalkIsScan` | 2008_0925_RT2870_Linux_STA_v1.4.0.0/common/cmm_data.c:1747-1756 | With unique addresses a look-up finds what a linear scan finds if and only if no direct-link entry of another address comes first on the chain. |
| `MacTableSpec.ClientsOnly` | 2008_0925_RT2870_Linux_STA_v1.4.0.0/common/cmm_data.c:1747-1756 | Without direct-link entries every look-up agrees with the scan. |
| `MacTable.PeerShadows` | 2008_0925_RT2870_Linux_STA_v1.4.0.0/common/cmm_data.c:1747-1756 | After one insertion of a direct-link entry into an empty table, a look-up of another address with its hash returns that entry, while a scan finds none. |
| `MacTable.RunUnique` | 2008_0925_RT2870_Linux_STA_v1.4.0.0/common/cmm_data.c:1771-1921 | Insertions of fresh addresses and deletions keep addresses unique. |
| `MacTable.Replay` | 2008_0925_RT2870_Linux_STA_v1.4.0.0/common/cmm_data.c:1738-2027 | After any such run: chains are acyclic lists of exactly the used entries of their hash, Size counts used entries, and look-ups obey the law above for every address. |
| `MacTable.AddMeans` | 2008_0925_RT2870_Linux_STA_v1.4.0.0/common/cmm_data.c:1771-1921 | An insertion of a new address takes the first vacancy from its start on and is found there, all other addresses stay where they were; without a vacancy nothing changes. |
| `MacTable.RemoveMeans` | 2008_0925_RT2870_Linux_STA_v1.4.0.0/common/cmm_data.c:1929-2027 | A removal that names an entry's address leaves that address unfound and all others where they were; otherwise nothing changes. |
| `MacTable.HashIs` | 2008_0925_RT2870_Linux_STA_v1.4.0.0/include/mlme.h:147-148 | Changing any one byte of an address changes its hash, and turning the address does not. |
| `BaTablesSpec.AlwaysConsistent` | 2008_0925_RT2870_Linux_STA_v1.4.0.0/common/ba_action.c:490-1120 | After any mix of set-ups, responses, timeouts, requests and tear-downs: counters count busy entries, links and entries name each other, bitmap bits are set exactly for open sessions. |
| `BaTablesSpec.StepKeeps` | 2008_0925_RT2870_Linux_STA_v1.4.0.0/common/ba_action.c:490-1120 | The same, one operation at a time. |
| `BaTablesSpec.LinksInjective` | 2008_0925_RT2870_Linux_STA_v1.4.0.0/common/ba_action.c:520-560 | No two stations or TIDs share a session. |
| `BaTablesSpec.FreeIffRoom` | 2008_0925_RT2870_Linux_STA_v1.4.0.0/common/ba_action.c:726-795 | A free entry is found exactly below 127 sessions, so always below the recipient limit of 8; the originator test against 128 never fires. |
| `BaTablesSpec.AtMostSeven` | 2008_0925_RT2870_Linux_STA_v1.4.0.0/common/ba_action.c:1097-1120 | While a session is not freed, requests sent and token stay within 8: a set-up, which starts at 1, sends at most seven. |
| `BaTablesSpec.SetUpStartsAtOne` | 2008_0925_RT2870_Linux_STA_v1.4.0.0/common/ba_action.c:531-552 | A set-up that changes anything makes a waiting session with token 1 for a station and TID that had none. |
| `BaSessions.SetUpMeans` | 2008_0925_RT2870_Linux_STA_v1.4.0.0/common/ba_action.c:490-562 | A set-up changes anything exactly if the station and TID have no session and fewer than 127 are in use, and then starts theirs with one request and touches no other. |
| `BaSessions.RespondMeans` | 2008_0925_RT2870_Linux_STA_v1.4.0.0/common/ba_action.c:580-597 | A response opens a waiting session, sets its bit and touches no other; in any other state it changes nothing. |
| `BaSessions.TimeoutMeans` | 2008_0925_RT2870_Linux_STA_v1.4.0.0/common/ba_action.c:1097-1120 | A timeout of a waiting session adds a request up to the eighth and then ends it; no other session is touched. |
| `BaSessions.TearDownMeans` | 2008_0925_RT2870_Linux_STA_v1.4.0.0/common/ba_action.c:865-1037 | A tear-down ends the session of its station and TID and no other. |
| `BaSessions.AcceptMeans` | 2008_0925_RT2870_Linux_STA_v1.4.0.0/common/ba_action.c:630-724 | A peer's request opens the session exactly if there is one already or fewer than 8 are in use, and touches no other. |
| `BaSessions.BitMeans` | 2008_0925_RT2870_Linux_STA_v1.4.0.0/common/ba_action.c:593-705 | The bitmap bit is set exactly for an open session. |
| `BaSessions.AlwaysFew` | 2008_0925_RT2870_Linux_STA_v1.4.0.0/common/ba_action.c:660-672 | Over every run there are at most 8 recipient and 127 originator sessions. |
| `BaSessions.SevenRequests` | 2008_0925_RT2870_Linux_STA_v1.4.0.0/common/ba_action.c:1097-1120 | After a set-up each of the next seven timeouts in a row sends a request, and the eighth ends the session. |
| `BaTables.SessionTable.Search` | 2008_0925_RT2870_Linux_STA_v1.4.0.0/common/ba_action.c:742-756 | The allocation loop returns the first free entry, or the last entry and no index. |
| `BaTables.SessionTable.Allocate` | 2008_0925_RT2870_Linux_STA_v1.4.0.0/common/ba_action.c:762-794 | Marks and counts exactly the first free entry; with none free it reports the last entry, no index, and changes nothing. |
| `BaTables.SessionTable.Enter` | 2008_0925_RT2870_Linux_STA_v1.4.0.0/common/ba_action.c:536-551 | An entry that is already live is left alone, link and all; any other is linked and waits with token 1. |
| `BaTables.SessionTable.SetUp` | 2008_0925_RT2870_Linux_STA_v1.4.0.0/common/ba_action.c:490-562 | Equals the specified step; with the table full nothing changes. |
| `BaTables.SessionTable.Respond` | 2008_0925_RT2870_Linux_STA_v1.4.0.0/common/ba_action.c:564-628 | Equals the specified step: only a waiting session opens. |
| `BaTables.SessionTable.FreeOri` | 2008_0925_RT2870_Linux_STA_v1.4.0.0/common/ba_action.c:797-833 | Equals the specified release. |
| `BaTables.SessionTable.EndOriginator` | 2008_0925_RT2870_Linux_STA_v1.4.0.0/common/ba_action.c:865-950 | Equals the specified tear-down. |
| `BaTables.SessionTable.SetupTimeout` | 2008_0925_RT2870_Linux_STA_v1.4.0.0/common/ba_action.c:1067-1121 | Sends another request, or frees the session, exactly as specified. |
| `BaTables.SessionTable.AddRecipient` | 2008_0925_RT2870_Linux_STA_v1.4.0.0/common/ba_action.c:630-724 | Accepts exactly a known session or one below the limit, and opens it. |
| `BaTables.SessionTable.FreeRec` | 2008_0925_RT2870_Linux_STA_v1.4.0.0/common/ba_action.c:835-862 | Frees entry, link and count, and leaves the bitmap. |
| `BaTables.SessionTable.EndRecipient` | 2008_0925_RT2870_Linux_STA_v1.4.0.0/common/ba_action.c:952-1037 | Link, bit, count and entry are cleared together. |
| `BaTables.TearDownAll` | 2008_0925_RT2870_Linux_STA_v1.4.0.0/common/ba_action.c:1039-1051 | Both tables end all eight TIDs of the station; an index outside the MAC table changes nothing. |
| `BaTables.EndAllEnds` | 2008_0925_RT2870_Linux_STA_v1.4.0.0/common/ba_action.c:1039-1051 | Afterwards no link and no bit of the station is left. |
| `MgmtRingSpec.StepKeeps` | 2008_0925_RT2870_Linux_STA_v1.4.0.0/common/rtusb_bulk.c:889-925 | A step keeps the ring in order (cells in use from TxDmaIdx up to TxCpuIdx, as many as TxSwFreeIdx leaves of 32, at most the first one out, submissions the accepted packets in order, once each) if and only if the unlocked test it acts on still holds: a free cell for a request, the same waiting cell at TxDmaIdx for a bulk-out that is not refused. |
| `MgmtRingSpec.InOrderIff` | 2008_0925_RT2870_Linux_STA_v1.4.0.0/common/rtusb_bulk.c:889-977 | A run keeps the ring in order throughout if and only if every such test still holds when acted on. |
| `MgmtRingSpec.SerialSafe` | 2008_0925_RT2870_Linux_STA_v1.4.0.0/common/cmm_data_2870.c:593-660 | Tests still hold when at most one caller at a time is between look and lock, and at most as many requesters as cells are free. |
| `MgmtRingSpec.AlwaysSound` | 2008_0925_RT2870_Linux_STA_v1.4.0.0/common/cmm_data_2870.c:593-660 | From the initialised ring: callers one at a time are safe, and every safe run, however interleaved with completions, is in order. |
| `MgmtRingSpec.SubmittedTwice` | 2008_0925_RT2870_Linux_STA_v1.4.0.0/common/rtusb_bulk.c:898-925 | In every ring with a waiting head, a caller that was overtaken between look and lock submits the head's packet a second time, between the two critical sections of its completion. |
| `MgmtRingSpec.CountWraps` | 2008_0925_RT2870_Linux_STA_v1.4.0.0/common/cmm_data.c:141-150 | In every ring with one free cell, two requesters that pass the test together wrap TxSwFreeIdx and write over the oldest packet, and no look succeeds afterwards. |
| `MgmtRingSpec.Reachable` | 2008_0925_RT2870_Linux_STA_v1.4.0.0/common/cmm_data.c:100-174 | Both failures are runs of the initialised ring. |
| `MgmtRingSpec.TheGap` | 2008_0925_RT2870_Linux_STA_v1.4.0.0/common/2870_rtmp_init.c:1252-1268 | Between clearing the pending flag and advancing the index no look succeeds; a commit takes a cell exactly if its look was earlier. |
| `MgmtRingSpec.SubmitsNext` | 2008_0925_RT2870_Linux_STA_v1.4.0.0/common/rtusb_bulk.c:898-977 | With a waiting cell and nothing out, a caller alone submits the next accepted packet. |
| `MgmtRingSpec.CompletionFrees` | 2008_0925_RT2870_Linux_STA_v1.4.0.0/common/2870_rtmp_init.c:1252-1268 | A completion gives up the pending flag, then clears the cell, moves TxDmaIdx on by one and raises TxSwFreeIdx by one. |
| `MgmtRingSpec.RefusedUndone` | 2008_0925_RT2870_Linux_STA_v1.4.0.0/common/rtusb_bulk.c:966-977 | A refused submission leaves the ring as before the look. |
| `MgmtRingSpec.AcceptedExactly` | 2008_0925_RT2870_Linux_STA_v1.4.0.0/common/cmm_data_2870.c:593-654 | Over every run, safe or not, the packets accepted are those of the requests that got to the lock, in order. |
| `MgmtRingSpec.AskPasses` | 2008_0925_RT2870_Linux_STA_v1.4.0.0/common/cmm_data.c:141-150 | A request goes on with its packet exactly if a cell is free. |
| `MgmtRingSpec.SendsHead` | 2008_0925_RT2870_Linux_STA_v1.4.0.0/common/rtusb_bulk.c:889-977 | Look, lock, submission and completion by one caller send the oldest packet and free its cell. |
| `MgmtRingSpec.CanDrain` | 2008_0925_RT2870_Linux_STA_v1.4.0.0/common/rtusb_bulk.c:889-977 | From every ring in order with nothing out, one caller can send all packets accepted and leave the ring empty. |
| `MgmtRingSpec.BulkOutSizeIs` | 2008_0925_RT2870_Linux_STA_v1.4.0.0/common/cmm_data_2870.c:613-627 | Padding is 4 to 11 bytes, and the transfer is whole words not ending on a packet boundary. |
| `MgmtRing.Mgmt.TestFree` | 2008_0925_RT2870_Linux_STA_v1.4.0.0/common/cmm_data.c:141-150 | The unlocked test equals the specified step; a full ring drops the packet. |
| `MgmtRing.Mgmt.KickOut` | 2008_0925_RT2870_Linux_STA_v1.4.0.0/common/cmm_data_2870.c:593-654 | The locked part equals the specified step. |
| `MgmtRing.Mgmt.LookAt` | 2008_0925_RT2870_Linux_STA_v1.4.0.0/common/rtusb_bulk.c:889-911 | The unlocked test of the cell at TxDmaIdx equals the specified step. |
| `MgmtRing.Mgmt.Take` | 2008_0925_RT2870_Linux_STA_v1.4.0.0/common/rtusb_bulk.c:914-925 | The critical section equals the specified step, for the cell looked at. |
| `MgmtRing.Mgmt.Submitted` | 2008_0925_RT2870_Linux_STA_v1.4.0.0/common/rtusb_bulk.c:965-977 | The submission equals the specified step, and a refused one is undone. |
| `MgmtRing.Mgmt.CompleteFirst` | 2008_0925_RT2870_Linux_STA_v1.4.0.0/common/2870_rtmp_init.c:1234-1253 | The first critical section. |
| `MgmtRing.Mgmt.FinishSecond` | 2008_0925_RT2870_Linux_STA_v1.4.0.0/common/2870_rtmp_init.c:1255-1268 | The second: in a ring in order it concerns TxDmaIdx and returns the oldest packet. |
| `RxParse.DrainEncoded` | 2008_0925_RT2870_Linux_STA_v1.4.0.0/common/2870_rtmp_init.c:1046-1123 | Repeated reading of a buffer of well-formed records recovers exactly those records. |
| `RxParse.NextIsThere` | 2008_0925_RT2870_Linux_STA_v1.4.0.0/common/2870_rtmp_init.c:1046-1123 | Whatever the buffer holds, a record read is there byte for byte, within the buffer. |
| `RxParse.NextIff` | 2008_0925_RT2870_Linux_STA_v1.4.0.0/common/2870_rtmp_init.c:1046-1123 | A record is found exactly if 24 bytes are left, its length is a multiple of 4 but 0 and fits with 8 bytes of framing, and the 12-bit MPDU count does not exceed it. |
| `RxRingSpec.AlwaysSound` | 2008_0925_RT2870_Linux_STA_v1.4.0.0/common/rtusb_bulk.c:1406-1535 | In every reachable state of successful transfers, readable contexts are exactly those from read to fill index, at most one transfer is pending and goes to the fill index, and buffers are handled in order, each giving a prefix of its records, all of them when read to the end. |
| `RxRingSpec.ReceivedStores` | 2008_0925_RT2870_Linux_STA_v1.4.0.0/common/2870_rtmp_init.c:1155-1172 | A transfer with bytes becomes the last waiting buffer, readable with exactly those bytes, and the fill index moves on; an empty one leaves the context in place. |
| `RxRingSpec.ReceivedExactly` | 2008_0925_RT2870_Linux_STA_v1.4.0.0/common/2870_rtmp_init.c:1155-1172 | Over every run the buffers received are exactly the non-empty data of the transfers that completed, in order. |
| `RxRingSpec.RecordsDelivered` | 2008_0925_RT2870_Linux_STA_v1.4.0.0/common/rtusb_bulk.c:1488-1538 | End to end: the i-th buffer handled is the i-th non-empty one the device delivered, and read to its end it gives the records encoded in it. |
| `RxRingSpec.BulkInStarts` | 2008_0925_RT2870_Linux_STA_v1.4.0.0/common/rtusb_bulk.c:1406-1460 | A transfer is started exactly if none is out, a context is free and the URB is taken, into the first context after the waiting ones. |
| `RxRingSpec.StartTakes` | 2008_0925_RT2870_Linux_STA_v1.4.0.0/common/rtusb_bulk.c:1502-1508 | A waiting buffer is taken up exactly if there is one, the oldest first. |
| `RxRingSpec.PacketReads` | 2008_0925_RT2870_Linux_STA_v1.4.0.0/common/2870_rtmp_init.c:1046-1128 | With memory the next record of the buffer is read and the position moves behind it; otherwise nothing changes. |
| `RxRingSpec.EndGivesBack` | 2008_0925_RT2870_Linux_STA_v1.4.0.0/common/rtusb_bulk.c:1516-1524 | Giving a context back moves the read index on and leaves one buffer fewer waiting. |
| `RxRingSpec.RecordsRecovered` | 2008_0925_RT2870_Linux_STA_v1.4.0.0/common/rtusb_bulk.c:1499-1535 | A handled buffer of well-formed records gave exactly those records. |
| `RxRing.Rx.BulkIn` | 2008_0925_RT2870_Linux_STA_v1.4.0.0/common/rtusb_bulk.c:1406-1460 | Equals the specified step, also when the submission fails. |
| `RxRing.Rx.Received` | 2008_0925_RT2870_Linux_STA_v1.4.0.0/common/2870_rtmp_init.c:1155-1172 | Equals the specified step; an empty transfer leaves the context in place. |
| `RxRing.Rx.GetPacket` | 2008_0925_RT2870_Linux_STA_v1.4.0.0/common/2870_rtmp_init.c:1033-1128 | All refusals, the record and the new position; ReadPosition never passes BulkInOffset. |
| `RxRing.Rx.ReadRecords` | 2008_0925_RT2870_Linux_STA_v1.4.0.0/sta/rtmp_data.c:694-756 | The packet loop ends, having read the records of the buffer in order: all of them, or as many as adapter flags, monitor mode and memory allow. |
| `RxRing.Rx.HandleOne` | 2008_0925_RT2870_Linux_STA_v1.4.0.0/common/rtusb_bulk.c:1499-1527 | The oldest buffer is read so far and its context given back. |
| `RxRing.Rx.BulkReceive` | 2008_0925_RT2870_Linux_STA_v1.4.0.0/common/rtusb_bulk.c:1488-1538 | All waiting buffers are read in order, each to its end or as far as allowed; the stop flags end it before reading or before the next transfer. |

## Left out

- URB failures of data and receive transfers, bulk resets and cancellation: recovery code.
- RtmpUSB_WriteMultiTxResource, RtmpUSB_WriteFragTxResource and RtmpUSB_FinalWriteTxResource: only the single writer is modelled.
- Re-entrant flushes inside packet indication: indication is one step.
- ADDBA, DELBA and BAR frame contents and TIDs of 8 and above: operations take a station and a TID below 8.
- The aggregation arithmetic of BA_MaxWinSizeReasign: the originator's window size is not modelled.
- AES with 192- and 256-bit keys and AES decryption: no caller uses the former; key unwrap takes the decryption as a function.
- MD5Transform and SHATransform: the block transform is a parameter of the hash model, and the laws hold for every one.
- HMAC, MD5 MAC and PRF constructions on top of the hashes.
- The GTK variant of RC4.
- TKIP: Michael and key mixing.
- MacTableReset and entry fields other than validity, address and link; entries valid as WDS, AP client or mesh, which a station never makes.
- Registers, EEPROM, calibration, scanning and association state machines, configuration handlers: hardware access and plumbing.
- Wep.Engine.SoftDecrypt: with a key, takes frames of at least 32 bytes and keys of at most 13, because shorter frames make the code's unsigned lengths wrap and longer keys overrun its 16-byte buffer.
- Ccmp.SoftDecrypt: with a key, takes frames that hold header, CCMP header and tag, because shorter ones make the code's unsigned lengths wrap.
- HashContext.Absorb: requires that the buffering guard does not wrap, because the code then copies some 2^32 bytes into its 64-byte buffer.
- HashContext.Md5Context.Update: requires the same.
- HashContext.Md5Stream: requires the same of every update.
- HashContext.ShaContext.Update: requires the same.
- HashContext.ShaStream: requires the same of every update.
- TxContext.HtTxContext.BeginWrite: takes frames that fit the ring slot, as the caller's size check guarantees.
