# A verified model of a tunnel device library

The library opens layer-3 tunnel devices on several systems. This project models, in Dafny, the parts
of it that keep state or follow a protocol, and proves what they promise:

- the Solaris STREAMS driver: its PPA table, its list of open streams and one list of protocol streams
  per PPA, the DLPI states, and the routing of frames with every message block accounted for;
- the two places where packets are cut out of a byte stream, and the tagged records of the BSD device;
- the names of Solaris interfaces, from the client's parser to the driver's table and back;
- two many-thread protocols on Windows: shutting a tunnel down, and loading a DLL on first use.

## How it is built

`TunSpec` is the driver as steps on values (a `View`: the list, the streams, the table). `TunStore` is
its memory as pointers on values: what `s_next`, `p_next`, `p_str` and `tun_str` point to, with a
predicate `Represents` saying that the pointers spell out a well-formed view. `TunDriver` is the driver
itself: heap objects edited through `prev` pointers, with loops. Its methods take every request. Each says in
`ensures` that the new view is the specified step; for the three operations that need a client
discipline the source does not check, each says that this is so under the discipline and that *no*
well-formed view fits the pointers otherwise. Lemmas over whole runs are in `TunRuns`, `TunProtocol`
and `TunSystem`; `TunSystem.PerformAll` carries any such run out on the heap. A `Verdict` says what a
DLPI request leaves: sound lists, broken ones, or a null pointer followed.

`TunReplies` says of every request which answer is given exactly when, and what one request tells of
another; `TunFrames` says which copies are made and, byte for byte, what each carries.

A handler is one atomic step, as the driver's perimeters make it. `canputnext`, `dupmsg` and `allocb`
are arbitrary answers, one for each place that asks. A `Kernel` value records what STREAMS sees of one
write side: waiting messages, puts, replies, and the blocks that are gone; `Balanced` says that between
two points exactly the given blocks and the newly made ones have been accounted for.

The length of a packet is told by a function that is a parameter, known by `Packets.Contract`; `IpLen`
follows section 3.1 of RFC 791 and section 3 of RFC 8200 and shows that the contract can be met. The
tcpip library's own TotalLen is not part of this model.

Results that say where the code stops short of what one would expect, with the exact condition or an
input that shows it:

- TUNSETPPA, DL_ATTACH_REQ and TUNNEWPPA do not check that the stream has no PPA; once they get past
  their other checks the lists survive if and only if it has none, or, for TUNNEWPPA, is a control
  stream already or gets no memory (`TunStore.LinkSoundIff`, `TunStore.NewPpaSoundIff`,
  `TunSystem.LinkTwiceExample`).
- In the TAP build DL_SET_PHYS_ADDR_REQ follows a null pointer if and only if the stream has no PPA
  (`TunService.DlpiAct`).
- TUNNEWPPA can leave a PPA without a control stream: when its last allocation fails, or when a control
  stream asks again. Ownership holds if and only if that has never happened (`TunRuns.RunOwnership`).
- A refused TUNNEWPPA may have changed the table (`TunProtocol.RefusedIff`).
- A frame can reach a stream of another PPA or of none, or a queue that has been closed. That takes a
  PPA whose control stream has asked for a second one, or whose last allocation failed: it still names
  the queue. Isolation holds if and only if the PPA names the queue of an open stream on it
  (`TunFrames.IsolationIff`, `TunSystem.RunIsolationIff`, `TunSystem.StrayFrameExample`,
  `TunSystem.ClosedQueueExample`, `TunSystem.LeakStrayExample`).
- The list of open streams loses its order if and only if a plain open puts a minor in front that is not
  below all others; then a clone open can repeat a minor (`TunProtocol.RunSortedIff`,
  `TunProtocol.DuplicateMinorExample`).
- A stream thrown off its PPA keeps its sap and can be sent frames in DL_UNATTACHED
  (`TunSystem.StaleSapExample`); `TunFrames.TunReachIff` says exactly which streams can be.
- Copying stalls if and only if a packet, or an incomplete one at the end, does not fit 65535 bytes;
  a version 6 packet may be that long (`IoCopy.CopiedIsSplit`, `IoCopy.StallExample`). Reading on Solaris
  never hands out a packet if and only if it does not fit 65536 bytes (`SolarisTun.BlockedIff`).
- Copying repeats bytes if and only if a write turned down as too short has taken some; io.Writer does
  not forbid that (`IoCopy.ConservedIff`, `IoCopy.ResendExample`).
- A failed file read in readPacket damages the window if and only if the window has been moved onto
  itself and does not repeat with that distance (`SolarisTun.TunDevice.ReadPacket`,
  `SolarisTun.DamageExample`).
- An open reports the requested interface name if and only if the name is "tun" and a plain decimal;
  "tun007" and "tunX7" are accepted and reported as "tun7" (`TunName.OpenReportsName`,
  `TunName.OtherNameExample`). The error text in the parser promises "tun[0-9]+". A number wider
  than 32 bits makes the driver take another PPA before the client gives up (`TunName.WideNumberExample`).
- A reader or writer can raise the count from zero while Close waits for it, which the documentation of
  sync.WaitGroup forbids: in every system with a closer and a caller, unless Close begins when no call is
  about to (`WintunShutdown.AddWhileWaitingIff`, `WintunShutdown.NoStartsNoAdds`). Such a caller finds the
  flag set and leaves (`WintunShutdown.LateCallerLeaves`).

## Model

| member | source | states |
|---|---|---|
| `TunSystem.Perform` | driver/tuntap/tun.c:267-840 | Any operation on the linked lists yields the specified step under the client discipline; without it no well-formed state fits the pointers; what it adds to memory is new |
| `TunSystem.PerformAll` | driver/tuntap/tun.c:267-840 | Every run of disciplined operations is carried out on the linked lists, which at the end spell out the state where the run ends |
| `TunSystem.LinkTwiceExample` | driver/tuntap/tun.c:444-459 | Four operations and a second unit selection after which no well-formed state fits the pointers |
| `TunRuns.RunWf` | driver/tuntap/tun.c:267-840 | Every state of every run is well formed: list of open streams exact and duplicate-free, each PPA list exactly its live protocol streams, ids in range |
| `TunRuns.RunListsDisjoint` | driver/tuntap/tun.c:456-459 | No stream is ever on the lists of two PPAs |
| `TunRuns.StepWf` | driver/tuntap/tun.c:388-775 | Each operation keeps well-formedness |
| `TunSpec.WfClose` | driver/tuntap/tun.c:304-347 | Closing keeps well-formedness, whichever kind of stream is closed |
| `TunSpec.WfLink` | driver/tuntap/tun.c:456-459 | Linking a stream without PPA keeps well-formedness |
| `TunStore.LinkSoundIff` | driver/tuntap/tun.c:456-459 | Linking leaves sound lists exactly when the stream had no PPA |
| `TunStore.NewPpaSoundIff` | driver/tuntap/tun.c:415-437 | TUNNEWPPA leaves sound lists exactly when it fails late or the stream is on no protocol list |
| `TunStore.ComesBack` | driver/tuntap/tun.c:649-652 | Linking a listed stream to its own PPA makes the list run back into itself |
| `TunStore.LinkTwice` | driver/tuntap/tun.c:649-652 | No well-formed state fits the pointers after a second link |
| `TunStore.ClaimWhileListed` | driver/tuntap/tun.c:436-437 | No well-formed state fits once a listed stream has taken control of a new PPA |
| `TunStore.CloseRefines` | driver/tuntap/tun.c:304-347 | The pointer writes of a close spell out the closed state, freed memory included |
| `TunStore.AddRefines` | driver/tuntap/tun.c:287-297 | The pointer writes of an open spell out the opened state |
| `TunStore.DetachRefines` | driver/tuntap/tun.c:677-684 | The pointer writes of a detach spell out the detached state |
| `TunDriver.Driver.Open` | driver/tuntap/tun.c:267-302 | An open yields the specified state, with the minor the scan found |
| `TunDriver.Driver.ScanMinors` | driver/tuntap/tun.c:274-283 | The clone scan stops at the first position below the minor found there |
| `TunDriver.Driver.Close` | driver/tuntap/tun.c:304-347 | A close yields the specified state and flushes exactly the streams it throws off |
| `TunDriver.Driver.FindInPpa` | driver/tuntap/tun.c:331-334 | The search meets its stream before it runs off the list, and what it stops behind points to it |
| `TunDriver.Driver.FindInOpen` | driver/tuntap/tun.c:339-342 | The search meets its stream before it runs off the list, and what it stops behind points to it |
| `TunDriver.Driver.DetachMembers` | driver/tuntap/tun.c:317-324 | The walk detaches the listed streams, all of them, each once |
| `TunDriver.Driver.AllocPpa` | driver/tuntap/tun.c:361-385 | Takes the requested slot, or the least free one, or fails when all are taken |
| `TunDriver.Driver.FindFree` | driver/tuntap/tun.c:367-374 | Finds the least free slot, or none exactly when there is none |
| `TunDriver.Driver.NewPpa` | driver/tuntap/tun.c:399-442 | TUNNEWPPA: reply, new state, and the exact condition under which the lists stay sound |
| `TunDriver.Driver.SetPpa` | driver/tuntap/tun.c:444-464 | TUNSETPPA: reply, new state, and the exact condition under which the lists stay sound |
| `TunDriver.Driver.GetPpa` | driver/tuntap/tun.c:466-473 | TUNGETPPA: the number of the stream's own PPA or ENODEV |
| `TunDriver.Driver.AttachReq` | driver/tuntap/tun.c:618-658 | Attach: reply, new state, and the exact condition under which the lists stay sound |
| `TunDriver.Driver.DetachReq` | driver/tuntap/tun.c:660-687 | Detach: reply and new state; keeps the order of the rest of the list |
| `TunDriver.Driver.BindReq` | driver/tuntap/tun.c:689-753 | Bind: reply for each refusal and for success, and the new state |
| `TunDriver.Driver.UnbindReq` | driver/tuntap/tun.c:755-775 | Unbind: reply and new state |
| `TunDriver.Driver.PromiscReq` | driver/tuntap/tun.c:777-840 | Promiscuous mode on and off: one flag of one stream, or a refusal |
| `TunDriver.Driver.SetPhysAddr` | driver/tuntap/tun.c:1125-1140 | The address of the stream's PPA is replaced, and nothing else; without a PPA a null pointer is followed |
| `TunSystem.SetMacTells` | driver/tuntap/tun.c:1134-1138 | From then on the streams on that PPA are told the new address, all others the old |
| `TunRuns.RunSlots` | driver/tuntap/tun.c:361-437 | In every run, slots in use are control streams plus leaks so far |
| `TunRuns.OwnedIff` | driver/tuntap/tun.c:313-328 | Each PPA has exactly one live control stream, whose queue it names, exactly when slots and control streams are equally many |
| `TunRuns.RunOwnership` | driver/tuntap/tun.c:425-428 | Ownership holds at a point of a run exactly if no TUNNEWPPA has leaked before it |
| `TunRuns.LeakExample` | driver/tuntap/tun.c:425-428 | A failed allocation leaves a PPA that nobody controls |
| `TunProtocol.RunArcs` | driver/tuntap/tun.c:618-775 | Along every run a stream changes DLPI state only by attach, bind, unbind and detach that were acknowledged, or by its control stream's close |
| `TunProtocol.RunBorn` | driver/tuntap/tun.c:287-297 | A stream appears only by an open, unattached, without PPA or flags |
| `TunProtocol.RunNoSysErr` | driver/tuntap/tun.c:711-714 | An unbound or idle stream always has a PPA, so bind never reports DL_SYSERR |
| `TunProtocol.RefusedIff` | driver/tuntap/tun.c:399-464 | A refused request changes nothing, except the TUNNEWPPA that has taken its slot |
| `TunProtocol.RoundTrip` | driver/tuntap/tun.c:618-775 | Attach, bind, unbind, detach bring the stream and every list back |
| `TunReplies.AttachAnswers` | driver/tuntap/tun.c:627-647 | Each answer to attach, exactly when |
| `TunReplies.DetachAnswers` | driver/tuntap/tun.c:667-675 | Each answer to detach, exactly when |
| `TunReplies.BindAnswers` | driver/tuntap/tun.c:701-752 | Each answer to bind, exactly when; the acknowledgement names the sap and the address of the PPA |
| `TunReplies.UnbindAnswers` | driver/tuntap/tun.c:761-774 | Each answer to unbind, exactly when |
| `TunReplies.PromiscAnswers` | driver/tuntap/tun.c:783-839 | Each answer to promiscuous mode on and off, exactly when |
| `TunReplies.OtherAnswers` | driver/tuntap/tun.c:842-875 | The answers to the other requests, in either build |
| `TunReplies.AnswersIff` | driver/tuntap/tun.c:501-545 | The reply with memory, an error message without, nothing for a lost address reply |
| `TunReplies.NewPpaAnswers` | driver/tuntap/tun.c:399-439 | Each answer to TUNNEWPPA, exactly when, with the number taken |
| `TunReplies.SetPpaAnswers` | driver/tuntap/tun.c:444-461 | Each answer to TUNSETPPA, exactly when |
| `TunReplies.IoctlAnswers` | driver/tuntap/tun.c:397-483 | Each ioctl; a new control stream, and no other, is sent the high water mark |
| `TunReplies.SelectedIsTold` | driver/tuntap/tun.c:466-473 | The PPA selected, attached to or made is the one told afterwards |
| `TunReplies.NewPpaMakes` | driver/tuntap/tun.c:415-437 | The new PPA has the caller's queue, no members and the local address; its stream has control |
| `TunReplies.BoundIsTold` | driver/tuntap/tun.c:726-773 | What was bound is told by the acknowledgement and by DL_INFO_REQ, until it is unbound |
| `TunReplies.PromiscChanges` | driver/tuntap/tun.c:787-803 | Each level is one flag of one stream |
| `TunReplies.PromiscOnCopies` | driver/tuntap/tun.c:1053-1054 | After promiscuous mode by address or sap, one copy of every frame besides what is addressed |
| `TunReplies.PromiscOffCopies` | driver/tuntap/tun.c:811-839 | After both are off, only what is addressed |
| `TunReplies.RawChanges` | driver/tuntap/tun.c:475-478 | Raw mode is one flag of one stream |
| `TunReplies.OpenAdds` | driver/tuntap/tun.c:284-297 | An open adds one stream with the minor found or given; a second open of a queue nothing |
| `TunProtocol.CloseControlExact` | driver/tuntap/tun.c:313-344 | Closing a control stream detaches exactly the streams on its PPA, empties the slot, leaves no stream on the freed PPA, changes nothing else |
| `TunProtocol.CloseOtherExact` | driver/tuntap/tun.c:330-344 | Closing any other stream removes that stream only, order kept |
| `TunProtocol.CloneLeast` | driver/tuntap/tun.c:276-282 | On a sorted list the scan returns the least minor that no live stream holds |
| `TunProtocol.RunSortedIff` | driver/tuntap/tun.c:274-297 | The list is strictly increasing by minor all along a run exactly if every first open that is not a clone open finds it empty or takes a minor below all others |
| `TunProtocol.RunLeastMinor` | driver/tuntap/tun.c:274-297 | As long as that is so, a clone open hands out the least minor not in use |
| `TunProtocol.PlainOpenSortedIff` | driver/tuntap/tun.c:284-294 | An open of a given minor keeps the list sorted exactly if the minor is below all others |
| `TunProtocol.DuplicateMinorExample` | driver/tuntap/tun.c:284-294 | A run in which, after two plain opens out of order, a clone open hands out a minor that is in use |
| `EtherFrame.EncapRoundTrip` | driver/tuntap/tun.c:994-1013 | Destination, source, payload and type all come back out of the frame built for them |
| `EtherFrame.LengthFrameIff` | driver/tuntap/tun.c:912-919 | With a sap of at most 1500 the frame reaches sap-0 streams exactly if the length stored fits |
| `EtherFrame.TypedFrameIff` | driver/tuntap/tun.c:1169-1223 | A typed frame reaches a stream exactly by sap, foreign source and own, broadcast or group destination |
| `EtherFrame.EligibleIff` | driver/tuntap/tun.c:1185-1222 | Which frames a stream receives, by the bytes of the frame |
| `TunFrames.ControlFrameCount` | driver/tuntap/tun.c:1053-1117 | How often one control frame reaches each queue, for all answers of flow control and allocation |
| `TunFrames.ProtocolFrameCount` | driver/tuntap/tun.c:1053-1087 | How often one protocol frame reaches each queue, for all answers |
| `TunFrames.TunExactCopies` | driver/tuntap/tun.c:1053-1113 | With room and memory: one copy for a sniffer plus one for a matching sap |
| `TunFrames.CopiesIff` | driver/tuntap/tun.c:1053-1113 | A copy is made exactly with room, a duplicate and, except for raw TAP streams, a block in front |
| `TunFrames.RequeuedIff` | driver/tuntap/tun.c:1071-1085 | A frame goes back on its queue exactly on the way to a full control queue, the first time |
| `TunFrames.IsolationIff` | driver/tuntap/tun.c:1045-1117 | Whatever a stream sends, only open streams of its PPA get it: exactly if it has no PPA, is a control stream, or its PPA names the queue of an open stream of that PPA |
| `TunSystem.RunIsolationIff` | driver/tuntap/tun.c:1045-1117 | At any point of a run all streams are isolated exactly if every PPA with protocol streams names the queue of an open stream on it |
| `TunSystem.RunIsolation` | driver/tuntap/tun.c:1045-1117 | In every run without a leak nothing is put on any queue, open or closed, but those of open streams of the sender's PPA |
| `TunSystem.StrayFrameExample` | driver/tuntap/tun.c:422-437 | A run in which a control stream has asked for a second PPA, and gets the frames of the first |
| `TunSystem.ClosedQueueExample` | driver/tuntap/tun.c:1071-1076 | A run in which frames are put on a queue that has been closed |
| `TunSystem.LeakStrayExample` | driver/tuntap/tun.c:422-428 | A run in which a failed allocation sends frames to a stream that is not on the PPA |
| `TunFrames.FrameContents` | driver/tuntap/tun.c:1061-1111 | Every copy is wrapped as its own stream asked; the frame itself goes last, to the control queue |
| `TunFrames.TunContents` | driver/tuntap/tun.c:1015-1111 | TUN: every copy carries the whole packet and is told its type by the IP version; raw streams get it behind a header |
| `TunFrames.TapContents` | driver/tuntap/tun.c:962-977 | TAP: a raw stream gets the frame as it is, any other its payload, both addresses and the type |
| `TunFrames.TapEndToEnd` | driver/tuntap/tun.c:934-985 | What a unitdata request says is what the indication tells: addresses, type or length, payload |
| `TunFrames.TunReachIff` | driver/tuntap/tun.c:1053-1113 | Which streams a control stream can reach in the TUN build: by PPA, sap and sniffer flags alone |
| `TunSystem.StaleSapExample` | driver/tuntap/tun.c:1095-1098 | A reachable state in which an unattached stream is sent frames for its old sap |
| `TunMessages.EachBlockOnce` | driver/tuntap/tun.c:501-516 | Balanced accounts mean that every block is gone or waiting exactly once |
| `TunMessages.SendReply` | driver/tuntap/tun.c:501-545 | One reply at most, the request reused or freed, an error message if told and possible |
| `TunRouting.SendCopy` | driver/tuntap/tun.c:1054-1069 | One duplicate: delivered, or freed with whatever was made for it |
| `TunRouting.SendToSniffers` | driver/tuntap/tun.c:1052-1069 | The sniffer loop makes exactly the specified puts along the linked list |
| `TunRouting.SendToProtocols` | driver/tuntap/tun.c:1090-1113 | The protocol loop makes exactly the specified puts along the linked list |
| `TunRouting.SendToControl` | driver/tuntap/tun.c:1071-1085 | The frame itself: put, queued again at the head, or freed |
| `TunRouting.TunFrame` | driver/tuntap/tun.c:1024-1118 | Routing one frame: puts, requeueing, and every block accounted for |
| `TunRouting.TunUnitdataReq` | driver/tuntap/tun.c:877-932 | Unitdata: refusal, lost header or routed frame, with every block accounted for |
| `TunRouting.UnitMessage` | driver/tuntap/tun.c:898-928 | The request is stripped off and a header put in front, or everything freed |
| `TunService.DlpiAct` | driver/tuntap/tun.c:1273-1331 | Dispatch of any request in either build: reply, state change, and exactly when it leaves unsound lists or follows a null pointer |
| `TunService.TunDlpi` | driver/tuntap/tun.c:1273-1331 | One queued request: exactly the answers, one at most, and every block accounted for, unless a null pointer is followed |
| `TunService.TunIoctl` | driver/tuntap/tun.c:388-484 | One ioctl: acknowledged in its own blocks, high water mark raised on success, state changed as specified |
| `TunService.FlushQueue` | driver/tuntap/tun.c:1367-1372 | Flushing frees each waiting message once |
| `TunService.Wput` | driver/tuntap/tun.c:1333-1385 | Every message put on the write side is put up, queued, answered or freed exactly once, with the exact effect of each kind |
| `TunService.Wsrv` | driver/tuntap/tun.c:1387-1411 | The service loop ends with an empty queue, each message handled once and in order, nothing put back, all blocks accounted for; or the first request is named that leaves unsound lists or follows a null pointer |
| `TunMessages.TrafficConserves` | driver/tuntap/tun.c:1333-1411 | In any mixture of messages put and queues served every block is gone or waiting exactly once, and none passes the router more than twice |
| `TunService.ServedReplyCount` | driver/tuntap/tun.c:1387-1411 | Each queued request is answered at most once, and once when memory is found |
| `TunSystem.ServedIsRun` | driver/tuntap/tun.c:1387-1411 | Serving a queue is a run of the driver's operations |
| `TunSystem.IoctlIsRun` | driver/tuntap/tun.c:388-484 | A disciplined ioctl is one more step of a run |
| `Packets.SplitConserves` | io_copy.go:14-55 | Packets and tail together are the stream |
| `Packets.SplitPieces` | errors.go:11-22 | Each piece is exactly one packet; the tail is none yet, or none at all |
| `Packets.SplitAppend` | io_copy.go:14-40 | Cutting what has arrived and later the rest equals cutting everything at once, at any boundary |
| `Packets.SplitFlatten` | io_copy.go:23-47 | Packets glued in front of anything are cut off again unchanged |
| `Packets.FramingOfHead` | errors.go:11-22 | A packet is framed alike in front of anything, and no proper prefix of it is framed |
| `Packets.IpLenContract` | errors.go:11-22 | Lengths as the two standards define them meet the contract that the framing relies on |
| `Packets.IpLenIff` | errors.go:11-22 | What is told of any bytes, by version, length fields and number |
| `Packets.IpWideIff` | io_copy.go:11 | For a buffer of 65535 bytes or more only a version 6 packet is too long, and exactly by its payload length |
| `IoCopy.Drain` | io_copy.go:22-47 | The retry loop: bytes taken, bytes kept, and what they come to for a packet device |
| `IoCopy.Copy` | io_copy.go:9-57 | Ends, with every byte accounted for, whatever the chunks and the writer; for a packet device the packets taken and the outcome are a function of the bytes alone |
| `IoCopy.ConservedIff` | io_copy.go:31-37 | What was taken, what is left and what was not read are the data exactly if no write turned down as too short took anything |
| `IoCopy.ResendExample` | io_copy.go:34-37 | A writer that takes some and calls it too short is sent bytes again |
| `IoCopy.WriteStep` | io_copy.go:22-46 | One write: what each answer does to what has been taken and what is left |
| `IoCopy.ChunksDoNotMatter` | io_copy.go:14-55 | Any two chunkings of the same bytes: same packets, same order, same outcome, same rest |
| `IoCopy.CopiedIsSplit` | io_copy.go:9-57 | That function is the splitter: all packets, only an incomplete tail lost; a stall exactly when something does not fit |
| `IoCopy.CopyEnds` | io_copy.go:49-54 | A stream that fits ends well at EOF, and otherwise with the error of the source or the fault of the stream |
| `IoCopy.StallExample` | io_copy.go:11-15 | One valid version 6 packet that is never delivered |
| `SolarisTun.TunDevice.ReadPacket` | tun_solaris.go:254-296 | Result, bytes read and new window for every case; nothing lost, exactly unless a failed read damages an overlapping window |
| `SolarisTun.ReadAll` | tun_solaris.go:254-296 | A run of calls hands out exactly what the calls of BlockedIff do, for the chunks that the file has brought |
| `SolarisTun.BlockedIff` | tun_solaris.go:254-296 | The packet at the front is never handed out, whatever the chunks and the caller's room, exactly if it is longer than the buffer |
| `SolarisTun.BlockedExample` | tun_solaris.go:258-283 | The longest version 6 packet is never handed out |
| `SolarisTun.DamageExample` | tun_solaris.go:258-263 | Two calls after which the window is no longer what was read |
| `SolarisTun.TunDevice.ReadMore` | tun_solaris.go:259-264 | The overlapping move and the read behind it: the new window, or the old one read through its old bounds |
| `SolarisTun.TunDevice.HandOut` | tun_solaris.go:271-294 | The head packet if complete and room enough, else the window unchanged |
| `SolarisTun.ShiftedIff` | tun_solaris.go:259-262 | The exact condition under which moving the bytes alters the old window |
| `SolarisTun.RefinesSplit` | tun_solaris.go:254-296 | Over any run the packets handed out and the window are the stream cut by the splitter |
| `RwBsd.TunDevice.Write` | rw_bsd.go:61-96 | The record written and the answer, for every case |
| `RwBsd.TunDevice.Read` | rw_bsd.go:17-59 | The packet read from a record, or why not; a record is used up either way |
| `RwBsd.RecordRoundTripIff` | rw_bsd.go:37-58 | A packet comes back from its record exactly if it has at most 65535 bytes |
| `RwBsd.DeviceIsTunLike` | rw_bsd.go:72-95 | To a caller with a 65535-byte buffer the device takes exactly the head packet |
| `RwBsd.WriteAll` | rw_bsd.go:61-96 | After any writes the file holds the records of what was taken, in order |
| `RwBsd.CopyThereAndBack` | rw_bsd.go:17-96 | After a stream has been copied into the device, the records in its file read back as the stream's packets in order: all of them, or those before a packet that stalls copying |
| `TunName.GetTunIndex` | tun_solaris.go:338-378 | The parser, with its loop, yields the specified number or error |
| `TunName.AcceptedIff` | tun_solaris.go:344-375 | Which names are accepted: short enough, the prefix, a digit at the end |
| `TunName.RefusedNameIff` | tun_solaris.go:340-375 | Each reason to turn a name down, exactly when |
| `TunName.NameRoundTrip` | tun_solaris.go:364-377 | Parsing a printed name gives the number back for every PPA |
| `TunName.PrintedIff` | tun_solaris.go:97 | An accepted name is the printed one exactly if it is the prefix and a plain number |
| `TunName.OtherNameExample` | tun_solaris.go:338-378 | Two accepted names that are reported as a third |
| `TunName.IndexFits` | tun_solaris.go:372-375 | The number always fits a 64-bit int, so conversion cannot overflow |
| `TunName.TunNewPPA` | tun_solaris.go:159-187 | The client's answer for each answer of the driver, through the linked structures |
| `TunName.OpenReportsName` | tun_solaris.go:92-97 | A successful open got the PPA asked for, or the least free one, and reports the requested name exactly if it is plain |
| `TunName.OpenFailsIff` | tun_solaris.go:174-186 | When opening fails: all slots taken, the slot taken, or a number no slot has |
| `TunName.WideNumberExample` | tun_solaris.go:167-184 | A number wider than 32 bits makes the driver take another PPA, and the client give up |
| `WintunShutdown.RunInv` | tun_windows.go:93-191 | In every interleaving the count is the number of calls in progress, one closer passes, and nobody uses the session once it may be ended |
| `WintunShutdown.EndOnceAndLast` | tun_windows.go:177-184 | session.End begins at most once; after that it returns and the adapter is closed, and no other session call begins or returns |
| `WintunShutdown.CloseEndsSession` | tun_windows.go:170-190 | A Close that has won and returned has set the event, ended the session and closed the adapter, each once |
| `WintunShutdown.LoserHasWinner` | tun_windows.go:172-174 | A Close is turned down only if there is another that is not |
| `WintunShutdown.PacketsAreBracketed` | tun_windows.go:103-160 | A call that has left has released what it received and sent what it allocated, one packet at most |
| `WintunShutdown.LeavesForReason` | tun_windows.go:99-167 | A call leaves an open tunnel without a packet only because a session call failed or the packet was malformed |
| `WintunShutdown.OpenCallGoesOn` | tun_windows.go:99-155 | With the tunnel open a reader goes on to the session, and a writer exactly if its packet is well formed |
| `WintunShutdown.NoDeadlock` | tun_windows.go:93-191 | Every unfinished thread can go on, except a closer that waits for a call in progress, and then such a call can |
| `WintunShutdown.NoUseDuringEnd` | tun_windows.go:98-160 | During and after End no thread is inside a session call, past the check that leads to one, or waiting for the session's event |
| `WintunShutdown.LateCallerLeaves` | tun_windows.go:95-101 | A call not past the check when the flag is set never uses the session |
| `WintunShutdown.AddWhileWaitingIff` | tun_windows.go:95-180 | A call can raise the count from zero while Close waits for it exactly if some thread closes and some thread reads or writes |
| `WintunShutdown.NoStartsNoAdds` | tun_windows.go:95-180 | From a point at which no thread is about to begin a call, none ever does that |
| `WintunShutdown.AddWhileWaitingExample` | tun_windows.go:95-180 | A run of one reader and one closer in which that happens |
| `WintunShutdown.OneCloser` | tun_windows.go:170-174 | Of any number of closers one gets past the flag |
| `LazyDll.RunInv` | wintun/dll.go:29-93 | In every interleaving the mutexes are held where the code says and each thread knows what it relies on |
| `LazyDll.SetOnce` | wintun/dll.go:48 | The module handle and each address change at most once, from zero |
| `LazyDll.NilMeansSet` | wintun/dll.go:29-50 | A nil return means that the value is set, then and ever after, and that the module is loaded |
| `LazyDll.CallIsAnswered` | wintun/dll.go:39-92 | A Load or Find whose system call worked can only return nil with that value, and one whose call failed only an error |
| `LazyDll.KnownIsAnswered` | wintun/dll.go:30-75 | What is loaded or found already is answered with nil and without a system call |
| `LazyDll.MutualExclusion` | wintun/dll.go:33-34 | No two threads are inside the same mutex |
| `LazyDll.NoDeadlock` | wintun/dll.go:67-93 | Behind every unfinished thread stands one that can go on, in every reachable state |

## Left out

- TunService.TunDlpi: what a write through a null pointer does to the system is not modelled; the address in DL_SET_PHYS_ADDR_REQ is taken to be in the message.
- Queue order: priority bands and the FIFO order of STREAMS queues; a frame put back goes to the head and new data passes by, so order is not kept.
- Deferred perimeter entry: an attach, detach or ioctl under qwriter is one step at the moment it is asked for.
- TunRouting.TunFrame: is stated for frames with the bytes the source reads; it reads past the end of a TAP frame shorter than an Ethernet header and of an empty TUN frame.
- TunService.Wput: likewise; and the blocks of a request other than unitdata are taken to hold the fields that it names unless it is short.
- DL_INFO_ACK: only state, sap and address are modelled, not the constant fields; in the TUN build the table's address is all zero.
- The shared static address in bind is written and read within one step.
- Local MAC address generation, module load, attach and detach, debug output, Makefile and configure.
- The flush at the close of a control stream is the list of queues flushed; those queues are not modelled together with the closing one.
- TunService.Wsrv: ends at the first request that leaves unsound lists or follows a null pointer, and names it; the lists may then run in circles, and the walks of later messages need not end.
- IoCopy.Copy: assumes that reads with room progress and repeat the end of the data, and that a write without error takes something; the endless loop of a stall is an outcome and not an infinite run.
- The integer type of `written`: counts are unbounded.
- RwBsd.TunDevice.Read: is stated for a file with a record waiting; the blocking wait before that is left out.
- RwBsd.CopyThereAndBack: the writes are made on the device after copying has determined them, which is the same since its answers do not depend on its file; the kernel between a record written and a record read is left out, as is locking between concurrent calls.
- Blocking reads, mutexes and the closed flag of the Solaris device around readPacket.
- TunName.TunNewPPA: the driver reads the low 32 bits of the client's int, as on little-endian machines; a big-endian machine would read the high half.
- WintunShutdown.RunInv: threads are program counters and shared fields, not Go objects; whether a waiting reader is ever woken is not stated, since it rests on the reset mode of an event outside the repository; memory of a packet after its release, and the panics by which sync.WaitGroup may answer its misuse, are not modelled.
- LazyDll.RunInv: threads are program counters; system calls return non-zero values on success, and the load callback is nil as in the package.
- Results of Read and Write on Windows: the length checks after the packet has been copied are straight-line, and only their session calls matter to the shutdown.
- IFNAMSIZ is 16, as in golang.org/x/sys/unix for Solaris, which is not part of this model.
- Device setup on all systems, ioctl wrappers, Destroy, mknod, vhost and offload: straight-line calls into systems and libraries that are not part of this model.
- tunDevice.Write on Windows as a sink for copying: it answers (0, nil) when the ring is full, which is no progress.
