# NavBench, modelled and proved in Dafny

NavBench is a fixed-memory navigation controller in C++ and a Python host that talk over a framed serial link. This
project models its five connected parts and proves what they promise, for every input and every run:

* **the link** (`Crc`, `CrcDivision`, `Cobs`, `Packets`, `Wire`, `Stream`, `Sequence`, `Queue`, `Stager`, `Transmit`, `Link`, `Drive`,
  `HostSend`): byte stuffing, checksum, packet layout, the incremental parser, sequence tracking, partial writes, and
  delivery end to end in both directions;
* **the session** (`Route`, `Assembly`, `Intake`, `Session`, `SessionSteps`, `SessionRuns`, `SessionEffects`,
  `SessionFrames`, `SessionRoutes`, `SessionReports`, `FirmwareSessions`, `SessionCore`, `FirmwareEffects`): packet handling, HELLO restarts, route reassembly, sample-step tracking, controller
  bundles, retransmission and the safety latch over everything sent;
* **the runtime** (`Scheduler`, `Modes`, `Runtime`, `Core`, `ControllerCore`, `CoreRuns`,
  `CoreEffects`): the periodic scheduler, the
  latching state machine with its timers, and copy-then-commit estimation;
* **the estimator** (`Reals`, `LinearAlgebra`, `Kalman`, `KalmanPair`, `Covariance`, `Ekf`, `EstimatorRuns`, `Motion`,
  `Singularities`, `Corrections`, `Landmarks`, `MatrixLoops`, `Estimator`, `Nis`): a six-state Kalman filter in exact real arithmetic, down to its nested loops;
* **guidance and control** (`Guidance`, `RouteFollowing`, `Control`, `Steering`): the lookahead walk, the final stop, the speed
  controller and the actuator limits.

Each part has a specification on plain values, theorems about it, and classes with the source's fields and loops whose
methods are proved to take exactly the specified steps. Counters, clocks and serials of 32 bits are words modulo 2^32, tied
to unbounded ghost integers. Floats on the wire are 32-bit words with an exact finiteness test; estimation and control
work on reals, with the trigonometric functions and the square root as parameters (`Reals.Trig`). Where a theorem needs
something of them it says so: that the square root of a positive number is positive, or that it is exact; and, where
directions matter, that sine and cosine repeat after a turn (`Reals.Periodic`), that sine and cosine of a difference are the
usual ones (`Reals.Subtracts`), and that atan2 gives the direction of a vector (`Reals.Directs`).

The session meets the controller core through a record of operations (`Session.Plant`) with laws (`Session.Lawful`);
`SessionCore.CoreIsLawful` shows that the real core obeys them, and `SessionCore.FirmwareRunsSafely` draws the conclusion
for the firmware as a whole. The session's payload codecs enter the same way (`Session.Codecs`), apart from ROUTE_CHUNK,
which is modelled in full.

## What the proofs found

* Host and firmware decoders accept the same frames, but name the error differently for an overlong frame with a stray
  zero and for an intact packet whose type and length are both wrong (`Packets.HostAgreesWithFirmware`).
* A stuffed block sequence that ends in a full 254-byte block without the closing code byte decodes, but is not an encoding
  (`Cobs.EncodeDecode`). It cannot occur in frames, which are too short.
* The host can send looped routes; the firmware refuses every chunk of one (`Assembly.LoopRouteRefused`).
* Two kinds of refused chunk change the assembler all the same: one that clears it without starting at waypoint 0, so that a
  later chunk without the clear flag can continue its route, and a final one that leaves the route short, whose points a
  later chunk can complete (`Assembly.RefusalMarks`, with inputs in `Assembly.RefusedYetKept`).
* The 2x2 inversion of a position fix can meet a determinant that is too small under a valid configuration: a fix right after
  an initialization fails if (gnss_x_variance + covariance_floor) * (gnss_y_variance + covariance_floor) is at most 1e-12
  (`Singularities.FixFails`). It is regular on every healthy covariance exactly if gnss_x_variance * gnss_y_variance +
  covariance_floor * (gnss_x_variance + gnss_y_variance) exceeds 1e-12 (`Singularities.FixRegularExactly`), and then on every
  run; whether a run reaches it in the gap of covariance_floor squared between the two is not decided here. For landmarks the
  condition is that landmark_range_variance * landmark_bearing_variance exceeds 1e-12 (`Singularities.SightRegularExactly`, for
  configurations whose floor leaves room for the worst covariance below the maximum). The default configuration meets both (`Singularities.DefaultsRegular`). The negative-innovation check after the inversion is
  unreachable (`Ekf.NisNonnegative`), and so is the innovation-variance check of scalar updates.
* The lookahead walk treats a segment of positive length up to 1e-6 as passed without its length having been used up; the
  target can then lie before the next segment, off the polyline (`Guidance.ShortSegmentUndershoots`). The walk is exact
  from everywhere exactly on routes without such segments (`Guidance.ExactOnRegularRoutes`).
* A tick does not step the core at most once per millisecond: it steps it twice exactly if it is due and its bundle does not
  fit the transmit queue (`SessionEffects.TickSteps`). Seven unreadable frames after a HELLO are enough
  (`SessionEffects.SevenBadFramesStepTwice`).
* The clamp of the first lookahead segment at src/control.cpp:138-140 is unreachable and is not in the model.

## Model

| member | source | states |
|---|---|---|
| `Crc.Crc16Ccitt` | src/protocol.cpp:303-317 | the register after any message is the fold of the byte step from 0xffff |
| `Crc.BitStepInjective` | src/protocol.cpp:309-313 | one shift of the register never merges two states |
| `Crc.TwoBytesInjective` | src/protocol.cpp:307-315 | from one state, two different byte pairs always lead to different states |
| `Crc.FoldSuffixInjective` | src/protocol.cpp:307-315 | a common suffix never makes two different registers equal again |
| `Crc.AdjacentByteErrorsDetected` | src/protocol.cpp:303-317 | messages of any length that differ only inside two adjacent bytes have different checksums |
| `CrcDivision.GeneratorPowers` | src/protocol.cpp:303-317 | the generator is x^16 + x^12 + x^5 + 1 |
| `CrcDivision.CrcIsRemainder` | src/protocol.cpp:303-317 | the checksum of any message is its remainder modulo the generator: the message followed by sixteen zero bits, with sixteen ones added to its front, less a multiple of the generator, of degree below sixteen |
| `Cobs.EncodeLength` | src/protocol.cpp:319-364 | the encoding has length n + 1 + the number of completed 254-byte blocks |
| `Cobs.EncodeZeroFree` | src/protocol.cpp:319-364 | an encoding contains no zero byte |
| `Cobs.DecodeEncode` | src/protocol.cpp:366-404 | decoding an encoding gives the data back, for every byte string |
| `Cobs.EncodeDecode` | src/protocol.cpp:366-404 | whatever decodes is the encoding of its result, unless it ends in a full block without the closing one |
| `Cobs.FullBlockIsNoEncoding` | src/protocol.cpp:366-404 | such a code word: 254 bytes in one full block decode, and their encoding is one byte longer |
| `Cobs.CobsEncode` | src/protocol.cpp:319-364 | the in-place loop writes the encoding exactly when it fits the capacity, and fails otherwise |
| `Cobs.CobsDecode` | src/protocol.cpp:366-404 | the in-place loop decodes exactly the well-formed input that fits, and tells malformed from too long |
| `Packets.DecodeRawExact` | src/protocol.cpp:475-522 | a raw packet is accepted as p exactly if p is valid and the bytes are its layout, checksum included |
| `Packets.EncodedShort` | src/protocol.cpp:406-451 | a raw packet of at most 142 bytes needs exactly one byte of stuffing, so no wire buffer overflows |
| `Packets.FramingBijection` | src/protocol.cpp:453-522 | a frame decodes to p exactly if p is valid and the frame is its encoding, with or without the trailing zero |
| `Packets.HostAgreesWithFirmware` | host/src/navbench/protocol.py:477-536 | host and firmware accept the same frames with the same packets; the error class differs in exactly two families of frames |
| `Packets.OverlongDiffers` | host/src/navbench/protocol.py:477-536 | a frame of the first family: too long, with a stray zero |
| `Packets.BadHeaderDiffers` | host/src/navbench/protocol.py:477-536 | every header with a wrong type and a wrong length gives an intact frame of the second family |
| `Packets.CorruptBodyRejected` | src/protocol.cpp:484-491 | damage inside two adjacent bytes of header or payload is always refused as a checksum mismatch |
| `Packets.RawLayout` | src/protocol.cpp:406-451 | every byte of a raw packet at its place: magic, version, type, the little-endian header fields, the payload and the checksum |
| `Packets.BufferedFrameErrors` | src/protocol.cpp:453-522 | a buffered frame can only fail with one of the errors that have a counter |
| `Wire.Writer.PutBytes` | src/protocol.cpp:39-123 | a write happens whole or sets the sticky error and moves nothing |
| `Wire.Reader.GetU32` | src/protocol.cpp:125-193 | a read takes four little-endian bytes, or sets the sticky error and yields zero |
| `Wire.EncodePacket` | src/protocol.cpp:406-451 | writes the frame of a valid packet exactly when it fits, with the error for each other case |
| `Wire.DecodePacket` | src/protocol.cpp:453-522 | is the decoder of the specification on every byte string |
| `Stream.ReadIsBatch` | src/protocol.cpp:1113-1169 | reading byte by byte reports what cutting the whole stream at its zeros reports |
| `Stream.SegmentErrors` | src/protocol.cpp:1088-1111 | no buffered segment is ever counted as an unclassified error |
| `Stream.FramesConserved` | src/protocol.cpp:1113-1169 | over any stream the buffered frames are the accepted ones plus the five error classes, and the unclassified counter stays zero |
| `Stream.StreamParser.Feed` | src/protocol.cpp:1113-1169 | for any chunking, reports, buffer and counters are those of the batch reading of all bytes so far |
| `Stream.StreamParser.FeedByte` | host/src/navbench/protocol.py:1156-1197 | one byte adds exactly the report the batch reading adds |
| `Stream.StreamParser.Reset` | src/protocol.cpp:1080-1086 | the stream restarts, with the counters cleared or kept |
| `Stream.StreamParser.Finish` | src/protocol.cpp:1171-1182 | an open segment is reported truncated and dropped, a clean end is not reported |
| `Sequence.JudgeKeepsAccount` | src/protocol.cpp:1213-1263 | accepted serials strictly increase, accepted plus missing span them, steps never go back, and a rejected packet changes nothing |
| `Sequence.JudgeRecoversSerial` | host/src/navbench/protocol.py:1272-1310 | while true serials move forward by less than 2^31 the tracker recovers them and reports the exact gap |
| `Sequence.ForwardRunAccepted` | host/src/navbench/protocol.py:1272-1310 | over any such run every packet is First, InOrder or Gap and accepted plus missing is the span |
| `Sequence.JudgeBackwards` | src/protocol.cpp:1213-1263 | on the unbounded serial, a packet that is not newer is told apart exactly: repeated, within the window, or stale; it changes nothing |
| `Sequence.JudgeBoundStep` | src/protocol.cpp:1213-1263 | a newer packet bound to a step is accepted exactly if the step does not go back on the unbounded step count |
| `Sequence.SequenceTracker.Observe` | src/protocol.cpp:1205-1263 | the 32-bit fields and saturating counters are the image of the unbounded account |
| `Sequence.SequenceTracker.Reset` | src/protocol.cpp:1195-1203 | the sequence space starts over; the counters are cleared or go on from what they show |
| `Queue.FixedQueue.Push` | include/navbench/math.hpp:71-80 | appends to the ring, or refuses when full and counts the overflow |
| `Queue.FixedQueue.Pop` | include/navbench/math.hpp:82-90 | removes the oldest element, or nothing |
| `Queue.FixedQueue.Peek` | include/navbench/math.hpp:92-98 | shows the oldest element without removing it |
| `Stager.SerialTxStager.CommitFrame` | src/serial_io.cpp:26-33 | stages a frame only when idle and only if it fits |
| `Stager.SerialTxStager.NextWriteSize` | src/serial_io.cpp:35-40 | never offers more than remains or than the maximum |
| `Stager.SerialTxStager.AcknowledgeWrite` | src/serial_io.cpp:42-57 | the wire gains exactly the next written bytes, a frame completes exactly at its last byte, and impossible results move nothing |
| `Transmit.TxPath.Emit` | src/firmware_session.cpp:713-736 | queues the frame of the packet with the next serial; a full queue loses all older frames |
| `Transmit.TxPath.Enqueue` | src/firmware_session.cpp:738-750 | the push, the loss of the backlog and the counters, with every frame enqueued popped, dropped or pending |
| `Transmit.TxPath.Reserve` | src/firmware_session.cpp:573-581 | room for a whole bundle, by dropping the backlog if need be |
| `Transmit.TxPath.Restart` | src/firmware_session.cpp:351-354 | empties the queue into the dropped count and restarts the numbers |
| `Transmit.TxPath.PopFrame` | src/firmware_session.cpp:752-769 | moves the oldest frame out whole, or leaves everything as it was |
| `Transmit.EmitPayload` | src/firmware_session.cpp:713-736 | queues exactly the wire frame of the next packet |
| `Link.ParserReadsFrames` | host/src/navbench/protocol.py:1156-1197 | from any prefix of the wire a parser has reported exactly the complete frames, in order, and no error |
| `Link.RunConsistent` | src/firmware_session.cpp:713-769 | on every run the queue is numbered consecutively and the wire is what left it, in order |
| `Link.DeliversExactlyWhatWasSent` | src/serial_io.cpp:26-57 | for any interleaving of sends, overflows, pops, partial writes and reads the host gets exactly the frames fully written, in order |
| `Link.TrackerSeesForwardRun` | host/src/navbench/protocol.py:1272-1310 | a tracker at the far end accepts every delivered packet, with missing equal to span minus count |
| `Drive.Stage` | src/main.cpp:133-145 | an idle stager takes the oldest frame of the queue, as the downlink does |
| `Drive.Write` | src/main.cpp:150-177 | the port takes staged bytes, as the downlink does |
| `Drive.Run` | src/serial_io.cpp:26-57 | whatever sequence of steps drives a fresh queue, stager and parser, the reports of the parser are exactly the frames taken and completely read, in order |
| `HostSend.HostSession.Start` | host/src/navbench/session.py:186-206 | a new connection reads and numbers from zero and its HELLO is all that is sent |
| `HostSend.HostSession.Send` | host/src/navbench/session.py:359-385 | too long for the peer, no room in the buffer, or numbered, buffered whole and drained; a refused packet changes nothing |
| `HostSend.HostSession.Flush` | host/src/navbench/session.py:387-401 | hands over what the transport takes, answer by answer, and stops on an empty buffer, a zero, a failure or a bad count |
| `HostSend.DrainKeeps` | host/src/navbench/session.py:387-401 | taken and waiting bytes are together what waited before |
| `HostSend.DrainFinishes` | host/src/navbench/session.py:387-401 | a transport that takes something each time gets everything |
| `HostSend.UplinkDelivers` | host/src/navbench/session.py:359-401 | the firmware parser reports exactly the packets whose frames were completely taken, in order, and no error |
| `Route.ChunkBijection` | src/protocol.cpp:678-743 | a payload decodes to a chunk exactly if the chunk is valid and the payload is its encoding |
| `Route.ChunkLayout` | src/protocol.cpp:678-703 | every byte of the payload at its place: the eight of the header, then sixteen for each point |
| `Route.PointLayout` | src/protocol.cpp:678-703 | the four little-endian words of a point |
| `Route.EncodeChunk` | src/protocol.cpp:678-703 | writes the encoding of a valid chunk, with the error for each other case |
| `Route.ParseChunk` | src/protocol.cpp:705-743 | is the decoder of the specification on every payload |
| `Assembly.SendRoute` | host/src/navbench/session.py:238-279 | the chunks of a route under the negotiated limit, or why there are none |
| `Assembly.RouteAssembler.HandleRoute` | src/firmware_session.cpp:369-412 | the registers and the outcome are those of the specification, inside the 32-entry buffer |
| `Assembly.AssembleFits` | src/firmware_session.cpp:369-412 | received never exceeds expected, nor expected 32; only a complete route reaches the controller |
| `Assembly.RouteRoundTrip` | host/src/navbench/session.py:238-279 | from any assembler state, the chunks of an acceptable route make exactly that route active, and only the last one does |
| `Assembly.LoopRouteRefused` | src/firmware_session.cpp:373-381 | a looped route, which the host can send, is refused chunk by chunk and changes nothing |
| `Assembly.CollectedIsKept` | src/firmware_session.cpp:383-405 | on every run the collected waypoints are the chunks taken since the last clear flag, consecutive pieces of one route |
| `Assembly.RefusalMarks` | src/firmware_session.cpp:383-411 | a refused chunk changes the assembler exactly if it clears it without starting at 0, or ends an incomplete route; and to what |
| `Assembly.RefusedYetKept` | src/firmware_session.cpp:383-411 | one input of each kind, and a later chunk that builds on what stayed |
| `Scheduler.GridCountsPeriods` | src/runtime.cpp:86-104 | due plus missed releases count the whole periods since the reset |
| `Scheduler.ReleaseKeepsGrid` | src/runtime.cpp:94-102 | after a release the next one is the first grid point past the poll |
| `Scheduler.CooperativeScheduler.Reset` | src/runtime.cpp:78-84 | every task starts one period after the reset with an empty account |
| `Scheduler.CooperativeScheduler.Poll` | src/runtime.cpp:86-104 | every task stays on its grid on the wrapping clock, is due at most once per poll, and loses no release |
| `Runtime.NextStateNeverFalls` | src/runtime.cpp:267-318 | a tick never moves the state back; a stop or fault stays; moving needs health, a host and no watchdog expiry |
| `Runtime.TimersExact` | src/runtime.cpp:271-315 | the wrapping timers measure the true ages while ticks are close enough |
| `Runtime.TickConsistent` | src/runtime.cpp:267-318 | the account of inputs and outages holds after every tick |
| `Runtime.PermitNeedsLiveHost` | src/runtime.cpp:320-341 | control is permitted only with a host seen and heard within the timeout, a healthy estimator, navigation and a route; the age bound needs ticks often enough since the last input only |
| `Runtime.PermittedExactly` | src/runtime.cpp:267-341 | after a tick control is permitted, forced to stop, or neutral, each exactly when the source says so |
| `Runtime.StoppedExactly` | src/runtime.cpp:267-318 | a tick faults exactly a moving vehicle without a healthy estimator, and stops exactly one whose host is late or that moves and has been without navigation for the grace period |
| `Runtime.RunConsistent` | src/runtime.cpp:169-318 | on every run of ticks, inputs, handshakes, self tests, stops and faults the registers agree with the account, and the state never moves back |
| `Runtime.StaysStill` | src/runtime.cpp:289-317 | without navigation no run starts to move |
| `Runtime.OutageStops` | src/runtime.cpp:289-317 | on every such run in which each tick finds navigation unavailable, after a tick at least the grace period into the outage the vehicle is out of Running and Degraded, however live the host |
| `Runtime.LatchedForever` | src/runtime.cpp:267-318 | no run leaves a stop or a fault |
| `Runtime.RuntimeCore.Begin` | src/runtime.cpp:169-178 | the state machine starts over |
| `Runtime.RuntimeCore.StartSelfTest` | src/runtime.cpp:189-195 | only from Startup |
| `Runtime.RuntimeCore.CompleteSelfTest` | src/runtime.cpp:197-203 | only from SelfTest, to Ready or Fault |
| `Runtime.RuntimeCore.NotifyHandshake` | src/runtime.cpp:205-211 | registers and account are those of a heard host: it counts only between Ready and a stop |
| `Runtime.RuntimeCore.AcceptInput` | src/runtime.cpp:213-220 | as a handshake, and counted |
| `Runtime.RuntimeCore.RecordQueueOverflow` | src/runtime.cpp:247-253 | from the configured number of overflows on the machine is stopped for good |
| `Runtime.RuntimeCore.RequestSafeStop` | src/runtime.cpp:255-260 | stops the machine and never hides a fault |
| `Runtime.RuntimeCore.ReportNumericalFault` | src/runtime.cpp:262-265 | always faults |
| `Runtime.RuntimeCore.Tick` | src/runtime.cpp:267-341 | registers, account and decision are those of the specification |
| `LinearAlgebra.CongruenceKeepsPsd` | src/ekf.cpp:328-350 | F P F' is positive semidefinite when P is |
| `Kalman.JosephIsPosterior` | src/ekf.cpp:434-466 | the Joseph loops of a scalar update compute P - g g' / s |
| `Kalman.PosteriorQuad` | src/ekf.cpp:434-466 | along every vector the posterior variance is the prior less the square of what was seen over s |
| `Kalman.PosteriorPsd` | src/ekf.cpp:434-466 | the posterior is positive semidefinite |
| `KalmanPair.CauchySchwarz` | src/ekf.cpp:502-512 | the cross term of two measured directions is bounded by their variances |
| `KalmanPair.DeterminantBound` | src/ekf.cpp:502-517 | the determinant is at least r0 r1 plus what each measured variance adds |
| `KalmanPair.PairJosephIs` | src/ekf.cpp:556-596 | the Joseph loops of a paired update compute P - G S^-1 G' |
| `KalmanPair.PairQuad` | src/ekf.cpp:556-596 | along every vector a paired update does not raise the variance |
| `KalmanPair.PairJosephPsd` | src/ekf.cpp:556-596 | the Joseph sum is positive semidefinite for any gains |
| `Covariance.EnforcedHealthy` | src/ekf.cpp:774-804 | on a positive semidefinite matrix the health pass fails only above the maximum, and else leaves a symmetric, floored, positive semidefinite one |
| `Covariance.LoweredFits` | src/ekf.cpp:774-804 | an update that lowers every variance of a healthy covariance never trips the maximum |
| `MatrixLoops.TimesVector` | src/ekf.cpp:398-403 | the loop computes P h |
| `MatrixLoops.Transform` | src/ekf.cpp:328-350 | the two nested loops compute F P F' |
| `MatrixLoops.JosephUpdate` | src/ekf.cpp:434-466 | the loops store the Joseph sum of one measurement |
| `MatrixLoops.PairJosephUpdate` | src/ekf.cpp:556-596 | the loops store the Joseph sum of two measurements |
| `MatrixLoops.EnforceHealth` | src/ekf.cpp:780-803 | the in-place pass succeeds exactly if the diagonal fits and then leaves the symmetrised, floored matrix |
| `MatrixLoops.InvertSymmetric` | include/navbench/math.hpp:45-64 | refuses a determinant at or below the minimum, and otherwise gives the inverse: the product is the identity |
| `Ekf.ScalarStepExact` | src/ekf.cpp:391-475 | on a sound filter the innovation variance is at least r; a measurement is used exactly if it passes the gate and keeps the state in bounds; a gated one changes nothing; the filter stays sound |
| `Ekf.NisNonnegative` | src/ekf.cpp:518-528 | the paired innovation is never negative, so that check is unreachable |
| `Ekf.PairStepExact` | src/ekf.cpp:477-605 | the determinant bound, and then as for one measurement; the update is singular exactly at or below the minimum determinant |
| `Ekf.PropagatedSound` | src/ekf.cpp:320-365 | prediction keeps the covariance positive semidefinite and fails exactly on an unbounded state or a variance past the maximum |
| `Motion.MovesUniformly` | src/ekf.cpp:258-301 | a prediction changes the speed by the interval times acceleration less bias, the position by the mean of old and new speed times the interval along the heading, the heading by the yaw rate up to whole turns; an acceleration equal to the bias leaves the speed |
| `Motion.PredictsInParts` | src/ekf.cpp:258-301 | without turning, predicting one interval and then another is predicting their sum |
| `Motion.PredictMoves` | src/ekf.cpp:303-389 | a prediction call is this motion, and then the measured yaw rate pulls at it unless it is gated |
| `Ekf.InitializeSound` | src/ekf.cpp:191-232 | initialisation succeeds exactly on admissible values and leaves exactly them, floored, in a sound and healthy filter |
| `EstimatorRuns.WheelKeeps` | src/ekf.cpp:607-638 | the filter stays sound; invalid and gated samples change nothing; use means healthy |
| `EstimatorRuns.GnssKeeps` | src/ekf.cpp:640-676 | as for the wheel |
| `EstimatorRuns.LandmarkKeeps` | src/ekf.cpp:709-758 | as for the wheel, for any landmark geometry |
| `EstimatorRuns.PredictKeeps` | src/ekf.cpp:303-389 | the filter stays sound; a gated yaw rate still leaves a healthy prediction |
| `EstimatorRuns.RunStaysSound` | src/ekf.cpp:303-804 | on every run the covariance is symmetric and positive semidefinite with its diagonal between floor and maximum, and the state in bounds |
| `EstimatorRuns.RunStaysBounded` | src/ekf.cpp:303-804 | the same in numbers: every component of the state and every variance of every run keeps its configured bound |
| `EstimatorRuns.NothingUnready` | src/ekf.cpp:607-758 | a filter that is not initialized or not healthy refuses every sample and stays as it is |
| `EstimatorRuns.ImplausibleRefused` | src/ekf.cpp:303-758 | a ready filter finds a call invalid exactly if one of its values is out of the limits or the landmark within the least range |
| `Singularities.FixRegularExactly` | src/ekf.cpp:514-517 | a position fix is singular on no healthy covariance exactly if the variances and the floor keep r0 r1 + floor (r0 + r1) above the minimum |
| `Singularities.FixNeverSingular` | src/ekf.cpp:514-517 | then on every run no fix fails on its inversion |
| `Singularities.FixFails` | src/ekf.cpp:514-517 | if (r0 + floor) (r1 + floor) is not above the minimum, an initialization at the floor and a perfect fix end in a numerical failure |
| `Singularities.WeakConfigExists` | src/ekf.cpp:122-160 | such a configuration is valid |
| `Singularities.SightRegularExactly` | src/ekf.cpp:678-707 | if floor times the square of the larger of 1 and the minimum range is within the maximum covariance: a landmark is singular on no healthy covariance exactly if the product of its two variances is above the minimum; the floor does not help |
| `Singularities.SightNeverSingular` | src/ekf.cpp:709-758 | then on every run no landmark fails on its inversion |
| `Singularities.DefaultsRegular` | src/ekf.cpp:70-116 | with the default configuration neither ever happens |
| `EstimatorRuns.JacobianExact` | src/ekf.cpp:258-301 | for one heading the Jacobian is the exact rate of change of the prediction |
| `EstimatorRuns.HeadingRowExact` | src/ekf.cpp:258-301 | the heading is predicted exactly by its row, up to whole turns, for all states |
| `EstimatorRuns.HeadingColumnBound` | src/ekf.cpp:258-301 | for states that differ in heading the position error of the Jacobian is at most the distance travelled times that of the first-order cosine and sine |
| `Estimator.Ekf6.EnforceCovarianceHealth` | src/ekf.cpp:774-804 | the health flag, the result and the covariance are those of the specification |
| `Estimator.Ekf6.Adopt` | src/ekf.cpp:353-365 | a state and covariance are taken over together or both put back |
| `Estimator.Ekf6.ScalarUpdate` | src/ekf.cpp:391-475 | the loops take the scalar step of the specification |
| `Estimator.Ekf6.PairUpdate` | src/ekf.cpp:477-605 | the loops take the paired step of the specification |
| `Estimator.Ekf6.Initialize` | src/ekf.cpp:191-232 | as specified, and never left unhealthy on success |
| `Estimator.Ekf6.Predict` | src/ekf.cpp:303-389 | propagation and yaw correction as specified |
| `Estimator.Ekf6.UpdateWheel` | src/ekf.cpp:607-638 | as specified |
| `Estimator.Ekf6.UpdateGnss` | src/ekf.cpp:640-676 | as specified |
| `Estimator.Ekf6.UpdateLandmark` | src/ekf.cpp:709-758 | as specified |
| `Estimator.Ekf6.SetConfig` | src/ekf.cpp:162-169 | an invalid configuration changes nothing, a valid one starts over |
| `EstimatorRuns.FreshIsRecent` | include/navbench/math.hpp:41-43 | on the unbounded clock a sensor is fresh exactly if it is at most the timeout old |
| `EstimatorRuns.NavigationNeedsSensor` | src/ekf.cpp:806-829 | navigation exactly with a usable filter and a fresh sensor; an aided mode exactly with a fresh absolute one |
| `EstimatorRuns.NavigationOrder` | src/ekf.cpp:806-830 | which mode it is, exactly: the best one of which a sensor is fresh |
| `Ekf.PredictedQuad` | src/ekf.cpp:328-350 | the predicted variance along any vector is the prior one carried through the Jacobian plus the process noise of the step |
| `Corrections.DirectCorrection` | src/ekf.cpp:391-475 | an accepted direct measurement shrinks gap and variance by r / (p + r), the variance down to the floor |
| `Corrections.WheelPulls` | src/ekf.cpp:607-638 | so an accepted wheel speed pulls the estimate towards it and never past it |
| `Corrections.YawRatePulls` | src/ekf.cpp:371-389 | and so does the measured yaw rate of a prediction |
| `Corrections.FixPulls` | src/ekf.cpp:640-676 | after an accepted fix the gap in each coordinate is its variance times the weighted innovation |
| `Corrections.SightRows` | src/ekf.cpp:678-707 | the landmark rows are orthogonal, of length one and one over the range; turning turns the bearing the other way |
| `Corrections.WheelGated` | src/ekf.cpp:391-420 | a plausible wheel speed is gated exactly if the squared gap exceeds the gate times the sum of both variances |
| `Corrections.FixGated` | src/ekf.cpp:514-535 | a plausible fix with a regular innovation is gated exactly if its statistic exceeds the gate |
| `Landmarks.PairPulls` | src/ekf.cpp:477-605 | after an accepted pair, what each row lacks of its innovation is its measurement variance times the weighted innovation |
| `Landmarks.SightPoints` | src/ekf.cpp:678-707 | predicted bearing plus heading points from the vehicle to the landmark: distance times its cosine and sine are the coordinate differences |
| `Landmarks.LandmarkPulls` | src/ekf.cpp:709-758 | the innovations are measured range less distance and measured bearing less the direction to the landmark from the heading; after an accepted landmark what each row lacks of its own is its measurement variance times the weighted innovation |
| `Landmarks.RangeRowExact` | src/ekf.cpp:701-702 | the range row is the exact first-order part of the squared distance |
| `Landmarks.BearingRowExact` | src/ekf.cpp:703-705 | the bearing row is, exactly, the scaled sine of the change of bearing between two positions |
| `Nis.FiguresConsistent` | src/ekf.cpp:39-47 | the figures of an epoch always pass the consistency test |
| `Nis.LargestIsMaximum` | src/ekf.cpp:63-66 | the maximum is attained and bounds every sample of the epoch |
| `Nis.NisAccumulator.Record` | src/ekf.cpp:34-68 | refuses a negative sample; else the figures are those of the epoch, which restarts when the count is full; inconsistent figures start a new one |
| `Reals.NormalizeTurns` | include/navbench/math.hpp:30-39 | the result is in [-pi, pi) and whole turns away from the angle |
| `Guidance.StartIsClosest` | src/control.cpp:142-157 | the walk starts at the point of the segment closest to the vehicle |
| `Guidance.WalkArc` | src/control.cpp:159-174 | on every route the target has exactly the arc length asked for, on the line of its segment |
| `Guidance.WalkExact` | src/control.cpp:159-178 | on a regular route it lies on the polyline, or is the final waypoint exactly if less remains |
| `Guidance.ExactOnRegularRoutes` | src/control.cpp:124-178 | the walk is exact from every pose with every lookahead exactly on the routes whose segments are points or longer than the threshold |
| `Guidance.ShortSegmentUndershoots` | src/control.cpp:167-173 | a concrete route with a shorter segment puts the target off the polyline |
| `RouteFollowing.ApproachBounds` | src/control.cpp:216-230 | the approach speed is in range, zero inside the final radius, and can be braked to rest within the distance left |
| `RouteFollowing.ApproachIsLeast` | src/control.cpp:206-230 | outside the final radius the approach speed is the least of three: that of the leg, the one from which the vehicle just brakes to rest in the distance left, and the linear share |
| `RouteFollowing.StepLeads` | src/control.cpp:180-243 | a target is led to by the first waypoint not reached; complete exactly at rest at the last one; until the stop its speed is that of the waypoint and the target lies the lookahead ahead on the route |
| `RouteFollowing.StepKeeps` | src/control.cpp:180-243 | one update never goes back on the route or unlatches the stop, keeps the speed in range, and stops at the final waypoint once latched |
| `RouteFollowing.FollowKeeps` | src/control.cpp:180-243 | along any run of poses progress is monotone, and after the latch every update gives speed zero at the final waypoint |
| `RouteFollowing.RouteManager.SetRoute` | src/control.cpp:83-105 | takes over a route exactly if it is valid; a refused one changes nothing |
| `RouteFollowing.RouteManager.ComputeLookaheadTarget` | src/control.cpp:124-178 | the loop finds the target of the walk |
| `RouteFollowing.RouteManager.AdvanceWaypoint` | src/control.cpp:186-192 | skips exactly the waypoints within their acceptance radius |
| `RouteFollowing.RouteManager.Update` | src/control.cpp:180-243 | progress and latch are those of the specification |
| `Control.PiKeeps` | src/control.cpp:265-291 | output and integral keep their limits and the integral is never wound further into a saturated command |
| `Steering.IntegralMoves` | src/control.cpp:265-291 | the integral moves by the error times the interval or to its limit; it stands still only without an error, at its limit, or if moving asks for more than the actuator gives in the direction of the error |
| `Control.SpeedPiController.Step` | src/control.cpp:265-291 | output and integral are those of the specification |
| `Control.ControlKeeps` | src/control.cpp:353-412 | every command keeps the actuator limits and the steering rate; a safe stop commands zero steering and speed and never accelerates |
| `Steering.PursuitCircles` | src/control.cpp:383-396 | the wished angle drives the circle through the target: squared distance times its tangent is twice the wheelbase times the cross product of heading and target direction, and it has the sign of that product |
| `Steering.TrackingSteers` | src/control.cpp:353-412 | a tracking command turns the wheels from the previous angle towards that wished angle for the target ahead, and all the way unless range or rate stop it |
| `Steering.TrackingDrives` | src/control.cpp:353-412 | speed, acceleration and memory of a step that is not forced to stop, with and without a route, under way and at its end |
| `Steering.StopBrakes` | src/control.cpp:337-351 | a forced stop brakes with all there is against the motion until the vehicle is slower than the tolerance, and clears the memory |
| `Control.ControlSystem.SetRoute` | src/control.cpp:309-313 | the controller memory is cleared even if the route is refused |
| `Control.ControlSystem.Step` | src/control.cpp:353-412 | command and state are those of the specification |
| `Core.CommitsAreWhole` | src/runtime.cpp:398-473 | a frame takes effect whole or not at all, exactly if no update in it is invalid or fails numerically; a committed estimator is sound and healthy |
| `CoreEffects.CommittedTakesAll` | src/runtime.cpp:414-462 | a committed frame leaves in an initialized estimator every sample of it, in order: inertial, wheel speed, fix, landmarks |
| `CoreEffects.FirstFixInitializes` | src/runtime.cpp:411-423 | the first fix initializes the copy at the fix, heading along x, with the speed and yaw rate of the same frame and the configured variances |
| `CoreEffects.FirstFixPlaces` | src/runtime.cpp:411-462 | a committed first fix leaves a blank estimator exactly there, with the speed of the wheels |
| `Core.StepKeeps` | src/runtime.cpp:501-515 | Running and Degraded mean an initialized healthy estimator; a step faults only on a numerically failed frame; a stopped core commands the safe stop; tracking needs navigation and a route |
| `CoreEffects.CommandUsesEstimate` | src/runtime.cpp:475-515 | a moving vehicle with navigation and a route is commanded from the new estimate and its pose, a stopped one brakes from the estimated speed, any other is neutral and its controller stays |
| `CoreEffects.FrameStarts` | src/runtime.cpp:501-513 | in Ready with a route a committed frame makes the vehicle run if the position is aided after it and degraded with other navigation |
| `CoreRuns.RankNeverFalls` | src/runtime.cpp:169-318 | no run of self tests, handshakes, routes, steps, stops and overflows moves the safety state back |
| `CoreRuns.FaultHasCause` | src/runtime.cpp:262-290 | a run reaches Fault only through a failed self test or a numerically failed frame |
| `CoreRuns.StoppedForGood` | src/runtime.cpp:475-499 | after a stop or fault, whatever follows, every step commands the safe stop |
| `CoreRuns.RunConsistent` | src/runtime.cpp:398-515 | on every run of the core the timers agree with the account of committed frames and handshakes |
| `CoreRuns.TrackingNeedsLiveHost` | src/runtime.cpp:398-515 | after any run of the core, a step that commands tracking has a committed frame or a handshake at most the host timeout behind it |
| `ControllerCore.RunFrame` | src/runtime.cpp:426-462 | the updates of a frame run in order on the copy, each whatever the ones before did |
| `ControllerCore.TryFrame` | src/runtime.cpp:410-462 | the copy and the outcome are those of the specification, and the estimator is not touched |
| `ControllerCore.EmbeddedControllerCore.ProcessSensorFrame` | src/runtime.cpp:398-473 | commits the copy as a whole and tells the state machine the outcome |
| `ControllerCore.EmbeddedControllerCore.MakeCommand` | src/runtime.cpp:475-499 | the command a decision allows |
| `ControllerCore.EmbeddedControllerCore.Step` | src/runtime.cpp:501-515 | state and output are those of the specification, and the core stays sane |
| `ControllerCore.EmbeddedControllerCore.SetRoute` | src/runtime.cpp:388-391 | only the controller changes |
| `ControllerCore.EmbeddedControllerCore.Begin` | src/runtime.cpp:369-373 | the estimator is blank, the route stays, the state machine starts over |
| `Intake.IncreasingPairs` | src/firmware_session.cpp:427-459 | an accepted history strictly increases |
| `Intake.ExtendedTracks` | src/firmware_session.cpp:433-451 | an admitted step is fresh, continues the unbounded history upwards and becomes the tracker |
| `Intake.StepAdmitted` | src/firmware_session.cpp:39-62 | on the unbounded step count a sample step is admitted exactly if it is not ahead of the frame, within the lag, and newer than the last |
| `Intake.FirstObjection` | src/firmware_session.cpp:427-459 | a frame is clean exactly if every one of its sample steps is |
| `Intake.SensorIntake.Validate` | src/firmware_session.cpp:427-459 | the first objection in sensor order |
| `Intake.SensorIntake.Commit` | src/firmware_session.cpp:461-479 | every sensor present extends its history |
| `Intake.SensorIntake.Offer` | src/firmware_session.cpp:493-549 | only a queued frame moves a tracker; a bad sample or a full queue changes none |
| `Intake.SensorIntake.Take` | src/firmware_session.cpp:205-216 | at most the oldest frame leaves; queued frames stay accounted as taken, discarded or pending |
| `Intake.SensorIntake.DiscardAll` | src/firmware_session.cpp:353-353 | a HELLO discards what is pending and keeps the trackers |
| `Session.StopsSinceMeans` | src/firmware_session.cpp:607-617 | after the first stop every command message is a safe stop with zero steering and target speed |
| `Session.CapableBits` | src/firmware_session.cpp:49-52 | the mask test is the conjunction of the five capability bits |
| `Session.HelloNegotiated` | src/firmware_session.cpp:318-355 | a HELLO is accepted exactly from a host that speaks version 1 with all five capabilities, room for 116 bytes and the timeout of the watchdog; any other version is told so; the HELLO of the host is accepted exactly with 500 ms |
| `Session.SentKept` | src/firmware_session.cpp:607-617 | one more message keeps that |
| `SessionRuns.ControlledSound` | src/firmware_session.cpp:573-698 | a bundle keeps the core fine and the latch over everything sent |
| `SessionRuns.StopSound` | src/firmware_session.cpp:552-571 | so does a stop request, which always stops the core |
| `SessionRuns.EventSound` | src/firmware_session.cpp:147-294 | so does every report of the parser |
| `SessionRuns.TickedSound` | src/firmware_session.cpp:168-233 | so does every tick |
| `SessionRuns.RunStaysSound` | src/firmware_session.cpp:105-769 | on every run of bytes, ticks and transmissions the core stays fine, the queues keep to their capacity, nothing said is taken back, and from the first stop on every command is a safe stop |
| `SessionRuns.StoppedSessionStaysStopped` | src/firmware_session.cpp:607-617 | once the core has stopped, every later command of any run is a safe stop |
| `SessionEffects.BundleWhole` | src/firmware_session.cpp:573-698 | a bundle is queued whole under consecutive numbers behind the whole backlog, or, if that leaves no room, in its place after a second step of the stopped core |
| `SessionEffects.TickSteps` | src/firmware_session.cpp:168-233 | a tick steps the core not at all, once, or twice: twice exactly if its bundle does not fit the transmit queue |
| `SessionEffects.PacketSteps` | src/firmware_session.cpp:552-571 | outside ticks only an admitted latching stop steps the core |
| `SessionEffects.SevenBadFramesStepTwice` | src/firmware_session.cpp:573-604 | a run that steps the core twice in one millisecond: a HELLO, seven unreadable frames, a tick with health due |
| `SessionEffects.TickTakes` | src/firmware_session.cpp:192-225 | only a control release at a new millisecond inside a session does anything, and it takes the oldest waiting frame; otherwise only the clock and the remembered step move |
| `SessionFrames.FrameReachesCore` | src/firmware_session.cpp:199-218 | the first step of a due tick with a waiting frame is one with the oldest frame, at the time of the tick and with the measured interval if plausible; that frame alone leaves the queue |
| `SessionFrames.RunConserves` | src/firmware_session.cpp:168-233 | on every run the frames stepped into the core are exactly the queued ones that no HELLO discarded and that do not wait any more, in order, each once |
| `SessionFrames.FrameQueued` | src/firmware_session.cpp:481-550 | a newer sensor packet with admissible steps is queued behind the others and moves exactly the trackers of its sensors |
| `SessionRoutes.RouteDelivered` | src/firmware_session.cpp:369-412 | handling newer chunk packets with the chunks of an acceptable route gives exactly that route to the core, once, at the last one |
| `SessionRoutes.EventCarries` | src/firmware_session.cpp:369-412 | one report replaces the route in the core exactly if it completes one the core accepts |
| `SessionRoutes.RunCarries` | src/firmware_session.cpp:105-769 | on every run the core carries the last route that chunks completed and it accepted |
| `SessionReports.TickReports` | src/firmware_session.cpp:219-232 | a due tick reports its step exactly if it took a frame, health or telemetry is due, the state is not the one last reported, or a heartbeat is due; the report is about the output of that step |
| `SessionReports.ReportSays` | src/firmware_session.cpp:583-698 | command, estimate, health and heartbeat of a report, the packets that carry them with their numbers and step, and the clocks after it |
| `SessionReports.RefusalsNamed` | src/firmware_session.cpp:252-294 | an early packet and a refused HELLO are answered with cause, sequence number and step in a packet of their own, and a packet that is not newer is not answered |
| `SessionReports.HandlerRefusals` | src/firmware_session.cpp:277-293 | the answer to a heartbeat or stop request that does not decode and to a type that is not for the controller |
| `SessionReports.NoiseReported` | src/firmware_session.cpp:148-159 | what the parser could not read is answered under the remembered step; empty and unfinished segments are passed over |
| `SessionReports.CausesDiffer` | src/firmware_session.cpp:148-159 | each cause has a detail of its own |
| `SessionReports.StepRemembered` | src/firmware_session.cpp:168-267 | the step remembered is that of the last packet that was not passed over, or of the last tick |
| `SessionReports.SensorRefusals` | src/firmware_session.cpp:481-550 | exactly which sensor packets are refused, with which answer; a full queue stops the core |
| `SessionReports.RouteRefusals` | src/firmware_session.cpp:369-412 | which answer a refused chunk and a refused route get |
| `SessionEffects.HelloForgets` | src/firmware_session.cpp:296-367 | after an accepted HELLO the link does not depend on what came before: the acknowledgement with number 0, empty queues, a fresh account; a refused one only answers |
| `SessionEffects.RepeatChangesNothing` | src/firmware_session.cpp:252-262 | inside a session a packet that arrives twice in a row has the effect of one |
| `SessionEffects.EventsInParts` | src/firmware_session.cpp:161-166 | how the reports are split over calls makes no difference |
| `SessionEffects.SilentBeforeHello` | src/firmware_session.cpp:173-175 | as long as no HELLO is accepted, on every run nothing is collected and every command sent is a safe stop |
| `FirmwareSessions.FirmwareSession.constructor` | src/firmware_session.cpp:105-141 | the session starts inactive, with nothing queued or heard |
| `FirmwareSessions.FirmwareSession.Emit` | src/firmware_session.cpp:713-750 | a message that encodes is queued under the next number, an overflow loses the backlog and stops the core first; one that does not is skipped |
| `FirmwareSessions.FirmwareSession.Reserve` | src/firmware_session.cpp:573-581 | room for the bundle, or the backlog lost and the stopped core stepped again |
| `FirmwareSessions.FirmwareSession.EmitControllerOutput` | src/firmware_session.cpp:583-698 | queue, core, history and clocks are those of the specified bundle |
| `FirmwareSessions.FirmwareSession.HandleHello` | src/firmware_session.cpp:296-367 | the whole session is that of the specification |
| `FirmwareSessions.FirmwareSession.HandleRoute` | src/firmware_session.cpp:369-412 | the whole session is that of the specification |
| `FirmwareSessions.FirmwareSession.HandleSensor` | src/firmware_session.cpp:481-550 | the whole session is that of the specification |
| `FirmwareSessions.FirmwareSession.HandleSafeStop` | src/firmware_session.cpp:552-571 | the whole session is that of the specification |
| `FirmwareSessions.FirmwareSession.HandlePacket` | src/firmware_session.cpp:235-294 | the whole session is that of the specification: an early packet is answered, one that is not newer changes nothing, an admitted one reaches its handler |
| `FirmwareSessions.FirmwareSession.Feed` | src/firmware_session.cpp:161-166 | for any bytes and chunking, each report the parser adds is handled once, in order |
| `FirmwareSessions.FirmwareSession.SensorTimestep` | src/firmware_session.cpp:414-425 | the measured interval if plausible, else the nominal one, within (0, 0.25] |
| `FirmwareSessions.FirmwareSession.Release` | src/firmware_session.cpp:199-232 | the core is stepped with the oldest waiting frame and the bundle follows if the step is reported |
| `FirmwareSessions.FirmwareSession.Tick` | src/firmware_session.cpp:168-233 | the session is that of the specification for what the scheduler finds due; before a HELLO the scheduler is not polled |
| `FirmwareSessions.FirmwareSession.PopFrame` | src/firmware_session.cpp:752-769 | exactly if the oldest frame fits it leaves, whole; else nothing changes |
| `SessionCore.CoreIsLawful` | src/runtime.cpp:345-515 | the controller core obeys the laws the session relies on |
| `SessionCore.FirmwareRunsSafely` | src/firmware_session.cpp:105-769 | in a session around the real core, on every run since reset, the core stays sane and from its first stop on every command sent is a safe stop |
| `FirmwareEffects.FrameReachesEstimator` | src/firmware_session.cpp:199-218 | a due tick leaves in the estimator exactly what processing the oldest waiting frame makes of it, whatever else the tick does |
| `FirmwareEffects.RouteReachesController` | src/firmware_session.cpp:406-411 | whatever the session holds, the chunk packets of a route the controller accepts leave exactly that route in the controller, at its start and with its memory cleared, and nothing else changed in the core |
| `FirmwareEffects.RefusedRouteClears` | src/control.cpp:309-313 | a completed route that the controller refuses clears its memory all the same; the route before it and the progress on it stay |
| `FirmwareEffects.RouteChangesOnActivation` | src/firmware_session.cpp:105-769 | on every run since reset the route of the controller is the last one that chunks completed and it accepted |
| `FirmwareEffects.HostKeptAlive` | src/firmware_session.cpp:277-292 | an admitted heartbeat and an accepted HELLO feed the watchdog at once without moving the state |
| `SessionCore.CodecsExist` | src/firmware_session.cpp:713-736 | the assumptions on payload codecs can be met |

## Left out

- Float32 rounding, NaN propagation and the accuracy of trigonometric functions: estimation and control are stated in exact
  reals, so the finiteness checks on computed values hold trivially.
- Null-pointer arguments, and the counters and callbacks that only report them.
- The payload codecs other than ROUTE_CHUNK: the same reader and writer argument repeated; they are parameters of the session.
- Off-diagonal measurement noise in the paired update: both callers pass zero, and the loops over it are omitted.
- Statistics that nothing decides on: rejected inputs by class (one counter here), the filter's call counters, loop timing,
  `record_execution`, scheduler overruns, and the counters copied into HEALTH_STATUS.
- HEALTH_STATUS and HEARTBEAT contents beyond state, mode and health.
- Estimator.Ekf6.PairUpdate: requires a symmetric covariance, which every sound filter has; the loops use both off-diagonal
  innovations, which are then equal.
- MatrixLoops.InvertSymmetric: a negative minimum determinant is left out; the only caller keeps the default of 1e-12.
- Runtime.RuntimeCore.Begin: the scheduler it restarts is a class of its own here and is restarted by its owner.
- FirmwareSessions.FirmwareSession.Emit: which payloads fail to encode is a parameter (`Session.Codecs`), not derived.
- FirmwareSessions.FirmwareSession.Tick: takes the scheduler and `Feed` the parser as arguments instead of owning them.
- FirmwareSessions.FirmwareSession.constructor: the limits of a later `set_config` on a running session are not modelled.
- Session overflow threshold: the session always builds the default runtime configuration, whose threshold is one, so an
  overflow stops the core at once; other thresholds are covered by `Runtime.RuntimeCore.RecordQueueOverflow`.
- Link.DeliversExactlyWhatWasSent: covers one session, without a HELLO in between; `Drive.Run` carries it over to the objects.
- Drive.Write: a port that takes fewer bytes than it was offered is one that was offered fewer; `AcknowledgeWrite` has both.
- Singularities.FixRegularExactly: is about healthy covariances; which filters a run reaches is decided only outside the gap
  named above.
- EstimatorRuns.JacobianExact: leaves the heading column to the bound of `HeadingColumnBound`, as the model is nonlinear there.
- HostSend.HostSession.Flush: the transport's answers are a list given in advance; a list that ends early stands for a
  transport that takes nothing more.
- HostSend.HostSession.Start: what an earlier connection left on the wire, half a frame perhaps, is not part of the new wire.
- `Stream.ParserStats` keeps one counter per kind of report in a map instead of ten fields.
- Host polling, timeouts and the acceptance of HELLO_ACK; transports, simulator, sensors, campaign and reporting code.
- Board, display and serial entry code (`src/main.cpp`, `src/arduino_hmi.cpp`, `src/hmi.cpp`) and the diagnostic build;
  only the order pop, commit, write, acknowledge of the main loop is modelled.
- Convergence and tracking accuracy: measured, not decided by the code.
