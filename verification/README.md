# A verified model of the recorder's algorithms

A network video recorder moves camera media through parsers, buffers, files and viewers. These
Dafny modules model the parts of it that are algorithms rather than plumbing, and prove what those
parts are for. Code that the program writes as a loop or as an object updated in place is a method
or a class here, proved equal to a specification function; the theorems are lemmas about those
functions and about whole runs.

| part | modules | in one sentence |
|---|---|---|
| Encrypted storage | `Counter`, `Storage` | a seekable CTR decryptor answers every list of seeks and reads as a plain array over the plaintext would |
| Face clustering | `LexOrder`, `Propagation`, `Clustering` | label propagation never revisits a labelling, so it converges; a person can only arrive along a path of edges |
| Face tracking | `Tracking`, `Tracker` | greedy matching partitions the faces into tracks with no pair of a face and a track left that both would prefer |
| Recorder | `Timeline`, `RecorderModel`, `RecorderProofs`, `RecorderFiles`, `RecorderGate`, `RecorderRotation`, `Recorder` | footage that met an open gate is always recorded, and exactly the pruned groups of pictures are missing; files end when they are due and no sooner; timelines tile; the ring reaches back as far as promised |
| Live fragmenter | `Fragmenter` | the same laws over a viewer's whole session |
| Shared transcoder | `Transcoder`, `Rescale` | under every interleaving references equal viewers, one run exists, no run is leaked, and Close stops every run; time stamps are converted exactly |
| GB28181 media | `Bytes`, `Rtp`, `ProgramStream`, `ProgramStreamRoundTrip`, `AnnexB`, `Media` | a picture cut into NAL units, PES packets and RTP packets comes back unit by unit in any order of arrival with the marked packet last, or with none marked |
| GB28181 signalling | `Text`, `SipNames`, `SipSyntax`, `SipFolding`, `Sip` | a SIP message that is printed is read back, exactly when it is short enough and its method does not look like a status line, and so is one whose headers are folded or whose lines end in bare line feeds |
| Retention | `Retention` | deletion is oldest first, never more than called for, and ends with the rules met or nothing left to delete |
| Fan-out | `Hub` | a reader has, in order, what it was offered, less exactly what it counts as dropped, and every writer's units in that writer's order, however writes overlap |

Standards referred to: CTR mode is section 6.5 and Appendix B.1 of NIST SP 800-38A; program streams
and PES packets are sections 2.5 and 2.4.3.6 of ISO/IEC 13818-1; byte streams are Annex B.1 of ITU-T
H.264; sequence numbers are section 5.1 of RFC 3550; SIP messages are section 7 of RFC 3261.

## How the model reads the program

- The block cipher, the unit-length scaling of embeddings, the cosine of two embeddings and the codec
  library's random-access test are uninterpreted functions; scores and overlaps are exact reals.
- Go integers are unbounded here except where the width matters, and there the wrap, truncation or
  range check is written out: the `int64` seek sum, the `uint64` counter carry, the `uint32` sample
  duration, the `int16` and `int32` clock differences, the status code of a response.
- A random order, a random id, a clock reading, a free-space reading and a gate decision are
  parameters. A sorting routine that Go leaves unstable may return any sorted permutation.
- Concurrency is a state machine with one step per critical section or channel operation; a timer
  firing and its callback running are separate steps.
- A text is a sequence of chars, each standing for one byte.

Places where the code and its comments, or the obvious reading of them, part:

- A sample duration is cut to 32 bits. A fragment therefore tiles with the next exactly when none of
  its steps needs more (`Timeline.DurationsReachBoundary`); a run in which one does is
  `RecorderFiles.LongStepBreaksTiling`.
- Audio heard while the motion gate is shut and pre-roll is off is not dropped with the video: it goes
  into the next file (`RecorderFiles.AudioOutlivesGate`).
- A clock-aligned segment may run past midnight, although the comment says the last one of a day is
  short. It does exactly when the segment length does not divide the day and the segment starts in the
  remainder (`RecorderFiles.MidnightIsOverrun`, `RecorderFiles.EveningSegmentOverruns`).
- A marked packet flushes at once, so one that overtakes others cuts its picture in two. A picture
  comes out whole exactly when its marked packet arrives last (`Rtp.Deliver`, `Rtp.MarkerOvertakes`);
  one without a marked packet always does, with the next time stamp (`Rtp.DeliverUnmarked`).
- The filter of a picture's units drops empty ones only, not delimiters and filler as its comment says;
  and as the splitter makes no empty unit, it drops nothing (`Media.UnitsPassFilter`). Without a
  declared codec or a telling unit the codec stays open; there is no default (`Media.SniffDecides`).
- A PES packet of declared length 0 ends at the next start code, even inside its payload; it is read
  whole exactly when there is none (`ProgramStreamRoundTrip.ZeroLengthEndsAtCode`,
  `ProgramStreamRoundTrip.ZeroLengthCutShort`).
- A viewer arriving between the idle cancel and the end of a run is handed a stream that is about to
  close (`Transcoder.DoomedStreamIsHandedOut`, `Transcoder.HandedStreamIsDoomed`).
- Writers of one stream share the read lock, so their units may reach two readers in different orders
  (`Hub.WritersMayCross`); a reader added after Close is never closed by the stream
  (`Hub.LateReaderExists`, `Hub.LateReaderIsNeverClosed`).
- A cannot-link only leaves out an edge: two such tracks meet through a third that is like both
  (`Clustering.CannotLinkedMayMeet`, `Clustering.CannotLinkedMeet`).
- A request whose method is the version in lower case is accepted by the parser and then printed as
  something the parser takes for a response (`SipSyntax.DisguisedRequestIsAccepted`).
- A message written with bare line feeds is read alike only if no blank CRLF line stands anywhere in
  it, its body included (`SipFolding.LfReadsBack`, `SipFolding.LfBodyIsCut`).
- When the size or the space rule fails on a clip, what that rule had deleted before is missing from
  the count returned (`Retention.Worker.Enforce`).
- The last retained GOP may start more than the pre-roll window before the newest keyframe; all later
  ones are inside it.
- A decrypting view of a source shorter than declared answers reads at the source's end with neither
  bytes nor an error (`Storage.CtrDecryptor.Read`).

## Model

| member | source | states |
|---|---|---|
| Counter.AddBE | internal/storage/crypto.go:203-212 | the carry loop equals that many single big-endian increments, and addition modulo 2^128 |
| Counter.IncrementByValue | internal/storage/crypto.go:201-212 | k single counter increments are addition of k modulo 256^length |
| Counter.IncrementByAdds | internal/storage/crypto.go:201-212 | increments compose: j then k increments are j + k |
| Storage.CtrDecryptor.Align | internal/storage/crypto.go:164-179 | after the source seek, the counter add and the skip inside a block, source and keystream both stand at the position |
| Storage.CtrDecryptor.Read | internal/storage/crypto.go:139-161 | a read returns exactly the plaintext at the position, moves past it, leaves the rest of the buffer alone, reports EOF only at the declared end, and comes back empty before it only at the end of a shorter source |
| Storage.CtrDecryptor.Seek | internal/storage/crypto.go:181-199 | it lands where int64 arithmetic says, or refuses a negative, wrapped or unknown target and does not move |
| Storage.KeyByteRestart | internal/storage/crypto.go:170-178 | restarting the keystream b blocks in gives the sequential keystream from byte 16 b on |
| Storage.StoredByte | internal/storage/crypto.go:79-93 | byte j of block k of a stored body is the plaintext byte, exclusive or byte j of the encrypted block whose number is the IV plus k modulo 2^128, behind the magic "KNV1" and the IV |
| Bytes.XorIsBitwise | internal/storage/crypto.go:90-91 | each bit of the exclusive or is set exactly if one of the two, and not both, is |
| Storage.DecryptingReadSeeker | internal/storage/crypto.go:104-125 | the checks of declared size, header and magic, and what the opened view is a view of, whatever the length of the source |
| Storage.ObjectPresentsPlain | internal/storage/crypto.go:82-125 | the view of an object made from a plaintext presents that plaintext |
| Storage.Session | internal/storage/crypto.go:95-199 | every list of seeks and reads, over sources with arbitrary short reads and failures, is answered as one plain array reader over the plaintext would, and never with a failure if the source has none |
| Storage.EncryptReader.Read | internal/storage/crypto.go:82-93 | successive reads deliver consecutive pieces of header and ciphertext, whatever the buffer sizes |
| Storage.EncryptAll | internal/storage/crypto.go:283-289 | the result is magic, IV and the CTR encryption |
| Storage.DecryptAll | internal/storage/crypto.go:270-280 | it decrypts every object with the magic and refuses short or unmarked data |
| Storage.EncryptThenDecrypt | internal/storage/crypto.go:268-289 | decryption undoes encryption for every key, IV and blob |
| Clustering.Constraints | internal/face/cluster.go:63-83 | the must and cannot pairs are exactly those an operator link names, in either order |
| Clustering.AddEdge | internal/face/cluster.go:96-99 | both adjacency lists stay those of one symmetric edge list |
| Clustering.BuildGraph | internal/face/cluster.go:85-114 | the edge list is that of the pairs not cannot-linked at or above the threshold, each with its similarity, then one of weight 1 per must-link |
| Clustering.GraphJoins | internal/face/cluster.go:100-114 | two tracks share an edge exactly when they are must-linked, or similar and not cannot-linked |
| Clustering.MustsHold | internal/face/cluster.go:112-114 | the must-links are exactly the edges of weight 1 added for them |
| Clustering.Choose | internal/face/cluster.go:141-156 | the label adopted scores best, strictly above the own one, first by name among equals |
| Propagation.ChosenUnique | internal/face/cluster.go:145-156 | the choice does not depend on map iteration order |
| Propagation.RelabelShift | internal/face/cluster.go:142-158 | relabelling one node changes the weight of agreeing edges by the difference of the two scores |
| Propagation.AdoptionGains | internal/face/cluster.go:157-160 | every adoption strictly increases the total weight of edges whose ends agree |
| Propagation.NoLabellingRepeats | internal/face/cluster.go:129-165 | no labelling ever comes back, in any order of visits |
| Propagation.PropagationConverges | internal/face/cluster.go:129-165 | without any cap on rounds at most (initial labels)^(tracks) labellings occur |
| Propagation.AnchorsHold | internal/face/cluster.go:116-140 | a confirmed track never changes its label |
| Propagation.Provenance | internal/face/cluster.go:134-165 | a track is always joined by a path to one that began with its current label |
| Propagation.SharedUniqueLabel | internal/face/cluster.go:125-165 | two tracks sharing a label one track began with lie in one component |
| Clustering.Round | internal/face/cluster.go:136-161 | one round adopts labels one at a time; if it adopts none, no unanchored node has a better neighbouring label |
| Clustering.Propagate | internal/face/cluster.go:129-165 | the in-place loop is such a run; an early exit leaves no unanchored node with a better neighbouring label, and without one every round adopted a label |
| Clustering.CanonicalPerson | internal/face/cluster.go:232-255 | the person of the group with the most faces, first by name among equals; a new one only if the group names nobody |
| Clustering.WeightAdds | internal/face/cluster.go:232-255 | a track counts for its person with its faces and one more, and the counts add up |
| Clustering.GroupByLabel | internal/face/cluster.go:167-173 | the groups are exactly the unanchored tracks by final label |
| Clustering.ApplyLabels | internal/face/cluster.go:174-197 | every group moves to one person, confirmed tracks stay, and the moves are counted |
| Clustering.MovedIsCount | internal/face/cluster.go:174-197 | the count is the number of tracks whose person changes |
| Clustering.UsableIs | internal/face/cluster.go:37-61 | the pass is over exactly the tracks with an embedding |
| Clustering.ExplainedByTrace | internal/face/cluster.go:116-197 | a track moved to a confirmed person is connected to a track confirmed as that person; tracks sharing a T: label are connected |
| Clustering.Recluster | internal/face/cluster.go:37-197 | the whole pass keeps those provenance laws, told in the fields of the tracks, over exactly the weighted graph of the links and similarities; a confirmed track keeps its person and carries its label throughout, the count is the number of tracks that changed person, and after an early end a track whose neighbours are all confirmed as one person is with that person |
| Clustering.ExplainedIsPlain | internal/face/cluster.go:116-197 | an unconfirmed track whose label names a person is with that person and linked to a track confirmed as it; two with one label are with one person |
| Clustering.SurroundedTakes | internal/face/cluster.go:129-197 | a settled, unconfirmed track all of whose neighbours are confirmed as one person is with that person |
| Clustering.CannotLinkedMayMeet | internal/face/cluster.go:100-165 | two cannot-linked tracks, both like a third, may end with one label; no run over the three lasts as long as the rounds allow |
| Propagation.ChainSettlesAlike | internal/face/cluster.go:141-160 | a labelling of three tracks in a row that is settled at each of them is the same label throughout |
| Clustering.CannotLinkedMeet | internal/face/cluster.go:37-197 | so if all three are unconfirmed the pass puts them with one person, in every order of visits |
| Tracker.LiveTrack.Add | internal/face/tracker.go:43-56 | the running sum, last offset and last box stay those of the faces held |
| Tracker.SortFaces | internal/face/tracker.go:67-75 | a permutation of the input by offset, then id, faces equal in both in their order |
| Tracker.GroupFrames | internal/face/tracker.go:77-86 | frames of one offset each, ascending, that join back to the sorted faces |
| Tracker.CloseIdle | internal/face/tracker.go:93-102 | exactly the tracks idle beyond the gap move to the done ones |
| Tracker.Candidates | internal/face/tracker.go:104-119 | exactly the pairs above the cosine-or-overlap gate, each with its blended score |
| Tracking.OverlapIsFraction | internal/face/vec.go:65-80 | the overlap of two boxes lies between 0 and 1 and is 0 exactly when they do not meet |
| Tracking.OverlapIsSymmetric | internal/face/vec.go:65-80 | it does not matter which box comes first |
| Tracking.OverlapOfInner | internal/face/vec.go:65-80 | a box inside another overlaps it by the ratio of their areas, so a box overlaps itself wholly |
| Tracking.DotAdds | internal/face/vec.go:11-18 | the dot product is the sum of the products of the components |
| Tracking.SumIsComponentwise | internal/face/tracker.go:43-56 | the sum a track is compared by is the sum of its normalized embeddings component by component, as long as the first |
| Tracker.SortCands | internal/face/tracker.go:120 | a permutation of the candidates by descending score |
| Tracker.LinkFrame | internal/face/tracker.go:104-131 | links pass the gate, each side is linked at most once, and no gated pair is left that both would prefer |
| Tracker.OpenNew | internal/face/tracker.go:132-140 | exactly the unlinked detections open tracks of their own, under new ids |
| Tracker.PairingIsStable | internal/face/tracker.go:93-140 | by track id the outcome of a frame is a stable choice of links; in particular it is maximal |
| Tracking.StableLinksAreUnique | internal/face/tracker.go:120-131 | when no two scores tie, every stable outcome makes the same links, so the unstable sort cannot matter |
| Tracking.FrameKeepsSound | internal/face/tracker.go:90-141 | a frame keeps offsets strictly increasing, gaps within the limit, every link gated when made, and no better link left between any two tracks |
| Tracking.FrameAdded | internal/face/tracker.go:127-140 | a frame adds each of its faces to the tracks exactly once |
| Tracking.NewTrackWasRefused | internal/face/tracker.go:90-140 | when a track starts, every open track not extended in that frame had refused its first face |
| Tracking.LinkIsPlain | internal/face/tracker.go:93-131 | each further face of a track comes later, within the gap, and resembled the track as it was by embedding or by overlap with its last box |
| Tracking.PassedOverIsPlain | internal/face/tracker.go:104-131 | a face that could have joined another track joined its own for a score at least as good, six tenths likeness and four tenths overlap, or that track took another face of the frame for one |
| Tracker.BuildTracks | internal/face/tracker.go:63-150 | the output tracks hold exactly the input faces, and are sound: no better link is left between any two of them |
| Timeline.BuildPart | internal/recording/recorder.go:336-356 | the sample loop of a fragment computes base time, durations cut to 32 bits, offsets and sync flags |
| Timeline.DurationsReachBoundary | internal/recording/recorder.go:340-348 | a part's durations add up to its boundary exactly when no step needs more than 32 bits, and fall short otherwise |
| Timeline.ReadBackExact | internal/recording/recorder.go:336-355 | reading a part back from its origin gives the samples with their decode times |
| Recorder.Recorder.WriteFrag | internal/recording/recorder.go:322-359 | one fragment is appended; a track's timeline starts at its first sample in the file |
| Recorder.Recorder.StashGop | internal/recording/recorder.go:372-401 | the pending GOP becomes the newest of the ring, which is then pruned |
| Recorder.Recorder.ReplayPreroll | internal/recording/recorder.go:413-422 | every ring GOP goes into the file, oldest first, and the ring empties |
| Recorder.Recorder.DoFinalize | internal/recording/recorder.go:485-528 | the tail is flushed with an estimated last duration and the file is reported |
| Recorder.Recorder.HandleKey | internal/recording/recorder.go:178-260 | a keyframe settles the GOP before it, opens, rotates or closes the file, and starts the next GOP: see RecorderRotation for when |
| Recorder.Recorder.HandleInter | internal/recording/recorder.go:242-260 | an inter frame is kept only where a GOP is being collected |
| Recorder.Recorder.HandleAudio | internal/recording/recorder.go:263-295 | audio frames queue behind each other at the fixed frame length |
| Recorder.Recorder.Handle | internal/recording/recorder.go:160-295 | each unit moves the object as the state machine says |
| Recorder.Record | internal/recording/recorder.go:115-141 | the files of a whole run are the fragments of the GOPs the state machine wrote |
| RecorderModel.PruneIsSuffix | internal/recording/recorder.go:395-400 | pruning drops only oldest GOPs and never the last |
| RecorderProofs.FlushSound | internal/recording/recorder.go:300-317 | a flush moves exactly the pending GOP into the file |
| RecorderProofs.StashSound | internal/recording/recorder.go:372-401 | stashing keeps every sample accounted for, in order |
| RecorderProofs.OnKeySound | internal/recording/recorder.go:178-260 | so does a keyframe, in every mode and gate state |
| RecorderProofs.NothingUnaccounted | internal/recording/recorder.go:171-295 | after every stream of units: files, ring and pending buffer hold what was fed, once and in order, apart from groups dropped whole; the files are exactly the kept groups |
| RecorderGate.KeyTallied | internal/recording/recorder.go:178-260 | over a keyframe, a group that met an open gate stays kept, the one under way has a file open exactly if it did, and with pre-roll only pruned groups are gone |
| RecorderGate.GateAdmitsWholeShots | internal/recording/recorder.go:186-528 | without pre-roll the files and the pending buffer hold exactly the groups of pictures whose keyframe found the gate open, and once the run has ended the files alone do |
| RecorderGate.OpenGateIsRecorded | internal/recording/recorder.go:186-229 | in every mode a group whose keyframe found the gate open is in a file, or pending with a file open |
| RecorderGate.OpenGateIsInAFile | internal/recording/recorder.go:186-528 | and it is in a file once the run has ended |
| RecorderGate.MissingWasPruned | internal/recording/recorder.go:372-401 | with pre-roll a missing group was pruned: the gate was shut from it to a later completed group that found its successor out of the window |
| RecorderGate.MissingExactlyPruned | internal/recording/recorder.go:171-528 | with pre-roll and a clock that never goes back, the files, the ring and the pending buffer hold exactly the groups not pruned, whole and in order; the end of a run adds the last group to the file open then and never writes the ring |
| RecorderFiles.FilesHoldWholeGops | internal/recording/recorder.go:171-528 | whatever a file of a run holds, open or closed, the GOP flushed at the end of the run included, is whole GOPs |
| RecorderFiles.ContinuousLosesNothing | internal/recording/recorder.go:192-229 | without a gate the files plus the pending buffer hold every sample since the first keyframe; closing puts all of it in the files |
| RecorderFiles.AudioOutlivesGate | internal/recording/recorder.go:242-274 | without pre-roll no audio is lost to the gate |
| RecorderFiles.FileTiles | internal/recording/recorder.go:322-359 | in a file the first base time is 0, each later one is the previous plus its durations, and durations reach the end of their GOP, exactly when the steps fit 32 bits |
| RecorderFiles.EveryFileTiles | internal/recording/recorder.go:300-528 | so does every file of every run with nondecreasing decode times, replayed pre-roll and the file closed at the end of the run, with its estimated last boundary, included |
| RecorderFiles.FragHoldsGop | internal/recording/recorder.go:322-359 | fragment k of a file holds exactly the video and the audio of GOP k, each track counting from its first sample in the file |
| RecorderFiles.VideoUnitSampled | internal/recording/recorder.go:249-257 | decode time plus offset is the presentation time exactly when the difference fits 32 bits; payload and keyframe mark are the unit's |
| RecorderFiles.AudioUnitSampled | internal/recording/recorder.go:263-274 | each audio frame is a sample 1024 after the one before it, the first at the unit's time |
| RecorderFiles.TailStep | internal/recording/recorder.go:514-528 | the last frame of a GOP cut off gets the step of the one before it, or a thirtieth of a second |
| RecorderFiles.LongStepBreaksTiling | internal/recording/recorder.go:340-348 | the exception happens: a run whose second fragment is placed too early |
| RecorderFiles.AlignedBoundary | internal/recording/recorder.go:475-482 | an aligned segment ends after it starts, at most one length later, a whole number of lengths from midnight |
| RecorderFiles.MidnightIsOverrun | internal/recording/recorder.go:470-482 | it ends by the next midnight exactly when the length divides the day or the segment does not start in the remainder of the day |
| RecorderFiles.EveningSegmentOverruns | internal/recording/recorder.go:470-482 | a seven-hour segment started at ten in the evening ends at four |
| RecorderFiles.PruneLeavesWindow | internal/recording/recorder.go:395-400 | only the oldest GOP left may lie outside the window, and it does if anything went |
| RecorderFiles.PrerollWindow | internal/recording/recorder.go:372-422 | with a clock that never goes back that holds after every unit of every run |
| RecorderRotation.FilesEndInTime | internal/recording/recorder.go:192-241 | every file of every run starts with its first GOP, begins with its pre-roll, and holds after that no GOP, but the one that opened it, that began at or after one length from the start, or the next aligned boundary |
| RecorderRotation.KeySwitchesFiles | internal/recording/recorder.go:206-235 | at every keyframe of every run: with the gate open there is a file afterwards, the same one exactly while it is in time, else the old one is closed now and the new one starts now; with the gate shut it is closed now; no other unit touches the files |
| RecorderRotation.ClosedOnlyWhenDue | internal/recording/recorder.go:223-235 | a file closed while the run goes on was closed at a keyframe that found the gate shut or the end of the file come |
| RecorderRotation.ContinuousFilesAbut | internal/recording/recorder.go:223-229 | without a gate each file starts when the one before it ended |
| RecorderRotation.SegmentEndIsUnique | internal/recording/recorder.go:437-482 | a start has one end, so a time is in time or overdue and never both |
| Fragmenter.Fragmenter.Flush | internal/mse/streamer.go:169-214 | one numbered fragment with the pending samples, or nothing when nothing is pending |
| Fragmenter.Fragmenter.Push | internal/mse/streamer.go:111-165 | each unit moves the session as the specification says and returns the fragment it completes |
| Fragmenter.SessionLosesNothing | internal/mse/streamer.go:111-165 | every sample pushed is in exactly one fragment or pending, in order |
| Fragmenter.SessionTiles | internal/mse/streamer.go:169-214 | over a session video base times start at 0 and tile, exactly where steps fit 32 bits |
| Fragmenter.FragmentsAreWhole | internal/mse/streamer.go:122-149 | a fragment begins with its only keyframe, the first one exactly when the session began with a keyframe |
| Fragmenter.KeyframesMakeFragments | internal/mse/streamer.go:122-149 | with a video track exactly a keyframe behind pending video makes a fragment |
| Fragmenter.AudioGoesOutBySecond | internal/mse/streamer.go:150-165 | without one a fragment goes out as soon as a second of audio frames is there, and never before |
| Transcoder.LiveTranscoder.AcquireEnter | internal/transcode/transcode.go:73-95 | a viewer is counted, the timer dropped, and a run started only if none is running |
| Transcoder.LiveTranscoder.AcquireResult | internal/transcode/transcode.go:107-117 | a woken Acquire returns the stream published then and changes nothing, or returns an error, the recorded one before the default one, after giving back its reference |
| Transcoder.LiveTranscoder.Drop | internal/transcode/transcode.go:123-141 | the last release arms the grace timer; a release too many does nothing |
| Transcoder.LiveTranscoder.CloseEnter | internal/transcode/transcode.go:145-157 | Close takes the cancel function whatever the references, and drops the timer |
| Transcoder.LiveTranscoder.IdleCallback | internal/transcode/transcode.go:159-169 | the callback cancels only when nobody is attached |
| Transcoder.LiveTranscoder.OnReady | internal/transcode/transcode.go:178-183 | the run's stream is published |
| Transcoder.LiveTranscoder.RunEnded | internal/transcode/transcode.go:185-195 | the end of a run closes its stream and leaves the object ready for another |
| Transcoder.InvAlways | internal/transcode/transcode.go:73-201 | the protocol invariant holds in every state of every interleaving |
| Transcoder.EveryInterleavingIsSafe | internal/transcode/transcode.go:73-201 | references equal viewers, at most one run, the published stream is open and its run's, and an unwatched uncancelled run has a timer or callback to come |
| Transcoder.IdleSparesViewers | internal/transcode/transcode.go:159-169 | an idle callback never touches a run while a viewer is attached or waiting |
| Transcoder.CancelledOnlyIdleOrClosed | internal/transcode/transcode.go:143-169 | a cancelled run was cancelled by a Close or by an idle callback with nobody there |
| Transcoder.CloseTakesEveryRun | internal/transcode/transcode.go:143-157 | after Close every run there was is cancelled or its cancel function taken, whoever is watching, the timer is not armed, and no viewer, reference or run is touched |
| Transcoder.TakenIsCalled | internal/transcode/transcode.go:145-157 | a taken cancel function is kept until it is called, and calling it cancels its run for good |
| Transcoder.CloseStopsEveryRun | internal/transcode/transcode.go:143-157 | once a Close has returned, every run that was going when it began is cancelled |
| Transcoder.NoLostWakeup | internal/transcode/transcode.go:94-117 | a waiting viewer can go on once its run is over and its channel closed |
| Transcoder.WakeOutcome | internal/transcode/transcode.go:97-117 | what a woken viewer gets is an open stream of a live run or an error, never neither; it is the stream of the run it waited for exactly when that run is still alive |
| Transcoder.FailureReleasesOnce | internal/transcode/transcode.go:97-141 | whatever comes between the failure and the release, a failed Acquire gives back exactly its own reference and keeps its error |
| Transcoder.ErrorIsLastRuns | internal/transcode/transcode.go:85-117 | a woken viewer without a stream is told the error of the last run to end, or the default one if that had none or another run was started since |
| Transcoder.StreamLivesWithItsRun | internal/transcode/transcode.go:178-196 | a stream is open exactly as long as its run goes on, and the run has signalled or is about to as soon as there is one |
| Transcoder.AbandonedRunIsStopped | internal/transcode/transcode.go:123-169 | from any state nobody watches, timer and callback alone cancel the run |
| Transcoder.HandedStreamIsDoomed | internal/transcode/transcode.go:79-84 | a stream handed out at once is about to close exactly when the cancel function has been taken |
| Transcoder.DoomedStreamIsHandedOut | internal/transcode/transcode.go:79-84 | that case is reachable |
| Rescale.RescaleExact | internal/transcode/transcode.go:451-456 | v*to/from truncated toward zero, for either sign |
| Rescale.RescaleMonotone | internal/transcode/transcode.go:451-456 | order is kept |
| Rescale.RescaleWithinOneTick | internal/transcode/transcode.go:451-456 | the result is within one target tick, on the side of zero |
| Rescale.RescaleNoOverflow | internal/transcode/transcode.go:449-456 | no intermediate leaves 64 bits when from*to and the result fit |
| ProgramStream.FindNextStart | internal/gb28181/ps.go:207-217 | the loop finds the first start code at or after a position |
| ProgramStreamRoundTrip.NextStartIsFirst | internal/gb28181/ps.go:207-217 | that is the least such position, and none is reported only when there is none |
| ProgramStream.ParsePesAt | internal/gb28181/ps.go:126-167 | payload, time stamp and end of a PES packet at any position of any bytes |
| ProgramStream.ReadMap | internal/gb28181/ps.go:180-203 | the stream types a map declares, on any bytes |
| ProgramStream.TakeTurn | internal/gb28181/ps.go:43-117 | one turn of the loop does what the specification step does, unknown start codes included, and always advances |
| ProgramStream.DemuxPS | internal/gb28181/ps.go:37-119 | the loop ends on every byte string, in bounds, with the specified result |
| ProgramStreamRoundTrip.StampRead | internal/gb28181/ps.go:170-176 | every 33-bit time stamp survives writing and reading |
| ProgramStreamRoundTrip.MapRead | internal/gb28181/ps.go:180-203 | a written stream map is read back entry by entry |
| ProgramStreamRoundTrip.ItemRead | internal/gb28181/ps.go:43-117 | one well-formed item anywhere in the data, of declared length, of unknown id, or ended by a start code or the end of the data, is consumed whole with its own effect |
| ProgramStreamRoundTrip.DemuxReadsBack | internal/gb28181/ps.go:37-119 | any sequence of well-formed items, pieces of unknown id among them, demuxes to its video and audio payloads in order, the first video time stamp, and the codec last declared for a video packet; payloads of declared length may hold any start codes, those without one may have any length and hold none |
| ProgramStreamRoundTrip.CutStreamReadsBack | internal/gb28181/ps.go:126-167 | a stream cut inside a payload gives what it gives with the last packet carrying only the bytes that arrived |
| ProgramStreamRoundTrip.ZeroLengthEndsAtCode | internal/gb28181/ps.go:149-165 | a packet without a declared length is read whole exactly when no start code lies inside its payload |
| ProgramStreamRoundTrip.ZeroLengthCutShort | internal/gb28181/ps.go:149-165 | the failing case: a payload that begins with a start code is read as empty |
| ProgramStreamRoundTrip.ResyncSkipsJunk | internal/gb28181/ps.go:44-51 | junk without a start code is skipped, wherever it stands |
| ProgramStreamRoundTrip.ForeignCodeSkipped | internal/gb28181/ps.go:110-115 | from a start code of unknown id demuxing goes on at the next start code, or ends with what there is |
| AnnexB.FindStartCode | internal/gb28181/media.go:231-242 | the loop finds the next start code with its leading zero |
| AnnexB.SplitAnnexB | internal/gb28181/media.go:197-227 | the loop ends on every byte string, in bounds, with the specified pieces |
| AnnexB.SplitReadsUnits | internal/gb28181/media.go:195-242 | whatever stands before the first start code and every empty unit is dropped, and all other units are read as they are, for 3- and 4-byte start codes in any mix |
| AnnexB.SplitUndoesJoin | internal/gb28181/media.go:195-242 | so splitting returns the units that were joined |
| AnnexB.PrintAnnexB | internal/webrtc/webrtc.go:156-178 | the printer joins parameter sets and units with 4-byte codes |
| AnnexB.PrintThenSplit | internal/webrtc/webrtc.go:156-178 | what it prints is split back into the same units |
| Rtp.BeforeIsOffsetOrder | internal/gb28181/rtp.go:59-61 | inside a half-range window the wrapped difference is a strict total order |
| Rtp.SortBySeqNo | internal/gb28181/rtp.go:58-61 | a permutation, in window order whenever the packets lie in one window, packets of one number in order of arrival |
| Rtp.ArrivalOrderIrrelevant | internal/gb28181/rtp.go:52-76 | the frame of distinct packets in a window is their concatenation in sequence order, whatever order they were held in |
| Rtp.PayloadsConcat | internal/gb28181/rtp.go:62-69 | the payloads stand one behind the other |
| Rtp.FrameAssembler.Flush | internal/gb28181/rtp.go:52-76 | one frame with all buffered packets, or none when there are none |
| Rtp.FrameAssembler.Push | internal/gb28181/rtp.go:32-49 | a new time stamp flushes what was held and a marker flushes at once; frames never mix time stamps |
| Rtp.Deliver | internal/gb28181/rtp.go:32-76 | for a picture of at most 8192 packets, at most one of them marked, in any order: the packets up to the marker make one frame and the rest stay held; it comes out whole at once exactly when the marked packet arrives last |
| Rtp.DeliverUnmarked | internal/gb28181/rtp.go:32-76 | a picture of at most 8192 packets without a marked one comes out whole, in sequence order, when a packet of the next time stamp arrives |
| Rtp.MarkerOvertakes | internal/gb28181/rtp.go:46-48 | the failing case: a marked packet that overtakes another leaves it behind |
| Media.MediaProducer.SniffCodec | internal/gb28181/media.go:172-193 | a declared codec wins, then an H.265 VPS, then an H.264 SPS |
| Media.MediaProducer.CollectParamSets | internal/gb28181/media.go:130-154 | the loop keeps the parameter sets as the specification does |
| Media.CollectIsLatest | internal/gb28181/media.go:130-154 | each parameter set held is the last unit of its type, or the one held before if there was none |
| Media.SniffDecides | internal/gb28181/media.go:172-193 | the declared codec; else H.265 exactly if a unit begins with 0x40; else H.264 if one is of type 7; else none |
| Media.MediaProducer.FilterAU | internal/gb28181/media.go:159-168 | the loop drops exactly the empty units |
| Media.UnitsPassFilter | internal/gb28181/media.go:159-242 | which splitting never makes, so nothing is dropped |
| Media.MediaProducer.TryReady | internal/gb28181/media.go:95-127 | the stream is made exactly when codec, SPS and PPS are known, with the sets of that moment |
| Media.MediaProducer.HandleFrame | internal/gb28181/media.go:36-92 | each frame moves the producer as the specification says, with the random-access flag of a published picture the codec library's |
| Media.FrameIsTaken | internal/gb28181/media.go:36-92 | in every run one more frame with units fixes the codec if it can, brings in the latest sets, makes the producer ready exactly when codec and sets are there, and is published, all its units together under the clock, exactly if the producer is ready; one without units does nothing |
| Media.PublishedIsReceived | internal/gb28181/media.go:36-92 | over every run the published pictures are exactly the units of the last frames that had any, one picture a frame |
| Media.StepExact | internal/gb28181/media.go:52-56 | the signed 32-bit step is the true one exactly when that is less than half the range |
| Media.ClockUnwraps | internal/gb28181/media.go:52-58 | presentation times are true elapsed times across any number of wraps |
| Media.AlwaysSane | internal/gb28181/media.go:47-92 | the producer is ready exactly when codec and parameter sets are there; codec and stream are fixed once chosen, and nothing is published before |
| Media.ReceivePicture | internal/gb28181/media.go:36-44 | a picture in NAL units, in PES packets, in RTP packets is published unit by unit by a ready producer in any order of arrival with the marked packet last; otherwise the units of the packets up to the marker are |
| Media.ReceiveUnmarked | internal/gb28181/media.go:36-44 | and so is a picture without a marked packet, in any order of arrival, once a packet of the next time stamp arrives |
| SipNames.CanonNameIsIdempotent | internal/gb28181/sip.go:84-100 | a canonical name stands for itself |
| SipNames.CanonNameIsPlain | internal/gb28181/sip.go:84-100 | canonical spelling is trimmed and brings no separator in |
| SipNames.KnownFormSpells | internal/gb28181/sip.go:65-82 | every table entry maps the lower-case form of its value |
| SipNames.CompactFormStands | internal/gb28181/sip.go:49-63 | every compact form expands to a name that is its own canonical form |
| SipNames.CanonNameSpells | internal/gb28181/sip.go:84-100 | a longer name keeps its letters |
| SipNames.OnlyCaseIsIgnored | internal/gb28181/sip.go:84-100 | two longer names stand for one header exactly when they differ in case only |
| Sip.Canonicalize | internal/gb28181/sip.go:84-100 | the loop over dash-separated parts is the canonical spelling |
| Sip.SplitLines | internal/gb28181/sip.go:176-191 | the loop splits on CRLF or LF and unfolds continuation lines |
| Sip.Message.ParseStartLine | internal/gb28181/sip.go:149-172 | status and request lines as the specification reads them, with their errors |
| Sip.ParseMessage | internal/gb28181/sip.go:103-147 | the object says what the specification reads; header names are canonical; every error case |
| Sip.Message.Get | internal/gb28181/sip.go:194-202 | the first value under any spelling of the name |
| Sip.Message.GetAll | internal/gb28181/sip.go:205-214 | all values, in order |
| Sip.Message.Set | internal/gb28181/sip.go:217-226 | one value is left for the name and every other lookup is unchanged |
| Sip.Message.Add | internal/gb28181/sip.go:229-231 | one value is added after those there, and every other lookup is unchanged |
| Sip.Message.Encode | internal/gb28181/sip.go:256-282 | the loop prints the specified text, with Content-Length fixed up |
| SipSyntax.BlankLineFound | internal/gb28181/sip.go:108-123 | the first blank line is the one that ends the headers, whatever the body holds |
| SipSyntax.HeaderComesBack | internal/gb28181/sip.go:133-144 | a printed header line is read back |
| SipSyntax.HeaderLineReads | internal/gb28181/sip.go:137-144 | what stands before the first colon is the name, in any spelling, and what follows, trimmed, the value |
| SipSyntax.StartComesBack | internal/gb28181/sip.go:149-172 | a printed start line is read back exactly when its method does not begin with the version |
| SipSyntax.RequestLinesAccepted | internal/gb28181/sip.go:165-171 | a request line is accepted exactly if it is a method, a target and the version with anything behind it, and its method is read in upper case |
| SipSyntax.StatusLinesAccepted | internal/gb28181/sip.go:149-164 | a status line with a code and a reason is accepted exactly if the code is a 64-bit number |
| SipSyntax.LengthsRefused | internal/gb28181/sip.go:103-106 | empty data and data longer than a datagram are refused for their length, and no other |
| SipSyntax.ParseReadsBack | internal/gb28181/sip.go:103-282 | a printed message is read back with Content-Length set, exactly when it fits a datagram and its method does not begin with the version |
| SipSyntax.LengthIsSet | internal/gb28181/sip.go:256-282 | what is received has a Content-Length, every one of them the length of the body, and all other headers as they were, in order |
| SipSyntax.ReasonIsFilledIn | internal/gb28181/sip.go:256-311 | a response without a reason is received with the standard phrase of its code |
| SipFolding.FoldedReadsBack | internal/gb28181/sip.go:103-191 | headers folded over any number of lines with spaces and tabs, and lines without a colon between them: the message is read as the unfolded one, under the same exact condition |
| SipFolding.LfReadsBack | internal/gb28181/sip.go:108-191 | the same with bare line feeds, if no blank CRLF line stands in the text |
| SipFolding.LfBodyIsCut | internal/gb28181/sip.go:108-123 | the failing case: a blank CRLF line in the body draws the cut to itself |
| SipSyntax.ReprintIsFixed | internal/gb28181/sip.go:103-282 | printing what was read back prints the same text |
| SipSyntax.ReadIsWellFormed | internal/gb28181/sip.go:103-191 | whatever the bytes, a message that is read meets the conditions for being printed and read again |
| SipSyntax.DisguisedRequestIsAccepted | internal/gb28181/sip.go:149-171 | the one excluded shape is accepted by the parser and does not survive printing |
| Sip.SendAndReceive | internal/gb28181/sip.go:103-282 | the receiver's object says what the sender's said |
| Retention.Store.OldestComplete | internal/database/recording_store.go:181-204 | the oldest candidates, ascending, with every one left out no older |
| Retention.Store.Total | internal/database/recording_store.go:209-213 | the bytes of finished clips with a local file |
| Retention.TotalCounts | internal/database/recording_store.go:209-213 | every finished clip with a local file counts once |
| Retention.Worker.DeleteClip | internal/recording/retention.go:152-162 | the file goes and the row goes or, archived with S3 on, is only marked; a failed removal changes nothing |
| Retention.FilesOfVictims | internal/recording/retention.go:152-162 | over a pass exactly the files of the deleted clips are gone |
| Retention.Worker.DeleteUntil | internal/recording/retention.go:124-146 | it ends with the rule met or nothing permitted left, after the shortest oldest-first run, or at a clip that cannot be removed |
| Retention.MinimalPrefix | internal/recording/retention.go:124-146 | every shorter run of the same victims would have left the rule broken |
| Retention.VictimsAreOldest | internal/recording/retention.go:123-146 | no victim is younger than a later one or than any candidate left, and none is deleted twice |
| Retention.WhatRetentionSpares | internal/recording/retention.go:66-162 | restricted to uploaded clips nothing else is touched; with S3 on an archived clip keeps its row |
| Retention.Worker.DeleteOld | internal/recording/retention.go:70-88 | only clips up to the cutoff go, and none is left unless a full batch went |
| Retention.Worker.Enforce | internal/recording/retention.go:66-121 | after a pass every enabled rule is met or nothing permitted is left (for age: or a full batch went), and no deletion was uncalled for; a failed pass counts all deletions but those of the size or space rule that failed |
| Retention.EnforcedIsPlain | internal/recording/retention.go:66-121 | what that means for the rows and files left, told in their fields and the limits |
| Retention.NoneIdleIsPlain | internal/recording/retention.go:66-121 | each deletion was called for, when it was made, by the age of its clip, the size, or the space |
| Retention.SizeShrinksAll | internal/recording/retention.go:90-118 | later deletions never break the size cap again |
| Hub.Stream.WriteUnit | internal/core/stream.go:49-63 | every registered reader is offered the unit once, and nothing happens after Close |
| Hub.TotalAdds | internal/core/stream.go:55-59 | the bytes counted are those of all access units |
| Hub.Reader.Push | internal/core/stream.go:114-120 | the unit is buffered if there is room, else counted as dropped |
| Hub.Stream.AddReader | internal/core/stream.go:69-81 | a reader is registered with its buffer size, the default for none |
| Hub.Stream.RemoveReader | internal/core/stream.go:84-91 | a registered reader is taken out and its channel closed, once |
| Hub.Stream.Close | internal/core/stream.go:94-105 | every registered channel is closed, once |
| Hub.InvAlways | internal/core/stream.go:49-120 | the accounting invariant holds in every state of every interleaving |
| Hub.LossIsCounted | internal/core/stream.go:49-120 | however writes overlap, received plus buffered is an order-preserving part of what was offered, short by exactly the dropped count, and everything written while registered was offered, but for units just being handed out |
| Hub.DroppedOnlyWhenFull | internal/core/stream.go:114-120 | in every run a unit is dropped exactly when the buffer holds as many as it can, and is otherwise the last in it |
| Hub.CapacityIsAskedFor | internal/core/stream.go:69-81 | which is as many as were asked for, 512 if none, and no other step drops anything |
| Hub.WriterOrderIsKept | internal/core/stream.go:49-63 | each writer's units are offered to a reader in that writer's order, none skipped |
| Hub.AloneInOrder | internal/core/stream.go:48-120 | if no write begins while another is under way, then with any number of writers a reader was offered exactly its span of the log, less the one unit that may be being handed out, and has an order-preserving part of it |
| Hub.OneWriterIsAlone | internal/core/stream.go:48-63 | the writes of a single writer never overlap |
| Hub.WritersMayCross | internal/core/stream.go:49-63 | two overlapping writes may reach two readers in opposite orders |
| Hub.ChannelsAreSafe | internal/core/stream.go:49-120 | no unit is sent on a closed channel and no channel is closed twice |
| Hub.ReadersAreEnded | internal/core/stream.go:84-105 | the first Close ends every reader and a removal that reader alone; both leave in the channels what is still to be received |
| Hub.SilentAfterClose | internal/core/stream.go:49-105 | after Close nothing is written, and a reader added later is offered nothing |
| Hub.LateReaderIsNeverClosed | internal/core/stream.go:69-105 | a reader open after Close stays open over every run in which it is not itself removed |
| Hub.LateReaderExists | internal/core/stream.go:69-81 | such a reader can be added |

## Left out

- The HTTP, WebSocket, RTSP, RTMP, ONVIF, MQTT, SMTP and S3 layers, the web frontend and the SQL text: plumbing. Tables are maps with the filter and order of their queries.
- FFmpeg processes, AES, Argon2, the decode-time extractor, AVCC and fMP4 marshalling: a fragment is its list of samples, and decode times arrive with the samples.
- The recorder without a video track, with several video tracks, and with I/O errors: one video track plus audio, and every write succeeds. The reported duration and size of a file, and the zero-time fallbacks, are not part of the model.
- RecorderFiles.EveryFileTiles: assumes decode times that never run backwards, as the extractor promises.
- The copying of buffers by the recorder and the frame assembler, and aliasing between a unit's payload and a buffered sample: payloads are values.
- Transcoder.NoLostWakeup: does not say that the woken viewer gets a live stream, because it may not. The length of the start timeout is not modelled; giving up is a step that may happen at any time.
- Clustering.Recluster: leaves out recounting and deleting persons and rebuilding exemplars, and database errors.
- Clustering.ApplyLabels: the groups are visited in an arbitrary order, as Go's map iteration is; a fresh person's id is a function of the label.
- Tracker.BuildTracks: ids of tracks are counted up instead of drawn at random; the unit-length scaling of an embedding is a parameter, and vectors are exact reals.
- Rounding of floating-point sums, cosines and policy sizes, and not-a-number values.
- SipNames.CanonNameIsIdempotent: is about ASCII; letters and white space outside it have no case and are not trimmed here, while Go's string functions decode UTF-8.
- The parameter helpers, sequence numbers and digest handling of SIP: small string functions without state.
- Media.ReceivePicture: covers a frame up to the split into units.
- Media.ClockUnwraps: leaves out the 64-bit width of the accumulated presentation time.
- Retention.Worker.Enforce: leaves out clips recorded while a pass runs, database errors, and the removal of empty directories.
- Merging face windows, default settings (a recorder started without a segment length gets ten minutes), access ranks, path templates and FLV tags: easy members.
