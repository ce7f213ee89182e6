# Fetch-service: a verified model

Fetch-service is a proxy between a build client and the network. A dispatcher owns a table of
sessions; every download is stored, inspected in its own goroutine by a list of inspectors, and
released to the client only after a verdict. This project models the parts of it that decide what
is released, and proves what they promise. `dafny verify dfyconfig.toml` checks all of it.

Bytes are `string`s with one character per byte. What lies outside the code (hashing, signatures,
key and base64 decoding, decompression, URL patterns, file type detection, the results of
file-system calls) is a parameter or an input; time is a nondeterministic step.

## The modules

* `Basics`, `Numbers`, `Digests`: options, the string operations of the standard library that are
  used, numerals, hexadecimal digests.
* `Opinions`, `Runner`: the artifact record with the opinions on it, the choice of metadata, and
  the request and response runs over any list of inspectors. An inspector is any script of
  opinions under its own id, with or without an error.
* `Protocol`, `Interleavings`: the dispatcher's handlers as functions on session values, and the
  service as a step system in which handlers, inspection goroutines, timers and their watchers
  take turns in any order. `Invariants`, `Guarantees` and `History` prove what holds in every run.
  `Channels` adds the channels: a dispatcher that is idle or busy with one message, and one-slot reply
  channels a send must find room in; it refines the step system, never deadlocks, and left to itself
  always comes to rest. `Overlap` counts how often the inspectors see a digest; `Expiry` says which sessions
  can still expire. `Service` holds the session objects and handlers, each proved to take the matching
  step. `Examples` is a run.
* `Race`, `Spool`, `Pipeline`: the downloader goroutine against the five-second select; the local
  download, `MoveFile` and `SaveData` with every operation able to fail; and the composition of
  both with the service, from the client's request to the bytes it receives. `DownloadExample` is a
  run that gets there.
* `PktLine`, `Pack`: the git framing, its decoder and demultiplexer against the printer of the
  test-data generator. `UploadPack`: the policy on what may be fetched.
* `PackagesFile`, `AptRelease`, `ReleaseText`, `AptPackages`, `DebPackage`, `AptChain`: the three apt
  inspectors, the Packages and InRelease parsers and their printers, and the chain of trust over whole
  sessions. `AptExamples` holds sessions that complete the chain; `AptDelivery` joins it to the
  pipeline, up to the bytes of a deb at the client; `AptOverlap` proves when the chain stays within one
  repository, and `DeliveryExamples` holds runs of the joint system.
* `SnapAssertion`: parsing assertions, and the recursive signature check with its key cache against
  the cache-free meaning, also for verifications that interleave. `WheelRecord`: the check of a wheel against its RECORD.

In the step systems a `State` also keeps history that the program does not: the values ever sent
on a channel, the order of recordings, the sessions that ended, the files that were trusted. It
only serves to state properties.

## Where the code does not do what is expected of it

Each of these is a lemma with the exact condition, or with one direction where it says so, and one with
an input or a run that meets it.

* `AptRelease.SectionFailsIff`: the SHA256 section parser indexes the first byte of every line
  (`inspectors/apt/release.go:364`), so it crashes exactly when an empty line follows indented lines
  only. `ReleaseText.CrashExample` is an InRelease that crashes the inspector.
* `WheelRecord.CrashIff`: a RECORD digest that is a bare `sha256`, without `=`, makes the check index
  past the end of the split (`inspectors/pip/wheel.go:389`) exactly when all lines before are in order
  and the line's size is that of the member it names, or zero when no member of that name is left.
  `WheelRecord.CrashExample` is such a RECORD.
* `WheelRecord.LackingIff`: the check reports a name as missing exactly when, all lines before being in
  order, a line with the size zero and a digest that decodes names a file that the archive lacks or an
  earlier line named already. The size is compared first, so a missing file of any other recorded size
  is a size fault, and an empty file that RECORD names twice is reported as missing although it is there;
  `WheelRecord.LackingExample`.
* `Runner.FailedApprovedIff`: the error of rewinding the file is returned without recording a rejection
  (`inspectors/inspectors.go:216-218`), so a failed run leaves the artifact approved exactly when a
  rewind failed after the approval; `Runner.RewindExample`.
* `AptChain.ChainOfTrust`: validated Packages files are remembered by digest alone
  (`inspectors/apt/packages.go:359-370`). When two repositories serve the same Packages file and both
  downloads are under inspection at once, so that neither is answered from the record, a deb of the
  second repository is approved and delivered although no InRelease of that repository vouches for the
  Packages file that lists it (`DeliveryExamples.CrossingDelivered`). The other direction only, from no
  overlap to one repository, is proved: `AptOverlap.DeliveredInOne`, from `AptChain.SameRepositoryChain` and
  `Overlap.OnceIffApart`.
* `SnapAssertion.EndlessKeys`: the signature check follows signing keys without a bound and never returns
  on key assertions that need one another, such as one served under the key it names itself
  (`SnapAssertion.EndlessExample`). One direction: assertions that signatures chain to the root end
  (`SnapAssertion.TrustedEnds`).
* `Race.ReaderLeftOpen`: the comment at `proxy/file.go:91-94` says the reader is closed when a
  background download is rejected. It is, exactly when the background flag was raised before the
  downloader looked at it (`Race.FailedBackground`); otherwise the client sees an empty body that ends
  cleanly.
* `Guarantees.ReuseAgreement`: a permissive session answers a repeated download differently from the
  first one exactly when the first one's inspectors returned an error; `Examples.ReuseExample` is a run.
* `Runner.PermissiveUnvouched`: in a permissive session the pending request and the approval may come
  from different inspectors.
* `Spool.TornBreaks`: a copy that fails half-way and whose clean-up fails too leaves a truncated file
  under the full file's digest; every other failure keeps the spool content-addressed.
* `Opinions.OverwrittenApproval`: an inspector that withdraws its approval lets a rejecting inspector
  replace the approved metadata.
* `Expiry.FailedEndIff`: a session's timer is stopped before its files are written
  (`session/session.go:157-171`), so when writing them fails the session stays, and it can still expire
  exactly when its timer had fired by then and the rest of its expiry was still to come. Ended in vain
  before its timeout, it never expires (`Expiry.FailedEndNeverExpires`).
* `History.GoneMeansFlushed` says that the files of an ended session had been written. After an expiry the
  dispatcher removes them at once, even when writing them failed (`Service.Service.HandleExpired`).
* `PktLine.RoundTrip` holds exactly for messages that are not empty, fit four length digits, do not end
  in CR or LF and are not stop words.

## Model

| member | source | states |
|---|---|---|
| Opinions.Artifact.SetArtifactMetadata | metadata/artifact.go:111-128 | every field is replaced, the type only by a non-empty one |
| Opinions.Artifact.SetRequestOpinion | metadata/artifact.go:147-176 | the inspector's request opinion is set and nothing else changes |
| Opinions.Artifact.SetResponseApproved | metadata/artifact.go:178-183 | the approval is set, and its metadata replaces the recorded one when not empty |
| Opinions.Artifact.SetResponseOther | metadata/artifact.go:187-218 | the opinion is set; its metadata counts only while no approval is recorded, in any order of the map |
| Opinions.Artifact.RequestPending | metadata/artifact.go:233-244 | the loop decides, for every map order, that no request opinion rejects and one is pending |
| Opinions.Artifact.ResponseApproved | metadata/artifact.go:259-270 | the same for the response: none rejects and one approves |
| Opinions.Artifact.IsApproved | metadata/artifact.go:354-359 | approved is a pending request and an approved response |
| Opinions.Contains | metadata/artifact.go:222-229 | the rejection loops find an opinion exactly when one inspector has it |
| Opinions.NoneRejectedSome | metadata/artifact.go:233-270 | the verdict loop equals its quantified meaning for every map order |
| Opinions.MetadataOutcome | metadata/artifact.go:178-218 | for every sequence of calls, details are those of the last call in effect and the type is the last non-empty one among them |
| Opinions.MetadataPriority | metadata/artifact.go:190-200 | when approvals are kept, the details are those of the last approving call with metadata, failing that of the last call with metadata before the first approval |
| Opinions.ApprovalRecorded | metadata/artifact.go:187-193 | an approval is on record exactly when some approving call was not replaced by its own inspector |
| Opinions.OverwrittenApproval | metadata/artifact.go:194-200 | a run in which a withdrawn approval lets other metadata win |
| Runner.RunRequestInspectors | inspectors/inspectors.go:159-173 | the request loop over the inspectors, up to the first error, which is recorded as a rejection |
| Runner.RunArtifactInspectors | inspectors/inspectors.go:176-227 | the response loop: type detection, the strict gate, rewinding, and the first error |
| Runner.RequestErrorIff | inspectors/inspectors.go:159-173 | a request run ends with an error exactly when some inspector other than the default one returns one |
| Runner.ArtifactErrorIff | inspectors/inspectors.go:176-227 | a response run ends with an error exactly when the file cannot be opened or typed, cannot be rewound for an inspector that is called, or one that is called fails |
| Runner.RequestLeft | inspectors/inspectors.go:159-173 | after a request run in which nobody failed each inspector has its last opinion on record |
| Runner.ResponseLeft | inspectors/inspectors.go:199-227 | after a response run without an error each inspector that was called has its last opinion on record |
| Runner.DefaultRequestMeans | inspectors/inspectors.go:251-256 | the default inspector adds unknown exactly when nobody rejects the request or left it pending |
| Runner.DefaultResponseMeans | inspectors/inspectors.go:258-263 | and for a response exactly when nobody rejects or approved it |
| Runner.InspectArtifact | inspectors/inspectors.go:208-223 | one inspector's turn, including the default inspector's |
| Runner.StrictGating | inspectors/inspectors.go:200-207 | after a strict run an approved artifact was left pending and approved by one inspector, and rejected by none |
| Runner.StrictEndToEnd | inspectors/inspectors.go:159-227 | from an empty artifact through both runs, that inspector was called in both |
| Runner.FailedApprovedIff | inspectors/inspectors.go:199-227 | a run that returns an error leaves the artifact approved exactly when a rewind failed once it was approved |
| Runner.FailedTurnsUnapproved | inspectors/inspectors.go:219-223 | hence a run cut short by an inspector's error, every rewind working, leaves it unapproved |
| Runner.RewindExample | inspectors/inspectors.go:216-218 | a run that fails on a rewind and leaves the artifact approved |
| Runner.PermissiveUnvouched | inspectors/inspectors.go:200-207 | a permissive run that is approved without any inspector vouching for both ends |
| Service.Service.NewWithID | session/session.go:93-133 | a new session under an id not in use, with the given or the default timeout and its timer running; the others stay |
| Service.Service.HandleCreateSession | service/handlers.go:178-202 | permissive only when allowed, nothing on invalid secrets, otherwise the table and total of the Create step, the timeout in wrapped nanoseconds |
| Service.DurationWraps | service/handlers.go:178-202 | a timeout in seconds becomes the 64-bit number of nanoseconds that agrees with it modulo 2^64 |
| Service.Service.HandleResponseInspection | service/handlers.go:98-159 | the table and reply of the Respond step on every branch: inactive, reused, not saved, started |
| Service.Service.Reuse | service/handlers.go:122-131 | the download is appended and the reply follows the recorded verdict |
| Service.Service.HandleCompleteInspection | service/handlers.go:161-176 | the table and reply of the Complete step |
| Service.Service.HandleRevokeToken | service/handlers.go:204-227 | the table of the Revoke step and the error for an unknown session or a wrong token |
| Service.Service.HandleSessionReport | service/handlers.go:229-255 | the artifacts of a live revoked session, and otherwise the error for an unknown or an active one |
| Service.Service.CheckAuth | session/session.go:376-402 | true exactly for a live, unrevoked session with its token |
| Service.Service.HandleEndSession | service/handlers.go:257-266 | an unknown id changes nothing; otherwise the reply is nil, and the session gone with its timer cancelled and session.json and every artifact written, exactly when every operation works; if not, it stays, its timer stopped |
| Service.Service.HandleExpired | service/service.go:188-203 | the Expire step: the session goes exactly when every operation works, its timer stops in any case, and exactly its files are removed even when the finish failed |
| Service.Service.RemoveResources | session/resources.go:61-68 | exactly the session's files are removed, or none |
| Service.Service.HandleAsk | service/handlers.go:83-96 | a request inspection in a session that is not live and a deletion of one that is are refused at once; otherwise a goroutine answers, as in the Handle step |
| Service.Service.SaveAll | session/session.go:162-167 | in any order of the map, exactly the artifacts before the first failing write are written |
| Service.Service.Finish | session/session.go:157-184 | the session leaves the table exactly when every operation works, the timer stops in any case, and exactly the files reached are written |
| Service.Session.AddArtifact | session/session.go:246-251 | a digest already held keeps its first artifact |
| Service.Session.AddDownload | session/session.go:272-276 | the download is appended to the artifact of its digest, if there is one |
| Service.Session.Revoke | session/session.go:187-195 | only the session's own token revokes it |
| Service.Session.CancelTimer | session/timer.go:52-55 | the timer stops and the one-slot done channel, empty before, is full |
| Service.RunResponseInspection | service/handlers.go:310-339 | the result is approval exactly when nothing failed and the opinions approve, and which reply goes with it |
| Service.RunRequestInspection | service/handlers.go:282-308 | the reply is nil exactly when no inspector failed and the session is permissive or no request opinion rejects and one is pending; otherwise which error it is |
| Protocol.RequestReplyIff | service/handlers.go:282-308 | for all inspectors and findings, when a request is let through and which error it gets otherwise |
| Protocol.StrictRequestVouched | service/handlers.go:282-308 | from an empty artifact, a strict session lets a request through only if some registered inspector other than the default one left it pending and nobody rejects it |
| Protocol.UnrecognizedRequest | inspectors/inspectors.go:251-256 | a request nobody has an opinion on is rejected in a strict session and let through in a permissive one |
| Protocol.ResponseReplyIff | service/handlers.go:310-339 | for all inspectors and findings, the result and reply of a response inspection |
| Invariants.TasksAlways | service/handlers.go:98-176 | the protocol invariant holds after every step of every run |
| Guarantees.Conservation | service/handlers.go:98-176 | a live session holds, per digest, exactly one download per reuse or handled completion, in recording order |
| Guarantees.NilIsRecorded | service/handlers.go:161-176 | no nil reply before the download is on record |
| Guarantees.NilMeansApproved | service/handlers.go:122-131 | in a strict session a nil reply means a completed inspection of that digest in that session was approved and vouched for |
| Guarantees.ReuseFollowsFirst | session/session.go:246-268 | every recorded artifact has the verdict of the first completion, and reuse accepts exactly on approval or in a permissive session |
| Guarantees.ReuseAgreement | service/handlers.go:126-130 | a reused and the first inspection agree, except exactly when a permissive session's first inspectors failed |
| Examples.ReuseExample | service/handlers.go:122-131 | a permissive session that returns the inspectors' error for a download and accepts its repetition |
| Guarantees.OneReply | service/handlers.go:36-280 | each reply channel gets one value, exactly when its work is done, and each done slot is filled at most once |
| Channels.SendsNeverBlock | service/handlers.go:36-280 | in every reachable state every send finds room in its one-slot channel: all that the handler at work may send, the final reply of an inspection and the answers of goroutines |
| Channels.DispatcherReturns | service/service.go:168-229 | a busy dispatcher can always finish the very message it holds, with its arguments, and be idle again |
| Channels.Refines | service/service.go:168-229 | every run with channels is a run of the step system, so what holds in all of those holds here |
| Guarantees.StepsAreBounded | service/handlers.go:144-158 | each step on an inspection brings it nearer to its reply and keeps its subject |
| Channels.AlwaysFinishable | service/handlers.go:36-280 | no deadlock: from every reachable state the service alone, no client taking a value, can go on until the dispatcher is idle and every inspection, request inspection and deletion has sent its one value |
| Channels.InternalEnds | service/handlers.go:36-280 | the service cannot move on its own forever: the work left bounds the length of every run of internal moves |
| Channels.StuckIffAtRest | service/handlers.go:36-280 | in a reachable state no internal move is possible exactly when the dispatcher is idle, no expired id waits and everything is answered, each by one value |
| Overlap.OnceIffApart | service/handlers.go:98-176 | in every run the inspectors see each digest at most once per session exactly when no two inspections of one digest were ever under way in it at once |
| Guarantees.BooksAlways | session/timer.go:34-55 | in every run timers, asks, totals and written files are consistent |
| History.RunGrows | session/session.go:246-276 | between any two moments of a run a live session keeps its artifacts unchanged but for appended downloads |
| History.ReportsAreMonotone | service/handlers.go:229-255 | every later successful report extends every earlier one |
| History.ReportContents | service/handlers.go:229-255 | in every run a report is given exactly for a live revoked session, and holds exactly the digests recorded in it, each with what its first completed inspection found and all downloads recorded, in order |
| History.RevokedIff | session/session.go:187-195 | a live session is revoked exactly when its token was presented for revocation |
| History.AuthorizedIff | session/session.go:376-402 | authentication succeeds exactly for a live session with its token, never revoked |
| History.RevocationIsPermanent | session/session.go:187-200 | once revoked, nobody authenticates under that id at any later moment |
| History.ReportNeedsRevocation | service/handlers.go:241-249 | a successful report implies an earlier revocation |
| History.CreationOverwritesNothing | session/session.go:94-99 | creating a session leaves every live one as it was |
| History.LeavingMeansFlushed | session/session.go:157-184 | a session leaves the table only through a finish whose every write succeeded, and stays unchanged otherwise |
| History.GoneMeansFlushed | session/session.go:157-232 | in every reachable state all final artifacts and session.json of each ended session have been written |
| Expiry.CanExpireIff | session/timer.go:34-55 | in every reachable state the dispatcher may still come to handle the expiry of a session exactly when its timer runs, or has fired and its watcher or the dispatcher has not taken it up yet |
| Expiry.FailedEndIff | session/session.go:157-171 | after an end whose writes failed the session can expire exactly when its timer had fired before |
| Expiry.FailedEndNeverExpires | session/session.go:157-171 | so a session ended in vain before its timeout never expires |
| Race.NothingBeforeApproval | proxy/file.go:83-170 | in every interleaving bytes reach the client only after a nil reply, at most one value is sent, and a handler returned before the timeout means nil |
| Race.FailedBackground | proxy/file.go:97-137 | a failed background download closes the reader exactly when the flag was raised in time; no bytes either way |
| Race.ReaderLeftOpen | proxy/file.go:88-104 | the interleaving that leaves the reader open |
| Spool.LocalDownload | proxy/file.go:199-226 | for every chunking, success exactly when the whole body is delivered, every write needed works and the close does; then the size and digests are of exactly the bytes in the file |
| Spool.LocalDownloadHandler.Read | proxy/file.go:249-257 | size and hash absorb exactly the bytes passed on |
| Spool.FileSystem.MoveFile | utils/file_utils.go:112-151 | rename, or copy and remove, with each operation's failure |
| Spool.FileSystem.SaveData | session/session.go:281-302 | an existing file is kept, otherwise the temporary one is moved, and it is removed in any case |
| Spool.MoveSucceedsIff | utils/file_utils.go:112-151 | a move succeeds exactly when the rename does or the whole copy and the removal do |
| Spool.SaveSucceedsIff | session/session.go:281-302 | saving succeeds exactly when the directory and the check work and the file is there or is moved there |
| Spool.MoveIsWhole | utils/file_utils.go:138-148 | the destination holds nothing or everything, exactly when the move is not torn |
| Spool.SaveKeepsAddressed | session/session.go:289-299 | saving keeps the spool content-addressed and overwrites no file |
| Spool.TornBreaks | utils/file_utils.go:139-143 | the torn move that leaves a truncated file |
| Pipeline.SpoolAlwaysAddressed | session/session.go:281-302 | in every reachable system each spool file has the digest in its name |
| Pipeline.OnlyApprovedBytes | proxy/file.go:83-170 | end to end, the bytes a client receives are a prefix of content with the inspected digest, after a nil reply, approved in a strict session |
| DownloadExample.BytesExample | proxy/file.go:83-170 | for every content that is not empty, a strict run whose client receives its first byte |
| PktLine.Reader.Read | inspectors/git/protocol.go:43-48 | a read delivers the front of what remains, end of file when nothing does |
| PktLine.ReadPacket | inspectors/git/protocol.go:43-84 | one packet: flush, end, delimiter, error lengths, a short read, and the trimmed line |
| PktLine.DecodeGitProtocol | inspectors/git/protocol.go:40-98 | the decoding loop, with the input left exactly after the last packet read |
| PktLine.NextPacket | inspectors/git/protocol.go:49-66 | every line read leaves strictly less input |
| PktLine.PacketBound | inspectors/git/protocol.go:49-61 | whatever the input, a packet holds at most 65531 bytes |
| PktLine.PacketMeans | inspectors/git/protocol.go:43-84 | which bytes make a flush, an empty line, a line and an error, for every input |
| PktLine.StopWords | inspectors/git/protocol.go:87-97 | decoding ends after packfile, alone or on the first side band, or NAK, and goes on after any other line |
| PktLine.RoundTrip | inspectors/craft/testdata/generate_raw.py:33-36 | decoding encoded messages and a flush returns them and stops after the flush, exactly when every message is clean |
| Pack.ReadPack | inspectors/git/utils.go:104-163 | the demultiplexing loop over a reused length buffer |
| Pack.BandMeans | inspectors/git/utils.go:104-163 | which bytes make the end, a chunk and an error, for every input |
| Pack.DemuxRoundTrip | inspectors/git/utils.go:104-163 | for any mix of sidebands exactly the pack data is written, in order |
| Pack.BuildRaw | inspectors/craft/testdata/generate_raw.py:76-85 | the chunk loop prints the preamble, the chunks and a flush |
| Pack.ChunksPayload | inspectors/craft/testdata/generate_raw.py:81-83 | the chunks of a pack are the pack, for every length including zero |
| Pack.PackRoundTrip | inspectors/craft/testdata/generate_raw.py:76-85 | decoding and demultiplexing the printed stream writes exactly the pack |
| Pack.UnpackObjects | inspectors/git/utils.go:52-93 | the bytes handed to the unpacker |
| Pack.GenerateAndUnpack | inspectors/git/utils.go:42-94 | generator and service composed give the pack back |
| UploadPack.InspectRequest | inspectors/git/git_upload_pack.go:70-123 | no opinion, an opinion or an error, as headers, version and body decide |
| UploadPack.InspectArtifact | inspectors/git/git_upload_pack.go:208-258 | the opinion on a response, dispatched by the command noted on request |
| UploadPack.InspectLsRefsResponse | inspectors/git/git_upload_pack.go:260-308 | the opinion of LsRefsOutcomeIff, and the heads and tags of a response that decodes are stored |
| UploadPack.LsRefsOutcomeIff | inspectors/git/git_upload_pack.go:260-308 | a response in plain text is approved exactly when it decodes, its trimmed messages being noted, and rejected otherwise; others get no opinion |
| UploadPack.ReadRefIff | inspectors/git/git_upload_pack.go:288-304 | a line is of a head or a tag exactly when its second word is refs/heads/ or refs/tags/ and the name |
| UploadPack.RefsAfterIff | inspectors/git/git_upload_pack.go:280-304 | the refs change exactly after an ls-refs response in plain text that decodes |
| UploadPack.RefsStored | inspectors/git/git_upload_pack.go:288-304 | after storing, each head and tag of the repository is at the object of the last line that names it, or where it was; other repositories stay |
| UploadPack.RepositoryRefs.InitRepoState | inspectors/git/git_upload_pack.go:125-135 | a repository not seen before starts without heads and tags |
| UploadPack.RepositoryRefs.Store | inspectors/git/git_upload_pack.go:288-304 | the storing loop |
| UploadPack.InspectRequestCommand | inspectors/git/git_upload_pack.go:137-195 | the command loop and the opinion on the request |
| UploadPack.ReadFetch | inspectors/git/git_upload_pack.go:154-171 | the fetch loop: last deepen line, distinct wants in order, want-refs |
| UploadPack.FetchResponseIsShallow | inspectors/git/git_upload_pack.go:370-396 | whether a shallow and an unshallow line are present |
| UploadPack.InspectFetchResponse | inspectors/git/git_upload_pack.go:310-368 | the opinion of FetchOutcomeIff |
| UploadPack.FetchOutcomeIff | inspectors/git/git_upload_pack.go:310-434 | for every request and response: never approved; unknown exactly when the response is shallow, one object and no ref is wanted and it checks out; none when the type is not recognised or the empty name is wanted; rejected otherwise |
| UploadPack.FetchRefuses | inspectors/git/git_upload_pack.go:310-396 | whatever was noted, a response that does not decode, has no shallow line or has an unshallow one is rejected |
| UploadPack.OnlyLsRefsApproved | inspectors/git/git_upload_pack.go:208-368 | among any other inspectors the inspector approves only the plain, decodable response to an ls-refs request |
| UploadPack.RefusedUnapproved | inspectors/git/git_upload_pack.go:310-396 | in every run that calls the inspector and returns no error, a refused fetch response is rejected and its artifact not approved |
| UploadPack.ResponseMeans | inspectors/git/git_upload_pack.go:208-258 | which check a response gets, and rejection when the request noted no repository or allowed command |
| UploadPack.RequestOutcomeIff | inspectors/git/git_upload_pack.go:70-195 | when a request gets an error, no opinion, unknown, pending or rejection |
| UploadPack.VendorIsServer | inspectors/git/git_upload_pack.go:99-104 | whatever is said of a response, its vendor is the server of the request |
| UploadPack.RequestPendingIff | inspectors/git/git_upload_pack.go:149-193 | a request stays pending exactly for ls-refs, or for a depth-1 fetch of at most one distinct object, and is rejected otherwise |
| UploadPack.WantsIff | inspectors/git/git_upload_pack.go:164-169 | the collected wants are one ref exactly when the messages want it and no other |
| UploadPack.FetchChecksOutIff | inspectors/git/git_upload_pack.go:310-434 | a fetch response ends with a checkout exactly when the response is shallow, one object and no ref is wanted, and checking it out works |
| UploadPack.FetchPolicy | inspectors/git/git_upload_pack.go:137-434 | an approved artifact with a checkout path: last command fetch, last deepen "deepen 1", one distinct want, no want-ref, a shallow and no unshallow line, and the checkout is of that want |
| PackagesFile.ParsePackages | inspectors/apt/packages.go:372-427 | the scanner loop: count, entries and errors |
| PackagesFile.TakeField | inspectors/apt/packages.go:392-424 | one line of a stanza, as the switch takes it |
| PackagesFile.PrintParse | inspectors/apt/packages.go:372-427 | parsing printed stanzas yields their number and the digest-to-entry map, later duplicates winning |
| PackagesFile.BlankLineSeparates | inspectors/apt/packages.go:389-392 | no field crosses a blank line |
| PackagesFile.EntryIsListed | inspectors/apt/packages.go:417-422 | a digest has an entry exactly when a line lists it, and the entry is what its stanza had said up to the last such line |
| PackagesFile.ScanFailsIff | inspectors/apt/packages.go:392-424 | a file does not parse exactly when a Size line has no 64-bit number or a SHA256 line no digest |
| PackagesFile.ScanFields | inspectors/apt/packages.go:389-416 | the stanza read so far has the last value of each field since the last blank line, and every Package line was counted |
| Digests.HexRoundTrip | metadata/digests/digests.go:77-91 | decoding a printed digest gives it back |
| Digests.NewSha256DigestIff | metadata/digests/digests.go:77-91 | exactly 64 hexadecimal digits are a digest, each two of them a byte |
| AptRelease.ParseUpToSignatures | inspectors/apt/release.go:316-354 | the header loop and where it stops |
| AptRelease.HeaderIff | inspectors/apt/release.go:316-354 | a header is read exactly when a SHA256 field comes after no more than 101 others; each field has its last value that is not empty, and the section is what follows |
| AptRelease.ParseSignaturesSection | inspectors/apt/release.go:359-393 | the section loop: files, ill-formed lines, and the crash on an empty line |
| AptRelease.SectionFailsIff | inspectors/apt/release.go:362-366 | exactly when the section parser indexes an empty line |
| AptRelease.SectionBadIff | inspectors/apt/release.go:368-389 | no line is reported exactly when every indented line has a digest of 64 hexadecimal digits, a 64-bit size and a path |
| ReleaseText.CrashExample | inspectors/apt/release.go:362-366 | an InRelease that crashes the inspector, under any configuration and state |
| ReleaseText.HeaderRoundTrip | inspectors/apt/release.go:316-354 | header fields are read back as written, and the section is what follows them |
| ReleaseText.SectionRoundTrip | inspectors/apt/release.go:359-393 | the listed files are read back as written, later entries for a digest winning |
| ReleaseText.ReleaseRoundTrip | inspectors/apt/release.go:316-393 | both parsers give a written release back |
| AptRelease.FilesAreListed | inspectors/apt/release.go:368-389 | the recorded files are exactly those a line of the section lists |
| AptRelease.AptReleaseInspector.InspectRequest | inspectors/apt/release.go:110-182 | index files are rejected before a release of their repository is known |
| AptRelease.RequestIff | inspectors/apt/release.go:110-182 | an InRelease URL is left pending, an index file exactly when a release of its aliased repository is on record, and rejected otherwise |
| AptRelease.AptReleaseInspector.InspectArtifact | inspectors/apt/release.go:186-214 | which check applies by type |
| AptRelease.AptReleaseInspector.InspectInRelease | inspectors/apt/release.go:203-314 | the opinion, record and crash of InReleaseIff |
| AptRelease.InReleaseIff | inspectors/apt/release.go:203-314 | approved and recorded exactly when a configuration entry was noted, the text is clearsigned with all required fields, its signature verifies under that entry's key and all lines are well-formed; rejected exactly when it reads as an InRelease but signature or a line is bad; crashed exactly on an empty section line |
| AptRelease.InReleaseDetails | inspectors/apt/release.go:258-313 | the metadata, annotations, vendor and files an approval records |
| AptRelease.ApprovesInRelease | inspectors/apt/release.go:186-214 | the inspector approves nothing but verified InRelease files in plain text |
| AptRelease.IndexFileIff | inspectors/apt/release.go:186-200 | which index file is checked by which URL, and that it is not rejected exactly when listed |
| AptRelease.OtherFileIff | inspectors/apt/release.go:199-201 | anything else is inspected only when it is plain text, as an InRelease file |
| AptRelease.ListedNotes | inspectors/apt/release.go:520-538 | the notes on a listed index file are the path, digest and vendor of the release on record |
| AptRelease.IndexListedIff | inspectors/apt/release.go:462-682 | an index file is not rejected exactly when its path parses, a digest in the URL of a Packages file is its own, its repository is noted and configured and has a recorded release, and that lists the digest, with the size except for Packages files; exactly then it gets the note the packages inspector relies on |
| AptRelease.AptReleaseInspector.ValidatePackagesFile | inspectors/apt/release.go:462-538 | the checks on a Packages file, in the code's order |
| AptRelease.AptReleaseInspector.ValidateTranslationFile | inspectors/apt/release.go:545-613 | the checks on a translation file |
| AptRelease.AptReleaseInspector.ValidateCommandsFile | inspectors/apt/release.go:615-682 | the checks on a commands file |
| AptRelease.AptReleaseInspector.CheckListed | inspectors/apt/release.go:504-538 | the checks the three end with: repository, release, digest and size |
| AptPackages.AptPackagesInspector.InspectRequest | inspectors/apt/packages.go:223-255 | the request notes for Packages and deb URLs |
| AptPackages.RequestIff | inspectors/apt/packages.go:223-255 | requests of Packages files and debs are left pending, others get no opinion |
| AptPackages.AptPackagesInspector.InspectArtifact | inspectors/apt/packages.go:257-264 | deb packages first, then Packages files |
| AptPackages.IndexOutcomeIff | inspectors/apt/packages.go:268-357 | a Packages file is approved, and its digest counted as validated, exactly when its request was noted in full under a configured repository, it parses, and the release inspector vouched for it; otherwise it is rejected, or unknown without suite, component or architecture; noted in full, it is recorded under its origin with its entries as far as it parses, and otherwise nothing is recorded |
| AptPackages.IndexDetails | inspectors/apt/packages.go:268-356 | the metadata of an approved Packages file is what its request noted, with the vendor the release inspector noted |
| AptPackages.AptPackagesInspector.InspectIndex | inspectors/apt/packages.go:268-295 | the annotation checks, in the code's order; IndexOutcomeIff says what they come to |
| AptPackages.AptPackagesInspector.PlaceIndex | inspectors/apt/packages.go:297-319 | the repository and its origin alias, and the vendor |
| AptPackages.AptPackagesInspector.RecordIndex | inspectors/apt/packages.go:311-356 | recorded empty first, then with its entries; validated only on the release inspector's note |
| AptPackages.AptPackagesInspector.AddPackages | inspectors/apt/packages.go:429-439 | one file is recorded under its origin and path |
| AptPackages.AddMeans | inspectors/apt/packages.go:429-439 | adding a file replaces what was known under its origin and path and nothing else |
| AptPackages.AptPackagesInspector.ValidateDebianPackage | inspectors/apt/packages.go:460-526 | the verdict rests on some file that lists the digest, whichever the map yields, or on none |
| AptPackages.DebOutcomeIff | inspectors/apt/packages.go:460-526 | a deb is never approved, and not rejected exactly when the file picked among those of its aliased origin is validated and lists it with its size and URL architecture; then it carries the flag |
| AptPackages.DebDetails | inspectors/apt/packages.go:490-521 | the metadata and notes of a listed deb are what the file listing it says |
| DebPackage.DebInspector.InspectArtifact | inspectors/deb/deb.go:81-106 | approval only on the packages inspector's true flag |
| DebPackage.OutcomeIff | inspectors/deb/deb.go:81-106 | approved exactly when its control file is read and the packages inspector flagged it, and rejected otherwise |
| AptChain.Always | inspectors/apt/packages.go:257-357 | the chain invariant holds after every step of every session |
| AptChain.ChainOfTrust | inspectors/apt/packages.go:460-526 | an approved deb is listed with its size and URL architecture by a recorded Packages file of its origin, and that file's digest by a recorded, verified InRelease of a repository it was downloaded from |
| AptChain.ApprovedIsVerified | inspectors/apt/release.go:203-314 | in every run, whatever the release inspector approved is clearsigned, verified under the key of the entry it was downloaded for and has only well-formed lines |
| AptChain.SameRepositoryChain | inspectors/apt/packages.go:359-370 | when no digest of a Packages file was recorded from two repositories, that InRelease is of the very repository the listing came from |
| AptExamples.ChainExample | inspectors/apt/packages.go:460-526 | a session of an InRelease, a Packages file and a deb that completes the chain |
| AptExamples.CrossingExample | inspectors/apt/packages.go:359-370 | the inspectors' part of a session of two repositories in which the chain crosses them |
| AptDelivery.DebDelivered | proxy/file.go:83-170 | bytes received in a strict session are of content an approved inspection saw, and if the deb inspector approved it, of a deb chained in that session |
| AptOverlap.ApartIsOneRepository | inspectors/apt/packages.go:359-370 | in every run without overlapping inspections of one digest each session recorded every digest of a Packages file from one repository |
| AptOverlap.DeliveredInOne | proxy/file.go:83-170 | then the bytes of a deb that reach a client of a strict session are of one listed by a Packages file whose own repository's verified InRelease lists it |
| DeliveryExamples.DebExample | proxy/file.go:83-170 | a run without overlaps whose client receives the first byte of a deb the deb inspector approved |
| DeliveryExamples.CrossingDelivered | service/handlers.go:122-159 | a run in which two inspections of one Packages file overlap and the client receives the first byte of a deb whose chain crosses repositories |
| AptChain.InReleaseLists | inspectors/apt/release.go:266-313 | what is recorded as a release is listed in text verified under the key of the entry it was downloaded for |
| AptChain.DebAccepted | inspectors/apt/packages.go:490-521 | a deb the packages inspector flags and does not reject is chained |
| AptChain.ListedDebPasses | inspectors/deb/deb.go:94-105 | a deb that every file listing it lists correctly, all validated, passes both inspectors |
| SnapAssertion.ParseHeaders | inspectors/snap/assertion.go:195-217 | the header loop |
| SnapAssertion.HeaderRoundTrip | inspectors/snap/assertion.go:195-217 | header entries, continued over indented lines or not, are read back as written, the last of each key counting |
| SnapAssertion.HeaderEnds | inspectors/snap/assertion.go:209-212 | a line without a colon that is not indented ends the headers |
| SnapAssertion.NewAssertion | inspectors/snap/assertion.go:153-190 | the division into headers, body, content and signature |
| SnapAssertion.PrintParse | inspectors/snap/assertion.go:153-190 | parsing a written assertion gives its parts back, the content being everything before the last blank line |
| SnapAssertion.WrittenParse | inspectors/snap/assertion.go:153-217 | an assertion written from its header entries, body and signature is parsed into them |
| SnapAssertion.ParseFailsIff | inspectors/snap/assertion.go:158-162 | only a text without a blank line is refused |
| SnapAssertion.AccountKeys.VerifySignature | inspectors/snap/assertion.go:221-286 | the recursive check with its cache, in the code's order |
| SnapAssertion.CachedAgrees | inspectors/snap/assertion.go:233-283 | with any sound cache an assertion is accepted exactly when signatures chain to the root key; the cache stays sound, never holds the root key and forgets nothing |
| SnapAssertion.CacheInvisible | inspectors/snap/assertion.go:233-242 | the answer with a sound cache is the answer without |
| SnapAssertion.AlwaysAgrees | inspectors/snap/assertion.go:221-286 | whatever was verified before, the answer is the cache-free one |
| SnapAssertion.ConcurrentAgrees | inspectors/snap/assertion.go:221-286 | the same for verifications whose steps interleave in any way: one that began with an assertion and has its answer accepts exactly if that is trusted; the cache is sound throughout |
| SnapAssertion.SubjectKept | inspectors/snap/assertion.go:221-286 | throughout a run a verification is of the assertion it began with |
| SnapAssertion.TrustedEnds | inspectors/snap/assertion.go:256-264 | the recursion ends on every trusted assertion |
| SnapAssertion.EndlessKeys | inspectors/snap/assertion.go:256-264 | key assertions that need one another are followed without end |
| SnapAssertion.EndlessExample | inspectors/snap/assertion.go:256-264 | one served under the key it names itself |
| WheelRecord.CheckRecord | inspectors/pip/wheel.go:347-418 | the line loop over a shrinking map, and the extra files in any order |
| WheelRecord.TakeLine | inspectors/pip/wheel.go:358-409 | one line: struck off, faulty, missing or crashing |
| WheelRecord.ProcessOpinion | inspectors/pip/wheel.go:117-143 | the opinion from the faults |
| WheelRecord.FaultlessIff | inspectors/pip/wheel.go:347-418 | no fault exactly when every line has three fields and is RECORD's own, by its name and without a digest, or gives the size and the decoded digest of a member no earlier line names, and every member is named |
| WheelRecord.FaultlessMeans | inspectors/pip/wheel.go:358-416 | then lines without a digest are RECORD's own, and every other member is named by exactly one line, with its size and digest |
| WheelRecord.IntegrityIff | inspectors/pip/wheel.go:358-409 | which integrity fault is noted, and on which line |
| WheelRecord.ExtraIff | inspectors/pip/wheel.go:411-416 | a member is reported as extra exactly when every line is in order and none names it |
| WheelRecord.WheelApprovedIff | inspectors/pip/wheel.go:117-143 | approved exactly when requirements hold and RECORD is complete, and otherwise rejected, for the requirements first |
| WheelRecord.CrashIff | inspectors/pip/wheel.go:358-389 | the check crashes exactly when some line, all before it being in order, has three fields, the digest field sha256 and the size expected of it |
| WheelRecord.CrashExample | inspectors/pip/wheel.go:384-389 | a RECORD that crashes the check |
| WheelRecord.LackingIff | inspectors/pip/wheel.go:358-399 | the check reports a name as missing, and nothing else, exactly when a line, all before it being in order, names it with size zero and a digest that decodes, and no member of that name is left |
| WheelRecord.LackingExample | inspectors/pip/wheel.go:377-399 | an absent empty file, and a present one named twice, each reported as missing |
| WheelRecord.WrittenFaultless | inspectors/pip/wheel.go:347-418 | a RECORD written for distinct members passes |

## Left out

- HTTP and TLS plumbing, access rules, the control and fetchctl servers, configuration loading, logs.
- Inspectors that match a URL and decode one document; they stand in the model as arbitrary scripts.
- Session ids are not created again after their session ended, and generated ids are new: the Create
  step requires it. `NewWithID` alone would reuse an ended id.
- `FinishAll` during shutdown, idle shutdown, the unbuffered reply of proxy authentication, and the
  dispatcher's select over dying components.
- Removing a session's files appears in the pipeline only as its Purge move, which may delete anything
  at any time.
- The channel of expired ids is in the step system, its watchers waiting while its one slot is taken.
- A write to the client's pipe may stop anywhere; why it stops is not modelled.
- Scanner lines are inputs. Go's scanner stops silently at an over-long line, which then is the end of
  the input; a decompression error half-way is the same.
- A zero-length read at the end of the input reports end of file here. Go readers differ on this; it
  matters only for an empty last packet.
- Opinion reasons are names for the program's texts. Annotations that no inspector reads are shortened
  or dropped, such as key ids and expected values.
- Rewinding the file within an inspector is taken to work; between inspectors it may fail.
- Parsing URLs, aliases and configuration patterns: a URL is a record of what the patterns yield.
- The text of the control file, license detection and the data archive of a deb: the outcome of reading
  them is an input.
- Reading a wheel's archive and metadata: member names, sizes and digests are inputs, and the other
  requirement faults are a parameter.
- Each inspector call is one atomic step. In `AptDelivery` the apt inspectors take theirs while the
  inspection is under way, and it ends with the findings they left.
- AptChain.ChainOfTrust: does not say that the InRelease is of the repository the listing came from;
  DeliveryExamples.CrossingDelivered shows that it need not be, AptOverlap.DeliveredInOne when it is.
- Channels.InternalEnds: the steps of timers and their watchers are not counted among the internal moves.
- SnapAssertion.CachedAgrees: requires that following signing keys ends, because the code recurses
  without a bound; EndlessKeys shows assertions on which it does not end, TrustedEnds that none is trusted.
- SnapAssertion.PrintParse: requires a head and signature without blank lines or newlines at their
  inner ends, as assertions are written.
- Runner.FailedTurnsUnapproved: requires that rewinding the file works; FailedApprovedIff has no such
  condition.
- SnapAssertion.HeaderRoundTrip: keys without a colon, newline or leading blank, and trimmed values, as
  the format writes them.
- UploadPack.RefusedUnapproved: requires that the inspector is called and the run returns no error; a run
  cut short may leave the response without an opinion.
- AptRelease.InReleaseIff: for an artifact the inspector has no opinion on yet, as each inspector is
  called once.
- AptPackages.DebOutcomeIff: likewise.
- AptPackages.IndexOutcomeIff: for an artifact the packages inspector has no opinion on yet, as each
  inspector is called once.
- Spool.SaveKeepsAddressed: excludes the torn move; TornBreaks shows why.
- Pipeline.SpoolAlwaysAddressed: excludes the torn move in the same way.
- Pack.PackRoundTrip: bounds the commit id by what four length digits can frame.
- Opinions.MetadataPriority: requires that no inspector replaces its own approval; OverwrittenApproval
  shows why, and MetadataOutcome covers all sequences.
- PackagesFile.PrintParse: digests have 32 bytes, sizes are 64-bit and values are trimmed, as the format
  writes them.
