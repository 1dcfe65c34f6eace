# my98: encrypted disk, signed names, pipelines and codecs

my98 runs a machine over an encrypted disk that is shared by content. This project
models the parts of it whose correctness is not visible in any one function, and
proves what they promise.

- **The linear encrypted disk.** Chunked ciphertext, a least-recently-used cache of
  plaintext and a map of dirty 512-byte sectors together are one flat byte array, the
  view. `FlatDisk` is that array with what commands may do to it and what follows for
  whole runs: when a command succeeds, that a save completes, that tokens name one
  candidate, and that a saved state comes back.
  `DiskWorker.Worker.Run` proves that every sequence of reads, writes, saves,
  verifications, discards, state saves and restorations and cancellations, with a
  failure possible at every await, refines it. Below lie `Octets`, `Envelope`,
  `DiskHeader`, `ChunkCache`, `DiskView`, `SectorCodec`, `DiskImage` and `DiskEngine`.
- **Replication and garbage collection.** `Replication` is a step system: what runs
  between two awaits is one step, and downloads, adoptions and collections interleave
  freely. No object that an adopted publication names is ever missing or removed.
- **Signed names.** `Publications` holds the order on records, `Names` the store and
  its transactions, `Resolver` the bounded cache with its concurrent lookups.
- **Two codecs.** `StateFormat` says what a `.my98state` container is and when one is
  accepted; `StateStream` is the encoder and the decoder over streams cut anywhere.
  `Bencode` is the bencoding of torrent metadata as the reader takes it, `Utf8` the text
  of its keys, `BencodeReader` the reader with its shared cursor, `BencodeCanonical`
  and `BencodeKeys` say when accepted bytes are canonical, and `Metadata` is the
  verification built on it.
- **Concurrent pipelines in the browser.** `StateInput` (ordered read-ahead),
  `Prefetch` and `StartupRanges` (startup prefetch), `Progress` (verified bytes),
  `DiskBuffer` (the emulator's request queue) and `RangeOrder` (prefetch order).

Code that changes state is modelled by classes and loops, each proved against functions
on values; the laws are lemmas about those functions and invariants of the classes.

## Assumptions

Cryptography is ideal. A byte of a ciphertext or signature is a symbol that names the
operation it came from, so an envelope opens only to what was sealed, in the context in
which it was sealed; framing, lengths, offsets and indices are concrete. Digests are
ideal or parameters. Reads of stored files fail, come back short, or return the true
bytes; every await may fail or be cancelled. Whether that happens is an input of each
disk operation: a *calm* one is neither cancelled nor refused beforehand, and nothing it
asks for fails; `late` is the failure of the transport after a commit or a discard. gzip
and JSON are function parameters of which the round-trip results ask that reading
inverts writing, for lengths and sizes up to 2^30; the caller's metadata is a name for a
JSON value. The JSON text of the state header is concrete, so that its length is.
`Replication.AdoptedIsFaithful` and the lemmas it rests on assume one info hash per key
and sequence; `AdoptedStored` and `RemovalSpares` do not.

## Where the code says less than its description

- The bencode reader calls for canonical input, but its text decoder drops one leading
  byte-order mark: `i<EF BB BF>5e` is read as 5. Re-encoding therefore gives back the
  bytes exactly when no number or key carried a mark (`BencodeCanonical.CanonicalIff`;
  the example is `BencodeCanonical.MarkedInteger`). Metadata verification is unaffected,
  because it hands on the original bytes of the info value.
- The same reader orders the keys of a dictionary by their UTF-16 text, canonical
  bencoding by their bytes. An accepted dictionary is in byte order exactly when no two
  of its keys first differ in a code point from E000 to FFFF and one above
  (`BencodeKeys.ByteOrderIff`); such keys are accepted in the other order only
  (`BencodeKeys.CrossedKeys`). Keys are distinct all the same.
- A pending candidate is compared only when it arrives. A different publication of the
  same sequence may be observed afterwards, and the candidate then stays until a later
  adoption (`Names.PendingMayContradict`). Candidates and observed records agree
  through a run exactly when no record is observed or published while another value is
  pending at its sequence (`Names.AgreeStep`, `Names.AgreeRun`). The order of the other
  tables is not touched.
- An error from the disk worker does not always mean that nothing has happened. A commit
  swaps the disk and a discard drops the dirty map before the transport of a remote
  publication is told to stop prefetching; that call may fail or be cancelled, and the
  error is the command's. `DiskWorker.Worker.Proceed` and `DiskWorker.Worker.Revert` say
  when, both ways, and `DiskWorker.Worker.ReportLate` is such a run of the worker. A
  preparation drops the candidate before it, even if it fails. For every other command,
  and for these where there is nothing to tell or to drop, an error means "unchanged"
  (`FlatDisk.FailureIsSilent`, both ways).
- The resolver gives a caller that knows a record nothing older when it answers at once,
  but a caller that waits may get something older: it may join a lookup that began
  before its record was known, and its cache entry may be evicted or invalidated before
  the lookup ends (`Resolver.WaiterMayGoBack`). `Resolver.OutcomeIff` is the exact
  condition at the end of a lookup; `Resolver.WaiterForward` and `Resolver.OwnLookup`
  say what callers can rely on over runs.

## Model

| member | source | states |
|---|---|---|
| Envelope.OpensIffSealed | src/crypto/src/lib.rs:59-121 | an envelope opens to a text if and only if sealing that text under the same key, kind, nonce and context, with some salt, gives that envelope |
| Envelope.OpensInOneContext | src/crypto/src/lib.rs:91-121 | an envelope opens under at most one key, kind, nonce and context |
| Envelope.DescriptorIff | src/crypto/src/lib.rs:240-257 | a descriptor opens to a disk exactly when it was sealed for that disk by this owner |
| DiskHeader.FileSizeInjective | src/disk/src/lib.rs:62-67 | a file length names at most one disk size |
| DiskHeader.HeaderSizeIff | src/disk/src/lib.rs:91-114 | a header is accepted with a size exactly when its fields are the encoding of that size and the file length is the one for it |
| DiskHeader.HeaderIff | src/disk/src/lib.rs:78-131 | a header parses to a disk and size exactly when this owner made it for them |
| ChunkCache.TotalRemove | src/disk/src/lib.rs:152-158 | removing any entry takes exactly its bytes off the total, whichever entry recursion picks first |
| ChunkCache.CutOldest | src/disk/src/lib.rs:156-159 | evicting the oldest entry moves the cut just past its tick, and no earlier cut would have left room |
| ChunkCache.Cache.Get | src/disk/src/lib.rs:145-151 | a hit returns the stored bytes and makes the entry the most recent; the byte counter is untouched |
| ChunkCache.Cache.MakeRoom | src/disk/src/lib.rs:156-159 | eviction ends, leaves room within the limit, and never asks an empty map for its oldest entry |
| ChunkCache.Cache.Put | src/disk/src/lib.rs:152-163 | the counter stays exact and within the limit, ticks stay distinct, and the survivors are the longest most recently used suffix that fits beside the new entry |
| DiskImage.Image.Original | src/disk/src/lib.rs:180-209 | a chunk obtained, from cache or file, is the authenticated plaintext of that chunk; the view does not change |
| DiskImage.Image.Read | src/disk/src/lib.rs:210-243 | a successful read is exactly the slice of the flat view: chunk plaintext with the dirty sectors over it, across mixed granularities and a short tail; calm, it fails only out of bounds or for a byte that has no authentic chunk |
| DiskImage.StagedSplices | src/disk/src/lib.rs:536-556 | laying the staged sectors over a dirty map gives exactly the view with the written slice replaced |
| DiskImage.Image.Differs | src/disk/src/lib.rs:410-427 | the comparison finds a difference exactly when the view differs from the file; calm, it fails exactly when a written sector lies over a lost chunk |
| DiskView.Reopens | src/disk/src/lib.rs:62-67 | a header followed by a complete run of records has the one acceptable length and, read back, is the view they were made from |
| DiskEngine.Engine.Open | src/disk/src/lib.rs:354-373 | opening yields the disk and size the header names, with an empty dirty map; a failure leaves the engine as it was |
| DiskEngine.Engine.BeginCreate | src/disk/src/lib.rs:374-383 | a creation captures the raw content; only with no disk open and no save in preparation |
| DiskEngine.Engine.BeginSave | src/disk/src/lib.rs:401-435 | true exactly when the view differs from the file, and then the save targets the present view; calm, it fails exactly when a save is in preparation or a written sector lies over a lost chunk |
| DiskEngine.Engine.AcceptUnchanged | src/disk/src/lib.rs:436-445 | dropping the marks never changes the view; calm, it is refused exactly when anything was written since the comparison |
| DiskEngine.Engine.Next | src/disk/src/lib.rs:455-486 | a success emits the next record of the captured view or says there is none left; a failure emits nothing and keeps the place; calm, it fails exactly when there is no save, it is stale or the next chunk is lost |
| DiskEngine.Engine.Accept | src/disk/src/lib.rs:487-511 | succeeds only when header and records are complete and of the exact total length, and what was emitted opens, for this owner, to the view held throughout; fails only when cancelled, read-only, without a save, stale, incomplete or of another total |
| DiskEngine.Engine.Read | src/disk/src/lib.rs:517-525 | a successful read shows the engine's view; calm, it fails only for bytes out of bounds or lost |
| DiskEngine.Engine.Write | src/disk/src/lib.rs:526-559 | a success replaces exactly its slice and raises the revision; a failure or cancellation at any point leaves dirty map, view and revision as they were; calm, it fails exactly out of bounds or when a byte to be kept of a sector written in part is lost |
| DiskEngine.Engine.Discard | src/disk/src/lib.rs:560-569 | the view returns to the file, and every save or verification in progress becomes void |
| DiskEngine.Engine.ClearCache | src/disk/src/lib.rs:570-574 | forgetting all cached chunks changes neither view nor dirty map |
| DiskEngine.Engine.VerifyStep | src/disk/src/lib.rs:580-607 | a digest is the hash of the whole view, every byte fed once and in order, whatever failed on the way; calm, a step fails exactly when there is no verification, it is stale or its chunk is lost |
| DiskEngine.Engine.StateOverlay | src/disk/src/snapshot.rs:7-20 | the bytes are the serialisation of the dirty map |
| DiskEngine.Engine.ForkState | src/disk/src/snapshot.rs:23-72 | accepts exactly the serialisations of well-formed dirty maps; the fork's view is the base with that map, and it shares no mutable state with the original |
| SectorCodec.OneMap | src/disk/src/snapshot.rs:31-54 | bytes serialise at most one dirty map |
| SectorCodec.OneSerialisation | src/disk/src/snapshot.rs:13-19 | a dirty map has at most one serialisation |
| SectorCodec.Serialize | src/disk/src/snapshot.rs:13-19 | the loop in key order produces the serialisation |
| SectorCodec.Deserialize | src/disk/src/snapshot.rs:31-54 | bytes are accepted if and only if they serialise a well-formed dirty map, including the short tail sector and the overflow check |
| SectorCodec.RoundTrips | src/disk/src/snapshot.rs:7-54 | reading what was written gives back the map, and writing what was read gives back the bytes |
| DiskWorker.Worker.Commit | src/disk/web/worker.js:71-88 | the end of a save: the assembled parts open, for this owner, to the view that was saved and become the file behind the disk under a name not used before; on an error the disk is what it was |
| DiskWorker.Worker.Save | src/disk/web/worker.js:181-184 | the file that comes out is the encoding of the machine state and of the serialised difference between the view and its file, under the header of that file |
| DiskWorker.Worker.Prepare | src/disk/web/worker.js:185-217 | preparing drops any earlier candidate; it succeeds only with a stream that decodes, over the header of the open file, to an overlay that serialises a dirty map, and then holds the saved disk with that map over it under a token never given before |
| DiskWorker.Worker.ReadCandidate | src/disk/web/worker.js:218-221 | a read succeeds only with the token of the candidate and then shows the candidate, whatever has happened to the open disk |
| DiskWorker.Worker.DropCandidate | src/disk/web/worker.js:222 | drops the candidate with its own token and does nothing with another |
| DiskWorker.Worker.Restore | src/disk/web/worker.js:223-230 | committed only with its token, an unchanged revision and an unchanged source, and calm always then; the disk is the candidate afterwards |
| DiskWorker.Worker.Proceed | src/disk/web/worker.js:225-230 | once admitted the candidate becomes the disk whatever is reported, and an error is reported exactly when a remote disk without a prefetch has to be told and the transport fails |
| DiskWorker.Worker.Revert | src/disk/web/worker.js:283 | the view returns to the file whatever is reported, and an error is reported exactly when a remote disk has to be told and the transport fails |
| DiskWorker.Worker.Run | src/disk/web/worker.js:71-294 | every run of commands, with any failures, refines one flat byte array with its saves, verifications and candidate in progress: each reply and each change is the one the array allows, and a command in which nothing goes wrong succeeds exactly when its guard holds |
| DiskWorker.Worker.ReportLate | src/disk/web/worker.js:225-283 | a commit or a discard of a remote disk whose transport fails reports an error and has happened |
| FlatDisk.CalmIff | src/disk/web/worker.js:181-294 | a command in which nothing goes wrong beforehand succeeds exactly when the guard that can be read off the array holds and the transport does not fail afterwards |
| FlatDisk.FailureIsSilent | src/disk/web/worker.js:185-283 | an error is sure to mean that nothing has changed exactly for commands other than a discard of a remote disk, a commit that would be accepted of its candidate without a prefetch, and a preparation in the place of a candidate; all of it is known before the call |
| FlatDisk.LateFailure | src/disk/web/worker.js:225-283 | whenever the transport fails to be told, the reply is an error and the array is the committed or discarded one |
| FlatDisk.SaveCompletes | src/disk/web/worker.js:71-88 | a save in which nothing goes wrong succeeds at every step and leaves a file that opens, for its owner, to the array as it was |
| FlatDisk.TokenReads | src/disk/web/worker.js:214-227 | through any run, a read or commit that succeeds with a token shows or installs the candidate prepared under that token and no other |
| FlatDisk.SaveRestores | src/disk/web/worker.js:181-217 | a state saved of a disk and prepared over the same file gives back the array of the moment of saving, with the machine state and metadata that went in, however the stream is cut and whatever size is declared |
| FlatDisk.StateComesBack | src/disk/web/worker.js:181-230 | through any run, saving a state, preparing its file and committing under the token brings the array back to what it was at the save, unless the disk was saved to a new file before the preparation |
| FlatDisk.RestorationCompletes | src/disk/web/worker.js:181-230 | and if nothing goes wrong it is sure to: the preparation succeeds when no save is in the way, the commit brings the array back while nothing has changed since, and an error is reported only by the transport afterwards |
| Replication.InvStep | src/torrent/my98_torrent/service.py:82-179 | every step of the interleaved downloads, adoptions and collections keeps the invariant that ties handles, locks, active sets and stored objects together |
| Replication.RemovalSpares | src/torrent/my98_torrent/service.py:156-163 | an object is removed only if no adopted publication, no active job, no listed record and no readable descriptor names it |
| Replication.AdoptedStored | src/torrent/my98_torrent/service.py:82-179 | in every state of every run, the data of each object an adopted publication names is stored, with no assumption on hashes; for its metadata see AdoptedIsFaithful |
| Replication.AdoptedIsFaithful | src/torrent/my98_torrent/service.py:82-179 | with one info hash per key and sequence, an adopted row lists exactly what its descriptor lists, and data and metadata of all of it are stored, through any interleaving and restart |
| Publications.CompareIff | src/torrent/my98_torrent/protocol.py:107-120 | comparing succeeds exactly when the candidate may replace what is there, and reports news exactly for a higher sequence |
| Names.InvCommit | src/torrent/my98_torrent/store.py:35-117 | every transaction keeps adopted <= public <= observed for each key, with equal values at equal sequences |
| Names.AdoptIff | src/torrent/my98_torrent/store.py:108-117 | adoption succeeds exactly for the published record; its own comparison never conflicts |
| Names.SetPublicIff | src/torrent/my98_torrent/store.py:79-86 | a publication is refused exactly when it is unverified, older than, or different at the sequence of what was observed |
| Names.AdvanceCommit | src/torrent/my98_torrent/store.py:35-144 | no transaction takes observed, public, adopted or locations back, nor the known maximum |
| Names.Published | src/torrent/my98_torrent/store.py:35-117 | over any run from an empty store and any continuation, the order holds and no table goes back or changes value at a sequence |
| Names.NextIsNews | src/torrent/my98_torrent/store.py:57-77 | a record signed with the next sequence for a followed key is accepted as new and becomes the candidate with the highest sequence |
| Names.NextExists | src/torrent/my98_torrent/protocol.py:29-35 | at a valid time there is a next sequence exactly while the last one is unused |
| Names.ObserveAgrees | src/torrent/my98_torrent/store.py:35-55 | when a record is observed, pending candidates go on agreeing with the observed records exactly when no different publication of its sequence is pending |
| Names.SetPublicAgrees | src/torrent/my98_torrent/store.py:79-86 | the same when a record is made public, which observes it |
| Names.AcceptAgrees | src/torrent/my98_torrent/store.py:57-77 | a candidate that is accepted never contradicts what is observed |
| Names.AgreeStep | src/torrent/my98_torrent/store.py:35-144 | a transaction keeps the agreement exactly unless it observes a record whose sequence is pending with another value, which its caller can look up first |
| Names.AgreeRun | src/torrent/my98_torrent/store.py:35-144 | candidates and observed records agree through a whole run exactly when no transaction of it observes a disputed record |
| Names.PendingMayContradict | src/torrent/my98_torrent/store.py:51-77 | a run after which a pending candidate contradicts the observed publication of its sequence |
| Names.Store.Observe | src/torrent/my98_torrent/store.py:51-55 | commits exactly the observe transaction or leaves every table alone |
| Names.Store.AcceptCandidate | src/torrent/my98_torrent/store.py:57-77 | commits exactly the candidate transaction, the observed record winning a tie |
| Names.Store.SetPublic | src/torrent/my98_torrent/store.py:79-86 | commits both tables or neither |
| Names.Store.Adopt | src/torrent/my98_torrent/store.py:108-117 | commits the row and drops the candidates it supersedes, or nothing |
| Names.Store.SetLocations | src/torrent/my98_torrent/store.py:138-144 | commits exactly the locations transaction |
| Resolver.Newest | src/torrent/my98_torrent/resolver.py:25-35 | the later of two records of one identity; a conflict exactly for two values at one sequence |
| Resolver.RememberFinds | src/torrent/my98_torrent/resolver.py:37-39 | remembering keeps the cache within capacity with distinct identities, and another identity keeps its entry or is evicted |
| Resolver.InvStep | src/torrent/my98_torrent/resolver.py:25-88 | every step keeps one running lookup per identity at most, and cache and pending within capacity |
| Resolver.ForwardStep | src/torrent/my98_torrent/resolver.py:37-88 | no step takes a cached record back in sequence or changes its value at one sequence |
| Resolver.NeverBack | src/torrent/my98_torrent/resolver.py:41-88 | over any run, between evictions and invalidations, a cached record only moves forward, however lookups overlap |
| Resolver.AnswersForward | src/torrent/my98_torrent/resolver.py:66-84 | an answer given at once is never older than what its caller knew or the cache held; the outcome of a lookup is never older than its floor or the cache at its end |
| Resolver.OutcomeIff | src/torrent/my98_torrent/resolver.py:46-60 | the outcome of a lookup is at least as new as what somebody knew exactly when its floor, the record cached at its end or the record the network brought is |
| Resolver.WaiterForward | src/torrent/my98_torrent/resolver.py:41-84 | over any run, a caller that waits gets nothing older than what it knew or found cached, if its identity stays cached until the lookup ends or the lookup began from a record that new |
| Resolver.OwnLookup | src/torrent/my98_torrent/resolver.py:41-84 | a caller whose call started the lookup never gets anything older than what it knew or found cached, whatever is evicted or invalidated |
| Resolver.WaiterMayGoBack | src/torrent/my98_torrent/resolver.py:41-90 | a run in which a caller that knows sequence 10 joins an earlier lookup, its entry is forgotten, and it is answered sequence 8 |
| Resolver.ConflictKeeps | src/torrent/my98_torrent/resolver.py:56-59 | a lookup that meets a conflict, in the records it compares or in the network itself, marks the entry and keeps its record |
| Resolver.Resolver.Remember | src/torrent/my98_torrent/resolver.py:37-39 | the eviction loop leaves exactly the most recent entries |
| Resolver.Resolver.Resolve | src/torrent/my98_torrent/resolver.py:66-84 | the synchronous part of a resolution is the resolution step |
| Resolver.Resolver.Complete | src/torrent/my98_torrent/resolver.py:46-60 | the end of a lookup is the completion step, whether the network brought a record, none, a conflict or a failure |
| StateFormat.HeaderFits | src/disk/web/state-format.js:64-65 | the JSON header of any state of a disk has at most 940 bytes |
| StateFormat.VaultIdeal | src/crypto/src/lib.rs:395-409 | snapshot sealing with the disk's name in the context makes every disk a vault whose records open in one context only |
| StateFormat.RecordsIff | src/disk/web/state-format.js:107-131 | the records open to some data exactly when they are its records, each sealed under this header at its own index, in order and complete |
| StateFormat.RoundTrip | src/disk/web/state-format.js:52-150 | every file the encoder emits is within 2^30 + 65536 bytes and decodes to exactly the metadata, state and overlay that went in, with or without a declared size; of the JSON reader only numbers up to 2^30 are asked |
| StateFormat.AcceptedIff | src/disk/web/state-format.js:75-150 | a file is accepted exactly when it is a checked header followed by its own sealed records whose sections are what is returned |
| StateFormat.NoProperPrefix | src/disk/web/state-format.js:102-115 | no accepted file is a proper prefix of another: truncation and extension are refused |
| StateFormat.RecordPinned | src/disk/web/state-format.js:9-117 | equal records of two accepted files mean the same header and the same index, so records cannot be reordered or moved between states |
| StateStream.StateReader.Available | src/disk/web/state-format.js:26-37 | chunks, empty ones included, are taken in turn; the bytes still to be read do not change |
| StateStream.StateReader.Into | src/disk/web/state-format.js:38-47 | fills the buffer with exactly the next bytes however the stream is cut, or reports truncation |
| StateStream.ReadRecords | src/disk/web/state-format.js:107-131 | reads, opens and hands on the records in 16 KiB pieces; unless cancelled the outcome is that of the bytes, and calm it is not cancelled |
| StateStream.DecodeState | src/disk/web/state-format.js:75-150 | calm, the outcome is the one the file's bytes determine, for every way both streams are cut, and the digest was fed the whole file; otherwise it may also be cancelled |
| StateStream.EncodeState | src/disk/web/state-format.js:52-74 | calm, the outcome is the specified file, or the refusal of one too large; otherwise it may also be cancelled |
| Bencode.NumberIff | src/disk/web/torrent-protocol.js:94-102 | a token means a number exactly when it is the canonical decimal text of that safe integer after at most one byte-order mark, in at most 17 bytes |
| Bencode.ParseSound | src/disk/web/torrent-protocol.js:103-128 | what is read at a position is a value within the limits whose encoding is the bytes consumed |
| Bencode.ParseComplete | src/disk/web/torrent-protocol.js:103-128 | every value within the remaining limits is read back from its encoding, wherever it stands |
| Bencode.DecodeIff | src/disk/web/torrent-protocol.js:92-132 | bytes are accepted exactly when they spell a value within 256 nodes, depth 8 and safe integers, with keys that are UTF-8 text going up in UTF-16 order; that value is returned |
| Utf8.FirstIff | src/disk/web/torrent-protocol.js:113 | the decoder of keys reads a code point exactly where its one encoding stands: no overlong form, no surrogate, nothing above 10FFFF |
| Utf8.PointsIff | src/disk/web/torrent-protocol.js:113 | bytes are text exactly when they encode its code points, so equal key text means equal bytes |
| Utf8.OrdersAgree | src/disk/web/torrent-protocol.js:114 | text goes up in UTF-16 order exactly as its bytes do, unless the first difference is between E000 to FFFF on one side and above on the other |
| BencodeKeys.KeysDistinct | src/disk/web/torrent-protocol.js:108-116 | no key of an accepted dictionary replaces an earlier one |
| BencodeKeys.ByteOrderIff | src/disk/web/torrent-protocol.js:113-114 | the keys of an accepted dictionary go up in byte order, as canonical bencoding asks, exactly when no two of them cross |
| BencodeKeys.CrossedKeys | src/disk/web/torrent-protocol.js:113-114 | any two keys that cross are accepted in one order only, and it is not that of their bytes |
| BencodeCanonical.CanonicalIff | src/disk/web/torrent-protocol.js:92-132 | accepted bytes re-encode to themselves if and only if no number or key in them carried a byte-order mark; the re-encoding is accepted as the same value if and only if no key carried two |
| BencodeCanonical.MarkedInteger | src/disk/web/torrent-protocol.js:94-102 | a number accepted from bytes that do not spell it: EF BB BF before the digits is dropped by the text decoder |
| BencodeCanonical.NoMarkCanonical | src/disk/web/torrent-protocol.js:92-132 | bytes without EF BB BF always re-encode to themselves |
| BencodeReader.Reader.Number | src/disk/web/torrent-protocol.js:94-102 | the scanning loop computes the number at the shared cursor |
| BencodeReader.Reader.Parse | src/disk/web/torrent-protocol.js:103-128 | the recursive reader with its shared cursor and node counter computes the parse, and ends |
| BencodeReader.Decode | src/disk/web/torrent-protocol.js:92-132 | the whole reader decides and decodes as specified |
| Metadata.VerifyFixed | src/disk/web/torrent-protocol.js:134-157 | verified output verifies again to itself; it holds exactly the bytes of the original info value, whose hash is the expected one, and nothing else |
| Metadata.HashDecides | src/disk/web/torrent-protocol.js:134-157 | with a collision-free digest the expected hash alone determines the output, whatever surrounds the info dictionary |
| StateInput.FillOne | src/disk/web/torrent-remote.js:262-266 | one more request keeps the held ranges a tiling of [offset, next) and the active count exact |
| StateInput.HeadPresent | src/disk/web/torrent-remote.js:278-281 | a full window of an unfinished, unstopped stream has a head, so the consumer never awaits one that is absent |
| StateInput.Held | src/disk/web/torrent-remote.js:259-263 | at most 4 MiB are held ahead of the consumer |
| StateInput.StateInput.Fill | src/disk/web/torrent-remote.js:262-275 | afterwards four requests are active, or sixteen ranges held, or the file is covered, or the stream has stopped |
| StateInput.StateInput.Pull | src/disk/web/torrent-remote.js:276-281 | the consumer waits for the range at its offset, or ends |
| StateInput.StateInput.Resume | src/disk/web/torrent-remote.js:280-284 | delivers exactly the next range of the file, and nothing after a stop; an awaited failure always means a stop |
| StateInput.StateInput.Run | src/disk/web/torrent-remote.js:245-288 | for every order of completions, failures, aborts and cancels, the output is the beginning of the file, all of it on closing, and never grows after a stop |
| StartupRanges.Merge | src/disk/web/startup-prefetch.js:28-33 | merging sorted intervals gives separated intervals that cover the same pieces |
| StartupRanges.PiecesTotal | src/disk/web/startup-prefetch.js:34 | the total of separated intervals is the sum over their pieces, each counted once |
| StartupRanges.SameTotal | src/disk/web/torrent-window.js:583-584 | a total over pieces does not depend on the order in which they were gathered |
| StartupRanges.Targets | src/disk/web/torrent-window.js:575-582 | the gathered targets are exactly the touched pieces, each once; any range out of bounds is refused |
| StartupRanges.Ranges | src/disk/web/startup-prefetch.js:20-27 | a profile is accepted exactly when every slot covers bytes of the file within the safe integers; the ranges are then the slots mapped into the file, all within bounds |
| StartupRanges.Total | src/disk/web/startup-prefetch.js:20-36 | the interval total equals the piece total for every in-bounds range list |
| StartupRanges.TotalsAgree | src/disk/web/startup-prefetch.js:127-136 | the equality the asking side checks can always be met |
| Prefetch.CompletedIff | src/disk/web/torrent-window.js:584-586 | the completed bytes are all the bytes exactly when every target is verified |
| Prefetch.SelectOk | src/disk/web/torrent-window.js:629-633 | a target about to be selected was never selected before, and selecting it keeps the window |
| Prefetch.ReleasedAfter | src/disk/web/torrent-window.js:597-603 | calling out leaves no verified owned piece unnoticed: another round is due, or the job is over |
| Prefetch.Prefetch.Pump | src/disk/web/torrent-window.js:620-638 | ends with the job settled, or the window full of unverified pieces or the list exhausted with something missing; unless aborted or something thrown it has resolved exactly when nothing is missing; a re-entrant call only asks for another round |
| Prefetch.Prefetch.Succeed | src/disk/web/torrent-window.js:616-619 | the job resolves with the full total, without calling out |
| Prefetch.Prefetch.Run | src/disk/web/torrent-window.js:570-648 | through any verified pieces and aborts, re-entrant or not: no target is selected twice, the window is never exceeded, and the job resolves exactly when every target is verified, unless it was aborted or a call out threw |
| Progress.ClearLowest | src/disk/web/torrent-window.js:21-23 | value & (value - 1) removes exactly one set bit |
| Progress.MaskedCount | src/disk/web/torrent-window.js:396-400 | a masked byte counts exactly the pieces it stands for; spare bits do not matter |
| Progress.Corrected | src/disk/web/torrent-window.js:401 | whole pieces with the correction for the last one are the true verified bytes |
| Progress.CompleteIff | src/disk/web/torrent-window.js:401-403 | the verified bytes are the size exactly when every piece is verified |
| Progress.Popcount | src/disk/web/torrent-window.js:21-23 | the loop counts the set bits |
| Progress.Describe | src/disk/web/torrent-window.js:391-405 | the reported bytes are the sum of the true sizes of the verified pieces, complete exactly when all are |
| DiskBuffer.ApplyTwice | src/disk/web/client.js:185-192 | carrying out a write again changes nothing |
| DiskBuffer.Carried | src/disk/web/client.js:185-196 | carrying out the head, for the first time or again, completes it with the answer the disk before it gives |
| DiskBuffer.DiskBuffer.FailRequest | src/disk/web/client.js:189-193 | a failed request stays at the head, whether or not it was carried out |
| DiskBuffer.DiskBuffer.Succeed | src/disk/web/client.js:185-197 | the head is completed once, and its re-entrant callback may use the adapter |
| DiskBuffer.DiskBuffer.Run | src/disk/web/client.js:174-208 | through any enqueues, failures, retries and disposal, requests complete once each in order, and a drained queue leaves the disk with every request applied once in order |
| RangeOrder.NeighboursDecide | src/disk/web/range-prefetch.js:14-15 | testing sorted neighbours decides pairwise disjointness |
| RangeOrder.MatchingRanges | src/disk/web/range-prefetch.js:4-17 | a profile is used exactly when it is for this file and its ranges lie in it and are pairwise disjoint, in their stored order |
| RangeOrder.Order.Observe | src/disk/web/range-prefetch.js:24-34 | the cursor follows the last unit seen for the first time, inside its range |
| RangeOrder.Order.NextUnit | src/disk/web/range-prefetch.js:35-56 | an uncovered unit of the active range while it has one, otherwise of another; none exactly when all are covered |
| RangeOrder.Order.Drain | src/disk/web/range-prefetch.js:35-56 | asking and covering until there is none visits every uncovered unit exactly once and ends |
| RangeOrder.Order.Stats | src/disk/web/range-prefetch.js:57-61 | the counts are those of distinct units and of the covered ones among them |

## Left out

- DiskEngine.Engine.Open: read-only opening, header export, closing and wiping of keys, because they add no state of their own to the protocol.
- DiskEngine.Engine.Write: does not model wrap-around of the 64-bit revision counter; the cache tick is unbounded in the same way.
- DiskEngine.Engine.BeginCreate: raw import images are kept in a table of plain byte strings beside the encrypted files.
- DiskWorker.Worker.Run: boot and load analysis (its refusals count as a command that is not calm), downloads of the saved file, relay challenges, opening and closing within a run, and the choice of a prefetch scope. Which symbol of a stored file is which byte is a parameter of the worker.
- Envelope.OpensIffSealed: key derivation, the cipher, signatures and random number generation themselves.
- Replication.InvStep: sequential consistency between awaits is taken from the event loop; disk-space reservations, trackers and exposure links are left out, and a removal interrupted by a crash counts as one step.
- Names.InvCommit: a transaction is one atomic step; SQLite and the JSON text of rows are not modelled.
- Names.Store.Next: the code reads the highest observed record and the highest candidate over two connections (store.py, lines 127 to 130), so another process may commit between them; here both are read at one moment.
- Resolver.NeverBack: time-outs and the semaphore of lookups are failures at any time; shutting the resolver down is left out.
- StateStream.DecodeState: decryption, decompression and section reading run one after the other instead of interleaved, so which of several errors comes first is not modelled (all failures are one error), nor is the wiping of buffers, nor the download that may provide the stream.
- StateStream.EncodeState: progress reports and yielding to the event loop.
- Metadata.VerifyFixed: file names are compared as bytes after the same decoding; hexadecimal text of the expected hash is a 20-byte value.
- StateInput.StateInput.Run: opening the torrent, and the transport below one range request.
- Prefetch.Prefetch.Run: cached-piece scanning before the first pump, the timer (an abort) and web seeds; a piece is announced by a target's event only when it becomes verified.
- DiskBuffer.DiskBuffer.Run: the boot-sector shortcut, callbacks or error handlers that throw, waiting for the queue to drain, and saved adapter state.
- RangeOrder.MatchingRanges: the type checks on untyped JSON; slots are empty or pairs of integers.
- `StartupPrefetch.run`: its attempts and time budget, beyond the equality it checks.
- The relay, user interface, emulator, installers, deployment scripts, name publishing and DHT plumbing.
