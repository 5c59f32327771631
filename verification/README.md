# ModelFS, modelled in Dafny

ModelFS puts a write-through piece cache in front of a shared origin. A file is
cut into fixed-size pieces; every node keeps a bitfield of the pieces it holds and
fills misses from a peer or from the origin. This project models that cache, the
exchange between nodes, and the scripts that guard its releases and restores, and
proves what they promise. `dafny verify dfyconfig.toml` checks all of it.

## How it is laid out

**The cache protocol.** `Entry.dfy` gives each locked section of `src/store.zig` and
`src/fuse_fs.zig` as a function on one entry. `CachedEntry.dfy` is the entry as the
object the code updates in place; each of its methods runs a section step by step,
loops included, on the packed bitfield of `Bitfield.dfy`, and is proved to do what
the function says. `EntryLaws.dfy` tells what the functions do without their own
terms, by bytes, sizes and times. `Protocol.dfy` interleaves the same functions with
the origin, readers, fills, culls, manifest loads and publishes, other nodes and
crashes: one action per locked section, so a fill, a write or a punch is several
actions and anything may happen between them. `ProtocolInv.dfy` holds the invariant, `ProtocolSteps.dfy` its proof for every
action, `ProtocolTheorems.dfy` what follows over every run, and
`ProtocolFindings.dfy` the runs that break a documented promise. `Restart.dfy` carries
the crash results down to the persisted bytes.

The protocol assumes what the design does: this node has one write or truncate in
flight per file; another node may rewrite the object in place or replace it by another
inode while it has none, and this node's next one comes after an open that saw it; a
failed origin write leaves the origin bytes alone; digests are injective (a digest *is*
the bytes it was taken of); and an origin identity (mtime, inode) determines the content,
every change of this node moving the mtime up. Beyond that a few actions need a
condition, which `Orderly` in `Protocol.dfy` states exactly: for each the step keeps the
invariant if and only if its condition holds (`KeepStat`, `KeepOwnStat`, `KeepLoadMerge`, `KeepPublish`,
`KeepForeignPublish`, `KeepForeignRewrite`, `KeepTearSidecar`, `KeepCrash`,
`KeepOwnRetry`).

* A stat, of an open or after a write, may show anything that is no news, the object
  as it is, or the object as it was with no more bytes than it has (`StatFits`,
  `OwnStatFits`). Current looks fit, unless the write in flight has a look at another
  inode to note, and lagging ones do outside one window (`FreshFits`, `LaggingFits`).
* What this node publishes must not cover, under the new identity, bytes that a write
  between its size step and its copy changes (`PublishFits`); what other nodes publish
  must name no identity yet to come and describe the object if it names the current
  one (`PublishedOk`). Manifests stay on the origin for ever, and a load may bring any.
* A merge must bring digests that describe the object and the marked bytes
  (`MergeFits`), or come when the entry can take any manifest published in order
  (`TakesAny`, `MergesSafely`). `GuardedIsOrderly` replaces this and the condition
  on publishing by guards that look at no contents.
* What another node rewrites or replaces must come under an identity that is news to the
  entry, the sidecar and every manifest (`Supersedes`): another inode with any mtime, or
  a known one with a later mtime.
* A save that breaks off must leave something a restart throws away (`TornSaveReloads`).
* A restart opens the file against a stat that may lag. It must fit (`LookFits`), and no
  mark it takes from the sidecar may be mistaken (`Mistaken`, exact in `KeepCrash`). A
  current stat always fits and is mistaken only at a byte that the sidecar names under
  the current identity and the cache does not have (`CurrentReload`). `SaveTaints` says
  which saves do that, `CrashAnywhere` that nothing else does, as long as no restart takes
  marks of an outdated identity for current (`TrustsOld`).

**Formats.** `Wire.dfy`, `SidecarCodec.dfy` and `ManifestCodec.dfy` are the persisted
blobs byte by byte.

**Around the cache.** `RangeExchange.dfy` (the `/data` exchange), `PathGate.dfy` and
`PointRestore.dfy` (the restore script as a run that may fail at any step),
`Changelog.dfy`, `CiSteps.dfy` with `RunSteps.dfy`, `Sums.dfy` with `SumsLines.dfy`,
`Sbom.dfy` with `UsesLines.dfy`, `DropIn.dfy`, `HaveSweep.dfy` (the gates, parsers and
loops of the scripts, and what the lines they read mean), `Handshake.dfy` (`modelfs update` with
any number of CLIs), `Cull.dfy` and `Leases.dfy`. `Pieces.dfy`, `Text.dfy`
and `Lists.dfy` hold the piece arithmetic, text and list helpers they share.

What a system call answers (did the write land, was memory to be had, was the save
durable) is a parameter everywhere, so every theorem covers every answer.

## Where code and documentation part

* A transfer is documented to keep the bitfield's storage. A truncate under a
  transfer clears the field in place but then calls `Bitfield.resize`, which
  reallocates when the length in bytes changes. `TransferPinsField` says it is the
  only such step, and exactly when it happens.
* A transfer is documented to read the file as it was at the bit sample. A piece
  whose mark is dropped under the transfer can be refilled under it;
  `TransferPinsBytes` says a byte changes exactly then, `SampledMarkPins` that none does
  while the sampled mark stays.
* A stat applied after it went stale may wipe the entry to a size below a write that is
  between its size step and its copy; the copy then marks a piece past the recorded
  size, and a later append uncovers it (`StaleStatBreaksHonesty`).
* A truncate leaves `origin_id` at the old identity, and the stat after a write may
  lag, so for a while an old manifest of the same length passes the identity check
  (`OldManifestBreaksPeerFill`). In the code a hydration asks peers only when
  `writes` was still zero before its claim, so the truncates have to come between
  that look and the claim.
* A manifest without identity is checked by its file's age alone. One that still has the
  digest of the bytes before is admitted by an entry that is entirely up to date
  (`UnnamedManifestBreaksPeerFill`).
* `publishManifest` reads digests and identity under `file.mu` and looks at no write in
  flight. A close between a write's size step and its copy publishes the old digest under
  the new identity, and nothing later takes it back: an entry that is entirely up to
  date admits it and believes a peer with the old bytes
  (`PublishInWindowBreaksPeerFill`, `SnapshotDescribes`).
* The retry scan of `copyIntoCache` takes a write for already applied when its pieces
  are marked and have its digests. The current manifest, loaded for another piece between
  the write's size step and its copy, puts those digests there; if a transfer then
  refuses the pwrite, the write returns with the old bytes still marked
  (`MergeBeforeCopyHidesWrite`).
* Crash consistency has a window: `cacheFillIdentified` adopts the new identity,
  drops its locks, and only then copies. A fill that saves the sidecar in between
  names the old bytes under the new identity (`WindowBreaksCrashConsistency`), and a
  crash is wrong until the copy has replaced them.
* A stat after a write that still shows a smaller size shrinks the entry below bytes
  this node wrote before, until the next stat (`LaggingStatHidesOwnBytes`).
* A write whose two stats after it fail returns its byte count, drops the marks and leaves
  the recorded size alone, although a short read of a client's own bytes is documented
  as a loss of data: an appended byte reads as the end of the file until the next stat
  (`UnobservedAppendReadsShort`). So does one whose shrinking size step finds no memory;
  `ReadsSeeOwnWrites` says exactly which bytes every exit leaves readable.
* A restart whose stat lags behind a write that the sidecar does not know of trusts the
  marks from before it (`LaggingRestartTrustsOldMarks`).
* A look that shows an older mtime on a known inode is documented as attribute lag. So is
  a replacement whose inode number is a reused one (`ReusedInodeHidesReplacement`);
  `RewriteIsSeen` says exactly which rewrites the next look wipes for.
* A deferred grow keeps the field short while the recorded size moves on. If it is
  short by exactly the 24 bytes of the identity trailer, a restart decodes the trailer
  as marks (`TrailerReadAsMarks`, `DeferredGrowMisreads`); `ReloadsExactly` says when
  that shows.
* A lost fill-path save is documented to cost only a refill. The file is truncated and
  written in place; a save that breaks off exactly before the identity leaves a valid
  sidecar without one, whose marks the next open adopts for whatever object it finds
  (`TornSaveForgetsIdentity`, `TornSaveReloads`).
* `modelfs update` can report an update to an image that runs another CLI's binary: one
  exec'd before this request was out (`RacedUpdateReports`), or one exec'd after it by an
  image that had read the other request before (`LateUpdateReports`).
  `ReportedUpdatesTookPlace` says exactly when, for each.
* The restore script's overlap gate compares text. A trailing slash on the live
  export lets a clone inside it through (`TrailingSlashSlipsThrough`); it is right for
  every mountpoint in normal form exactly when the other path is in normal form too
  (`GateExact`). A listed path that is a directory of the live tree is written into, to
  a path nobody listed, before the compare fails (`CopyIntoDirectory`, `WrittenIsListed`).
* The lease sweep looks and unlinks in two steps (`ReturningLeaseCanGo`).
* The two SHA256SUMS readers accept different names (`ReadersDisagree`).
* Two different packages can have one url (`DebPurlsMeet`, `DebMarksMeet`);
  `DebUrlShared` says which.

## Model

| member | source | states |
|---|---|---|
| `Pieces.CoverExact` | src/piece.zig:117-123 | `cover` names a piece exactly when some byte of the clipped range lies in it |
| `Pieces.FullCoverExact` | src/piece.zig:129-140 | `fullCover` names a piece exactly when the range holds every byte of it, so no boundary piece is marked by a write |
| `Pieces.TrackedEndExact` | src/piece.zig:93-98 | a byte is before `trackedEnd` exactly when it is in the file and the clamped field has a bit for its piece |
| `Pieces.LenNamesBytes` | src/store.zig:1360-1408 | the length gate of `finishPiece`: equal piece lengths at two sizes mean the same set of bytes |
| `Pieces.GrowKeepsFullPieces` | src/store.zig:2191-2208 | a grow leaves the bytes of every started piece alone, except the short last one whose mark is dropped |
| `Bitfields.Bitfield.constructor` | src/piece.zig:157-162 | a fresh field marks nothing |
| `Bitfields.Bitfield.Get` | src/piece.zig:183-186 | a bit is set exactly when its piece is marked; an index past the field is not |
| `Bitfields.Bitfield.Set` | src/piece.zig:212-215 | marks one piece and no other; past the field it changes nothing |
| `Bitfields.Bitfield.Clear` | src/piece.zig:217-220 | unmarks one piece and no other |
| `Bitfields.Bitfield.ClearAll` | src/store.zig:1071-1080 | the in-place wipe unmarks everything and keeps the buffer |
| `Bitfields.Bitfield.AllSet` | src/piece.zig:192-210 | the word-at-a-time scan answers exactly whether every piece of the span is marked |
| `Bitfields.WordRun` | src/piece.zig:199-202 | one little-endian word is all ones exactly when its 64 pieces are marked |
| `Bitfields.Bitfield.Resize` | src/piece.zig:173-181 | keeps exactly the surviving marks, never shows a phantom one, and moves the buffer exactly when its length in bytes changes |
| `Bitfields.ClearPad` | src/piece.zig:152-155 | pad bits go, every bit of the field stays |
| `SidecarCodec.ReloadsExactly` | src/store.zig:865-937 | a restart takes from a saved sidecar exactly the marks trusted at the current size, field length and identity, unless the lengths coincide as below and the misread bytes name a piece |
| `SidecarCodec.PrefixReloads` | src/sys.zig:743-760 | a save that broke off anywhere: a restart looks only at a part as long as one of the two legal lengths |
| `SidecarCodec.TornSaveReloads` | src/sys.zig:743-760 | with a field of the right length a torn save is thrown away, unless it broke off exactly before its identity: then its marks are trusted at any identity |
| `SidecarCodec.TrailerReadAsMarks` | src/piece.zig:299-320 | with a field 24 bytes shorter than its size calls for, decoding takes the identity trailer for marks and keeps them; that is harmless exactly when nothing was marked and no set bit of the trailer names a piece |
| `SidecarCodec.MarksReadAsTrailer` | src/store.zig:920-937 | with an unknown identity and a field 24 bytes too long, the end of the field is read as an identity, and unless that is outdated the marks below the count are kept |
| `SidecarCodec.DeferredGrowMisreads` | src/store.zig:2231-2248 | concrete: an empty file grown by 192 pieces under a transfer reloads with piece 0 marked over a hole |
| `SidecarCodec.HeaderReadsBack` | src/piece.zig:289-297 | the sidecar header is read back as written |
| `SidecarCodec.IdReadsBack` | src/store.zig:316-329 | the 24-byte identity trailer is read back as written, negative times included; seconds, nanoseconds and inode lie there in this order |
| `Wire.LeByte` | src/store.zig:316-329 | the persisted integers put the least significant byte first |
| `Bitfields.BitIs` | src/piece.zig:183-186 | bit j of a byte of the field counts 2^j |
| `ManifestCodec.DecodeExact` | src/piece.zig:375-443 | a blob decodes to a table exactly when the table is ascending and inside its own grid and the blob is its encoding: nothing torn, repeated or reordered is accepted |
| `ManifestCodec.EncodeLayout` | src/piece.zig:375-390 | where magic, grid, size, count, each index with its digest and the identity lie in a published manifest |
| `ManifestCodec.DecodeRows` | src/piece.zig:418-436 | the row loop with its early exits accepts exactly the ascending rows below the piece count |
| `CachedEntry.Cached.constructor` | src/store.zig:1136-1206 | a built entry has exactly the marks a trusted sidecar grants and keeps that sidecar's identity; a discarded sidecar is wiped on disk, and the entry is then brought in line with the stat |
| `Restart.SavedMarksReload` | src/store.zig:979-1017 | a save that works, decoded again at the size it was made at and an identity no newer than its own, gives exactly the marks it was made of; one of a field left short by a deferred grow is thrown away, but for the length that misreads |
| `CachedEntry.Cached.DropWideningMark` | src/store.zig:2191-2208 | drops mark and digest of exactly the short last piece, and saves only when a mark was cleared |
| `CachedEntry.Cached.GrowToLocked` | src/store.zig:2231-2248 | the size always follows; a grow that is not deferred leaves a bit for every byte of the longer file that the piece limit allows and none past it, a deferred one keeps field and buffer; only the short last piece loses its mark |
| `CachedEntry.Cached.WipeTo` | src/store.zig:1068-1097 | the wipe of `reconcile`: marks and digests go, the generation moves, under a transfer in place |
| `Entries.AdoptedIdSeesRewrite` | src/store.zig:1103-1107 | adopting an unknown identity drops no mark, and with it the next same-size rewrite wipes the entry, which without it goes unseen |
| `CachedEntry.Cached.Reconcile` | src/store.zig:1036-1098 | one origin stat keeps the marks of a known identity exactly when the size and the inode are the same and the mtime is not later; otherwise marks and digests are gone and the generation has moved |
| `EntryLaws.ReconcileObeys` | src/store.zig:285-296 | ... and everything else a stat leaves or changes, told by sizes, inodes, mtimes and bytes |
| `EntryLaws.LoadObeys` | src/store.zig:865-937 | a restart keeps exactly the saved marks of pieces of the file, if the size is the same, the inode too and the mtime not later, and the field as long as the size calls for |
| `EntryLaws.OpenedObeys` | src/store.zig:1136-1206 | the entry built from a sidecar and a stat: whose marks it has and under which identity |
| `EntryLaws.GrowObeys` | src/store.zig:2191-2248 | which pieces keep mark and digest through a grow, which bytes get a bit, and what is saved |
| `EntryLaws.FillSizeObeys` | src/store.zig:2275-2329 | the size step of a write by what it does to sizes, bits, digests and identity |
| `EntryLaws.TruncateObeys` | src/fuse_fs.zig:1553-1622 | a truncate by what it leaves of bytes, marks, field and sidecar |
| `EntryLaws.CopyObeys` | src/store.zig:2365-2478 | the marking half of a write-through by the bytes of the pieces: whole ones are marked under the digest of what was written, touched ones lose theirs, a retry changes nothing |
| `EntryLaws.FinishObeys` | src/store.zig:1360-1408 | when the end of a fill marks the piece, and under which digest |
| `EntryLaws.FillObeys` | src/store.zig:1483-1510 | which bytes of a fill reach the file, and when |
| `EntryLaws.MergeObeys` | src/store.zig:1695-1748 | which digests a manifest adds, and when its size is remembered |
| `CachedEntry.Cached.FillSizeStep` | src/store.zig:2275-2329 | the size step of `cacheFillIdentified`: grow, wipe, or neither, and a newer identity is adopted; a shrink without memory drops the marks and skips the copy |
| `CachedEntry.Cached.Truncate` | src/fuse_fs.zig:1553-1622 | the locked part of a truncate, with or without memory for the field; under a transfer the buffer stays exactly when the resize failed, was not needed, or keeps the byte length |
| `CachedEntry.Cached.Distrust` | src/store.zig:815-850 | marks, digests and sidecar go in one section, the buffer and the bytes stay |
| `Entries.NotedStatIsNoNews` | src/store.zig:2336-2344 | once the stat after a write is noted, a later open that still sees that stat finds nothing to wipe, and the identity never goes back on one inode |
| `CachedEntry.Cached.BeginFill` | src/store.zig:1434-1472 | a claim is left exactly when the piece is unmarked, unclaimed and not empty, with the current generation |
| `CachedEntry.Cached.FinishPiece` | src/store.zig:1360-1408 | the claim always goes; the mark comes only when the fill landed and neither generation nor piece length moved |
| `CachedEntry.Cached.CompleteFill` | src/store.zig:1483-1510 | bytes reach the cache file only while the claim stands |
| `CachedEntry.Cached.Heal` | src/store.zig:1889-1898 | a failed serve clears one mark and keeps bytes and digest |
| `CachedEntry.Cached.PunchPiece` | src/store.zig:2500-2568 | a hole is cut only on an idle, unpinned entry with no transfer or claim and after a durable save without the mark; every other exit leaves marks and bytes as they were |
| `CachedEntry.Cached.CopyIntoCache` | src/store.zig:2365-2478 | the write-through with its loops: pwrite refused under a transfer, the retry scan, marks and digests of covered pieces, boundary digests dropped, or every touched mark dropped |
| `CachedEntry.Cached.HashStart` | src/store.zig:2408-2427 | the retry scan stops at the end exactly when the write is already applied |
| `CachedEntry.SliceIsPiece` | src/store.zig:2416-2418 | the buffer slice that is hashed is exactly the bytes of that piece |
| `CachedEntry.CopyHashesMeet` | src/store.zig:2429-2461 | scan, mark loop and the two boundary loops together leave exactly the digests a landed write justifies |
| `CachedEntry.Cached.MergeManifest` | src/store.zig:1614-1748 | manifest digests fill gaps only, after the generation, grid, size and identity checks, and every exit gives the claim back |
| `CachedEntry.Cached.RangeFilled` | src/store.zig:1921-1925 | a range is served warm exactly when every byte of it that the file has lies in a marked piece |
| `ProtocolSteps.StepKeepsInv` | docs/architecture.md:620-669 | every action of daemon, other nodes and environment keeps the invariant (marks, digests, claims, transfers, pending punches, the sidecar and the published manifests stay honest), given the exact condition of the actions that need one |
| `ProtocolSteps.RunKeepsInv` | docs/architecture.md:620-669 | ... hence every run does, whatever the interleaving |
| `ProtocolTheorems.MarksAreHonest` | docs/architecture.md:620-669 | in every reachable state a marked piece holds the origin's bytes at the current size, except in the range of a mutation in flight, another node's unseen rewrite included; at the current identity only a write between its size step and its copy is excepted; a mark never names a hole |
| `ProtocolTheorems.FillsAreMarked` | src/store.zig:2231-2248 | in every run after which no grow was deferred since the field was last rebuilt or reloaded, a claimed fill that lands whole and still stands leaves its piece marked |
| `ProtocolTheorems.RewriteIsSeen` | docs/architecture.md:166-177 | after any run, the first look at another node's rewrite or replacement changes nothing exactly when size and inode are the known ones and the mtime is not later; otherwise the old marks and digests go |
| `ProtocolTheorems.DigestsAreTheOrigins` | docs/architecture.md:523-530 | every trusted digest is the digest of the origin's bytes of its whole piece, with nothing in flight or at the current identity |
| `ProtocolTheorems.PeerBytesAreTheOrigins` | docs/architecture.md:503-505 | for arbitrary peer bytes, what is admitted under a standing claim is the origin's |
| `ProtocolTheorems.OneManifestLoad` | docs/architecture.md:549-556 | in every run, orderly or not, at most one manifest load runs per entry, exactly while the claim is held, and every exit releases it |
| `ProtocolTheorems.ReadsSeeOwnWrites` | docs/architecture.md:286-290 | after a write returned, by any of its exits, later reads from cache and origin give back the written bytes until another mutation covers them; a read right after it is not cut short before a byte exactly if the write was copied or the entry covered that byte before, and then no later one is unless a stat that lags behind the write is applied |
| `ProtocolTheorems.TransferPinsBytes` | docs/architecture.md:643-665 | under a transfer a byte of the cache file changes exactly when a fill lands other bytes on it, and none becomes a hole |
| `ProtocolTheorems.TransferReadsTheSample` | docs/architecture.md:643-665 | from the bit sample to the pread a transfer sees the file's content at the sample, through writes, truncates, culls and reconciles, as long as no fill lands on the byte |
| `ProtocolTheorems.SampledMarkPins` | docs/architecture.md:643-665 | ... which no fill does while the sampled piece keeps its mark |
| `ProtocolTheorems.TransferPinsField` | src/fuse_fs.zig:1578-1594 | under a transfer the bitfield's storage is replaced by exactly one step, a truncate whose in-place arm changes its length in bytes |
| `ProtocolTheorems.SizeFollowsOrigin` | src/fuse_fs.zig:1580-1593 | in every reachable state an entry at the current identity has the origin's size, and a truncate brings the size along before the identity, transfer or not |
| `ProtocolTheorems.SizeNeverLeads` | docs/architecture.md:655-665 | with no mutation in flight the entry never records more bytes than the origin has |
| `ProtocolTheorems.CrashReloadsHonestMarks` | docs/architecture.md:567-571 | after a crash between any two steps and a reload against any stat that fits, current or lagging, every mark outside the bytes that the last save exposed names bytes that are there and are the origin's, and all do exactly when no exposed byte that is marked still differs, unless marks of an outdated identity are trusted |
| `ProtocolTheorems.CurrentReload` | src/store.zig:865-937 | a current stat always fits, never trusts marks of an outdated identity, and is wrong exactly at the tainted bytes |
| `ProtocolTheorems.CrashAnywhere` | docs/architecture.md:567-571 | a run that crashes anywhere, any number of times, reopens against stats that may lag but trust no marks of an outdated identity, and never saves between the size step of a write and the end of its copy, reloads honest marks every time |
| `ProtocolTheorems.SaveTaints` | src/store.zig:2320-2332 | the guard on the save: it makes the next reload wrong exactly when it names a byte of the write between its size step and its copy whose data the cache file does not have |
| `Restart.RestartDecodesHonestMarks` | src/store.zig:865-937 | the same through the bytes on disk: the marks decoded after a crash are honest exactly when they name no exposed byte that still differs, unless the length misreads |
| `Restart.RestartMisreads` | src/piece.zig:299-320 | ... and with the misread length they are the bits of field and trailer, none exactly when nothing was marked and no trailer bit names a piece; the other misread only ever meets a field that marks nothing |
| `ProtocolSteps.SnapshotDescribes` | src/store.zig:1760-1800 | what a close publishes names the current object truthfully exactly when no digest in it covers a byte that a write between its size step and its copy changes |
| `ProtocolSteps.KeepPublish` | src/store.zig:1760-1800 | a publish keeps the invariant exactly then |
| `ProtocolTheorems.PublishedDescribes` | docs/architecture.md:523-530 | in every reachable state whatever was published under the current identity at the current size describes the object, across crashes |
| `ProtocolTheorems.GuardedIsOrderly` | src/store.zig:1760-1800 | the guard the code lacks is enough: if nobody publishes or merges between a write's size step and its copy, and merges name a current identity, no publish and no merge needs a condition on contents |
| `ProtocolTheorems.MergesSafely` | src/store.zig:1695-1748 | every manifest that may lie on the origin merges safely exactly when the pieces without a digest can take any: the identity is current and no marked byte is behind, or nothing relies on those pieces; for a manifest without identity only the latter |
| `ProtocolTheorems.CurrentTakesAny` | src/store.zig:1695-1748 | a check the entry could make: with a current identity and no write between its size step and its copy it takes any manifest that was published in order |
| `ProtocolSteps.KeepCopyEnd` | src/store.zig:2365-2478 | the marking half of a write-through, in all three arms, at any moment |
| `ProtocolSteps.KeepCopyPwrite` | src/store.zig:2366-2386 | a landed, partial or refused copy |
| `ProtocolSteps.KeepOwnStat` | src/fuse_fs.zig:1422-1445 | the first stat after a write, whatever it shows, through either entry point: the invariant is kept exactly when `OwnStatFits` |
| `ProtocolSteps.KeepOwnRetry` | src/fuse_fs.zig:1449-1472 | the second stat, when the first failed, reconciles whatever it shows and takes no note: the invariant is kept exactly when `StatFits` |
| `ProtocolSteps.LaggingFits` | docs/architecture.md:174-177 | attribute lag: a stat that shows nothing new, or an older size under the identity the entry knows, fits after a write, and at any other time exactly unless it cuts off a write between its size step and its copy |
| `ProtocolSteps.FreshFits` | src/store.zig:1036-1098 | a current stat always fits, unless the write in flight still has to note a look at another inode |
| `ProtocolSteps.IdleFits` | src/store.zig:1036-1098 | with nothing in flight a look at the object as it is or was fits exactly when it shows no more bytes than there are and, if older, the wipe is saved or the sidecar on disk is not of the current object |
| `ProtocolSteps.KeepOwnGrow` | src/fuse_fs.zig:1446-1455 | the grow of a write whose stat did not match |
| `ProtocolSteps.KeepOwnNote` | src/fuse_fs.zig:1459 | the identity note after the copy |
| `ProtocolSteps.KeepDistrust` | src/fuse_fs.zig:1463-1470 | a write whose result could not be observed |
| `ProtocolSteps.KeepTruncApply` | src/fuse_fs.zig:1552-1622 | a truncate applied to the entry, with or without a transfer |
| `ProtocolSteps.KeepStat` | src/store.zig:1036-1098 | an open or getattr applying a stat, whatever it shows and however late: the invariant is kept exactly when `StatFits` |
| `ProtocolSteps.KeepBeginFill` | src/store.zig:1434-1472 | a claim, whatever else is going on |
| `ProtocolSteps.KeepOriginRead` | src/fuse_fs.zig:1060-1079 | bytes read from the origin outside the range in flight |
| `ProtocolSteps.KeepPeerAdmit` | src/fuse_fs.zig:1121-1160 | bytes of a peer that meet the trusted digest |
| `ProtocolSteps.KeepFillCheck` | src/store.zig:1487-1503 | the skip test before the pwrite |
| `ProtocolSteps.KeepFillPwrite` | src/store.zig:1929-1938 | a whole or partial pwrite of a fill |
| `ProtocolSteps.KeepFillEnd` | src/store.zig:1360-1408 | the mark, with the generation and length gates |
| `ProtocolSteps.KeepPunchSave` | src/store.zig:2536-2548 | the write-ahead clear and save |
| `ProtocolSteps.KeepPunchCut` | src/store.zig:2549-2567 | the hole, or the mark put back |
| `ProtocolSteps.KeepLoadMerge` | src/store.zig:1695-1748 | a manifest merged after everything else may have moved: the invariant is kept exactly when what it adds describes the object and the marked bytes |
| `ProtocolSteps.KeepCrash` | src/store.zig:1136-1206 | a crash and the entry the next process builds against any stat: the invariant is kept exactly when the look fits and no mark it trusts is mistaken |
| `ProtocolSteps.KeepTearSidecar` | src/sys.zig:743-760 | a save that failed half-way keeps the invariant exactly when a restart throws its remains away or they mark nothing |
| `ProtocolSteps.KeepForeignRewrite` | docs/architecture.md:160-177 | another node rewrites the object while this node has nothing in flight |
| `ProtocolFindings.StaleStatBreaksHonesty` | src/store.zig:1036-1098 | concrete: a stat applied after it went stale, under a transfer, leads to a mark whose byte the origin does not have |
| `ProtocolFindings.LaggingStatHidesOwnBytes` | src/fuse_fs.zig:1432-1459 | concrete: a lagging stat after a later write shrinks the entry below bytes written before |
| `ProtocolFindings.UnobservedAppendReadsShort` | src/fuse_fs.zig:1465-1475 | concrete: an append whose stats both fail returns, and the entry still ends before it |
| `ProtocolFindings.LaggingRestartTrustsOldMarks` | src/store.zig:925-936 | concrete: a restart against the stat from before a landed write trusts the mark of the old byte |
| `ProtocolFindings.OldManifestBreaksPeerFill` | src/fuse_fs.zig:1578-1622 | concrete: a truncate keeps `origin_id`, so after 2 -> 1 -> 2 bytes the old manifest fits and a verified peer fill marks a lost byte |
| `ProtocolFindings.UnnamedManifestBreaksPeerFill` | src/store.zig:1702-1727 | concrete: a manifest without identity that still has the old digest is admitted by an entry whose own identity is current, and a verified peer fill marks the old byte |
| `ProtocolFindings.MergeBeforeCopyHidesWrite` | src/store.zig:2400-2427 | concrete: the current manifest, merged between a write's size step and a copy that a transfer refuses, makes the retry scan take the write for applied; it returns and the old byte stays marked |
| `ProtocolFindings.PublishInWindowBreaksPeerFill` | src/store.zig:1780-1790 | concrete: one close between a write's size step and its copy publishes the old digest under the new identity; the write completes, the process restarts, and an entry that is entirely up to date believes a peer with the old byte |
| `ProtocolFindings.TornSaveForgetsIdentity` | src/sys.zig:743-760 | concrete: a save that breaks off before the identity makes the next process trust an old mark after a rewrite |
| `ProtocolFindings.MarksOfTwoObjects` | docs/architecture.md:166-177 | concrete: between another node's rewrite and the next open the marks are of two objects under the first one's identity |
| `ProtocolFindings.ReusedInodeHidesReplacement` | src/store.zig:285-296 | concrete: a replacement that reuses the inode number under an older mtime is taken for attribute lag, and the old mark stays |
| `ProtocolFindings.WindowBreaksCrashConsistency` | src/store.zig:2320-2332 | concrete: a sidecar saved between the identity step of a write and its copy names the old byte under the new identity |
| `ProtocolFindings.TruncateMovesTheField` | src/fuse_fs.zig:1578-1594 | concrete: an extending truncate under a transfer replaces the bitfield buffer |
| `ProtocolFindings.RefillMovesSampledBytes` | src/store.zig:1483-1510 | concrete: a piece unmarked under a transfer is refilled, and that transfer then reads the new byte |
| `Text.ParseU64Fast` | src/proto.zig:95-105 | accepts a digit string of any length exactly when its value fits 64 bits, the early overflow exit included |
| `Text.PrintParses` | src/proto.zig:95-105 | the parser inverts decimal printing |
| `Text.LeadingZeros` | docs/architecture.md:415-417 | leading zeros, however many, change no value |
| `RangeExchange.RangeReadsBack` | src/proto.zig:130-143 | a Range header is read back through any blanks and any capitalisation of the unit, open-ended or not, and an inverted one is refused |
| `RangeExchange.ContentRangeReadsBack` | src/proto.zig:152-172 | a Content-Range is read back, numeric or `*`, exactly when it is not inverted and ends before its complete length |
| `RangeExchange.ServedIsAccepted` | src/peer.zig:1040-1088 | for every size and request the server parses the asked range, answers 206 exactly when it starts inside the file, and its clamped header passes the client's check |
| `RangeExchange.ServedIsTheClip` | src/peer.zig:1035-1090 | the reply's own text: a 206 names exactly the asked bytes that the file has, announces their number and the file's size; a 416 carries that size |
| `RangeExchange.AcceptedIsTheWindow` | src/peer.zig:1258-1274 | a reply is accepted exactly when it starts where asked, ends no later, stays below the complete length and announces its own length |
| `RangeExchange.AcceptedUnknownLength` | src/peer.zig:1258-1274 | the same with an unknown complete length, but for the one window whose length saturates |
| `RangeExchange.AcceptedMeans` | src/peer.zig:1258-1274 | whatever text a peer sends and whatever was asked, acceptance means a window of the asked range with a matching length, one short only for all 2^64 bytes |
| `PathGate.EscapesExact` | scripts/dr_point_restore.sh:103-115 | the four shell patterns refuse exactly the paths with a `..` component |
| `PathGate.AcceptedExact` | scripts/dr_point_restore.sh:100-113 | a `--copy` path is accepted exactly if it is one line, relative, not empty and has no `..` component |
| `PathGate.OneMoreComponent` | scripts/dr_point_restore.sh:172-173 | what one more component does to a path |
| `PathGate.BelowResolves` | scripts/dr_point_restore.sh:172-173 | an accepted path stays below its root |
| `PathGate.OverlapExact` | scripts/dr_point_restore.sh:127-143 | for paths in normal form the textual overlap gate is right in both directions |
| `PathGate.ApartTreesShareNothing` | scripts/dr_point_restore.sh:127-143 | disjoint trees share no path |
| `PathGate.TrailingSlashSlipsThrough` | scripts/dr_point_restore.sh:129-135 | with a trailing slash on the live export the gate admits every clone directly inside it |
| `PathGate.GateExact` | scripts/dr_point_restore.sh:127-143 | against mountpoints in normal form the gate is right for all of them exactly when the other path is in normal form or empty |
| `PathGate.NormalFormGate` | scripts/dr_point_restore.sh:127-143 | comparing normal forms instead of the given text would be right for every spelling |
| `PointRestore.Nas.Restore` | scripts/dr_point_restore.sh:92-184 | a whole run failing anywhere: it ends well exactly when nothing refuses it, the preserve snapshot is new, preserve, clone and mount work and every listed path lands; a dry run and a refused run change nothing, no file moves before the preserve snapshot holds the old tree, and a run that ends well has restored every listed path |
| `PointRestore.Nas.Execute` | scripts/dr_point_restore.sh:160-180 | the part behind `--execute`, with its loop, and exactly when it ends well |
| `PointRestore.RoundLands` | scripts/dr_point_restore.sh:171-180 | one round of the loop copies exactly when the snapshot holds the file, its live parent is a directory, its target is none, and copy and flush work |
| `PointRestore.ParentResolves` | scripts/dr_point_restore.sh:175 | the parent that is tested is the listed path without its last component, however it is spelled |
| `PointRestore.OnlyBetween` | scripts/dr_point_restore.sh:96 | the pattern for a child dataset matches only names with a slash between two at signs |
| `PointRestore.OneMoreRestored` | scripts/dr_point_restore.sh:171-180 | a later copy to the same path under another spelling writes the same bytes again |
| `PointRestore.WrittenIsListed` | scripts/dr_point_restore.sh:176 | only listed paths may be written exactly when no listed path is a live directory with room in it for an unlisted file of its name |
| `PointRestore.StrayRoundWrites` | scripts/dr_point_restore.sh:171-180 | one round can change an unlisted path exactly when its tests pass on such a path, and then the round fails after the write |
| `PointRestore.CopyIntoDirectory` | scripts/dr_point_restore.sh:171-180 | concrete: the live path is a directory and the snapshot's a file, and the copy lands inside the directory before the compare ends the run |
| `Changelog.CheckHeadings` | scripts/check.sh:199-286 | the heading scan and the adjacent comparison accept exactly the files whose headings are well formed, lead with one Unreleased, include the current version and descend |
| `Changelog.GoodHeadingIs` | scripts/check.sh:216-235 | a version heading passes exactly if it is `## [`, three numbers, suffixes, `] - ` and a date of digits |
| `Changelog.ScanMeans` | scripts/check.sh:200-243 | what the scan's variables mean after every line |
| `Changelog.KeyOfDotted` | scripts/check.sh:249-262 | a plain version of three numbers below 2^63 is read as those numbers |
| `Changelog.VerLtSet` | scripts/check.sh:249-269 | the comparison chain on two version strings is the lexicographic order of their numbers |
| `Changelog.WrappedIs` | scripts/check.sh:255-267 | the shell compares the 64-bit number that is congruent to the digits' value |
| `Changelog.SuffixIgnored` | scripts/check.sh:249-254 | a pre-release or build suffix does not count |
| `Changelog.VersionsAreOrdered` | scripts/check.sh:277-286 | adjacent descent makes the listed versions pairwise different and totally ordered |
| `Changelog.OneHeadingPerVersion` | scripts/release_notes.sh:46-50 | each listed version has exactly one line the extractor's prefix matches |
| `Changelog.NotesAreTheSection` | scripts/release_notes.sh:46-55 | the extractor opens at exactly the version's own heading |
| `Changelog.Notes` | scripts/release_notes.sh:46-50 | with one matching heading the awk pass prints exactly the lines up to the next `## ` line; with none, nothing |
| `Changelog.ReleaseNotes` | scripts/release_notes.sh:46-55 | the whole script: it fails exactly on a section of nothing but white space, and otherwise prints the section without the empty lines at its end |
| `Changelog.SectionsAreDisjoint` | scripts/release_notes.sh:43-45 | no line belongs to two versions' notes, and none is a heading |
| `CiSteps.GhaLeavesNone` | scripts/ci_run_steps.awk:13-16 | the rewritten line holds no placeholder, however braces nest or fail to close |
| `CiSteps.GhaIdempotent` | scripts/ci_run_steps.awk:13-16 | rewriting twice is rewriting once |
| `CiSteps.GhaReplaces` | scripts/ci_run_steps.awk:13-16 | the leftmost placeholder is replaced, the text before it kept, the rest rewritten as if it stood alone |
| `CiSteps.GhaKeeps` | scripts/ci_run_steps.awk:13-16 | text without a placeholder stays as it is |
| `RunSteps.StepReads` | scripts/ci_run_steps.awk:22-23 | blanks, the key, blanks and a value read as a step with that value |
| `RunSteps.StepIs` | scripts/ci_run_steps.awk:22-23 | ... and no other line is a step |
| `RunSteps.UnquotedIs` | scripts/ci_run_steps.awk:24 | at most one quote goes at either end of the value |
| `RunSteps.HeaderIs` | scripts/ci_run_steps.awk:26 | a block header is a bar or an angle, maybe a sign, and digits |
| `RunSteps.IndentIs` | scripts/ci_run_steps.awk:27 | the indentation counts the spaces a line starts with |
| `RunSteps.ExtractPrints` | scripts/ci_run_steps.awk:20-45 | what each line of a file prints: a step its marker and command, a line of the block that a header opened and nothing closed its text cut by the indentation of the header, any other line nothing |
| `CiSteps.Awk` | scripts/ci_run_steps.awk:18-45 | the state machine over several files, whose block variables live on, gives the concatenation of the per-file extractions |
| `CiSteps.FilesAreIndependent` | scripts/ci_run_steps.awk:18 | extracting two lists is extracting each |
| `CiSteps.BodyIsNoMarker` | scripts/ci_run_steps.awk:37-40 | a block-body line keeps a leading space, so it is never a marker |
| `CiSteps.MarkerCount` | scripts/check.sh:378-385 | markers in the output are steps with a value plus inline values that print as the marker |
| `CiSteps.GateCounts` | scripts/check.sh:378-385 | the gate passes exactly when forged markers and bare keys balance |
| `CiSteps.GateIsExact` | scripts/check.sh:378-385 | with no forged marker it passes exactly when every `run:` line carries a value |
| `Sums.ParseTreeSums` | scripts/sbom.py:265-288 | the loop with its seen set is the line-by-line specification, duplicates and malformed lines included |
| `Sums.VendoredMismatch` | build.zig:41-94 | the cursor loop passes exactly when the list parses, is not empty, and every listed file has its digest |
| `Sums.SbomReadsBack` | scripts/sbom.py:265-288 | a printed list reads back as itself exactly when it is not empty, names each file once, and each name is relative without a `..` component and not the list itself |
| `Sums.BuildReadsBack` | build.zig:41-94 | ... and in the build exactly when it is not empty and each name is relative, without two dots in a row or a trailing slash |
| `Sums.ReadersDisagree` | build.zig:58-66 | names one reader accepts and the other refuses |
| `SumsLines.PyEntryReads` | scripts/sbom.py:274-282 | a line of blanks, a digest, two spaces, maybe `./`, and a legal name is that entry |
| `SumsLines.PyEntryIs` | scripts/sbom.py:274-282 | ... and no other line is one |
| `SumsLines.ZigEntryReads` | build.zig:48-66 | in the build, with blanks, a star and `./` before the name, and no blank needed |
| `SumsLines.ZigEntryIs` | build.zig:48-66 | ... and no other line |
| `SumsLines.SkippedLines` | build.zig:48-49 | either reader skips exactly the blank lines and the comments, and so refuses the rest |
| `SumsLines.PyLinesSplit` | scripts/sbom.py:274 | a line ends at its first break, a carriage return with the line feed after it being one |
| `SumsLines.ZigLinesSplit` | build.zig:43-47 | in the build it ends at a line feed alone |
| `SumsLines.ZigLegalIs` | build.zig:60-66 | the names the build takes: no slash at either end, no two dots in a row |
| `Sbom.ParseActions` | scripts/sbom.py:339-366 | one file: the first occurrences of its pins, or a refusal of any unpinned line |
| `Sbom.LoadActions` | scripts/sbom.py:369-393 | per-file dedup then dedup across files is one dedup of all pins |
| `UsesLines.UsesLineReads` | scripts/sbom.py:339-366 | a `uses:` line, with any blanks, dash and comment, reads as its reference: the pin it prints, nothing for a local one, a refusal otherwise |
| `UsesLines.OtherLinesAreSilent` | scripts/sbom.py:339-366 | only such lines add a pin or refuse a file |
| `UsesLines.PinsAre` | scripts/sbom.py:339-366 | a file is refused exactly if a line of it is, and its pins are those its lines name |
| `UsesLines.PinnedIs` | scripts/sbom.py:54-57 | what is pinned: at least two parts of letters, digits, `_`, `.` and `-`, and 40 or 64 lower-case hexadecimal digits |
| `Lists.DedupRight` | scripts/sbom.py:384-391 | deduplicating a part first changes nothing |
| `Sbom.KeyInjective` | scripts/sbom.py:360-362 | the textual key of an accepted pin is the pin |
| `Sbom.GithubPurlInjective` | scripts/sbom.py:408-414 | two accepted pins with one url are one pin |
| `Sbom.ActionPurlsDistinct` | scripts/sbom.py:408-414 | the deduplicated actions have pairwise different urls |
| `Sbom.DebRecomposes` | scripts/sbom.py:396-405 | the split of a package file name is its only one at the last two underscores, and recomposes to it |
| `Sbom.DebUrlShared` | scripts/sbom.py:396-405 | a package shares its url with some other package exactly when its version holds an `@` or `?arch=`, its architecture `?arch=`, or its name an `@` after the last underscore |
| `Sbom.DebPurlsMeet` | scripts/sbom.py:396-405 | two packages that meet by an `@`, whatever the texts around it |
| `Sbom.DebMarksMeet` | scripts/sbom.py:396-405 | ... and two that meet by a `?arch=` |
| `Sbom.VendoredIsOne` | scripts/sbom.py:291-331 | the vendored trees found are accepted exactly when they are one, so the list never holds two |
| `Sbom.TreeVersionIs` | scripts/sbom.py:71 | a directory is a vendored tree exactly if its name is the prefix and three dotted numbers, which are its version |
| `Sbom.InventoryHasOnePerPurl` | scripts/sbom.py:449-527 | with unambiguous package urls and an ordinary version of Zig the inputs of `build_bom` give one component per url exactly when the lock does: pins, packages, vendored trees and Zig never meet |
| `Lists.Dedup` | scripts/sbom.py:417-423 | `hashes_cdx`: the same elements, each once |
| `Lists.DedupOrder` | scripts/sbom.py:417-423 | ... in the order of their first occurrence |
| `Sbom.BomIgnoresInputOrder` | scripts/sbom.py:527 | the sorted component list is independent of input order exactly when no two different components share a url |
| `Sbom.SortIsStable` | scripts/sbom.py:527 | components with one url keep their input order |
| `Handshake.ReportedUpdatesTookPlace` | src/main.zig:2079-2159 | with any number of CLIs whose half-written requests are never published, and images that may die, a reported update was adopted after its request; the image was exec'd after it exactly when it did not go out between that exec and the adoption, and runs its binary exactly when it did not go out between the old image's read and the adoption |
| `Handshake.RacedUpdateReports` | src/main.zig:2595-2613 | concrete: the second of two CLIs reports an update to an image exec'd before its request, running the first one's binary |
| `Handshake.LateUpdateReports` | src/fuse_fs.zig:3301-3400 | concrete: a request that goes out between the old image's read and its exec is reported by an image exec'd after it that runs the other binary |
| `Handshake.TimedOutIsFinal` | src/main.zig:2152-2158 | any CLI that asked may give up, and an image that had not taken its token by then never does, whatever happens afterwards |
| `Handshake.StepKeepsInv` | src/fuse_fs.zig:3301-3411 | every step of CLIs and images keeps that |
| `DropIn.EffectiveEnv` | scripts/backup_config.sh:78-102 | the nested loops list each key once, in order of first assignment, with its last line |
| `DropIn.DropInChangesItsKeys` | scripts/backup_config.sh:74-77 | an appended drop-in keeps every key's place and changes exactly the keys it assigns |
| `DropIn.SilentFile` | scripts/backup_config.sh:83 | an unreadable or silent file changes nothing |
| `DropIn.LineAssigns` | scripts/backup_config.sh:84-95 | a printed `Environment=` line assigns its key, and keeps its text |
| `DropIn.LinesReadBack` | scripts/backup_config.sh:83-84 | a printed file is read as its lines |
| `DropIn.OneMoreLine` | scripts/backup_config.sh:78-102 | one more line at the end sets its own key, in place or at the end, and no other |
| `DropIn.LastIsLast` | scripts/backup_config.sh:88-92 | the line listed for a key is the last one that assigns it |
| `Cull.CullingIsHysteresis` | src/cull.zig:32-41 | over every sample history the loop is culling exactly when the last sample outside the open band was at or below bcull |
| `Cull.CullLoop` | src/fuse_fs.zig:1839-1897 | the loop, failed samples included, takes exactly those edges |
| `Cull.EdgesAlternate` | docs/architecture.md:482-484 | start and stop edges alternate, beginning with a start |
| `Cull.EdgesExact` | src/fuse_fs.zig:1876-1888 | an edge is listed exactly where the phase changed |
| `Cull.EdgeSamples` | src/cull.zig:32-41 | it starts at or below bcull and stops at or above brun |
| `Cull.StopIsMemoryless` | src/cull.zig:34 | hard culling depends on the sample alone, and history matters exactly inside the band |
| `Cull.OrderedIsNeeded` | src/cull.zig:12-25 | the watermarks are ordered exactly when culling can start softly and can end at some percentage and none does both |
| `Cull.FreePercentIs` | src/cull.zig:43-52 | the largest percentage that is really free, and all for an unknown capacity |
| `Leases.LiveWithinLead` | src/discover.zig:242-244 | a lease of a given age is live exactly to readers whose clock leads by less than 45 s minus that age |
| `Leases.RefreshedIsLive` | docs/architecture.md:228-234 | refreshed every 10 s, it is live to every reader leading by under 35 s |
| `Leases.SweepLeases` | src/discover.zig:1027-1095 | one sweep removes only stale names, never its own lease, and nothing without one |
| `Leases.SweptWasStale` | src/discover.zig:1069-1095 | in any run of publishers and sweepers, what is unlinked was 300 s old when looked at; a fresher one goes only if it was refreshed between the look and the unlink |
| `Leases.SweptIs` | src/discover.zig:1044-1068 | the swept names are the leases of other nodes and leftover `.tmp` files, no hidden ones |
| `Leases.StaleLeaseGoes` | src/discover.zig:1069-1095 | a sweeper takes exactly the swept names 300 s or more behind its own lease, and the unlink removes that name alone |
| `Leases.FreshLeaseIsKept` | docs/architecture.md:237-241 | a lease that never grows 300 s old is never swept, whatever the node clocks say |
| `Leases.ReturningLeaseCanGo` | src/discover.zig:1072-1081 | concrete: a node that comes back between the look and the unlink loses its new lease |
| `HaveSweep.Sweep` | scripts/cluster_verify.py:83-114 | the sweep passes exactly when every piece is marked in a full-length bitmap of its node, asks each piece once on node p mod n, and stops at the first fault |
| `HaveSweep.InsideBitmap` | scripts/cluster_verify.py:98-104 | the bit test never leaves a bitmap of the wanted length |
| `HaveSweep.EveryNodeIsAsked` | scripts/cluster_verify.py:84 | with as many pieces as nodes every node is asked |
| `HaveSweep.FullFieldPasses` | src/piece.zig:58-65 | the daemon's own packing passes exactly for the pieces it holds |
| `HaveSweep.JudgeIs` | scripts/cluster_verify.py:90-108 | a reply is good exactly if it names a grid, its bitmap is the shortest with room for all pieces, and the bit of the piece is set, least significant first |
| `HaveSweep.RoundRobin` | scripts/cluster_verify.py:84 | the nodes take turns, beginning with the first |

## Left out

- ProtocolTheorems.ReadsSeeOwnWrites: whether a read is cut short is decided exactly at the return; over the run after it the clause needs a byte that was reached then and no stat, of a restart included, that shows a size at or below it. The other cases are `UnobservedAppendReadsShort` and `LaggingStatHidesOwnBytes`.
- ProtocolSteps.StepKeepsInv: the conditions of its guarded actions are exact for the invariant as a whole, the bookkeeping of transfers and of the saved sidecar included, not for one documented promise.
- Protocol.CanWantHash: a fill may consult peers at any generation; the code only does so when `writes` was zero before the claim, so the proofs cover more runs than the code has.
- CachedEntry.Cached.BeginFill: the 2 ms wait for another filler of the same piece is the answer `Taken`.
- CachedEntry.Cached.MergeManifest: reading and decoding the blob off the lock is a parameter (the decoder is `ManifestCodec`), and the retry time after a transient failure is a parameter of `ClaimManifest`.
- Sums.VendoredMismatch: the build reads bytes, here one character each, `scripts/sbom.py` characters; what compares the two readers is about text in which the two agree.
- Changelog.ReleaseNotes: the link lines at the foot of the file, which belong to the last section as the script sees it.
- PointRestore.Nas.Restore: symbolic links, file modes and the `zfs` availability test; the live export is taken to be the mountpoint of the dataset.
- Unlink, rename and forget (`dead` entries), idle reaping, and closing and reopening of the cache descriptor: they end an entry's life, the model is about one life.
- At-rest corruption and `verifyRange`, beyond the mark that `Heal` drops.
- Protocol.CanPublish: when a close publishes at all (the dirty flag, cleared by comparing counts) and how the blob reaches its name; here any close may publish at any time, and a load may bring any manifest ever published.
- Protocol.CanForeignRewrite: another node writing while a write of this node is in flight (the documentation promises last write wins and nothing more).
- Torn reads of one byte range by the kernel: a read is one look at the bytes.
- Probing, path ranking, HTTP heads, authentication, the `/have` cache and the Hugging Face pull: network plumbing around the exchange that is modelled.
- Overflow of the arithmetic on offsets past 2^63: offsets are natural numbers, piece counts are clamped as in the code.
- Sbom.InventoryHasOnePerPurl: what else a component holds is taken to be decided by the file, pin or version it was made from; the minimum version of Zig is one with a dot and no `#`.
- Sbom.VendoredSources: only the names of the directories; whether each list covers its tree is left to the parts of `Sums`, and a `\d` is an ASCII digit.
- `mf_create`: its truncating open drops trust by `distrust` and reopens the entry at size 0; the truncate of an existing file is modelled for `mf_truncate` and for an open with `O_TRUNC`.
- Handshake.Exec: a binary is the path a request names, whatever file lies there when it is exec'd.
- Handshake.Remount: whether an image dies, at which step, and when the operator mounts again are arbitrary; a signal to an image that has no handler installed yet is one way to die.
- The lock file, PyPI and license parts of `scripts/sbom.py`, the fuzz harnesses, benchmarks, packaging and installation scripts: they would add parsers of the same kind.
