# AO2 Control Plane: the evidence store, the audit log and the release gates, modelled and proved

The AO2 control plane stores evidence that other programs produce, keeps an audit
log of requests, and reports whether a release may be promoted. This Dafny project
models the parts of it whose correctness depends on state, failures or interleaving,
and proves what they promise.

- **Canonical JSON** (`Json`, `JsonReader`, `Canonical`, `JsonShortest`, `CanonicalWriter`):
  the printer every digest rests on, a reader that undoes it, and the consequences: two
  values have the same text exactly when they differ in member order only, no JSON text of
  a value is shorter than its canonical text, no text is a prefix of another value's text,
  printing is a fixed point, and the Python twin prints the same.
- **The index** (`JsonGlue`, `IndexLog`, `IndexStore`): `index.jsonl` as bytes, the
  line-by-line load, and the in-memory copy trusted by length and time. The theorems say
  what *any* write, cut anywhere, after any text, reads back as.
- **Bundles, retention, storage** (`Bundles`, `Retention`, `KindSums`, `Storage`): files
  published by rename, count-based pruning with crashes and restarts, the sweep at open,
  byte conservation and the retention report.
- **Ingest** (`ContentAddress`, `Ingest`): what an upload is read as and addressed by;
  concurrent uploads, prunes, crashes, failed writes, restarts and interrupted sweeps and
  prunes as interleaved steps over one disk; invariants of every run.
- **The audit log** (`AuditPersistence`, `AuditRing`, `AuditStream`): rotation of the persisted file with
  and without faults, the ring and its counters under concurrent appends, and the resumed
  event stream.
- **The release gates** (`Readiness`, `JsonLookup`, `Verifier`, `Comparison`): the exact
  meaning of `release_decision_allowed`, and of a pass of the offline verifier.

`Wrappers`, `Sequences`, `Utf8` and `Ascii` hold what the others share.

Objects whose methods update fields in the source are classes here, and their methods are
proved against functions on values; the theorems are then about those functions. Protocols
that run concurrently are state machines over their atomic steps.

Five results differ from what the source says about itself.

1. `crates/ao2-cp-storage/src/bundle.rs:110-113` calls concurrent writers of one sha
   byte-identical. The sha is that of the canonical form and the raw bytes are stored: any
   upload and the same upload with blanks around it share an address
   (`ContentAddress.SameAddressOtherBytes`). What two such writers store is the same JSON
   value as serde_json reads it, where numbers outside 64 bits and fractions are doubles and
   the last of repeated keys counts (`ContentAddress.SameAddressSameValue`). Each address has
   one canonical byte string, and it fixes the bytes of an upload among canonical uploads
   exactly when the upload is canonical (`ContentAddress.CanonicalAddressFixesBytes`).
2. An append after a line that lost its newline is reported as done and is lost at the next
   load, with the torn line (`IndexLog.LostNewlineLosesTwo`). An acknowledged upload is in
   the index as read back exactly when the index ended its last line before
   (`Ingest.AcknowledgedIffClean`, `IndexLog.AppendSurvivesIff`).
3. The copy of the index is checked by length and time, and a read can answer an entry that
   is no longer in the file (`IndexStore.StaleRead`). After a replacement by another process a
   read is fresh exactly when length or time differ from those *recorded by this process*, or
   the new file holds the entries held anyway (`IndexStore.ReadAfterReplace`).
4. The offline verifier takes a text such as `error:'release_cockpit'` for the digest of a
   surface it cannot find, and accepts a bundle that lists that text. A bundle without a
   cockpit can pass (`Verifier.AbsentSurfacesPass`). A pass means what it is meant to mean
   exactly when no listed digest is such a text (`Verifier.PassMeansSoundIff`).
5. `crates/ao2-cp-server/src/audit_log.rs:389-391` says the writer is never absent. It is
   absent forever after a rotation that fails, and from then on every append is counted as
   an error and persists nothing; once open, it is lost in no other way
   (`AuditPersistence.ReplayFaults`).

From a freshly opened store, crashes in the middle of a prune leave no trace after the next
open and prune exactly when there is no stray file: a file of a swept kind whose sha leaves
the index with the prune, though the prune does not remove the file
(`Retention.PruneIsRestartableIff`). There is none when every file belongs to an entry of the
kind that owns it (`Retention.PruneIsRestartable`). A memory export and an evidence pack under
one sha, of which only the export is in the index, is a store without orphans where a crash
after the prune loses the evidence pack (`Retention.StrayFileBreaksRestart`); the open after
an uninterrupted prune loses it too, so both ways end the same one open later
(`Retention.PruneSettles`). While a prune is interrupted, the index has entries without files:
exactly when it removed something and did not go to its end (`Ingest.BackedAfterPruneIff`).

Assumptions: SHA-256 is an injective function with hexadecimal results (of any length:
64 digits could not be injective; `Verifier.ValidEnv` shows that the assumptions can be met);
printing a double and reading it again gives the same double (`ContentAddress.ValidDoubles`);
the text form of instants reads back (`IndexLog.ValidCodec`); signature checks are not
modelled; renames are atomic and last; a char is a Unicode scalar value.

## Model

| member | source | states |
|---|---|---|
| JsonReader.ValueRoundTrip | crates/ao2-cp-schema/src/canonical.rs:17-68 | a printed value, followed by any text that does not continue a number, reads back as that value and leaves that text |
| JsonReader.DocumentRoundTrip | crates/ao2-cp-schema/src/canonical.rs:11-15 | the reader undoes the printer on whole documents |
| JsonReader.DocumentPrefixFree | crates/ao2-cp-storage/src/index.rs:274 | a strict prefix of a document that ends with its value is no document, unless it is a number |
| JsonGlue.GluedDocument | crates/ao2-cp-storage/src/index.rs:269-294 | a text that ends in an object line is a document iff only blanks come before the line |
| JsonGlue.GluedPrefix | crates/ao2-cp-storage/src/index.rs:269-294 | after a non-blank text, even a part of an object line gives no document that could be an entry |
| Utf8.EncodePreservesOrder | crates/ao2-cp-schema/src/canonical.rs:34-35 | byte order of UTF-8 texts is code-point order, as section 1 of RFC 3629 says |
| Utf8.StringLeIff | crates/ao2-cp-schema/src/canonical.rs:34-35 | the order of texts: the first of them is a prefix, or has the smaller code point where they first differ |
| Utf8.DecodeEncoded | crates/ao2-cp-storage/src/index.rs:264 | decoding undoes encoding |
| Utf8.DecodeCut | crates/ao2-cp-storage/src/index.rs:264 | a cut text decodes iff the cut is between characters, and then to the characters before it |
| Canonical.ReadCanonical | crates/ao2-cp-schema/src/canonical.rs:11-48 | reading a canonical text gives the value with sorted members |
| Canonical.CanonicalTextIdentifies | crates/ao2-cp-schema/src/canonical.rs:4-48 | two values have the same canonical text iff they are equal up to member order |
| Canonical.CanonicalFixedPoint | crates/ao2-cp-schema/src/canonical.rs:11-48 | canonicalizing a parsed canonical text gives the same text |
| Canonical.CanonicalPrefixFree | crates/ao2-cp-schema/src/canonical.rs:11-68 | no canonical text of a value other than a number begins another one |
| JsonShortest.DocumentShortest | crates/ao2-cp-schema/src/canonical.rs:4-68 | printing what was read from any text gives no longer text |
| JsonShortest.EscapesAreMinimal | crates/ao2-cp-schema/src/canonical.rs:50-68 | every way to write a string is at least as long as the printed one: minimal escapes |
| JsonShortest.EscapesAreLowerCase | crates/ao2-cp-schema/src/canonical.rs:60-62 | escapes of control characters hold no upper-case hexadecimal digit |
| JsonShortest.CanonicalIsShortest | crates/ao2-cp-schema/src/canonical.rs:4-15 | no JSON text of a value, whatever its member order, blanks and escapes, is shorter than the canonical text |
| JsonShortest.CanonicalTextAscends | crates/ao2-cp-schema/src/canonical.rs:33-46 | the keys of every object in a canonical text ascend by code point |
| JsonShortest.IntTextUnique | crates/ao2-cp-schema/src/canonical.rs:21 | an integer has one text |
| Canonical.DigestIdentifies | crates/ao2-cp-schema/src/canonical.rs:70-76 | two values have the same digest iff they are equal up to member order |
| Canonical.PythonPrintsTheSame | scripts/verify_release_support_bundle.py:140-145 | the Python printer, sorting by code point, prints what the Rust printer prints, sorting by bytes |
| Canonical.CompactHasNoControls | crates/ao2-cp-schema/src/canonical.rs:50-68 | no printed value holds a raw control character, so no newline |
| CanonicalWriter.WriteString | crates/ao2-cp-schema/src/canonical.rs:50-68 | pushes the quoted string |
| CanonicalWriter.WriteItems | crates/ao2-cp-schema/src/canonical.rs:23-32 | pushes the canonical text of an array |
| CanonicalWriter.WriteMembers | crates/ao2-cp-schema/src/canonical.rs:33-46 | collecting keys, sorting them and looking values up again pushes the canonical text of the object |
| CanonicalWriter.WriteValue | crates/ao2-cp-schema/src/canonical.rs:17-48 | pushes the canonical text of any value |
| CanonicalWriter.CanonicalJson | crates/ao2-cp-schema/src/canonical.rs:11-15 | the printer with its growing string computes the canonical text |
| IndexLog.EntryRoundTrip | crates/ao2-cp-storage/src/index.rs:11-21 | a serialized entry parses back, with its optional fields absent or present |
| IndexLog.EntryLineText | crates/ao2-cp-storage/src/index.rs:11-21 | the line of an entry has these keys, in this order, without blanks, and no trace of absent options |
| IndexLog.EntryPrefixRejected | crates/ao2-cp-storage/src/index.rs:125-127 | no strict prefix of a serialized entry is a JSON document |
| IndexLog.LinesAppend | crates/ao2-cp-storage/src/index.rs:264-269 | the lines of a text after a terminated one are appended to its lines |
| IndexLog.EitherEnding | crates/ao2-cp-storage/src/index.rs:264-269 | a line ends in a newline or in a carriage return and a newline, alike |
| IndexLog.LoadedShas | crates/ao2-cp-storage/src/index.rs:283-290 | every loaded sha has 64 characters, all of them hexadecimal digits |
| IndexLog.LoadCounts | crates/ao2-cp-storage/src/index.rs:265-303 | every line that is not blank is an entry, is counted as malformed or is counted as having an invalid sha |
| IndexLog.InvalidShaCounted | crates/ao2-cp-storage/src/index.rs:283-290 | an entry with an invalid sha is counted as that and not loaded |
| IndexLog.CrashedAppendIsAtomic | crates/ao2-cp-storage/src/index.rs:115-130 | a write cut at any character after a terminated file reads back as the old entries, or those and the new one |
| IndexLog.CrashedAppendBytes | crates/ao2-cp-storage/src/index.rs:249-303 | the same for cuts at any byte: the load fails exactly when the cut is inside a character |
| IndexLog.AppendSurvivesIff | crates/ao2-cp-storage/src/index.rs:115-130 | a completed append is read back iff only blanks follow the last newline; otherwise it is lost and so is what that line held |
| IndexLog.AnyWriteLoads | crates/ao2-cp-storage/src/index.rs:115-130 | what any part of a line, written after any text, reads back as |
| IndexLog.LostNewlineLosesTwo | crates/ao2-cp-storage/src/index.rs:126-127 | a crash between line and newline keeps the entry, and the next append destroys both |
| IndexStore.IndexStore.LoadFromDisk | crates/ao2-cp-storage/src/index.rs:249-303 | the load of the file, nothing if it is missing, a failure on invalid UTF-8 |
| IndexStore.IndexStore.LoadLines | crates/ao2-cp-storage/src/index.rs:265-295 | line by line, entries are kept in order and malformed lines and invalid shas counted |
| IndexStore.IndexStore.EnsureLoaded | crates/ao2-cp-storage/src/index.rs:226-247 | a copy whose length and time match is kept, whatever it holds; otherwise afterwards it is what a fresh load gives |
| IndexStore.IndexStore.AppendInner | crates/ao2-cp-storage/src/index.rs:115-130 | an invalid sha changes nothing; a cut write leaves exactly its part of line and newline |
| IndexStore.IndexStore.Remember | crates/ao2-cp-storage/src/index.rs:107-111 | entries, sha set and fingerprint are extended, and describe the new file if it ended its last line |
| IndexStore.IndexStore.Append | crates/ao2-cp-storage/src/index.rs:87-97 | the new entry follows what the file held; a valid entry is appended unless something fails, and a failure leaves a prefix of the line at most, and the copy valid |
| IndexStore.IndexStore.AppendIfAbsent | crates/ao2-cp-storage/src/index.rs:99-113 | succeeds unless something fails; then it answers whether the sha was absent, and appends exactly its line if it was, so distinct shas stay distinct |
| IndexStore.IndexStore.ReadAll | crates/ao2-cp-storage/src/index.rs:132-136 | answers the held entries when length and time match, and else a fresh parse of the file with its sha set |
| IndexStore.IndexStore.ReadPage | crates/ao2-cp-storage/src/index.rs:138-179 | answers the total and the window of the sorted selection of a fresh parse |
| IndexStore.IndexStore.Rewrite | crates/ao2-cp-storage/src/index.rs:196-224 | replaces the file by one that loads as exactly the given entries, or changes nothing |
| IndexStore.IndexStore.ExternalReplace | crates/ao2-cp-server/src/bin/gc.rs:76 | after any replacement by another process the copy is valid if length or time differ from the recorded ones |
| IndexStore.ReadAfterReplace | crates/ao2-cp-storage/src/index.rs:226-247 | after any replacement a read is fresh iff length or time differ from the recorded ones or the new file holds the held entries |
| IndexStore.Replay | crates/ao2-cp-storage/src/index.rs:87-136 | over any run of operations, each failing in any way, and of replacements that change length or time, every read answers as a fresh parse and the sha set is that of the answer, as long as nothing is appended to a torn line |
| IndexStore.SameLengthOtherEntries | crates/ao2-cp-storage/src/index.rs:226-233 | for every one-entry index there is a file of the same length without entries |
| IndexStore.StaleRead | crates/ao2-cp-storage/src/index.rs:226-233 | a read answers an entry that the replaced file no longer holds |
| IndexStore.RewrittenLoads | crates/ao2-cp-storage/src/index.rs:203-214 | the rewritten file loads as the given entries and ends its last line |
| IndexStore.PagesPartition | crates/ao2-cp-storage/src/index.rs:160-171 | the pages one after the other hold each selected entry as often as the index, in page order |
| IndexStore.ListingIs | crates/ao2-cp-storage/src/index.rs:138-165 | the listing holds the entries with the wanted schema prefix, provider and status, newest first and then by sha |
| IndexStore.WindowIs | crates/ao2-cp-storage/src/index.rs:166-171 | a page begins at its offset and ends after its limit or at the end |
| IndexStore.ListingIgnoresOrder | crates/ao2-cp-storage/src/index.rs:160-165 | with distinct shas the listing does not depend on index order |
| Bundles.SubdirInjective | crates/ao2-cp-storage/src/bundle.rs:41-69 | different kinds have different directories |
| Bundles.SubdirRoundTrip | crates/ao2-cp-storage/src/lib.rs:1282-1286 | the directory of every listed kind maps back to it |
| Bundles.PrunedKindsAreListed | crates/ao2-cp-storage/src/lib.rs:1187-1247 | every prunable kind and its sidecar kinds are listed kinds |
| Bundles.EntryKindIsPrunable | crates/ao2-cp-storage/src/lib.rs:1249-1280 | an entry's kind, if it has one, is prunable |
| Bundles.EvidenceSchemaIs | crates/ao2-cp-storage/src/lib.rs:1249-1280 | the evidence kinds belong to these schemas, and no others |
| Bundles.AcceptanceSchemaIs | crates/ao2-cp-storage/src/lib.rs:1249-1280 | the acceptance and fleet kinds belong to these schemas |
| Bundles.PromotionSchemaIs | crates/ao2-cp-storage/src/lib.rs:1249-1280 | the promotion kinds belong to these schemas |
| Bundles.ReleaseSchemaIs | crates/ao2-cp-storage/src/lib.rs:1249-1280 | the release kinds belong to these schemas |
| Bundles.EntryKindIs | crates/ao2-cp-storage/src/lib.rs:1249-1280 | a known schema decides the kind whatever the provider; otherwise an entry is an acceptance of the provider it names, or of no kind |
| Bundles.RelatedKindsByName | crates/ao2-cp-storage/src/lib.rs:1236-1247 | the kinds pruned with a kind are those whose directory is its own with "-signature" after it |
| Bundles.PrunableKinds | crates/ao2-cp-storage/src/lib.rs:1215-1234 | the prunable kinds are the listed ones that are no sidecar directories |
| Bundles.SweptKinds | crates/ao2-cp-storage/src/lib.rs:1133-1168 | the sweep lists every listed kind but the inputs verifications |
| Bundles.BundleStore.Write | crates/ao2-cp-storage/src/bundle.rs:93-124 | the published path gets all of the bytes or keeps what it had, whatever fails; the temporary name is fresh |
| Bundles.BundleStore.List | crates/ao2-cp-storage/src/bundle.rs:165-179 | lists the shas of a kind, each once |
| Retention.PrunedIffExcess | crates/ao2-cp-storage/src/lib.rs:1098-1131 | with distinct shas an entry is pruned iff it is beyond the kept ones of its kind |
| Retention.PruneKeepsNewest | crates/ao2-cp-storage/src/lib.rs:1104-1110 | each kind keeps exactly its first entries in stable newest-first order |
| Retention.PrunedAreOlder | crates/ao2-cp-storage/src/lib.rs:1104-1111 | a pruned entry is older than every kept one of its kind, or as old and later in the index |
| Retention.KeptOfKind | crates/ao2-cp-storage/src/lib.rs:1110-1111 | of each kind as many entries are kept as the policy says, or all if there are fewer |
| Retention.CandidatesOldestFirst | crates/ao2-cp-storage/src/lib.rs:1112-1130 | candidates are listed oldest first, and each tells the fields and the sidecars of a pruned entry |
| Retention.PruneKeepsUnkinded | crates/ao2-cp-storage/src/lib.rs:1072-1076 | entries of no kind stay, in their order |
| Retention.PruneCounts | crates/ao2-cp-storage/src/lib.rs:1080-1095 | retained and pruned entries add up to the index |
| Retention.PruneTwice | crates/ao2-cp-storage/src/lib.rs:1048-1096 | a second prune with the same policy finds nothing, whatever files there are |
| Retention.PruneRemovesTargeted | crates/ao2-cp-storage/src/lib.rs:1061-1071 | a prune removes exactly the bundles and sidecars of the pruned entries |
| Retention.KeptIgnoresFiles | crates/ao2-cp-storage/src/lib.rs:1098-1131 | which entries go does not depend on the files |
| Retention.PruneIsRestartableIff | crates/ao2-cp-storage/src/lib.rs:1048-1184 | from a freshly opened store: however often and wherever an applied prune crashes, opening and pruning again ends as an uninterrupted prune, iff no file is a stray |
| Retention.PruneIsRestartable | crates/ao2-cp-storage/src/lib.rs:1048-1184 | so it is when every file of a swept kind belongs to an entry of the kind that owns it |
| Retention.StrayFileBreaksRestart | crates/ao2-cp-storage/src/lib.rs:1133-1184 | a freshly opened store where a crash after the prune loses a file that the prune keeps |
| Retention.PruneSettles | crates/ao2-cp-storage/src/lib.rs:1048-1184 | from any opened store, with no ownership assumed, both ways end the same after one more open |
| Retention.PruneConservesBytes | crates/ao2-cp-storage/src/lib.rs:1084-1087 | the reported bytes are exactly the drop in the total stored size |
| KindSums.ListingAddsUp | crates/ao2-cp-storage/src/lib.rs:868-875 | a complete listing of a kind adds up to its files' sizes and number |
| KindSums.KindAddsUp | crates/ao2-cp-storage/src/lib.rs:868-877 | one more kind adds its files to both totals |
| Storage.Storage.RetentionCandidates | crates/ao2-cp-storage/src/lib.rs:1098-1131 | the loops gather and sort the candidates |
| Storage.Storage.RemoveCandidates | crates/ao2-cp-storage/src/lib.rs:1061-1071 | the nested deletion loops remove the plan in order, or its first steps when stopped |
| Storage.Storage.PruneRetention | crates/ao2-cp-storage/src/lib.rs:1048-1096 | the result, and the disk of a prune stopped after any number of steps; a dry run answers the same and changes nothing |
| Storage.Storage.SweepOrphans | crates/ao2-cp-storage/src/lib.rs:1133-1184 | removes exactly the files of swept kinds whose sha is not in the index, or nothing when the index cannot be read |
| Storage.Storage.KindRows | crates/ao2-cp-storage/src/lib.rs:864-891 | each row counts its kind, and the totals are those of all listed files |
| Storage.Storage.ReportForEntries | crates/ao2-cp-storage/src/lib.rs:858-914 | totals, untruncated reclaimable bytes and the first hundred candidates; reclaimable never exceeds the total |
| Storage.Storage.PublishSidecar | crates/ao2-cp-server/src/handlers/evidence_pack.rs:215-244 | a sidecar is written once: an identical one is accepted, a different one refused, and the first stays |
| Storage.Storage.Publish | crates/ao2-cp-server/src/handlers/evidence_pack.rs:194-244 | bundle before sidecar; nothing published changes and only the upload is added; without faults the files are those after one upload |
| Storage.Storage.Index | crates/ao2-cp-server/src/handlers/evidence_pack.rs:246-263 | the index step: it succeeds for a valid sha and a loadable index unless something fails, and then adds the line of a new sha and nothing for a known one |
| Storage.Storage.Post | crates/ao2-cp-server/src/handlers/memory.rs:59-216 | the unsigned and the signed upload: when nothing fails it is accepted iff its sidecar agrees with the one there; an accepted one is complete, the index changes only when its files are there, and then by its line exactly |
| Ingest.PublishedIsComplete | crates/ao2-cp-storage/src/bundle.rs:93-124 | over all runs, with prunes, a published file is the complete bytes of one upload, at the address of its canonical digest, and live temporary files are different ones |
| Ingest.CrashedIngestIsWhole | crates/ao2-cp-server/src/handlers/evidence_pack.rs:194-263 | over all runs, with prunes stopped anywhere, every index entry has its bundle and sidecar unless a prune of its sha was begun and not finished, and no sha occurs twice; after an open every swept file has its sha in the index |
| Ingest.WholeWhenPrunesFinish | crates/ao2-cp-storage/src/lib.rs:1048-1096 | in runs whose prunes go to their end every index entry has its bundle and sidecar |
| Ingest.BackedAfterPruneIff | crates/ao2-cp-storage/src/lib.rs:1061-1078 | in any reachable state whose entries have their files, they all still have them after a prune iff it went to its end or did not begin |
| Ingest.StoppedPruneRecovers | crates/ao2-cp-storage/src/lib.rs:1048-1184 | after a prune stopped anywhere, a crash, an open and the same prune no entry lacks a file, and without strays files and entries are those of one uninterrupted prune |
| Ingest.PruneMendsIndex | crates/ao2-cp-storage/src/lib.rs:1072-1078 | a finished prune ends the last line of the index, which reads back as what the process serves, even where a torn line had been followed |
| Ingest.OpenIsSweep | crates/ao2-cp-storage/src/lib.rs:841-848 | the open step is the sweep |
| Ingest.AcknowledgedOnce | crates/ao2-cp-storage/src/index.rs:99-113 | over all runs that never write a line after a torn one every acknowledged sha is in the index exactly once, unless a finished prune has removed it since |
| Ingest.AcknowledgedIffClean | crates/ao2-cp-storage/src/index.rs:99-130 | the next acknowledged entry is in the index as read back iff the index ended its last line |
| Ingest.UploadAlone | crates/ao2-cp-server/src/handlers/memory.rs:59-216 | the interleaved steps of one upload with nothing in between do to files and index what Post does without faults |
| ContentAddress.ReadIsWellFormed | crates/ao2-cp-server/src/handlers/memory.rs:77-78 | whatever the bytes, what serde_json reads has distinct keys and printable numbers |
| ContentAddress.IntegersKept | crates/ao2-cp-server/src/handlers/memory.rs:77-78 | the integers of i64 and u64 are kept, any other is read as a double |
| ContentAddress.LastKeyCounts | crates/ao2-cp-server/src/handlers/memory.rs:77-78 | of repeated keys the last one counts, wherever it stands |
| ContentAddress.SameAddressSameValue | crates/ao2-cp-schema/src/canonical.rs:70-76 | any two uploads share an address iff they are read as the same JSON value |
| ContentAddress.CanonicalTwin | crates/ao2-cp-schema/src/canonical.rs:4-15 | the canonical text of any upload is read as canonical and has its address |
| ContentAddress.CanonicalAddressFixesBytes | crates/ao2-cp-storage/src/bundle.rs:110-113 | an upload is the only canonical one of its address iff it is canonical itself |
| ContentAddress.SameAddressOtherBytes | crates/ao2-cp-storage/src/bundle.rs:110-113 | every upload but a bare number shares its address with other bytes, itself with any blanks around |
| Ingest.BundleIsListed | crates/ao2-cp-storage/src/bundle.rs:165-179 | the sha is read back from the name of a published file |
| Ingest.TempIsNotListed | crates/ao2-cp-storage/src/bundle.rs:114-117 | the name of a temporary file is never listed |
| Ingest.TempFileInjective | crates/ao2-cp-storage/src/bundle.rs:110-117 | process id and counter can be read back from the name, so temporary names differ |
| AuditPersistence.RecordsReadBack | crates/ao2-cp-server/src/audit_log.rs:377-401 | a file of records has exactly the records as its lines |
| AuditPersistence.RecordSays | crates/ao2-cp-server/src/audit_log.rs:377-401 | a record reads as an object with the fields of its entry under their names |
| AuditPersistence.Persistence.constructor | crates/ao2-cp-server/src/audit_log.rs:451-463 | opening keeps what is there and takes its length over |
| AuditPersistence.Persistence.Rotate | crates/ao2-cp-server/src/audit_log.rs:480-505 | the live file becomes the sidecar and a new one is empty; a failure leaves no writer |
| AuditPersistence.Persistence.WriteLine | crates/ao2-cp-server/src/audit_log.rs:398-404 | a successful write appends the record and counts its bytes |
| AuditPersistence.Persistence.Persist | crates/ao2-cp-server/src/audit_log.rs:372-421 | write, rotation when the size reaches the threshold and not before, the files they leave, and one error counted and remembered per failed append |
| AuditPersistence.WholeReadsBack | crates/ao2-cp-server/src/audit_log.rs:480-505 | sidecar and live file together read back as the last records persisted |
| AuditPersistence.ReplayLog | crates/ao2-cp-server/src/audit_log.rs:372-505 | over any appends, rotations and restarts only whole oldest records are dropped and the recorded length is right |
| AuditPersistence.ReplayFaults | crates/ao2-cp-server/src/audit_log.rs:372-421 | under any failures the counter is failed writes plus failed rotations, of which there is at most one; from a log with a writer, an append finds none iff a rotation failed before it, and the disk stays as that left it |
| AuditRing.AuditLog.Append | crates/ao2-cp-server/src/audit_log.rs:287-312 | ring, counters and broadcast stay what the list of appends says, and every entry is persisted or counted as an error, whatever the capacity |
| AuditRing.AppendAll | crates/ao2-cp-server/src/audit_log.rs:287-421 | after appends without failures, at any capacity, sidecar and live file read back as the last entries appended |
| AuditRing.BroadcastHolds | crates/ao2-cp-server/src/audit_log.rs:314-322 | a receiver up to 256 sends behind misses nothing; one further behind misses all but the last 256 |
| AuditRing.Receiver.Recv | crates/ao2-cp-server/src/audit_log.rs:314-322 | the bounded queue answers as an unbounded one, except for the number it reports as missed |
| AuditRing.MethodFilterIgnoresCase | crates/ao2-cp-server/src/handlers/audit_log.rs:96-133 | the method filter is a comparison that ignores case |
| AuditRing.FiltersSelect | crates/ao2-cp-server/src/handlers/audit_log.rs:96-133 | what each filter asks of an entry: time, method in any case, status, first digit of a class, beginning of the path, authentication |
| AuditRing.KnownClass | crates/ao2-cp-server/src/handlers/audit_log.rs:96-133 | only a digit from 1 to 5 and two x, in any case and with white space around, is a status class |
| AuditRing.ConcurrentAccounting | crates/ao2-cp-server/src/audit_log.rs:287-312 | at every moment of any interleaving the ring is the last pushes, dropped and resident add up to them, and the append counter catches up |
| AuditStream.ResumeLeavesNoGap | crates/ao2-cp-server/src/handlers/audit_log.rs:408-461 | every matching entry newer than the last event id is delivered, queued, in progress, evicted before the snapshot, or counted in a lagged event |
| AuditStream.StreamDeliversMatches | crates/ao2-cp-server/src/handlers/audit_log.rs:408-461 | a stream delivers only matching entries that are newer than the last event id or were broadcast after it subscribed |
| Readiness.Readiness.Latest | crates/ao2-cp-storage/src/lib.rs:683-714 | the loop finds the newest serving entry, of equally new ones the last, with its age and staleness |
| Readiness.Readiness.constructor | crates/ao2-cp-storage/src/lib.rs:355-632 | the first pass observes every artifact and lists its gaps |
| Readiness.Readiness.Derive | crates/ao2-cp-storage/src/lib.rs:634-681 | status, totals, gap counts and numbered critical path follow from the gaps |
| Readiness.Readiness.AttachAll | crates/ao2-cp-storage/src/lib.rs:947-993 | the sidecars of the three signed artifacts are read, and an unreadable one ends the gate |
| Readiness.Readiness.EnforceSidecars | crates/ao2-cp-storage/src/lib.rs:727-817 | the second pass adds the signature gaps and recomputes the rest |
| Readiness.CountsAddUp | crates/ao2-cp-storage/src/lib.rs:634-667 | the six gap counts add up to the total |
| Readiness.NoGapsIffReady | crates/ao2-cp-storage/src/lib.rs:355-536 | there is no gap iff the release is ready, and never more than eleven |
| Readiness.StaleIff | crates/ao2-cp-storage/src/lib.rs:693-699 | stale is 86401 seconds or older, never for the checklist and the signed decision |
| Readiness.BlockingIff | crates/ao2-cp-storage/src/lib.rs:716-725 | a status blocks iff it mentions one of four words, in any case and with any white space around |
| Readiness.ServesPromotion | crates/ao2-cp-storage/src/lib.rs:355-410 | the promotion artifacts are the entries indexed as the kinds of the same name |
| Readiness.ServesRelease | crates/ao2-cp-storage/src/lib.rs:405-436 | so are the release artifacts |
| Readiness.ServesAcceptance | crates/ao2-cp-storage/src/lib.rs:366-390 | and the live acceptances, which may also go by provider alone |
| Readiness.SidecarSays | crates/ao2-cp-storage/src/lib.rs:727-817 | nothing but true under these names verifies a sidecar or makes it release-authoritative |
| Readiness.SidecarIsRelated | crates/ao2-cp-storage/src/lib.rs:947-993 | the sidecar the gate reads is the one pruned with the kind |
| Readiness.Decide | crates/ao2-cp-storage/src/lib.rs:947-993 | the release decision is allowed iff all eight artifacts are ready and the sidecars are as required; allowed, no windowed artifact is 86401 seconds old; missing, stale and failed gaps are listed exactly for the artifacts that are absent, that old, or report a failure; it fails iff a sidecar cannot be read |
| Verifier.Differ | scripts/verify_release_support_bundle.py:748-761 | the set of values has more than one element iff two of them differ |
| Verifier.IdFailures | scripts/verify_release_support_bundle.py:643-656 | no failure iff the nine ids are listed, once each |
| Verifier.EntryFailures | scripts/verify_release_support_bundle.py:666-704 | no failure iff every entry's path, digests and schema match what is embedded |
| Verifier.CorrelationFailures | scripts/verify_release_support_bundle.py:710-761 | no failure iff every surface that is there holds a proper correlation and all have one digest |
| Verifier.VerdictFailures | scripts/verify_release_support_bundle.py:774-810 | no failure iff the parity verdicts agree wherever they are |
| Verifier.AuditFailures | scripts/verify_release_support_bundle.py:822-847 | no failure iff the audit objects have one digest wherever they are |
| Verifier.Verify | scripts/verify_release_support_bundle.py:601-889 | passes iff every check holds; raises iff a part has the wrong shape |
| Verifier.PyDigestIdentifies | scripts/verify_release_support_bundle.py:144-145 | equal digests mean equal values up to member order |
| Verifier.ValidEnv | scripts/verify_release_support_bundle.py:140-145 | an injective digest with hexadecimal results and an equality of values up to member order exist, for any two further checks |
| Verifier.IntactIff | scripts/verify_release_support_bundle.py:666-694 | in an accepted bundle a surface is embedded with its digest unless its digest is the error text |
| Verifier.PassMeansSoundIff | scripts/verify_release_support_bundle.py:643-847 | a pass lists the nine surfaces and its verdicts and audits agree; all surfaces are intact and the correlations equal iff no digest is an error text |
| Verifier.PassVerdicts | scripts/verify_release_support_bundle.py:774-810 | in a bundle that passes cockpit, handoff and readiness contradict each other in neither parity verdict |
| Verifier.PassAudits | scripts/verify_release_support_bundle.py:822-847 | their audit objects are the same JSON value where they are there |
| Verifier.PassCorrelations | scripts/verify_release_support_bundle.py:710-761 | the correlations of the four parts that are there are the same JSON value |
| Verifier.PassStatuses | scripts/verify_release_support_bundle.py:710-747 | every correlation that is there says matched or mismatched and lists its blockers |
| Verifier.PassHead | scripts/verify_release_support_bundle.py:625-708 | the bundle names its schemas and says that it only observes |
| Verifier.PassEntries | scripts/verify_release_support_bundle.py:666-694 | every surface has an entry with its path and the digest of the integrity table |
| Verifier.PassFlatChecks | scripts/verify_release_support_bundle.py:695-704 | the two surfaces with a check of their own are there and pass it |
| Verifier.AbsentSurfacesPass | scripts/verify_release_support_bundle.py:675-681 | a bundle without a cockpit that passes |
| Comparison.CollectView | scripts/verify_release_support_bundle.py:231-288 | the view holds exactly the fields that are there with the right type |
| Comparison.Compare | scripts/verify_release_support_bundle.py:291-386 | reports exactly the differing fields, and parity iff no verdict or status differs |
| Comparison.DifferingMember | scripts/verify_release_support_bundle.py:299-318 | a field is reported iff its values differ |
| Comparison.ComparedVerdicts | scripts/verify_release_support_bundle.py:94-102 | verdict drift is looked for in two fields of three surfaces |
| Comparison.ComparedAudits | scripts/verify_release_support_bundle.py:119-128 | audit drift in three fields of the same surfaces |
| Comparison.ComparedStatuses | scripts/verify_release_support_bundle.py:103-108 | status drift in the correlations of four surfaces |
| Comparison.StatusSays | scripts/verify_release_support_bundle.py:231-288 | the compared status is the string under its name in the correlation object |
| Comparison.BudgetSays | scripts/verify_release_support_bundle.py:263-288 | the compared audit value is the integer under its name in the audit object |
| Comparison.SameDigestNoDrift | scripts/verify_release_support_bundle.py:291-386 | bundles with the same digest never drift |

## Left out

- HTTP routing, authentication, dashboards, metrics, configuration and static texts (evidence wording of gaps, operator links).
- RSA and SHA-256 themselves; trust-policy annotation of signatures before they are stored; `read_signature_sidecar` and the list and detail handlers.
- The other ingest handlers (acceptance, control plane, task board, watchdog), which repeat the order of the modelled ones.
- Prune running while uploads are under way, and two simultaneous different sidecars for one sha: the source promises nothing for them. Prunes in `Ingest` run between uploads. `Ingest` covers concurrent sidecars only as far as presence and completeness go.
- Power loss: a crash here keeps what completed system calls did. The directory entry of a rename is not synced by the source.
- serde_json's nesting limit of 128.
- Float arithmetic: which double a number is read as, and how it prints, is a parameter of ContentAddress; elsewhere float tokens are opaque number texts that print as themselves, in both languages. The typed readers that handlers run before hashing may refuse more (repeated known fields, for one).
- Unsigned overflow of sizes and counters (`u64`), which are unbounded here.
- Errors of metadata calls other than a missing file, and of directory creation.
- IndexStore.IndexStore.Append: after an append to a file with a torn last line the copy holds an entry that a reload does not, as in the source; the contract promises agreement only when the last line was ended.
- IndexStore.IndexStore.Rewrite: a failing stat after the rename, and a leftover `index.jsonl.tmp`, are not modelled.
- Ingest.CrashedIngestIsWhole: index writes are cut between characters; a cut inside a character makes the load fail until the file is repaired (IndexLog.CrashedAppendBytes).
- Ingest.PublishedIsComplete: one process at a time uses the store; `ao2-cp-gc` beside it is modelled for the index only.
- Storage.Storage.SweepOrphans: a removal that fails stops the source's open; here removals succeed, and interrupted sweeps are steps of Ingest.
- Storage.Storage.ReportForEntries: is given the entries; sorting them newest first for the support bundle is not modelled.
- AuditPersistence.Persistence.Persist: serialization of an entry cannot fail and is not a case; time stamps of rotations are left out.
- AuditPersistence.Persistence.WriteLine: after a failed write the buffer keeps arbitrary bytes, which a later write puts before its line.
- AuditStream.ResumeLeavesNoGap: newer means a greater time stamp, so an entry with the last id's time stamp is not promised; keep-alive comments and the rendering of events are left out.
- Readiness.Readiness.Latest: each artifact's current time is a parameter, and instants are whole nanoseconds.
- Verifier.Verify: secret markers, the checksum file, the comparison and the field-by-field checks of two surfaces are parameters; where Python could not sort unknown ids of different types and would raise, a failure is reported instead (neither passes).
- Verifier.PassMeansSoundIff: lone surrogates cannot occur, since Python raises when it encodes them.
- Comparison.Compare: failure texts, file names and candidate versions are left out.
