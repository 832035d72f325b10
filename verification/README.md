# A verified model of the MMKV store

The system is a key-value store kept in two memory-mapped files: a data file that holds
an append log of key/value records, and a 112-byte meta file that says how much of the
log counts and what its digest is. The project models the store as it is coded and proves
what its parts promise together.

The layers, bottom up:

| modules | what they model |
|---|---|
| `Bytes`, `Crc32`, `Crc32Check`, `Wire`, `Meta`, `Cfb` | little-endian words, the running digest and its check value, varints and length-delimited fields, the meta struct, CFB-128 over any block function |
| `LogRegion`, `KeyOrder`, `Replaying` | records, replay of a log into a dictionary, compaction in key order, salvage |
| `Growth` | page rounding, doubling and headroom of a rewrite, halving of a trim |
| `Store`, `Expiry`, `Operations` | one instance as a state machine over file bytes, meta bytes and memory; every public operation; expiration |
| `Coherence`, `Recovery`, `Loading`, `Writing`, `EncryptedRemove`, `SharedKey`, `Amortised` | the central invariant, crashes and repair, what a load makes of given bytes and what a write leaves in them, the exact limits of single-key removal and of re-keying, the cost of rewrites |
| `Processes`, `Probe`, `Publishing`, `Flock`, `Locking` | many processes over shared files, the lockless Reader probe and its reload, what the processes publish to it, the counted flock, and the processes over that flock |
| `Instance` | the `MMKV` object itself: byte arrays changed in place and a dictionary of views into them, refining `Store` |

`Store` is the specification of `Instance`, and a plain map (`Operations.Spec`) is the
specification of `Store`. The central invariant is `Coherence.Coherent`: loading the
current bytes again gives exactly the state in memory.

Main results:

- **Store refinement** (`Operations.RunRefines`, `Instance.MMKV.Perform`): after any run of
  operations the files reload to exactly the map the run describes, whichever of override,
  append, rewrite or skip each operation took; the object with its views does the same.
- **Linearizability** (`Processes.RunIsLinearizable`, and over single kernel calls
  `Locking.SystemIsLinearizable`): over any number of processes every get returns the last
  writes in lock order, imports included, however long the run. The canary of sequence,
  digest and size is enough, with no appeal to digest collisions being rare, as long as no
  process sleeps through 2^32 rewrites between two visits to the files.
- **Crash safety** (`Processes.CrashAfterRun`): after any multi-process run, dying anywhere
  inside an append leaves files that open to the map before it or to the map as the last
  rewrite of the run left it.
- **Total repair** (`Recovery.TotalRepair`): arbitrary bytes, opened in recovery mode. A cut
  log keeps exactly its whole records (`Loading.RecoveringOpenKeepsWholeRecords`).
- **Damage** (`Loading.DamageIsNeverServed`): a digest over the region notices every change
  of a single byte (`Crc32.OneByteChangesDigest`), so no load serves one.
- **Probe soundness** (`Probe.FreshServesCurrent`): torn reads against non-atomic
  publication, on the fast path and through the mutex, the second probe and the reload;
  `Publishing.RunsPublishVersions` shows that every run of the processes feeds it.
- **Locking** (`Flock.CountersAgree`, `Flock.BlockedWaitsForRunner`, `Flock.LockDiscipline`).
- **Amortised rewrites** (`Amortised.AmortisedRewrites`), **salvage of a torn log**
  (`LogRegion.SalvageOfTornLog`), **CFB-128** (`Cfb.DecryptRegion`, `Cfb.EncryptRegion`
  against section 6.3 of NIST SP 800-38A), **codec round trips**.

Where a promise does not hold of the code, the code is modelled as it is and the exact
condition is proved:

- An empty key or an empty stored value is in memory after a set but never survives a
  reload; a set agrees with its files if and only if both are non-empty
  (`Operations.SetAgreesIff`, with a new store in `Recovery.SetCounterexample`).
- Removing one key from an encrypted store appends the tombstone unencrypted, although the
  set path takes care not to. The removal agrees with the files if and only if it compacted
  instead, or the keystream under the tombstone happens to be all zero
  (`EncryptedRemove.RemoveAgreesIff`, with a concrete store in
  `EncryptedRemove.EncryptedRemoveCounterexample`).
- Disabling expiration loses a key whose visible value is empty, which is a stored value of
  exactly four bytes (`Operations.DisableAgreesIff`, `Expiry.EmptyVisibleIsBareStamp`).
  Typed values never come to that in a store that began empty (`Operations.TypedRun`), but a
  float stored before a stale flag bit turned expiration on does
  (`Recovery.DisableCounterexample`).
- Re-keying reaches only the process that does it. A process already attached serves next
  what its own key makes of the dictionary sealed under the new one, and what it had if that
  is no log (`SharedKey.OtherServes`); so it serves the map exactly when its key decodes the
  new ciphertext to the map, or decodes nothing while it already had the map
  (`SharedKey.OtherFollowsIff`). It may keep a stale map (`SharedKey.ReKeyStrandsOthers`) or
  lose a map it had without an error (`SharedKey.ReKeyEmptiesOthers`).
- A meta file older than the flags field whose flag bit 0 happens to be set is read as not
  expiring, but the first rewrite raises the version without clearing the bit, so later
  readers strip timestamps that were never written. Repair ends in a coherent store if and
  only if that is not so (`Recovery.TotalRepair`, `Recovery.StaleFlagFlipsExpire`).
- A timestamp is the clock plus the duration in 32 bits. When the sum is exactly 2^32 the
  value never expires, and beyond that it vanishes early (`Operations.StoredSeen`).
- Compaction may enlarge the log: by up to three bytes, or to four from nothing
  (`LogRegion.CompactionAddsAtMostThree`, met in `LogRegion.CompactionCanAddThree`).
- A downgrade or a refused upgrade may leave a process counting a shared lock it does not
  have for a while; it is then always inside that call (`Flock.CountersAgree`, with such a
  run in `Flock.SharedCountWithoutLock`).

Conventions: a byte is an integer below 256, 32- and 64-bit fields truncate through `Lo32`
and `Lo64`, exclusive-or is defined on naturals, and block functions
and fresh IVs are parameters. Time is a parameter; a loop over keys reads it for each key.
A failing decode is a `Failed` load or a false `ok`.

## Model

| member | source | states |
|---|---|---|
| Bytes.Le32RoundTrip | meta.go:50-80 | a 32-bit field written little-endian at any offset reads back |
| Bytes.Le64RoundTrip | meta.go:50-80 | a 64-bit field written little-endian at any offset reads back |
| Bytes.LowByteFirst | meta.go:50-80 | the low byte comes first |
| Bytes.XorBits | crypt.go:49-89 | exclusive or of naturals is inequality bit by bit |
| Crc32.UpdateIsChecksumOfAppend | mmkv_io.go:155-166 | updating the digest of a region with appended bytes is the digest of the longer region |
| Crc32.RoundInjective | mmkv.go:380-382 | no two registers are taken to the same one by a round |
| Crc32.StepInjective | mmkv.go:380-382 | two steps that end in one register began in one register exactly if they took in one byte |
| Crc32.OneByteChangesDigest | mmkv.go:380-382 | changing one byte of a region, wherever it is and however long the region, changes the digest |
| Crc32Check.CheckValue | mmkv.go:380-382 | the digest of the ASCII digits 1 to 9 is 0xCBF43926, the check value of CRC-32/IEEE |
| Wire.VarintRoundTrip | wire.go:25-41 | every 64-bit value, at any position and with anything after it, reads back and the cursor advances by exactly what was written |
| Wire.DataRoundTrip | wire.go:45-56 | every byte string, at any position, reads back with exact consumption |
| Wire.LowGroupFirst | encode.go:22-37 | 300 is written as AC 02, the low group first, and read back |
| Wire.TooLongVarint | wire.go:28-40 | ten continuation bytes are an overflow, with the cursor after the tenth |
| Wire.TenthGroup | wire.go:28-40 | of a tenth group only the low bit counts; the rest is shifted out of 64 bits |
| Wire.TooLongField | wire.go:50-52 | a field that claims more than is left is refused, with the cursor after its length |
| Wire.Int32RoundTrip | encode.go:65-71 | every int32 reads back; a negative one takes ten bytes |
| Wire.StringSliceRoundTrip | encode.go:119-140 | a list of strings survives blob, outer read and item decoding |
| Wire.TornItems | encode.go:129-140 | the items before a torn one are all returned |
| Wire.ReadBytesLocal | wire.go:45-56 | a successful read does not depend on what follows, so fields delimit themselves |
| Wire.TornVarint | wire.go:25-41 | every proper prefix of a varint is an error |
| Wire.TornData | wire.go:45-56 | every proper prefix of a field is an error |
| Wire.RawVarintCanonical | wire.go:25-41 | any accepted encoding is at least as long as the written one, and equal to it when as short |
| Wire.ReadBytesConsumes | wire.go:45-56 | reading a string consumes at least as many bytes as writing it takes |
| Wire.ReadBytesCanonical | wire.go:45-56 | a field read in the minimal number of bytes is exactly the written field |
| Wire.CodedInput.ReadVarint64 | wire.go:25-41 | the accumulator loop with 64-bit shifts computes the recursive reader and leaves the cursor after it, on errors too |
| Wire.CodedInput.ReadData | wire.go:45-56 | length check against the rest of the buffer, the bytes, and the cursor |
| Wire.CodedOutput.WriteRawVarint | encode.go:22-37 | the shifting loop appends exactly the base-128 groups |
| Wire.CodedOutput.WriteData | encode.go:49-52 | appends length and bytes |
| Wire.CodedOutput.WriteInt32 | encode.go:65-71 | sign-extends negatives to 64 bits before writing |
| Wire.StringSliceBlob | encode.go:119-125 | the blob is one field holding the items in order |
| Wire.DecodeStringSlice | encode.go:129-140 | the loop returns the items up to the first unreadable one |
| Meta.MetaRoundTrip | meta.go:50-80 | a marshalled struct parses back, whatever follows it |
| Meta.Layout | meta.go:27-37 | the offset, width and byte order of every field, on a buffer whose bytes are their own indices |
| Meta.ReservedBytes | meta.go:67-80 | 112 bytes, of which 40 to 103 are zero |
| Meta.ExpireIsBitZero | meta.go:82 | expiration is bit 0 of the flags |
| Meta.ParsePoked | mmkv_io.go:163-165 | the two stores of an append change exactly the digest and the size of the parsed meta |
| Meta.ParsePokedCrc | mmkv_io.go:163-165 | after the first of the two stores only the digest differs |
| LogRegion.HolderIsItemSize | encode.go:97-111 | the four leading bytes are the varint the format reserves |
| LogRegion.ParseRecords | reader.go:444-472 | holder and records replay to the fold of the records |
| LogRegion.ParseAppend | reader.go:444-472 | replay is a homomorphism: a decodable log plus more bytes replays from the old dictionary |
| LogRegion.ParseAppendPair | reader.go:444-472 | appending one record updates that key, or removes it when the value is empty |
| LogRegion.ParseClean | reader.go:444-472 | no replayed dictionary holds an empty key or value |
| LogRegion.LastRecordDecides | reader.go:444-472 | the last record of a key decides: its value, or absence if that is empty |
| LogRegion.UntouchedKey | reader.go:444-472 | a key without a record keeps what it had |
| LogRegion.EmptyKeySkipped | reader.go:444-472 | after an empty key no value is read |
| LogRegion.TornHolder | reader.go:412-472 | a log cut inside its placeholder is an error and salvages to nothing |
| LogRegion.ParseEncode | encode.go:145-153 | encoding a dictionary in any order of its keys replays to it |
| LogRegion.EncodedLength | encode.go:145-153 | the encoded length is the same for every order |
| LogRegion.ParseWeight | reader.go:444-472 | a replayed dictionary weighs less than the log it came from |
| LogRegion.CompactionAddsAtMostThree | mmkv_io.go:201-218 | rewriting any log costs at most three bytes more than it had |
| LogRegion.CompactionCanAddThree | mmkv_io.go:201-218 | a one-byte log that decodes to nothing compacts to four bytes |
| LogRegion.WholeRecordsIsLongest | reader.go:412-440 | the count of whole records that fit is the largest that does |
| LogRegion.SalvageOfTornLog | reader.go:412-440 | a log cut anywhere past the holder salvages to exactly its whole records, and decodes strictly if and only if the cut fell between records |
| KeyOrder.LessIsTotal | mmkv_io.go:202-207 | byte order on keys is total and irreflexive |
| KeyOrder.LessIsTransitive | mmkv_io.go:202-207 | byte order on keys is transitive |
| KeyOrder.LessAtFirstDifference | mmkv_io.go:202-207 | keys compare at the first differing byte, a proper prefix first |
| KeyOrder.PackedTwo | mmkv_io.go:202-218 | two records are packed with the smaller key first |
| KeyOrder.SortedIsUnique | mmkv_io.go:202-207 | a set of keys has one sorted listing, so rewritten bytes are determined by the map |
| KeyOrder.PackedParses | mmkv_io.go:202-218 | the sorted encoding replays to the dictionary |
| KeyOrder.PackedLength | mmkv_io.go:202-218 | its length is the holder plus the weight of the records |
| KeyOrder.CollectKeys | mmkv_io.go:202-207 | collecting and sorting lists exactly the keys in order |
| Replaying.ReplayLoop | reader.go:444-472 | the cursor loop filling a map of slices computes replay; a failure keeps what was read |
| Replaying.ParseDict | reader.go:444-472 | succeeds exactly when the log decodes, with slices that read as its dictionary |
| Replaying.ParseDictGreedy | reader.go:412-440 | always returns the dictionary of the readable part |
| Replaying.PackRegion | encode.go:145-153 | the encoding loop writes holder and records in the given order |
| Cfb.DecryptInvertsEncrypt | crypt.go:49-89 | for any block function, IV and length, decryption undoes encryption |
| Cfb.BlockEquations | crypt.go:49-89 | every byte, both ways, is the other side under the block function of the previous ciphertext block, or of the IV in the first |
| Cfb.EncryptPrefix | crypt.go:71-89 | encrypting a prefix is the prefix of the encryption |
| Cfb.DecryptPrefix | crypt.go:49-67 | decrypting a prefix is the prefix of the decryption |
| Cfb.DecryptBytewise | crypt.go:49-67 | each byte of the block definition is the ciphertext byte under the keystream of its block |
| Cfb.EncryptBytewise | crypt.go:71-89 | the same for encryption, with feedback from the ciphertext |
| Cfb.DecryptRegion | crypt.go:49-67 | the byte-feedback loop over arrays computes block CFB-128 decryption |
| Cfb.EncryptRegion | crypt.go:71-89 | the byte-feedback loop over arrays computes block CFB-128 encryption |
| Growth.PageRoundUpBounds | memfile.go:29-35 | at least the argument and one page, less than a page above |
| Growth.PageRoundUpMonotone | memfile.go:29-35 | rounding is monotone |
| Growth.PageRoundUpIsPages | memfile.go:29-35 | a whole number of pages |
| Growth.DoubledIsTight | mmkv_io.go:246-256 | doubling stops within twice the target |
| Growth.DoubledIsPower | mmkv_io.go:246-256 | the size times a power of two, the smallest that exceeds the target |
| Growth.PayloadFits | mmkv_io.go:233-260 | a rewrite never overruns the file, which never shrinks |
| Growth.HeadroomShare | mmkv_io.go:233-245 | the headroom is at least 8/17 of the needed length |
| Growth.HeadroomIsFree | mmkv_io.go:233-256 | with a pending record, the free tail exceeds that record plus the headroom |
| Growth.HeadroomIs | mmkv_io.go:236-239 | the headroom is max(8, half the keys to come) records of average size, rounded up |
| Growth.NoHeadroomWithoutRecord | mmkv_io.go:233-256 | without a pending record a rewrite keeps the size, or grows to at most twice what it needs |
| Growth.KeptSize | mmkv_io.go:233-256 | a rewrite that fits leaves the size; headroom counts only for a pending record of a non-empty store |
| Growth.GrowthBounded | mmkv_io.go:233-256 | a rewrite leaves the file's size, or asks for at most eighteen times what it needs and a page |
| Growth.GrowTo | mmkv_io.go:233-256 | the doubling loop computes the grown size |
| Growth.TrimBounds | mmkv_io.go:400-416 | a trim keeps the region and ends within two regions rounded up, or one page |
| Growth.TrimHalves | mmkv_io.go:400-416 | the loop halves and does not cut to fit: ten pages with 6000 bytes in use end at three pages |
| Growth.ShrinkTarget | mmkv_io.go:400-416 | the halving loop computes the trim target |
| Store.LoadSucceeds | mmkv.go:317-348 | a load fails exactly when the version is unknown or the chosen intact region does not decode |
| Store.LoadKeepsCrypt | mmkv.go:317-348 | a load never changes the key |
| Loading.Accepted | mmkv.go:330-333 | a recorded region whose digest matches is what the load serves, or an error if it does not decode; before version 3 the size is the data header |
| Loading.RolledBack | mmkv.go:334-339 | otherwise the last confirmed region, if that is intact, with the meta moved back in memory |
| Loading.Salvaged | mmkv.go:340-378 | otherwise, recovering, what still decodes of the recorded size or of the whole file if that is shorter, marked for rewriting |
| Loading.Discarded | mmkv.go:343-347 | otherwise nothing |
| Loading.UnknownVersion | mmkv.go:323-325 | a version above 4 is an error and leaves the dictionary |
| Loading.LegacyStoreLoads | mmkv.go:303-312 | a file whose header is the length of a log, with a meta before version 3 that has only its digest, loads to that log |
| Loading.RecoveringOpenKeepsWholeRecords | mmkv.go:207-220 | a recovering open of a log cut anywhere, by its recorded size or by the end of the file, keeps exactly the records that are whole, and a later open reads them |
| Loading.DamageShows | mmkv.go:380-382 | one changed byte spoils exactly the regions that contain it |
| Loading.DamageIsNeverServed | mmkv.go:330-347 | after one changed byte of the region a load goes back to the last confirmed map, or, if the byte is inside that, drops everything or salvages; it never takes the damaged region as intact |
| Loading.LoadReadsFiles | mmkv.go:317-348 | what a load gives depends on files and key, not on what was in memory |
| Loading.DroppedCacheReadsFiles | mmkv.go:444-454 | after the cache is dropped the next use serves what the files then say |
| Loading.SingleProcessTrustsMemory | mmkv.go:260-281 | without that, a single-process instance never looks at the files |
| Store.WriteBackFits | mmkv_io.go:201-291 | after a rewrite the region lies in the file and the version is current |
| Writing.ResizedBytes | memfile.go:95-116 | a resize keeps every byte there is room for and adds zeros |
| Writing.RewrittenBytes | mmkv_io.go:257-262 | byte by byte: a zero header, the sealed records, and the old tail |
| Writing.ClearedSize | mmkv_io.go:365-386 | clearing leaves one page, a zero header, an empty confirmed region, the next sequence and no pending repair |
| Writing.TrimmedFile | mmkv_io.go:390-424 | a trim leaves between the packed records and twice that in whole pages, at least one; an empty store one page |
| Writing.FirstSetKeepsSize | mmkv_io.go:233-256 | the first set of an empty store asks for no headroom |
| Writing.OnlyKeyStaysInPlace | mmkv_io.go:115-139 | in single-process mode any number of sets of the only key leaves one record, the same sequence and the same file size |
| Writing.SlowSetRewrites | mmkv_io.go:106-150 | a set on an encrypted, salvaged or older store rewrites and confirms everything |
| Writing.SetOnEmptyRewrites | mmkv_io.go:106-150 | in multi-process mode so does a set on a store without keys |
| Writing.SlowRemoveRewrites | mmkv_io.go:305-322 | a removal on a salvaged or older store does likewise |
| Writing.RemoveManyCompacts | mmkv_io.go:326-347 | one compaction if a listed key is live, nothing at all otherwise |
| Writing.CompareSkips | mmkv_io.go:45-57 | comparing skips an equal value without a trace, but never under expiration |
| Writing.ExpirationFlags | mmkv_expire.go:29-86 | enabling sets bit 0, records the duration and turns comparing off; disabling clears the bit; no other bit moves |
| Writing.KeyKeptOnFailure | mmkv_crypt.go:33-40 | the new key stays exactly when the rewrite succeeds |
| Coherence.CoherentFacts | mmkv.go:317-348 | when a reload would change nothing: meta and memory agree up to a rollback, and without pending repair the region is intact on disk |
| Coherence.CoherentDict | mmkv.go:317-402 | then the dictionary has no empty keys or values and fits the file |
| Coherence.RecordedRegionReloads | mmkv.go:317-348 | a region recorded in the meta reloads to the memory |
| Coherence.AppendedRegion | mmkv_io.go:155-166 | an append leaves the region before it untouched and adds exactly the record |
| Coherence.AppendKeepsCoherent | mmkv_io.go:140-166 | appending a record keeps reload agreement, also after a load that rolled back |
| Coherence.OverrideKeepsCoherent | mmkv_io.go:173-186 | overriding the only key in place keeps reload agreement |
| Coherence.OverrideIsRewrite | mmkv_io.go:173-186 | the override writes the region, size and digest a full rewrite of the one-key map would |
| Coherence.WriteBackKeepsCoherent | mmkv_io.go:201-291 | a rewrite of any packable dictionary, from any file contents, ends coherent with the same map and minimal size |
| Coherence.ClearKeepsCoherent | mmkv_io.go:365-386 | clearing ends coherent and empty |
| Coherence.ShrinkKeepsCoherent | mmkv_io.go:400-423 | shrinking the file changes nothing in memory and keeps reload agreement |
| Expiry.StampedVisible | mmkv.go:459-472 | a stamped value is visible, stripped, exactly while its time is zero or ahead |
| Expiry.ShortValueWhole | mmkv.go:464-470 | a stored value too short for a timestamp is returned whole |
| Expiry.EnablePreservesVisible | mmkv_expire.go:29-55 | enabling keeps every visible value at every time |
| Expiry.EnableThenDisable | mmkv_expire.go:29-86 | enabling without a duration and disabling, whenever its loop reads the clock, is the identity |
| Expiry.ClockBetween | mmkv.go:459-472 | a loop that reads the clock for each key finds what was live throughout, and nothing that was not live at its start |
| Expiry.SetVisible | mmkv_expire.go:13-22 | a set under expiration changes the visible map at that key only |
| Expiry.SetVisibleForDuration | mmkv_expire.go:13-22 | a set with a duration is visible exactly until it has passed |
| Expiry.EmptyVisibleIsBareStamp | mmkv.go:459-472 | a visible value is empty exactly for a bare live timestamp |
| Operations.SetBlobDid | mmkv_io.go:106-150 | on every physical path a legal set updates the map by one key and stays coherent |
| Operations.SetValueDid | mmkv_io.go:45-57 | the same behind comparing and stamping |
| Operations.StoredSeen | mmkv_expire.go:13-22 | exactly when a set value can be read, for every clock and duration, including a sum that wraps |
| Operations.SetSeen | mmkv_expire.go:13-22 | over the map: a set is read until its time is up, and no other key changes |
| Operations.SetValueSeen | mmkv_io.go:45-57 | over the store, on every path: the same |
| Operations.ImportSeen | mmkv_io.go:73-100 | each imported value is read until its own time is up |
| Operations.ImportDid | mmkv_io.go:82-100 | importing is setting each item in order, on every path each set takes |
| Operations.ImportIsMerge | mmkv_io.go:73-100 | for the live values of another store, in whatever order its map yields them, importing is one merge of the stamped values |
| Operations.ImportVisible | mmkv_io.go:73-100 | while they live, a reader sees the other store's visible map laid over this one's |
| Operations.ImportLegalBySize | mmkv_io.go:82-100 | a condition on sizes alone under which importing a map, in any order, stays within 32 bits at every step |
| Operations.RemoveManyDid | mmkv_io.go:326-347 | removing several takes out exactly those keys |
| Operations.TrimDid | mmkv_io.go:390-424 | a trim keeps the map |
| Operations.EnableDid | mmkv_expire.go:29-55 | enabling stamps every value once and stays coherent |
| Operations.EnableSeen | mmkv_expire.go:29-55 | enabling, for the first time or again, changes no answer at any time |
| Operations.DisableDid | mmkv_expire.go:59-86 | disabling keeps exactly the keys visible when each is looked at, stripped |
| Operations.DisableSeen | mmkv_expire.go:59-86 | what each key answered when it was looked at is what it answers ever after |
| Operations.DropCacheDid | mmkv.go:444-454 | dropping the memory loses nothing that the next use does not reload |
| Operations.ApplyRefines | mmkv_io.go:45-424 | every legal public operation succeeds, keeps the invariant, does to the map what it says, and leaves no offset that wraps at 32 bits |
| Operations.RunRefines | mmkv_io.go:45-424 | the same over every run |
| Operations.SetAgreesIff | mmkv_io.go:106-150 | a set agrees with its files if and only if key and value are non-empty |
| Operations.DisableAgreesIff | mmkv_expire.go:59-86 | disabling agrees with its files if and only if no visible value is empty |
| Operations.TypedRun | encode.go:87-95 | over every run of operations with typed values from a typed store, no visible value is ever empty |
| Operations.LoadForgets | mmkv.go:317-348 | a successful load does not depend on what it replaces |
| Recovery.ActEffect | mmkv_io.go:106-424 | a multi-process write leaves the files alone, extends the region at one sequence and key, or moves the sequence and the confirmed point; an import is several of these |
| Recovery.EffectKeepsFloor | mmkv_io.go:264-270 | the confirmed region stays intact and decodable; only a rewrite moves it |
| Recovery.CrashInAppend | mmkv_io.go:155-166 | dying before the last store loads to the map before the append or the confirmed map |
| Recovery.CompletedAppend | mmkv_io.go:155-166 | after the last store every open reads the appended map |
| Recovery.RecordedLoads | mmkv.go:317-348 | any instance with the key reads the recorded dictionary, whatever it held |
| Recovery.LoadedAgrees | mmkv.go:317-348 | loading twice is loading once, on every branch |
| Recovery.TotalRepair | mmkv.go:207-220 | a recovering open of any bytes fails exactly when the load does; otherwise the map is what the load found, a default open reads the same map, and the store is coherent if and only if the flags were settled |
| Recovery.RepairedBySalvage | mmkv.go:356-378 | rewriting whatever was loaded, key for key, repairs it, with the same condition |
| Recovery.StaleFlagFlipsExpire | mmkv.go:317-348 | with a stale flag bit a rewrite turns expiration on for readers but not for the writer |
| Recovery.StaleFlagCounterexample | mmkv.go:317-348 | files of version 0 with flag bit 0 set do that |
| Recovery.FreshIsSettled | mmkv.go:176-222 | a new store opens empty, settled and on its own confirmed region |
| Recovery.SetCounterexample | mmkv_io.go:106-150 | setting an empty key on a new store leaves files without it |
| Recovery.DisableCounterexample | mmkv_expire.go:59-86 | files of version 0 with flag bit 0 set, one float 0.0 set, a reopen: disabling expiration loses the key |
| EncryptedRemove.LosingAKeyTakesItsTombstone | reader.go:444-472 | a log tail that removes a key is at least as long as its tombstone, and at that length is the tombstone |
| EncryptedRemove.TailRemovesIff | reader.go:444-472 | a tail of the tombstone's length removes the key and nothing else if and only if it is the tombstone |
| EncryptedRemove.TailDecryptsToItselfIff | crypt.go:49-67 | bytes appended in the clear decrypt to themselves if and only if the keystream there is zero |
| EncryptedRemove.EncryptedRemoveAgreesIff | mmkv_io.go:305-322 | the exact condition for an encrypted removal to agree with its files |
| EncryptedRemove.RemoveAgreesIff | mmkv_io.go:295-323 | the exact condition for the removal of any key from any coherent store to agree with its files |
| EncryptedRemove.EncryptedRemoveCounterexample | mmkv_io.go:305-322 | a new encrypted store with one key for which it does not |
| SharedKey.OtherServes | mmkv_crypt.go:20-42 | what an attached process with any key serves after a re-key, in terms known before it |
| SharedKey.OtherFollowsIff | mmkv_crypt.go:20-42 | it serves the map exactly when its key decodes the new ciphertext to it, or decodes nothing while it had the map |
| SharedKey.SameKeyFollows | mmkv_crypt.go:20-42 | re-keying to the key it has keeps it in step |
| SharedKey.ReKeyStrandsOthers | mmkv_crypt.go:20-42 | of two processes on a new store, after one sets a key and encrypts, the other still serves the empty map |
| SharedKey.ReKeyEmptiesOthers | mmkv.go:291-301 | a process that had the map reloads without an error to the empty one, under a suitable block function |
| Amortised.HeadroomAfterRewrite | mmkv_io.go:233-256 | a rewrite forced by a set leaves room for that record and the headroom |
| Amortised.FittingSetAppends | mmkv_io.go:140-149 | a set that fits the free tail, and is neither the first key nor the only one in single-process mode, only appends |
| Amortised.FittingRemoveAppends | mmkv_io.go:307-322 | a removal whose tombstone fits the free tail only appends it |
| Amortised.NoRewriteWhileFitting | mmkv_io.go:106-150 | any run of such sets and removals that fits the free tail never rewrites, and grows the region by exactly its bytes |
| Amortised.AmortisedRewrites | mmkv_io.go:140-149 | in any run of such sets and removals, records and tombstones of more than 8/17 of the needed length are written before the next rewrite |
| Processes.CanarySound | mmkv.go:260-281 | after the canary comparison under the flock a process has the committed memory and the whole file mapped |
| Processes.OversleptIff | mmkv.go:260-281 | for a process however late, the check is wrong exactly when it missed a multiple of 2^32 rewrites, size and digest have come back, and its memory is still not the committed one |
| Processes.ReloadCommitted | mmkv.go:317-348 | a reload of the shared files gives the committed memory |
| Processes.WriteKeeps | mmkv_io.go:106-424 | a write keeps every process either behind by sequence or a prefix of the region, and applies to the one shared map |
| Processes.ImportIsSets | mmkv_io.go:63-100 | an import inside one critical section is the valid run of its sets: same files, memory and history |
| Processes.DoKeeps | mmkv_io.go:63-424 | every public write, imports included, keeps the invariant and applies to the shared map |
| Processes.OpenKeeps | mmkv.go:176-222 | an open joins in step with the committed state |
| Processes.StepKeeps | mmkv.go:226-281 | every step keeps the invariant and follows the shared map |
| Processes.GetReadsCommitted | mmkv.go:260-281 | a get reads the committed map |
| Processes.RunIsLinearizable | mmkv.go:226-301 | every get of every run in which no process oversleeps returns the last writes in lock order |
| Processes.FewRewritesAreTimely | mmkv.go:260-281 | with fewer than 2^32 rewrites in all, nobody oversleeps |
| Processes.ExpandIsRun | mmkv_io.go:63-100 | every run is a run of single writes with the same end |
| Processes.FreshWorldInv | mmkv.go:176-222 | a new store with no process satisfies the invariant |
| Processes.ReachableIsSafe | mmkv_io.go:264-270 | writers exclude everyone, no stale mapping is used, an open reads the committed map, the confirmed region is intact and holds the map of the last rewrite |
| Processes.CrashAfterRun | mmkv.go:330-347 | after any run, dying inside an append leaves files that open to the committed map or to the map as the last rewrite left it, without discard or salvage |
| Probe.ProbeKeeps | reader.go:126-135 | each comparison of a torn read is conclusive about the snapshot in place at that moment |
| Probe.StepKeeps | reader.go:111-145 | every store of a writer or a publication and every step of a read, through mutex, second probe and reload, keeps the invariant |
| Probe.FreshServesCurrent | reader.go:197-240 | in every run whose snapshot is never 2^32 rewrites old at a read, a read that found the 32-bit canary fresh or reloaded serves a snapshot no older than the version committed when the size was read or the flock taken, nor than when the read began |
| Probe.QuietProbeIsFresh | reader.go:197-240 | with a current snapshot and nothing in progress the probe finds it fresh and serves it |
| Probe.EveryFieldCounts | reader.go:126-135 | a difference in digest, size or sequence alone is enough for a quiet probe to find the snapshot stale |
| Probe.QuietReload | reader.go:203-208 | a read that probed in vain under the mutex, with no writer about, publishes the last version and serves it |
| Publishing.SnapshotIsCommitted | reader.go:147-192 | a snapshot built between writes is the committed map |
| Publishing.LegacySnapshot | reader.go:147-192 | a store before version 3 is read by its header, without expiration |
| Publishing.DamagedSnapshot | reader.go:147-192 | after one changed byte of the committed region no snapshot is built |
| Publishing.WriteIsVersion | mmkv_io.go:264-270 | every write of a process is invisible to the canary or a next version |
| Publishing.RunsPublishVersions | reader.go:111-145 | along every run the committed canaries are ordered versions, the live meta carries the last, and a snapshot built then is its map |
| Flock.StepKeeps | flock.go:43-168 | every entry and every kernel answer keeps counters, kernel mode and exclusion consistent |
| Flock.CallsCount | flock.go:43-123 | undisturbed, a lock adds one count of its kind, an unlock takes one if there is one, and the kernel mode follows |
| Flock.CountersAgree | flock.go:43-168 | over every interleaving the kernel mode between calls is what the counters say; a holder of the exclusive lock is alone until its release is under way, except for calls that gave their lock up |
| Flock.SharedCountWithoutLock | flock.go:125-149 | a refused upgrade can leave a process counting a shared lock the kernel took back |
| Flock.BlockedWaitsForRunner | flock.go:125-149 | a blocked process waits for one that holds a lock and can go on, so there is no deadlock |
| Flock.FileLock.PlatformLock | flock.go:129-149 | the exact calls of the upgrade dance and the mode it ends in, whether or not the refused conversion kept the shared lock |
| Flock.FileLock.Acquire | flock.go:43-90 | counters, result and calls of lock and tryLock; never waits for the exclusive lock while holding one |
| Flock.FileLock.Release | flock.go:95-123 | counters and result of unlock; one call exactly when the mode changes, a downgrade included |
| Flock.LockDiscipline | mmkv_lock.go:20-46 | after any public calls no shared count is left, the exclusive count is the outstanding locks, the upgrade is never taken, and inside a lock gets and sets make no kernel call |
| Flock.ApiRests | mmkv.go:226-252 | each public call comes back to rest with that count |
| Flock.RunOne | mmkv_lock.go:20-46 | one public call on the class, likewise |
| Locking.CallKeeps | mmkv.go:226-252 | every kernel step is no lock event or one that the processes' model allows |
| Locking.AccessIsExclusive | flock.go:43-149 | the kernel lets a process in only where no other is inside in a conflicting way |
| Locking.RunIsProcesses | mmkv.go:226-252 | every interleaving of kernel calls and store operations is a run of the processes' model |
| Locking.SystemIsLinearizable | mmkv.go:226-301 | so over single kernel calls every get returns the last writes in lock order, and an exclusive section is alone |
| Instance.ViewsStable | mmkv_io.go:141-147 | views below a point read the same in any memory that agrees below it |
| Instance.FromSlicesDenotes | mmkv.go:384-402 | slices of the mapping, or copies of decrypted bytes, read as the decoded dictionary |
| Instance.MMKV.constructor | mmkv.go:176-222 | the blank object over two mapped files |
| Instance.MMKV.Open | mmkv.go:176-222 | load and repair; the result satisfies the invariant when the flags were settled |
| Instance.MMKV.Load | mmkv.go:317-348 | loads as specified on all four outcomes and re-anchors the views |
| Instance.MMKV.SalvageRegion | mmkv.go:356-378 | keeps what decodes of the clamped region and marks it for rewriting |
| Instance.MMKV.DecodeInto | mmkv.go:384-402 | replaces the views only when the region decodes |
| Instance.MMKV.CheckLoad | mmkv.go:260-301 | reloads exactly when forced or when the canary moved, and keeps serving if that fails |
| Instance.MMKV.AppendPair | mmkv_io.go:155-166 | writes the tail and the two meta fields in place; every view still reads as before |
| Instance.MMKV.OverridePair | mmkv_io.go:173-186 | rewrites the region under the views; the one view moves to the new value |
| Instance.MMKV.FullWriteback | mmkv_io.go:201-291 | packs, seals, grows, writes and confirms as specified, and the views move to the new region |
| Instance.MMKV.Rewrite | mmkv_io.go:201-270 | the bytes, size, digest, IV and meta a rewrite leaves |
| Instance.MMKV.Truncate | memfile.go:95-147 | a new mapping with the old bytes, cut or zero-filled |
| Instance.MMKV.SetStored | mmkv_io.go:106-150 | takes the path the specification takes |
| Instance.MMKV.SetLocked | mmkv_io.go:45-57 | skips an equal value, else stamps and sets |
| Instance.MMKV.Snapshot | mmkv_io.go:73-80 | the loop over the map copies every value live when it is looked at, stripped, once each in some order |
| Instance.MMKV.ImportLocked | mmkv_io.go:89-100 | the loop of sets is the specified import |
| Instance.MMKV.ImportFrom | mmkv_io.go:63-100 | the other store's live map, each value stamped by this store's settings at its own time, laid over this store's map; the other store keeps its map and files; the count; importing from itself does nothing |
| Instance.MMKV.RemoveStored | mmkv_io.go:295-323 | removes by tombstone or compaction as specified |
| Instance.MMKV.RemoveStoredKeys | mmkv_io.go:326-347 | removes the listed keys and rewrites only if one was there |
| Instance.MMKV.ClearLocked | mmkv_io.go:365-386 | empties the store as specified |
| Instance.MMKV.TrimLocked | mmkv_io.go:390-424 | compacts and shrinks as specified, with views into the smaller mapping |
| Instance.MMKV.ReKeyLocked | mmkv_crypt.go:20-42 | rewrites under the new key and goes back to the old one on failure |
| Instance.MMKV.EnableLocked | mmkv_expire.go:29-55 | sets flag and fields, stamps once, rewrites |
| Instance.MMKV.StampViews | mmkv_expire.go:29-55 | the loop gives every value a zero timestamp |
| Instance.MMKV.DisableLocked | mmkv_expire.go:59-86 | strips, clears flag and fields, rewrites; does nothing when off |
| Instance.MMKV.StripViews | mmkv_expire.go:59-86 | the loop keeps exactly the visible keys, stripped |
| Instance.MMKV.DropMemory | mmkv.go:444-454 | forgets the dictionary and forces the next reload |
| Instance.MMKV.Get | mmkv.go:459-472 | reads through the view, stripped of its timestamp and filtered by it |
| Instance.MMKV.Perform | mmkv_io.go:45-424 | any legal public operation on the object keeps the invariant and takes the abstract map to the specified one |

## Left out

- Sizes: data files of at most 2^32 - 4 bytes, that is below 2^32 in whole pages, with the next record; keys and records below 2^32 bytes; a page of at least 4096 bytes. From a file of 2^32 bytes on, the source computes an offset in 32 bits that can wrap, and slicing then panics; the model does not describe that. Clock plus duration is below 2^32 where a duration is promised; Operations.StoredSeen says what happens beyond.
- Processes.RunIsLinearizable: a process that comes back after exactly a multiple of 2^32 rewrites may take an old canary for the current one; Processes.OversleptIff says exactly when the check is then wrong, and the source does not detect it. Re-keying is a step only for the one attached process, or to the key the others have: with others attached the result is false, see SharedKey.OtherFollowsIff. An open is a step with no writer in its critical section, as the open loads without the flock.
- Processes.CrashAfterRun: no crash inside an override or a full rewrite and no reordering of pages by a power loss; the source keeps no rollback point there.
- Probe.FreshServesCurrent: a read whose reload failed serves the last good snapshot, of any age, as the source does. The probe's machine and the processes are joined by the versions of Publishing.RunsPublishVersions, not by one common state machine.
- Flock.FileLock.Acquire: failures of the kernel call other than a refusal are not modelled.
- Instance.MMKV.FullWriteback: when the rewritten region does not decode, only the files are specified, because the old views are then left over new bytes; no legal operation reaches this.
- Instance.MMKV.RemoveStored: removal from an encrypted store is specified as the code does it, which is not always what a removal promises; see EncryptedRemove.RemoveAgreesIff.
- Mapping, syncing, truncating and locking system calls and their errors, file names, the registry of instances, closing, read-only instances and the change callback: thin wrappers around the operating system.
- The AES block function, random IVs and the wall clock: parameters.
- Typed getters and setters beyond one per encoding, and floats: their encodings are the fixed-width words and varints already covered.
- Backup and restore, name spaces, the one-shot writer and the compare toggle: file copying, path prefixes and one field; a restore also breaks the growing sequence the canary rests on.
