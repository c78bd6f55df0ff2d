# Event gallery: verified models

Dafny models of the event photo gallery's hard parts, with proofs. `dafny verify dfyconfig.toml` checks them all.

| file | what it models |
|---|---|
| MediaNames, Pipeline | names and cache keys; uploads, thumbnail jobs and reads as threads over one shared state |
| PipelineSafety | what every step of the pipeline keeps, and what follows for every run |
| PipelineProgress | what is achieved when calls go through: upload, thumbnail, serving |
| PipelineErrors | thumbnails that are the body of an error: where they come from, and that they are served |
| PipelineRefinement | the pipeline with its side cache refines the one without |
| PipelineServices | the services' methods, each proved to be one thread of the pipeline |
| Broker | the server-sent-events broker as a protocol |
| ActiveEvents, Gallery | the single active event; paging while thumbnails arrive |
| FieldPaths, FormEncoder | form names as paths; the tree the encoder builds |
| Rotate | the rotate plugin's angle, signs and transform |
| EcmaMap, LinkedMap | the `Map` of ECMA-262, and the polyfill's buckets and linked list |
| Sha256, Bits | FIPS 180-4, and the streaming hasher |
| Base64, Utf8 | the two codecs against RFC 4648 and RFC 3629 |
| WireFormat, WireStreams, Payload | protocol buffer messages: as functions, as the writer and reader objects, and as the `gis_params` payload |
| DotSegments | path resolution against RFC 3986 |
| SuffixText, SuffixTrie | the public-suffix trie: its compressed text, its nodes, its search |
| Wrappers, Collections | `Option` and `Result`; facts about sequences, sets and maps |

How the models are laid out:

- **Concurrent Go code is a state machine.** In the pipeline, each database, storage, cache and publish call is one
  step of a thread, and any call may fail. In the broker, each channel operation is one step. A run is any interleaving
  of steps. The lemmas hold for every run. The services' methods are also written out one call after the other, on the
  tables, the storage and the cache as fields, and proved to be such threads.
- **Objects and buffers are classes and arrays.** Each method's `ensures` ties the new state to a mathematical
  counterpart (a list of entries, the bytes fed, a tree by its paths), and lemmas prove the properties of that counterpart.
- **Standards are written out separately** from the code that follows them: the Map of ECMA-262, SHA-256, Base64,
  UTF-8, `remove_dot_segments`. The lemmas connect the two.
- What code and specification share (tables, constants, word operations, media types, the operations of the standard's
  Map) has its own lemmas against an independent description: roots of primes, single bits, test vectors, what is found.
- A predicate that is large is stated so that it only unfolds where a marker (`Expand`, `Expose`, `Look`, ...) is
  mentioned. The markers are always true and only steer the verifier.

What the models rely on:

- `Store` mints an id that no store minted before, as internal/data/storage/s3.go:32-39 does with a random UUID. The
  file system and FTP stores use the file name as id and overwrite; for them the pipeline's results do not hold.
- Event ids are never used twice (auto-increment), and an event's storage and cache columns do not change after creation.
- One call on the database, a storage, the cache or the message system is atomic. A failed call changes nothing, except
  that a published message may be handled any number of times.
- An answer of the thumbnail generator with a success status is some function of the media type and of the bytes it
  read. Its answers with an error status have any body. It may give up, or answer with an error, after any reading.
- Creation times of thumbnails increase strictly, and a transaction that reports an error is rolled back.
- JavaScript numbers are exact integers: they stay below 2^53 (string lengths, array indices, the hasher's bit count,
  indices in form names).
- The CSS transform read back has settled, so angles are multiples of 90 degrees and sines and cosines are exact.
- The query builder leaves fields that are zero and offsets that are not positive out of a query.
- The payload check compares what was read back with what was written. The client compares with its own settings, which
  are what it writes as long as `enable_not_setting_client_id_in_transform_layer_payload`
  (internal/server/assets/static/scripts/google/client.js:338) stays off, as it does in this copy.

Where the code falls short of what it is for, the model keeps the code. Each entry has its exact condition and an input:

- `SetActiveEvent` does not look at the result of the save that clears the old active event (internal/data/db/db.go:230).
  At most one event stays active if and only if no save is lost (`ActiveEvents.OneThroughout`; input: `TwoActive`).
- The base64 byte buffer is one byte short for exactly one family of texts, which encoders never write
  (`Base64.BufferFits`; input: `LoneSymbol`).
- The suffix search files the root's own value under position 0. The longest suffix is returned if and only if that
  value does not get in the way (`SuffixTrie.FindSuffix`; input: `RootCanBeInTheWay`). The client never builds such a
  trie: its three texts all leave the root without a value (`RootIsNeverInTheWay`).
- A path resolves differently from section 5.2.4 of RFC 3986 if and only if it slips, which rooted paths never do
  (`DotSegments.ResolvesUnlessSlipped`; input: `RelativeMayDiffer`).
- The generator's client does not look at the status of answers for videos (internal/pkg/imagor/imagor.go:39-46; its
  call for images does, at line 31). A served thumbnail of an image is always the rendering of its picture. One of a
  video is, if and only if the answer it was made from had no error status or its body happens to be that rendering;
  otherwise it is that body (`PipelineSafety.ThumbnailsShowTheirPicture`, `PipelineErrors.OtherBytesWereAnswered`,
  `ErrorIsShown`; input: `VideoShowsError`).
- A slide turned by half and flipped both ways is upright but counts as changed (`Rotate.UprightUnlessChanged`; input:
  `ChangedThoughUpright`). A slide whose element loads over a state that does not show upright shows upright all the
  same (`Rotate.Plugin.SlideItemLoad`; input: `TurnedBeforeLoad`). The next button there does something else than it
  says, and brings what is seen and the state back into agreement (`Rotate.ApplyShowsOnlyIf`, `Rotate.Plugin.Press`).
  A flip before the element loads goes about the other axis if and only if the state is sideways
  (`Rotate.ApplyUnloaded`).
- An SSE client that has gone away leaves by itself if and only if it is not stranded, waiting with no event on its way
  (`Broker.GoneClientLeavesUnlessStranded`; input: `GoneClientMayStay`).
- The payload check fails on texts with lone surrogates, and only on those (`Payload.CheckPasses`; input:
  `LoneSurrogateFails`).
- A name that reads as a path prints back as itself if and only if its numerals have no leading zeros
  (`FieldPaths.RenderRead`; input: `LeadingZero`).
- A thumbnail's name drops just the extension if and only if the character before it does not occur in it
  (`MediaNames.ThumbNameKeepsStem`); two names may coincide (`ThumbNamesCollide`).
- A page before page 0 shows page 0 (`Gallery.GetThumbnails`), and event 0, which is no event, pages through the rows of
  all events (`Gallery.RowsAre`; input: `EventZero`).

## Model

| member | source | states |
|---|---|---|
| MediaNames.KeyInjective | internal/service/picture.go:231 | Two cache keys `%d:%s` are the same key only for the same event and the same storage id, whatever characters the id has; this is what keeps media of different events and ids apart in the shared cache. |
| MediaNames.ThumbNameKeepsStem | internal/service/thumbnailer.go:109 | For every file name, the thumbnail's name is the name without its extension exactly when the character before the extension does not occur in the extension. |
| MediaNames.ThumbNamesCollide | internal/service/thumbnailer.go:109 | The name of a thumbnail trims a set of characters, not a suffix: two different file names with the same thumbnail name, so a thumbnail's name does not identify its picture. |
| PipelineSafety.StepKeeps | internal/service/picture.go:183-249 | Every step of uploads, thumbnail jobs (those that go on with the body of an error included), reads, evictions and event changes keeps the pipeline's invariant and lets rows, minted ids and blobs only grow. |
| PipelineSafety.RunKeeps | internal/service/picture.go:183-249 | The invariant holds after every run in any interleaving, with any call failing and the generator answering any request with an error status. |
| PipelineSafety.ReadsAreFaithful | internal/service/storage.go:32-125 | In every run, a picture or thumbnail that is served has exactly the name and the bytes recorded when its id was minted, whether it came from the cache or from storage. |
| PipelineSafety.UploadsAreRecorded | internal/service/picture.go:183-249 | In every run, an upload reported as done had one of the three image types or one of the five video types. Its bytes are on record, its row has the right event and name and is a video exactly for the video types, and every `new-photo` message about it has that event and that kind of medium. |
| PipelineSafety.OtherTypesAreRefused | internal/service/picture.go:186-195 | In every run, an upload of any other content type never gets beyond its first check, and every way that check can turn out ends it with a failure and no change. |
| PipelineSafety.ThumbnailsShowTheirPicture | internal/service/thumbnailer.go:72-137 | In every run, a served thumbnail was made from its own row's file, under the name made from that row's name. For an image it is the rendering of exactly the bytes uploaded; for a video it is that if and only if the answer it was made from had no error status or its body happens to be the rendering, and otherwise it is that body. |
| PipelineSafety.RecordsAgree | internal/service/picture.go:183-249 | In every reachable state each file and thumbnail row has its blob in its event's storage, a thumbnail's event is its file's event, every `new-photo` message names a committed row and carries its media type, and every `new-thumbnail` message names a committed row. |
| PipelineSafety.ThumbJobsHaveASource | internal/service/thumbnailer.go:90-100 | In every run no thumbnail job reaches the deferred `Close` without a thumbnail source (the switch never falls through), and every acknowledged job left a thumbnail row for its file. |
| PipelineSafety.PanicsWithoutSource | internal/service/thumbnailer.go:90-100 | A job ends without a thumbnail source exactly when its message is of no known type and its file's row was read. |
| PipelineSafety.ChangesShow | internal/data/db/db.go:114-141 | Creating, opening, closing or deleting an event changes just that event's row as it says, and dropping a cache entry just that entry; creation needs a new id, opening and closing an existing event. |
| PipelineProgress.UploadArrives | internal/service/picture.go:183-249 | From every reachable state: an upload of an accepted type to an open event, run with all calls going through and any fresh id, ends in success and changes the shared records by exactly its blob, row, message and (if the event caches) cache entry. |
| PipelineProgress.AnswerArrives | internal/service/thumbnailer.go:100-137 | From every reachable state: whatever the generator's client passed on for a published picture, rendering or error body, is stored, recorded, acknowledged and announced when the remaining calls go through, and nothing but the cache changes besides. |
| PipelineProgress.ThumbArrives | internal/service/thumbnailer.go:72-137 | From every reachable state: a job for a published picture whose event exists ends acknowledged and announced, and the records change by exactly the thumbnail's blob and row, rendered from the uploaded bytes, hit or miss. |
| PipelineProgress.MediaIsServed | internal/service/storage.go:32-125 | From every reachable state: whatever has a row and an event is served, with its recorded name and bytes, and nothing but the cache changes. |
| PipelineProgress.UploadIsShown | internal/service/thumbnailer.go:72-137 | Upload, then the job for its message, then a read of the thumbnail, from any reachable state: what is served is the rendering of exactly the bytes that were uploaded. |
| PipelineProgress.ReadArrives | internal/service/storage.go:79-125 | A read whose calls go through ends with the recorded name and bytes from wherever it stands, with at most five calls. |
| PipelineErrors.RunAccounts | internal/pkg/imagor/imagor.go:39-46 | In every run, each error body on record or about to be stored was the answer, with an error status, to a job for that video at some step of the run. |
| PipelineErrors.OtherBytesWereAnswered | internal/pkg/imagor/imagor.go:25-46 | In every run, a served thumbnail that is not the rendering of its picture belongs to a video, and a job for that very video was answered with an error status and exactly the bytes served. |
| PipelineErrors.ErrorIsShown | internal/pkg/imagor/imagor.go:39-46 | From every reachable state, for every published video whose event exists and every body: however the generator's own read of the video ended, an answer with an error status and that body is stored, acknowledged and served as the thumbnail. |
| PipelineErrors.VideoShowsError | internal/pkg/imagor/imagor.go:39-46 | A run from the empty system that serves the body of an error as a video's thumbnail. |
| PipelineServices.AloneRuns | internal/service/picture.go:183-249 | A thread run by itself, as the methods below run it, is a run of the pipeline from any state in which it may start. |
| PipelineServices.AloneKeeps | internal/service/picture.go:183-249 | Such a thread keeps the pipeline's records, lets them only grow, and its outcome is true of them. |
| PipelineServices.Services.Upload | internal/service/picture.go:183-249 | The method is the upload thread: it succeeds exactly for one of the eight types, an open event and calls that go through; then it leaves exactly its row (a video exactly for the five video types), its message (of that kind) and, if the event caches, its bytes in the cache, otherwise none of them; the cache and publish calls may fail without effect on the result. |
| PipelineServices.Services.GetThumbnail | internal/service/storage.go:32-77 | The method is the thread of a thumbnail read; what it returns is the name and bytes recorded for the id, and it keeps the records. |
| PipelineServices.Services.GetPicture | internal/service/storage.go:79-125 | The method is the thread of a picture read; what it returns is the name and bytes recorded for the id, and it keeps the records. |
| PipelineServices.HitIsServed | internal/service/storage.go:40-48 | A read whose row is there and whose event caches its media is served from a cache entry without the event or the storage being asked, and changes nothing. |
| PipelineServices.MissIsFetched | internal/service/storage.go:50-77 | Without a hit a read succeeds exactly if the event and the blob are there and those calls go through; it returns the blob and leaves it in the cache if the event caches its media and that call goes through. |
| PipelineServices.NoRowIsServed | internal/service/storage.go:32-38 | Without a row, or when its lookup fails, nothing is served. |
| PipelineServices.Services.AskGenerator | internal/pkg/imagor/imagor.go:25-30 | One request: the generator reads the picture back through the server and responds as its reply says. |
| PipelineServices.Services.ThumbImage | internal/pkg/imagor/imagor.go:25-37 | What the call for images returns without an error is the rendering of the bytes recorded for the file, never the body of an error. |
| PipelineServices.Services.ThumbVideo | internal/pkg/imagor/imagor.go:39-46 | The call for videos returns the body of any error as the thumbnail; without one it returns the rendering of the bytes recorded for the file. |
| PipelineServices.Services.Generate | internal/service/thumbnailer.go:90-100 | By the message's type, one of the two calls; with it the thread gets from reading the picture to storing what was returned, or ends refused. |
| PipelineServices.Services.Thumb | internal/service/thumbnailer.go:72-137 | The method is the thread of a thumbnail job for a published message; it keeps the records. It acknowledges exactly when the event is there, something was made and the calls that count go through; then a row for the file is in, with the rendering of the recorded bytes or, for a video, the body of the error, also in the cache if the event caches. |
| PipelineRefinement.CachedRefinesUncached | internal/service/storage.go:32-125 | For every run of the system with caches there is a run of the system without caches in which the same calls end with the same outcomes in the same order and all rows, blobs, messages and events are the same. |
| PipelineRefinement.StepBack | internal/service/storage.go:79-125 | Each step of the cached system, seen backwards, is a stretch of steps of the uncached one between matching states. |
| PipelineRefinement.RunBack | internal/service/storage.go:79-125 | Every state matching the end of a cached run is reached by some run of the uncached system. |
| EcmaMap.OperationsKeepKeys | internal/server/assets/static/scripts/google/client.js:23-24 | `set`, `delete` and `clear` of the standard's Map (ECMA-262, 24.1.3) keep its keys distinct. |
| EcmaMap.SetWrites | internal/server/assets/static/scripts/google/client.js:23 | `set` leaves the value in the key's old slot, or with the key in a new last one, and every other slot as it was. |
| EcmaMap.DeleteEmpties | internal/server/assets/static/scripts/google/client.js:23-24 | `delete` empties the key's slot, after which the key is gone, and leaves every other slot as it was. |
| EcmaMap.ClearEmpties | internal/server/assets/static/scripts/google/client.js:24 | `clear` leaves no key, and every slot in place. |
| EcmaMap.FindsWhatWasSet | internal/server/assets/static/scripts/google/client.js:23-24 | After `set` the key is found with the value that was set, and every other key as before. |
| EcmaMap.FindsWhatIsLeft | internal/server/assets/static/scripts/google/client.js:23-24 | After `delete` the key is not found, and every other key as before. |
| EcmaMap.SizeCounts | internal/server/assets/static/scripts/google/client.js:22-24 | The size is the number of slots that hold an entry. |
| EcmaMap.DoKeeps | internal/server/assets/static/scripts/google/client.js:25-26 | One operation on the map, or one `next()` of an open iterator, keeps: yielded slots are in insertion order, none twice, and every live entry the iterator has passed was yielded. |
| EcmaMap.IterationIsComplete | internal/server/assets/static/scripts/google/client.js:25-26 | An iterator interleaved with any `set`, `delete` and `clear` yields slots in insertion order, none twice, and when it reports that it is done every entry still in the map has been yielded. |
| LinkedMap.LinkedMap.Lookup | internal/server/assets/static/scripts/google/client.js:25-26 | Finds the entry of a key in its bucket, and finds none exactly when the standard's Map has no such key. |
| LinkedMap.LinkedMap.Set | internal/server/assets/static/scripts/google/client.js:23-24 | `set` on buckets, linked list and `size` does what the standard's `set` does to its list of entries; the key then has the value that was set and every other key the value it had; every open iterator keeps its position. |
| LinkedMap.LinkedMap.Delete | internal/server/assets/static/scripts/google/client.js:23-24 | `delete` does what the standard's `delete` does, and reports whether the key was there; the key then has no value and every other key the value it had; the removed node keeps its back link so iterators on it survive. |
| LinkedMap.LinkedMap.Clear | internal/server/assets/static/scripts/google/client.js:24 | `clear` does what the standard's `clear` does, after which no key has a value; nodes of the old list still lead to the new head. |
| LinkedMap.LinkedMap.Has | internal/server/assets/static/scripts/google/client.js:24 | `has` answers as the standard's Map does. |
| LinkedMap.LinkedMap.Get | internal/server/assets/static/scripts/google/client.js:24 | `get` returns the value the standard's Map has for the key, or nothing. |
| LinkedMap.LinkedMap.SizeIs | internal/server/assets/static/scripts/google/client.js:22-24 | After any operations `size` is the number of entries of the standard's Map, and its keys are distinct. |
| LinkedMap.MapIterator.Next | internal/server/assets/static/scripts/google/client.js:25-26 | `next()` on a bare list node yields exactly the entry the standard's index-based iterator yields, and is done exactly when that one is, however the map changed since. |
| LinkedMap.Shape.StepBack | internal/server/assets/static/scripts/google/client.js:26 | Following `pa` from a node of another list keeps the position and comes closer to the current list, so that loop ends. |
| LinkedMap.Shape.StepForward | internal/server/assets/static/scripts/google/client.js:26 | From a node in use, `next` is the node of the next live entry, or the head when there is none. |
| LinkedMap.Shape.RemoveLinks | internal/server/assets/static/scripts/google/client.js:23-24 | Unlinking a node leaves one circle through the head holding exactly the other entries in order. |
| LinkedMap.Shape.AppendLinks | internal/server/assets/static/scripts/google/client.js:23 | Linking a node in before the head leaves one circle holding the new entry last. |
| LinkedMap.Shape.ResetLinks | internal/server/assets/static/scripts/google/client.js:24 | A new head starts an empty circle, and every old node still leads back to it. |
| LinkedMap.Entries | internal/server/assets/static/scripts/google/client.js:24-26 | A new iterator stands where the standard's does, at the beginning of the map as it is. |
| LinkedMap.RunProgram | internal/server/assets/static/scripts/google/client.js:22-26 | For any program of `set`, `delete`, `clear` and calls of `next()` on any number of open iterators, the polyfill's map and each iterator end where the standard's do, and each has yielded the same entries in the same order. |
| Sha256Standard.PaddingIsMinimal | internal/server/assets/static/scripts/google/client.js:117 | The padding fed is that of section 5.1.1 of FIPS 180-4: a one bit and the least number of zero bits that leave room for the 64-bit length. |
| Sha256Standard.BigEndianHolds | internal/server/assets/static/scripts/google/client.js:165 | The eight length bytes hold every length below 2^64 bits. |
| Sha256Standard.PaddedParts | internal/server/assets/static/scripts/google/client.js:165 | The padded message is the message, the byte 0x80, zeros, and eight bytes that hold the length in bits. |
| Sha256Standard.ConstantsAreRoots | internal/server/assets/static/scripts/google/client.js:151-160 | The 64 constants are the first 32 bits of the fractional parts of the cube roots of the first 64 primes, the initial hash value those of the square roots of the first 8 (sections 4.2.2 and 5.3.3). |
| Sha256Standard.OperationsAre | internal/server/assets/static/scripts/google/client.js:162-163 | The operations on words, bit by bit: conjunction, disjunction, exclusive or, complement, right shift, and the rotation by any distance. |
| Sha256Standard.ChoiceAndMajority | internal/server/assets/static/scripts/google/client.js:163 | `Ch` takes each bit from the second or third word as the first says, `Maj` the bit that two of three words have. |
| Sha256Standard.BigSigmasAre | internal/server/assets/static/scripts/google/client.js:163 | Each bit of the two large sigma functions is the exclusive or of the three bits at the standard's distances. |
| Sha256Standard.SmallSigmasAre | internal/server/assets/static/scripts/google/client.js:162 | Each bit of the two small sigma functions is the exclusive or of two bits at the standard's distances and one that is shifted out at the top. |
| Sha256Stream.CompressBlock | internal/server/assets/static/scripts/google/client.js:162-163 | One call of `Vh` on the buffer and the hash value is the block function of section 6.2.2 of FIPS 180-4. |
| Sha256Stream.MakeSchedule | internal/server/assets/static/scripts/google/client.js:162 | The 64 words computed in place are the message schedule of section 6.2.2. |
| Sha256Stream.RunRounds | internal/server/assets/static/scripts/google/client.js:162-163 | The loop with its rotating local variables is the 64 rounds of section 6.2.2. |
| Sha256Stream.JoinIsWordAt | internal/server/assets/static/scripts/google/client.js:162 | Four bytes joined with shifts and `\|` are the big-endian word. |
| Sha256Stream.BytesOfWord | internal/server/assets/static/scripts/google/client.js:165 | Shifts and masks read a word's bytes out most significant first. |
| Sha256Stream.Hasher.Update | internal/server/assets/static/scripts/google/client.js:164 | Feeds exactly the bytes of its input whatever the fill level, and refuses exactly the lists with an element that is no byte, leaving fill level and length as they were. |
| Sha256Stream.Hasher.Digest | internal/server/assets/static/scripts/google/client.js:165 | After any updates, the digest is SHA-256 (FIPS 180-4, padding included) of all bytes fed. |
| Sha256Stream.LastBlock | internal/server/assets/static/scripts/google/client.js:165 | With the padding bytes fed and the length stored, the buffer is the last block of the padded message, in the short and the long case. |
| Sha256Stream.DigestOfPieces | internal/server/assets/static/scripts/google/client.js:164-165 | However a message is cut into `update` calls, the digest is that of the whole message. |
| Sha256Stream.HexDigest | internal/server/assets/static/scripts/google/client.js:151 | One update, digest and hexadecimal digits: the digest of the input in hex, or a refusal exactly where `update` refuses. For a text of at least the given length it is the hex of SHA-256 of the low bytes of its code units. |
| Sha256Stream.TextBytes | internal/server/assets/static/scripts/google/client.js:164 | A text feeds the low byte of each of its code units, and zeros past its end. |
| Sha256Stream.TextIsItsNumbers | internal/server/assets/static/scripts/google/client.js:164 | A text of characters below 256 feeds what the list of their codes feeds, its bytes. |
| Sha256Stream.HexDigits | internal/server/assets/static/scripts/google/client.js:151 | Each byte is written as its two lower-case hexadecimal digits, the high one first. |
| Base64.EncodeBytes | internal/server/assets/static/scripts/google/client.js:231 | The loop over three bytes with its tail cases produces the encoding of section 4 of RFC 4648 in each of the five alphabets. |
| Base64.DecodeText | internal/server/assets/static/scripts/google/client.js:232 | The loop that pulls symbols four at a time computes the decoding, with white space skipped and an early end filled in. |
| Base64.RoundTrip | internal/server/assets/static/scripts/google/client.js:230-232 | For every byte string and each of the five alphabets, padded or not, decoding the encoding gives it back. |
| Base64.Vectors | internal/server/assets/static/scripts/google/client.js:231 | The seven test vectors of section 10 of RFC 4648. |
| Base64.LastDigits | internal/server/assets/static/scripts/google/client.js:230-231 | What each of the five alphabets writes for the last two digits and for padding. |
| Base64.SafeInUrls | internal/server/assets/static/scripts/google/client.js:230-231 | In the last alphabet, the one the client puts in URLs, encodings have only letters, digits, `-` and `_`. |
| Base64.SpaceIsIgnored | internal/server/assets/static/scripts/google/client.js:232 | Inserting white space anywhere in any text, well formed or not, does not change what is decoded. |
| Base64.SpacesAre | internal/server/assets/static/scripts/google/client.js:232 | The white space that is skipped, character by character. |
| Base64.DecodeFails | internal/server/assets/static/scripts/google/client.js:232 | Decoding fails exactly when some character belongs to no alphabet and is no white space, and names the first such character. |
| Base64.DecodeBytes | internal/server/assets/static/scripts/google/client.js:233 | The buffered decoder returns the decoded bytes, cut to the buffer's size where they do not fit. |
| Base64.BufferFits | internal/server/assets/static/scripts/google/client.js:233 | The precomputed buffer is too small exactly for texts one symbol longer than whole groups, without white space or early padding, and then by exactly one byte. |
| Base64.BufferRoundTrip | internal/server/assets/static/scripts/google/client.js:231-233 | What the encoder wrote comes back whole through the buffered decoder. |
| Base64.BufferIsExact | internal/server/assets/static/scripts/google/client.js:233 | For what the encoder wrote, in any alphabet, the precomputed buffer is exactly as long as the bytes. |
| Base64.LoneSymbol | internal/server/assets/static/scripts/google/client.js:233 | The shortest text that does not fit: one symbol, which decodes to one byte. |
| Utf8.EncodeUnits | internal/server/assets/static/scripts/google/client.js:156-157 | The writer's loop yields the UTF-8 (section 3 of RFC 3629) of the UTF-16 string with lone surrogates read as U+FFFD, and its buffer of three bytes per unit never overflows. |
| Utf8.ReadOne | internal/server/assets/static/scripts/google/client.js:242-243 | One character is accepted exactly when it is a UTF8-char of section 4 of RFC 3629, and yields the UTF-16 units of its value. |
| Utf8.DecodeBytes | internal/server/assets/static/scripts/google/client.js:242-243 | The reader's loop decodes all bytes or refuses; moving units out in batches of 8192 changes nothing. |
| Utf8.DecodeEncode | internal/server/assets/static/scripts/google/client.js:156-157 | Decoding the encoder's output gives the string with its lone surrogates replaced by U+FFFD. |
| Utf8.EncodeDecode | internal/server/assets/static/scripts/google/client.js:242-243 | Whatever the reader accepts, the writer would write again: no two byte strings read as one string. |
| Utf8.AcceptsWellFormed | internal/server/assets/static/scripts/google/client.js:242-243 | The reader accepts exactly the UTF8-octets of section 4 of RFC 3629. |
| Utf8.SanitisedIsSame | internal/server/assets/static/scripts/google/client.js:156-157 | A string comes back unchanged exactly when it has no lone surrogate. |
| Utf8.LoneSurrogateBytes | internal/server/assets/static/scripts/google/client.js:156-157 | A lone surrogate is written as the bytes of U+FFFD. |
| WireFormat.VarintIs | internal/server/assets/static/scripts/google/client.js:236-238 | A varint is up to ten bytes of which just the last is below 128; ten others are refused as too long, fewer as breaking off. |
| WireFormat.ReadsVarint | internal/server/assets/static/scripts/google/client.js:154 | Every unsigned 32-bit number reads back from its varint, whatever follows, taking exactly its bytes. |
| WireFormat.ReadsVarint32 | internal/server/assets/static/scripts/google/client.js:154 | Every signed 32-bit number reads back from its varint, the negative ones from their ten bytes. |
| WireFormat.ReadsRecord | internal/server/assets/static/scripts/google/client.js:155-158 | A written field, followed by anything, is one step of the parser that sets that field to its value. |
| WireFormat.ParseSerialise | internal/server/assets/static/scripts/google/client.js:149-159 | Parsing what was serialised gives back every field for every assignment of the string and int32 fields, texts with lone surrogates replaced. |
| WireFormat.FieldsAre | internal/server/assets/static/scripts/google/client.js:158 | The message type's text fields are 1, 2, 4, 5, 6, 8, 10, 11 and 12, its number fields 3 and 7. |
| WireFormat.SkipsUnknown | internal/server/assets/static/scripts/google/client.js:226 | A field of another number or another kind (a varint, 8 bytes, a length and its bytes, 4 bytes, or a group with any fields and groups in it) is skipped wherever it stands: what was read stays and what follows is read as before. |
| WireFormat.UnknownBetween | internal/server/assets/static/scripts/google/client.js:226 | Two known fields with an unknown one between them come back both, and nothing else. |
| WireStreams.Writer.PutVarint | internal/server/assets/static/scripts/google/client.js:154 | The loop of `_.Oh` appends the base-128 varint. |
| WireStreams.Writer.PutVarint32 | internal/server/assets/static/scripts/google/client.js:154 | `_.Ph` appends the varint, in ten bytes for a negative number. |
| WireStreams.Writer.PutNumber | internal/server/assets/static/scripts/google/client.js:155 | Appends the record of an int32 field, or nothing when it is not set. |
| WireStreams.Writer.PutText | internal/server/assets/static/scripts/google/client.js:156-157 | Appends tag, byte length and UTF-8 of a text field, or nothing when it is not set. |
| WireStreams.Writer.Finish | internal/server/assets/static/scripts/google/client.js:159 | Joining the pieces in one array gives everything written, in order. |
| WireStreams.SerialiseMessage | internal/server/assets/static/scripts/google/client.js:159 | The writer's output is the serialised message. |
| WireStreams.Reader.ReadInt | internal/server/assets/static/scripts/google/client.js:236-238 | `_.$g` reads a varint of up to ten bytes to its low 32 bits, and fails exactly where the wire format says: an eleventh byte or the end of the buffer. |
| WireStreams.Reader.NextTag | internal/server/assets/static/scripts/google/client.js:240 | Reads a tag, refusing wire types above 5 and field number 0; says there is none exactly at the end of the buffer. |
| WireStreams.Reader.SkipValue | internal/server/assets/static/scripts/google/client.js:240-241 | Moves over the value of a field of any wire type, nested groups included, or fails as the wire format says. |
| WireStreams.Reader.SkipToEnd | internal/server/assets/static/scripts/google/client.js:240-241 | Moves past the matching end group, or fails on a group left open or closed under another number. |
| WireStreams.Reader.ReadValue | internal/server/assets/static/scripts/google/client.js:226 | Reads one field into the message, or skips one of no interest. |
| WireStreams.ParseMessage | internal/server/assets/static/scripts/google/client.js:226-227 | The reader's loop computes the parse of the bytes, failures included. |
| Payload.BuildParams | internal/server/assets/static/scripts/google/client.js:338 | Builds `gis_params`: the serialised message in unpadded URL base64. |
| Payload.ReadParams | internal/server/assets/static/scripts/google/client.js:292 | Reads it back: base64 to bytes, bytes to a message. |
| Payload.ParamsRoundTrip | internal/server/assets/static/scripts/google/client.js:338-339 | Serialising, encoding, decoding and parsing gives every field back, for every assignment of the fields. |
| Payload.CheckPasses | internal/server/assets/static/scripts/google/client.js:339 | The client's own check of what it reads back passes exactly when none of the compared fields it wrote holds a lone surrogate. |
| Payload.LoneSurrogateFails | internal/server/assets/static/scripts/google/client.js:339 | An instance: an origin of one lone surrogate is written and fails the check. |
| Broker.StepKeeps | internal/server/sse/sse.go:57-117 | Every step of the listening goroutine, a handler, a client or a producer keeps the broker's invariant: the registry is the set of handlers between registration and deregistration, and each has one outcome per event of its window. |
| Broker.ClientSeesItsWindow | internal/server/sse/sse.go:57-117 | In every run each client is sent, in the order accepted and none twice, only events accepted between its registration and its deregistration; the ones missing are exactly those its hand-over timed out on; and it writes what it was sent. |
| Broker.CommonOrder | internal/server/sse/sse.go:57-117 | Any two clients see the events they have in common in the same order. |
| Broker.EventsAreConserved | internal/server/sse/sse.go:108-115 | In every run each event a producer started to send is still with the producer, in the slot, or accepted, once. |
| Broker.WaitingClientGetsEvent | internal/server/sse/sse.go:98-115 | From every reachable state a registered client that waits, gone or not, can be handed the event of the fan-out that has still to come to it, or the one in the slot or any producer's, by steps from inside, after which it has written just that event more. |
| Broker.ConnectedClientGetsEvent | internal/server/sse/sse.go:57-117 | From every reachable state a client that is still connected, wherever its handler is in its loop or before, can get the event in the slot or any producer's by steps from inside. |
| Broker.FanOutIsBounded | internal/server/sse/sse.go:108-115 | Whatever else happens meanwhile, a fan-out has made exactly one hand-over or time-out for each client no longer before it, so at most one per registered client. |
| Broker.FanOutEnds | internal/server/sse/sse.go:89-117 | By itself the listening goroutine gets back to its select in one step per remaining client and one more. |
| Broker.HandlerGetsThrough | internal/server/sse/sse.go:66-73 | From every reachable state a handler blocked on registering or deregistering gets through after at most one fan-out. |
| Broker.ProducerGetsThrough | internal/server/sse/sse.go:89-117 | From every reachable state a blocked producer gets through after at most one fan-out and one accept. |
| Broker.StallsOnlyWhenIdle | internal/server/sse/sse.go:57-117 | The system is at rest exactly when no event is under way and every handler waits for one or is closed: no deadlock. |
| Broker.GoneClientLeaves | internal/server/sse/sse.go:57-117 | From every state the invariant admits, a client that has gone away and is not stranded leaves the registry without anything new from outside. Stranded means: its handler waits, no event is in the slot or with a producer, and no fan-out has still to come to it. |
| Broker.GoneClientLeavesUnlessStranded | internal/server/sse/sse.go:57-117 | For every such state and gone client: its handler can end by steps from inside if and only if it is not stranded. |
| Broker.GoneClientMayStay | internal/server/sse/sse.go:66-86 | A run that strands a client: it goes away while its handler waits, stays registered, and no steps from inside let it leave. |
| FieldPaths.EncodingPath | internal/server/assets/static/scripts/json-enc-custom.js:50-110 | The loop that shortens the remaining name computes the steps of the name, and ends. |
| FieldPaths.LinkSteps | internal/server/assets/static/scripts/json-enc-custom.js:98-108 | Marks exactly the last step and tells every other step what kind the next one needs. |
| FieldPaths.IndexAheadIs | internal/server/assets/static/scripts/json-enc-custom.js:67-80 | The pattern for indices matches exactly the bracketed groups whose text is all digits. |
| FieldPaths.ReadRender | internal/server/assets/static/scripts/json-enc-custom.js:50-110 | Reading the bracket form of any well-formed path gives that path back. |
| FieldPaths.RenderRead | internal/server/assets/static/scripts/json-enc-custom.js:50-110 | Any name that reads as a path prints back as itself exactly when its numerals have no leading zeros; every other name is the single whole-name step. |
| FieldPaths.GroupsRender | internal/server/assets/static/scripts/json-enc-custom.js:65-97 | Reading the bracketed groups of any list of keys gives the keys back. |
| FieldPaths.LeadingZero | internal/server/assets/static/scripts/json-enc-custom.js:71 | A name that reads as a path and prints back as another: `a[01]` as `a[1]`. |
| FieldPaths.DecimalParse | internal/server/assets/static/scripts/json-enc-custom.js:71 | A numeral survives parsing and printing exactly when it has no leading zero. |
| FormEncoder.SetValueFromPath | internal/server/assets/static/scripts/json-enc-custom.js:112-144 | Writes a last step's value and returns it; otherwise returns the child that is there, or makes, links and returns an empty object or array of the kind the next step asks for, or nothing for a step that names no kind. |
| FormEncoder.PutField | internal/server/assets/static/scripts/json-enc-custom.js:26-43 | Walking a field's steps from the root turns the tree in memory into the tree with that value at that path. |
| FormEncoder.EncodingAlgorithm | internal/server/assets/static/scripts/json-enc-custom.js:16-48 | For every form with compatible paths the nodes in memory make up the tree of all its fields. Following a field's keys from the root leads to its value, or for a lone checkbox to whether `on` was submitted; on the way stand objects where a name comes next and arrays where an index does; no other keys lead to a value. |
| FormEncoder.FollowFinds | internal/server/assets/static/scripts/json-enc-custom.js:16-48 | In nodes that make up a tree, following any keys finds what the tree has at that path, and nothing where it has nothing. |
| FormEncoder.EventFormFits | internal/server/assets/static/scripts/json-enc-custom.js:16-48 | Forms like the one for a new event, with plain fields and fields in a group, have compatible paths. |
| FormEncoder.PutAllDescribes | internal/server/assets/static/scripts/json-enc-custom.js:16-48 | That tree has each field's value at its path, the nodes those paths need with the kinds they ask for, and no other leaf and no other node. |
| FormEncoder.OrderDoesNotMatter | internal/server/assets/static/scripts/json-enc-custom.js:16-48 | The fields in any order make up the same tree. |
| FormEncoder.NextFits | internal/server/assets/static/scripts/json-enc-custom.js:26-43 | With compatible paths, no field's path runs through a leaf or ends at a node, so nothing is overwritten. |
| DotSegments.Normalize | internal/server/assets/static/scripts/google/client.js:99-100 | The one-pass loop over segments with its stack computes the normalised path. |
| DotSegments.ResolvePath | internal/server/assets/static/scripts/google/client.js:99 | An empty reference keeps the base path, a rooted one replaces it, another one is merged with the base as section 5.2.3 of RFC 3986 says; the result is normalised. |
| DotSegments.ResolvesAsStandard | internal/server/assets/static/scripts/google/client.js:99-100 | For every path that begins with `/` the result is that of `remove_dot_segments`, section 5.2.4 of RFC 3986, rule by rule. |
| DotSegments.NoDotSegmentsLeft | internal/server/assets/static/scripts/google/client.js:99-100 | No result has a `.` or `..` segment, for relative paths too. |
| DotSegments.Idempotent | internal/server/assets/static/scripts/google/client.js:99-100 | Normalising twice is normalising once. |
| DotSegments.ResolvesUnlessSlipped | internal/server/assets/static/scripts/google/client.js:99-100 | For every path, relative or not, the result is that of `remove_dot_segments` if and only if no `..` empties the stack of segments for good; otherwise the standard's result has one `/` more in front and is the same after it. |
| DotSegments.RelativeMayDiffer | internal/server/assets/static/scripts/google/client.js:99-100 | An instance: `a/../b` slips, and gives `b` instead of the standard's `/b`. |
| SuffixText.ReadsDoc | internal/server/assets/static/scripts/google/client.js:265-266 | Reading the text of any node adds to the trie what the text says and takes exactly that text. |
| SuffixText.CompressApplied | internal/server/assets/static/scripts/google/client.js:265-266 | Applying the compressed form of any trie to the empty one gives that trie. |
| SuffixText.DocApplied | internal/server/assets/static/scripts/google/client.js:265-266 | The text of one child adds exactly the nodes below it, with their values. |
| SuffixText.RootStaysUnset | internal/server/assets/static/scripts/google/client.js:265-266 | Reading a text that begins with `&` and a label, and in which no node's end is followed by an opening mark, leaves the root without a value. |
| SuffixText.WrittenRootUnset | internal/server/assets/static/scripts/google/client.js:265-266 | Of the texts in which the root stands by itself and has children, those of the client's shape are exactly the ones that give the root no value. |
| SuffixText.ReadsCompressed | internal/server/assets/static/scripts/google/client.js:265-266 | Reading the compressed text of any trie rebuilds that trie and takes exactly that text, whatever follows. |
| SuffixTrie.ReadEdge | internal/server/assets/static/scripts/google/client.js:265-266 | The loop over an edge's characters walks or makes the nodes and writes the mark's value. |
| SuffixTrie.ReadNode | internal/server/assets/static/scripts/google/client.js:265-266 | One call of `jr` on the linked nodes does what reading its text does to the trie they make up. |
| SuffixTrie.ReadChildren | internal/server/assets/static/scripts/google/client.js:266 | The loop over the children does the same up to the closing mark. |
| SuffixTrie.BuildTrie | internal/server/assets/static/scripts/google/client.js:265 | A fresh root with a text read into it makes up the trie the text describes. |
| SuffixTrie.FindSuffix | internal/server/assets/static/scripts/google/client.js:265 | The result is the longest stored public suffix of the reversed host that ends at a label boundary, exactly when the root's own value does not get in the way, and one character otherwise. |
| SuffixTrie.BestIsLongest | internal/server/assets/static/scripts/google/client.js:265 | The last true mark at a label boundary is the longest public suffix exactly when the root's value is not filed under position 0. |
| SuffixTrie.RootIsNeverInTheWay | internal/server/assets/static/scripts/google/client.js:263-266 | For every text that begins with `&` and a label, and in which no node's end is followed by a mark that opens one, as in each of the client's three texts: the root has no value, so the search always returns the longest suffix. |
| SuffixTrie.RootCanBeInTheWay | internal/server/assets/static/scripts/google/client.js:265 | A text of another kind and a host for which the search returns a character that is no public suffix. |
| Rotate.ShownIsTurnTimesScale | internal/server/assets/static/scripts/lightgallery/plugins/rotate/lg-rotate.es5.js:164-177 | The transform written is the rotation matrix times the scaling matrix, for every multiple of 90 degrees. |
| Rotate.TurnedIs | internal/server/assets/static/scripts/lightgallery/plugins/rotate/lg-rotate.es5.js:192-211 | Reading the composed matrix back tells exactly whether the picture is turned sideways, whatever the signs. |
| Rotate.ApplyShows | internal/server/assets/static/scripts/lightgallery/plugins/rotate/lg-rotate.es5.js:178-245 | Each button multiplies what is seen by its own matrix from the left, whatever the angle and the signs. |
| Rotate.ApplyShowsOnlyIf | internal/server/assets/static/scripts/lightgallery/plugins/rotate/lg-rotate.es5.js:178-245 | On an element without a transform, or with the one last written, each button multiplies what is seen by its own matrix if and only if what was seen agreed with the state. |
| Rotate.ApplyUnloaded | internal/server/assets/static/scripts/lightgallery/plugins/rotate/lg-rotate.es5.js:178-245 | On a slide whose element has not loaded a turn changes the state as it says, and a flip does so if and only if the state is not sideways. |
| Rotate.AngleReadBack | internal/server/assets/static/scripts/lightgallery/plugins/rotate/lg-rotate.es5.js:192-211 | The angle read back is the state's angle within a turn, or opposite to it when the first sign is negative. |
| Rotate.RunIsProduct | internal/server/assets/static/scripts/lightgallery/plugins/rotate/lg-rotate.es5.js:178-245 | After any sequence of buttons the transform on screen is the plain product of what they say. |
| Rotate.UprightUnlessChanged | internal/server/assets/static/scripts/lightgallery/plugins/rotate/lg-rotate.es5.js:252-258 | A state counts as changed if and only if its picture is not upright or it is half a turn with both flips, which is upright too. |
| Rotate.ChangedThoughUpright | internal/server/assets/static/scripts/lightgallery/plugins/rotate/lg-rotate.es5.js:252-258 | Four buttons that bring the picture back upright and leave it counted as changed. |
| Rotate.Plugin.Press | internal/server/assets/static/scripts/lightgallery/plugins/rotate/lg-rotate.es5.js:178-245 | A button changes the current slide's state and transform only; what is seen there is multiplied by the button's matrix if and only if it agreed with the state before, and agrees with it afterwards in any case. Without an element, what the state would show is multiplied by it if and only if the button is a turn or the state is not sideways. |
| Rotate.Plugin.BeforeSlide | internal/server/assets/static/scripts/lightgallery/plugins/rotate/lg-rotate.es5.js:154-162 | Going to a slide gives it an upright state unless it has one. |
| Rotate.Plugin.SlideItemLoad | internal/server/assets/static/scripts/lightgallery/plugins/rotate/lg-rotate.es5.js:118-133 | A slide's element appears without a transform; what is seen then agrees with the states if and only if it did before and the slide had its element, no state, or a state that shows an upright picture. |
| Rotate.TurnedBeforeLoad | internal/server/assets/static/scripts/lightgallery/plugins/rotate/lg-rotate.es5.js:118-133 | A slide turned once before its element loads disagrees with it; turned and turned back, it agrees. |
| Rotate.Plugin.CloseGallery | internal/server/assets/static/scripts/lightgallery/plugins/rotate/lg-rotate.es5.js:259-264 | Closing forgets every state and says whether the current slide was changed. |
| Rotate.Plugin.IsImageOrientationChanged | internal/server/assets/static/scripts/lightgallery/plugins/rotate/lg-rotate.es5.js:252-258 | The answer is false only for a slide that shows an upright picture, and true for every other one and for half a turn with both flips. |
| Gallery.GetThumbnails | internal/server/ui_routes.go:260-293 | While the offset fits 64 bits, page n shows rows 20n to 20n+19 of the event, newest first, or what is left of them, and leads to page n+1; a page before page 0 shows page 0. |
| Gallery.RowsAre | internal/data/db/db.go:290 | The rows paged through are those of the event, and for event 0, which the query's condition leaves out, those of all events. |
| Gallery.RowsAreOnce | internal/data/db/db.go:283-296 | Each row is among an event's rows as often as it is in the table, so none is shown twice. |
| Gallery.RowsInOrder | internal/data/db/db.go:283-296 | An event's rows stand in the order of the table. |
| Gallery.EventZero | internal/data/db/db.go:290 | An instance: a page of event 0 shows thumbnails of two events. |
| Gallery.ArrivedIs | internal/data/db/db.go:283-296 | What insertions can make of a table is exactly any table that has it at its end. |
| Gallery.NothingIsSkipped | internal/data/db/db.go:283-296 | A reader that calls the route with page 0 and then with each `nextPage` it is given, until a page is empty, has been shown every thumbnail that was there at its first call, however many newer ones were inserted between the calls. |
| Gallery.PagesAreAll | internal/data/db/db.go:283-296 | Without insertions that reader is shown the event's thumbnails, each once, in order. |
| ActiveEvents.Events.CreateEvent | internal/data/db/db.go:114-121 | A new event is inactive and gets the next id of a counter that only goes up, so an id never used before; a failed call changes nothing. |
| ActiveEvents.Events.DeleteEvent | internal/data/db/db.go:139-141 | Removes the row and nothing else; a failed call changes nothing. |
| ActiveEvents.Events.GetActiveEvent | internal/data/db/db.go:201-217 | Returns the lowest active id, or says there is none. |
| ActiveEvents.Events.SetActiveEvent | internal/data/db/db.go:219-245 | The transaction's statements with any of its calls failing leave the rows and the answer of the specification. |
| ActiveEvents.SetActiveEffect | internal/data/db/db.go:219-245 | A failed call changes nothing; a call succeeds exactly when lookup, update and commit go through and the id exists, and then its event is active and no row is added or lost. |
| ActiveEvents.SetActiveKeepsOne | internal/data/db/db.go:219-245 | From at most one active event, a call keeps at most one exactly when it does not lose the ignored save while another event is active; then a success makes its event the one found. |
| ActiveEvents.RunKeepsOne | internal/data/db/db.go:219-245 | Over every run of create, delete and set-active calls that loses no save, at most one event is active. |
| ActiveEvents.OneThroughout | internal/data/db/db.go:219-245 | At most one event is active after every prefix of a run if and only if no call of the run loses its save: a call whose save alone fails while another event is active. |
| ActiveEvents.FirstLostSave | internal/data/db/db.go:219-245 | After such a run, one more call keeps at most one active event exactly when it does not lose its save. |
| ActiveEvents.TwoActive | internal/data/db/db.go:219-245 | A run from the empty table after which two events are active: its last call succeeds although its save failed. |

## Left out

- The overwriting, name-addressed stores (file system, FTP): coherence needs ids that are minted fresh.
- Picture and thumbnail content types, HTTP range handling and streaming: a served blob is its bytes.
- JSON and protobuf encoding of the messages between the services: a message is its three fields.
- Go's map iteration order and fairness of `select`: the broker's fan-out takes clients in any order, and progress is stated as steps that are enabled and suffice, not as fairness.
- Broker.StepKeeps: goroutines are positions in a state on values, not objects; a handler's panic and the server's shutdown are not part of this model.
- Time: the fan-out's patience is a step that may happen at any moment instead of the hand-over.
- Two `SetActiveEvent` transactions interleaving: each call is one transaction here; the isolation level of the database is not part of this model.
- ActiveEvents.RunKeepsOne: a run is a sequence of whole calls, one transaction after the other, for the same reason.
- Gallery.NothingIsSkipped: does not model deletions between fetches, or rows with equal creation times.
- Gallery.GetThumbnails: promised while 20 times the page fits a signed 64-bit number; beyond that the offset wraps around, as the body does, and nothing is promised. A page or event that is no number is refused before and is not part of this model.
- FormEncoder.EncodingAlgorithm: stated for fields whose paths are prefix-free and agree on the kind of every shared node, and for names that are not keys of the built-in prototypes; what conflicting fields do to each other, and `JSON.stringify`, are not part of this model.
- FieldPaths.EncodingPath: characters are Unicode scalar values, so names with lone surrogates are not covered.
- LinkedMap.RunProgram: key equality stands for the code's own comparison, SameValueZero, and the hash of a key is any function of it. `forEach`, `keys`, `values` and construction from an iterable are not modelled.
- Sha256Stream.Hasher.Update: a refused input may leave bytes behind in the buffer beyond the fill level; the model says nothing of the object after that but its fill level and length.
- Sha256Stream.Hasher.Digest: leaves the object spent, as in the code; `reset` is not modelled.
- Base64.DecodeText: characters are Unicode scalar values; a lone surrogate in the text is not representable (the code refuses it as it refuses any other character of no alphabet).
- Utf8.EncodeUnits: the path through `TextEncoder` and `TextDecoder` is left out; they are the browser's own.
- Utf8.DecodeBytes: the fatal mode only, which is the mode the reader of messages uses.
- WireStreams.ParseMessage: the unknown fields that the code keeps aside for writing them again are skipped and dropped; nested message fields do not occur in this message type.
- WireFormat.ParseSerialise: each text's UTF-8 is shorter than 2^32 bytes, the most a JavaScript array holds.
- DotSegments.ResolvePath: the path component only; scheme, authority, query and fragment are copied by plain assignments.
- SuffixTrie.ReadNode: on a text that breaks off the code recurses without end; the model ends with no result there.
- SuffixTrie.FindSuffix: the trie's insertion, removal and listing methods are left out; the client only reads.
- Rotate.Plugin.Press: the events triggered after a delay and the transition's duration are not modelled.
- Authentication, tokens, QR codes, templates, the sign-in dialogue and the other gallery plugins: thin wrappers over libraries or the browser.
