# IronMLX backend: verified models

This project models the parts of the IronMLX backend repository whose correctness rests on an argument rather
than on a single line, and proves that argument in Dafny 4.11. Six components are covered.

**TurboQuant KV compression** (`turboquant/`). `Wht` holds the in-place transform with its loop nest, the two
rotations and the sign generator; `Walsh` holds the Walsh-Hadamard matrix and the recursion on halves as
mathematics; `Vectors` the exact-real linear algebra. `Bits` and `Pack` model machine bytes bit by bit and the
3-bit and 4-bit packings. `Codebooks` is the scalar quantizer, `VectorCodec` the pipeline for one vector, and
`Quantize` the loops over whole byte buffers. The chain of results: the loops compute the matrix transform; the
transform is an isometry and its own inverse; so the index-by-index nearest centroid is the nearest codeword in
the original space; packing is a change of base and a bijection; so what is decoded is exactly that codeword,
stretched to the stored norm.

**MoE expert routing** (`scripts/qwen36_moe_path_compare.py`, module `MoeRouting`). Sorting tokens by expert,
computing, and undoing the sort gives the same result as computing in place. Fusing the gate and up projections
never changes the result either: nothing compares their quantization parameters, but the row widths allow the
concatenation only when they agree.

**Benchmark runner** (`scripts/benchmark_prompt_lookup_matrix.py`). `Admission` is the turn-taking of the
workers of one batch as a state machine over all interleavings; `CheckpointNames` and `BenchmarkRun` are one
variant of the benchmark with its checkpoint directory, killed at any step and resumed any number of times;
`ResolvePrompt` is the bracket-and-bisect search for a prompt size.

**Streaming client** (`iron-bench/src/client.rs`, modules `Utf8` and `SseReader`). The incremental reader agrees
with splitting the whole response at once; the token times it records are consistent.

**Broadcast shapes** (`mlx/src/broadcast.rs`, module `Broadcast`) and **app state**
(`BackendIncidentStore.swift`, module `IncidentStore`; `AppConfig.swift`, module `ModelLists`).

## How the model is set up

- f32 values are exact reals. The square root is a parameter with `IsSqrt`; bf16 is a pair of arbitrary functions
  between reals and byte pairs. u64 wrap-around, byte shifts, `wrapping_sub` and the u32 chunk counter are
  written out.
- Products of reals go through `Vectors.Times`, so that sums of products are compared term by term. Several
  bodies start with `hide`, which only keeps definitions out of a proof.
- JSON parsing, JSON encoding, text sanitising, the quantized matrix kernel, `argsort`, Swift's `sort`, prompt
  rendering, clocks and measurements are arbitrary functions, constrained only where the source relies on more.
- A quantized projection has the shapes and the mode contract that `ironmlx/src/core/loader.rs:264-397` and
  `ironmlx/src/core/loader.rs:1133-1161` demand of one: packed rows of inputDims * bits / 32 words, one scale per
  group, biases for affine storage only, fixed bits and group size for the block formats. `concatenate` needs equal
  dimensions except along its axis (`mlx/src/ops/shape.rs:152-153`).
- Buffers that the source overwrites are arrays; objects whose methods change fields are classes; the loops of
  the source are loops.

## Where code and documentation differ

- `turboquant/src/wht.rs:4-5` and `turboquant/src/lib.rs:17` give the inverse rotation as WHT(signs * y); the code
  computes signs * WHT(y). The code is what is modelled. `Wht.HeaderInverseIff` shows that with generated signs
  the documented formula restores a vector exactly when it is zero or has a single entry.
- `turboquant/src/wht.rs:10-13` presents the signs as a seeded hash. The hash keeps parity, so the pattern merely
  alternates and only the parity of the seed matters (`Wht.OnlySeedParityMatters`).
- `turboquant/src/codebook.rs:81` announces a binary search; the code scans from the left and stops early.
- `iron-bench/src/client.rs:223` decodes every network chunk by itself, so a valid response is rejected when a
  chunk boundary falls inside a multi-byte character (`SseReader.CutsBetweenCharacters`,
  `SseReader.CutInsideCharacterFails`).
- `AppConfig.validate` accepts pinned models without a loaded list; such a configuration does not stay valid
  (`ModelLists.ValidForeverIff`, `ModelLists.PinnedWithoutLoadedList`).
- `BackendIncidentStore.upsert` throws only when not even the newest record fits; it reports success when the new
  record is itself dropped, which happens when enough retained records are newer
  (`IncidentStore.BackendIncidentStore.DroppedIff`, `IncidentStore.OlderUpsertIsLost`).

## Model

| member | source | states |
|---|---|---|
| Walsh.HadamardIsWalshMatrix | turboquant/src/wht.rs:7-8 | entry k of the recursion on halves is the sum over j of (-1)^popcount(k & j) x[j] |
| Walsh.HadamardTwice | turboquant/src/wht.rs:5-6 | the unnormalised transform applied twice multiplies by the length |
| Walsh.HadamardDot | turboquant/src/wht.rs:29-60 | the unnormalised transform multiplies every inner product by the length |
| Wht.ButterflyInPlace | turboquant/src/wht.rs:44-49 | the inner loop replaces two neighbouring blocks by their sums and differences and leaves the rest alone |
| Wht.Stage | turboquant/src/wht.rs:42-52 | after the stage of width h every aligned block of 2h entries is the transform of that block of the original input |
| Wht.BlockwiseEntry | turboquant/src/wht.rs:41-53 | entry k of each such block is row k of the Walsh matrix applied to the block |
| Wht.TransformInPlace | turboquant/src/wht.rs:33-60 | for every power-of-two length the loop nest and the scaling leave the normalised transform of the input in the array |
| Wht.TransformEntry | turboquant/src/wht.rs:33-60 | entry k of the result is 1/sqrt(n) times row k of the Walsh matrix on the input |
| Wht.TransformTwice | turboquant/src/wht.rs:5-6 | the normalised transform is its own inverse |
| Wht.TransformDot | turboquant/src/wht.rs:29-60 | the normalised transform preserves inner products, hence norms |
| Wht.RotateForward | turboquant/src/wht.rs:67-72 | the method computes the transform of the sign-multiplied vector |
| Wht.RotateInverse | turboquant/src/wht.rs:79-87 | the method computes the sign-multiplied transform |
| Wht.RotationRoundTrip | turboquant/src/wht.rs:74-87 | the two rotations undo each other in both orders, for every sign vector |
| Wht.InverseDistance | turboquant/src/wht.rs:67-87 | distance to x after rotating back equals distance to the rotated x before |
| Wht.GenerateSigns | turboquant/src/wht.rs:14-27 | the wrapped u64 hash yields +1 exactly at the entries where seed + i is even |
| Wht.PatternBalanced | turboquant/src/wht.rs:149-159 | plus and minus signs are equally many for even d, and differ by one for odd d |
| Wht.OnlySeedParityMatters | turboquant/src/wht.rs:138-146 | two seeds give the same pattern exactly when they have the same parity, and opposite patterns otherwise |
| Wht.GeneratedRotationIsSwappedTransform | turboquant/src/wht.rs:14-27 | the forward rotation with generated signs is the plain transform with entries k and k xor 1 exchanged, up to one global sign |
| Wht.HeaderInverseIff | turboquant/src/wht.rs:4-6 | the inverse formula of the header restores a rotated vector exactly when the vector is zero or has a single entry |
| Pack.Pack3Bit | turboquant/src/pack.rs:10-25 | bytes and indices are the same number in base 256 and base 8, at every step for the prefix placed so far; the carry never leaves the array |
| Pack.Unpack3Bit | turboquant/src/pack.rs:28-43 | the indices are below 8 and are the same number as the bytes |
| Pack.Pack4Bit | turboquant/src/pack.rs:46-53 | bytes and indices are the same number in base 256 and base 16 |
| Pack.Unpack4Bit | turboquant/src/pack.rs:56-63 | the indices are below 16 and are the same number as the bytes |
| Pack.PackUnpackBijection | turboquant/src/pack.rs:10-63 | packing and unpacking are two-sided inverses between 32 indices in range and 12 or 16 bytes |
| Pack.PackedBytes | turboquant/src/pack.rs:66-72 | a block takes exactly the bytes its 32 indices fill |
| Codebooks.NewIsWellFormed | turboquant/src/codebook.rs:58-76 | every codebook the constructor builds is strictly increasing with midpoint boundaries |
| Codebooks.CentroidScaling | turboquant/src/codebook.rs:7-8 | centroids scale with 1/sqrt(d) |
| Codebooks.CentroidsSymmetric | turboquant/src/codebook.rs:109-121 | the codebook is symmetric around zero |
| Codebooks.SmallestIsInTable | turboquant/src/codebook.rs:14-44 | the lower bound used for looked-up vectors is the smallest entry of the table |
| Codebooks.CentroidMapsToItself | turboquant/src/codebook.rs:138-143 | a centroid is quantized to its own index |
| Codebooks.NearestIsLeast | turboquant/src/codebook.rs:78-80 | the brute-force answer is at least distance, and the first such index |
| Codebooks.NearestIndex | turboquant/src/codebook.rs:80-91 | the early-exit scan over the midpoints returns the brute-force nearest index, lower index on a tie |
| VectorCodec.NewRotation | turboquant/src/quantize.rs:38-45 | the context holds a valid sign vector of the head dimension |
| VectorCodec.UnpackAllOfPackAll | turboquant/src/quantize.rs:104-124 | padding the last group, packing, unpacking and truncating loses no index, for every head dimension |
| VectorCodec.ReadBack | turboquant/src/quantize.rs:99-103 | a compressed vector returns exactly the norm bytes and indices laid out in it |
| VectorCodec.EncodedVector | turboquant/src/quantize.rs:83-124 | the code of a vector holds the bf16 norm of the vector and the indices chosen for it |
| VectorCodec.NormalizedLaw | turboquant/src/quantize.rs:83-88 | above the threshold the normalised vector has length one and the norm stretches it back to the input; below it the input is left alone |
| VectorCodec.CodebookForScaling | turboquant/src/quantize.rs:72-73 | the codebook of the pipeline is the one for the head dimension: squared centroids times the dimension are squared table entries |
| VectorCodec.ReadOfWrite | turboquant/src/quantize.rs:206-219 | every value is written as its own pair of bytes and read back after one trip through bf16 |
| VectorCodec.ChosenCodewordIsOptimal | turboquant/src/quantize.rs:83-97 | no choice of indices, looked up and rotated back, is closer to the normalised input than the chosen one |
| VectorCodec.LookupIsLong | turboquant/src/quantize.rs:177-182 | whatever the indices, the looked-up vector is at least as long as the smallest table entry |
| VectorCodec.DecodedNorm | turboquant/src/quantize.rs:177-190 | before rounding, every decoded vector has exactly the stored norm, because the norm guard always holds |
| VectorCodec.DecodedLength | turboquant/src/quantize.rs:177-190 | a non-negative stored norm is the length of the decoded vector, and a stored zero decodes to the zero vector |
| VectorCodec.ZeroVectorRoundTrip | turboquant/src/quantize.rs:83-88 | a zero vector comes back as zero, given that bf16 represents zero |
| VectorCodec.VectorRoundTrip | turboquant/src/quantize.rs:61-198 | decoding what was encoded gives the optimal codeword stretched to the bf16-rounded norm of the input |
| Quantize.SlotAt | turboquant/src/quantize.rs:80-100 | slot v of a buffer of n slots lies at offset v times the slot size, inside the buffer |
| Quantize.SlotsAreVectors | turboquant/src/quantize.rs:75-82 | the slots are exactly the vectors (i, j, t) of the tensor, row by row |
| Quantize.OneVectorPerSlot | turboquant/src/quantize.rs:75-82 | no two vectors share a slot |
| Quantize.PackIndices | turboquant/src/quantize.rs:104-124 | the grouping loop writes the packed indices to consecutive places and leaves the rest of the buffer alone |
| Quantize.Quantize | turboquant/src/quantize.rs:61-133 | the output has one slot per vector, and slot v is the compressed form of input vector v |
| Quantize.ReadIndices | turboquant/src/quantize.rs:153-175 | the unpacking loop and the truncation return the stored indices |
| Quantize.Dequantize | turboquant/src/quantize.rs:136-198 | slot v of the output is the decoding of slot v of the compressed data |
| Quantize.RoundTrip | turboquant/src/quantize.rs:61-198 | quantize then dequantize returns, vector by vector, the optimal codeword at the rounded norm of the input |
| MoeRouting.ArgsortInverts | scripts/qwen36_moe_path_compare.py:173 | the argsort of a permutation is its inverse on both sides, whatever the tie-breaking |
| MoeRouting.BuildFusedGateUp | scripts/qwen36_moe_path_compare.py:90-112 | fusing succeeds exactly when both sides or neither have biases and the dimensions other than the outputs agree; the result is a projection of all outputs that records where the gate ends |
| MoeRouting.FusesIffSameFormat | scripts/qwen36_moe_path_compare.py:90-112 | projections of rows of one length can be fused exactly when group size, bits and mode agree, although the code compares none of them |
| MoeRouting.FusedSlices | scripts/qwen36_moe_path_compare.py:151-166 | cutting the fused output recovers the gate projection and the up projection, each under its own parameters |
| MoeRouting.ExpertIsProducts | scripts/qwen36_moe_path_compare.py:168-172 | an expert is the down product of the gated gate and up products, each entry the kernel on the rows of that expert |
| MoeRouting.SortedDownEntry | scripts/qwen36_moe_path_compare.py:144-174 | every flat position comes back from the sort with its own expert on its own token, whatever place it was moved to |
| MoeRouting.SortedRouteEntry | scripts/qwen36_moe_path_compare.py:144-174 | entry (t, k) of the sorted route is token t through its k-th expert |
| MoeRouting.UnsortedRouteIsReference | scripts/qwen36_moe_path_compare.py:175-199 | the unsorted route sends every token through its own experts |
| MoeRouting.ShapeMlpIsReference | scripts/qwen36_moe_path_compare.py:125-204 | every token of every batch gets the reference result, for every threshold, routing and argsort |
| MoeRouting.RoutedEntry | scripts/qwen36_moe_path_compare.py:201 | every entry of the routed sum is the inner product of the scores with the matching entries of the expert outputs |
| MoeRouting.ShapeMlpIsWeighted | scripts/qwen36_moe_path_compare.py:125-204 | every entry of the output is the score-weighted sum of the token's own expert outputs plus its shared expert |
| MoeRouting.ThresholdAndFusionDoNotMatter | scripts/qwen36_moe_path_compare.py:142-204 | neither the sorted threshold nor the fusion nor the tie-breaking of the sort changes the output |
| Admission.TurnsFormPrefix | scripts/benchmark_prompt_lookup_matrix.py:911-918 | in every reachable state the set turn events form an index prefix |
| Admission.RequestsAreAdmittedInOrder | scripts/benchmark_prompt_lookup_matrix.py:840-882 | in every run requests are sent in index order, each at most once, and request i+1 only after request i has headers or has failed; headers answer a request that was sent, and no request is settled twice |
| Admission.OneRequestInAdmission | scripts/benchmark_prompt_lookup_matrix.py:914-925 | two workers are never both between wake-up and release |
| Admission.RunsAreBounded | scripts/benchmark_prompt_lookup_matrix.py:905-937 | every run ends after at most six moves per worker |
| Admission.NoWorkerIsStranded | scripts/benchmark_prompt_lookup_matrix.py:879-882 | a run that cannot be continued has every worker finished, whichever requests failed |
| Admission.EveryRequestIsSettled | scripts/benchmark_prompt_lookup_matrix.py:905-937 | such a run has response headers or a failure for every request |
| Admission.AnyFatesCanBeMet | scripts/benchmark_prompt_lookup_matrix.py:840-882 | for every combination of requests that succeed, fail before sending or fail before headers some run ends with exactly those sent and exactly those failed |
| CheckpointNames.FileNameInjective | scripts/benchmark_prompt_lookup_matrix.py:2009-2023 | different batch keys have different checkpoint paths |
| CheckpointNames.DecimalValue | scripts/benchmark_prompt_lookup_matrix.py:2015-2023 | the number in a name is the decimal form of its value without leading zeros |
| CheckpointNames.NamesLookLikeThis | scripts/benchmark_prompt_lookup_matrix.py:2015-2034 | a concrete checkpoint name and its temporary name |
| CheckpointNames.InDirectoryIff | scripts/benchmark_prompt_lookup_matrix.py:2015-2047 | a checkpoint lies in the directory the loader lists exactly when the case id holds no path separator |
| CheckpointNames.TempNameIsNot | scripts/benchmark_prompt_lookup_matrix.py:2034-2047 | a temporary file never matches the loader's pattern |
| BenchmarkRun.SamePromptsInEpisode | scripts/benchmark_prompt_lookup_matrix.py:1772-1805 | producer and consumer of an episode ask the same prompts |
| BenchmarkRun.SeedsAgreeIff | scripts/benchmark_prompt_lookup_matrix.py:1780-1786 | with up to 1000 workers two measured requests share a seed exactly when worker and episode agree (batch, outside cross-request mode); a warm-up i shares seeds with episode 900 + i only |
| BenchmarkRun.BatchIsFresh | scripts/benchmark_prompt_lookup_matrix.py:1772-1805 | under an injective renderer two batches of a cell have a prompt in common only for the same worker and the same block of seeds |
| BenchmarkRun.MemoryReturnsEachOnce | scripts/benchmark_prompt_lookup_matrix.py:2042-2051 | rows and health rows in memory contain every batch on disk exactly once |
| BenchmarkRun.ReplaceAdds | scripts/benchmark_prompt_lookup_matrix.py:2034-2039 | the atomic rename adds one complete checkpoint and changes no other |
| BenchmarkRun.SeedStep | scripts/benchmark_prompt_lookup_matrix.py:1869-1984 | an episode counts as seeded only if its consumer is done or its producer has run just now; every finished batch keeps this |
| BenchmarkRun.Runner.WriteBatchCheckpoint | scripts/benchmark_prompt_lookup_matrix.py:2026-2039 | killed at any step, the write leaves every complete checkpoint as it was and never shows an incomplete one |
| BenchmarkRun.Runner.Load | scripts/benchmark_prompt_lookup_matrix.py:2042-2051 | after loading, memory is exactly what is on disk |
| BenchmarkRun.Runner.PrepareServer | scripts/benchmark_prompt_lookup_matrix.py:1878-1900 | a producer finds a cleared pool; a consumer finds its producer's run of the same prompts as the last event |
| BenchmarkRun.Runner.RunPendingBatch | scripts/benchmark_prompt_lookup_matrix.py:1869-1984 | one pass adds exactly its own batch to disk and memory, or dies leaving the disk consistent |
| BenchmarkRun.Runner.RunCell | scripts/benchmark_prompt_lookup_matrix.py:1853-1984 | a cell that completes has a checkpoint for every batch; a cell with nothing left to measure sends nothing |
| BenchmarkRun.Runner.RunVariant | scripts/benchmark_prompt_lookup_matrix.py:1814-1994 | no checkpointed batch is measured again; every measured consumer is seeded in the same server process and no producer is run again without need; every batch asks its own prompts, after all warm-ups of its cell, and under an injective renderer repeats prompts inside its episode only; a completed run returns every batch once; a complete directory is loaded without sending anything; enough steps suffice to complete |
| BenchmarkRun.Campaign | scripts/benchmark_prompt_lookup_matrix.py:1823-1860 | over any number of kills and resumes, a completed benchmark returns every planned batch exactly once and nothing else |
| ResolvePrompt.Resolve | scripts/benchmark_prompt_lookup_matrix.py:379-420 | for a non-decreasing counter no size is closer to the target than the one returned, the smaller one of two equally close neighbours is not exceeded, and it fails exactly when size 2^19 is still too small; at most 38 sizes are probed |
| Basics.TrimIsSlice | iron-bench/src/client.rs:234 | trimming cuts white space only, from both ends, and leaves none there |
| Utf8.DecodeOfEncode | iron-bench/src/client.rs:223 | every text is decoded from its UTF-8 form |
| Utf8.EncodeOfDecode | iron-bench/src/client.rs:223 | only the UTF-8 form of a text decodes to it |
| Utf8.DecodeAppend | iron-bench/src/client.rs:223 | after a valid prefix the rest decides whether the whole is valid, and the texts are joined |
| Utf8.PrefixDecodesIff | iron-bench/src/client.rs:223 | a proper prefix of a valid text is valid exactly when the byte after it is not in 0x80..0xBF |
| SseReader.SplitIsFaithful | iron-bench/src/client.rs:225-228 | the events, each followed by a blank line, and the leftover concatenate to the input, and the leftover holds no separator |
| SseReader.SplitIsUnique | iron-bench/src/client.rs:225-228 | this is the only such decomposition |
| SseReader.SplitAppend | iron-bench/src/client.rs:216-241 | splitting a longer text continues from the leftover of the shorter one |
| SseReader.LinesOfTerminated | iron-bench/src/client.rs:230 | a text of lines, each closed by a line feed or by a carriage return and a line feed, is read as exactly these lines |
| SseReader.LinePayloadLaw | iron-bench/src/client.rs:231-237 | a data line carries its trimmed text unless that is the end marker; any other line carries nothing |
| SseReader.PayloadsOfStream | iron-bench/src/client.rs:225-240 | from events of one data line each and the end marker the reader takes exactly the payloads |
| SseReader.StreamedResponse | iron-bench/src/client.rs:216-258 | such a response leaves one time per token, the characters of all tokens, and the last finish reason and usage |
| SseReader.ParseState.ProcessEvent | iron-bench/src/client.rs:107-130 | the parse state advances by one payload; a malformed payload changes nothing |
| SseReader.FoldCollects | iron-bench/src/client.rs:107-130 | after any payloads the token times are the clock readings of the tokens, the character count is that of all token contents, and the finish reason and usage are the last ones seen |
| SseReader.Reader.Push | iron-bench/src/client.rs:221-241 | after any chunk, buffer and parse state are those of one-shot splitting of everything read |
| SseReader.ReadResponse | iron-bench/src/client.rs:216-258 | the result depends only on the concatenated response, and reading fails exactly when some chunk is not valid UTF-8 by itself |
| SseReader.CutsBetweenCharacters | iron-bench/src/client.rs:221-224 | a valid response is read successfully exactly when no chunk boundary is followed by a byte in 0x80..0xBF |
| SseReader.CutInsideCharacterFails | iron-bench/src/client.rs:223 | a two-byte character in two chunks is rejected although the response is valid |
| SseReader.FoldKeepsTimes | iron-bench/src/client.rs:107-130 | chunk count, first token and token times agree after any payloads, and the times are sorted |
| SseReader.TimingsAddUp | iron-bench/src/client.rs:24-39 | time to first token is that of the first token time, or the whole without one; it and the generation time add up to the whole exactly when a token was seen or no time passed |
| Broadcast.WrappedLookup | mlx/src/broadcast.rs:31-35 | the wrapping subtraction reads the right-aligned dimension, and 1 past the left end |
| Broadcast.BroadcastShape | mlx/src/broadcast.rs:23-50 | the loop computes the join of the two shapes, or reports both shapes when there is none |
| Broadcast.JoinIsLeastUpperBound | mlx/src/broadcast.rs:14-16 | the result is the least shape both operands broadcast to, and inference fails exactly when there is no such shape |
| Broadcast.JoinLaws | mlx/src/broadcast.rs:23-50 | inference is commutative, idempotent and associative, failures included, and the scalar shape is its unit |
| IncidentStore.BackendIncidentStore.Upsert | ironmlx-app/Sources/IronMLXAppCore/BackendIncidentStore.swift:486-509 | the file becomes the longest time-ordered suffix within both limits; the store then returns exactly the records kept, by their ids, and by their text when codec and sanitising leave text alone; it is untouched exactly when no non-empty suffix fits; unique ids stay unique |
| IncidentStore.BackendIncidentStore.DroppedIff | ironmlx-app/Sources/IronMLXAppCore/BackendIncidentStore.swift:486-509 | with k records fitting, the new record is dropped if at least k merged records are newer and kept if at most k are not older; when no other has its time, it is dropped exactly when at least k are newer |
| IncidentStore.BackendIncidentStore.DroppedIffStable | ironmlx-app/Sources/IronMLXAppCore/BackendIncidentStore.swift:486-509 | with a stable sort, for every store: dropped exactly when the newer records and those of the same time behind it in the merged list number at least k |
| IncidentStore.OlderUpsertIsLost | ironmlx-app/Sources/IronMLXAppCore/BackendIncidentStore.swift:486-509 | in a store that retains one record, a second upsert with an earlier time reports success and its record is not there |
| IncidentStore.BackendIncidentStore.TrimToFit | ironmlx-app/Sources/IronMLXAppCore/BackendIncidentStore.swift:495-504 | the loop stops at the largest suffix that fits, or at one record |
| IncidentStore.BackendIncidentStore.RecordsAreNewest | ironmlx-app/Sources/IronMLXAppCore/BackendIncidentStore.swift:442-456 | a missing, oversized or unreadable file holds nothing; from any other the newest records come back in time order, sanitised, up to the retention |
| IncidentStore.BackendIncidentStore.OnlyTheNewestMatters | ironmlx-app/Sources/IronMLXAppCore/BackendIncidentStore.swift:501-507 | if fewer records never take more bytes, whenever some suffix fits the newest record alone fits |
| IncidentStore.BackendIncidentStore.Replay | ironmlx-app/Sources/IronMLXAppCore/BackendIncidentStore.swift:486-517 | ids that were unique stay unique over every history of upserts and clears |
| IncidentStore.MergedContents | ironmlx-app/Sources/IronMLXAppCore/BackendIncidentStore.swift:489-493 | merging adds the record, replaces only an older version of it, and keeps everything else |
| IncidentStore.PermutedIdsUnique | ironmlx-app/Sources/IronMLXAppCore/BackendIncidentStore.swift:494 | sorting keeps ids unique |
| IncidentStore.BackendIncidentStore.ExportData | ironmlx-app/Sources/IronMLXAppCore/BackendIncidentStore.swift:519-540 | the export is the longest newest-first prefix that fits, marked truncated exactly when something was dropped |
| IncidentStore.BackendIncidentStore.MatchingIsNewestFirst | ironmlx-app/Sources/IronMLXAppCore/BackendIncidentStore.swift:458-466 | queries return matching retained records newest first: all of them without a limit or with one that is not below the retention, else as many as the limit allows, at least one; no omitted match is newer than a returned one |
| ModelLists.NormalizeList | ironmlx-app/Sources/IronMLXAppCore/AppConfig.swift:303-316 | the loop with its seen set computes the normal form |
| ModelLists.FixedIffNormalForm | ironmlx-app/Sources/IronMLXAppCore/AppConfig.swift:574-581 | a list passes validation exactly when its entries are trimmed, non-empty and distinct; normalising is idempotent |
| ModelLists.NormalizeKeepsOrder | ironmlx-app/Sources/IronMLXAppCore/AppConfig.swift:303-316 | the normal form holds exactly the references that occur, in order of first occurrence |
| ModelLists.ReferenceIsSlice | ironmlx-app/Sources/IronMLXAppCore/AppConfig.swift:295-301 | a reference is the text between the white space at both ends; white space alone is none |
| ModelLists.RestoredIsPermutation | ironmlx-app/Sources/IronMLXAppCore/AppConfig.swift:214-224 | the restored list permutes the loaded one, a loaded default comes first, the others keep their order; without a loaded default it is the loaded list |
| ModelLists.AppConfig.RecordLoadedModel | ironmlx-app/Sources/IronMLXAppCore/AppConfig.swift:232-244 | the call is the RecordLoaded change: a blank reference changes nothing, otherwise the trimmed model is loaded once and becomes the default if asked |
| ModelLists.AppConfig.RecordUnloadedModel | ironmlx-app/Sources/IronMLXAppCore/AppConfig.swift:246-255 | the call is the RecordUnloaded change: the model leaves both lists, and whatever is no longer loaded is unpinned |
| ModelLists.AppConfig.ReplaceLoadedModels | ironmlx-app/Sources/IronMLXAppCore/AppConfig.swift:257-269 | the call is the ReplaceLoaded change: the loaded list is replaced, pins outside it are dropped, and the default falls back to the existing one or the first model |
| ModelLists.AppConfig.ReplacePinnedModels | ironmlx-app/Sources/IronMLXAppCore/AppConfig.swift:271-275 | the call is the ReplacePinned change: exactly the given models that are loaded are pinned |
| ModelLists.AppConfig.RecordPinnedModel | ironmlx-app/Sources/IronMLXAppCore/AppConfig.swift:277-293 | the call is the RecordPinned change: only a loaded model can be pinned; unpinning always works |
| ModelLists.ChangeEffects | ironmlx-app/Sources/IronMLXAppCore/AppConfig.swift:232-293 | for every mutator, exactly which references are loaded and pinned afterwards and what the default is |
| ModelLists.ChangeKeepsOrder | ironmlx-app/Sources/IronMLXAppCore/AppConfig.swift:232-293 | models a change does not touch keep their order, a new one comes last, replaced lists follow the given order, and a blank reference changes nothing |
| ModelLists.ChangeKeepsConsistent | ironmlx-app/Sources/IronMLXAppCore/AppConfig.swift:232-293 | every mutator keeps both lists in normal form and the pinned models loaded |
| ModelLists.HistoriesStayValid | ironmlx-app/Sources/IronMLXAppCore/AppConfig.swift:551-572 | from the default configuration the list checks of validation pass after every history of changes |
| ModelLists.ValidForeverIff | ironmlx-app/Sources/IronMLXAppCore/AppConfig.swift:566-571 | from a configuration that validates they pass after every history exactly when there is a loaded list or nothing is pinned |
| ModelLists.PinnedWithoutLoadedList | ironmlx-app/Sources/IronMLXAppCore/AppConfig.swift:566-571 | with "a" pinned and no loaded list the lists validate, and no longer do once "b" is loaded |

## Left out

- Floating point: rounding, NaN and infinity, the bf16 rounding error and the statistical error bounds of the
  tests are not modelled.
- The inference engine, the MLX bindings and the GPU path of the compression.
- Quantize.Quantize: negative dimensions of the i32 shape and overflow of the size computation.
- Quantize.Dequantize: a rotation context whose head dimension differs from that of the data, which a release
  build would process with a truncated sign vector.
- Pack.Pack3Bit: the debug assertion on index range; as in a release build, an index is masked to its low bits.
- MoeRouting.ShapeMlpIsReference: the router's softmax and top-k selection and the numerics of the kernel and of
  the activation are arbitrary row-wise functions; an additive bias inside a projection is not modelled.
- MoeRouting.BuildFusedGateUp: quantization modes other than affine, mxfp4 and mxfp8, which the loader refuses
  (`ironmlx/src/core/loader.rs:1114-1124`), and element types.
- Admission.NoWorkerIsStranded: exceptions raised before the `try` of `run_chat_completion`, such as a failure to
  encode the request.
- BenchmarkRun.Runner.RunVariant: waiting for the server to be idle, token hashing and the health delta; files in
  the checkpoint directory that the benchmark did not write; the order of the loaded rows, which the source sorts
  by file name; completion for plans with a path separator in a case id, for which the write may raise.
- BenchmarkRun.Runner.Load: file names are taken to lie in the checkpoint directory. A case id with a path separator
  names a file elsewhere, which the loader's pattern never lists (`CheckpointNames.InDirectoryIff`), or one whose
  directory is missing, where the write raises. File names are compared as strings: on a volume that ignores case,
  case ids that differ only in case would share a file.
- BenchmarkRun.Campaign: a power failure between the write of a temporary file and its arrival on disk, and
  eviction from the shared pool by the server; completion for plans with a path separator in a case id.
- ResolvePrompt.Resolve: the cache of token counts, which does not change the answers of a fixed counter.
- SseReader.ReadResponse: transport errors and HTTP error statuses, which end the request before or between chunks.
- IncidentStore.BackendIncidentStore.Upsert: failures of the JSON encoder and of the file system; a record is
  reduced to id, time and one text.
- IncidentStore.BackendIncidentStore.Replay: the codec is assumed to keep number, order and ids of the records;
  times may lose precision.
- ModelLists.NormalizeList: strings are compared code point by code point, where Swift compares them up to
  canonical equivalence; the set of white-space characters is arbitrary.
- The remaining checks of `validate`, and the load, save, migrate and recovery protocol of the configuration
  file, whose coordinator is not part of this model.
- Performance gates, reports, licence and release scripts, menus and other user interface.
