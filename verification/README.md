# UniBlake: a Dafny model and its proofs

UniBlake is a BLAKE2b library (RFC 7693). This project models its streaming state machine, its
scalar and two-lane NEON compression kernels, the reference implementation it ships for comparison,
the repeated-prefix batch calls, the threaded batch and the libsodium adapter, and proves what they
compute.

`dafny verify dfyconfig.toml` checks everything.

## How it is built

The stack has four layers.

1. `Rfc7693` is the standard: G, the rounds, F, and the digest of section 3.3. A digest is defined
   for any block function `f` (`DigestFrom`) and BLAKE2b is the instance at `Compress`. Everything
   above the kernels is proved for every `f`, because the library says a kernel can be replaced.
   `Quads` rewrites a round as eight independent Gs; `Adder`, `Roots` and `KnownAnswer` check the standard
   as written here against things outside it.
2. `Spec`, `Params`, `Calls` and `Batch` say what each call does to the value of a state
   (`State.Snapshot`), including the bytes of the pending block that no call reads again, every error
   code and the order of the checks.
3. `Scalar`, `Neon`, `Core`, `Prefix`, `Sodium` and `Reference` are the C code as methods on objects
   and arrays, proved equal to layer 2 on every input.
4. `Streaming`, `Digests`, `Permutation`, `Cost`, `Runs`, `Ideal` and `Threads` prove what the
   library promises about layer 2.

The main results:

- `Ideal.LibraryIsIdeal`: on any program of calls over any number of states, every return code and
  every byte emitted is that of an ideal library whose states are only "a starting hash and the data
  since". The ideal library emits section 3.3 digests of that data.
- `Scalar.CompressBlock`, `Neon.NeonBlock` and `Reference.CompressBlock` all compute the function of
  section 3.2 on all inputs.
- `Threads.ThreadedIsSerial`: for every thread count, threshold, pattern of thread-start failures and
  interleaving, the threaded batch leaves the buffer and the code of the serial call.
  `Threads.RunsEnd` bounds every run and `Threads.Returns` takes any state a run can be in to a return.
- `KnownAnswer.PublishedAnswer`: the standard as written here gives a digest its authors published, a
  keyed one over two blocks; `Adder.AddIsAddition`, `Roots.IvIsRoot`, `Params.PackedIsLaidOut` and
  `Rfc7693.TwoBlocks` hold its parts to what they stand for.
- `Permutation.UnRoundsUndoes`: for a fixed message the rounds are a bijection, with its inverse.

Words are 64-bit vectors and `Words.Add` is the solver's own 64-bit adder. Counters,
lengths and positions are integers, reduced modulo 2^64 where the C arithmetic wraps. A pointer with
a length is an array with an offset, or NULL; `State.Input` is its value. The ghost field `work` of a
state object counts the blocks it has compressed.

The documentation and the code part in one place: `docs/INTERNALS.md:762` gives the cost of an n-byte
stream as ceil((n + 1) / 128) compressions, and the code takes one fewer at every positive multiple of
128 (`Cost.DocumentedCost`).

Three things seen on the way, about the code:

- One init does not bound the finals of a state. `docs/GUIDE.md:139` says a final consumes its state, and
  that holds until the state is initialised again or a live state is copied over it
  (`Runs.RevivedExactly`); `Runs.CopyRevives` is a run that finalizes one state twice after one init.
- The adapter's staged keyed init does not switch wiping on, while `ub_init_key` does
  (`Sodium.ZeroTagsAreInitKey`).
- The reference does not refuse an update after its final, as the library does; the finalization flag
  then goes on into every block (`Reference.Update`).

## Model

| member | source | states |
|---|---|---|
| Ideal.LibraryIsIdeal | include/uniblake/uniblake.h:12-15 | every legal run from nothing initialised, over any states and any calls, shows the return codes and digests of the ideal library, whose states are only the data absorbed |
| Ideal.RunRefines | src/core.c:130-230 | the same from any store whose states stand for ideal ones |
| Ideal.CallRefines | src/core.c:51-230 | each single call, in any order of checks and errors, agrees with the ideal call and keeps the correspondence |
| Ideal.InitKeyRefines | src/core.c:105-125 | keyed init opens on the section 3.3 state with the padded key block absorbed, or fails with the same code and no effect |
| Ideal.TailRefines | src/prefix.c:44-58 | a tail digest is the digest of the absorbed data followed by the tail, and is refused exactly for the ideal reasons |
| Ideal.BatchRefines | src/prefix.c:72-107 | a batch emits the chosen slice of the digest of the absorbed data followed by each little-endian counter, or nothing, and its code does not depend on how many are asked for |
| Streaming.AbsorbRepresents | src/core.c:130-153 | absorbing keeps the state canonical for the concatenation: chaining value, counter modulo 2^128 and pending bytes |
| Streaming.FinalMatches | src/core.c:174-187 | a state that represents a message finalizes to the section 3.3 digest of that message |
| Streaming.ChunkingNeverMatters | src/core.c:127-153 | any cutting of a message into updates, empty ones included, ends in the digest of the whole |
| Streaming.Geometry | src/core.c:137-151 | after n > 0 bytes exactly ((n-1) mod 128) + 1 wait, the counter is 128 times the blocks compressed, and after finalization it is n, modulo 2^128 |
| Streaming.Canonical | src/internal.h:30-53 | two live states that have absorbed the same data from the same start are equal but for digest length, wipe setting and the bytes past `buflen` |
| Spec.BatchingKeepsMeaning | src/compress.c:156-163 | compressing a + b blocks in one kernel call is compressing a, then b, counter included |
| Spec.CounterAdvances | src/core.c:43-46 | adding with carry to the two words is adding to the 128-bit count they hold |
| Spec.OneMoreBlock | src/compress.c:159-162 | one turn of the kernel loop, counter before block, extends the chain by one block |
| Spec.ChainCongruent | src/internal.h:72-76 | a chain depends on its counter only modulo 2^128 and only on the blocks it covers |
| Spec.AbsorbLong | src/core.c:137-149 | filling and compressing the pending block and handing the rest to the kernel in one call is absorbing the data as one stream, stale bytes included |
| Spec.AbsorbShort | src/core.c:150-152 | data that fits the pending block is only copied |
| Spec.WipingClearsSecrets | src/core.c:189-199 | a wiping final clears the chaining value and the block and leaves flag, counter, lengths and digest as they are without wiping |
| Digests.StreamedDigest | src/core.c:105-201 | init with or without a key, any updates, final: the RFC 7693 digest, or UB_E_OUTCAP and nothing |
| Digests.HashIsBlake2b | src/core.c:232-258 | for every argument the one-shot call is RFC 7693 BLAKE2b, clamped to 64 bytes, NULL of length 0 read as empty, and it refuses exactly a NULL output, capacity 0, NULL with a length and keys above 64 |
| Digests.NullIsEmpty | src/core.c:243-253 | past the argument checks, NULL of length 0 gives what an empty key or message gives |
| Digests.InitsStart | src/core.c:51-103 | `ub_init_param` starts exactly the records in range, and `ub_init_personal` the sequential record with the tag in its personalization: nothing absorbed, the digest length asked for, wiping off; otherwise nothing changes |
| Digests.WipesAsAsked | src/core.c:189-223 | what `ub_set_wipe` asked of a live state is what its final does after any updates: chaining value and block are zero, or the real ones stay, with the same digest |
| Digests.InitKeyRepresents | src/core.c:105-125 | keyed init represents the padded key block over the section 3.3 starting state |
| KnownAnswer.PublishedAnswer | tests/vendor/kat_blake2b.h:2077-2082 | BLAKE2b-512 under the key 00..3f of 00..7f is, row by row, the published digest |
| Adder.AddIsAddition | src/compress.c:10-16 | word addition is addition of unsigned values modulo 2^64 |
| Roots.IvIsRoot | src/const.c:7-11 | word i of the IV is the first 64 bits of the fraction of the square root of the i-th prime |
| Rfc7693.OneBlock | src/core.c:180-187 | a message of up to one block is one compression of the padded block, its length as counter, under the mask |
| Rfc7693.TwoBlocks | src/compress.c:156-163 | with one block before it, that block is compressed first with counter 128 and no mask |
| Permutation.UnRoundsUndoes | src/compress.c:53-148 | for fixed message words any number of rounds is a bijection of the working vectors, undone by an explicit inverse |
| Permutation.UnGUndoes | src/compress.c:8-18 | each mixing step is a bijection of its four words |
| Scalar.GK | src/compress.c:8-18 | the eight assignments are G at four indices of the working vector and touch nothing else |
| Scalar.TwelveRounds | src/compress.c:53-148 | the ninety-six literal steps are twelve rounds under the schedules of section 2.7 |
| Scalar.CompressBlock | src/compress.c:42-151 | one block computes the compression of section 3.2 from the state, both counter words and the mask |
| Scalar.UbCompress | src/compress.c:156-163 | n blocks give the chain of n blocks and advance the counter by 128 n; no other field changes |
| Scalar.UbCompressFinal | src/compress.c:168-170 | the final block is compressed under the all-ones mask without counting |
| Tables.SigmaRows | src/const.c:12-25 | row r of the twelve-row table is the schedule section 2.7 prescribes for round r |
| Neon.Rot24Lanes | backends/compress_neon.c:46-49 | the byte-table permutation rotates each lane right by 24 |
| Neon.Rot16Lanes | backends/compress_neon.c:50-53 | the byte-table permutation rotates each lane right by 16 |
| Neon.Rot32Lanes | backends/compress_neon.c:43-45 | exchanging 32-bit halves rotates each lane by 32 |
| Neon.Rot63Lanes | backends/compress_neon.c:54-56 | shift left and shift-right-insert rotate each lane right by 63 |
| Neon.LaneG1 | backends/compress_neon.c:58-61 | both lanes take the first half of G |
| Neon.LaneG2 | backends/compress_neon.c:62-65 | both lanes take the second half of G |
| Neon.Diag | backends/compress_neon.c:68-73 | after diagonalisation every lane down the rows holds one diagonal |
| Neon.Undiag | backends/compress_neon.c:74-79 | undiagonalisation returns the diagonals to their places |
| Neon.ColumnStep | backends/compress_neon.c:103-107 | with its gathered message pairs the first half round is the column step |
| Neon.DiagonalStep | backends/compress_neon.c:108-113 | the second half round is the diagonal step |
| Neon.NeonBlock | backends/compress_neon.c:83-123 | one block computes the same compression as the scalar kernel, for every state, block and mask |
| Neon.UbCompress | backends/compress_neon.c:125-131 | the kernel has the contract of the scalar one |
| Core.InitParam | src/core.c:51-84 | validates, then every field is the parameter block's; on an error nothing changes |
| Core.Serialize | src/core.c:65-78 | the bytes written at their offsets are the packed structure of the reference |
| Core.InitKey | src/core.c:105-125 | the keyed init of the specification, in place |
| Core.InitPersonal | src/core.c:98-103 | the personalized init, NULL meaning no tag |
| Core.Update | src/core.c:130-153 | the whole new state, stale bytes included, the code, and the exact number of compressions |
| Core.Flush | src/core.c:138-149 | the pending block and then every whole block but the last, in two kernel calls |
| Core.CompressWhole | src/core.c:143-148 | every whole block but the last goes to the kernel in one call, and none does if that leaves none |
| Core.Final | src/core.c:174-201 | exactly the digest bytes are written, one compression is spent, secrets are cleared if asked; on an error nothing changes |
| Core.SetWipe | src/core.c:218-223 | sets the flag of a live state and refuses a finalized one |
| Core.Copy | src/core.c:226-230 | every field and every byte is copied, also onto itself |
| Core.Hash | src/core.c:232-258 | the one-shot call of the specification, writing only the digest |
| Params.PackedIsLaidOut | src/core.c:65-78 | the serialization is the one block with every field at its literal offset and zeros between |
| Params.StartingWords | src/core.c:80-82 | each word of the starting state from the fields that lie under it |
| Params.ParamRecovered | src/core.c:65-82 | every field of a parameter record is recovered from the starting state, so distinct records start distinct states |
| Params.PackedOfUnpacked | src/core.c:65-78 | a 64-byte block is the serialization of a record exactly when its reserved bytes are zero |
| Params.UnpackedOfPacked | src/core.c:65-78 | decoding a serialized record gives the record |
| Params.SequentialStart | src/core.c:38-40 | sequential mode starts from the initial state of section 3.3 |
| Prefix.PrefixCheck | src/prefix.c:6-21 | the verdict of the specification, changing nothing |
| Prefix.Finish | src/prefix.c:31-42 | on a private copy, one compression, the digest of state and tail |
| Prefix.HashTail | src/prefix.c:44-58 | codes in order, the digest written, the shared state untouched, one compression |
| Prefix.EncTail | src/prefix.c:62-64 | the counter least significant byte first |
| Prefix.HashN | src/prefix.c:72-107 | every slice in its slot and every other byte unchanged, or nothing at all; n compressions; the code is decided before the loop |
| Prefix.OneDigest | src/prefix.c:99-103 | once the up-front checks pass the per-digest call cannot fail |
| Batch.CheckIsExact | src/prefix.c:6-21 | a live state is accepted exactly when copy, update and final cost one compression for every tail up to the bound |
| Batch.TailMatchesSlowPath | src/prefix.c:44-58 | an accepted tail gives the digest of the slow path and of the concatenation; a tail the slow path takes is refused exactly when it would cost more than one compression |
| Batch.SliceMeaning | src/prefix.c:95-106 | slice i is bytes [off, off+len) of the digest of the prefix followed by counter first + i modulo 2^64 |
| Batch.FinishAccepts | src/prefix.c:31-37 | `finish` asks in its own order and accepts exactly what its callers accept, with the same digest |
| Batch.SlotBytes | src/prefix.c:95-106 | after a batch, bytes [i*stride, i*stride + len) are bytes [off, off+len) of the digest of prefix and counter first + i |
| Batch.GapBytes | src/prefix.c:95-106 | bytes before the first slot, in a gap behind a slot or past the last row keep their values |
| Batch.NoOverlap | include/uniblake/prefix.h:50-52 | no output byte belongs to two slices |
| Batch.FilledUnique | src/prefix.c:95-106 | which slices are done fixes every byte of the buffer |
| Cost.ChunkingCostsNothing | src/core.c:137-151 | any cutting of a stream compresses exactly floor((n-1)/128) blocks before the last |
| Cost.StreamCostIsBlockCount | src/core.c:144-148 | a streamed hash of n bytes costs max(1, ceil(n/128)) compressions |
| Cost.DocumentedCost | docs/INTERNALS.md:762 | the documented formula is one too many exactly at positive multiples of 128 |
| Cost.SharedPrefixSaves | src/prefix.c:13-20 | m accepted tails over a P-byte prefix save (m-1) * floor((P-1)/128) compressions against m streams |
| Runs.AlikeRunsSeenSame | src/core.c:203-223 | runs that differ only in wipe settings, from stores that differ only in unread bytes, are seen the same at every call |
| Runs.AlikeOnState | src/internal.h:33 | no call tells apart states that agree on the live fields and the pending bytes |
| Runs.OneFinalPerLife | src/core.c:174-199 | until revived, a finalized state, wiped or not, refuses every update, final, setting, check, tail and batch |
| Runs.RevivedExactly | src/core.c:226-230 | a finalized state becomes live exactly by an init whose lengths are in range or a copy of a live state |
| Runs.CopyRevives | src/core.c:226-230 | a run from nothing in which one state is initialised once and finalized twice, every call succeeding |
| Runs.ErrorsChangeNothing | src/core.c:51-223 | a call that returns an error changes no state and emits no byte |
| Threads.ThreadedIsSerial | backends/hash_n_threads.c:41-86 | for every thread count, threshold, failure pattern and interleaving the output and the code are those of the serial call |
| Threads.ReturnsSerialResult | backends/hash_n_threads.c:41-86 | a run that returns has computed every digest exactly once |
| Threads.StepHolds | backends/hash_n_threads.c:59-85 | every step of every thread keeps the invariant |
| Threads.StepDescends | backends/hash_n_threads.c:67-85 | every step brings the return nearer |
| Threads.RunsEnd | backends/hash_n_threads.c:67-85 | no run is longer than the measure of its start |
| Threads.Returns | backends/hash_n_threads.c:67-85 | from every state a run can be in, some continuation returns |
| Threads.ThreadedReturns | backends/hash_n_threads.c:41-86 | every threaded call has an outcome |
| Threads.SomethingEnabled | backends/hash_n_threads.c:76-77 | short of returning some thread can move: the joins do not deadlock |
| Threads.AtClosed | backends/hash_n_threads.c:52-64 | span i starts at i * floor(n / threads) plus one for each earlier span that takes one more |
| Threads.OneOwner | backends/hash_n_threads.c:52-65 | every index belongs to exactly one span |
| Threads.SpansWriteApart | backends/hash_n_threads.c:59-65 | no two spans write the same byte |
| Threads.SpanSlice | backends/hash_n_threads.c:61-62 | digest k of a span is digest `at` + k of the batch, in the same place, counter wrap included |
| Threads.AssignSpans | backends/hash_n_threads.c:52-65 | the loop assigns every span before any thread starts |
| Reference.CompressBlock | compat/ref/ref_blake2b.c:177-216 | the table-driven rounds compute the compression of section 3.2 when the second flag word is zero, and otherwise the same with that word in the last place of the vector |
| Reference.Update | compat/ref/ref_blake2b.c:221-246 | block by block, the state of an unfinalized reference ends exactly as the library's, stale bytes included; with a flag set, as the library's would with that flag in every block |
| Reference.DrainBlocks | compat/ref/ref_blake2b.c:235-240 | the loop compresses every block but the last |
| Reference.Final | compat/ref/ref_blake2b.c:248-270 | the library's final without wiping |
| Reference.PackStruct | compat/ref/ref_blake2b.c:98-117 | the packed structure written member by member has every field at its literal offset |
| Reference.InitFrom | compat/ref/ref_blake2b.c:81-94 | from the same record, each packing it for itself, the two starting states are equal |
| Reference.InitKey | compat/ref/ref_blake2b.c:120-151 | the library's keyed init but for the wipe flag, refusing keylen 0 and NULL |
| Reference.UpdateBoth | compat/ref/ref_blake2b.c:221-246 | the library's and the reference's update, run side by side on any chunks, keep `h`, `t`, `buflen`, `outlen` and every buffer byte equal |
| Reference.Lockstep | compat/ref/ref_blake2b.c:221-270 | after any such updates both finals return the same code and write the same digest, and without wiping the final states are equal too |
| Streaming.AbsorbAllIgnoresWipe | src/core.c:218-223 | over any updates the wipe setting changes neither the rest of the state nor the digest |
| Reference.Hash | compat/ref/ref_blake2b.c:273-300 | the one-shot reference emits the RFC 7693 digest and refuses exactly what it cannot hash as asked |
| Sodium.InitSaltPersonalInPlace | compat/ub_sodium.h:34-63 | the staged init of the specification, in place; a NULL state is refused |
| Sodium.ZeroTagsAreInitKey | compat/ub_sodium.h:34-63 | with all-zero tags the codes agree with the keyed init and the states differ only in the wipe flag |
| Sodium.StagedRepresents | compat/ub_sodium.h:49-62 | with any tags and any key, NULL included, the state represents the padded key over the start of the record with salt and personalization in their own fields; with no key the record is read back from it |
| Sodium.StagedRefuses | compat/ub_sodium.h:34-63 | it refuses, and leaves the state alone, exactly when a length or the key is out of range |
| State.WroteMeans | src/core.c:186-187 | a digest written is every byte of its window and no other |
| Words.FromLeOfLeBytes | src/prefix.c:60-64 | a counter that fits its width is recovered from its bytes |
| Words.LoadOfStore | src/internal.h:159-169 | storing a word and loading it back gives the word |

## Left out

- The AVX2 kernel: its rounds are in vendored macros that are not part of this model.
- The error handler and its messages; only the return codes are modelled. `ub_param_init` on NULL only reports.
- `ub_state_size`, `ub_state_align`, structure padding and data models.
- Whether a compiler keeps the wiping, and copies in registers or on the stack; wiping is zeroing. The wipe-free build (`UB_WIPE=0`) is the model with the flag never set.
- Kernel selection by macro or at run time: either kernel meets the contract `Core` relies on.
- Tree hashing: the reference's `last_node` flag stays false, so its second flag word stays zero.
- Pthreads themselves: creating is a step that may fail, joining a step that waits, and a digest with its copy to the output is one step of its thread.
- Threads.AssignSpans: covers the partition loop; the worker, join and pickup loops are steps of the machine, which works on values rather than on objects.
- Sodium.InitSaltPersonalInPlace: asks for a key where the source would copy from one without checking the pointer.
- Prefix.HashN: asks for an output buffer that holds every slice written; the C function is not told its size.
- Caller buffers that overlap the state, and lengths beyond what an address space holds.
- The C++ and RFC-named headers, the probe, benchmarks, tools and test programs: forwarding, measuring and reporting.
