# Verified components of mupen64-rr-lua

This project models, in Dafny, six components that the emulator ships or builds on, and proves
their laws for all inputs, all runs or all reachable states.

1. **The Speex streaming resampler** (`lib/speex/speex_resampler.c`). `StreamSpec` says what a
   stream of samples means without any buffer: output `n` is the filter product of the window
   at `floor((p0 + n*num)/den)` with phase `(p0 + n*num) mod den`. `FilterDesign`, `Relayout`
   and `Processing` hold the loops over arrays, `Resampling.Resampler` the object with its flat
   history buffer. Any chunking of the input, any output room and either entry point give the
   outputs of one pass; filter changes move samples inside the same buffer without losing any.
2. **The mINI library** (`lib/ini.h`). `IniText` and `IniParser` are the string helpers and the
   line parser, `IniMap` the vector-plus-index map, `IniFile` reader and generator, `IniRewrite`
   the edit of one line. `IniLazy` states what the lazy writer makes of a file, `IniLazyWriter`
   is its loop with the iterator that steps back, `IniLazyProof`, `IniLazyText`, `IniOrder` and
   `IniKeyOrder` say what a reader finds afterwards and in which order, `IniBlanks` which empty
   lines and comments stay, `IniSettled`, `IniUnchanged` and `IniTwice` when a write leaves the
   lines of a file as they are. `IniMeaning` says character by character and line by line what
   parsing, reading and generating mean.
3. **The thread pool** (`lib/BS_thread_pool.hpp`) with the keyed de-duplication of
   `src/Views.Win32/ThreadPool.cpp`. `PoolModel` is a state machine whose steps are the sections
   under a mutex, the notifications between them and the tasks; `PoolSafety`, `PoolRuns` and
   `PoolProgress` prove safety over every interleaving and that the pool always drains.
4. **Streaming MD5** (`lib/md5.c`) against sections 3.1 to 3.5 of RFC 1321 (`Rfc1321`, `Md5`).
5. **GameShark cheats** (`src/Core/cheats.cpp`): compiler, executor and text format, with
   `split_string` of `lib/IOHelpers.cpp` (`SplitString`, `CheatCompiler`, `CheatExec`,
   `CheatText`). `CheatMeaning` says what a code does from its digits to the memory.
6. **The logger's queues** (`lib/spdlog/details`): the ring buffer, the blocking queue on top of
   it, and the wake-ups of its sleeping threads (`CircularQueue`, `BlockingQueue`,
   `QueueWakeups`).

`dafny verify dfyconfig.toml` checks everything.

## Reading the model

- Samples are an abstract type with abstract arithmetic (`StreamSpec.Ops`), conversion from and
  rounding to 16 bits included; index and rate arithmetic is exact, and 32-bit wrap-around and
  signed casts are written out where the source has them.
- Not every ratio that the resampler accepts can be used. The round-up to a multiple of 8 wraps
  to a filter without taps for the last seven scaled lengths (`RoundUpWraps`), and the sum of two
  phases wraps for some denominators above 2^31 (`PhaseSumWraps`). The source reports success for
  both; the model answers `Unusable`, and `DesignIsGood` shows that the condition `Usable` is
  exact.
- The stepping loop compares with the output length as a signed integer, so that lengths of 2^31
  and more give no room at all. `speex_resampler_process_float` then repeats an empty pass for
  ever, exactly unless `FloatEnds` holds; the model stops at the first such pass and says so, and
  `FloatHangs` shows that no number of further passes would change anything.
- The answers of the allocator are parameters. A run ends with the first error: an overflow
  return leaves new rates beside old advances, and a failed allocation leaves the resampler that
  only produces zeros.
- INI files are texts or sequences of lines. `GoodIni` are the structures whose names the format
  can carry: filed (trimmed, lower-case) and distinct names, sections without `;`, keys that do
  not start with `[` or `;` and, in plain mode, do not end in a backslash. `SectionLine` and
  `KeyTextExact` show that the conditions on `;` and on the backslash are exact.
- Some laws turn out to need a condition. A lazy write puts a wanted value into the file exactly
  unless the file holds another value for that key that starts with `\=`: such a value looks
  like space when the value column is searched (`LazyWriteReads`, witness `LazyValueLost`).
  Reading a file and writing it back changes the first of two lines that give a key different
  values (`OutdatedLineChanges`); `UnchangedFile` says for every file whether it stays as it is.
  New keys follow all keys of their section exactly when the file gives no more of them after
  the section's first stretch of lines (`KeysAtTheEnd`, witness `NewKeyBetween`). Writing the
  same data a second time changes nothing exactly when no line has a value that starts with
  `\=` and gets another one that does (`SecondWriteTidy`, witness `SecondWriteGrows`;
  `SecondWrite` also covers values with space around them). Comments stay whatever is written
  (`CommentsStay`).
- In the pool, `wait` has one caller at a time. The header of the app's wrapper says that a
  function is refused while another with its key is in the queue; in the code the key stays
  pending until that function has returned, and for good when it throws (`StuckForever`, with the
  run of `ThrownKeyStays`). The model follows the code.
- The comment above the blocking queue says that `enqueue_nowait` returns false when there is no
  room; the code overruns the oldest item. The model follows the code.
- The GS button is constant during one execution, and memory is an abstract bus.

## Model

| member | source | states |
|---|---|---|
| RateMath.ComputeGcd | lib/speex/speex_resampler.c:1154-1164 | the Euclidean loop returns a common divisor that every common divisor divides, and 0 only for (0, 0) |
| RateMath.ReducedRatio | lib/speex/speex_resampler.c:1185-1188 | dividing both rates by a common divisor keeps their ratio and keeps them positive |
| RateMath.ReducedIsCoprime | lib/speex/speex_resampler.c:1185-1188 | after division by the gcd the rates are coprime |
| RateMath.MultiplyFracExact | lib/speex/speex_resampler.c:612-622 | success returns exactly floor(value*num/den), and happens exactly when the remainder product and the true quotient both fit 32 bits |
| RateMath.RescaledBelow | lib/speex/speex_resampler.c:1192-1199 | a phase below the old denominator, rescaled, is below the new one |
| StreamSpec.OffsetInRange | lib/speex/speex_resampler.c:466-468 | the oversampled offset, computed with a wrapping product, stays below the oversampling factor |
| StreamSpec.OneShotAt | lib/speex/speex_resampler.c:352-387 | output n of the one-shot list is the filter product of the window at floor((p0+n*num)/den) with phase (p0+n*num) mod den, and its window fits |
| StreamSpec.DirectOutput | lib/speex/speex_resampler.c:352-378 | an output with the direct table is the running sum, from zero and in order, of the window samples weighed by the sinc values of tap j - taps/2 + 1 at the phase |
| StreamSpec.InterpolatedOutput | lib/speex/speex_resampler.c:464-500 | an output with the oversampled table blends four such sums over neighbouring entries around (j+1)*oversample - offset, offset and rest taken from the 32-bit product of phase and oversampling |
| StreamSpec.OutputShift | lib/speex/speex_resampler.c:929-939 | sliding the history down does not change any later output |
| StreamSpec.OneShotSplit | lib/speex/speex_resampler.c:929-939 | the one-shot outputs of a whole signal split at any call boundary |
| StreamSpec.AdvancesTrans | lib/speex/speex_resampler.c:985-1007 | two calls in a row equal one call over both inputs: same outputs, same remaining state, positions conserved |
| StreamSpec.AdvancesChunk | lib/speex/speex_resampler.c:985-1007 | a chunk of the remaining input extends the run so far |
| StreamSpec.AdvancesParked | lib/speex/speex_resampler.c:944-964 | draining parked samples is advancing over input already handed in |
| StreamSpec.NothingMissing | lib/speex/speex_resampler.c:352-387 | with all input taken and nothing parked, output n exists if and only if its window lies inside the signal |
| StreamSpec.RefitKeepsCentre | lib/speex/speex_resampler.c:757-811 | after a filter change the next output is centred on the same sample and sees the same signal at every distance, except for the oldest samples a shorter filter cannot reach |
| StreamSpec.RefitBalance | lib/speex/speex_resampler.c:757-811 | position minus parked samples minus half the filter is conserved by every filter change |
| StreamSpec.ShrinkThenGrow | lib/speex/speex_resampler.c:757-811 | shrinking and growing back restores position, parked count and history, the oldest half difference becoming zeros |
| FilterDesign.LengthLowerBound | lib/speex/speex_resampler.c:633-644 | the scaled filter is at least 8 taps and at least 8 times as long as a whole step |
| FilterDesign.SafeReduced | lib/speex/speex_resampler.c:1185-1188 | whether the round-up wraps depends on the ratio only, not on the way it is written |
| FilterDesign.DesignIsGood | lib/speex/speex_resampler.c:624-684 | a filter that the design part accepts has a multiple of 8 taps, a table that fits the allocation limit, steps of at most an eighth of its length and phase sums that do not wrap, if and only if the scaled length is below the last seven 32-bit values and the largest phase sum fits 32 bits |
| FilterDesign.RoundUpWraps | lib/speex/speex_resampler.c:644 | the ratio 0x3FFFFFFF/2 at quality 0 is accepted with a filter of no taps |
| FilterDesign.FilterChosen | lib/speex/speex_resampler.c:624-684 | an accepted filter has the base length of its quality, or with num > den the least multiple of 8 not below floor(base*num/den); the base oversampling halved once for each of 2, 4, 8, 16 times den below num, at least 1; and the direct table exactly when it is no longer than the oversampled one and within the limit |
| FilterDesign.LeastTable | lib/speex/speex_resampler.c:667-684 | where 32 bits hold both sizes, the table is no longer than any layout within the limit, and a tie goes to the direct one |
| FilterDesign.RefusedExactly | lib/speex/speex_resampler.c:641-684 | a filter is refused exactly when its length overflows on the way or neither table is within the limit |
| FilterDesign.FillTable | lib/speex/speex_resampler.c:696-731 | both table loops store the sinc value of every position the products look up |
| FilterDesign.DirectIndex | lib/speex/speex_resampler.c:354-360 | every index into the direct table is in range and holds the tap of that phase |
| FilterDesign.InterpolatedIndex | lib/speex/speex_resampler.c:480-486 | all four indices into the oversampled table are in range |
| FilterDesign.ProductDirect | lib/speex/speex_resampler.c:354-360 | the inner loop computes the phase product of the window |
| FilterDesign.ProductInterpolated | lib/speex/speex_resampler.c:466-491 | the four accumulators and their blend compute the phase product of the window |
| Relayout.GrowChannel | lib/speex/speex_resampler.c:763-794 | one slot moves up in the shared buffer and ends with the refitted samples, parked count and position; nothing outside the new slot is written |
| Relayout.ShrinkChannel | lib/speex/speex_resampler.c:803-812 | one slot is shortened in place, half the difference is parked |
| Relayout.GrowAll | lib/speex/speex_resampler.c:757-795 | relocating all channels, last first, overwrites no unread sample and refits every channel |
| Relayout.ShrinkAll | lib/speex/speex_resampler.c:796-813 | shrinking refits every channel |
| Processing.StepExactly | lib/speex/speex_resampler.c:380-386 | whole advance, fractional advance and carry add exactly num/den to the position if and only if the sum of the phases fits 32 bits |
| Processing.EveryStepExact | lib/speex/speex_resampler.c:380-386 | every phase steps exactly if and only if the largest one does |
| Processing.PhaseSumWraps | lib/speex/speex_resampler.c:380-386 | the ratio 0xFFFFFFFE/0xFFFFFFFF is accepted with 8 taps, and the step from its largest phase wraps and moves the position back |
| Processing.BasicResample | lib/speex/speex_resampler.c:338-392 | the stepping loop produces the one-shot outputs of its buffer, stops only at the end of input or of the room that the output length gives as a signed integer, makes none exactly when it starts there, and leaves the position num*outputs further |
| Processing.ProcessNative | lib/speex/speex_resampler.c:917-942 | the channel advances along the buffered input and the history slides down; with input it makes progress exactly when there is room or samples to skip |
| Processing.DrainParked | lib/speex/speex_resampler.c:944-964 | parked samples are consumed first, the rest stays parked, nothing else of the buffer changes; progress exactly when there is room or samples to skip |
| Processing.FeedChunks | lib/speex/speex_resampler.c:985-1007 | the input loop advances the channel chunk by chunk and ends exactly when there is room or all samples are to be skipped |
| Processing.ProcessFloat | lib/speex/speex_resampler.c:969-1011 | the whole call advances the channel; it stops with all input taken and nothing parked, or with the output full; the loop ends exactly when the output length is below 2^31, samples stay parked, or the read position lies behind all samples; otherwise it is left at the first fresh sample with nothing parked and no output |
| Processing.FloatHangs | lib/speex/speex_resampler.c:985-1007 | from such a state no number of passes takes a sample, makes an output or changes history, position or phase, so the condition of the loop stays true |
| Processing.IntPass | lib/speex/speex_resampler.c:1043-1087 | one pass of the integer loop takes input, makes output or drains parked samples |
| Processing.IntChunks | lib/speex/speex_resampler.c:1033-1087 | the integer loop advances the channel pass by pass and ends even when parked samples drain only partly |
| Processing.ProcessInt | lib/speex/speex_resampler.c:1016-1093 | the channel advances along the signal whose sample k is the converted k-th number, or zero for a null input; output k is the rounded k-th output; it stops with all input taken or the output full |
| Resampling.PhaseRescaled | lib/speex/speex_resampler.c:1192-1199 | a phase rescales exactly when its product fits 32 bits, to floor(frac*den/oldDen), already below the new denominator |
| Resampling.RoomAfter | lib/speex/speex_resampler.c:929-939 | processing keeps filt_len-1 + 2*magic + buffer_size within the slot |
| Resampling.RoomRefit | lib/speex/speex_resampler.c:738-811 | a filter change keeps it too |
| Resampling.StreamedIsOneShot | lib/speex/speex_resampler.c:969-1011 | from rest, output n is the filter product at floor(n*num/den) with phase n*num mod den over filt_len-1 zeros followed by the input, and none is missing once all input is taken |
| Resampling.Resampler.ProcessFloat | lib/speex/speex_resampler.c:969-1011 | every call keeps the invariant, advances its own channel and leaves the others and the filter alone; it returns exactly under the condition of the loop, and otherwise is stuck at the first fresh sample without output |
| Resampling.Resampler.ProcessInt | lib/speex/speex_resampler.c:1016-1093 | the same for the integer entry point: sample k of the signal is the converted k-th number or zero, output k the rounded k-th one |
| Resampling.Resampler.UpdateFilter | lib/speex/speex_resampler.c:624-826 | an allocation failure exactly when no layout exists or the allocator refuses what is missing, and then samples and positions are untouched; otherwise, if the filter has taps, it is the one of `FilterChosen` and every channel is the refitted former one (or silent before the first sample), and the resampler is valid exactly when the ratio is usable |
| Resampling.Resampler.SetQuality | lib/speex/speex_resampler.c:1214-1224 | invalid levels change nothing; any other answer is that of building the filter, which fails exactly for want of a layout or of memory and then leaves samples and positions alone; success refits every channel |
| Resampling.Resampler.RescalePhases | lib/speex/speex_resampler.c:1190-1201 | all phases are rescaled exactly or some product does not fit; the safety net never changes a value |
| Resampling.Resampler.SetRateFrac | lib/speex/speex_resampler.c:1166-1206 | for all 32-bit rates: a coprime ratio equal to the requested one; overflow exactly when some scaled phase does not fit 32 bits, otherwise the answer of building the filter; every channel is refitted at its rescaled phase, and a failure leaves samples and positions alone |
| Resampling.Resampler.SkipZeros | lib/speex/speex_resampler.c:1261-1267 | only the read positions move, to half a filter |
| Resampling.Resampler.Feed | lib/speex/speex_resampler.c:969-1093 | however input is cut into calls, whatever room each call gives and whichever entry point it uses, outputs and final state are those of one pass over the signal whose sample k is the k-th float or the converted k-th number; float calls deliver the outputs, integer calls the rounded ones; every call returns if rooms are below 2^31 or all calls are integer ones |
| Resampling.Resampler.Create | lib/speex/speex_resampler.c:834-905 | invalid arguments exactly as documented, otherwise the answer of building the filter for the reduced ratio from nothing; success gives a usable resampler at rest with the filter of `FilterChosen` |
| IniText.TrimIs | lib/ini.h:102-106 | trimming space around a trimmed text gives that text |
| IniText.ReplaceLoop | lib/ini.h:114-125 | the find-and-replace loop replaces the leftmost non-overlapping occurrences |
| IniText.EscapesAreReplacements | lib/ini.h:114-125 | escaping, unescaping and blanking `\=` are instances of that replacement |
| IniText.UnescapeEscape | lib/ini.h:114-125 | unescape(escape(k)) = k for every k |
| IniText.BlankConcat | lib/ini.h:303-305 | blanking acts on two parts separately unless a backslash meets a '=' at the seam |
| IniMeaning.NormMeans | lib/ini.h:101-113 | a name is filed without the blanks and characters 9 to 13 around it, with exactly the letters A to Z in lower case |
| IniMeaning.BlankOrComment | lib/ini.h:275-286 | a line of space says nothing, one whose first visible character is a `;` is a comment |
| IniMeaning.SectionMeans | lib/ini.h:287-302 | a section line names what lies between its `[` and the last `]` before a comment, trimmed |
| IniMeaning.KeyMeans | lib/ini.h:303-318 | any other line is split at the first `=` without a backslash before it, and unknown without one |
| IniParser.SectionLine | lib/ini.h:287-302 | a written section line reads back if and only if the name holds no ';' |
| IniParser.KeyLine | lib/ini.h:303-316 | any line of space, a key head and a rest parses to the unescaped key and the trimmed rest |
| IniParser.WrittenKeyLine | lib/ini.h:303-316 | a written key line reads back as its key and trimmed value |
| IniParser.KeyTextExact | lib/ini.h:303-316 | it does so if and only if the mode is pretty or the key does not end in a backslash |
| IniMap.LookupPut | lib/ini.h:198-214 | a stored value is seen under its key and nowhere else |
| IniMap.LookupErase | lib/ini.h:224-247 | erasing forgets exactly one key |
| IniMap.EraseKeepsOrder | lib/ini.h:224-247 | the other keys keep their order |
| IniMap.KeysPut | lib/ini.h:198-214 | a new key goes to the end, a known one stays where it is |
| IniMap.IndexedErase | lib/ini.h:233-243 | decrementing the later indices after an erase keeps index and vector exact inverses |
| IniMap.OrderedMap.AssignAt | lib/ini.h:166-176 | `operator[]` finds or appends the normalised key and keeps index and vector inverse |
| IniMap.OrderedMap.Get | lib/ini.h:177-189 | the value stored under the normalised key, or a blank one |
| IniMap.OrderedMap.Contains | lib/ini.h:190-197 | whether the normalised key is stored |
| IniMap.OrderedMap.SetAll | lib/ini.h:215-223 | entries are set one after the other, so later ones win |
| IniMap.OrderedMap.Clear | lib/ini.h:248-252 | nothing is stored any more |
| IniMap.OrderedMap.Set | lib/ini.h:198-214 | the pair behaves as an insertion-ordered map on normalised keys |
| IniMap.OrderedMap.Remove | lib/ini.h:224-247 | true exactly when the key was there; index and vector stay exact inverses without duplicates |
| IniFile.SplitLines | lib/ini.h:333-378 | the byte order mark is taken off, and the character loop splits the rest at LF, drops CR and NUL and keeps the last line |
| IniMeaning.LinesMean | lib/ini.h:345-376 | the lines are what lies between the LFs of the text without CR and NUL |
| IniMeaning.JoinedMeans | lib/ini.h:689-694 | lines are joined with CR LF |
| IniFile.SplitJoined | lib/ini.h:333-378 | splitting undoes joining with CR LF |
| IniFile.ReadStructure | lib/ini.h:391-425 | the reading loop computes the structure and exactly the lines worth keeping |
| IniMeaning.ReadMeans | lib/ini.h:391-425 | a section is there exactly when some line names it, and a key has the value of the last line that gives it one below such a line |
| IniMeaning.KeptMeans | lib/ini.h:415-422 | a line is handed on exactly unless it is unknown or a key line above all sections |
| IniFile.ReadKept | lib/ini.h:415-422 | dropping the other lines changes nothing for a reader |
| IniFile.WriteKeys | lib/ini.h:456-473 | the generator's key loop writes the joined key lines |
| IniFile.Generate | lib/ini.h:440-485 | the generator writes the joined lines of all sections in order |
| IniMeaning.SectionWritten | lib/ini.h:449-473 | a generated section is its name in brackets and one line per key in order, escaped key, separator of the mode and trimmed value |
| IniMeaning.GeneratedMore | lib/ini.h:474-484 | one more section follows the others, in a pretty file behind exactly one empty line |
| IniMeaning.GeneratedText | lib/ini.h:440-485 | the text is those lines joined with CR LF, without a break at the end |
| IniFile.ReadSection | lib/ini.h:391-425 | reading a written section appends it with trimmed values |
| IniFile.ReadGenerated | lib/ini.h:440-485 | reading generated lines appends every section, in order |
| IniFile.RoundTrip | lib/ini.h:333-485 | generating and reading back gives the same sections and keys in the same order, every value trimmed, in both modes |
| IniRewrite.LineSplits | lib/ini.h:303-316 | every key line that does not start like a section is space, a head and a rest that determine its key and value |
| IniRewrite.RewriteActsOnTail | lib/ini.h:556-568 | the lazy edit of a line changes only what follows the separating '=' |
| IniRewrite.RewriteSame | lib/ini.h:556-568 | the edit leaves a line as it is if and only if it puts back what it replaces, without a space in front |
| IniRewrite.RewrittenLine | lib/ini.h:556-568 | the edited line keeps its key, and carries the new value if and only if the old one did not start with `\=` |
| IniLazyWriter.CollectNewKeys | lib/ini.h:588-605 | the lines for keys that the file's section lacks, in the order of the data |
| IniLazyWriter.AppendSections | lib/ini.h:617-638 | the sections that the file lacks, appended in order |
| IniLazyWriter.VisitLine | lib/ini.h:508-585 | one visit of a line performs one step of the pass or asks to step back |
| IniLazyWriter.BackInside | lib/ini.h:513-519 | the iterator never steps back over the first line |
| IniLazyWriter.WriteLazily | lib/ini.h:496-640 | the loop with its two iterator decrements visits every line at least once and at most three times and writes what one pass computes |
| IniLazyProof.EditedKey | lib/ini.h:547-571 | what a reader finds in the line of a key that the data holds |
| IniLazyProof.ReadMissing | lib/ini.h:588-609 | reading the added lines sets exactly the missing keys of the open section |
| IniLazyProof.StepFollows | lib/ini.h:506-616 | every kept line preserves the relation between the file read so far, the output read so far and the data |
| IniLazyProof.EditedReads | lib/ini.h:506-616 | the edited part holds exactly the sections that file and data share, with all keys of the data |
| IniLazyProof.NewSectionsRead | lib/ini.h:617-638 | the appended part adds exactly the other sections of the data |
| IniLazyProof.LazyWriteReads | lib/ini.h:496-640 | reading a lazily written file gives exactly the sections and keys of the data, for removed, added and duplicated ones alike; a value is the wanted one, trimmed, if and only if the file did not hold a different value starting with `\=` |
| IniLazyProof.LazyValueLost | lib/ini.h:556-568 | writing `x` over the old value `\=` does not leave `x` |
| IniBlanks.CommentsSurvive | lib/ini.h:574-583 | with names the format can carry, the comment lines of the output are exactly those of the file, in order |
| IniLazyProof.CommentsStay | lib/ini.h:574-583 | for every data and every file, all comment lines of the file are in the output, in their order |
| IniBlanks.BlanksStay | lib/ini.h:574-638 | the empty lines and comments of the output are those of the kept lines in order, without the first empty line behind a section that the data lacks unless a section that it has comes between, then exactly the gaps before new sections |
| IniBlanks.NewKeysPlaced | lib/ini.h:586-613 | new keys are written directly behind the last section or key line, before the empty lines and comments that follow it |
| IniOrder.SectionOrder | lib/ini.h:496-640 | the sections after a lazy write are those of the file that the data has, in the order of the file, then the new ones in the order of the data |
| IniKeyOrder.KeyOrder | lib/ini.h:496-640 | the keys of a section after a lazy write: those of its first stretch in the file that the data has, the new ones in the order of the data, those that the file gives later; in a new section the order of the data |
| IniKeyOrder.KeysAtTheEnd | lib/ini.h:586-613 | the keys after a lazy write are those of the file that the data has followed by the new ones if and only if there are no new ones or the file gives no later ones that the data has |
| IniKeyOrder.NewKeyBetween | lib/ini.h:513-613 | over the file `[s]`, `a=1`, `[t]`, `[s]`, `b=2` a new key `c` of `s` is written between `a` and `b` |
| IniLazyText.WriteFile | lib/ini.h:648-696 | a missing file is generated, an existing one read, edited and joined, its byte order mark kept |
| IniLazyText.WriteThenRead | lib/ini.h:648-696 | the law of `LazyWriteReads` for the text of the file, written and read back character by character; the byte order mark is there afterwards if and only if it was before |
| IniSettled.SettledOutput | lib/ini.h:506-616 | a write of data with the sections and keys of the file gives line by line the file, each key line kept or edited to its value |
| IniUnchanged.UnchangedExactly | lib/ini.h:547-571 | kept lines come back unchanged if and only if every key line carries the value its key ends up with, or shows it where the edit would put it without adding a space |
| IniUnchanged.UnchangedFile | lib/ini.h:496-640 | the lines of any file come back unchanged if and only if the reader keeps them all and that holds |
| IniUnchanged.UnchangedIf | lib/ini.h:547-571 | they do when no two lines give the same key different values |
| IniUnchanged.UnchangedOrdinary | lib/ini.h:547-571 | for lines whose keys do not start like a section and whose values do not start with `\=` this is exact |
| IniUnchanged.OutdatedLineChanges | lib/ini.h:547-571 | the file `[s]`, `k=1`, `k=2` changes |
| IniTwice.RewriteTwice | lib/ini.h:556-568 | editing an edited line to the same value changes nothing if and only if the value does not start with `\=` and, in pretty mode, is empty or met a line with something behind its '=' |
| IniTwice.KeyRepeats | lib/ini.h:547-571 | the written line of a key is left alone by a second write if and only if its old value was the wanted one, or did not start with `\=` while the wanted one is trimmed, or the condition of `RewriteTwice` holds |
| IniTwice.AddedRepeats | lib/ini.h:588-605 | an added line is left alone by a second write if and only if its value is trimmed or does not start with `\=` |
| IniTwice.SecondWrite | lib/ini.h:496-640 | writing the same data over the result of a lazy write changes nothing if and only if every kept line and every added value is of that kind |
| IniTwice.SecondWriteTidy | lib/ini.h:496-640 | for trimmed values: if and only if no line has a value that starts with `\=` and gets another one that does |
| IniTwice.SecondWriteGrows | lib/ini.h:556-568 | writing `\=x` over the old value `\=` twice changes the line twice |
| PoolSafety.CountedStep | lib/BS_thread_pool.hpp:2000-2040 | tasks_running equals the number of starting or executing workers after every step |
| PoolSafety.OrderedStep | lib/BS_thread_pool.hpp:1417-1427 | tasks start in the order of submission, none is skipped |
| PoolSafety.KeptStep | lib/BS_thread_pool.hpp:2024-2039 | a started task is in one worker's hands or done, never lost or doubled |
| PoolSafety.WakefulStep | lib/BS_thread_pool.hpp:1417-1427 | while a worker sleeps, every queued task is matched by a woken worker or a notify still to come |
| PoolSafety.WaitfulStep | lib/BS_thread_pool.hpp:2002-2013 | the waiter never sleeps once no task runs and the queue is empty |
| PoolSafety.KeyedStep | src/Views.Win32/ThreadPool.cpp:15-39 | at most one task in flight per key, and pending keys are exactly those of tasks in flight and of functions that threw |
| PoolRuns.AnyThreadNext | lib/BS_thread_pool.hpp:1963-2044 | no interleaving is ruled out: every thread can take its next step, functions may return or throw, sleepers may wake for no reason, and anybody may submit |
| PoolRuns.OnePlace | lib/BS_thread_pool.hpp:1963-2044 | in every reachable state a submitted task is in exactly one of queue, one worker's hands or done, and started at most once in FIFO order |
| PoolRuns.RunningCounts | lib/BS_thread_pool.hpp:1887-1925 | the counter is the number of busy workers and never underflows at the head of the worker loop |
| PoolRuns.WaitReturns | lib/BS_thread_pool.hpp:1787-1807 | when wait returns, every task submitted so far is done |
| PoolRuns.WaitLooks | lib/BS_thread_pool.hpp:1787-1807 | wait, called or woken, returns exactly when nothing is queued and no worker starts or executes, sleeps otherwise, and changes nothing else |
| PoolRuns.NoLostWakeup | lib/BS_thread_pool.hpp:1796-1806 | in no reachable state does the waiter sleep while all is quiet, or a worker sleep over a queued task without a woken worker or pending notify |
| PoolRuns.OneTaskPerKey | src/Views.Win32/ThreadPool.cpp:23-30 | in every reachable state two tasks in flight with the same nonzero key are the same task |
| PoolRuns.PendingExactly | src/Views.Win32/ThreadPool.cpp:15-39 | a key is pending exactly while it has a task in flight or belongs to a function that threw |
| PoolRuns.AdmitExactly | src/Views.Win32/ThreadPool.cpp:15-30 | in every reachable state a submission changes nothing exactly when it has a key with a task in flight or a function that threw; otherwise exactly one task that was nowhere before, with that key, is in flight |
| PoolRuns.RefusedExactly | src/Views.Win32/ThreadPool.cpp:15-39 | after any run a submission is refused exactly when it has a key, and a function with that key is in flight or threw in the run |
| PoolRuns.DrainedPool | src/Views.Win32/ThreadPool.cpp:32-38 | a drained pool has no pending keys if and only if no function with a key threw in the run |
| PoolRuns.ThrownKeyStays | src/Views.Win32/ThreadPool.cpp:32-38 | a run of one thread whose only task throws ends drained with its key still pending |
| PoolRuns.StuckForever | src/Views.Win32/ThreadPool.cpp:32-38 | the key of a function that threw is refused for the rest of every run |
| PoolProgress.MeasureDrops | lib/BS_thread_pool.hpp:1995-2044 | every step that the pool's own threads owe leaves less to do |
| PoolProgress.PoolDrains | lib/BS_thread_pool.hpp:1963-2044 | however the owed steps of any reachable state are interleaved, they end after a bounded number; then every accepted task is done exactly once, all workers sleep and wait has returned |
| PoolProgress.SubmissionDone | src/Views.Win32/ThreadPool.cpp:15-39 | a submission that is not refused is done exactly once, whatever happens after it and however the steps owed then are interleaved |
| PoolProgress.SomeRunSettles | lib/BS_thread_pool.hpp:1995-2044 | from every state some run of owed steps leads to the end |
| Rfc1321.PaddedWhole | lib/md5.c:379-382 | padding and length fill whole blocks |
| Rfc1321.PaddedInjective | lib/md5.c:376-382 | different messages below 2^64 bits are padded differently |
| Rfc1321.BlocksMore | lib/md5.c:355-357 | processing one more block extends the fold over whole blocks |
| Rfc1321.DigestMeans | lib/md5.c:315-385 | the digest: from the four start values one application of the block function per block of the message followed by 0x80, the fewest zeros and the length in bits modulo 2^64, low-order bytes first; the last registers, low-order bytes first |
| Md5.CountAdds | lib/md5.c:337-340 | the two counter words with their carry hold the length in bits modulo 2^64 |
| Md5.OffsetIs | lib/md5.c:330 | the buffer offset taken from the low word is the length modulo 64 |
| Md5.State.constructor | lib/md5.c:315-323 | the state of an empty message |
| Md5.State.Append | lib/md5.c:325-362 | the message grows by the piece; counter, registers and buffer represent it; sizes up to zero change nothing |
| Md5.State.FillBuffer | lib/md5.c:343-353 | the initial partial block is buffered, and processed once it is full |
| Md5.State.Finish | lib/md5.c:364-385 | padding through the same append makes the padded message of RFC 1321, and the result is the digest of everything appended |
| Md5.Digest | lib/md5.c:325-385 | for every way of cutting a message into pieces that the signed size can carry together with the buffered bytes, the digest is that of the whole message |
| SplitString.SplitText | lib/IOHelpers.cpp:160-175 | the loop returns the pieces between leftmost non-overlapping delimiters |
| SplitString.JoinSplit | lib/IOHelpers.cpp:160-175 | joining undoes splitting, for every delimiter that is not empty |
| SplitString.SplitJoinExactly | lib/IOHelpers.cpp:160-175 | splitting undoes joining if and only if the delimiter occurs in no part and straddles no seam, for every delimiter that is not empty |
| SplitString.SplitJoin | lib/IOHelpers.cpp:160-175 | splitting into lines undoes joining lines |
| CheatCompiler.Compile | src/Core/cheats.cpp:17-151 | instructions, refusal or exception exactly as the lines demand, a repeat line taking the next line as its target whatever its opcode |
| CheatCompiler.CompileHeeded | src/Core/cheats.cpp:30-34 | compiling does not see skipped lines, inside a repeat or not |
| CheatMeaning.LineMeans | src/Core/cheats.cpp:36-145 | a line of hexadecimal digits: the number at columns 2 to 7, the number at columns 9 to 12 (one further without a space at 8), and the instruction that each of the opcodes 80, A0, 81, A1, 88, 89, D0 to D3 and 50 compiles to; any other is refused |
| CheatMeaning.RepeatMeans | src/Core/cheats.cpp:49-65 | a 50-line with count c, offset o and difference f before a target at a with value v: byte i goes to a + o*i with (v + f*i) mod 256, for exactly i < c |
| CheatMeaning.CodeMeans | src/Core/cheats.cpp:28-145 | a code of one-instruction lines compiles to these instructions in order |
| CheatMeaning.OtherLines | src/Core/cheats.cpp:30-42 | lines below 13 characters or starting with `$` or `-` compile to nothing, a line without a number for its address throws |
| CheatMeaning.NumberMeans | src/Core/cheats.cpp:38-47 | a number may have a sign and `0x`; a minus gives the complement in 32 bits |
| CheatMeaning.LeadingBlank | src/Core/cheats.cpp:38-47 | blanks before a number are skipped |
| CheatMeaning.TrailingText | src/Core/cheats.cpp:38-47 | a number ends before the first character that is no hexadecimal digit |
| CheatExec.RunCheat | src/Core/cheats.cpp:288-299 | the loop with its flag runs the instructions in order |
| CheatExec.RunCheats | src/Core/cheats.cpp:275-301 | exactly the cheats before the first inactive one are run, each on the memory that the one before it left |
| CheatExec.WriteRunsIff | src/Core/cheats.cpp:288-299 | a write runs if and only if every test in the unbroken run directly before it holds in the memory it finds; tests change nothing |
| CheatMeaning.TurnMeans | src/Core/cheats.cpp:288-299 | each turn of the loop on the bus: a write stores its byte or halfword at its address, 88 and 89 only while the button is pressed; a test compares what it loads with its value; after a failed test writes are held back until one has been skipped |
| CheatMeaning.TestThenWrite | src/Core/cheats.cpp:103-131 | a test and a write: the memory afterwards is the stored one if and only if the loaded value equals (D0, D1) or differs from (D2, D3) the wanted one |
| CheatMeaning.RunGuardedCode | src/Core/cheats.cpp:17-131 | the same for a code of two lines, from its digits to the memory |
| CheatExec.ExecSerial | src/Core/cheats.cpp:49-65 | a repeat is one byte write per count, of which only the first can be held back |
| CheatExec.CompileAgrees | src/Core/cheats.cpp:28-145 | compiling and executing any lines agrees with interpreting the lines directly |
| CheatExec.CheatMeansItsLines | src/Core/cheats.cpp:17-151 | a code that compiles does to memory what its lines say |
| CheatText.Serialize | src/Core/cheats.cpp:213-230 | the text of the list, which `TextMeans` spells out |
| CheatText.TextMeans | src/Core/cheats.cpp:213-230 | the text of a list is that of its parts one after the other, that of one cheat `--`, its name, a break, its code and a break |
| CheatText.ReadCheats | src/Core/cheats.cpp:177-211 | each entry of the text becomes an active cheat with its name, its code and what that compiles to, none when it is refused; nothing when the compiler throws |
| CheatText.BodyRead | src/Core/cheats.cpp:180-194 | lines that are no headers go to the code of the last entry, empty ones left out; before the first header they are ignored |
| CheatText.HeaderRead | src/Core/cheats.cpp:188-200 | a header starts an entry with its name and is also the last line of the code above it |
| CheatText.NamesRead | src/Core/cheats.cpp:180-200 | exactly the header lines give names, in order |
| CheatText.NamesSurviveExactly | src/Core/cheats.cpp:177-230 | the names read back are those written if and only if no name has a line break and no code line starts with `--` |
| CheatText.TextRoundTrip | src/Core/cheats.cpp:177-230 | then every code read back compiles to the same result, although it gained the next header and lost its empty lines |
| CircularQueue.CircularQ.constructor | lib/spdlog/details/circular_q.h:28-31 | an empty queue with one slot more than its capacity |
| CircularQueue.CircularQ.PushBack | lib/spdlog/details/circular_q.h:46-57 | refines a bounded queue for every capacity: a full one loses its oldest item and counts it, a disabled one ignores the item |
| CircularQueue.CircularQ.PopFront | lib/spdlog/details/circular_q.h:83 | drops the oldest item |
| CircularQueue.CircularQ.Size | lib/spdlog/details/circular_q.h:66-72 | the number of stored items, wrapped or not |
| CircularQueue.CircularQ.At | lib/spdlog/details/circular_q.h:76-79 | item i counted from the oldest |
| CircularQueue.CircularQ.Full | lib/spdlog/details/circular_q.h:87-93 | full exactly at capacity, never when disabled |
| CircularQueue.CircularQ.MoveFrom | lib/spdlog/details/circular_q.h:101-112 | the contents move and the source is disabled; a queue moved into itself is disabled |
| BlockingQueue.ApplyConserves | lib/spdlog/details/mpmc_blocking_q.h:31-90 | every call keeps accepted = departed + stored, in order and within capacity |
| BlockingQueue.OnlyNowaitOverruns | lib/spdlog/details/mpmc_blocking_q.h:31-64 | runs without enqueue_nowait overrun nothing |
| BlockingQueue.QueueRun | lib/spdlog/details/mpmc_blocking_q.h:31-90 | over any run accepted = dequeued + stored + overrun, and without enqueue_nowait consumers get exactly the accepted items in order |
| BlockingQueue.Queue.Enqueue | lib/spdlog/details/mpmc_blocking_q.h:31-38 | stores the item behind the others exactly when there is room, otherwise changes nothing |
| BlockingQueue.Queue.EnqueueNowait | lib/spdlog/details/mpmc_blocking_q.h:41-47 | the accepted items end in the new one, and the stored ones are the last of old contents and new item that fit |
| BlockingQueue.Queue.EnqueueIfRoom | lib/spdlog/details/mpmc_blocking_q.h:49-64 | stores the item behind the others when there is room, counts a discard otherwise, never overruns |
| BlockingQueue.Queue.Dequeue | lib/spdlog/details/mpmc_blocking_q.h:68-90 | hands out the oldest item and keeps the others in order, or nothing when empty |
| BlockingQueue.Queue.OverrunCounter | lib/spdlog/details/mpmc_blocking_q.h:150-153 | the counter is the number of items that were overrun |
| QueueWakeups.CountsTheQueue | lib/spdlog/details/mpmc_blocking_q.h:31-90 | the counted state follows the items of the queue through every look; an accepted item owes the consumers a notification, a dequeued one the producers |
| QueueWakeups.SleepersCounted | lib/spdlog/details/mpmc_blocking_q.h:31-90 | a producer without room and a consumer without item go to sleep, a notification wakes one sleeper |
| QueueWakeups.RunMatched | lib/spdlog/details/mpmc_blocking_q.h:31-90 | over any run, while a consumer sleeps every stored item, and while a producer sleeps every free slot, is matched by a woken thread or a notify still to come |
| QueueWakeups.NoLostWakeup | lib/spdlog/details/mpmc_blocking_q.h:31-90 | once notifications are given and woken threads have looked, consumers sleep only at an empty queue and producers only at a full one |

## Left out

- Resampler: floating-point contents (sinc, cutoff, cubic coefficients, the rounding of one sample), the double-precision accumulators, strides and the interleaved wrappers; stored advances are computed from the rates.
- Resampler: `speex_resampler_reset_mem`, which clears a flat prefix of the buffer instead of each channel's slot, and the calls after a failed one or after a ratio that cannot be used.
- INI: opening files and copying of maps; case folding covers ASCII letters.
- Thread pool: pause, priorities, purge, reset, several concurrent waiters, timed waits, shutdown and the futures of submitted tasks.
- MD5: the 64 steps of the block function, which is a parameter.
- Md5.State.Append: takes at most as many bytes as fit a signed 32-bit integer together with the buffered ones, because the sum in the source overflows beyond that.
- Resampling.Resampler.UpdateFilter: for a ratio whose round-up wraps to a filter without taps the source goes on and reports success, while the model ends with `Unusable` and says nothing about the channels; the same holds for `SetRateFrac`, `SetQuality` and `Create`. No call is modelled after an `Unusable` answer.
- Cheats: the layers of `cheat_stack`, the host list behind its mutex and file access; wide characters other than ASCII count as neither blanks nor digits in numbers, and the byte order of console memory stays abstract.
- Queues: counter resets, and a ring whose capacity is the largest machine integer.
- Everything else of the emulator: core, user interface, plugins, Lua, logging formats and configuration, which is I/O, foreign calls or plain transcription.
