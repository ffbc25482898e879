# csdr: stream driver and spectral noise gate

This project models two parts of csdr, a toolkit of streaming
software-defined-radio programs, and proves properties of the models.

- **The stream driver** (`Command::runModule` in `src/apps/csdr/commands.cpp`).
  It waits on standard input and an optional control fifo with `select()`.
  A fifo line goes to `processFifoData()` without its last character.
  Input bytes are read into a ring buffer behind a carry of `read_over` bytes,
  and the buffer is advanced by whole samples only.
  In synchronous mode the stage is then drained.
  The same file's `FftCommand::isPowerOf2` and the report-every-N counter of
  the measurement commands are modelled too.
- **The spectral noise gate** (`NoiseFilter<T>` in `src/lib/noisefilter.cpp`).
  The constructor clamps the FFT size F, the overlap O, the half-window W and
  the latency.
  `apply` copies up to F - O samples into the FFT input.
  It measures the bin levels, drops the strongest bin and tracks a smoothed
  power.
  It gates every bin against the smoothed power times the threshold, and
  weights every bin by the open gates in a circular window of 2W bins.
  It zeroes bins whose window has no open gate.
  It crossfades the first O samples of the inverse transform with the tail
  saved from the previous block, saves the new tail and hands out F - O
  samples.

The files are:

- `ringbuffer.dfy`: the ring buffer, described by what the driver relies on.
  Its own source is not part of this model.
- `commands.dfy`: the driver, the power-of-two check and the report counter.
- `noisefilter.dfy`: the noise gate.
- `arith.dfy`: a few multiplication and remainder facts.

The driver runs over a finite script of rounds. Each round is one pass of
`while (run)` and records:

- what `select()` reported;
- the line `fgets()` returned;
- how many bytes `read()` hands over, or that it fails;
- whether the fifo is at end-of-file.

The bytes come from one input stream. Because of that, `RunModule` can state
that the committed elements are exactly the stream's first bytes, cut at
`sizeof(T)` and in order, and that the stage sees them in order.

What a pass does to the loop is also stated as a state machine on three
counts: the bytes read, `read_over` and the unread elements. `RoundExit` says
whether a pass from given counts ends the loop and why, and `NextCounts` gives
the counts after it. `RunRound` is proved to take exactly that step, and
`Drive` to run the machine from (0, 0, 0) until `RoundExit` names a stop.

`size_t` wrap-around is written out explicitly, in `ReadBudget` and
`AsWrittenCommit`. The budget `writeable() * sizeof(T) - read_over` could
wrap only with a full buffer and a carry. The driver never reaches that
state: a carry is left over only when the read stopped short of the
writeable room, so there is always room for it (`RunModule`, `ServeInput`).

A full buffer without a carry asks `read()` for zero bytes. The loop then
takes the zero return as end of input. Only async mode, where nothing drains
the buffer in the model, or a block larger than the buffer reaches that
state.

Floating-point values are idealised as reals. FFTW's transforms and `sqrt` are
parameters (`Transforms`), and nothing is assumed about them.

## Model

| member | source | states |
|---|---|---|
| Ringbuffers.Ringbuffer.constructor | src/apps/csdr/commands.cpp:69-70 | a new buffer of bufferSize() elements is empty |
| Ringbuffers.Ringbuffer.Write | src/apps/csdr/commands.cpp:124 | read() into the write pointer plus the carry lays the bytes right after the carried ones; unread data is untouched, because the bytes stay inside the writeable area |
| Ringbuffers.Ringbuffer.Advance | src/apps/csdr/commands.cpp:128 | advance(n) within writeable() commits the first n whole staged elements and keeps the rest staged; the unread elements never exceed the capacity |
| Ringbuffers.Ringbuffer.Take | src/apps/csdr/commands.cpp:133 | the reader removes the oldest unread elements, in order |
| Ringbuffers.FlattenGroup | src/apps/csdr/commands.cpp:128 | cutting bytes into whole elements and laying them end to end gives the bytes back |
| Ringbuffers.GroupFlatten | src/apps/csdr/commands.cpp:128 | laying elements end to end and cutting them again gives the elements back |
| Ringbuffers.SameBytesSameElements | src/apps/csdr/commands.cpp:128-129 | elements are determined by their bytes, whatever the chunking |
| Commands.ReadElements | src/apps/csdr/commands.cpp:121 | the clamp is at most 1024 and at most writeable(), and equals one of them |
| Commands.ReadBudget | src/apps/csdr/commands.cpp:123 | the size_t budget is the exact difference when the carry fits, and 2^64 minus the shortfall otherwise |
| Commands.BudgetWrapsOnlyWhenFull | src/apps/csdr/commands.cpp:121-123 | with a carry shorter than a sample, the budget wraps iff writeable() is 0 and read_over > 0, and it is 0 iff writeable() is 0 and read_over is 0 |
| Commands.Budget | src/apps/csdr/commands.cpp:121-123 | the bytes asked of read(): sizeof(T) times min(1024, writeable()) less the carry when there is room or no carry; 2^64 minus the carry (a wrap) when the buffer is full and a carry is held; 0 exactly when the buffer is full and nothing is carried |
| Commands.CommitRead | src/apps/csdr/commands.cpp:124-129 | an error or 0 ends the loop; otherwise read bytes plus old carry equal sizeof(T) times the advance plus the new carry, and the new carry is below sizeof(T) |
| Commands.CommitFitsRoom | src/apps/csdr/commands.cpp:121-128 | a read within the budget advances by at most min(1024, writeable()) elements |
| Commands.AsWrittenCommit | src/apps/csdr/commands.cpp:124-129 | as written, only a zero count ends the loop, a read error included; the new carry is below sizeof(T) |
| Commands.AsWrittenSplit | src/apps/csdr/commands.cpp:124-129 | as written, a count plus the carry splits into whole elements and a carry as CommitRead does when nothing wraps; an error counts as 2^64 - 1 bytes |
| Commands.ReadErrorIsCommittedAsData | src/apps/csdr/commands.cpp:124-129 | a failing read() keeps the loop going and advances by (2^64 - 1) / 4 elements, far over 1024 |
| Commands.TrimControlLine | src/apps/csdr/commands.cpp:113-114 | the line passed on plus its dropped final char is the fgets() line; no newline is left in a line that had one only at its end |
| Commands.Stage.Process | src/apps/csdr/commands.cpp:133 | process() takes the stage's block of the oldest unread elements |
| Commands.Stage.constructor | src/apps/csdr/commands.cpp:70 | setReader: the stage reads from the driver's ring buffer, in blocks of its own size |
| Commands.Drain | src/apps/csdr/commands.cpp:132-134 | draining stops only when canProcess() is false and takes whole blocks, so exactly the old unread count modulo the block size is left; committed and staged bytes are left alone |
| Commands.FeedInput | src/apps/csdr/commands.cpp:119-129 | the budget wraps iff writeable() is 0 with a carry; read() gets the smallest of its limit, the rest of the stream and the budget, never more than the budget; a zero-byte read happens only for a zero limit, an exhausted stream or a full buffer without carry, and then buffer and carry are unchanged; otherwise at most min(1024, writeable()) elements are committed, the new carry is below sizeof(T) and has room left, and the committed-then-staged bytes grow by exactly the bytes read; a fed read commits (carry + bytes read) / sizeof(T) elements and keeps (carry + bytes read) mod sizeof(T) as the new carry |
| Commands.StoreAndAdvance | src/apps/csdr/commands.cpp:124-129 | storing and advancing moves bytes from staged to committed and loses none: sizeof(T) times committed plus staged grows by exactly the bytes read |
| Commands.CommitKeepsBytes | src/apps/csdr/commands.cpp:128-129 | committing whole elements keeps the committed-then-staged byte sequence |
| Commands.ServeInput | src/apps/csdr/commands.cpp:119-134 | one read plus the synchronous drain keeps the byte accounting; the budget never wraps in either mode, because a carry always has room; the read fails iff read() fails; bytes are consumed iff the read is fed; a delivering read consumes exactly the smallest of the round's limit, the rest of the stream and the budget computed from writeable() and the carry; a zero-byte read happens iff the limit is 0, the stream is exhausted, or the buffer is full with no carry, and then nothing changes; bytes read, carry and unread count move exactly as Fill says |
| Commands.Fill | src/apps/csdr/commands.cpp:119-134 | the stdin half of a pass on counts: a failed or zero-byte read leaves them alone and any other read consumes bytes; the carry stays below sizeof(T) with room for it, the unread count within the capacity, and in synchronous mode below a block |
| Commands.Stored | src/apps/csdr/commands.cpp:124-134 | after read() got bytes within the budget the counts stay sound and the bytes read grow by exactly that many |
| Commands.FillStaysSound | src/apps/csdr/commands.cpp:121-134 | a read within the budget commits no more elements than there is room for, a partial element left over still has room, and a drain never adds unread elements |
| Commands.NextCounts | src/apps/csdr/commands.cpp:100-144 | a pass keeps the counts sound |
| Commands.CountsAfter | src/apps/csdr/commands.cpp:99-145 | the counts after any number of passes from (0, 0, 0) are sound |
| Commands.EndOfInputExactly | src/apps/csdr/commands.cpp:119-125 | a pass ends with EndOfInput iff stdin is served and read() delivers zero bytes: a zero limit, the stream used up, or a full buffer with nothing carried |
| Commands.RoundExitShowsReason | src/apps/csdr/commands.cpp:100-144 | a stop names a reason the round shows; the loop goes on iff nothing stops it and a served read got bytes; a pass that stops on select() or on its read leaves the counts unchanged |
| Commands.ServedPassAdvances | src/apps/csdr/commands.cpp:119-129 | a served pass that does not stop on its read delivered and consumed at least one byte |
| Commands.ReadRoundsBound | src/apps/csdr/commands.cpp:99-145 | while the loop goes on, the passes that read never outnumber the bytes read |
| Commands.RunFacts | src/apps/csdr/commands.cpp:99-145 | for a run of the state machine that stopped for a reason: the reason is one the last round shows, every earlier round continued, the passes that read number at most the bytes read (plus one for a last failed or empty read), a last failed or empty read left the counts unchanged, and EndOfInput means a zero limit, the stream used up, or a full buffer without carry |
| Commands.RunRound | src/apps/csdr/commands.cpp:100-144 | one pass is one step of the state machine on (bytes read, read_over, unread elements): the outcome is RoundExit of the counts before the pass, and the counts after it are NextCounts of them. Spelled out: a failed select() stops with SelectError; a ready fifo line is trimmed and passed on; ready stdin is read, a failed read stops with ReadFailed and a zero-byte read (zero limit, exhausted stream, or full buffer without carry) stops with EndOfInput, both consuming nothing; a delivering read consumes exactly the smallest of its limit, the rest of the stream and the budget; a round that does not read consumes nothing; fifo EOF stops; the loop goes on exactly when no stop applies; the byte accounting is kept |
| Commands.Drive | src/apps/csdr/commands.cpp:99-145 | the loop is the state machine run from (0, 0, 0): the bytes read, read_over and unread count after the loop are CountsAfter the rounds it ran; every round but the last went on (RoundExit None from the counts after the rounds before it); the loop stops only when RoundExit of the last round's starting counts names the exit, or when the rounds run out; the byte accounting is kept and the lines passed on are the trimmed fifo lines |
| Commands.RunModule | src/apps/csdr/commands.cpp:67-145 | the carry stays below sizeof(T) and always has room, so the budget never wraps; bytes read equal sizeof(T) times committed elements plus the carry; the committed elements are the stream's first bytes cut at sizeof(T); they are the processed ones followed by the unread ones; synchronous mode leaves less than a block unread; the lines passed on are the trimmed fifo lines; the run follows the state machine (counts are CountsAfter the rounds run, every pass but the last went on, RoundExit of the last gives the exit); the loop stops only for a reason the last round shows; the rounds that read number at most the bytes read, plus one when the last read failed or got nothing; ReadFailed and EndOfInput end a pass that left the counts unchanged, and EndOfInput means the last read got zero bytes because of a zero limit, the stream exhausted, or a full buffer without carry |
| Commands.CommittedElementsAgree | src/apps/csdr/commands.cpp:124-129 | two runs over the same input agree on every element both committed, however the reads were chunked |
| Commands.NoOnesMeansZero | src/apps/csdr/commands.cpp:292-298 | below 2^n, the bit count is 0 iff the value is 0 |
| Commands.OneBitIsPowerOf2 | src/apps/csdr/commands.cpp:292-298 | below 2^n, the bit count is 1 iff the value is 2^k for some k < n |
| Commands.ShrStep | src/apps/csdr/commands.cpp:295 | shifting by i + 1 is shifting by i and halving |
| Commands.ShrAllOut | src/apps/csdr/commands.cpp:294-295 | shifting a 32-bit value right 32 times leaves nothing |
| Commands.IsPowerOf2 | src/apps/csdr/commands.cpp:292-298 | the result is true iff size is 2^k for some 0 <= k < 32, so 0 gives false and 1 gives true |
| Commands.Tick | src/apps/csdr/commands.cpp:455-459 | a report is due iff the counter was at most 1; then it is reloaded with the interval, otherwise it drops by one and stays positive |
| Commands.CounterCountsDown | src/apps/csdr/commands.cpp:446-459 | with interval N >= 1, after m measurements the counter is N - m mod N |
| Commands.CounterStaysAtInterval | src/apps/csdr/commands.cpp:446-459 | with interval N <= 0, every measurement reports and the counter stays at N |
| Commands.ReportsEveryNth | src/apps/csdr/commands.cpp:455-459 | the m-th measurement reports iff N <= 0 or N divides m |
| Commands.ReportCounter.constructor | src/apps/csdr/commands.cpp:446 | the counter starts at the interval |
| Commands.ReportCounter.Measured | src/apps/csdr/commands.cpp:455-459 | a measurement reports iff N <= 0 or the count is a multiple of N; reporting resets the counter to N, otherwise it drops by one |
| NoiseFilters.Norm | src/lib/noisefilter.cpp:126 | a bin's level is never negative |
| NoiseFilters.Complex2Sample | src/lib/noisefilter.cpp:195-205 | a complex filter hands the sample out unchanged; a float filter keeps the in-phase part |
| NoiseFilters.SampleRoundTrip | src/lib/noisefilter.cpp:109 | a sample converted into the filter's complex domain and back through complex2sample is unchanged |
| NoiseFilters.Configure | src/lib/noisefilter.cpp:47-60 | F >= 32, kept when >= 32; O = F/64 when F >= 64, else 1, so 1 <= O < F and F - O >= 31; 1 <= W <= 127 and 2W <= F/2, with W half the requested window when it is in range, 1 when it is below 2, and half of min(F/2, 254) when it is above either bound; latency kept when positive, 1 when 0 |
| NoiseFilters.PeakIsLargest | src/lib/noisefilter.cpp:122-129 | maxPower is at least every level and is one of them (or 0), and lies between 0 and the sum |
| NoiseFilters.DropPeak | src/lib/noisefilter.cpp:132 | the estimate times the number of other bins is the sum less the peak, and it is non-negative when the peak does not exceed the sum |
| NoiseFilters.PowerEstimateNonNegative | src/lib/noisefilter.cpp:131-132 | the power without the strongest bin is never negative |
| NoiseFilters.Smooth | src/lib/noisefilter.cpp:138 | a rising power pulls the average strictly between old average and power; a falling one pulls it to between them; latency 1 follows a fall at once |
| NoiseFilters.Gates | src/lib/noisefilter.cpp:144-145 | a gate per bin, each 0 or 1 |
| NoiseFilters.RaisingThresholdClosesGates | src/lib/noisefilter.cpp:141-145 | for fixed levels, a higher effective threshold closes every gate a lower one closes, and opens no more gates |
| NoiseFilters.WindowBounded | src/lib/noisefilter.cpp:148-160 | a window of 0/1 gates counts at most its length |
| NoiseFilters.WindowAllOpen | src/lib/noisefilter.cpp:148-160 | with every gate open a window counts its length |
| NoiseFilters.WindowAllClosed | src/lib/noisefilter.cpp:148-160 | with every gate closed a window counts nothing |
| NoiseFilters.WindowPrepend | src/lib/noisefilter.cpp:148-150 | a window grown by one bin at its front counts that bin more |
| NoiseFilters.WindowSlide | src/lib/noisefilter.cpp:157 | sliding a window one bin adds the entering gate and drops the leaving one |
| NoiseFilters.GainsBounded | src/lib/noisefilter.cpp:148-160 | every gain is at most 2W <= 254, so it fits an unsigned char |
| NoiseFilters.GainsAtExtremes | src/lib/noisefilter.cpp:148-160 | all gates open gives every gain 2W; all closed gives every gain 0 |
| NoiseFilters.FirstWindowPairStep | src/lib/noisefilter.cpp:149-150 | adding gate[i] + gate[F - i - 1] grows the window around bin 0 by one bin on each side |
| NoiseFilters.FirstWindowByteStep | src/lib/noisefilter.cpp:149-150 | the unsigned char sum for gain[0] never wraps while it grows by one pair of bins |
| NoiseFilters.FirstGain | src/lib/noisefilter.cpp:148-150 | gain[0] is the number of open gates in bins F - W .. F + W - 1 (mod F) |
| NoiseFilters.CursorsStayApart | src/lib/noisefilter.cpp:153-159 | next is always prev + 2W modulo F |
| NoiseFilters.Bump | src/lib/noisefilter.cpp:158-159 | a cursor in [0, F) steps to the next bin modulo F |
| NoiseFilters.CursorStep | src/lib/noisefilter.cpp:158-159 | the wrapping increments move both cursors on by one bin modulo F |
| NoiseFilters.SlideStep | src/lib/noisefilter.cpp:157-159 | one pass of the sliding loop: cursors 2W apart give the next gain, and stepped on they are still 2W apart |
| NoiseFilters.GainStep | src/lib/noisefilter.cpp:157 | the unsigned char update gives the next bin's window count; it never wraps |
| NoiseFilters.SlidingGains | src/lib/noisefilter.cpp:147-160 | gain[i] is the number of open gates among bins i - W .. i + W - 1 (mod F), for every i; the loop keeps next exactly 2W bins ahead of prev modulo F |
| NoiseFilters.Masked | src/lib/noisefilter.cpp:163-164 | a bin with gain 0 is zeroed; a bin with gain 2W is scaled by sqrt(1) |
| NoiseFilters.ClosedBinsSilenced | src/lib/noisefilter.cpp:144-164 | a bin whose gain is 0 is zeroed, and with every gate closed every bin is |
| NoiseFilters.OpenBinsKeepFullWeight | src/lib/noisefilter.cpp:163-164 | with every gate open each bin is scaled by sqrt(1) |
| NoiseFilters.Reconstruct | src/lib/noisefilter.cpp:174-182 | past the first O samples, every sample is the inverse transform divided by F |
| NoiseFilters.BlockStartsWithOverlap | src/lib/noisefilter.cpp:174-177 | the first sample of a block is the first saved overlap sample |
| NoiseFilters.SilentOverlapFadesIn | src/lib/noisefilter.cpp:174-177 | after a silent overlap, sample i < O of the block carries weight i/O |
| NoiseFilters.SilenceStaysSilent | src/lib/noisefilter.cpp:141-182 | a silent spectrum closes every gate against a non-negative threshold; with a silent overlap, and a backward transform that maps silence to silence, the block is silent |
| NoiseFilters.MeasureLevels | src/lib/noisefilter.cpp:121-129 | fills level with every bin's norm and returns their maximum and sum |
| NoiseFilters.ComputeGates | src/lib/noisefilter.cpp:143-145 | gate[i] is 1 iff level[i] is above the effective threshold |
| NoiseFilters.ApplyGains | src/lib/noisefilter.cpp:162-164 | the inverse input is the masked spectrum |
| NoiseFilters.Blend | src/lib/noisefilter.cpp:173-182 | in place: the first O samples are crossfaded with the overlap, the rest are normalised by F |
| NoiseFilters.Synthesise | src/lib/noisefilter.cpp:162-182 | the reconstruction is the crossfaded, normalised backward transform of the masked spectrum |
| NoiseFilters.ToSamples | src/lib/noisefilter.cpp:187-189 | output[i] is complex2sample(result[i]) for the first n samples |
| NoiseFilters.ZeroFill | src/lib/noisefilter.cpp:73-78 | every entry becomes 0 |
| NoiseFilters.NoiseFilter.constructor | src/lib/noisefilter.cpp:44-79 | sizes as Configure gives them, threshold 1.0, average power 0.0, forwardInput all zero; overlapBuf's contents are unconstrained (see Findings) |
| NoiseFilters.NoiseFilter.Cleared | src/lib/noisefilter.cpp:44-79 | as the constructor, and overlapBuf all zero too |
| NoiseFilters.NoiseFilter.SetThreshold | src/lib/noisefilter.cpp:93-98 | the threshold becomes the given positive ratio, and the rest of the state is kept |
| NoiseFilters.NoiseFilter.InputSize | src/lib/noisefilter.cpp:103 | F - O is at least 31, below F, and plus O gives F |
| NoiseFilters.NoiseFilter.CopyInput | src/lib/noisefilter.cpp:105-109 | for input of the filter's own sample type, the first min(size, F - O) entries of forwardInput hold the input, and complex2sample gives each of those samples back unchanged; the others are unchanged |
| NoiseFilters.NoiseFilter.TrackPower | src/lib/noisefilter.cpp:121-141 | the running power follows Smooth with the estimate without the strongest bin; the effective threshold is the running power times the threshold and is non-negative |
| NoiseFilters.NoiseFilter.SaveOverlap | src/lib/noisefilter.cpp:184-185 | overlapBuf becomes result[F - O .. F) |
| NoiseFilters.NoiseFilter.Apply | src/lib/noisefilter.cpp:100-193 | returns and produces F - O samples; copies min(size, F - O) inputs and leaves the rest of forwardInput; the running power follows TrackPower; the block is the gated, window-weighted, masked, back-transformed and crossfaded spectrum (Filtered); overlapBuf becomes its last O samples; output[i] is complex2sample(result[i]), and output[0] is the old overlapBuf[0] |

## Left out

- Stage (the processing modules of csdr) is not part of this model. A stage is modelled as one that can process once a fixed block of `need` elements is unread, and that then takes that block.
- The ring buffer's own source is not part of this model. It is described by capacity, unread elements and the staged bytes at the write pointer. Its wrap-around storage and its read and write cursors are not modelled.
- AsyncRunner is concurrency and is not modelled. In async mode nothing drains the buffer in the model.
- select(), read(), fopen/fcntl/fgets/feof/fclose and stdout writing are OS I/O. They become the fields of a scripted Round.
- RunModule: the source loops until a stop condition; the model runs a finite script of rounds and reports RoundsExhausted when it runs out.
- Ringbuffers.Ringbuffer.Writeable: the model takes writeable() to be the capacity less the unread elements, and assumes the write area at the write pointer is contiguous. These are modelling assumptions: the ring buffer's source is not part of this model.
- TrimControlLine: fgets() lines with an embedded NUL are not modelled. The model takes strlen to be the length of the line fgets() stored.
- processFifoData() and its std::stof / stringstream parsing are library behaviour that throws on malformed text. The model only records the lines handed to it.
- runSource, CLI option registration and the string dispatch over formats, windows and algorithms are argument glue. The stage classes that are not shown are not part of this model.
- FFTW plan creation, execution and destruction are foreign code. The transforms and sqrt are parameters of Apply.
- Floating point is idealised as reals: rounding, the float and double mix, and (float)i/ovrSize are exact in the model. pow in setThreshold is computed by the caller.
- NoiseFilters.NoiseFilter.Apply: the plans use FFTW_DESTROY_INPUT, so after the forward transform forwardInput may no longer hold the zero padding and old samples. The model takes the forward transform to leave its input intact.
- NoiseFilters.NoiseFilter.Apply: forwardOutput, inverseInput and inverseOutput are FFTW work buffers that each call overwrites before reading. They are fresh arrays in the model, not fields.
- NoiseFilters.NoiseFilter.Apply: the gate, gain and level stack arrays are fresh arrays in the model.

## Findings

| source | as written | input that shows it | evidently intended | confidence | as-written member | corrected member |
|---|---|---|---|---|---|---|
| src/apps/csdr/commands.cpp:124-125 | read()'s ssize_t result goes into a size_t, so an error (-1) becomes 2^64 - 1. Only 0 ends the loop, and the buffer is advanced by the wrapped count | read() fails on a float stream with no carry: the loop goes on and advances by (2^64 - 1) / 4 elements | a failing read() ends the loop like end of input | not executed | Commands.AsWrittenCommit, Commands.ReadErrorIsCommittedAsData | Commands.CommitRead, Commands.FeedInput, Commands.ServeInput, Commands.RunRound, Commands.Drive, Commands.RunModule |
| src/lib/noisefilter.cpp:65, 73-78 | overlapBuf comes from fftwf_alloc_complex and is never initialised; only forwardInput is zero-filled. The first apply() crossfades with whatever the allocation held | the first apply() after construction: output[0] is complex2sample of the uninitialised overlapBuf[0] | overlapBuf is zero-filled like forwardInput, so the first block fades in from silence | not executed | NoiseFilters.NoiseFilter.constructor, NoiseFilters.BlockStartsWithOverlap | NoiseFilters.NoiseFilter.Cleared, NoiseFilters.SilentOverlapFadesIn |
