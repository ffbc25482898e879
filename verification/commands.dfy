/**
 * csdr's command layer: the stream driver that feeds a processing stage from
 * standard input (Command::runModule), the FFT size check of the fft command
 * and the report-every-N counter of the measurement commands.
 *
 * The driver is modelled as a method that runs over a finite script of
 * rounds, one per pass of the source's `while (run)` loop: what select()
 * reported, what fgets() returned on the control fifo, how many bytes read()
 * was willing to hand over, and whether the fifo had reached end-of-file.
 * The bytes themselves come from one input stream, so the model can say
 * which elements reach the stage.
 */
module Commands {
  import opened Ringbuffers
  import opened Arithmetic

  datatype Option<T> = None | Some(value: T)

  /** The driver clamps every read to this many elements (commands.cpp:121). */
  const MaxChunk: nat := 1024
  /** fgets() on the control fifo reads into a buffer of this many chars (commands.cpp:95, 113). */
  const ControlLineSize: nat := 1024
  /** size_t arithmetic wraps modulo 2^64. */
  const SizeMax: nat := 0x1_0000_0000_0000_0000

  function Min(a: nat, b: nat): nat {
    if a < b then a else b
  }

  // ---------------------------------------------------------------------
  // The read budget and the carry
  // ---------------------------------------------------------------------

  /** std::min((size_t) 1024, buffer->writeable()): elements one read may fill. */
  function ReadElements(writeable: nat): (n: nat)
    ensures n <= MaxChunk && n <= writeable
    ensures n == MaxChunk || n == writeable
  {
    Min(MaxChunk, writeable)
  }

  /**
   * `(writeable * sizeof(T)) - read_over` in size_t arithmetic: the number of
   * bytes asked of read(). It is the exact difference when the carry fits in
   * the clamped room, and wraps around to a huge value when it does not.
   */
  function ReadBudget(elements: nat, carry: nat, size: nat): (b: nat)
    requires elements * size < SizeMax && carry < SizeMax
    ensures carry <= elements * size ==> b == elements * size - carry
    ensures carry > elements * size ==> b == SizeMax - (carry - elements * size) && b > elements * size
  {
    (elements * size - carry) % SizeMax
  }

  /**
   * With a carry shorter than one element, the budget wraps exactly when the
   * buffer has no writeable element left while a partial element is carried,
   * and it is zero exactly when the buffer is full and nothing is carried.
   */
  lemma BudgetWrapsOnlyWhenFull(writeable: nat, carry: nat, size: nat)
    requires 1 <= size && carry < size && size * MaxChunk < SizeMax
    ensures ReadElements(writeable) * size < SizeMax
    ensures ReadBudget(ReadElements(writeable), carry, size) > ReadElements(writeable) * size
            <==> writeable == 0 && carry > 0
    ensures ReadBudget(ReadElements(writeable), carry, size) == 0 <==> writeable == 0 && carry == 0
  {
    var e := ReadElements(writeable);
    MulMonotone(e, MaxChunk, size);
    if e > 0 {
      MulMonotone(1, e, size);
    }
  }

  /** The bytes asked of read() for a given writeable() and carry (lines 121-123). */
  function Budget(writeable: nat, carry: nat, size: nat): (b: nat)
    requires carry < size && size * MaxChunk < SizeMax
    ensures writeable > 0 || carry == 0 ==> b + carry == ReadElements(writeable) * size
    ensures writeable == 0 && carry > 0 ==> b == SizeMax - carry
    ensures b == 0 <==> writeable == 0 && carry == 0
  {
    BudgetWrapsOnlyWhenFull(writeable, carry, size);
    ReadBudget(ReadElements(writeable), carry, size)
  }

  /** What read() reports: a byte count, or an error (-1). */
  datatype ReadResult = Got(count: nat) | ReadError

  /** Whole elements to commit and the bytes of a partial element left over. */
  datatype Commit = Commit(advance: nat, carry: nat)

  /**
   * Lines 124-129 with read()'s error return told apart: an error or a zero
   * count ends the loop; otherwise the carried bytes and the new ones split
   * into whole elements and a new, shorter-than-one-element carry.
   */
  function CommitRead(result: ReadResult, carry: nat, size: nat): (r: Option<Commit>)
    requires size >= 1 && carry < size
    ensures r.None? <==> result == ReadError || result == Got(0)
    ensures r.Some? ==> size * r.value.advance + r.value.carry == carry + result.count
    ensures r.Some? ==> r.value.carry < size
  {
    match result
    case ReadError => None
    case Got(n) => if n == 0 then None else Some(Commit((carry + n) / size, (carry + n) % size))
  }

  /**
   * A read that stays within the budget commits no more elements than the
   * clamped room it was computed from, so unread data is never overwritten.
   */
  lemma {:induction false} CommitFitsRoom(elements: nat, carry: nat, size: nat, n: nat)
    requires 1 <= size && carry < size
    requires carry + n <= elements * size
    ensures var r := CommitRead(Got(n), carry, size);
            r.Some? ==> r.value.advance <= elements && size * r.value.advance <= carry + n
  {
    var r := CommitRead(Got(n), carry, size);
    if r.Some? && r.value.advance > elements {
      MulMonotone(elements + 1, r.value.advance, size);
      assert false;
    }
  }

  /**
   * Lines 124-129 as written: read()'s ssize_t result is stored in a size_t,
   * so -1 becomes 2^64 - 1, only 0 stops the loop, and the element count and
   * carry are computed from the wrapped value.
   * The result is (loop continues, elements advanced, new carry).
   */
  function AsWrittenCommit(ret: int, carry: nat, size: nat): (r: (bool, nat, nat))
    requires size >= 1 && -1 <= ret < SizeMax / 2  // ret is an ssize_t
    // only a zero count stops the loop; an error does not
    ensures r.0 <==> ret != 0
    ensures r.2 < size
  {
    var bytesRead := if ret == -1 then SizeMax - 1 else ret;
    var total := if bytesRead + carry >= SizeMax then bytesRead + carry - SizeMax else bytesRead + carry;
    (bytesRead != 0, total / size, total % size)
  }

  /**
   * What the as-written commit does with the bytes: a count is split with
   * the carry into whole elements and a short carry, as CommitRead does
   * unless the sum wraps; an error counts as 2^64 - 1 bytes.
   */
  lemma AsWrittenSplit(ret: int, carry: nat, size: nat)
    requires size >= 1 && -1 <= ret < SizeMax / 2
    ensures var r := AsWrittenCommit(ret, carry, size);
            0 <= ret && ret + carry < SizeMax ==> size * r.1 + r.2 == ret + carry
    ensures var r := AsWrittenCommit(ret, carry, size);
            ret == -1 ==> size * r.1 + r.2 == if carry == 0 then SizeMax - 1 else carry - 1
    ensures 0 < ret && ret + carry < SizeMax && carry < size ==>
              CommitRead(Got(ret), carry, size) == Some(Commit(AsWrittenCommit(ret, carry, size).1, AsWrittenCommit(ret, carry, size).2))
  {
    var bytesRead := if ret == -1 then SizeMax - 1 else ret;
    var total := if bytesRead + carry >= SizeMax then bytesRead + carry - SizeMax else bytesRead + carry;
    DivMod(total, size);
  }

  /**
   * A read error with no carry on a float stream is not noticed: the loop
   * goes on and advances the buffer by far more than the 1024 elements any
   * read may fill.
   */
  lemma ReadErrorIsCommittedAsData()
    ensures AsWrittenCommit(-1, 0, 4).0
    ensures AsWrittenCommit(-1, 0, 4).1 == (SizeMax - 1) / 4
    ensures AsWrittenCommit(-1, 0, 4).1 > MaxChunk
  {
  }

  // ---------------------------------------------------------------------
  // The control fifo
  // ---------------------------------------------------------------------

  /** fgets() stops after the first newline, so no newline precedes the last char. */
  ghost predicate NoNewlineBeforeEnd(line: string) {
    forall k :: 0 <= k < |line| - 1 ==> line[k] != '\n'
  }

  /**
   * `std::string(fifo_input, strlen(fifo_input) - 1)`: the line handed to
   * processFifoData() is the fgets() line without its final character, which
   * for a complete line is the newline.
   */
  function TrimControlLine(line: string): (r: string)
    requires |line| >= 1
    ensures r + [line[|line| - 1]] == line
    ensures NoNewlineBeforeEnd(line) ==> '\n' !in r
  {
    line[..|line| - 1]
  }

  // ---------------------------------------------------------------------
  // One pass of the driver loop
  // ---------------------------------------------------------------------

  /** What select() reported. */
  datatype Wakeup = SelectFailed | TimedOut | Ready(fifoReady: bool, stdinReady: bool)

  /** How read() on standard input behaves in a round: hand over at most `limit` bytes, or fail. */
  datatype ReadBehaviour = Delivers(limit: nat) | Fails

  /**
   * One pass of `while (run)`: the select() outcome, the line fgets() returned
   * (None for NULL), read()'s behaviour, and feof() on the fifo afterwards.
   */
  datatype Round = Round(wake: Wakeup, line: Option<string>, read: ReadBehaviour, fifoAtEof: bool)

  /** fgets() returns at least one char and fewer than the buffer size. */
  predicate FromFgets(r: Round) {
    r.line.Some? ==> 1 <= |r.line.value| < ControlLineSize
  }

  /** Why the driver stopped. RoundsExhausted: the script ran out (the source would keep looping). */
  datatype Exit = RoundsExhausted | SelectError | EndOfInput | ReadFailed | ControlClosed

  /** The round on which the driver stopped for reason `exit` shows that reason. */
  predicate StopsOn(exit: Exit, r: Round, hasFifo: bool) {
    match exit
    case RoundsExhausted => false
    case SelectError => r.wake.SelectFailed?
    case EndOfInput => Serves(r) && r.read.Delivers?
    case ReadFailed => Serves(r) && r.read.Fails?
    case ControlClosed => hasFifo && r.fifoAtEof
  }

  /** select() reported standard input ready, so the round reads from it. */
  predicate Serves(r: Round) {
    r.wake.Ready? && r.wake.stdinReady
  }

  /** Neither select() nor the fifo stops the driver in this round. */
  predicate Continues(r: Round, hasFifo: bool) {
    !r.wake.SelectFailed? && !(hasFifo && r.fifoAtEof)
  }

  /** The number of rounds among the first `n` that read from standard input. */
  function ReadRounds(rounds: seq<Round>, n: nat): nat
    requires n <= |rounds|
  {
    if n == 0 then 0 else ReadRounds(rounds, n - 1) + (if Serves(rounds[n - 1]) then 1 else 0)
  }

  /** The line a round passes to processFifoData(), if any. */
  function RoundLine(r: Round, hasFifo: bool): seq<string>
    requires FromFgets(r)
  {
    if hasFifo && r.wake.Ready? && r.wake.fifoReady && r.line.Some?
    then [TrimControlLine(r.line.value)]
    else []
  }

  /** The lines passed to processFifoData() over a sequence of rounds, in order. */
  function ControlLines(rounds: seq<Round>, n: nat, hasFifo: bool): seq<string>
    requires n <= |rounds| && forall k :: 0 <= k < |rounds| ==> FromFgets(rounds[k])
  {
    if n == 0 then [] else ControlLines(rounds, n - 1, hasFifo) + RoundLine(rounds[n - 1], hasFifo)
  }

  // ---------------------------------------------------------------------
  // The driver loop as a state machine on counts
  // ---------------------------------------------------------------------

  /**
   * What stays fixed over a run: bufferSize(), sizeof(T), the stage's block
   * size, whether an AsyncRunner drains the buffer (in the model nothing
   * does then), and the length of the input stream.
   */
  datatype Setup = Setup(capacity: nat, size: nat, need: nat, async: bool, streamLength: nat)

  /** What one pass depends on: the bytes read so far, read_over and the unread element count. */
  datatype Counts = Counts(consumed: nat, carry: nat, unread: nat)

  predicate Configured(p: Setup) {
    1 <= p.size && p.size * MaxChunk < SizeMax && p.need >= 1
  }

  /** The counts the driver can be in between passes. */
  predicate Sound(p: Setup, s: Counts) {
    && Configured(p)
    && s.carry < p.size && s.unread <= p.capacity && s.consumed <= p.streamLength
    && (s.carry > 0 ==> s.unread < p.capacity)
    && (!p.async ==> s.unread < p.need)
  }

  /** The bytes read() hands over when it may give `limit`: the least of that, the rest of the stream and the budget. */
  function Delivered(p: Setup, s: Counts, limit: nat): nat
    requires Sound(p, s)
  {
    Min(Min(limit, p.streamLength - s.consumed), Budget(p.capacity - s.unread, s.carry, p.size))
  }

  /**
   * The standard-input half of a pass (lines 119-134): read, commit the
   * whole elements, keep the rest as the carry and, in synchronous mode, let
   * the stage take whole blocks. A failed or zero-byte read changes nothing.
   */
  function Fill(p: Setup, s: Counts, read: ReadBehaviour): (r: Counts)
    requires Sound(p, s)
    ensures Sound(p, r)
    ensures s.consumed <= r.consumed
    ensures r.consumed == s.consumed ==> r == s
  {
    if read.Fails? || Delivered(p, s, read.limit) == 0 then s else Stored(p, s, Delivered(p, s, read.limit))
  }

  /**
   * The counts after read() got `got` bytes within the budget: the carry and
   * the new bytes are cut into whole elements and a new carry, and in
   * synchronous mode the stage takes every whole block.
   */
  function Stored(p: Setup, s: Counts, got: nat): (r: Counts)
    requires Sound(p, s) && got <= p.streamLength - s.consumed
    requires got <= Budget(p.capacity - s.unread, s.carry, p.size)
    ensures Sound(p, r) && r.consumed == s.consumed + got
  {
    var total := s.carry + got;
    var unread := s.unread + total / p.size;
    FillStaysSound(p, s, got);
    Counts(s.consumed + got, total % p.size, if p.async then unread else unread % p.need)
  }

  /**
   * Fill told by what a pass saw: read() got `got` bytes; the commit left
   * `carry` and `fed` unread elements; the drain left `left`.
   */
  lemma FillCounts(p: Setup, s: Counts, read: ReadBehaviour, got: nat, carry: nat, fed: nat, left: nat)
    requires Sound(p, s)
    requires got == if read.Fails? then 0 else Delivered(p, s, read.limit)
    requires got == 0 ==> carry == s.carry && left == s.unread
    requires got > 0 ==> carry == (s.carry + got) % p.size && fed == s.unread + (s.carry + got) / p.size
    requires got > 0 ==> left == if p.async then fed else fed % p.need
    ensures Fill(p, s, read) == Counts(s.consumed + got, carry, left)
  {
  }

  /** A read within the budget leaves room for its elements, and for the carry it leaves. */
  lemma FillStaysSound(p: Setup, s: Counts, got: nat)
    requires Sound(p, s) && got <= p.streamLength - s.consumed
    requires got <= Budget(p.capacity - s.unread, s.carry, p.size)
    ensures s.unread + (s.carry + got) / p.size <= p.capacity
    ensures (s.carry + got) % p.size > 0 ==> s.unread + (s.carry + got) / p.size < p.capacity
    ensures ((s.unread + (s.carry + got) / p.size) % p.need) <= s.unread + (s.carry + got) / p.size
  {
    var w := p.capacity - s.unread;
    var elements := ReadElements(w);
    var total := s.carry + got;
    assert w > 0 || s.carry == 0;
    assert total <= elements * p.size;
    DivBound(total, p.size, elements);
    ModAtMost(s.unread + total / p.size, p.need);
  }

  /** The counts after one pass over round `r`. */
  function NextCounts(p: Setup, s: Counts, r: Round): (c: Counts)
    requires Sound(p, s)
    ensures Sound(p, c)
  {
    if Serves(r) then Fill(p, s, r.read) else s
  }

  /**
   * Whether the pass over round `r` ends the loop, and why: a failed
   * select(); a failed read; a read that got zero bytes; end-of-file on the
   * control fifo, checked after the read.
   */
  function RoundExit(p: Setup, s: Counts, r: Round, hasFifo: bool): Option<Exit>
    requires Sound(p, s)
  {
    if r.wake.SelectFailed? then Some(SelectError)
    else if Serves(r) && r.read.Fails? then Some(ReadFailed)
    else if Serves(r) && Delivered(p, s, r.read.limit) == 0 then Some(EndOfInput)
    else if hasFifo && r.fifoAtEof then Some(ControlClosed)
    else None
  }

  /** The counts after the first `n` passes over `rounds`, from an empty buffer. */
  function CountsAfter(p: Setup, rounds: seq<Round>, n: nat): (c: Counts)
    requires Configured(p) && n <= |rounds|
    ensures Sound(p, c)
  {
    if n == 0 then Counts(0, 0, 0) else NextCounts(p, CountsAfter(p, rounds, n - 1), rounds[n - 1])
  }

  /** None of the first `n` passes over `rounds` ended the loop. */
  ghost predicate WentOn(p: Setup, rounds: seq<Round>, hasFifo: bool, n: nat)
    requires Configured(p) && n <= |rounds|
  {
    forall k :: 0 <= k < n ==> RoundExit(p, CountsAfter(p, rounds, k), rounds[k], hasFifo).None?
  }

  /** One more pass that went on extends WentOn. */
  lemma WentOnStep(p: Setup, rounds: seq<Round>, hasFifo: bool, n: nat)
    requires Configured(p) && n < |rounds| && WentOn(p, rounds, hasFifo, n)
    requires RoundExit(p, CountsAfter(p, rounds, n), rounds[n], hasFifo).None?
    ensures WentOn(p, rounds, hasFifo, n + 1)
  {
  }

  /**
   * A pass ends with EndOfInput exactly when standard input is served and
   * read() gets zero bytes: a zero limit, the stream already used up, or a
   * full buffer with nothing carried.
   */
  lemma EndOfInputExactly(p: Setup, s: Counts, r: Round, hasFifo: bool)
    requires Sound(p, s)
    ensures RoundExit(p, s, r, hasFifo) == Some(EndOfInput) <==>
              Serves(r) && r.read.Delivers?
              && (r.read.limit == 0 || s.consumed == p.streamLength || (s.unread == p.capacity && s.carry == 0))
  {
    BudgetWrapsOnlyWhenFull(p.capacity - s.unread, s.carry, p.size);
  }

  /**
   * The stop reasons of a pass are the ones the round shows; the loop goes
   * on exactly when nothing stops it and a served read got bytes; a pass
   * that stops on its read, or on select(), consumes nothing.
   */
  lemma RoundExitShowsReason(p: Setup, s: Counts, r: Round, hasFifo: bool)
    requires Sound(p, s)
    ensures RoundExit(p, s, r, hasFifo).Some? ==> StopsOn(RoundExit(p, s, r, hasFifo).value, r, hasFifo)
    ensures RoundExit(p, s, r, hasFifo).None? <==>
              Continues(r, hasFifo) && !(Serves(r) && NextCounts(p, s, r).consumed == s.consumed)
    ensures RoundExit(p, s, r, hasFifo) in {Some(SelectError), Some(ReadFailed), Some(EndOfInput)} ==>
              NextCounts(p, s, r) == s
  {
  }

  /** A served pass that does not stop on its read got at least one byte. */
  lemma ServedPassAdvances(p: Setup, s: Counts, r: Round, hasFifo: bool)
    requires Sound(p, s) && Serves(r)
    requires RoundExit(p, s, r, hasFifo) != Some(ReadFailed) && RoundExit(p, s, r, hasFifo) != Some(EndOfInput)
    ensures r.read.Delivers? && s.consumed < NextCounts(p, s, r).consumed
  {
  }

  /** While the loop goes on, the passes that read never outnumber the bytes read. */
  lemma {:induction false} ReadRoundsBound(p: Setup, rounds: seq<Round>, hasFifo: bool, n: nat)
    requires Configured(p) && n <= |rounds| && WentOn(p, rounds, hasFifo, n)
    ensures ReadRounds(rounds, n) <= CountsAfter(p, rounds, n).consumed
  {
    if n > 0 {
      assert WentOn(p, rounds, hasFifo, n - 1);
      ReadRoundsBound(p, rounds, hasFifo, n - 1);
      var s := CountsAfter(p, rounds, n - 1);
      assert RoundExit(p, s, rounds[n - 1], hasFifo).None?;
      if Serves(rounds[n - 1]) {
        ServedPassAdvances(p, s, rounds[n - 1], hasFifo);
      }
    }
  }

  /** The counts of a driver loop over `stage`, read off its constant parameters. */
  function SetupOf(stage: Stage, async: bool, stream: seq<Byte>): Setup {
    Setup(stage.buffer.capacity, stage.buffer.elementSize, stage.need, async, |stream|)
  }

  /**
   * A processing stage as the driver sees it: it reads from the ring buffer,
   * can process once `need` elements are unread, and each process() call
   * consumes that many.
   */
  class Stage {
    const buffer: Ringbuffer
    const need: nat

    ghost predicate Valid()
      reads this, buffer
    {
      buffer.Valid() && need >= 1
    }

    predicate CanProcess()
      reads this, buffer
    {
      |buffer.unread| >= need
    }

    /** module->setReader(new RingbufferReader<T>(buffer)). */
    constructor (reader: Ringbuffer, blockSize: nat)
      requires blockSize >= 1
      ensures buffer == reader && need == blockSize
    {
      buffer := reader;
      need := blockSize;
    }

    method Process()
      requires Valid() && CanProcess()
      modifies buffer
      ensures Valid()
      ensures buffer.unread == old(buffer.unread)[need..]
      ensures buffer.taken == old(buffer.taken) + old(buffer.unread)[..need]
      ensures buffer.history == old(buffer.history) && buffer.staged == old(buffer.staged)
    {
      var _ := buffer.Take(need);
    }
  }

  /** `while (module->canProcess()) module->process();` (commands.cpp:133). */
  method Drain(stage: Stage)
    requires stage.Valid()
    modifies stage.buffer
    ensures stage.Valid() && !stage.CanProcess()
    ensures |stage.buffer.unread| <= |old(stage.buffer.unread)|
    // whole blocks are taken until less than one is left
    ensures |stage.buffer.unread| == |old(stage.buffer.unread)| % stage.need
    ensures stage.buffer.history == old(stage.buffer.history)
    ensures stage.buffer.staged == old(stage.buffer.staged)
  {
    while stage.CanProcess()
      invariant stage.Valid()
      invariant |stage.buffer.unread| <= |old(stage.buffer.unread)|
      invariant |stage.buffer.unread| % stage.need == |old(stage.buffer.unread)| % stage.need
      invariant stage.buffer.history == old(stage.buffer.history)
      invariant stage.buffer.staged == old(stage.buffer.staged)
      decreases |stage.buffer.unread|
    {
      ModDrop(|stage.buffer.unread|, stage.need);
      stage.Process();
    }
  }

  /** Outcome of the standard-input half of a round. */
  datatype FeedStatus = Fed | NoData | Failed | Wrapped

  /**
   * Lines 121-129: compute the byte budget, read into the write pointer
   * offset by the carry, advance by whole elements, keep the remainder as
   * the new carry. `available` is what is left of the input stream.
   */
  method FeedInput(buffer: Ringbuffer, carry: nat, read: ReadBehaviour, available: seq<Byte>)
    returns (status: FeedStatus, got: nat, newCarry: nat)
    requires buffer.Valid()
    requires buffer.elementSize * MaxChunk < SizeMax
    requires carry < buffer.elementSize && |buffer.staged| == carry
    modifies buffer
    ensures buffer.Valid()
    ensures buffer.taken == old(buffer.taken)
    ensures status == Wrapped <==> old(buffer.Writeable()) == 0 && carry > 0
    ensures status == Failed <==> status != Wrapped && read.Fails?
    ensures status == NoData ==>
              read.Delivers? && (read.limit == 0 || available == [] || (old(buffer.Writeable()) == 0 && carry == 0))
    ensures status == Fed <==> 1 <= got
    ensures got <= |available|
    ensures status != Fed ==> got == 0 && newCarry == carry
    ensures status != Fed ==> buffer.unread == old(buffer.unread) && buffer.staged == old(buffer.staged)
    ensures status != Fed ==> buffer.history == old(buffer.history)
    ensures newCarry < buffer.elementSize && |buffer.staged| == newCarry
    ensures |old(buffer.history)| <= |buffer.history|
    ensures buffer.elementSize * |buffer.history| + newCarry
              == buffer.elementSize * |old(buffer.history)| + carry + got
    ensures |buffer.history| - |old(buffer.history)| <= ReadElements(old(buffer.Writeable()))
    // a fed read commits the whole elements of carry plus bytes read and carries the rest
    ensures status == Fed ==> newCarry == (carry + got) % buffer.elementSize
                              && |buffer.unread| == |old(buffer.unread)| + (carry + got) / buffer.elementSize
    // read() hands over as much as it may: the round's limit, the rest of the
    // stream or the budget, whichever is smallest
    ensures read.Fails? ==> got == 0
    ensures read.Delivers? ==> got <= read.limit
    ensures status != Wrapped ==> carry + got <= ReadElements(old(buffer.Writeable())) * buffer.elementSize
    ensures read.Delivers? && status != Wrapped ==>
              got == Min(Min(read.limit, |available|), Budget(old(buffer.Writeable()), carry, buffer.elementSize))
    // a partial element left over always has room to be completed
    ensures status != Wrapped && newCarry > 0 ==> |buffer.unread| < buffer.capacity
    ensures Flatten(buffer.history) + buffer.staged
              == Flatten(old(buffer.history)) + old(buffer.staged) + available[..got]
  {
    var size := buffer.elementSize;
    var elements := ReadElements(buffer.Writeable());
    MulMonotone(elements, MaxChunk, size);
    var budget := ReadBudget(elements, carry, size);
    BudgetWrapsOnlyWhenFull(buffer.Writeable(), carry, size);
    if budget > elements * size {
      // The size_t subtraction wrapped: the source's read() would write past
      // the writeable area. The model stops here.
      return Wrapped, 0, carry;
    }
    var result := match read
      case Fails => ReadError
      case Delivers(limit) => Got(Min(Min(limit, budget), |available|));
    var commit := CommitRead(result, carry, size);
    if commit.None? {
      status := if read.Fails? then Failed else NoData;
      return status, 0, carry;
    }
    got := result.count;
    newCarry := commit.value.carry;
    CommitFitsRoom(elements, carry, size, got);
    MulMonotone(elements, buffer.Writeable(), size);
    if newCarry > 0 {
      MulCancelLess(commit.value.advance, elements, size);
    }
    StoreAndAdvance(buffer, carry, available[..got], commit.value.advance);
    status := Fed;
  }

  /**
   * `read()` into getWritePointer() + read_over followed by `advance`: the
   * new bytes land right after the carried ones and the whole elements among
   * them are committed.
   */
  method StoreAndAdvance(buffer: Ringbuffer, carry: nat, bytes: seq<Byte>, advance: nat)
    requires buffer.Valid() && |buffer.staged| == carry
    requires carry + |bytes| <= buffer.Writeable() * buffer.elementSize
    requires advance <= buffer.Writeable() && buffer.elementSize * advance <= carry + |bytes|
    modifies buffer
    ensures buffer.Valid()
    ensures buffer.taken == old(buffer.taken)
    ensures |buffer.history| == |old(buffer.history)| + advance
    ensures |buffer.staged| == carry + |bytes| - buffer.elementSize * advance
    ensures buffer.elementSize * |buffer.history| + |buffer.staged|
              == buffer.elementSize * |old(buffer.history)| + carry + |bytes|
    ensures Flatten(buffer.history) + buffer.staged == Flatten(old(buffer.history)) + old(buffer.staged) + bytes
  {
    ghost var staged := buffer.staged + bytes;
    buffer.Write(carry, bytes);
    assert buffer.staged == staged;
    buffer.Advance(advance);
    CommitKeepsBytes(old(buffer.history), staged, buffer.elementSize, advance);
    MulAdd(buffer.elementSize, |old(buffer.history)|, advance);
  }

  /** Committing whole elements from the staged bytes moves bytes from one side to the other and loses none. */
  lemma CommitKeepsBytes(history: seq<Element>, staged: seq<Byte>, size: nat, advance: nat)
    requires size * advance <= |staged|
    ensures Flatten(history + Group(staged[..size * advance], size, advance)) + staged[size * advance..]
            == Flatten(history) + staged
  {
    var added := Group(staged[..size * advance], size, advance);
    FlattenAppend(history, added);
    FlattenGroup(staged[..size * advance], size, advance);
    assert staged == staged[..size * advance] + staged[size * advance..];
  }

  // ---------------------------------------------------------------------
  // Command::runModule
  // ---------------------------------------------------------------------

  /**
   * The driver loop of Command::runModule over a script of rounds.
   * `capacity` is bufferSize(), `elementSize` is sizeof(T), `need` the
   * stage's block size, `async` whether an AsyncRunner drains the buffer
   * (not modelled: in that mode nothing consumes in the model), `hasFifo`
   * whether the control fifo opened. Returns why it stopped, how many
   * rounds ran, how many input bytes were read, the final carry, the
   * elements committed, taken by the stage and left unread, and the lines
   * handed to processFifoData().
   */
  method RunModule(capacity: nat, elementSize: nat, need: nat, async: bool, hasFifo: bool,
                   stream: seq<Byte>, rounds: seq<Round>)
    returns (exit: Exit, executed: nat, consumed: nat, readOver: nat,
             ghost committed: seq<Element>, ghost processed: seq<Element>, ghost pending: seq<Element>,
             lines: seq<string>)
    requires 1 <= elementSize && elementSize * MaxChunk < SizeMax
    requires need >= 1
    requires forall k :: 0 <= k < |rounds| ==> FromFgets(rounds[k])
    ensures executed <= |rounds|
    // the carry is a partial element
    ensures readOver < elementSize
    // byte conservation: every byte read is in a committed element or in the carry
    ensures consumed <= |stream| && consumed == elementSize * |committed| + readOver
    // the committed elements are the input's bytes, in order, cut at sizeof(T)
    ensures Uniform(committed, elementSize) && Flatten(committed) == stream[..consumed - readOver]
    // the stage sees the committed elements in order, none lost or repeated
    ensures committed == processed + pending && |pending| <= capacity
    // synchronous mode drains after every read
    ensures !async ==> |pending| < need
    // a carried partial element always has room, so the read budget never wraps
    ensures readOver > 0 ==> |pending| < capacity
    ensures lines == ControlLines(rounds, executed, hasFifo)
    ensures exit == RoundsExhausted ==> executed == |rounds|
    ensures exit != RoundsExhausted ==> executed >= 1 && StopsOn(exit, rounds[executed - 1], hasFifo)
    ensures forall k :: 0 <= k < executed - 1 ==> Continues(rounds[k], hasFifo)
    // every read got at least one byte, except a last one that failed or delivered nothing
    ensures ReadRounds(rounds, executed) <= consumed + (if exit == EndOfInput || exit == ReadFailed then 1 else 0)
    // the run follows the state machine on counts: the counts are those after
    // `executed` passes, every pass but the last went on, the last stopped for `exit`
    ensures Counts(consumed, readOver, |pending|)
            == CountsAfter(Setup(capacity, elementSize, need, async, |stream|), rounds, executed)
    ensures exit == RoundsExhausted ==>
              WentOn(Setup(capacity, elementSize, need, async, |stream|), rounds, hasFifo, executed)
    ensures exit != RoundsExhausted ==>
              executed >= 1 && WentOn(Setup(capacity, elementSize, need, async, |stream|), rounds, hasFifo, executed - 1)
              && RoundExit(Setup(capacity, elementSize, need, async, |stream|),
                           CountsAfter(Setup(capacity, elementSize, need, async, |stream|), rounds, executed - 1),
                           rounds[executed - 1], hasFifo) == Some(exit)
    // a failed or zero-byte read ends the loop, and that last pass consumed nothing
    ensures exit == EndOfInput || exit == ReadFailed ==>
              executed >= 1
              && CountsAfter(Setup(capacity, elementSize, need, async, |stream|), rounds, executed)
                 == CountsAfter(Setup(capacity, elementSize, need, async, |stream|), rounds, executed - 1)
    ensures exit == EndOfInput ==>
              executed >= 1 && rounds[executed - 1].read.Delivers?
              && (rounds[executed - 1].read.limit == 0 || consumed == |stream|
                  || (|pending| == capacity && readOver == 0))
  {
    var buffer := new Ringbuffer(capacity, elementSize);
    var stage := new Stage(buffer, need);
    exit, executed, consumed, readOver, lines := Drive(stage, async, hasFifo, stream, rounds);
    committed, processed, pending := buffer.history, buffer.taken, buffer.unread;
    DropCarry(Flatten(committed), buffer.staged, stream, consumed);
    ghost var p := Setup(capacity, elementSize, need, async, |stream|);
    assert p == SetupOf(stage, async, stream);
    RunFacts(p, rounds, hasFifo, exit, executed);
  }

  /**
   * What a run of the state machine that stopped for `exit` after
   * `executed` passes shows: the stop reason is one the last round shows,
   * every earlier round let the loop go on, the passes that read number at
   * most the bytes read (plus one when the last read failed or got
   * nothing), and a last read that failed or got nothing consumed nothing.
   */
  lemma RunFacts(p: Setup, rounds: seq<Round>, hasFifo: bool, exit: Exit, executed: nat)
    requires Configured(p) && executed <= |rounds|
    requires exit == RoundsExhausted ==> WentOn(p, rounds, hasFifo, executed)
    requires exit != RoundsExhausted ==>
               executed >= 1 && WentOn(p, rounds, hasFifo, executed - 1)
               && RoundExit(p, CountsAfter(p, rounds, executed - 1), rounds[executed - 1], hasFifo) == Some(exit)
    ensures exit != RoundsExhausted ==> executed >= 1 && StopsOn(exit, rounds[executed - 1], hasFifo)
    ensures forall k :: 0 <= k < executed - 1 ==> Continues(rounds[k], hasFifo)
    ensures ReadRounds(rounds, executed)
            <= CountsAfter(p, rounds, executed).consumed + (if exit == EndOfInput || exit == ReadFailed then 1 else 0)
    ensures exit == EndOfInput || exit == ReadFailed ==>
              executed >= 1 && CountsAfter(p, rounds, executed) == CountsAfter(p, rounds, executed - 1)
    ensures exit == EndOfInput ==>
              executed >= 1 && rounds[executed - 1].read.Delivers?
              && var s := CountsAfter(p, rounds, executed - 1);
                 rounds[executed - 1].read.limit == 0 || s.consumed == p.streamLength
                 || (s.unread == p.capacity && s.carry == 0)
  {
    forall k | 0 <= k < executed - 1
      ensures Continues(rounds[k], hasFifo)
    {
      RoundExitShowsReason(p, CountsAfter(p, rounds, k), rounds[k], hasFifo);
    }
    if executed >= 1 {
      var last := CountsAfter(p, rounds, executed - 1);
      var r := rounds[executed - 1];
      RoundExitShowsReason(p, last, r, hasFifo);
      EndOfInputExactly(p, last, r, hasFifo);
      ReadRoundsBound(p, rounds, hasFifo, executed - 1);
      if Serves(r) && exit != EndOfInput && exit != ReadFailed {
        ServedPassAdvances(p, last, r, hasFifo);
      }
    }
  }

  /** The `while (run)` loop itself (lines 99-145), on a stage set up by RunModule. */
  method Drive(stage: Stage, async: bool, hasFifo: bool, stream: seq<Byte>, rounds: seq<Round>)
    returns (exit: Exit, executed: nat, consumed: nat, readOver: nat, lines: seq<string>)
    requires Accounted(stage, async, stream, 0, 0) && stage.buffer.unread == []
    requires forall k :: 0 <= k < |rounds| ==> FromFgets(rounds[k])
    modifies stage.buffer
    ensures executed <= |rounds|
    ensures Accounted(stage, async, stream, consumed, readOver)
    ensures lines == ControlLines(rounds, executed, hasFifo)
    // the run is the state machine's: the counts are those after `executed` passes,
    // every pass but the last went on, and the last one stopped for `exit`
    ensures Counts(consumed, readOver, |stage.buffer.unread|) == CountsAfter(SetupOf(stage, async, stream), rounds, executed)
    ensures exit == RoundsExhausted ==> executed == |rounds| && WentOn(SetupOf(stage, async, stream), rounds, hasFifo, executed)
    ensures exit != RoundsExhausted ==>
              executed >= 1 && WentOn(SetupOf(stage, async, stream), rounds, hasFifo, executed - 1)
              && RoundExit(SetupOf(stage, async, stream), CountsAfter(SetupOf(stage, async, stream), rounds, executed - 1),
                           rounds[executed - 1], hasFifo) == Some(exit)
  {
    ghost var p := SetupOf(stage, async, stream);
    readOver, consumed, executed, lines := 0, 0, 0, [];
    exit := RoundsExhausted;
    while executed < |rounds|
      invariant executed <= |rounds| && exit == RoundsExhausted
      invariant Accounted(stage, async, stream, consumed, readOver)
      invariant lines == ControlLines(rounds, executed, hasFifo)
      invariant Counts(consumed, readOver, |stage.buffer.unread|) == CountsAfter(p, rounds, executed)
      invariant WentOn(p, rounds, hasFifo, executed)
    {
      ghost var before := CountsAfter(p, rounds, executed);
      var round := rounds[executed];
      var outcome, line;
      outcome, consumed, readOver, line := RunRound(stage, async, hasFifo, round, stream, consumed, readOver);
      assert outcome == RoundExit(p, before, round, hasFifo);
      lines := lines + line;
      executed := executed + 1;
      assert CountsAfter(p, rounds, executed) == NextCounts(p, before, round);
      if outcome.Some? {
        exit := outcome.value;
        assert before == CountsAfter(p, rounds, executed - 1) && round == rounds[executed - 1];
        assert RoundExit(p, CountsAfter(p, rounds, executed - 1), rounds[executed - 1], hasFifo) == Some(exit);
        break;
      }
      WentOnStep(p, rounds, hasFifo, executed - 1);
    }
  }

  /** Without the carry, the bytes read so far are the committed ones. */
  lemma DropCarry(flat: seq<Byte>, carry: seq<Byte>, stream: seq<Byte>, consumed: nat)
    requires consumed <= |stream| && flat + carry == stream[..consumed]
    ensures flat == stream[..consumed - |carry|]
  {
    assert flat == (flat + carry)[..|flat|];
  }

  /**
   * One pass of `while (run)` (lines 100-144): a failed select() stops the
   * driver; a ready fifo hands its line on; ready standard input is read,
   * committed and drained; end-of-file on the fifo stops the driver.
   * `outcome` is None when the driver goes on to the next pass.
   */
  method RunRound(stage: Stage, async: bool, hasFifo: bool, round: Round, stream: seq<Byte>,
                  consumed: nat, readOver: nat)
    returns (outcome: Option<Exit>, consumed': nat, readOver': nat, line: seq<string>)
    requires Accounted(stage, async, stream, consumed, readOver) && FromFgets(round)
    modifies stage.buffer
    ensures Accounted(stage, async, stream, consumed', readOver')
    ensures consumed <= consumed'
    ensures line == RoundLine(round, hasFifo)
    ensures round.wake.SelectFailed? ==> outcome == Some(SelectError)
    ensures hasFifo && round.fifoAtEof ==> outcome.Some?
    ensures outcome.Some? ==> StopsOn(outcome.value, round, hasFifo)
    ensures outcome.None? <==> Continues(round, hasFifo) && !(Serves(round) && consumed' == consumed)
    // ready standard input is read; an error or a zero-byte read ends the loop
    ensures Serves(round) ==> (outcome == Some(ReadFailed) <==> round.read.Fails?)
    ensures Serves(round) && round.read.Delivers? ==> (outcome == Some(EndOfInput) <==> consumed' == consumed)
    ensures Serves(round) && round.read.Delivers? ==>
              (consumed' == consumed <==>
                 round.read.limit == 0 || consumed == |stream|
                 || (|old(stage.buffer.unread)| == stage.buffer.capacity && readOver == 0))
    ensures Serves(round) && round.read.Delivers? ==>
              consumed' == consumed + Delivered(SetupOf(stage, async, stream),
                                                Counts(consumed, readOver, |old(stage.buffer.unread)|), round.read.limit)
    ensures !Serves(round) ==> consumed' == consumed
    // a round that stops on its read consumed nothing; any other round that read got bytes
    ensures outcome == Some(EndOfInput) || outcome == Some(ReadFailed) ==> consumed' == consumed
    ensures Serves(round) && outcome != Some(EndOfInput) && outcome != Some(ReadFailed) ==>
              round.read.Delivers? && consumed < consumed'
    // the pass is the state machine's step: it stops as RoundExit says and moves the counts as NextCounts does
    ensures outcome == RoundExit(SetupOf(stage, async, stream), Counts(consumed, readOver, |old(stage.buffer.unread)|),
                                 round, hasFifo)
    ensures Counts(consumed', readOver', |stage.buffer.unread|)
            == NextCounts(SetupOf(stage, async, stream), Counts(consumed, readOver, |old(stage.buffer.unread)|), round)
    // nothing read, nothing changed
    ensures consumed' == consumed ==> readOver' == readOver && stage.buffer.unread == old(stage.buffer.unread)
                                      && stage.buffer.history == old(stage.buffer.history)
  {
    consumed', readOver', line := consumed, readOver, [];
    if round.wake.SelectFailed? {
      return Some(SelectError), consumed', readOver', line;
    }
    if round.wake.Ready? {
      if hasFifo && round.wake.fifoReady && round.line.Some? {
        line := [TrimControlLine(round.line.value)];
      }
      if round.wake.stdinReady {
        var status;
        status, consumed', readOver' := ServeInput(stage, async, round.read, stream, consumed, readOver);
        if status != Fed {
          outcome := Some(if status == Failed then ReadFailed else EndOfInput);
          return;
        }
      }
    }
    if hasFifo && round.fifoAtEof {
      // the source clears its run flag here, which ends the loop at the same point
      return Some(ControlClosed), consumed', readOver', line;
    }
    outcome := None;
  }

  /**
   * What the driver loop keeps between rounds: the carry is a partial
   * element sitting at the write pointer, every byte read so far is in a
   * committed element or in the carry, in order, and in synchronous mode the
   * stage has drained the buffer.
   */
  ghost predicate Accounted(stage: Stage, async: bool, stream: seq<Byte>, consumed: nat, readOver: nat)
    reads stage, stage.buffer
  {
    && stage.Valid()
    && stage.buffer.elementSize * MaxChunk < SizeMax
    && readOver < stage.buffer.elementSize && |stage.buffer.staged| == readOver
    && consumed <= |stream|
    && Flatten(stage.buffer.history) + stage.buffer.staged == stream[..consumed]
    && stage.buffer.elementSize * |stage.buffer.history| + readOver == consumed
    && (!async ==> |stage.buffer.unread| < stage.need)
    && (readOver > 0 ==> |stage.buffer.unread| < stage.buffer.capacity)
  }

  /**
   * The stdin half of a round: one FeedInput and, in synchronous mode, the
   * stage drains the buffer. Keeps the driver loop's byte accounting.
   */
  method ServeInput(stage: Stage, async: bool, read: ReadBehaviour, stream: seq<Byte>,
                    consumed: nat, readOver: nat)
    returns (status: FeedStatus, consumed': nat, readOver': nat)
    requires Accounted(stage, async, stream, consumed, readOver)
    modifies stage.buffer
    ensures Accounted(stage, async, stream, consumed', readOver')
    ensures consumed <= consumed'
    // the budget never wraps: a carried partial element always has room
    ensures status != Wrapped
    ensures status == Failed <==> read.Fails?
    ensures status == Fed <==> consumed < consumed'
    // a zero-byte read: a zero limit, the end of the stream, or a full buffer and no carry
    ensures status == NoData <==>
              read.Delivers? && (read.limit == 0 || consumed == |stream|
                                 || (|old(stage.buffer.unread)| == stage.buffer.capacity && readOver == 0))
    ensures status != Fed ==> readOver' == readOver && stage.buffer.unread == old(stage.buffer.unread)
                              && stage.buffer.history == old(stage.buffer.history)
    // read() is handed the smallest of the round's limit, the rest of the stream and the budget
    ensures read.Delivers? ==>
              consumed' == consumed + Delivered(SetupOf(stage, async, stream),
                                                Counts(consumed, readOver, |old(stage.buffer.unread)|), read.limit)
    // bytes read, carry and unread count move as Fill says
    ensures Counts(consumed', readOver', |stage.buffer.unread|)
            == Fill(SetupOf(stage, async, stream), Counts(consumed, readOver, |old(stage.buffer.unread)|), read)
  {
    ghost var p := SetupOf(stage, async, stream);
    ghost var before := Counts(consumed, readOver, |stage.buffer.unread|);
    var got, newCarry;
    status, got, newCarry := FeedInput(stage.buffer, readOver, read, stream[consumed..]);
    assert got == if read.Fails? then 0 else Delivered(p, before, read.limit);
    if status != Fed {
      FillCounts(p, before, read, 0, readOver, before.unread, before.unread);
      return status, consumed, readOver;
    }
    ghost var fed := |stage.buffer.unread|;
    assert stream[..consumed + got] == stream[..consumed] + stream[consumed..][..got];
    consumed', readOver' := consumed + got, newCarry;
    if !async {
      Drain(stage);
    }
    FillCounts(p, before, read, got, newCarry, fed, |stage.buffer.unread|);
  }

  /**
   * Byte-carry correctness does not depend on chunking: whatever the rounds,
   * the elements committed are the input's first bytes cut at sizeof(T), so
   * two runs over the same input agree on every element both committed.
   */
  lemma {:induction false} CommittedElementsAgree(stream: seq<Byte>, size: nat,
                                                  a: seq<Element>, b: seq<Element>)
    requires size >= 1 && Uniform(a, size) && Uniform(b, size)
    requires |a| <= |b|
    requires size * |b| <= |stream|
    requires Flatten(a) == stream[..size * |a|] && Flatten(b) == stream[..size * |b|]
    ensures a == b[..|a|]
  {
    var head := b[..|a|];
    assert b == head + b[|a|..];
    FlattenAppend(head, b[|a|..]);
    assert Uniform(head, size);
    FlattenLength(head, size);
    MulMonotone(|a|, |b|, size);
    assert Flatten(head) == Flatten(b)[..size * |a|];
    SameBytesSameElements(a, head, size);
  }

  // ---------------------------------------------------------------------
  // FftCommand::isPowerOf2
  // ---------------------------------------------------------------------

  function Pow2(k: nat): (p: nat)
    ensures p >= 1
  {
    if k == 0 then 1 else 2 * Pow2(k - 1)
  }

  /** Number of set bits among the `n` lowest bits of `x`. */
  function Ones(x: nat, n: nat): nat {
    if n == 0 then 0 else x % 2 + Ones(x / 2, n - 1)
  }

  ghost predicate IsPowerOf2Below(x: nat, n: nat) {
    exists k :: 0 <= k < n && x == Pow2(k)
  }

  /** Below 2^n, no bit set means zero. */
  lemma {:induction false} NoOnesMeansZero(x: nat, n: nat)
    requires x < Pow2(n)
    ensures Ones(x, n) == 0 <==> x == 0
  {
    if n > 0 {
      NoOnesMeansZero(x / 2, n - 1);
    }
  }

  /** Below 2^n, exactly one set bit means a power of two. */
  lemma {:induction false} OneBitIsPowerOf2(x: nat, n: nat)
    requires x < Pow2(n)
    ensures Ones(x, n) == 1 <==> IsPowerOf2Below(x, n)
  {
    if n == 0 {
    } else if x % 2 == 1 {
      NoOnesMeansZero(x / 2, n - 1);
      if x == 1 {
        assert x == Pow2(0);
      } else {
        forall k | 0 <= k < n ensures x != Pow2(k) {
          if k > 0 { assert Pow2(k) == 2 * Pow2(k - 1); }
        }
      }
    } else {
      OneBitIsPowerOf2(x / 2, n - 1);
      if IsPowerOf2Below(x / 2, n - 1) {
        var k :| 0 <= k < n - 1 && x / 2 == Pow2(k);
        assert x == Pow2(k + 1);
      }
      if IsPowerOf2Below(x, n) {
        var k :| 0 <= k < n && x == Pow2(k);
        assert k > 0;
        assert x / 2 == Pow2(k - 1);
      }
    }
  }

  /** `x >> i` on an unsigned value: i halvings. */
  function Shr(x: nat, i: nat): nat {
    if i == 0 then x else Shr(x / 2, i - 1)
  }

  /** Shifting right by i + 1 is shifting right by i and halving. */
  lemma {:induction false} ShrStep(x: nat, i: nat)
    ensures Shr(x, i + 1) == Shr(x, i) / 2
  {
    if i > 0 {
      ShrStep(x / 2, i - 1);
    }
  }

  /** Shifting a value below 2^n right by n leaves nothing. */
  lemma {:induction false} ShrAllOut(x: nat, n: nat)
    requires x < Pow2(n)
    ensures Shr(x, n) == 0
  {
    if n > 0 {
      ShrAllOut(x / 2, n - 1);
    }
  }

  /**
   * FftCommand::isPowerOf2: counts the set bits of a 32-bit unsigned size
   * and accepts exactly one, i.e. the sizes 2^0 .. 2^31.
   */
  method IsPowerOf2(size: nat) returns (r: bool)
    requires size < Pow2(32)
    ensures r <==> IsPowerOf2Below(size, 32)
  {
    var bitcount: nat := 0;
    for i := 0 to 32
      invariant bitcount <= i
      invariant bitcount + Ones(Shr(size, i), 32 - i) == Ones(size, 32)
    {
      ShrStep(size, i);
      bitcount := bitcount + Shr(size, i) % 2;
    }
    ShrAllOut(size, 32);
    assert bitcount == Ones(size, 32);
    OneBitIsPowerOf2(size, 32);
    r := bitcount == 1;
  }

  // ---------------------------------------------------------------------
  // The report counter of PowerCommand, SquelchCommand, SnrCommand and
  // SnrSquelchCommand
  // ---------------------------------------------------------------------

  /**
   * One call of the report callback: the counter is decremented first; when
   * it reaches zero or less a report is due and the counter is reloaded.
   * The result is (report due, new counter).
   */
  function Tick(interval: int, counter: int): (r: (bool, int))
    ensures r.0 <==> counter <= 1
    ensures r.0 ==> r.1 == interval
    ensures !r.0 ==> r.1 == counter - 1 && r.1 >= 1
  {
    if counter - 1 <= 0 then (true, interval) else (false, counter - 1)
  }

  /** After `m` measurements from a fresh counter: whether the m-th reported, and the counter. */
  function AfterMeasurements(interval: int, m: nat): (bool, int) {
    if m == 0 then (false, interval) else Tick(interval, AfterMeasurements(interval, m - 1).1)
  }

  /** With a positive interval the counter counts down from N to 1 and starts over. */
  lemma {:induction false} CounterCountsDown(interval: int, m: nat)
    requires interval >= 1
    ensures AfterMeasurements(interval, m).1 == interval - m % interval
  {
    if m > 0 {
      CounterCountsDown(interval, m - 1);
      ModStep(m - 1, interval);
    }
  }

  /** With a non-positive interval the counter is reset to it after every measurement. */
  lemma {:induction false} CounterStaysAtInterval(interval: int, m: nat)
    requires interval <= 0
    ensures AfterMeasurements(interval, m) == (m > 0, interval)
  {
    if m > 0 {
      CounterStaysAtInterval(interval, m - 1);
    }
  }

  /**
   * The m-th measurement is reported exactly when m is a multiple of the
   * interval; with an interval of zero or less, every measurement is.
   */
  lemma ReportsEveryNth(interval: int, m: nat)
    requires m >= 1
    ensures AfterMeasurements(interval, m).0 <==> interval <= 0 || m % interval == 0
  {
    if interval <= 0 {
      CounterStaysAtInterval(interval, m);
    } else {
      CounterCountsDown(interval, m - 1);
      CounterCountsDown(interval, m);
      ModStep(m - 1, interval);
    }
  }

  /** The `reportCounter` local captured by reference in the report callback. */
  class ReportCounter {
    const interval: int
    var counter: int
    ghost var measurements: nat

    ghost predicate Valid()
      reads this
    {
      counter == AfterMeasurements(interval, measurements).1
    }

    /** `int reportCounter = reportInterval;` */
    constructor (reportInterval: int)
      ensures Valid()
      ensures interval == reportInterval && counter == reportInterval && measurements == 0
    {
      interval := reportInterval;
      counter := reportInterval;
      measurements := 0;
    }

    /** The callback body, run once per measurement; returns whether it reported. */
    method Measured() returns (report: bool)
      requires Valid()
      modifies this
      ensures Valid()
      ensures measurements == old(measurements) + 1
      ensures report <==> interval <= 0 || measurements % interval == 0
      ensures report ==> counter == interval
      ensures !report ==> counter == old(counter) - 1
    {
      counter := counter - 1;
      report := counter <= 0;
      if report {
        counter := interval;
      }
      measurements := measurements + 1;
      ReportsEveryNth(interval, measurements);
    }
  }
}
