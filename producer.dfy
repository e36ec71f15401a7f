/** The block producer `File2Block` that the `file2block` attribute generates
    around each boundary finder (src/fasta.rs:13, src/fastq.rs:13). The
    mapped file is a byte sequence; a cursor walks over it. Each step takes a
    window of at most `blocksize` bytes; a window that reaches the end of the
    file is returned whole, any other one is shortened to the boundary the
    finder reports and the cursor moves past it. */
module Producer {
  import opened Bytes
  import opened Layout
  import Fasta
  import Fastq

  /** The finder a producer runs. For FASTA the look-back budget is part
      of the format: `FASTA` is the producer of the source, with its two
      probes; `FASTA_CORRECTED` runs the corrected finder. */
  datatype Format = FastaFormat(probes: nat) | FastqFormat

  /** `File2Block` of src/fasta.rs:13, around the finder as written. */
  const FASTA: Format := FastaFormat(Fasta.SOURCE_PROBES)

  /** The same producer around the corrected finder. */
  const FASTA_CORRECTED: Format := FastaFormat(Fasta.PROBES)

  /** The block size of `File2Block::new` and `File2Block::with_offset`. */
  const DEFAULT_BLOCKSIZE: nat := 8192

  /** The sigil that starts a record of the format. */
  function Sigil(format: Format): byte
  {
    match format
    case FastaFormat(_) => GT
    case FastqFormat => AT
  }

  /** `correct_block_size(window)`: the finder of the format, for FASTA
      with the format's look-back budget. */
  function Cut(format: Format, window: seq<byte>): (r: Result<nat>)
    ensures r.Ok? ==> IsStart(window, r.value, Sigil(format))
    ensures r.Err? ==> (r.error == NoNewLineInBlock || r.error == NotAFastaFile || r.error == NotAFastqFile)
  {
    match format
    case FastaFormat(probes) =>
      Fasta.CutIsStart(window, probes);
      Fasta.ProbeErr(window, 1, probes);
      Fasta.CutWith(window, probes)
    case FastqFormat =>
      Fastq.AnchorFromErr(window, 1);
      Fastq.CutErr(window);
      Fastq.Cut(window)
  }

  /** The length of the block the producer yields with its cursor at
      `cursor`: none once the file is exhausted, the rest of the file when
      it fits in one window, and otherwise the window cut by the finder. */
  function NextLength(format: Format, file: seq<byte>, blocksize: nat, cursor: nat): (r: Result<Option<nat>>)
    ensures r == Ok(None) <==> |file| <= cursor
    ensures r.Ok? && r.value.Some? ==>
              0 < r.value.value <= blocksize && cursor + r.value.value <= |file| &&
              (cursor + r.value.value == |file| || IsStart(file, cursor + r.value.value, Sigil(format)))
    ensures r.Ok? && r.value.Some? && cursor + r.value.value == |file| ==> |file| - cursor <= blocksize
    ensures cursor < |file| && |file| - cursor <= blocksize ==> r == Ok(Some(|file| - cursor))
    ensures r.Err? ==> cursor + blocksize < |file| && (r.error == NoNewLineInBlock || r.error == NotAFastaFile || r.error == NotAFastqFile)
  {
    if |file| <= cursor then Ok(None)
    else if |file| - cursor <= blocksize then Ok(Some(|file| - cursor))
    else
      var window := file[cursor..cursor + blocksize];
      match Cut(format, window)
      case Err(e) => Err(e)
      case Ok(c) =>
        StartInFile(file, cursor, blocksize, c, Sigil(format));
        Ok(Some(c))
  }

  /** Where the producer as written takes a step, the corrected one takes
      the same step; the two differ only where the one as written fails. */
  lemma CorrectedAgrees(file: seq<byte>, blocksize: nat, cursor: nat)
    requires NextLength(FASTA, file, blocksize, cursor).Ok?
    ensures NextLength(FASTA_CORRECTED, file, blocksize, cursor) == NextLength(FASTA, file, blocksize, cursor)
  {
    if cursor < |file| && blocksize < |file| - cursor {
      var window := file[cursor..cursor + blocksize];
      Fasta.ProbeMoreBudget(window, 1, Fasta.SOURCE_PROBES, Fasta.PROBES);
    }
  }

  /** A record start inside a window of the file is one in the file. */
  lemma StartInFile(file: seq<byte>, cursor: nat, size: nat, c: nat, sigil: byte)
    requires cursor + size <= |file| && IsStart(file[cursor..cursor + size], c, sigil)
    ensures 0 < c < size && IsStart(file, cursor + c, sigil)
  {
    var window := file[cursor..cursor + size];
    assert file[cursor + c - 1] == window[c - 1] && file[cursor + c] == window[c];
  }

  // ------------------------------------------------ the blocks of a whole file

  /** The producer's steps over one file, as a value: from each cursor,
      the length of the block it yields there. The generated producer is
      generic over its finder; the lemmas below are generic over the steps
      and hold for every format through FormatSteps. */
  type Stepper = nat -> Result<Option<nat>>

  /** The steps of the producer of `format` over `file`. */
  function Steps(format: Format, file: seq<byte>, blocksize: nat): Stepper
  {
    cursor => NextLength(format, file, blocksize, cursor)
  }

  /** A step from `cursor`: none exactly once the file is exhausted,
      otherwise a non-empty block inside the file. */
  ghost predicate Advance(r: Result<Option<nat>>, file: seq<byte>, cursor: nat)
  {
    (r == Ok(None) <==> |file| <= cursor) &&
    (r.Ok? && r.value.Some? ==> 0 < r.value.value && cursor + r.value.value <= |file|)
  }

  /** A step from `cursor` that advances, by at most `blocksize` bytes, to
      the end of the file or to right before a line opening with `sigil`. */
  ghost predicate StepFits(r: Result<Option<nat>>, file: seq<byte>, blocksize: nat, sigil: byte, cursor: nat)
  {
    Advance(r, file, cursor) &&
    (r.Ok? && r.value.Some? ==>
       r.value.value <= blocksize &&
       (cursor + r.value.value == |file| || IsStart(file, cursor + r.value.value, sigil)))
  }

  /** Every step of `next` advances. */
  ghost predicate Advances(next: Stepper, file: seq<byte>)
  {
    forall cursor: nat :: Advance(next(cursor), file, cursor)
  }

  /** Every step of `next` fits. */
  ghost predicate Stepwise(next: Stepper, file: seq<byte>, blocksize: nat, sigil: byte)
  {
    forall cursor: nat :: StepFits(next(cursor), file, blocksize, sigil, cursor)
  }

  /** The producer of every format steps as NextLength promises. */
  lemma FormatSteps(format: Format, file: seq<byte>, blocksize: nat)
    ensures Stepwise(Steps(format, file, blocksize), file, blocksize, Sigil(format))
    ensures Advances(Steps(format, file, blocksize), file)
  {
    var next := Steps(format, file, blocksize);
    forall cursor: nat
      ensures StepFits(next(cursor), file, blocksize, Sigil(format), cursor)
    {
      assert next(cursor) == NextLength(format, file, blocksize, cursor);
    }
  }

  /** All the blocks `next` yields from `cursor` on, or the first error. */
  function BlocksOf(next: Stepper, file: seq<byte>, cursor: nat): Result<seq<seq<byte>>>
    requires Advances(next, file)
    decreases |file| - cursor
  {
    match next(cursor)
    case Err(e) => Err(e)
    case Ok(None) => Ok([])
    case Ok(Some(n)) =>
      assert Advance(next(cursor), file, cursor);
      match BlocksOf(next, file, cursor + n)
      case Err(e) => Err(e)
      case Ok(rest) => Ok([file[cursor..cursor + n]] + rest)
  }

  /** All the blocks the producer of `format` yields from `cursor` on, or
      the first error. */
  function Blocks(format: Format, file: seq<byte>, blocksize: nat, cursor: nat): Result<seq<seq<byte>>>
  {
    FormatSteps(format, file, blocksize);
    BlocksOf(Steps(format, file, blocksize), file, cursor)
  }

  /** A non-empty list of blocks starts with the block of the first step
      and goes on with the blocks from the end of that one. */
  lemma BlocksHead(next: Stepper, file: seq<byte>, cursor: nat, bs: seq<seq<byte>>)
    requires Advances(next, file) && BlocksOf(next, file, cursor) == Ok(bs) && bs != []
    ensures next(cursor) == Ok(Some(|bs[0]|))
    ensures cursor + |bs[0]| <= |file| && bs[0] == file[cursor..cursor + |bs[0]|]
    ensures BlocksOf(next, file, cursor + |bs[0]|) == Ok(bs[1..])
  {
    var step := next(cursor);
    assert step.Ok? && step.value.Some?;
    var n := step.value.value;
    assert Advance(step, file, cursor);
    var rest := BlocksOf(next, file, cursor + n);
    assert rest.Ok? && bs == [file[cursor..cursor + n]] + rest.value;
    assert bs[1..] == rest.value;
  }

  /** No blocks only once the file is exhausted. */
  lemma BlocksEmpty(next: Stepper, file: seq<byte>, cursor: nat)
    requires Advances(next, file) && BlocksOf(next, file, cursor) == Ok([])
    ensures |file| <= cursor
  {
    var step := next(cursor);
    assert step.Ok? && step.value.None?;
    assert Advance(step, file, cursor);
  }

  /** Blocks remain while the cursor is before the end of the file. */
  lemma BlocksNonEmpty(next: Stepper, file: seq<byte>, cursor: nat, bs: seq<seq<byte>>)
    requires Advances(next, file) && BlocksOf(next, file, cursor) == Ok(bs) && bs != []
    ensures cursor < |file|
  {
    BlocksHead(next, file, cursor, bs);
    assert Advance(next(cursor), file, cursor);
  }

  /** Laid end to end, the blocks give back the rest of the file. */
  lemma {:induction false} BlocksTile(next: Stepper, file: seq<byte>, cursor: nat, bs: seq<seq<byte>>)
    requires Advances(next, file) && cursor <= |file| && BlocksOf(next, file, cursor) == Ok(bs)
    ensures Concat(bs) == file[cursor..]
    decreases |bs|
  {
    if bs == [] {
      BlocksEmpty(next, file, cursor);
    } else {
      var n := |bs[0]|;
      BlocksHead(next, file, cursor, bs);
      BlocksTile(next, file, cursor + n, bs[1..]);
      TileCons(file, cursor, n, bs);
    }
  }

  /** A block of the file followed by blocks that tile the rest tile the
      file from the block's start. */
  lemma TileCons(file: seq<byte>, cursor: nat, n: nat, bs: seq<seq<byte>>)
    requires cursor + n <= |file| && bs != [] && bs[0] == file[cursor..cursor + n]
    requires Concat(bs[1..]) == file[cursor + n..]
    ensures Concat(bs) == file[cursor..]
  {
    assert bs == [bs[0]] + bs[1..];
    ConcatCons(bs[0], bs[1..]);
    SliceSplit(file, cursor, cursor + n);
  }

  /** The first block is non-empty and at most the block size, and the
      rest follow from its end. */
  lemma BlocksFirst(next: Stepper, file: seq<byte>, blocksize: nat, sigil: byte, cursor: nat, bs: seq<seq<byte>>)
    requires Stepwise(next, file, blocksize, sigil)
    requires Advances(next, file) && BlocksOf(next, file, cursor) == Ok(bs) && bs != []
    ensures 0 < |bs[0]| <= blocksize
    ensures BlocksOf(next, file, cursor + |bs[0]|) == Ok(bs[1..])
  {
    BlocksHead(next, file, cursor, bs);
    assert StepFits(next(cursor), file, blocksize, sigil, cursor);
  }

  /** No block is empty or longer than the block size. */
  lemma {:induction false} BlocksBounded(next: Stepper, file: seq<byte>, blocksize: nat, sigil: byte, cursor: nat, bs: seq<seq<byte>>)
    requires Stepwise(next, file, blocksize, sigil)
    requires Advances(next, file) && BlocksOf(next, file, cursor) == Ok(bs)
    ensures forall b | b in bs :: 0 < |b| <= blocksize
    decreases |bs|
  {
    if bs != [] {
      BlocksFirst(next, file, blocksize, sigil, cursor, bs);
      BlocksBounded(next, file, blocksize, sigil, cursor + |bs[0]|, bs[1..]);
      BoundedCons(bs, blocksize);
    }
  }

  /** A bounded first block before bounded blocks make bounded blocks. */
  lemma BoundedCons(bs: seq<seq<byte>>, blocksize: nat)
    requires bs != [] && 0 < |bs[0]| <= blocksize
    requires forall b | b in bs[1..] :: 0 < |b| <= blocksize
    ensures forall b | b in bs :: 0 < |b| <= blocksize
  {
    assert bs == [bs[0]] + bs[1..];
  }

  /** Laid from `cursor` on, every block of `bs` but the last is followed
      in the file by a line that opens with `sigil` right after a newline. */
  ghost predicate EndAtRecords(file: seq<byte>, cursor: nat, bs: seq<seq<byte>>, sigil: byte)
    decreases |bs|
  {
    bs == [] ||
    ((|bs| > 1 ==> IsStart(file, cursor + |bs[0]|, sigil)) &&
     EndAtRecords(file, cursor + |bs[0]|, bs[1..], sigil))
  }

  /** Every block but the last ends right before a line that opens with
      the sigil. */
  lemma {:induction false} BlocksEndAtRecords(next: Stepper, file: seq<byte>, blocksize: nat, sigil: byte, cursor: nat, bs: seq<seq<byte>>)
    requires Stepwise(next, file, blocksize, sigil)
    requires Advances(next, file) && BlocksOf(next, file, cursor) == Ok(bs)
    ensures EndAtRecords(file, cursor, bs, sigil)
    decreases |bs|
  {
    if |bs| > 1 {
      var n := BlocksNext(next, file, cursor, bs);
      assert StepFits(next(cursor), file, blocksize, sigil, cursor);
      BlocksEndAtRecords(next, file, blocksize, sigil, cursor + n, bs[1..]);
    } else if |bs| == 1 {
      assert bs[1..] == [];
    }
  }

  /** A block followed by more is a step that stops short of the end of
      the file. */
  lemma BlocksNext(next: Stepper, file: seq<byte>, cursor: nat, bs: seq<seq<byte>>) returns (n: nat)
    requires Advances(next, file) && BlocksOf(next, file, cursor) == Ok(bs) && |bs| > 1
    ensures n == |bs[0]| && next(cursor) == Ok(Some(n)) && cursor + n < |file|
    ensures BlocksOf(next, file, cursor + n) == Ok(bs[1..])
  {
    BlocksHead(next, file, cursor, bs);
    n := |bs[0]|;
    BlocksNonEmpty(next, file, cursor + n, bs[1..]);
  }

  /** The producer of a format, run over a whole file from `cursor`,
      yields blocks that lay end to end give back the rest of the file;
      none is empty or longer than the block size, and every one but the
      last ends right before a line that opens with the format's sigil. */
  lemma FormatBlocks(format: Format, file: seq<byte>, blocksize: nat, cursor: nat, bs: seq<seq<byte>>)
    requires cursor <= |file| && Blocks(format, file, blocksize, cursor) == Ok(bs)
    ensures Concat(bs) == file[cursor..]
    ensures forall b | b in bs :: 0 < |b| <= blocksize
    ensures EndAtRecords(file, cursor, bs, Sigil(format))
  {
    var next := Steps(format, file, blocksize);
    FormatSteps(format, file, blocksize);
    BlocksTile(next, file, cursor, bs);
    BlocksBounded(next, file, blocksize, Sigil(format), cursor, bs);
    BlocksEndAtRecords(next, file, blocksize, Sigil(format), cursor, bs);
  }

  // ------------------------------------------------ the producer on record files

  /** The number of lines in a record of the format. */
  function LinesPerRecord(format: Format): (size: nat)
    ensures size == 2 || size == 4
  {
    match format
    case FastaFormat(_) => 2
    case FastqFormat => 4
  }

  /** The lines of whole records of the format followed, perhaps, by the
      first lines of one more. */
  ghost predicate RecordFile(format: Format, lines: seq<seq<byte>>)
  {
    match format
    case FastaFormat(_) => Fasta.RecordLines(lines)
    case FastqFormat => Fastq.RecordLines(lines)
  }

  /** Where the records of the format begin in Join(lines). */
  ghost function RecordStarts(format: Format, lines: seq<seq<byte>>): set<nat>
  {
    set j: nat | j <= |lines| && j % LinesPerRecord(format) == 0 :: Offset(lines, j)
  }

  /** Laid from `cursor` on, every block of `bs` but the last ends right
      before a position in `starts`. */
  ghost predicate EndsIn(starts: set<nat>, cursor: nat, bs: seq<seq<byte>>)
    decreases |bs|
  {
    bs == [] ||
    ((|bs| > 1 ==> cursor + |bs[0]| in starts) && EndsIn(starts, cursor + |bs[0]|, bs[1..]))
  }

  /** A step from c that stops short of the end of the file stops in `starts`. */
  ghost predicate StepStaysIn(r: Result<Option<nat>>, file: seq<byte>, starts: set<nat>, c: nat)
  {
    match r
    case Ok(Some(n)) => c + n < |file| ==> c + n in starts
    case _ => true
  }

  /** When every step from a position in `starts` stops in `starts` or at
      the end of the file, so do the blocks from a position in `starts`. */
  lemma {:induction false} BlocksStayIn(next: Stepper, file: seq<byte>, starts: set<nat>, cursor: nat, bs: seq<seq<byte>>)
    requires Advances(next, file) && forall c | c in starts :: StepStaysIn(next(c), file, starts, c)
    requires cursor in starts && BlocksOf(next, file, cursor) == Ok(bs)
    ensures EndsIn(starts, cursor, bs)
    decreases |bs|
  {
    if |bs| > 1 {
      var n := BlocksNext(next, file, cursor, bs);
      assert StepStaysIn(next(cursor), file, starts, cursor);
      BlocksStayIn(next, file, starts, cursor + n, bs[1..]);
    } else if |bs| == 1 {
      assert bs[1..] == [];
    }
  }

  /** On a file of records, every step from a record start stops at a
      record start or at the end of the file. */
  lemma StepsOnRecords(format: Format, lines: seq<seq<byte>>, blocksize: nat)
    requires format == FASTA || format == FASTA_CORRECTED || format == FastqFormat
    requires RecordFile(format, lines)
    ensures forall c | c in RecordStarts(format, lines) ::
              StepStaysIn(NextLength(format, Join(lines), blocksize, c), Join(lines), RecordStarts(format, lines), c)
  {
    var starts := RecordStarts(format, lines);
    forall c | c in starts
      ensures StepStaysIn(NextLength(format, Join(lines), blocksize, c), Join(lines), starts, c)
    {
      StepFromRecord(format, lines, blocksize, c);
    }
  }

  /** StepsOnRecords for one record start. */
  lemma StepFromRecord(format: Format, lines: seq<seq<byte>>, blocksize: nat, c: nat)
    requires format == FASTA || format == FASTA_CORRECTED || format == FastqFormat
    requires RecordFile(format, lines) && c in RecordStarts(format, lines)
    ensures StepStaysIn(NextLength(format, Join(lines), blocksize, c), Join(lines), RecordStarts(format, lines), c)
  {
    var m: nat :| m <= |lines| && m % LinesPerRecord(format) == 0 && Offset(lines, m) == c;
    var step := NextLength(format, Join(lines), blocksize, c);
    if step.Ok? && step.value.Some? && c + step.value.value < |Join(lines)| {
      var m' := StepOnRecords(format, lines, blocksize, m, step.value.value);
      assert c + step.value.value in RecordStarts(format, lines);
    }
  }

  /** A step that stops short of the end of the file is the finder's cut
      of the full window at the cursor. */
  lemma StepIsCut(format: Format, file: seq<byte>, blocksize: nat, cursor: nat, len: nat)
    requires NextLength(format, file, blocksize, cursor) == Ok(Some(len)) && cursor + len < |file|
    ensures 0 < blocksize && cursor + blocksize <= |file|
    ensures Cut(format, file[cursor..cursor + blocksize]) == Ok(len)
  {
  }

  /** A FASTA cut of a window from the start of FASTA records is the start
      of a later record. */
  lemma FastaRecordCut(lines: seq<seq<byte>>, n: nat, w: seq<byte>, probes: nat, len: nat) returns (k: nat)
    requires Fasta.RecordLines(lines) && 0 < n <= |Join(lines)| && w == Window(lines, n)
    requires probes == Fasta.SOURCE_PROBES || probes == Fasta.PROBES
    requires Fasta.CutWith(w, probes) == Ok(len)
    ensures 0 < k < |lines| && k % 2 == 0 && len == Offset(lines, k)
  {
    var t := LastStart(lines, n);
    if probes == Fasta.SOURCE_PROBES {
      Fasta.AsWrittenOnRecords(lines, n);
    } else {
      Fasta.CutOnRecords(lines, n);
    }
    k := 2 * (t / 2);
  }

  /** A FASTQ cut of a window from the start of FASTQ records is the start
      of a later record. */
  lemma FastqRecordCut(lines: seq<seq<byte>>, n: nat, w: seq<byte>, len: nat) returns (k: nat)
    requires Fastq.RecordLines(lines) && 0 < n <= |Join(lines)| && w == Window(lines, n)
    requires Fastq.Cut(w) == Ok(len)
    ensures 0 < k < |lines| && k % 4 == 0 && len == Offset(lines, k)
  {
    var t := LastStart(lines, n);
    Fastq.CutOnRecords(lines, n);
    k := 4 * (t / 4);
  }

  /** On a file of records, a step from the start of a record that stops
      short of the end of the file stops at the start of a later record. */
  lemma StepOnRecords(format: Format, lines: seq<seq<byte>>, blocksize: nat, m: nat, len: nat) returns (m': nat)
    requires format == FASTA || format == FASTA_CORRECTED || format == FastqFormat
    requires RecordFile(format, lines) && m <= |lines| && m % LinesPerRecord(format) == 0
    requires NextLength(format, Join(lines), blocksize, Offset(lines, m)) == Ok(Some(len))
    requires Offset(lines, m) + len < |Join(lines)|
    ensures m < m' <= |lines| && m' % LinesPerRecord(format) == 0
    ensures Offset(lines, m') == Offset(lines, m) + len
  {
    StepIsCut(format, Join(lines), blocksize, Offset(lines, m), len);
    m' := CutFromRecord(format, lines, m, blocksize, len);
  }

  /** On a file of records, the finder's cut of a window that begins at
      the start of a record is the start of a later record. */
  lemma CutFromRecord(format: Format, lines: seq<seq<byte>>, m: nat, n: nat, len: nat) returns (m': nat)
    requires format == FASTA || format == FASTA_CORRECTED || format == FastqFormat
    requires RecordFile(format, lines) && m <= |lines| && m % LinesPerRecord(format) == 0
    requires 0 < n && Offset(lines, m) + n <= |Join(lines)|
    requires Cut(format, Join(lines)[Offset(lines, m)..Offset(lines, m) + n]) == Ok(len)
    ensures m < m' <= |lines| && m' % LinesPerRecord(format) == 0
    ensures Offset(lines, m') == Offset(lines, m) + len
  {
    var window := Join(lines)[Offset(lines, m)..Offset(lines, m) + n];
    var k: nat;
    match format {
      case FastaFormat(probes) =>
        assert Fasta.CutWith(window, probes) == Ok(len);
        k := FastaCutFrom(lines, m, n, window, probes, len);
      case FastqFormat =>
        assert Fastq.Cut(window) == Ok(len);
        k := FastqCutFrom(lines, m, n, window, len);
    }
    m' := m + k;
    LaterRecord(lines, m, k, m', len, LinesPerRecord(format));
  }

  /** CutFromRecord for FASTA: the cut is k lines on, k even. */
  lemma FastaCutFrom(lines: seq<seq<byte>>, m: nat, n: nat, w: seq<byte>, probes: nat, len: nat) returns (k: nat)
    requires Fasta.RecordLines(lines) && m <= |lines| && m % 2 == 0
    requires 0 < n && Offset(lines, m) + n <= |Join(lines)| && w == Join(lines)[Offset(lines, m)..Offset(lines, m) + n]
    requires probes == Fasta.SOURCE_PROBES || probes == Fasta.PROBES
    requires Fasta.CutWith(w, probes) == Ok(len)
    ensures 0 < k && m + k <= |lines| && k % 2 == 0 && len == Offset(lines[m..], k)
  {
    var rest := lines[m..];
    JoinFrom(lines, m);
    assert w == Window(rest, n);
    Fasta.RecordsFrom(lines, m);
    k := FastaRecordCut(rest, n, w, probes, len);
  }

  /** CutFromRecord for FASTQ: the cut is k lines on, k a multiple of four. */
  lemma FastqCutFrom(lines: seq<seq<byte>>, m: nat, n: nat, w: seq<byte>, len: nat) returns (k: nat)
    requires Fastq.RecordLines(lines) && m <= |lines| && m % 4 == 0
    requires 0 < n && Offset(lines, m) + n <= |Join(lines)| && w == Join(lines)[Offset(lines, m)..Offset(lines, m) + n]
    requires Fastq.Cut(w) == Ok(len)
    ensures 0 < k && m + k <= |lines| && k % 4 == 0 && len == Offset(lines[m..], k)
  {
    var rest := lines[m..];
    JoinFrom(lines, m);
    assert w == Window(rest, n);
    Fastq.RecordsFrom(lines, m);
    k := FastqRecordCut(rest, n, w, len);
  }

  /** A record start k lines after the record start at line m. */
  lemma LaterRecord(lines: seq<seq<byte>>, m: nat, k: nat, m': nat, len: nat, size: nat)
    requires m' == m + k <= |lines| && (size == 2 || size == 4) && m % size == 0 && k % size == 0
    requires len == Offset(lines[m..], k)
    ensures m' % size == 0 && Offset(lines, m') == Offset(lines, m) + len
  {
    OffsetFrom(lines, m, k);
    if size == 2 {
      assert m' % 2 == 0;
    } else {
      assert m' % 4 == 0;
    }
  }

  /** On a file of whole records of the format, every block but the last
      of those produced from the start of a record ends right before the
      start of another record. */
  lemma BlocksOnRecords(format: Format, lines: seq<seq<byte>>, blocksize: nat, m: nat, bs: seq<seq<byte>>)
    requires format == FASTA || format == FASTA_CORRECTED || format == FastqFormat
    requires RecordFile(format, lines) && m <= |lines| && m % LinesPerRecord(format) == 0
    requires Blocks(format, Join(lines), blocksize, Offset(lines, m)) == Ok(bs)
    ensures EndsIn(RecordStarts(format, lines), Offset(lines, m), bs)
  {
    var next := Steps(format, Join(lines), blocksize);
    var starts := RecordStarts(format, lines);
    FormatSteps(format, Join(lines), blocksize);
    StepsOnRecords(format, lines, blocksize);
    assert forall c | c in starts :: StepStaysIn(next(c), Join(lines), starts, c);
    assert Offset(lines, m) in starts;
    BlocksStayIn(next, Join(lines), starts, Offset(lines, m), bs);
  }

  /** The producer of a format over one file (`File2Block`). */
  class BlockProducer {
    const format: Format
    const file: seq<byte>
    const blocksize: nat
    /** Where the producer started, the offset of `with_offset`. */
    ghost const start: nat
    var cursor: nat
    /** The blocks handed out so far. */
    ghost var produced: seq<seq<byte>>

    ghost predicate Valid()
      reads this
    {
      if start <= |file| then start <= cursor <= |file| && Concat(produced) == file[start..cursor]
      else cursor == start && produced == []
    }

    /** `File2Block::new`. */
    constructor (format: Format, file: seq<byte>)
      ensures Valid()
      ensures this.format == format && this.file == file && blocksize == DEFAULT_BLOCKSIZE
      ensures start == 0 && cursor == 0 && produced == []
    {
      this.format := format;
      this.file := file;
      blocksize := DEFAULT_BLOCKSIZE;
      start := 0;
      cursor := 0;
      produced := [];
    }

    /** `File2Block::with_blocksize`. */
    constructor WithBlocksize(format: Format, blocksize: nat, file: seq<byte>)
      ensures Valid()
      ensures this.format == format && this.file == file && this.blocksize == blocksize
      ensures start == 0 && cursor == 0 && produced == []
    {
      this.format := format;
      this.file := file;
      this.blocksize := blocksize;
      start := 0;
      cursor := 0;
      produced := [];
    }

    /** `File2Block::with_offset`. */
    constructor WithOffset(format: Format, offset: nat, file: seq<byte>)
      ensures Valid()
      ensures this.format == format && this.file == file && blocksize == DEFAULT_BLOCKSIZE
      ensures start == offset && cursor == offset && produced == []
    {
      this.format := format;
      this.file := file;
      blocksize := DEFAULT_BLOCKSIZE;
      start := offset;
      cursor := offset;
      produced := [];
    }

    /** `File2Block::with_blocksize_offset`. */
    constructor WithBlocksizeOffset(format: Format, blocksize: nat, offset: nat, file: seq<byte>)
      ensures Valid()
      ensures this.format == format && this.file == file && this.blocksize == blocksize
      ensures start == offset && cursor == offset && produced == []
    {
      this.format := format;
      this.file := file;
      this.blocksize := blocksize;
      start := offset;
      cursor := offset;
      produced := [];
    }

    /** `next_block`: the next block, none at the end of the file, or the
        finder's error, after which the cursor stays where it was. */
    method NextBlock() returns (r: Result<Option<seq<byte>>>)
      requires Valid()
      modifies this
      ensures Valid()
      ensures r.Ok? && r.value.None? <==> NextLength(format, file, blocksize, old(cursor)) == Ok(None)
      ensures r.Ok? && r.value.Some? ==>
                NextLength(format, file, blocksize, old(cursor)) == Ok(Some(|r.value.value|)) &&
                old(cursor) <= cursor <= |file| && cursor == old(cursor) + |r.value.value| &&
                r.value.value == file[old(cursor)..cursor] &&
                produced == old(produced) + [r.value.value]
      ensures r.Err? ==> NextLength(format, file, blocksize, old(cursor)) == Err(r.error)
      ensures !(r.Ok? && r.value.Some?) ==> cursor == old(cursor) && produced == old(produced)
    {
      var step := StepLength();
      if step.Err? {
        return Err(step.error);
      }
      if step.value.None? {
        return Ok(None);
      }
      var length := step.value.value;
      assert start <= cursor < cursor + length <= |file|;
      var block := file[cursor..cursor + length];
      ConcatStep(produced, file, start, cursor, cursor + length);
      produced := produced + [block];
      cursor := cursor + length;
      assert Concat(produced) == file[start..cursor];
      return Ok(Some(block));
    }

    /** The length of the next block: the rest of the file when it fits in
        the block size, otherwise the finder run over the window at the
        cursor. */
    method StepLength() returns (r: Result<Option<nat>>)
      ensures r == NextLength(format, file, blocksize, cursor)
    {
      if |file| <= cursor {
        return Ok(None);
      }
      if |file| - cursor <= blocksize {
        return Ok(Some(|file| - cursor));
      }
      var window := file[cursor..cursor + blocksize];
      var c: Result<nat>;
      match format {
        case FastaFormat(probes) =>
          c := Fasta.FindCut(window, probes);
        case FastqFormat =>
          c := Fastq.FindCut(window);
      }
      assert c == Cut(format, window);
      if c.Err? {
        return Err(c.error);
      }
      return Ok(Some(c.value));
    }

    /** The `Iterator` view of the producer (`next`): none at the end of
        the file, otherwise the result of `next_block`. */
    method Next() returns (r: Option<Result<seq<byte>>>)
      requires Valid()
      modifies this
      ensures Valid()
      ensures r.None? <==> NextLength(format, file, blocksize, old(cursor)) == Ok(None)
      ensures r.Some? && r.value.Ok? ==>
                NextLength(format, file, blocksize, old(cursor)) == Ok(Some(|r.value.value|)) &&
                old(cursor) <= cursor <= |file| && r.value.value == file[old(cursor)..cursor] &&
                produced == old(produced) + [r.value.value]
      ensures r.Some? && r.value.Err? ==>
                NextLength(format, file, blocksize, old(cursor)) == Err(r.value.error) &&
                cursor == old(cursor) && produced == old(produced)
    {
      var b := NextBlock();
      match b {
        case Err(e) => r := Some(Err(e));
        case Ok(None) => r := None;
        case Ok(Some(block)) => r := Some(Ok(block));
      }
    }
  }

  /** Appending the next slice of the file keeps the produced blocks equal
      to the file from `start` to the cursor. */
  lemma ConcatStep(produced: seq<seq<byte>>, file: seq<byte>, start: nat, cursor: nat, next: nat)
    requires start <= cursor <= next <= |file| && Concat(produced) == file[start..cursor]
    ensures Concat(produced + [file[cursor..next]]) == file[start..next]
  {
    ConcatAppend(produced, file[cursor..next]);
    assert file[start..next] == file[start..cursor] + file[cursor..next];
  }
}
