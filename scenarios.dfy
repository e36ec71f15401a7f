/** Concrete behaviour pinned by the unit tests of src/fastq.rs and
    src/fasta.rs, on the byte strings those tests use or on small files of
    the same shape. Each data function shows its bytes as text in its doc
    comment, with \n for a newline; its body lists the lines, each followed
    by its newline. */
module Scenarios {
  import opened Bytes
  import Fasta
  import Fastq
  import opened Producer

  // ------------------------------------------------------------ FASTQ finder

  /** "@1\nAA\n+1\n!!\n@2\nTT\n+2": a record and most of a second one. */
  function TwoFastqRecords(): (r: seq<byte>)
  {
    [64, 49] + [NL] + [65, 65] + [NL] + [43, 49] + [NL] + [33, 33] + [NL] +
    [64, 50] + [NL] + [84, 84] + [NL] + [43, 50]
  }

  /** First block of `quality_is_shit`: "@1\nAA\n+1\n!!\n@2\nTT\n+2\n!!" */
  function QualityPlain(): (r: seq<byte>)
  {
    TwoFastqRecords() + [NL] + [33, 33]
  }

  /** L0 is "@2" and L-1 ("!!") is no separator, so the cut stays before L0. */
  lemma QualityNotSeparator()
    ensures Fastq.Cut(QualityPlain()) == Ok(12)
  {
    var b := QualityPlain();
    assert |b| == 23;
    LastNewlineIs(b, 23, 20);
    LastNewlineIs(b, 20, 17);
    LastNewlineIs(b, 17, 14);
    LastNewlineIs(b, 14, 11);
    LastNewlineIs(b, 11, 8);
    assert NthLastNewline(b, 1) == Some(20);
    assert NthLastNewline(b, 2) == Some(17);
    assert NthLastNewline(b, 3) == Some(14);
    assert NthLastNewline(b, 4) == Some(11);
    assert NthLastNewline(b, 5) == Some(8);
    assert Fastq.AnchorFrom(b, 4) == Ok(4);
    assert Fastq.AnchorFrom(b, 3) == Ok(4);
    assert Fastq.AnchorFrom(b, 2) == Ok(4);
    assert Fastq.AnchorFrom(b, 1) == Ok(4);
  }

  /** Second block of `quality_is_shit`: "@1\nAA\n+1\n!!\n@2\nTT\n+2\n+!\n@3" */
  function QualityPlus(): (r: seq<byte>)
  {
    TwoFastqRecords() + [NL] + [43, 33] + [NL] + [64, 51]
  }

  /** L0 is "@3"; L-1 ("+!") and L-2 ("+2") both start with '+', so L-1 is a
      quality line and the cut stays before L0. */
  lemma QualityLooksLikeSeparator()
    ensures Fastq.Cut(QualityPlus()) == Ok(24)
  {
    var b := QualityPlus();
    assert |b| == 26;
    LastNewlineIs(b, 26, 23);
    LastNewlineIs(b, 23, 20);
    LastNewlineIs(b, 20, 17);
    assert NthLastNewline(b, 1) == Some(23);
    assert NthLastNewline(b, 2) == Some(20);
    assert NthLastNewline(b, 3) == Some(17);
    assert Fastq.AnchorFrom(b, 1) == Ok(1);
  }

  /** Third block of `quality_is_shit`: "@1\nAA\n+1\n!!\n@2\nTT\n+2\n@!" */
  function QualityAt(): (r: seq<byte>)
  {
    TwoFastqRecords() + [NL] + [64, 33]
  }

  /** L0 ("@!") is a quality line: L-1 is the separator "+2" and L-2 ("TT")
      does not start with '+'; the cut moves back to L-3, "@2". */
  lemma QualityLooksLikeComment()
    ensures Fastq.Cut(QualityAt()) == Ok(12)
  {
    var b := QualityAt();
    assert |b| == 23;
    LastNewlineIs(b, 23, 20);
    LastNewlineIs(b, 20, 17);
    LastNewlineIs(b, 17, 14);
    LastNewlineIs(b, 14, 11);
    assert NthLastNewline(b, 1) == Some(20);
    assert NthLastNewline(b, 2) == Some(17);
    assert NthLastNewline(b, 3) == Some(14);
    assert NthLastNewline(b, 4) == Some(11);
    assert Fastq.AnchorFrom(b, 1) == Ok(1);
  }

  /** The first 82 bytes of the file of `not_a_fastq`:
      "@0\nTTAGATTATAGTACGG\nATTATAT\n+1\nAGTTATCGTGTACCTC\n+1\n+CW?:KL~15\\E|MN\nGTCCCTCAATCCG\n+" */
  function NotAFastqWindow(): (r: seq<byte>)
  {
    [64, 48] + [NL] + [84, 84, 65, 71, 65, 84, 84, 65, 84, 65, 71, 84, 65, 67, 71, 71] + [NL] +
    [65, 84, 84, 65, 84, 65, 84] + [NL] + [43, 49] + [NL] +
    [65, 71, 84, 84, 65, 84, 67, 71, 84, 71, 84, 65, 67, 67, 84, 67] + [NL] + [43, 49] + [NL] +
    [43, 67, 87, 63, 58, 75, 76, 126, 49, 53, 92, 69, 124, 77, 78] + [NL] +
    [71, 84, 67, 67, 67, 84, 67, 65, 65, 84, 67, 67, 71] + [NL] + [43]
  }

  /** The file of `not_a_fastq`: the window followed by "2\n". */
  function NotAFastqData(): (r: seq<byte>)
  {
    NotAFastqWindow() + [50] + [NL]
  }

  /** The same file with more lines appended:
      "+FAILLED FILE\n+3\n+TTGGGCATGAGGTTCA\n@3ueauie\n+~vGLKg+n!*iJ\\K\n@iuiea\n" */
  function NotAFastqLonger(): (r: seq<byte>)
  {
    NotAFastqData() +
    ([43, 70, 65, 73, 76, 76, 69, 68, 32, 70, 73, 76, 69] + [NL] + [43, 51] + [NL] +
     [43, 84, 84, 71, 71, 71, 67, 65, 84, 71, 65, 71, 71, 84, 84, 67, 65] + [NL] +
     [64, 51, 117, 101, 97, 117, 105, 101] + [NL] +
     [43, 126, 118, 71, 76, 75, 103, 43, 110, 33, 42, 105, 74, 92, 75] + [NL] +
     [64, 105, 117, 105, 101, 97] + [NL])
  }

  /** The last two newlines of the `not_a_fastq` window. */
  lemma NotAFastqNewlinesNear()
    ensures |NotAFastqWindow()| == 82
    ensures NthLastNewline(NotAFastqWindow(), 1) == Some(80)
    ensures NthLastNewline(NotAFastqWindow(), 2) == Some(66)
  {
    var w := NotAFastqWindow();
    assert |w| == 82;
    LastNewlineIs(w, 82, 80);
    LastNewlineIs(w, 80, 66);
  }

  /** The two newlines before those. */
  lemma NotAFastqNewlinesMid()
    ensures var w := NotAFastqWindow();
            |w| == 82 && LastNewline(w, 66) == Some(50) && LastNewline(w, 50) == Some(47)
  {
    var w := NotAFastqWindow();
    assert |w| == 82;
    LastNewlineIs(w, 66, 50);
    LastNewlineIs(w, 50, 47);
  }

  /** And the one before those. */
  lemma NotAFastqNewlinesFar()
    ensures var w := NotAFastqWindow();
            |w| == 82 && LastNewline(w, 47) == Some(30)
  {
    var w := NotAFastqWindow();
    assert |w| == 82;
    LastNewlineIs(w, 47, 30);
  }

  /** The last five newlines of the `not_a_fastq` window. */
  lemma NotAFastqNewlines()
    ensures |NotAFastqWindow()| == 82
    ensures NthLastNewline(NotAFastqWindow(), 1) == Some(80)
    ensures NthLastNewline(NotAFastqWindow(), 2) == Some(66)
    ensures NthLastNewline(NotAFastqWindow(), 3) == Some(50)
    ensures NthLastNewline(NotAFastqWindow(), 4) == Some(47)
    ensures NthLastNewline(NotAFastqWindow(), 5) == Some(30)
  {
    NotAFastqNewlinesNear();
    NotAFastqNewlinesMid();
    NotAFastqNewlinesFar();
    var w := NotAFastqWindow();
    assert NthLastNewline(w, 3) == Some(50);
    assert NthLastNewline(w, 4) == Some(47);
  }

  /** `not_a_fastq`: none of the lines after the last five newlines of the
      82-byte window starts with '@'. */
  lemma NotAFastqCut()
    ensures Fastq.Cut(NotAFastqWindow()) == Err(NotAFastqFile)
  {
    var w := NotAFastqWindow();
    NotAFastqNewlines();
    assert w[81] == PLUS && w[67] != AT && w[51] == PLUS && w[48] == PLUS && w[31] != AT;
    assert Fastq.AnchorFrom(w, 5) == Err(NotAFastqFile);
    assert Fastq.AnchorFrom(w, 3) == Err(NotAFastqFile);
    assert Fastq.AnchorFrom(w, 1) == Err(NotAFastqFile);
  }

  /** With a block size of 82, the producer's first step over either file
      cuts the same window, so it fails. */
  lemma NotAFastqFirstStep()
    ensures NextLength(FastqFormat, NotAFastqData(), 82, 0) == Err(NotAFastqFile)
    ensures NextLength(FastqFormat, NotAFastqLonger(), 82, 0) == Err(NotAFastqFile)
  {
    NotAFastqCut();
    var w := NotAFastqWindow();
    assert |w| == 82;
    assert NotAFastqData()[0..82] == w;
    assert NotAFastqLonger()[0..82] == w;
  }

  /** The same through `next_block`: an error, and the cursor does not move. */
  method NotAFastqProducer() returns (r: Result<Option<seq<byte>>>, cursor: nat)
    ensures r == Err(NotAFastqFile) && cursor == 0
  {
    NotAFastqFirstStep();
    var producer := new BlockProducer.WithBlocksize(FastqFormat, 82, NotAFastqData());
    r := producer.NextBlock();
    cursor := producer.cursor;
  }

  /** The appended lines change nothing in the first window: `next_block`
      fails again. */
  method NotAFastqLongerProducer() returns (r: Result<Option<seq<byte>>>)
    ensures r == Err(NotAFastqFile)
  {
    NotAFastqFirstStep();
    var producer := new BlockProducer.WithBlocksize(FastqFormat, 82, NotAFastqLonger());
    r := producer.NextBlock();
  }

  /** After an error the cursor stays put, so `next` repeats that error. */
  method NextTwice(producer: BlockProducer, e: Error) returns (first: Option<Result<seq<byte>>>, second: Option<Result<seq<byte>>>)
    requires producer.Valid()
    requires NextLength(producer.format, producer.file, producer.blocksize, producer.cursor) == Err(e)
    modifies producer
    ensures producer.cursor == old(producer.cursor)
    ensures first == Some(Err(e)) && second == Some(Err(e))
  {
    first := NextFails(producer, e);
    second := NextFails(producer, e);
  }

  /** A `next` that fails leaves the producer where it was. */
  method NextFails(producer: BlockProducer, e: Error) returns (r: Option<Result<seq<byte>>>)
    requires producer.Valid()
    requires NextLength(producer.format, producer.file, producer.blocksize, producer.cursor) == Err(e)
    modifies producer
    ensures producer.Valid() && producer.cursor == old(producer.cursor)
    ensures NextLength(producer.format, producer.file, producer.blocksize, producer.cursor) == Err(e)
    ensures r == Some(Err(e))
  {
    r := producer.Next();
    assert r.Some? && !r.value.Ok?;
  }

  /** Two calls of `next` on the longer file each give an error. */
  method NotAFastqIterator() returns (first: Option<Result<seq<byte>>>, second: Option<Result<seq<byte>>>)
    ensures first == Some(Err(NotAFastqFile)) && second == Some(Err(NotAFastqFile))
  {
    NotAFastqFirstStep();
    var producer := new BlockProducer.WithBlocksize(FastqFormat, 82, NotAFastqLonger());
    first, second := NextTwice(producer, NotAFastqFile);
  }

  // ------------------------------------------------------------ FASTA finder

  /** `not_fasta`: FASTQ content through the FASTA finder. None of the lines
      after the last three newlines of the window "@1\nAA\n+1\n!!\n@2\nTT\n+2"
      starts with '>'. */
  lemma FastqIsNotFasta()
    ensures Fasta.Cut(TwoFastqRecords()) == Err(NotAFastaFile)
    ensures Fasta.CutAsWritten(TwoFastqRecords()) == Err(NotAFastaFile)
    ensures NextLength(FASTA, QualityPlain(), 20, 0) == Err(NotAFastaFile)
    ensures NextLength(FASTA_CORRECTED, QualityPlain(), 20, 0) == Err(NotAFastaFile)
  {
    var w := TwoFastqRecords();
    assert |w| == 20;
    LastNewlineIs(w, 20, 17);
    LastNewlineIs(w, 17, 14);
    LastNewlineIs(w, 14, 11);
    assert NthLastNewline(w, 1) == Some(17);
    assert NthLastNewline(w, 2) == Some(14);
    assert NthLastNewline(w, 3) == Some(11);
    assert Fasta.Probe(w, 3, 3) == Err(NotAFastaFile);
    assert Fasta.Probe(w, 1, 3) == Err(NotAFastaFile);
    assert Fasta.Probe(w, 2, 2) == Err(NotAFastaFile);
    assert Fasta.Probe(w, 1, 2) == Err(NotAFastaFile);
    assert QualityPlain()[0..20] == w;
  }

  /** Two FASTA records: ">a\nC\n>b\nG\n" */
  function TwoRecords(): (r: seq<byte>)
  {
    [62, 97] + [NL] + [67] + [NL] + [62, 98] + [NL] + [71] + [NL]
  }

  /** Three FASTA records: ">a\nC\n>b\nG\n>c\nT\n" */
  function ThreeRecords(): (r: seq<byte>)
  {
    TwoRecords() + ([62, 99] + [NL] + [84] + [NL])
  }

  /** A window of ten bytes that ends exactly on a record boundary. The two
      probes of the source stop at the newline that ends the window and at
      the one before "G"; only a third reaches the record start ">b". */
  lemma WindowOnRecordBoundary()
    ensures Fasta.CutAsWritten(TwoRecords()) == Err(NotAFastaFile)
    ensures Fasta.Cut(TwoRecords()) == Ok(5)
    ensures NextLength(FASTA, ThreeRecords(), 10, 0) == Err(NotAFastaFile)
    ensures NextLength(FASTA_CORRECTED, ThreeRecords(), 10, 0) == Ok(Some(5))
  {
    var w := TwoRecords();
    assert |w| == 10;
    LastNewlineIs(w, 10, 9);
    LastNewlineIs(w, 9, 7);
    LastNewlineIs(w, 7, 4);
    assert NthLastNewline(w, 1) == Some(9);
    assert NthLastNewline(w, 2) == Some(7);
    assert NthLastNewline(w, 3) == Some(4);
    assert Fasta.Probe(w, 3, 3) == Ok(5);
    assert Fasta.Probe(w, 1, 3) == Ok(5);
    assert Fasta.Probe(w, 2, 2) == Err(NotAFastaFile);
    assert Fasta.Probe(w, 1, 2) == Err(NotAFastaFile);
    assert ThreeRecords()[0..10] == w;
  }

  // ----------------------------------------------------------------- records

  /** The records of the FASTA file ">a\nAC\n>b\nGT\n": each comment keeps
      its '>'. */
  lemma FastaCommentKeepsSigil()
    ensures Fasta.DecodeAll([62, 97] + [NL] + [65, 67] + [NL] + [62, 98] + [NL] + [71, 84] + [NL], 0) ==
            Ok([Fasta.Record([62, 97], [65, 67]), Fasta.Record([62, 98], [71, 84])])
  {
    var rs := [Fasta.Record([62, 97], [65, 67]), Fasta.Record([62, 98], [71, 84])];
    assert Fasta.Encode(rs) == [62, 97] + [NL] + [65, 67] + [NL] + [62, 98] + [NL] + [71, 84] + [NL];
    assert Fasta.WellFormed(rs[0]) && Fasta.WellFormed(rs[1]);
    Fasta.DecodeEncode(rs);
  }

  /** The record of the FASTQ file "@r\nAC\n+r\nII\n": the comment keeps its
      '@' and the separator line its '+'. */
  lemma FastqRecordKeepsSigils()
    ensures Fastq.DecodeAll([64, 114] + [NL] + [65, 67] + [NL] + [43, 114] + [NL] + [73, 73] + [NL], 0) ==
            Ok([Fastq.Record([64, 114], [65, 67], [43, 114], [73, 73])])
  {
    var rs := [Fastq.Record([64, 114], [65, 67], [43, 114], [73, 73])];
    assert Fastq.Encode(rs) == [64, 114] + [NL] + [65, 67] + [NL] + [43, 114] + [NL] + [73, 73] + [NL];
    assert Fastq.WellFormed(rs[0]);
    Fastq.DecodeEncode(rs);
  }
}
