/** FASTA: the boundary finder `fasta(block)` and the record decoder of
    src/fasta.rs. A record is two newline-terminated lines, a comment line
    starting with '>' and a sequence line. */
module Fasta {
  import opened Bytes
  import opened Layout

  /** Look-back budget of the finder as written in src/fasta.rs:17. */
  const SOURCE_PROBES: nat := 2

  /** Look-back budget that also covers a window ending exactly on a record
      boundary, whose trailing newline the first probe skips. */
  const PROBES: nat := 3

  /** The k-th probe (k >= 1) of a finder with budget `probes`: the line after
      the k-th newline from the end is tested for '>'. */
  function Probe(b: seq<byte>, k: nat, probes: nat): Result<nat>
    requires 1 <= k
    decreases probes + 1 - k
  {
    if k > probes then Err(NotAFastaFile)
    else match NthLastNewline(b, k)
      case None => Err(NoNewLineInBlock)
      case Some(e) => if e + 1 < |b| && b[e + 1] == GT then Ok(e + 1) else Probe(b, k + 1, probes)
  }

  /** The finder with a look-back budget of `probes` newlines. */
  function CutWith(b: seq<byte>, probes: nat): Result<nat>
  {
    Probe(b, 1, probes)
  }

  /** The finder as the source writes it (two probes). */
  function CutAsWritten(b: seq<byte>): Result<nat>
  {
    CutWith(b, SOURCE_PROBES)
  }

  /** The corrected finder (three probes), used by the block producer. */
  function Cut(b: seq<byte>): Result<nat>
  {
    CutWith(b, PROBES)
  }

  /** `fasta(block)` (src/fasta.rs:14-28): `end` moves back one newline per
      probe; the first newline followed inside the block by '>' gives the cut. */
  method FindCut(block: seq<byte>, probes: nat) returns (r: Result<nat>)
    ensures r == CutWith(block, probes)
  {
    var end := |block|;
    for i := 0 to probes
      invariant end <= |block|
      invariant i == 0 ==> end == |block|
      invariant i > 0 ==> NthLastNewline(block, i) == Some(end)
      invariant Probe(block, i + 1, probes) == CutWith(block, probes)
    {
      var nl := LastNewline(block, end);
      if nl.None? {
        return Err(NoNewLineInBlock);
      }
      end := nl.value;
      if end + 1 < |block| && block[end + 1] == GT {
        return Ok(end + 1);
      }
    }
    return Err(NotAFastaFile);
  }

  /** Every cut is the start of a comment line right after a newline. */
  lemma {:induction false} ProbeIsStart(b: seq<byte>, k: nat, probes: nat)
    requires 1 <= k
    ensures Probe(b, k, probes).Ok? ==> IsStart(b, Probe(b, k, probes).value, GT)
    decreases probes + 1 - k
  {
    if k <= probes && NthLastNewline(b, k).Some? {
      var e := NthLastNewline(b, k).value;
      if !(e + 1 < |b| && b[e + 1] == GT) {
        ProbeIsStart(b, k + 1, probes);
      }
    }
  }

  lemma CutIsStart(b: seq<byte>, probes: nat)
    ensures CutWith(b, probes).Ok? ==> IsStart(b, CutWith(b, probes).value, GT)
  {
    ProbeIsStart(b, 1, probes);
  }

  /** No record start lies at or after position `from` + 1. */
  predicate NoStartAfter(b: seq<byte>, from: int)
  {
    forall p | from < p < |b| :: !IsStart(b, p, GT)
  }

  /** rightmost: between the newline of probe k-1 and the end, no record start. */
  lemma {:induction false} ProbeRightmost(b: seq<byte>, k: nat, probes: nat)
    requires 1 <= k
    requires k == 1 || NthLastNewline(b, k - 1).Some?
    requires NoStartAfter(b, if k == 1 then |b| else NthLastNewline(b, k - 1).value)
    ensures Probe(b, k, probes).Ok? ==> NoStartAfter(b, Probe(b, k, probes).value)
    decreases probes + 1 - k
  {
    if k <= probes && NthLastNewline(b, k).Some? {
      var e := NthLastNewline(b, k).value;
      var bound := if k == 1 then |b| else NthLastNewline(b, k - 1).value;
      LastNewlineSpec(b, bound);
      if !(e + 1 < |b| && b[e + 1] == GT) {
        ProbeRightmost(b, k + 1, probes);
      }
    }
  }

  /** The cut is the rightmost record start of the block. */
  lemma CutIsRightmost(b: seq<byte>, probes: nat)
    ensures CutWith(b, probes).Ok? ==> NoStartAfter(b, CutWith(b, probes).value)
  {
    ProbeRightmost(b, 1, probes);
  }

  /** Every record start lies within the lines after the last `probes` newlines. */
  predicate NoStartWithin(b: seq<byte>, probes: nat)
  {
    forall c | 0 < c < |b| && Newlines(b, c, |b|) < probes :: !IsStart(b, c, GT)
  }

  lemma {:induction false} ProbeCount(b: seq<byte>, k: nat, probes: nat)
    requires 1 <= k
    ensures Probe(b, k, probes).Ok? ==>
              Probe(b, k, probes).value <= |b| && Newlines(b, Probe(b, k, probes).value, |b|) < probes
    decreases probes + 1 - k
  {
    NthLastNewlineCount(b, k);
    if k <= probes && NthLastNewline(b, k).Some? {
      var e := NthLastNewline(b, k).value;
      if !(e + 1 < |b| && b[e + 1] == GT) {
        ProbeCount(b, k + 1, probes);
      }
    }
  }

  /** Probing from k on reaches the rightmost start c when c's newline is the j-th last, k <= j <= probes. */
  lemma {:induction false} ProbeReaches(b: seq<byte>, k: nat, probes: nat, c: nat)
    requires 1 <= k && IsStart(b, c, GT) && NoStartAfter(b, c)
    requires k <= Newlines(b, c, |b|) + 1 <= probes
    ensures Probe(b, k, probes) == Ok(c)
    decreases probes + 1 - k
  {
    var j := Newlines(b, c, |b|) + 1;
    NewlinesAt(b, c - 1, |b|);
    if k == j {
      NthLastNewlineIs(b, j, c - 1);
    } else {
      NewlinesMono(b, 0, c - 1, |b|);
      NthLastNewlineCount(b, k);
      var e := NthLastNewline(b, k).value;
      if e < c {
        NewlinesMono(b, e + 1, c - 1, |b|);
      }
      assert !IsStart(b, e + 1, GT);
      ProbeReaches(b, k + 1, probes, c);
    }
  }

  lemma {:induction false} ProbeErr(b: seq<byte>, k: nat, probes: nat)
    requires 1 <= k
    ensures Probe(b, k, probes).Err? ==> (Probe(b, k, probes).error == NoNewLineInBlock || Probe(b, k, probes).error == NotAFastaFile)
    ensures Probe(b, k, probes) == Err(NoNewLineInBlock) ==> Newlines(b, 0, |b|) < probes
    ensures Probe(b, k, probes) == Err(NotAFastaFile) ==> probes < k || probes <= Newlines(b, 0, |b|)
    decreases probes + 1 - k
  {
    NthLastNewlineCount(b, k);
    if k <= probes && NthLastNewline(b, k).Some? {
      var e := NthLastNewline(b, k).value;
      if !(e + 1 < |b| && b[e + 1] == GT) {
        ProbeErr(b, k + 1, probes);
        NewlinesAt(b, e, |b|);
        NewlinesMono(b, 0, e, |b|);
      }
    }
  }

  /** Some start at p or after has no start after it. */
  lemma {:induction false} RightmostStart(b: seq<byte>, p: nat) returns (c: nat)
    requires IsStart(b, p, GT)
    ensures p <= c && IsStart(b, c, GT) && NoStartAfter(b, c)
    decreases |b| - p
  {
    if NoStartAfter(b, p) {
      c := p;
    } else {
      var q :| p < q < |b| && IsStart(b, q, GT);
      c := RightmostStart(b, q);
    }
  }

  /** The finder cuts at c exactly when c is the rightmost start of a comment
      line in the block and c's newline is among the last `probes` newlines. */
  lemma CutCharacterized(b: seq<byte>, probes: nat, c: nat)
    ensures CutWith(b, probes) == Ok(c) <==>
            IsStart(b, c, GT) && NoStartAfter(b, c) && Newlines(b, c, |b|) < probes
  {
    CutIsStart(b, probes);
    CutIsRightmost(b, probes);
    ProbeCount(b, 1, probes);
    if IsStart(b, c, GT) && NoStartAfter(b, c) && Newlines(b, c, |b|) < probes {
      ProbeReaches(b, 1, probes, c);
    }
  }

  /** The finder fails exactly when no comment line follows one of the last
      `probes` newlines; it reports NoNewLineInBlock when the block has fewer
      newlines than that, NotAFastaFile otherwise. */
  lemma CutFailure(b: seq<byte>, probes: nat)
    ensures CutWith(b, probes).Err? <==> NoStartWithin(b, probes)
    ensures CutWith(b, probes) == Err(NoNewLineInBlock) <==>
            NoStartWithin(b, probes) && Newlines(b, 0, |b|) < probes
    ensures CutWith(b, probes) == Err(NotAFastaFile) <==>
            NoStartWithin(b, probes) && probes <= Newlines(b, 0, |b|)
  {
    ProbeErr(b, 1, probes);
    if CutWith(b, probes).Ok? {
      var c := CutWith(b, probes).value;
      CutCharacterized(b, probes, c);
    }
    if !NoStartWithin(b, probes) {
      var p :| 0 < p < |b| && Newlines(b, p, |b|) < probes && IsStart(b, p, GT);
      var c := RightmostStart(b, p);
      NewlinesMono(b, p, c, |b|);
      CutCharacterized(b, probes, c);
    }
  }

  /** A larger budget does not change a cut already found: the corrected
      finder agrees with the one as written wherever that one succeeds. */
  lemma {:induction false} ProbeMoreBudget(b: seq<byte>, k: nat, probes: nat, more: nat)
    requires 1 <= k && probes <= more && Probe(b, k, probes).Ok?
    ensures Probe(b, k, more) == Probe(b, k, probes)
    decreases probes + 1 - k
  {
    var e := NthLastNewline(b, k).value;
    if !(e + 1 < |b| && b[e + 1] == GT) {
      ProbeMoreBudget(b, k + 1, probes, more);
    }
  }

  // ------------------------------------------------- the finder on FASTA files

  /** Line j of a FASTA file: a comment line beginning with '>' when j is
      even, a sequence line that does not begin with '>' when j is odd. */
  predicate InPlace(lines: seq<seq<byte>>, j: nat)
    requires j < |lines|
  {
    if j % 2 == 0 then HeadIs(lines[j], GT) else !HeadIs(lines[j], GT)
  }

  /** The lines of whole FASTA records followed, perhaps, by the comment
      line of one more. */
  predicate RecordLines(lines: seq<seq<byte>>)
  {
    AllLines(lines) && forall j | 0 <= j < |lines| :: InPlace(lines, j)
  }

  /** From a record boundary on, the lines are again FASTA records. */
  lemma RecordsFrom(lines: seq<seq<byte>>, m: nat)
    requires RecordLines(lines) && m <= |lines| && m % 2 == 0
    ensures RecordLines(lines[m..])
  {
    var rest := lines[m..];
    forall j | 0 <= j < |rest|
      ensures IsLine(rest[j]) && InPlace(rest, j)
    {
      assert rest[j] == lines[m + j] && InPlace(lines, m + j);
    }
  }

  /** Line j = 2q + r of FASTA records is a comment line exactly when r is 0. */
  lemma RecordLine(lines: seq<seq<byte>>, j: nat, q: nat, r: nat)
    requires RecordLines(lines) && j < |lines| && r < 2 && j == 2 * q + r
    ensures HeadIs(lines[j], GT) <==> r == 0
  {
    assert InPlace(lines, j);
  }

  /** Probes k .. a - 1 find newlines not followed by '>': probing goes on
      to the a-th. */
  lemma {:induction false} ProbePasses(b: seq<byte>, k: nat, a: nat, probes: nat)
    requires 1 <= k <= a <= probes + 1
    requires forall i | k <= i < a :: NthLastNewline(b, i).Some? && !LineStartsWith(b, i, GT)
    ensures Probe(b, k, probes) == Probe(b, a, probes)
    decreases a - k
  {
    if k < a {
      assert NthLastNewline(b, k).Some? && !LineStartsWith(b, k, GT);
      ProbePasses(b, k + 1, a, probes);
    }
  }

  /** The first a - 1 probes pass and the a-th finds a newline followed by
      '>': the cut is right after that newline. */
  lemma ProbeFinds(b: seq<byte>, a: nat, probes: nat)
    requires 1 <= a <= probes
    requires forall i | 1 <= i < a :: NthLastNewline(b, i).Some? && !LineStartsWith(b, i, GT)
    requires NthLastNewline(b, a).Some? && LineStartsWith(b, a, GT)
    ensures CutWith(b, probes) == Ok(NthLastNewline(b, a).value + 1)
  {
    ProbePasses(b, 1, a, probes);
  }

  /** The first c probes pass and the next finds no newline. */
  lemma ProbeRunsOut(b: seq<byte>, c: nat, probes: nat)
    requires c < probes
    requires forall i | 1 <= i <= c :: NthLastNewline(b, i).Some? && !LineStartsWith(b, i, GT)
    requires NthLastNewline(b, c + 1).None?
    ensures CutWith(b, probes) == Err(NoNewLineInBlock)
  {
    ProbePasses(b, 1, c + 1, probes);
  }

  /** All the probes pass. */
  lemma ProbesExhausted(b: seq<byte>, probes: nat)
    requires forall i | 1 <= i <= probes :: NthLastNewline(b, i).Some? && !LineStartsWith(b, i, GT)
    ensures CutWith(b, probes) == Err(NotAFastaFile)
  {
    ProbePasses(b, 1, probes + 1, probes);
  }

  /** When no visible line from line m on begins with '>', the probes that
      find the newlines before those lines do not see '>'. */
  lemma NoCommentSeen(lines: seq<seq<byte>>, n: nat, m: nat)
    requires AllLines(lines) && 0 < n <= |Join(lines)| && 1 <= m
    requires forall j | m <= j <= LastStart(lines, n) :: !HeadIs(lines[j], GT)
    ensures forall i | 1 <= i <= Closed(lines, n) + 1 - m ::
              NthLastNewline(Window(lines, n), i).Some? && !LineStartsWith(Window(lines, n), i, GT)
  {
    var w := Window(lines, n);
    forall i | 1 <= i <= Closed(lines, n) + 1 - m
      ensures NthLastNewline(w, i).Some? && !LineStartsWith(w, i, GT)
    {
      ProbeSees(lines, n, i, GT);
    }
  }

  /** On FASTA records, the visible lines after the comment line 2q of the
      record of the last visible line t do not begin with '>'. */
  lemma NoCommentAfter(lines: seq<seq<byte>>, n: nat, q: nat)
    requires RecordLines(lines) && 0 < n <= |Join(lines)| && q == LastStart(lines, n) / 2
    ensures forall j | 2 * q < j <= LastStart(lines, n) :: !HeadIs(lines[j], GT)
  {
    forall j | 2 * q < j <= LastStart(lines, n)
      ensures !HeadIs(lines[j], GT)
    {
      RecordLine(lines, j, q, 1);
    }
  }

  /** On a window cut from the start of FASTA records, the corrected finder
      returns the start of the record holding the last line that begins
      inside the window; it fails, with NoNewLineInBlock, only when that
      record is the first one. */
  lemma CutOnRecords(lines: seq<seq<byte>>, n: nat)
    requires RecordLines(lines) && 0 < n <= |Join(lines)|
    ensures var t := LastStart(lines, n);
            Cut(Window(lines, n)) == if 2 <= t then Ok(Offset(lines, 2 * (t / 2))) else Err(NoNewLineInBlock)
  {
    var t := LastStart(lines, n);
    var q := t / 2;
    var w := Window(lines, n);
    var c := Closed(lines, n);
    NoCommentAfter(lines, n, q);
    NoCommentSeen(lines, n, 2 * q + 1);
    if q == 0 {
      ProbeBeyond(lines, n, c + 1);
      ProbeRunsOut(w, c, PROBES);
    } else {
      RecordLine(lines, 2 * q, q, 0);
      ProbeSees(lines, n, c + 1 - 2 * q, GT);
      ProbeFinds(w, c + 1 - 2 * q, PROBES);
    }
  }

  /** The finder as written differs from the corrected one on FASTA records
      exactly when the window ends right after the newline of a sequence
      line: it then reports NotAFastaFile. */
  lemma CutAsWrittenOnRecords(lines: seq<seq<byte>>, n: nat)
    requires RecordLines(lines) && 0 < n <= |Join(lines)|
    ensures var t := LastStart(lines, n);
            CutAsWritten(Window(lines, n)) ==
            if t % 2 == 1 && n == Offset(lines, t + 1) then Err(NotAFastaFile) else Cut(Window(lines, n))
  {
    CutOnRecords(lines, n);
    AsWrittenOnRecords(lines, n);
  }

  /** The finder as written on FASTA records. */
  lemma AsWrittenOnRecords(lines: seq<seq<byte>>, n: nat)
    requires RecordLines(lines) && 0 < n <= |Join(lines)|
    ensures var t := LastStart(lines, n);
            CutAsWritten(Window(lines, n)) ==
            if t % 2 == 1 && n == Offset(lines, t + 1) then Err(NotAFastaFile)
            else if 2 <= t then Ok(Offset(lines, 2 * (t / 2)))
            else Err(NoNewLineInBlock)
  {
    var t := LastStart(lines, n);
    var q := t / 2;
    var w := Window(lines, n);
    var c := Closed(lines, n);
    NoCommentAfter(lines, n, q);
    NoCommentSeen(lines, n, 2 * q + 1);
    if t % 2 == 1 && n == Offset(lines, t + 1) {
      ProbesExhausted(w, SOURCE_PROBES);
    } else if q == 0 {
      ProbeBeyond(lines, n, c + 1);
      ProbeRunsOut(w, c, SOURCE_PROBES);
    } else {
      RecordLine(lines, 2 * q, q, 0);
      ProbeSees(lines, n, c + 1 - 2 * q, GT);
      ProbeFinds(w, c + 1 - 2 * q, SOURCE_PROBES);
    }
  }

  // ---------------------------------------------------------------- records

  /** A FASTA record (src/fasta.rs:30-47). Its fields are the two lines,
      without their newlines; the comment keeps its leading '>'. The
      accessors `comment()` and `sequence()` are the datatype's destructors. */
  datatype Record = Record(comment: seq<byte>, sequence: seq<byte>)

  /** The bytes a record occupies in its block. */
  function RecordBytes(r: Record): seq<byte>
  {
    r.comment + [NL] + r.sequence + [NL]
  }

  predicate WellFormed(r: Record)
  {
    IsLine(r.comment) && IsLine(r.sequence)
  }

  /** The two lines of a record, in file order. */
  function Fields(r: Record): seq<seq<byte>>
  {
    [r.comment, r.sequence]
  }

  lemma RecordBytesJoin(r: Record)
    ensures RecordBytes(r) == Join(Fields(r)) && |Fields(r)| == 2
    ensures WellFormed(r) ==> forall i | 0 <= i < |Fields(r)| :: IsLine(Fields(r)[i])
  {
    var f := Fields(r);
    assert f[1..][1..] == [];
    assert Join(f[1..]) == r.sequence + [NL];
  }

  /** One call of the decoder from in-block offset `offset`: end of block, a
      record and the offset after it, or a partial record. */
  function ReadRecord(block: seq<byte>, offset: nat): (r: Result<Option<(Record, nat)>>)
    requires offset <= |block|
    ensures r == Ok(None) <==> offset == |block|
    ensures r.Err? ==> r.error == PartialRecord && offset < |block| && Newlines(block, offset, |block|) < 2
    ensures r.Ok? && r.value.Some? ==> offset < r.value.value.1 <= |block|
  {
    if offset == |block| then Ok(None)
    else match ReadLines(block, offset, 2)
      case Err(e) => Err(e)
      case Ok((lines, next)) => Ok(Some((Record(lines[0], lines[1]), next)))
  }

  /** The decoder reports a partial record exactly when bytes remain but
      fewer than 2 newlines among them. */
  lemma ReadRecordFails(block: seq<byte>, offset: nat)
    requires offset <= |block|
    ensures ReadRecord(block, offset).Err? <==> offset < |block| && Newlines(block, offset, |block|) < 2
  {
    ReadLinesFails(block, offset, 2);
  }

  /** A record read from the block is well formed and lays out the bytes
      the decoder consumed. */
  lemma ReadRecordLayout(block: seq<byte>, offset: nat, rec: Record, next: nat)
    requires offset <= |block| && ReadRecord(block, offset) == Ok(Some((rec, next)))
    ensures block[offset..next] == RecordBytes(rec) && WellFormed(rec)
  {
    var lines := ReadLines(block, offset, 2).value.0;
    assert ReadLines(block, offset, 2) == Ok((lines, next));
    ReadLinesLayout(block, offset, 2, lines, next);
    assert Fields(rec) == lines;
    assert IsLine(lines[0]) && IsLine(lines[1]);
    RecordBytesJoin(rec);
  }

  /** The record reader `Block2Record` over one block (src/fasta.rs:49-63). */
  class Reader {
    const block: seq<byte>
    var offset: nat

    ghost predicate Valid()
      reads this
    {
      offset <= |block|
    }

    constructor (block: seq<byte>)
      ensures Valid() && this.block == block && offset == 0
    {
      this.block := block;
      offset := 0;
    }

    /** `next_record`: slices the comment and the sequence line and moves
        `offset` past the newline of each. */
    method NextRecord() returns (r: Result<Option<Record>>)
      requires Valid()
      modifies this
      ensures Valid()
      ensures r.Ok? && r.value.None? <==> old(offset) == |block|
      ensures r.Ok? && r.value.None? ==> offset == old(offset)
      ensures r.Ok? && r.value.Some? ==> ReadRecord(block, old(offset)) == Ok(Some((r.value.value, offset)))
      ensures r.Ok? && r.value.Some? ==> offset == old(offset) + |RecordBytes(r.value.value)|
      ensures r.Err? ==> ReadRecord(block, old(offset)) == Err(r.error)
      ensures r.Err? ==> old(offset) <= offset <= |block| && NoNewline(block, offset, |block|)
      ensures r.Err? ==> offset == old(offset) || (0 < offset && block[offset - 1] == NL)
    {
      if offset == |block| {
        return Ok(None);
      }
      var comment :- TakeLine();
      var sequence :- TakeLine();
      return Ok(Some(Record(comment, sequence)));
    }

    /** `get_line` followed by the move of `offset` past the line's newline. */
    method TakeLine() returns (r: Result<seq<byte>>)
      requires Valid()
      modifies this
      ensures Valid()
      ensures r.Ok? ==> ReadLine(block, old(offset)) == Ok((r.value, offset))
      ensures r.Err? ==> ReadLine(block, old(offset)) == Err(r.error) && offset == old(offset)
    {
      var line := GetLine(block, offset);
      if line.Err? {
        return Err(line.error);
      }
      var text := block[offset..line.value];
      offset := offset + |text| + 1;
      return Ok(text);
    }
  }

  /** The records of a whole block, read from `offset` until the end. */
  function DecodeAll(block: seq<byte>, offset: nat): Result<seq<Record>>
    requires offset <= |block|
    decreases |block| - offset
  {
    match ReadRecord(block, offset)
    case Err(e) => Err(e)
    case Ok(None) => Ok([])
    case Ok(Some((rec, next))) =>
      match DecodeAll(block, next)
      case Err(e) => Err(e)
      case Ok(rest) => Ok([rec] + rest)
  }

  /** The bytes of a sequence of records. */
  function Encode(rs: seq<Record>): seq<byte>
  {
    if rs == [] then [] else RecordBytes(rs[0]) + Encode(rs[1..])
  }

  /** Decoding is lossless: the records decoded from a block lay out the
      block again, byte for byte. */
  lemma {:induction false} DecodeAllLossless(block: seq<byte>, offset: nat)
    requires offset <= |block|
    ensures DecodeAll(block, offset).Ok? ==> Encode(DecodeAll(block, offset).value) == block[offset..]
    ensures DecodeAll(block, offset).Ok? ==> forall r | r in DecodeAll(block, offset).value :: WellFormed(r)
    decreases |block| - offset
  {
    var step := ReadRecord(block, offset);
    if step.Ok? && step.value.Some? {
      var rec := step.value.value.0;
      var next := step.value.value.1;
      ReadRecordLayout(block, offset, rec, next);
      DecodeAllLossless(block, next);
      var tail := DecodeAll(block, next);
      if tail.Ok? {
        var rs := [rec] + tail.value;
        assert DecodeAll(block, offset) == Ok(rs);
        assert rs[0] == rec && rs[1..] == tail.value;
        assert Encode(rs) == RecordBytes(rec) + Encode(tail.value);
        SliceSplit(block, offset, next);
      }
    }
  }

  /** Reading one record back from its own bytes. */
  lemma ReadRecordBytes(block: seq<byte>, offset: nat, rec: Record, tail: seq<byte>)
    requires WellFormed(rec)
    requires offset <= |block| && block[offset..] == RecordBytes(rec) + tail
    ensures ReadRecord(block, offset) == Ok(Some((rec, offset + |RecordBytes(rec)|)))
  {
    var lines := Fields(rec);
    RecordBytesJoin(rec);
    var next := offset + |Join(lines)|;
    ReadLinesAt(block, offset, lines, tail);
    assert ReadLines(block, offset, 2) == Ok((lines, next));
    ReadRecordOf(block, offset, lines, next);
    assert Record(lines[0], lines[1]) == rec;
  }

  /** The record ReadRecord builds from the two lines it reads. */
  lemma ReadRecordOf(block: seq<byte>, offset: nat, lines: seq<seq<byte>>, next: nat)
    requires offset < |block| && ReadLines(block, offset, 2) == Ok((lines, next))
    ensures ReadRecord(block, offset) == Ok(Some((Record(lines[0], lines[1]), next)))
  {
  }

  /** Decoding the bytes of well-formed records gives those records back. */
  lemma {:induction false} DecodeAllEncode(block: seq<byte>, offset: nat, rs: seq<Record>)
    requires offset <= |block| && block[offset..] == Encode(rs)
    requires forall r | r in rs :: WellFormed(r)
    ensures DecodeAll(block, offset) == Ok(rs)
    decreases rs
  {
    if rs == [] {
      assert |block[offset..]| == 0;
      assert ReadRecord(block, offset) == Ok(None);
    } else {
      var head, rest := rs[0], rs[1..];
      var next := offset + |RecordBytes(head)|;
      EncodeHead(block, offset, rs);
      DecodeAllEncode(block, next, rest);
      DecodeAllHead(block, offset, head, next, rest);
      assert [head] + rest == rs;
    }
  }

  /** A well-formed record laid out at the offset, then records decoded
      after it. */
  lemma DecodeAllHead(block: seq<byte>, offset: nat, head: Record, next: nat, rest: seq<Record>)
    requires WellFormed(head) && next == offset + |RecordBytes(head)| && next <= |block|
    requires block[offset..] == RecordBytes(head) + Encode(rest)
    requires DecodeAll(block, next) == Ok(rest)
    ensures DecodeAll(block, offset) == Ok([head] + rest)
  {
    ReadRecordBytes(block, offset, head, Encode(rest));
    DecodeAllStep(block, offset, head, next, rest);
  }

  /** The first record of encoded records is read back first. */
  lemma EncodeHead(block: seq<byte>, offset: nat, rs: seq<Record>)
    requires offset <= |block| && block[offset..] == Encode(rs) && rs != []
    ensures block[offset..] == RecordBytes(rs[0]) + Encode(rs[1..])
    ensures offset + |RecordBytes(rs[0])| <= |block|
    ensures block[offset + |RecordBytes(rs[0])|..] == Encode(rs[1..])
  {
    var head := RecordBytes(rs[0]);
    assert Encode(rs) == head + Encode(rs[1..]);
    SliceParts(block, offset, head, Encode(rs[1..]));
  }

  /** One record read, the rest decoded. */
  lemma DecodeAllStep(block: seq<byte>, offset: nat, rec: Record, next: nat, rest: seq<Record>)
    requires offset <= |block| && ReadRecord(block, offset) == Ok(Some((rec, next)))
    requires DecodeAll(block, next) == Ok(rest)
    ensures DecodeAll(block, offset) == Ok([rec] + rest)
  {
  }

  /** Decoding is total on the bytes of well-formed records. */
  lemma DecodeEncode(rs: seq<Record>)
    requires forall r | r in rs :: WellFormed(r)
    ensures DecodeAll(Encode(rs), 0) == Ok(rs)
  {
    DecodeAllEncode(Encode(rs), 0, rs);
  }
}
