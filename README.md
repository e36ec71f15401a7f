# biommap FASTA/FASTQ block and record engine, in Dafny

This project models the part of the biommap crate that cuts a memory-mapped
FASTA or FASTQ file into blocks and slices those blocks into records. It
covers `src/fasta.rs` and `src/fastq.rs`:

- **Boundary finders.** `fasta(block)` and `fastq(block)` search a byte
  window backwards, newline by newline, for the start of the last record
  that begins in it. FASTQ also has to tell a comment line from a quality
  line that begins with `@` or `+`.
- **Block producer.** `File2Block` is generated by the `file2block`
  attribute. It walks a cursor over the file: a window that reaches the end
  of the file is returned whole, and any other window is cut at the
  finder's offset.
- **Record decoders.** `next_record` is generated by `block2record`. It
  moves an offset through one block and slices two (FASTA) or four (FASTQ)
  newline-terminated lines per record.

The project has these modules:

- **Bytes** (`bytes.dfy`): bytes, the sigils and the error kinds, plus the
  two searches the core depends on:
  - the backward search `rfind_byte` of `bstr`, as `LastNewline` and
    `NthLastNewline`;
  - the forward line search `get_line` of biommap's block module, as
    `GetLine`, `ReadLine` and `ReadLines`.
- **Layout** (`layout.dfy`): what the backward probes see in a window cut
  from the start of a file that consists of whole lines.
- **Fasta** and **Fastq** (`fasta.dfy`, `fastq.dfy`), each with:
  - the finder as a function and as a method with its loop;
  - what the cut means on any window;
  - a theorem that gives the exact result on every window of a well-formed
    file;
  - the `Record` datatype, whose destructors are the accessors;
  - the decoder as a `Reader` class;
  - the round trip between decoding and encoding.
- **Producer** (`producer.dfy`): the `BlockProducer` class and the
  function that gives the length of each step. The blocks of a whole file
  are proved to tile it, to respect the block size, and, on files of whole
  records, to end at record starts. These whole-file lemmas are proved once
  for any step function and then applied to each format, mirroring the
  `file2block` macro, which is generic over the finder.
- **Scenarios** (`scenarios.dfy`): the byte strings of the unit tests, with
  the results those tests expect.

The model follows the code where the code and its documentation disagree:

- The comment field keeps its leading `>` (FASTA) or `@` (FASTQ), although
  the doc comments of `comment()` say it does not.
- The FASTQ `plus` field keeps its `+`.

The FASTA finder, as written, has a look-back budget of two newlines. That
fails on valid input (see Findings). `Fasta.CutAsWritten` models the code
as written. `Fasta.Cut`, with a budget of three, is the corrected finder.
The producer's FASTA format carries the budget: `Producer.FASTA` is
`File2Block` as the source builds it, around the two-probe finder, and
`Producer.FASTA_CORRECTED` runs the corrected one. The two take the same
step wherever the one as written succeeds.

## Model

| member | source | states |
|---|---|---|
| Bytes.LastNewline | src/fasta.rs:18-20 | `block[..end].rfind_byte(b'\n')`: the result lies before `end` and holds a newline |
| Bytes.LastNewlineSpec | src/fasta.rs:18-20 | no newline lies between the result and `end`; none only when `block[..end]` holds no newline |
| Bytes.LastNewlineIs | src/fastq.rs:18-20 | a newline with no newline after it up to `end` is exactly what the backward search returns |
| Bytes.NthLastNewline | src/fasta.rs:17-20 | the newline where the k-th probe stops is in the block and is a newline |
| Bytes.NthLastNewlineCount | src/fasta.rs:17-20 | exactly k - 1 newlines follow the one the k-th probe finds; when the k-th probe finds none, the block has fewer than k newlines |
| Bytes.NthLastNewlineIs | src/fastq.rs:17-20 | the newline followed by exactly k - 1 newlines is the one the k-th probe finds |
| Bytes.NthLastNewlineWithin | src/fastq.rs:17-20 | a probe that finds a newline finds one of the block's newlines, so the block has at least k of them |
| Bytes.GetLine | src/fasta.rs:55 | `get_line`: the line ends at the first newline at or after the offset and holds no newline; PartialRecord when no newline follows |
| Bytes.ReadLine | src/fasta.rs:55-56 | one line read and the offset moved by its length plus one, past its newline; PartialRecord only when no newline remains |
| Bytes.ReadLineAt | src/fasta.rs:55-56 | a line laid out with its newline at the offset is exactly what is read there, and the offset lands right after it |
| Bytes.ReadLines | src/fastq.rs:88-98 | n lines read in order, advancing the offset within the block; failure only when fewer than n newlines remain |
| Bytes.ReadLinesFails | src/fastq.rs:88-98 | reading n lines fails exactly when fewer than n newlines remain |
| Bytes.ReadLinesLayout | src/fastq.rs:88-98 | the lines read hold no newline and, each with its newline, are exactly the bytes consumed |
| Bytes.ReadLinesAt | src/fastq.rs:88-98 | newline-free lines laid out at the offset are exactly what is read, and the offset lands at their end |
| Bytes.ConcatAppend | src/fasta.rs:90-101 | laying one more block after the others appends its bytes |
| Layout.NthLastNewlineInWindow | src/fasta.rs:17-20 | in a window of a file of lines that ends inside line e, the k-th probe finds the newline that ends line e - k, and nothing when k > e |
| Layout.ProbeSees | src/fasta.rs:22 | the line tested by probe k is line e - k + 1: it passes the sigil test exactly when it starts inside the window and begins with the sigil |
| Layout.ProbeBeyond | src/fasta.rs:18-20 | probes past the last newline of the window find nothing |
| Layout.LastStart | src/fasta.rs:22 | the last line that starts inside the window, and its place between line offsets |
| Layout.JoinFrom | src/fasta.rs:90-101 | the file from the offset of line m on is the layout of the lines from m on |
| Layout.OffsetFrom | src/fasta.rs:90-101 | the offset of line m + k is that of line m plus the length of the k lines after it |
| Fasta.FindCut | src/fasta.rs:14-28 | the loop, which moves `end` back one newline per probe, computes the finder for any look-back budget |
| Fasta.Probe | src/fasta.rs:17-27 | probe k of the loop: `end` moves to the k-th newline from the end; the line after it is tested for `>`; NoNewLineInBlock when no newline is left, NotAFastaFile past the budget. Its contracts are ProbeIsStart, ProbeRightmost, ProbeCount and ProbeErr |
| Fasta.CutWith | src/fasta.rs:14-28 | the finder with a look-back budget of `probes` newlines, the first probe of Probe. CutIsStart, CutIsRightmost, CutCharacterized and CutFailure state what it returns |
| Fasta.CutAsWritten | src/fasta.rs:14-28 | the finder as written, with the budget of two newlines of `for _ in 0..2`. AsWrittenOnRecords and CutAsWrittenOnRecords state its result on FASTA files |
| Fasta.Cut | src/fasta.rs:14-28 | the corrected finder, with a budget of three newlines. CutOnRecords states its result on FASTA files |
| Fasta.CutIsStart | src/fasta.rs:22-23 | on success the cut c has `0 < c < block.len()`, `block[c-1] == '\n'` and `block[c] == '>'` |
| Fasta.CutIsRightmost | src/fasta.rs:17-24 | no comment line starts after the cut: it is the rightmost record start |
| Fasta.ProbeCount | src/fasta.rs:17-24 | the cut follows one of the last `probes` newlines, so the trailing newline skipped by `end + 1 < len` counts as one of them |
| Fasta.ProbeErr | src/fasta.rs:17-27 | the only errors are NoNewLineInBlock (fewer newlines than probes) and NotAFastaFile (all probes used) |
| Fasta.CutCharacterized | src/fasta.rs:14-28 | the finder cuts at c exactly when c is the rightmost start of a `>` line and its newline is among the last `probes` newlines |
| Fasta.CutFailure | src/fasta.rs:17-27 | the finder fails exactly when no `>` line follows one of the last `probes` newlines, with NoNewLineInBlock exactly when the block has fewer newlines than probes and NotAFastaFile exactly otherwise |
| Fasta.RecordLine | src/fasta.rs:30-35 | a fact of the FASTA format, whose record is a comment line and a sequence line: in a file of such records, line 2q + r is a comment line exactly when r is 0 |
| Fasta.ProbeFinds | src/fasta.rs:22-23 | when the earlier probes see no `>` line and probe a does, the cut is right after the a-th last newline |
| Fasta.ProbeRunsOut | src/fasta.rs:18-20 | when the probes run out of newlines before any of them sees a `>` line, the result is NoNewLineInBlock |
| Fasta.ProbesExhausted | src/fasta.rs:27 | when every probe sees a line that does not start with `>`, the result is NotAFastaFile |
| Fasta.CutOnRecords | src/fasta.rs:14-28 | on every window cut from the start of a FASTA file, the corrected finder returns the start of the record that holds the last line beginning in the window, and fails with NoNewLineInBlock only inside the first record |
| Fasta.AsWrittenOnRecords | src/fasta.rs:14-28 | the two-probe finder on every window of a FASTA file: NotAFastaFile when the window ends right after a sequence line's newline, otherwise the same cut as above |
| Fasta.ProbeMoreBudget | src/fasta.rs:17-24 | a cut found within a budget of probes is the cut found with any larger budget |
| Fasta.CutAsWrittenOnRecords | src/fasta.rs:17 | the two-probe finder differs from the corrected one on FASTA records exactly when the window ends right after a sequence line's newline |
| Fasta.RecordBytesJoin | src/fasta.rs:55-59 | a record occupies its comment line, a newline, its sequence line and a newline |
| Fasta.ReadRecord | src/fasta.rs:51-63 | `next_record` from an offset: None exactly when the offset is the block length; PartialRecord only when fewer than two newlines remain; otherwise the offset moves forward and stays within the block |
| Fasta.ReadRecordFails | src/fasta.rs:55-58 | the decoder reports PartialRecord exactly when bytes remain but fewer than two newlines among them |
| Fasta.ReadRecordLayout | src/fasta.rs:55-59 | the bytes consumed are the comment, a newline, the sequence and a newline, so the offset moves by `comment.len() + sequence.len() + 2`; both fields are newline-free |
| Fasta.ReadRecordBytes | src/fasta.rs:51-63 | a well-formed record laid out at the offset is read back whole |
| Fasta.RecordsFrom | src/fasta.rs:30-35 | the lines of a FASTA file from a record start on are again the lines of a FASTA file |
| Fasta.Reader.constructor | src/fasta.rs:50 | a reader starts at offset 0 of its block |
| Fasta.Reader.NextRecord | src/fasta.rs:51-63 | the method moves `offset` twice and returns what ReadRecord specifies; after an error the offset has moved past every line read before the failing one: it stays put or lands right after a newline, with no newline between it and the end, so right after the last newline of the block |
| Fasta.Reader.TakeLine | src/fasta.rs:55-56 | `get_line`, then the offset moves past the line's newline; on error the offset stays put |
| Fasta.DecodeAllLossless | src/fasta.rs:51-63 | the records decoded from a block are well formed and, laid out again, give back the block byte for byte |
| Fasta.DecodeAll | src/fasta.rs:51-63 | `next_record` called until it returns None: the records of the block from the offset on, or the first error. DecodeAllLossless, DecodeAllEncode and DecodeEncode state what it returns |
| Fasta.DecodeAllEncode | src/fasta.rs:51-63 | decoding the bytes of well-formed records, from any offset, gives back those records |
| Fasta.DecodeEncode | src/fasta.rs:182-236 | decoding the encoding of well-formed records gives back the same records, comments and sequences in order |
| Fasta.DecodeAllStep | src/fasta.rs:51-63 | one record read, then the rest of the block decoded |
| Fasta.DecodeAllHead | src/fasta.rs:51-63 | a well-formed record laid out at the offset, followed by bytes that decode to more records, decodes to that record followed by them |
| Fastq.AnchorFrom | src/fastq.rs:17-22 | the look-back from probe k settles on a probe between k and 5 whose line starts with `@` |
| Fastq.AnchorFromSkips | src/fastq.rs:17-22 | every probe before the one settled on sees a line that does not start with `@` |
| Fastq.AnchorFromErr | src/fastq.rs:17-20 | the look-back fails only with NoNewLineInBlock (fewer than five newlines) or NotAFastqFile (five probes used) |
| Fastq.Anchor | src/fastq.rs:17-22 | L0 follows one of the last five newlines and starts with `@` |
| Fastq.AnchorSpec | src/fastq.rs:17-48 | L0 is the first `@` line probed; the look-back fails exactly when none of the five probes sees an `@` line, with NoNewLineInBlock exactly when the block has fewer than five newlines and NotAFastqFile exactly otherwise |
| Fastq.Cut | src/fastq.rs:14-49 | on success the cut c has `0 < c < block.len()`, `block[c-1] == '\n'` and `block[c] == '@'` |
| Fastq.CutErr | src/fastq.rs:17-48 | the only errors are NoNewLineInBlock and NotAFastqFile |
| Fastq.FindCut | src/fastq.rs:14-49 | the loop with its nested backward searches computes the finder, every index it reads is in bounds, and a cut is a newline followed by `@` |
| Fastq.CutAtProbe | src/fastq.rs:22-45 | when a probe of the look-back sees `@`, the finder's result is the disambiguation after that probe's newline |
| Fastq.AnchorSkips | src/fastq.rs:17-22 | a probe whose line does not start with `@` passes the look-back on to the next probe |
| Fastq.Disambiguate | src/fastq.rs:22-45 | the nested searches for L-1, L-2 and L-3 compute Resolve |
| Fastq.Resolve | src/fastq.rs:22-45 | the decision once L0 follows the newline at `e`: NoNewLineInBlock when no newline comes before it, the cut before L0 when L-1 does not start with `+`, otherwise ResolveAfterPlus. ResolveProbes, ResolveComment and ResolveQuality state its result |
| Fastq.ResolveAfterPlus | src/fastq.rs:26-43 | the decision once L-1 starts with `+`: the cut before L0 when L-2 starts with `+` too, otherwise the cut before L-3 when it starts with `@`, NotAFastqFile when it does not, and NoNewLineInBlock when a backward search finds no newline. ResolveQuality and ResolveProbes state its result |
| Fastq.ResolveProbes | src/fastq.rs:23-44 | once L0 follows the k-th last newline, L-1, L-2 and L-3 are the lines after the next three newlines, with the whole decision table: cut before L0, cut before L-3, NoNewLineInBlock, or NotAFastqFile |
| Fastq.ResolveComment | src/fastq.rs:26-43 | L-1 not starting with `+`, or L-1 and L-2 both starting with `+`: the cut stays before L0 |
| Fastq.ResolveQuality | src/fastq.rs:30-39 | L-1 starts with `+` and L-2 does not: the cut is before L-3 when L-3 starts with `@`, otherwise NotAFastqFile |
| Fastq.CutComment | src/fastq.rs:22-43 | the finder cuts before L0 in the first case above |
| Fastq.CutQualityNone | src/fastq.rs:33-35 | in the second case above, with no newline left for L-3, the finder reports NoNewLineInBlock |
| Fastq.CutQualityAt | src/fastq.rs:33-40 | in the second case above, the finder cuts before L-3 when it starts with `@` and reports NotAFastqFile otherwise |
| Fastq.RecordLine | src/fastq.rs:51-58 | a fact of the FASTQ format, whose record is a comment, a sequence, a separator and a quality line: in a file of such records, line 4q + r has kind r: comment (`@`), sequence (neither `@` nor `+`), separator (`+`) or quality (anything) |
| Fastq.AnchorOnLines | src/fastq.rs:17-22 | on a window of lines, the look-back settles on the last visible `@` line when it is among the last five |
| Fastq.AnchorRunsOut | src/fastq.rs:18-20 | with no `@` line after line 0 and fewer than five newlines, the look-back finds NoNewLineInBlock |
| Fastq.ProbesBefore | src/fastq.rs:23-30 | the probes after the one that finds L0 see the two lines before it |
| Fastq.ThirdProbeNone | src/fastq.rs:33-35 | the third probe after that one finds no newline when L0 is line 3 |
| Fastq.ThirdProbeBefore | src/fastq.rs:33-36 | otherwise it finds the newline before the third line before L0 and sees that line's first byte |
| Fastq.CutAtComment | src/fastq.rs:26-43 | when the look-back settles on a comment line, the cut is the start of that line |
| Fastq.CutAtQuality | src/fastq.rs:33-37 | when the look-back settles on a quality line beginning with `@`, the cut is the start of its record's comment line, or NoNewLineInBlock in the first record |
| Fastq.NoCommentAfter | src/fastq.rs:17-22 | in a file of FASTQ records, no visible line after the record start (or after a final `@` quality line) starts with `@` |
| Fastq.CutOnQualityLine | src/fastq.rs:22-37 | on FASTQ records whose last visible line is an `@` quality line, the cut is the start of its record, or NoNewLineInBlock in the first record |
| Fastq.CutOnRecord | src/fastq.rs:17-43 | on FASTQ records otherwise, the cut is the start of the record of the last visible line, or NoNewLineInBlock in the first record |
| Fastq.CutOnRecords | src/fastq.rs:14-49 | on every window cut from the start of a FASTQ file, the finder returns the start of the record that holds the last line beginning in the window, fails with NoNewLineInBlock only inside the first record, and never reports NotAFastqFile |
| Fastq.RecordBytesJoin | src/fastq.rs:88-98 | a record occupies its four lines, each followed by a newline |
| Fastq.ReadRecord | src/fastq.rs:84-107 | `next_record` from an offset: None exactly when the offset is the block length; PartialRecord only when fewer than four newlines remain; otherwise the offset moves forward and stays within the block |
| Fastq.ReadRecordFails | src/fastq.rs:88-97 | the decoder reports PartialRecord exactly when bytes remain but fewer than four newlines among them |
| Fastq.ReadRecordLayout | src/fastq.rs:88-98 | the bytes consumed are the four fields, each with its newline, in order, so the offset moves by the sum of their lengths plus 4; all fields are newline-free |
| Fastq.RecordBytesSigils | src/fastq.rs:88-94 | the first byte of a record is the first byte of its comment, and the byte after the sequence line is the first byte of the separator |
| Fastq.ReadRecordKeepsSigils | src/fastq.rs:88-97 | the comment keeps the `@` and the plus field the `+` that start them in the block |
| Fastq.ReadRecordBytes | src/fastq.rs:84-107 | a well-formed record laid out at the offset is read back whole |
| Fastq.RecordsFrom | src/fastq.rs:51-58 | the lines of a FASTQ file from a record start on are again the lines of a FASTQ file |
| Fastq.Reader.constructor | src/fastq.rs:83 | a reader starts at offset 0 of its block |
| Fastq.Reader.NextRecord | src/fastq.rs:84-107 | the method moves `offset` four times and returns what ReadRecord specifies; after an error the offset has moved past every line read before the failing one: it stays put or lands right after a newline, with no newline between it and the end, so right after the last newline of the block |
| Fastq.Reader.TakeLine | src/fastq.rs:88-89 | `get_line`, then the offset moves past the line's newline; on error the offset stays put |
| Fastq.DecodeAllLossless | src/fastq.rs:84-107 | the records decoded from a block are well formed and, laid out again, give back the block byte for byte |
| Fastq.DecodeAll | src/fastq.rs:84-107 | `next_record` called until it returns None: the records of the block from the offset on, or the first error. DecodeAllLossless, DecodeAllEncode and DecodeEncode state what it returns |
| Fastq.DecodeAllEncode | src/fastq.rs:84-107 | decoding the bytes of well-formed records, from any offset, gives back those records |
| Fastq.DecodeEncode | src/fastq.rs:256-340 | decoding the encoding of well-formed records gives back the same records, all four fields in order |
| Fastq.DecodeAllStep | src/fastq.rs:84-107 | one record read, then the rest of the block decoded |
| Producer.Cut | src/fasta.rs:13 | `correct_block_size`: the finder of the format. `Format` has two cases: FASTA, which carries its look-back budget, and FASTQ. The constant `FASTA` is the producer of the source with two probes; `FASTA_CORRECTED` uses three. A cut is a position right after a newline whose line opens with the format's sigil, and the only errors are those of the finders |
| Producer.NextLength | src/fasta.rs:13 | the next block length: none exactly when the cursor is at the end of the file; the whole rest of the file, uncut, whenever it fits in the block size; otherwise at most the block size and within the file, ending right before a line that opens with the format's sigil; errors only from the finder, on a window shorter than the rest of the file |
| Producer.CorrectedAgrees | src/fasta.rs:13-28 | wherever the producer as written takes a step, the producer with the corrected finder takes the same step |
| Producer.StartInFile | src/fastq.rs:13 | a record start found in the window is a record start in the file |
| Producer.Sigil | src/fasta.rs:22 | the byte that opens a record of the format: `>` for FASTA, `@` for FASTQ (src/fastq.rs:22) |
| Producer.Steps | src/fasta.rs:13 | the producer's steps over one file as a function value, from each cursor NextLength there; the whole-file lemmas below are stated for any such steps |
| Producer.FormatSteps | src/fasta.rs:13 | every step of every format's producer advances within the file, by 1 to `blocksize` bytes, to the end of the file or to right before a line that opens with the sigil; there is no step exactly when the file is exhausted |
| Producer.BlocksOf | src/fasta.rs:90-101 | `next_block` called until it returns None, for any steps: the blocks from the cursor on, or the first error. The lemmas below state what it returns |
| Producer.Blocks | src/fasta.rs:90-101 | BlocksOf for the steps of a format's producer. FormatBlocks and BlocksOnRecords state what it returns |
| Producer.BlocksHead | src/fasta.rs:90-101 | the first block is the first step's slice of the file, and the rest follow from its end |
| Producer.BlocksEmpty | src/fasta.rs:100-101 | no block is left only once the cursor is at the end of the file |
| Producer.BlocksNonEmpty | src/fastq.rs:155-160 | while blocks remain, the cursor is before the end of the file |
| Producer.BlocksTile | src/fastq.rs:134-160 | laid end to end, the blocks give back the file from the cursor to its end |
| Producer.BlocksFirst | src/fastq.rs:177-193 | the first block is non-empty and at most the block size, and the rest follow from its end |
| Producer.BlocksBounded | src/fastq.rs:177-193 | no block is empty or longer than the block size |
| Producer.BlocksEndAtRecords | src/fasta.rs:162-172 | every block but the last ends right before a line that opens with the sigil |
| Producer.BlocksNext | src/fasta.rs:90-98 | a block followed by more is a step that stops short of the end of the file |
| Producer.FormatBlocks | src/fasta.rs:90-172 | the blocks of a format's producer over a whole file tile it from the cursor, none is empty or longer than the block size, and every one but the last ends right before a line that opens with the format's sigil |
| Producer.LinesPerRecord | src/fastq.rs:84-98 | a record has two lines in FASTA (src/fasta.rs:51-59) and four in FASTQ |
| Producer.BlocksStayIn | src/fasta.rs:90-101 | when every step from a position of a set stops in the set or at the end of the file, every block but the last, from a position of the set, ends at a position of the set |
| Producer.StepsOnRecords | src/fastq.rs:13-49 | on a file of whole records, every step from a record start stops at a record start or at the end of the file |
| Producer.StepFromRecord | src/fastq.rs:13-49 | the same for one record start |
| Producer.StepIsCut | src/fasta.rs:13 | a step that stops short of the end of the file is the finder's cut of the full window at the cursor |
| Producer.FastaRecordCut | src/fasta.rs:14-28 | a FASTA cut, by either budget, of a window cut from the start of FASTA records is the start of a later record |
| Producer.FastqRecordCut | src/fastq.rs:14-49 | a FASTQ cut of a window cut from the start of FASTQ records is the start of a later record |
| Producer.StepOnRecords | src/fasta.rs:13 | on a file of records, a step from a record start that stops short of the end of the file stops at the start of a later record |
| Producer.CutFromRecord | src/fasta.rs:13 | on a file of records, the format's cut of a window that begins at a record start is the start of a later record |
| Producer.FastaCutFrom | src/fasta.rs:14-28 | the same for FASTA: the cut is an even number of lines on |
| Producer.FastqCutFrom | src/fastq.rs:14-49 | the same for FASTQ: the cut is a multiple of four lines on |
| Producer.LaterRecord | src/fastq.rs:84-98 | a whole number of records after a record start is a record start, at the offset of the lines they hold |
| Producer.BlocksOnRecords | src/fasta.rs:13-28 | on a file of whole FASTA or FASTQ records, with the producer as written, corrected or for FASTQ, every block but the last, from a record start, ends right before the start of a record |
| Producer.ConcatStep | src/fasta.rs:90-98 | handing out the next slice keeps the blocks so far equal to the file from the start offset to the cursor |
| Producer.BlockProducer.constructor | src/fasta.rs:88 | `File2Block::new`: block size 8192, cursor at 0 |
| Producer.BlockProducer.WithBlocksize | src/fasta.rs:116 | `File2Block::with_blocksize`: the given block size, cursor at 0 |
| Producer.BlockProducer.WithOffset | src/fasta.rs:139 | `File2Block::with_offset`: block size 8192, cursor at the offset |
| Producer.BlockProducer.WithBlocksizeOffset | src/fasta.rs:162 | `File2Block::with_blocksize_offset`: the given block size, cursor at the offset |
| Producer.BlockProducer.StepLength | src/fasta.rs:13 | the step (the end of file, the whole rest of the file, or the format's finder method run on the window, for FASTA with the format's budget) computes NextLength |
| Producer.BlockProducer.NextBlock | src/fasta.rs:90-101 | `next_block`: returns the slice NextLength gives and moves the cursor past it; None at the end of the file; on a finder error the cursor stays put; the blocks handed out always tile the file from the start offset to the cursor |
| Producer.BlockProducer.Next | src/fastq.rs:407-411 | the iterator view: None exactly at the end of the file, otherwise the result of `next_block` |
| Scenarios.QualityNotSeparator | src/fastq.rs:349-350 | `@1\nAA\n+1\n!!\n@2\nTT\n+2\n!!` is cut at 12 |
| Scenarios.QualityLooksLikeSeparator | src/fastq.rs:352-353 | `@1\nAA\n+1\n!!\n@2\nTT\n+2\n+!\n@3` is cut at 24 |
| Scenarios.QualityLooksLikeComment | src/fastq.rs:355-356 | `@1\nAA\n+1\n!!\n@2\nTT\n+2\n@!` is cut at 12 |
| Scenarios.NotAFastqNewlines | src/fastq.rs:363-388 | the last five newlines of the 82-byte window of `not_a_fastq` |
| Scenarios.NotAFastqCut | src/fastq.rs:363-388 | the finder reports NotAFastqFile on that window |
| Scenarios.NotAFastqFirstStep | src/fastq.rs:390-407 | with a block size of 82, the first step over the test file or the longer file fails with NotAFastqFile |
| Scenarios.NotAFastqProducer | src/fastq.rs:363-388 | `next_block` over the test file is an error and the cursor stays at 0 |
| Scenarios.NotAFastqLongerProducer | src/fastq.rs:390-407 | `next_block` over the longer file is an error |
| Scenarios.NextFails | src/fastq.rs:409-411 | a `next` whose step fails returns that error and leaves the cursor where it was |
| Scenarios.NextTwice | src/fastq.rs:410-411 | after an error the cursor stays put, so two calls of `next` give the same error |
| Scenarios.NotAFastqIterator | src/fastq.rs:410-411 | `next` over the longer file is Some and holds an error, twice |
| Scenarios.FastqIsNotFasta | src/fasta.rs:240-251 | FASTQ content through the FASTA finder and through the FASTA producer, as written or corrected, gives NotAFastaFile |
| Scenarios.WindowOnRecordBoundary | src/fasta.rs:17-24 | a 10-byte window of `>a\nC\n>b\nG\n>c\nT\n` that ends on a record boundary: NotAFastaFile from the finder and the producer as written; a cut at 5 and a first block of 5 bytes with three probes |
| Scenarios.FastaCommentKeepsSigil | src/fasta.rs:204-217 | the decoded FASTA comments keep their `>` |
| Scenarios.FastqRecordKeepsSigils | src/fastq.rs:282-295 | the decoded FASTQ comment keeps its `@` and the separator its `+` |

## Left out

- Memory mapping, file opening and its errors (`OpenFile`, `MetaDataFile`, `MapFile`): these are operating-system I/O. The mapped file is a byte sequence.
- The derive macros `file2block`, `block2record` and `sequential_parser` are code generation whose output is not part of this model. The producer and the reader model only the behaviour the tests show.
- The sequential and parallel record parsers that the macros generate are not part of this model.
- Producer.DEFAULT_BLOCKSIZE: the default block size is set by the code that the `file2block` derive macro generates, which is not part of this model. 8192 is inferred from the block lengths the tests expect.
- The block lengths of the tests over random `biotest` data (8148, 7866, 4030 and others) depend on generated files and are not reproduced. What the tests rely on is proved for every file instead. FormatBlocks proves tiling and the size bound. BlocksOnRecords proves that blocks end at record boundaries on files of whole records.
- Producer.BlocksEndAtRecords: on any file it states only that a block ends right before a line opening with the sigil. In FASTQ such a line can be a quality line. That every block ends at a record start is proved only for files of whole records, by BlocksOnRecords.
- `get_line` is in the crate's block module, which is not part of this model. Bytes.GetLine models its documented behaviour, the range from the offset to the next newline, with PartialRecord when there is none.
- `rfind_byte` of `bstr` is modelled by its meaning (LastNewline), not by its vectorised search.
- Derived traits of `Record` (`Ord`, `Hash`, `Debug`, `Default`) and the lifetimes of its borrowed slices are not modelled. A field is a copy of the bytes; ReadRecordLayout states which bytes of the block it equals.
- `usize`/`u64` casts are modelled as unbounded naturals. No offset in the model can overflow.
- Producer.BlockProducer.WithOffset: an offset past the end of the file gives a producer that yields None at once. `with_offset` is generated by the `file2block` derive macro, which is not part of this model, so what the source does there is not modelled.
- Fasta.FindCut: the method takes the look-back budget as a parameter. The producer runs it with the budget its format carries: two in Producer.FASTA, as the source does, three in Producer.FASTA_CORRECTED.
- Fasta.CutOnRecords, Fastq.CutOnRecords: the exact-result theorems assume a window cut from the start of a file of well-formed records. On other bytes, only the characterisations (CutCharacterized, CutFailure, AnchorSpec, ResolveProbes) apply.

## Findings

| source | as written | input that shows it | evidently intended | confidence | as-written member | corrected member |
|---|---|---|---|---|---|---|
| src/fasta.rs:17-24 | the loop probes only the last two newlines. When the window ends right after the newline of a sequence line, the first probe finds that final newline and its line is skipped by `end + 1 < len`. The second probe lands before the sequence line, so valid FASTA gives NotAFastaFile | file `>a\nC\n>b\nG\n>c\nT\n` with block size 10: the window `>a\nC\n>b\nG\n` | cut at 5, before `>b`, as for every other window of a FASTA file | not executed | Fasta.CutAsWritten, with Scenarios.WindowOnRecordBoundary, Fasta.CutAsWrittenOnRecords and the producer format Producer.FASTA | Fasta.Cut, with Fasta.CutOnRecords and the producer format Producer.FASTA_CORRECTED |
