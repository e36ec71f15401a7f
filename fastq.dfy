/** FASTQ: the boundary finder `fastq(block)` and the record decoder of
    src/fastq.rs. A record is four newline-terminated lines: a comment line
    starting with '@', the sequence, a separator line starting with '+' and
    the quality line, which may itself start with '@' or '+'. */
module Fastq {
  import opened Bytes
  import opened Layout

  /** Look-back budget of the finder (src/fastq.rs:17). */
  const PROBES: nat := 5

  /** The search for L0 from the k-th probe on: the index of the first of the
      last PROBES newlines whose line starts with '@'. */
  function AnchorFrom(b: seq<byte>, k: nat): (r: Result<nat>)
    requires 1 <= k
    ensures r.Ok? ==> k <= r.value <= PROBES && LineStartsWith(b, r.value, AT)
    decreases PROBES + 1 - k
  {
    if k > PROBES then Err(NotAFastqFile)
    else if NthLastNewline(b, k).None? then Err(NoNewLineInBlock)
    else if LineStartsWith(b, k, AT) then Ok(k)
    else AnchorFrom(b, k + 1)
  }

  /** The probes from k on skip every line before the one they settle on. */
  lemma {:induction false} AnchorFromSkips(b: seq<byte>, k: nat, i: nat)
    requires 1 <= k <= i <= PROBES
    requires AnchorFrom(b, k).Ok? ==> i < AnchorFrom(b, k).value
    ensures !LineStartsWith(b, i, AT)
    decreases i - k
  {
    var nl := NthLastNewline(b, k);
    if nl.None? {
      NthLastNewlineCount(b, k);
      NthLastNewlineWithin(b, i);
    } else if k < i {
      AnchorFromSkips(b, k + 1, i);
    }
  }

  lemma {:induction false} AnchorFromErr(b: seq<byte>, k: nat)
    requires 1 <= k
    ensures AnchorFrom(b, k).Err? ==> (AnchorFrom(b, k).error == NoNewLineInBlock || AnchorFrom(b, k).error == NotAFastqFile)
    ensures AnchorFrom(b, k) == Err(NoNewLineInBlock) ==> Newlines(b, 0, |b|) < PROBES
    ensures AnchorFrom(b, k) == Err(NotAFastqFile) ==> PROBES < k || PROBES <= Newlines(b, 0, |b|)
    decreases PROBES + 1 - k
  {
    if k <= PROBES {
      NthLastNewlineCount(b, k);
      var nl := NthLastNewline(b, k);
      if nl.Some? {
        var e := nl.value;
        if !LineStartsWith(b, k, AT) {
          assert AnchorFrom(b, k) == AnchorFrom(b, k + 1);
          AnchorFromErr(b, k + 1);
          NewlinesAt(b, e, |b|);
          NewlinesMono(b, 0, e, |b|);
        }
      }
    }
  }

  /** L0, the line the probes settle on: it follows the Anchor(b)-th newline
      from the end, the first of the last five newlines followed by '@'.
      The search fails with NoNewLineInBlock when the block has fewer than
      five newlines and NotAFastqFile otherwise. */
  function Anchor(b: seq<byte>): (r: Result<nat>)
    ensures r.Ok? ==> 1 <= r.value <= PROBES && LineStartsWith(b, r.value, AT)
  {
    AnchorFrom(b, 1)
  }

  lemma AnchorSpec(b: seq<byte>)
    ensures Anchor(b).Ok? ==> forall i | 1 <= i < Anchor(b).value :: !LineStartsWith(b, i, AT)
    ensures Anchor(b).Err? <==> forall i | 1 <= i <= PROBES :: !LineStartsWith(b, i, AT)
    ensures Anchor(b) == Err(NoNewLineInBlock) <==> Anchor(b).Err? && Newlines(b, 0, |b|) < PROBES
    ensures Anchor(b) == Err(NotAFastqFile) <==> Anchor(b).Err? && PROBES <= Newlines(b, 0, |b|)
  {
    forall i | 1 <= i <= PROBES && (Anchor(b).Ok? ==> i < Anchor(b).value)
      ensures !LineStartsWith(b, i, AT)
    {
      AnchorFromSkips(b, 1, i);
    }
    AnchorFromErr(b, 1);
  }

  /** The disambiguation of src/fastq.rs:22-45 once L0 is known to follow
      the newline at e: L-1, L-2 and L-3 follow the newlines found by
      searching backwards from e, from there, and from there again. */
  function Resolve(b: seq<byte>, e: nat): Result<nat>
    requires e < |b|
  {
    match LastNewline(b, e)
    case None => Err(NoNewLineInBlock)
    case Some(prev) =>
      if b[prev + 1] != PLUS then Ok(e + 1)  // L-1 is no separator: L0 is a comment
      else ResolveAfterPlus(b, e, prev)
  }

  /** L-1, after the newline at prev, starts with '+': it is either a
      separator (L0 is then a quality line) or a quality line itself. */
  function ResolveAfterPlus(b: seq<byte>, e: nat, prev: nat): Result<nat>
    requires prev < e < |b|
  {
    match LastNewline(b, prev)
    case None => Err(NoNewLineInBlock)
    case Some(prevprev) =>
      if b[prevprev + 1] == PLUS then Ok(e + 1)  // L-1 quality, L-2 separator
      else match LastNewline(b, prevprev)
        case None => Err(NoNewLineInBlock)
        case Some(prevprevprev) =>
          if b[prevprevprev + 1] == AT then Ok(prevprevprev + 1)  // L0 was a quality line
          else Err(NotAFastqFile)
  }

  /** The corrected block length: every cut is the start of a line that
      begins with '@' right after a newline. */
  function Cut(b: seq<byte>): (r: Result<nat>)
    ensures r.Ok? ==> IsStart(b, r.value, AT)
  {
    match Anchor(b)
    case Err(e) => Err(e)
    case Ok(k) => Resolve(b, NthLastNewline(b, k).value)
  }

  /** The finder fails only with the two errors of the look-back. */
  lemma CutErr(b: seq<byte>)
    ensures Cut(b).Err? ==> (Cut(b).error == NoNewLineInBlock || Cut(b).error == NotAFastqFile)
  {
    AnchorFromErr(b, 1);
  }

  /** `fastq(block)` (src/fastq.rs:14-49) with its nested `rfind_byte` probes. */
  method FindCut(block: seq<byte>) returns (r: Result<nat>)
    ensures r == Cut(block)
    ensures r.Ok? ==> 0 < r.value < |block| && block[r.value - 1] == NL && block[r.value] == AT
  {
    var end := |block|;
    for i := 0 to PROBES
      invariant end <= |block|
      invariant i == 0 ==> end == |block|
      invariant i > 0 ==> NthLastNewline(block, i) == Some(end)
      invariant Anchor(block) == AnchorFrom(block, i + 1)
    {
      var nl := LastNewline(block, end);
      NextProbe(block, i, end);
      if nl.None? {
        AnchorStops(block, i + 1);
        return Err(NoNewLineInBlock);
      }
      end := nl.value;
      if end + 1 < |block| && block[end + 1] == AT {
        CutAtProbe(block, i + 1, end);
        r := Disambiguate(block, end);
        return;
      }
      AnchorSkips(block, i + 1, end);
    }
    AnchorSpent(block);
    return Err(NotAFastqFile);
  }

  /** The (i+1)-th probe searches back from the end of the block, or from
      the i-th newline from the end. */
  lemma NextProbe(b: seq<byte>, i: nat, end: nat)
    requires end <= |b| && (i == 0 ==> end == |b|) && (i > 0 ==> NthLastNewline(b, i) == Some(end))
    ensures NthLastNewline(b, i + 1) == LastNewline(b, end)
  {
  }

  /** The look-back stops where a probe finds no newline. */
  lemma AnchorStops(b: seq<byte>, k: nat)
    requires 1 <= k <= PROBES && NthLastNewline(b, k).None?
    ensures AnchorFrom(b, k) == Err(NoNewLineInBlock)
  {
  }

  /** The look-back settles on the k-th probe when it sees '@': the cut is
      then what the disambiguation after its newline at e gives. */
  lemma CutAtProbe(b: seq<byte>, k: nat, e: nat)
    requires 1 <= k <= PROBES && Anchor(b) == AnchorFrom(b, k)
    requires NthLastNewline(b, k) == Some(e) && e + 1 < |b| && b[e + 1] == AT
    ensures Cut(b) == Resolve(b, e)
  {
    assert LineStartsWith(b, k, AT);
  }

  /** The look-back passes the k-th probe when its line does not begin
      with '@'. */
  lemma AnchorSkips(b: seq<byte>, k: nat, e: nat)
    requires 1 <= k <= PROBES && NthLastNewline(b, k) == Some(e) && !(e + 1 < |b| && b[e + 1] == AT)
    ensures AnchorFrom(b, k) == AnchorFrom(b, k + 1)
  {
    assert !LineStartsWith(b, k, AT);
  }

  /** Past the last probe the look-back fails. */
  lemma AnchorSpent(b: seq<byte>)
    ensures AnchorFrom(b, PROBES + 1) == Err(NotAFastqFile)
  {
  }

  /** The body of the `if` at src/fastq.rs:22-45: L0 follows the newline at
      `end`; the previous lines decide where the record starts. */
  method Disambiguate(block: seq<byte>, end: nat) returns (r: Result<nat>)
    requires end < |block|
    ensures r == Resolve(block, end)
  {
    var found := LastNewline(block, end);
    if found.None? {
      return Err(NoNewLineInBlock);
    }
    var prev := found.value;
    if block[prev + 1] == PLUS {
      found := LastNewline(block, prev);
      if found.None? {
        return Err(NoNewLineInBlock);
      }
      var prevprev := found.value;
      if block[prevprev + 1] == PLUS {
        return Ok(end + 1);
      } else {
        found := LastNewline(block, prevprev);
        if found.None? {
          return Err(NoNewLineInBlock);
        }
        var prevprevprev := found.value;
        if block[prevprevprev + 1] == AT {
          return Ok(prevprevprev + 1);
        } else {
          return Err(NotAFastqFile);
        }
      }
    } else {
      return Ok(end + 1);
    }
  }

  // ------------------------------------------------- the finder on FASTQ files

  /** Line j of a FASTQ file has kind j % 4: a comment line begins with '@',
      a sequence line with neither '@' nor '+', a separator line with '+';
      a quality line may begin with anything. */
  predicate FitsKind(kind: nat, line: seq<byte>)
  {
    if kind == 0 then HeadIs(line, AT)
    else if kind == 1 then !HeadIs(line, AT) && !HeadIs(line, PLUS)
    else if kind == 2 then HeadIs(line, PLUS)
    else true
  }

  /** Line j has the kind its place in the file gives it. */
  predicate InPlace(lines: seq<seq<byte>>, j: nat)
    requires j < |lines|
  {
    FitsKind(j % 4, lines[j])
  }

  /** The lines of whole FASTQ records followed, perhaps, by the first lines
      of one more. */
  predicate RecordLines(lines: seq<seq<byte>>)
  {
    AllLines(lines) && forall j | 0 <= j < |lines| :: InPlace(lines, j)
  }

  /** From a record boundary on, the lines are again FASTQ records. */
  lemma RecordsFrom(lines: seq<seq<byte>>, m: nat)
    requires RecordLines(lines) && m <= |lines| && m % 4 == 0
    ensures RecordLines(lines[m..])
  {
    var rest := lines[m..];
    forall j | 0 <= j < |rest|
      ensures IsLine(rest[j]) && InPlace(rest, j)
    {
      assert rest[j] == lines[m + j] && InPlace(lines, m + j);
    }
  }

  /** Line j = 4q + r of FASTQ records has kind r. */
  lemma RecordLine(lines: seq<seq<byte>>, j: nat, q: nat, r: nat)
    requires RecordLines(lines) && j < |lines| && r < 4 && j == 4 * q + r
    ensures FitsKind(r, lines[j])
  {
    assert InPlace(lines, j);
  }

  /** The look-back settles on the a-th probe when the probes before it see
      lines that do not begin with '@' and the a-th sees one that does. */
  lemma {:induction false} AnchorAt(b: seq<byte>, k: nat, a: nat)
    requires 1 <= k <= a <= PROBES
    requires forall i | k <= i < a :: NthLastNewline(b, i).Some? && !LineStartsWith(b, i, AT)
    requires NthLastNewline(b, a).Some? && LineStartsWith(b, a, AT)
    ensures AnchorFrom(b, k) == Ok(a)
    decreases a - k
  {
    if k < a {
      assert NthLastNewline(b, k).Some? && !LineStartsWith(b, k, AT);
      AnchorAt(b, k + 1, a);
    }
  }

  /** The look-back runs out of newlines after the c-th probe, none of
      whose lines begins with '@'. */
  lemma {:induction false} AnchorExhausted(b: seq<byte>, k: nat, c: nat)
    requires 1 <= k <= c + 1 <= PROBES
    requires forall i | k <= i <= c :: NthLastNewline(b, i).Some? && !LineStartsWith(b, i, AT)
    requires NthLastNewline(b, c + 1).None?
    ensures AnchorFrom(b, k) == Err(NoNewLineInBlock)
    decreases c + 1 - k
  {
    if k <= c {
      assert NthLastNewline(b, k).Some? && !LineStartsWith(b, k, AT);
      AnchorExhausted(b, k + 1, c);
    }
  }

  /** The disambiguation after L0 found by the k-th probe is the next three
      probes: L-1 follows the (k+1)-th last newline, L-2 the (k+2)-th, L-3
      the (k+3)-th. */
  lemma ResolveProbes(b: seq<byte>, k: nat)
    requires 1 <= k && NthLastNewline(b, k).Some?
    ensures NthLastNewline(b, k).value < |b|
    ensures Resolve(b, NthLastNewline(b, k).value) ==
            if NthLastNewline(b, k + 1).None? then Err(NoNewLineInBlock)
            else if !LineStartsWith(b, k + 1, PLUS) then Ok(NthLastNewline(b, k).value + 1)
            else if NthLastNewline(b, k + 2).None? then Err(NoNewLineInBlock)
            else if LineStartsWith(b, k + 2, PLUS) then Ok(NthLastNewline(b, k).value + 1)
            else if NthLastNewline(b, k + 3).None? then Err(NoNewLineInBlock)
            else if LineStartsWith(b, k + 3, AT) then Ok(NthLastNewline(b, k + 3).value + 1)
            else Err(NotAFastqFile)
  {
    var e := NthLastNewline(b, k).value;
    assert NthLastNewline(b, k + 1) == LastNewline(b, e);
    if NthLastNewline(b, k + 1).Some? {
      var prev := NthLastNewline(b, k + 1).value;
      assert NthLastNewline(b, k + 2) == LastNewline(b, prev);
      if NthLastNewline(b, k + 2).Some? {
        var prevprev := NthLastNewline(b, k + 2).value;
        assert NthLastNewline(b, k + 3) == LastNewline(b, prevprev);
      }
    }
  }

  /** The look-back after the k-th probe settled on a comment line: the
      next probes see either L-1 not beginning with '+', or L-1 and L-2
      both beginning with '+', and the cut is the start of L0. */
  lemma ResolveComment(b: seq<byte>, k: nat)
    requires 1 <= k && NthLastNewline(b, k).Some? && NthLastNewline(b, k + 1).Some?
    requires LineStartsWith(b, k + 1, PLUS) ==> NthLastNewline(b, k + 2).Some? && LineStartsWith(b, k + 2, PLUS)
    ensures NthLastNewline(b, k).value < |b|
    ensures Resolve(b, NthLastNewline(b, k).value) == Ok(NthLastNewline(b, k).value + 1)
  {
    ResolveProbes(b, k);
  }

  /** The look-back after the k-th probe settled on a quality line: L-1
      begins with '+' and L-2 does not, so the cut is the start of L-3
      when that begins with '@'. */
  lemma ResolveQuality(b: seq<byte>, k: nat)
    requires 1 <= k && NthLastNewline(b, k).Some? && NthLastNewline(b, k + 2).Some?
    requires LineStartsWith(b, k + 1, PLUS) && !LineStartsWith(b, k + 2, PLUS)
    ensures NthLastNewline(b, k).value < |b|
    ensures Resolve(b, NthLastNewline(b, k).value) ==
            if NthLastNewline(b, k + 3).None? then Err(NoNewLineInBlock)
            else if LineStartsWith(b, k + 3, AT) then Ok(NthLastNewline(b, k + 3).value + 1)
            else Err(NotAFastqFile)
  {
    ResolveProbes(b, k);
  }

  /** The finder after the look-back settled on the k-th probe and the next
      probes see a comment line there: the cut is the start of L0. */
  lemma CutComment(b: seq<byte>, k: nat)
    requires 1 <= k && Anchor(b) == Ok(k) && NthLastNewline(b, k + 1).Some?
    requires LineStartsWith(b, k + 1, PLUS) ==> NthLastNewline(b, k + 2).Some? && LineStartsWith(b, k + 2, PLUS)
    ensures NthLastNewline(b, k).Some? && Cut(b) == Ok(NthLastNewline(b, k).value + 1)
  {
    ResolveComment(b, k);
  }

  /** The same when the next probes see a quality line and the one after
      them sees no newline: the finder runs out of newlines. */
  lemma CutQualityNone(b: seq<byte>, k: nat)
    requires 1 <= k && Anchor(b) == Ok(k) && NthLastNewline(b, k + 2).Some?
    requires LineStartsWith(b, k + 1, PLUS) && !LineStartsWith(b, k + 2, PLUS)
    requires NthLastNewline(b, k + 3).None?
    ensures Cut(b) == Err(NoNewLineInBlock)
  {
    ResolveQuality(b, k);
  }

  /** The same when the probe after them finds the newline at p - 1: the
      cut is the start p of L-3 if that begins with '@', and the block is
      no FASTQ otherwise. */
  lemma CutQualityAt(b: seq<byte>, k: nat, p: nat)
    requires 1 <= k && Anchor(b) == Ok(k) && NthLastNewline(b, k + 2).Some?
    requires LineStartsWith(b, k + 1, PLUS) && !LineStartsWith(b, k + 2, PLUS)
    requires 1 <= p && NthLastNewline(b, k + 3) == Some(p - 1)
    ensures Cut(b) == if LineStartsWith(b, k + 3, AT) then Ok(p) else Err(NotAFastqFile)
  {
    ResolveQuality(b, k);
  }

  /** The look-back on the lines of a window settles on line m, the last
      visible line that begins with '@', when it is close enough to the end. */
  lemma AnchorOnLines(lines: seq<seq<byte>>, n: nat, m: nat)
    requires AllLines(lines) && 0 < n <= |Join(lines)|
    requires 1 <= m <= LastStart(lines, n) && HeadIs(lines[m], AT)
    requires Closed(lines, n) + 1 <= PROBES + m
    requires forall j | m < j <= LastStart(lines, n) :: !HeadIs(lines[j], AT)
    ensures Anchor(Window(lines, n)) == Ok(Closed(lines, n) + 1 - m)
  {
    var w := Window(lines, n);
    var a := Closed(lines, n) + 1 - m;
    forall i | 1 <= i < a
      ensures NthLastNewline(w, i).Some? && !LineStartsWith(w, i, AT)
    {
      ProbeSees(lines, n, i, AT);
    }
    ProbeSees(lines, n, a, AT);
    AnchorAt(w, 1, a);
  }

  /** No visible line after line 0 begins with '@' and the window holds
      fewer newlines than probes: the look-back runs out of newlines. */
  lemma AnchorRunsOut(lines: seq<seq<byte>>, n: nat)
    requires AllLines(lines) && 0 < n <= |Join(lines)| && Closed(lines, n) < PROBES
    requires forall j | 1 <= j <= LastStart(lines, n) :: !HeadIs(lines[j], AT)
    ensures Anchor(Window(lines, n)) == Err(NoNewLineInBlock)
  {
    var w := Window(lines, n);
    var c := Closed(lines, n);
    forall i | 1 <= i <= c
      ensures NthLastNewline(w, i).Some? && !LineStartsWith(w, i, AT)
    {
      ProbeSees(lines, n, i, AT);
    }
    ProbeBeyond(lines, n, c + 1);
    AnchorExhausted(w, 1, c);
  }

  /** What the probe that finds the newline before line m and the two
      probes after it see: lines m - 1 and m - 2. */
  lemma ProbesBefore(lines: seq<seq<byte>>, n: nat, m: nat, k: nat)
    requires AllLines(lines) && 0 < n <= |Join(lines)|
    requires 3 <= m <= LastStart(lines, n) && k == Closed(lines, n) + 1 - m
    ensures NthLastNewline(Window(lines, n), k) == Some(Offset(lines, m) - 1)
    ensures NthLastNewline(Window(lines, n), k + 1).Some?
    ensures NthLastNewline(Window(lines, n), k + 2).Some?
    ensures LineStartsWith(Window(lines, n), k + 1, PLUS) <==> HeadIs(lines[m - 1], PLUS)
    ensures LineStartsWith(Window(lines, n), k + 2, PLUS) <==> HeadIs(lines[m - 2], PLUS)
  {
    ProbeSees(lines, n, k, AT);
    ProbeSees(lines, n, k + 1, PLUS);
    ProbeSees(lines, n, k + 2, PLUS);
  }

  /** The third probe after that one sees nothing when m is line 3. */
  lemma ThirdProbeNone(lines: seq<seq<byte>>, n: nat, m: nat, k: nat)
    requires AllLines(lines) && 0 < n <= |Join(lines)|
    requires m == 3 && m <= LastStart(lines, n) && k == Closed(lines, n) + 1 - m
    ensures NthLastNewline(Window(lines, n), k + 3).None?
  {
    ProbeBeyond(lines, n, k + 3);
  }

  /** Otherwise it sees line m - 3, which starts at p. */
  lemma ThirdProbeBefore(lines: seq<seq<byte>>, n: nat, m: nat, k: nat, p: nat)
    requires AllLines(lines) && 0 < n <= |Join(lines)|
    requires 4 <= m <= LastStart(lines, n) && k == Closed(lines, n) + 1 - m && p == Offset(lines, m - 3)
    ensures NthLastNewline(Window(lines, n), k + 3) == Some(p - 1)
    ensures LineStartsWith(Window(lines, n), k + 3, AT) <==> HeadIs(lines[m - 3], AT)
  {
    ProbeSees(lines, n, k + 3, AT);
  }

  /** The finder when the look-back settles on line m, a comment line:
      L-1 is the previous record's quality line and L-2 its separator. */
  lemma CutAtComment(lines: seq<seq<byte>>, n: nat, m: nat)
    requires AllLines(lines) && 0 < n <= |Join(lines)|
    requires 3 <= m <= LastStart(lines, n) && Closed(lines, n) + 1 <= PROBES + m
    requires HeadIs(lines[m], AT) && HeadIs(lines[m - 2], PLUS)
    requires forall j | m < j <= LastStart(lines, n) :: !HeadIs(lines[j], AT)
    ensures Cut(Window(lines, n)) == Ok(Offset(lines, m))
  {
    var k := Closed(lines, n) + 1 - m;
    AnchorOnLines(lines, n, m);
    ProbesBefore(lines, n, m, k);
    CutComment(Window(lines, n), k);
  }

  /** The finder when the look-back settles on line m, a quality line that
      begins with '@': L-1 is the separator, L-2 the sequence and L-3 the
      comment line, which the window does not show when it is line 0. */
  lemma CutAtQuality(lines: seq<seq<byte>>, n: nat, m: nat)
    requires AllLines(lines) && 0 < n <= |Join(lines)|
    requires 3 <= m <= LastStart(lines, n) && Closed(lines, n) + 1 <= PROBES + m
    requires HeadIs(lines[m], AT) && HeadIs(lines[m - 1], PLUS) && !HeadIs(lines[m - 2], PLUS)
    requires 4 <= m ==> HeadIs(lines[m - 3], AT)
    requires forall j | m < j <= LastStart(lines, n) :: !HeadIs(lines[j], AT)
    ensures Cut(Window(lines, n)) == if m == 3 then Err(NoNewLineInBlock) else Ok(Offset(lines, m - 3))
  {
    var w := Window(lines, n);
    var k := Closed(lines, n) + 1 - m;
    AnchorOnLines(lines, n, m);
    ProbesBefore(lines, n, m, k);
    if m == 3 {
      ThirdProbeNone(lines, n, m, k);
      CutQualityNone(w, k);
    } else {
      var p := Offset(lines, m - 3);
      ThirdProbeBefore(lines, n, m, k, p);
      CutQualityAt(w, k, p);
    }
  }

  /** On a window cut from the start of FASTQ records, the finder returns
      the start of the record holding the last line that begins inside the
      window; it fails, with NoNewLineInBlock, only when that record is the
      first one. It never reports NotAFastqFile. */
  lemma CutOnRecords(lines: seq<seq<byte>>, n: nat)
    requires RecordLines(lines) && 0 < n <= |Join(lines)|
    ensures var t := LastStart(lines, n);
            Cut(Window(lines, n)) == if 4 <= t then Ok(Offset(lines, 4 * (t / 4))) else Err(NoNewLineInBlock)
  {
    var t := LastStart(lines, n);
    var q := t / 4;
    if t % 4 == 3 && HeadIs(lines[t], AT) {
      // the last visible line is a quality line beginning with '@'
      CutOnQualityLine(lines, n, t, q);
    } else {
      CutOnRecord(lines, n, t, q);
    }
  }

  /** CutOnRecords when the last visible line t is a quality line that
      begins with '@': the cut is before its comment line 4q. */
  lemma CutOnQualityLine(lines: seq<seq<byte>>, n: nat, t: nat, q: nat)
    requires RecordLines(lines) && 0 < n <= |Join(lines)|
    requires t == LastStart(lines, n) && t == 4 * q + 3 && HeadIs(lines[t], AT)
    ensures Cut(Window(lines, n)) == if 1 <= q then Ok(Offset(lines, 4 * q)) else Err(NoNewLineInBlock)
  {
    NoCommentAfter(lines, n, q, t);
    RecordLine(lines, t - 1, q, 2);
    RecordLine(lines, t - 2, q, 1);
    if q > 0 {
      RecordLine(lines, t - 3, q, 0);
    }
    CutAtQuality(lines, n, t);
  }

  /** CutOnRecords otherwise: the cut is before the comment line 4q of the
      record of line t. */
  lemma CutOnRecord(lines: seq<seq<byte>>, n: nat, t: nat, q: nat)
    requires RecordLines(lines) && 0 < n <= |Join(lines)|
    requires t == LastStart(lines, n) && q == t / 4 && !(t % 4 == 3 && HeadIs(lines[t], AT))
    ensures Cut(Window(lines, n)) == if 1 <= q then Ok(Offset(lines, 4 * q)) else Err(NoNewLineInBlock)
  {
    var m := 4 * q;
    NoCommentAfter(lines, n, q, m);
    if q == 0 {
      AnchorRunsOut(lines, n);
    } else {
      RecordLine(lines, m, q, 0);
      RecordLine(lines, m - 2, q - 1, 2);
      CutAtComment(lines, n, m);
    }
  }

  /** On the lines of FASTQ records, no visible line after line m begins
      with '@', where m is the start 4q of the record of the last visible
      line t, or t itself when that is a quality line beginning with '@'. */
  lemma NoCommentAfter(lines: seq<seq<byte>>, n: nat, q: nat, m: nat)
    requires RecordLines(lines) && 0 < n <= |Join(lines)|
    requires var t := LastStart(lines, n);
             q == t / 4 && m == if t % 4 == 3 && HeadIs(lines[t], AT) then t else 4 * q
    ensures forall j | m < j <= LastStart(lines, n) :: !HeadIs(lines[j], AT)
  {
    forall j | m < j <= LastStart(lines, n)
      ensures !HeadIs(lines[j], AT)
    {
      RecordLine(lines, j, q, j - 4 * q);
    }
  }

  /** A record: the four lines, each without its newline. The comment and
      separator lines keep their '@' and '+'. */
  datatype Record = Record(comment: seq<byte>, sequence: seq<byte>, plus: seq<byte>, quality: seq<byte>)

  /** The bytes a record occupies in its block. */
  function RecordBytes(r: Record): seq<byte>
  {
    r.comment + [NL] + r.sequence + [NL] + r.plus + [NL] + r.quality + [NL]
  }

  predicate WellFormed(r: Record)
  {
    IsLine(r.comment) && IsLine(r.sequence) && IsLine(r.plus) && IsLine(r.quality)
  }

  /** The four lines of a record, in file order. */
  function Fields(r: Record): seq<seq<byte>>
  {
    [r.comment, r.sequence, r.plus, r.quality]
  }

  lemma RecordBytesJoin(r: Record)
    ensures RecordBytes(r) == Join(Fields(r)) && |Fields(r)| == 4
    ensures WellFormed(r) ==> forall i | 0 <= i < |Fields(r)| :: IsLine(Fields(r)[i])
  {
    var f := Fields(r);
    assert f[1..][1..][1..][1..] == [];
    assert Join(f[1..][1..][1..]) == r.quality + [NL];
    assert Join(f[1..][1..]) == r.plus + [NL] + r.quality + [NL];
  }

  /** One call of the decoder from in-block offset `offset`: end of block, a
      record and the offset after it, or a partial record. */
  function ReadRecord(block: seq<byte>, offset: nat): (r: Result<Option<(Record, nat)>>)
    requires offset <= |block|
    ensures r == Ok(None) <==> offset == |block|
    ensures r.Err? ==> r.error == PartialRecord && offset < |block| && Newlines(block, offset, |block|) < 4
    ensures r.Ok? && r.value.Some? ==> offset < r.value.value.1 <= |block|
  {
    if offset == |block| then Ok(None)
    else match ReadLines(block, offset, 4)
      case Err(e) => Err(e)
      case Ok((lines, next)) => Ok(Some((Record(lines[0], lines[1], lines[2], lines[3]), next)))
  }

  /** The decoder reports a partial record exactly when bytes remain but
      fewer than 4 newlines among them. */
  lemma ReadRecordFails(block: seq<byte>, offset: nat)
    requires offset <= |block|
    ensures ReadRecord(block, offset).Err? <==> offset < |block| && Newlines(block, offset, |block|) < 4
  {
    ReadLinesFails(block, offset, 4);
  }

  /** A record read from the block is well formed and lays out the bytes
      the decoder consumed. */
  lemma ReadRecordLayout(block: seq<byte>, offset: nat, rec: Record, next: nat)
    requires offset <= |block| && ReadRecord(block, offset) == Ok(Some((rec, next)))
    ensures block[offset..next] == RecordBytes(rec) && WellFormed(rec)
  {
    var lines := ReadLines(block, offset, 4).value.0;
    assert ReadLines(block, offset, 4) == Ok((lines, next));
    ReadLinesLayout(block, offset, 4, lines, next);
    assert Fields(rec) == lines;
    assert IsLine(lines[0]) && IsLine(lines[1]) && IsLine(lines[2]) && IsLine(lines[3]);
    RecordBytesJoin(rec);
  }

  /** The record reader `Block2Record` over one block (src/fastq.rs:82-107). */
  class Reader {
    const block: seq<byte>
    var offset: nat

    ghost predicate Valid()
      reads this
    {
      offset <= |block|
    }

    constructor (block: seq<byte>)
      ensures Valid() && this.block == block && offset == 0
    {
      this.block := block;
      offset := 0;
    }

    /** `next_record`: slices the four lines and moves `offset` past the
        newline of each. */
    method NextRecord() returns (r: Result<Option<Record>>)
      requires Valid()
      modifies this
      ensures Valid()
      ensures r.Ok? && r.value.None? <==> old(offset) == |block|
      ensures r.Ok? && r.value.None? ==> offset == old(offset)
      ensures r.Ok? && r.value.Some? ==> ReadRecord(block, old(offset)) == Ok(Some((r.value.value, offset)))
      ensures r.Ok? && r.value.Some? ==> offset == old(offset) + |RecordBytes(r.value.value)|
      ensures r.Err? ==> ReadRecord(block, old(offset)) == Err(r.error)
      ensures r.Err? ==> old(offset) <= offset <= |block| && NoNewline(block, offset, |block|)
      ensures r.Err? ==> offset == old(offset) || (0 < offset && block[offset - 1] == NL)
    {
      if offset == |block| {
        return Ok(None);
      }
      var comment :- TakeLine();
      var sequence :- TakeLine();
      var plus :- TakeLine();
      var quality :- TakeLine();
      return Ok(Some(Record(comment, sequence, plus, quality)));
    }

    /** `get_line` followed by the move of `offset` past the line's newline. */
    method TakeLine() returns (r: Result<seq<byte>>)
      requires Valid()
      modifies this
      ensures Valid()
      ensures r.Ok? ==> ReadLine(block, old(offset)) == Ok((r.value, offset))
      ensures r.Err? ==> ReadLine(block, old(offset)) == Err(r.error) && offset == old(offset)
    {
      var line := GetLine(block, offset);
      if line.Err? {
        return Err(line.error);
      }
      var text := block[offset..line.value];
      offset := offset + |text| + 1;
      return Ok(text);
    }
  }

  /** The records of a whole block, read from `offset` until the end. */
  function DecodeAll(block: seq<byte>, offset: nat): Result<seq<Record>>
    requires offset <= |block|
    decreases |block| - offset
  {
    match ReadRecord(block, offset)
    case Err(e) => Err(e)
    case Ok(None) => Ok([])
    case Ok(Some((rec, next))) =>
      match DecodeAll(block, next)
      case Err(e) => Err(e)
      case Ok(rest) => Ok([rec] + rest)
  }

  /** The bytes of a sequence of records. */
  function Encode(rs: seq<Record>): seq<byte>
  {
    if rs == [] then [] else RecordBytes(rs[0]) + Encode(rs[1..])
  }

  /** Decoding is lossless: the records decoded from a block lay out the
      block again, byte for byte. */
  lemma {:induction false} DecodeAllLossless(block: seq<byte>, offset: nat)
    requires offset <= |block|
    ensures DecodeAll(block, offset).Ok? ==> Encode(DecodeAll(block, offset).value) == block[offset..]
    ensures DecodeAll(block, offset).Ok? ==> forall r | r in DecodeAll(block, offset).value :: WellFormed(r)
    decreases |block| - offset
  {
    var step := ReadRecord(block, offset);
    if step.Ok? && step.value.Some? {
      var rec := step.value.value.0;
      var next := step.value.value.1;
      ReadRecordLayout(block, offset, rec, next);
      DecodeAllLossless(block, next);
      var tail := DecodeAll(block, next);
      if tail.Ok? {
        var rs := [rec] + tail.value;
        assert DecodeAll(block, offset) == Ok(rs);
        assert rs[0] == rec && rs[1..] == tail.value;
        assert Encode(rs) == RecordBytes(rec) + Encode(tail.value);
        SliceSplit(block, offset, next);
      }
    }
  }

  /** The first byte of a record's bytes is the first byte of its comment
      line, and the byte after the sequence line's newline the first byte of
      its separator line, unless those lines are empty. */
  lemma RecordBytesSigils(rec: Record)
    ensures var p := |rec.comment| + |rec.sequence| + 2;
            p < |RecordBytes(rec)| &&
            RecordBytes(rec)[0] == (if |rec.comment| > 0 then rec.comment[0] else NL) &&
            RecordBytes(rec)[p] == (if |rec.plus| > 0 then rec.plus[0] else NL)
  {
    var front := rec.comment + [NL] + rec.sequence + [NL];
    var upto := front + rec.plus + [NL];
    assert RecordBytes(rec) == upto + rec.quality + [NL];
    assert upto[0] == front[0];
  }

  /** The comment and separator lines keep their first byte, the '@' and
      '+' a FASTQ record starts them with. */
  lemma ReadRecordKeepsSigils(block: seq<byte>, offset: nat, rec: Record, next: nat)
    requires offset <= |block| && ReadRecord(block, offset) == Ok(Some((rec, next)))
    ensures block[offset] == AT ==> HeadIs(rec.comment, AT)
    ensures offset + |rec.comment| + |rec.sequence| + 2 < |block|
    ensures block[offset + |rec.comment| + |rec.sequence| + 2] == PLUS ==> HeadIs(rec.plus, PLUS)
  {
    var bytes := block[offset..next];
    ReadRecordLayout(block, offset, rec, next);
    RecordBytesSigils(rec);
    var p := |rec.comment| + |rec.sequence| + 2;
    assert block[offset] == bytes[0];
    assert block[offset + p] == bytes[p];
  }

  /** Reading one record back from its own bytes. */
  lemma ReadRecordBytes(block: seq<byte>, offset: nat, rec: Record, tail: seq<byte>)
    requires WellFormed(rec)
    requires offset <= |block| && block[offset..] == RecordBytes(rec) + tail
    ensures ReadRecord(block, offset) == Ok(Some((rec, offset + |RecordBytes(rec)|)))
  {
    var lines := Fields(rec);
    RecordBytesJoin(rec);
    var next := offset + |Join(lines)|;
    ReadLinesAt(block, offset, lines, tail);
    assert ReadLines(block, offset, 4) == Ok((lines, next));
    ReadRecordOf(block, offset, lines, next);
    assert Record(lines[0], lines[1], lines[2], lines[3]) == rec;
  }

  /** The record ReadRecord builds from the four lines it reads. */
  lemma ReadRecordOf(block: seq<byte>, offset: nat, lines: seq<seq<byte>>, next: nat)
    requires offset < |block| && ReadLines(block, offset, 4) == Ok((lines, next))
    ensures ReadRecord(block, offset) == Ok(Some((Record(lines[0], lines[1], lines[2], lines[3]), next)))
  {
  }

  /** Decoding the bytes of well-formed records gives those records back. */
  lemma {:induction false} DecodeAllEncode(block: seq<byte>, offset: nat, rs: seq<Record>)
    requires offset <= |block| && block[offset..] == Encode(rs)
    requires forall r | r in rs :: WellFormed(r)
    ensures DecodeAll(block, offset) == Ok(rs)
    decreases rs
  {
    if rs == [] {
      assert |block[offset..]| == 0;
      assert ReadRecord(block, offset) == Ok(None);
    } else {
      var next := offset + |RecordBytes(rs[0])|;
      EncodeHead(block, offset, rs);
      DecodeAllEncode(block, next, rs[1..]);
      ReadRecordBytes(block, offset, rs[0], Encode(rs[1..]));
      DecodeAllStep(block, offset, rs[0], next, rs[1..]);
      assert [rs[0]] + rs[1..] == rs;
    }
  }

  /** The first record of encoded records is read back first. */
  lemma EncodeHead(block: seq<byte>, offset: nat, rs: seq<Record>)
    requires offset <= |block| && block[offset..] == Encode(rs) && rs != []
    ensures block[offset..] == RecordBytes(rs[0]) + Encode(rs[1..])
    ensures offset + |RecordBytes(rs[0])| <= |block|
    ensures block[offset + |RecordBytes(rs[0])|..] == Encode(rs[1..])
  {
    var head := RecordBytes(rs[0]);
    assert Encode(rs) == head + Encode(rs[1..]);
    SliceParts(block, offset, head, Encode(rs[1..]));
  }

  /** One record read, the rest decoded. */
  lemma DecodeAllStep(block: seq<byte>, offset: nat, rec: Record, next: nat, rest: seq<Record>)
    requires offset <= |block| && ReadRecord(block, offset) == Ok(Some((rec, next)))
    requires DecodeAll(block, next) == Ok(rest)
    ensures DecodeAll(block, offset) == Ok([rec] + rest)
  {
  }

  /** Decoding is total on the bytes of well-formed records. */
  lemma DecodeEncode(rs: seq<Record>)
    requires forall r | r in rs :: WellFormed(r)
    ensures DecodeAll(Encode(rs), 0) == Ok(rs)
  {
    DecodeAllEncode(Encode(rs), 0, rs);
  }
}
