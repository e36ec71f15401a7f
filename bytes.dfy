/** Byte-level vocabulary shared by both formats.

    A block is a window of the mapped file, modelled as a sequence of bytes.
    The boundary finders search such a window backwards for newlines (the
    `rfind_byte` of the `bstr` crate); the record decoders search it forwards
    (`get_line` of biommap's block module). Both searches are defined here,
    together with the error kinds of biommap's error module. */
module Bytes {

  newtype byte = b: int | 0 <= b < 256

  const NL: byte := 10    // '\n'
  const PLUS: byte := 43  // '+'
  const GT: byte := 62    // '>'
  const AT: byte := 64    // '@'

  datatype Option<+T> = None | Some(value: T)

  /** The error kinds a scan can report (I/O kinds are not modelled). */
  datatype Error = NoNewLineInBlock | NotAFastaFile | NotAFastqFile | PartialRecord

  /** A fallible value; `:-` on it is the `?` operator. */
  datatype Result<+T> = Ok(value: T) | Err(error: Error) {
    predicate IsFailure() {
      Err?
    }

    function PropagateFailure<U>(): Result<U>
      requires Err?
    {
      Err(error)
    }

    function Extract(): T
      requires Ok?
    {
      value
    }
  }

  /** No newline among s[lo..hi]. */
  predicate NoNewline(s: seq<byte>, lo: nat, hi: nat)
    requires lo <= hi <= |s|
  {
    forall j | lo <= j < hi :: s[j] != NL
  }

  /** A line, as stored in a record field: no newline anywhere in it. */
  predicate IsLine(s: seq<byte>)
  {
    forall j | 0 <= j < |s| :: s[j] != NL
  }

  /** p is the start of a line beginning with `sigil`, preceded inside the
      block by a newline. */
  predicate IsStart(b: seq<byte>, p: int, sigil: byte)
  {
    0 < p < |b| && b[p - 1] == NL && b[p] == sigil
  }

  /** Number of newlines among s[lo..hi]. */
  function Newlines(s: seq<byte>, lo: nat, hi: nat): nat
    requires lo <= hi <= |s|
    decreases hi - lo
  {
    if lo == hi then 0 else Newlines(s, lo, hi - 1) + (if s[hi - 1] == NL then 1 else 0)
  }

  lemma {:induction false} NewlinesSplit(s: seq<byte>, lo: nat, mid: nat, hi: nat)
    requires lo <= mid <= hi <= |s|
    ensures Newlines(s, lo, hi) == Newlines(s, lo, mid) + Newlines(s, mid, hi)
    decreases hi - mid
  {
    if mid < hi {
      NewlinesSplit(s, lo, mid, hi - 1);
    }
  }

  lemma {:induction false} NewlinesNone(s: seq<byte>, lo: nat, hi: nat)
    requires lo <= hi <= |s|
    ensures Newlines(s, lo, hi) == 0 <==> NoNewline(s, lo, hi)
    decreases hi - lo
  {
    if lo < hi {
      NewlinesNone(s, lo, hi - 1);
    }
  }

  lemma NewlinesMono(s: seq<byte>, lo: nat, lo': nat, hi: nat)
    requires lo <= lo' <= hi <= |s|
    ensures Newlines(s, lo', hi) <= Newlines(s, lo, hi)
  {
    NewlinesSplit(s, lo, lo', hi);
  }

  /** A newline at q counts once in Newlines(s, q, hi). */
  lemma NewlinesAt(s: seq<byte>, q: nat, hi: nat)
    requires q < hi <= |s| && s[q] == NL
    ensures Newlines(s, q, hi) == Newlines(s, q + 1, hi) + 1
  {
    assert Newlines(s, q, q + 1) == 1;
    NewlinesSplit(s, q, q + 1, hi);
  }

  /** `s[..end].rfind_byte(b'\n')`: the position of the last newline before `end`. */
  function LastNewline(s: seq<byte>, end: nat): (r: Option<nat>)
    requires end <= |s|
    ensures r.Some? ==> r.value < end && s[r.value] == NL
  {
    if end == 0 then None
    else if s[end - 1] == NL then Some(end - 1)
    else LastNewline(s, end - 1)
  }

  /** LastNewline finds the last newline before `end`: none lies after
      the one it returns, and none at all when it returns nothing. */
  lemma {:induction false} LastNewlineSpec(s: seq<byte>, end: nat)
    requires end <= |s|
    ensures LastNewline(s, end).Some? ==> NoNewline(s, LastNewline(s, end).value + 1, end)
    ensures LastNewline(s, end).None? ==> NoNewline(s, 0, end)
    decreases end
  {
    if end > 0 && s[end - 1] != NL {
      LastNewlineSpec(s, end - 1);
    }
  }

  /** The result of LastNewline is determined by those two facts. */
  lemma {:induction false} LastNewlineIs(s: seq<byte>, end: nat, p: nat)
    requires p < end <= |s| && s[p] == NL && NoNewline(s, p + 1, end)
    ensures LastNewline(s, end) == Some(p)
    decreases end
  {
    if s[end - 1] != NL {
      LastNewlineIs(s, end - 1, p);
    }
  }

  lemma {:induction false} LastNewlineNone(s: seq<byte>, end: nat)
    requires end <= |s| && NoNewline(s, 0, end)
    ensures LastNewline(s, end) == None
    decreases end
  {
    if end > 0 {
      LastNewlineNone(s, end - 1);
    }
  }

  /** The k-th newline counted from the end of s (k >= 1): the newline the
      k-th probe of a boundary finder stops at. */
  function NthLastNewline(s: seq<byte>, k: nat): (r: Option<nat>)
    requires 1 <= k
    ensures r.Some? ==> r.value < |s| && s[r.value] == NL
    decreases k
  {
    if k == 1 then LastNewline(s, |s|)
    else match NthLastNewline(s, k - 1)
      case None => None
      case Some(e) => LastNewline(s, e)
  }

  /** The line after the k-th newline from the end of the block starts,
      inside the block, with `sigil`: what one probe of a finder tests. */
  predicate LineStartsWith(b: seq<byte>, k: nat, sigil: byte)
    requires 1 <= k
  {
    NthLastNewline(b, k).Some? && NthLastNewline(b, k).value + 1 < |b| &&
    b[NthLastNewline(b, k).value + 1] == sigil
  }

  /** Exactly k - 1 newlines follow the k-th last one; without a k-th last
      newline the block has fewer than k. */
  lemma {:induction false} NthLastNewlineCount(s: seq<byte>, k: nat)
    requires 1 <= k
    ensures NthLastNewline(s, k).Some? ==> Newlines(s, NthLastNewline(s, k).value + 1, |s|) == k - 1
    ensures NthLastNewline(s, k).None? ==> Newlines(s, 0, |s|) < k
    decreases k
  {
    if k == 1 {
      var r := LastNewline(s, |s|);
      LastNewlineSpec(s, |s|);
      if r.Some? {
        NewlinesNone(s, r.value + 1, |s|);
      } else {
        NewlinesNone(s, 0, |s|);
      }
    } else {
      NthLastNewlineCount(s, k - 1);
      match NthLastNewline(s, k - 1)
      case None =>
      case Some(e) =>
        var r := LastNewline(s, e);
        LastNewlineSpec(s, e);
        NewlinesAt(s, e, |s|);
        if r.Some? {
          NewlinesNone(s, r.value + 1, e);
          NewlinesSplit(s, r.value + 1, e, |s|);
        } else {
          NewlinesNone(s, 0, e);
          NewlinesSplit(s, 0, e, |s|);
        }
    }
  }

  /** The k-th last newline exists only in a block of at least k newlines. */
  lemma NthLastNewlineWithin(s: seq<byte>, k: nat)
    requires 1 <= k
    ensures NthLastNewline(s, k).Some? ==> k <= Newlines(s, 0, |s|)
  {
    NthLastNewlineCount(s, k);
    if NthLastNewline(s, k).Some? {
      var e := NthLastNewline(s, k).value;
      NewlinesAt(s, e, |s|);
      NewlinesMono(s, 0, e, |s|);
    }
  }

  /** The newline with exactly k - 1 newlines after it is the k-th last one. */
  lemma {:induction false} NthLastNewlineIs(s: seq<byte>, k: nat, q: nat)
    requires 1 <= k && q < |s| && s[q] == NL && Newlines(s, q + 1, |s|) == k - 1
    ensures NthLastNewline(s, k) == Some(q)
    decreases k
  {
    if k == 1 {
      NewlinesNone(s, q + 1, |s|);
      LastNewlineIs(s, |s|, q);
    } else {
      // the nearest newline after q
      NewlinesNone(s, q + 1, |s|);
      var n := NextNewline(s, q + 1);
      assert n.Some?;
      var q' := n.value;
      NewlinesNone(s, q + 1, q');
      NewlinesSplit(s, q + 1, q', |s|);
      NewlinesSplit(s, q', q' + 1, |s|);
      NthLastNewlineIs(s, k - 1, q');
      LastNewlineIs(s, q', q);
    }
  }

  /** The position of the first newline at or after `from`. */
  function NextNewline(s: seq<byte>, from: nat): (r: Option<nat>)
    requires from <= |s|
    ensures r.Some? ==> from <= r.value < |s| && s[r.value] == NL && NoNewline(s, from, r.value)
    ensures r.None? ==> NoNewline(s, from, |s|)
    decreases |s| - from
  {
    if from == |s| then None
    else if s[from] == NL then Some(from)
    else NextNewline(s, from + 1)
  }

  lemma {:induction false} NextNewlineIs(s: seq<byte>, from: nat, p: nat)
    requires from <= p < |s| && s[p] == NL && NoNewline(s, from, p)
    ensures NextNewline(s, from) == Some(p)
    decreases p - from
  {
    if from < p {
      NextNewlineIs(s, from + 1, p);
    }
  }

  /** `get_line` of the block module: the line starting at `offset` ends at
      the returned position (exclusive), where its terminating newline is;
      without a terminator the record is partial. */
  function GetLine(s: seq<byte>, offset: nat): (r: Result<nat>)
    requires offset <= |s|
    ensures r.Ok? ==> offset <= r.value < |s| && s[r.value] == NL && IsLine(s[offset..r.value])
    ensures r.Err? ==> r.error == PartialRecord && IsLine(s[offset..])
  {
    match NextNewline(s, offset)
    case None => Err(PartialRecord)
    case Some(e) => Ok(e)
  }

  /** A line read at `from` and the offset past its newline, as the
      decoders do it: `get_line`, then `offset += line.len() + 1`. */
  function ReadLine(s: seq<byte>, from: nat): (r: Result<(seq<byte>, nat)>)
    requires from <= |s|
    ensures r.Ok? ==> from < r.value.1 <= |s| && r.value.1 == from + |r.value.0| + 1
    ensures r.Ok? ==> s[r.value.1 - 1] == NL && IsLine(r.value.0)
    ensures r.Err? ==> r.error == PartialRecord && NoNewline(s, from, |s|)
  {
    match GetLine(s, from)
    case Err(e) => Err(e)
    case Ok(e) => Ok((s[from..e], e + 1))
  }

  /** A line laid out at `from` with its newline is what ReadLine finds. */
  lemma ReadLineAt(s: seq<byte>, from: nat, line: seq<byte>, tail: seq<byte>)
    requires from <= |s| && s[from..] == line + [NL] + tail && IsLine(line)
    ensures ReadLine(s, from) == Ok((line, from + |line| + 1))
    ensures s[from + |line| + 1..] == tail
  {
    SliceParts(s, from, line + [NL], tail);
    assert forall j | from <= j < from + |line| :: s[j] == line[j - from] by {
      forall j | from <= j < from + |line|
        ensures s[j] == line[j - from]
      {
        assert s[j] == s[from..][j - from];
      }
    }
    assert s[from + |line|] == s[from..][|line|];
    NextNewlineIs(s, from, from + |line|);
    assert GetLine(s, from) == Ok(from + |line|);
    assert s[from..from + |line|] == s[from..][..|line|] == line;
  }

  /** Lines laid out one after the other, each with its newline. */
  function Join(lines: seq<seq<byte>>): seq<byte>
  {
    if lines == [] then [] else lines[0] + [NL] + Join(lines[1..])
  }

  /** One more terminated line between from and next. */
  lemma CountLine(s: seq<byte>, from: nat, next: nat)
    requires from < next <= |s| && s[next - 1] == NL && NoNewline(s, from, next - 1)
    ensures Newlines(s, from, next) == 1
  {
    NewlinesNone(s, from, next - 1);
  }

  /** `n` successive lines read from `from`, and the offset past the last;
      a line without its newline makes the record partial. */
  function ReadLines(s: seq<byte>, from: nat, n: nat): (r: Result<(seq<seq<byte>>, nat)>)
    requires from <= |s|
    ensures r.Ok? ==> |r.value.0| == n && from <= r.value.1 <= |s| && (0 < n ==> from < r.value.1)
    ensures r.Err? ==> r.error == PartialRecord && 0 < n && Newlines(s, from, |s|) < n
    decreases n
  {
    if n == 0 then Ok(([], from))
    else match ReadLine(s, from)
      case Err(e) =>
        NewlinesNone(s, from, |s|);
        Err(e)
      case Ok((line, next)) =>
        CountLine(s, from, next);
        NewlinesSplit(s, from, next, |s|);
        match ReadLines(s, next, n - 1)
        case Err(e) => Err(e)
        case Ok((rest, end)) => Ok(([line] + rest, end))
  }

  /** ReadLines fails exactly when fewer than n newlines remain. */
  lemma {:induction false} ReadLinesFails(s: seq<byte>, from: nat, n: nat)
    requires from <= |s|
    ensures ReadLines(s, from, n).Err? <==> Newlines(s, from, |s|) < n
    decreases n
  {
    if n > 0 && ReadLine(s, from).Ok? {
      var next := ReadLine(s, from).value.1;
      ReadLinesFails(s, next, n - 1);
      CountLine(s, from, next);
      NewlinesSplit(s, from, next, |s|);
    }
  }

  /** The lines ReadLines finds lay out the bytes it consumed. */
  lemma {:induction false} ReadLinesLayout(s: seq<byte>, from: nat, n: nat, lines: seq<seq<byte>>, end: nat)
    requires from <= |s| && ReadLines(s, from, n) == Ok((lines, end))
    ensures end <= |s| && s[from..end] == Join(lines)
    ensures forall i | 0 <= i < |lines| :: IsLine(lines[i])
    decreases n
  {
    if n > 0 {
      var (line, next) := ReadLine(s, from).value;
      var (rest, end') := ReadLines(s, next, n - 1).value;
      assert lines == [line] + rest && end' == end;
      ReadLinesLayout(s, next, n - 1, rest, end);
      JoinStep(s, from, next, end, line, rest);
      assert forall i | 1 <= i < |lines| :: lines[i] == rest[i - 1];
    }
  }

  lemma JoinStep(s: seq<byte>, from: nat, next: nat, end: nat, line: seq<byte>, rest: seq<seq<byte>>)
    requires from < next <= end <= |s| && next == from + |line| + 1
    requires s[from..next - 1] == line && s[next - 1] == NL && s[next..end] == Join(rest)
    ensures s[from..end] == Join([line] + rest)
  {
    assert ([line] + rest)[1..] == rest;
    assert s[from..end] == s[from..next - 1] + [s[next - 1]] + s[next..end];
  }

  /** Lines laid out at `from` are what ReadLines finds. */
  lemma {:induction false} ReadLinesAt(s: seq<byte>, from: nat, lines: seq<seq<byte>>, tail: seq<byte>)
    requires from <= |s| && s[from..] == Join(lines) + tail
    requires forall i | 0 <= i < |lines| :: IsLine(lines[i])
    ensures ReadLines(s, from, |lines|) == Ok((lines, from + |Join(lines)|))
    decreases lines
  {
    if lines != [] {
      var rest := lines[1..];
      var next := from + |lines[0]| + 1;
      FirstLineAt(s, from, lines, tail);
      ReadLinesAt(s, next, rest, tail);
      var end := next + |Join(rest)|;
      ReadLinesCons(s, from, |rest| + 1, lines[0], next, rest, end);
      assert [lines[0]] + rest == lines;
    }
  }

  /** The first of the lines laid out at `from`, and the others after it. */
  lemma FirstLineAt(s: seq<byte>, from: nat, lines: seq<seq<byte>>, tail: seq<byte>)
    requires from <= |s| && s[from..] == Join(lines) + tail && lines != []
    requires forall i | 0 <= i < |lines| :: IsLine(lines[i])
    ensures ReadLine(s, from) == Ok((lines[0], from + |lines[0]| + 1))
    ensures from + |lines[0]| + 1 <= |s| && s[from + |lines[0]| + 1..] == Join(lines[1..]) + tail
    ensures forall i | 0 <= i < |lines[1..]| :: IsLine(lines[1..][i])
    ensures from + |Join(lines)| == from + |lines[0]| + 1 + |Join(lines[1..])|
  {
    var rest := lines[1..];
    JoinConsTail(lines, tail);
    assert IsLine(lines[0]);
    ReadLineAt(s, from, lines[0], Join(rest) + tail);
    assert forall i | 0 <= i < |rest| :: rest[i] == lines[i + 1];
  }

  lemma JoinConsTail(lines: seq<seq<byte>>, tail: seq<byte>)
    requires lines != []
    ensures Join(lines) + tail == lines[0] + [NL] + (Join(lines[1..]) + tail)
    ensures |Join(lines)| == |lines[0]| + 1 + |Join(lines[1..])|
  {
    assert Join(lines) == lines[0] + [NL] + Join(lines[1..]);
  }

  /** One line read, then the others. */
  lemma ReadLinesCons(s: seq<byte>, from: nat, n: nat, line: seq<byte>, next: nat, rest: seq<seq<byte>>, end: nat)
    requires from <= |s| && 0 < n && ReadLine(s, from) == Ok((line, next))
    requires ReadLines(s, next, n - 1) == Ok((rest, end))
    ensures ReadLines(s, from, n) == Ok(([line] + rest, end))
  {
  }

  lemma SliceSplit(s: seq<byte>, i: nat, j: nat)
    requires i <= j <= |s|
    ensures s[i..] == s[i..j] + s[j..]
  {
  }

  lemma SliceParts(s: seq<byte>, i: nat, a: seq<byte>, b: seq<byte>)
    requires i <= |s| && s[i..] == a + b
    ensures i + |a| <= |s| && s[i..i + |a|] == a && s[i + |a|..] == b
  {
    assert s[i..i + |a|] == (a + b)[..|a|];
    assert s[i + |a|..] == (a + b)[|a|..];
  }

  /** The bytes of a sequence of blocks, laid end to end. */
  function Concat(bs: seq<seq<byte>>): seq<byte>
  {
    if bs == [] then [] else Concat(bs[..|bs| - 1]) + bs[|bs| - 1]
  }

  lemma ConcatAppend(bs: seq<seq<byte>>, b: seq<byte>)
    ensures Concat(bs + [b]) == Concat(bs) + b
  {
    assert (bs + [b])[..|bs|] == bs;
  }

  lemma {:induction false} ConcatCons(b: seq<byte>, bs: seq<seq<byte>>)
    ensures Concat([b] + bs) == b + Concat(bs)
    decreases |bs|
  {
    if bs != [] {
      var init := bs[..|bs| - 1];
      ConcatCons(b, init);
      assert ([b] + bs)[..|bs|] == [b] + init;
      assert bs[..|bs| - 1] == init;
    }
  }
}
