/** Newline-terminated lines laid out one after the other (`Join`), and what
    the backward newline probes of the boundary finders see in a window
    `Join(lines)[..n]` that starts at the first of them. */
module Layout {
  import opened Bytes

  /** No line holds a newline of its own. */
  predicate AllLines(lines: seq<seq<byte>>)
  {
    forall k {:trigger IsLine(lines[k])} | 0 <= k < |lines| :: IsLine(lines[k])
  }

  /** The line is non-empty and begins with `sigil`. */
  predicate HeadIs(line: seq<byte>, sigil: byte)
  {
    |line| > 0 && line[0] == sigil
  }

  /** Where line i begins in Join(lines); Offset(lines, |lines|) is the end. */
  function Offset(lines: seq<seq<byte>>, i: nat): nat
    requires i <= |lines|
    decreases i
  {
    if i == 0 then 0 else Offset(lines, i - 1) + |lines[i - 1]| + 1
  }

  lemma {:induction false} OffsetCons(lines: seq<seq<byte>>, i: nat)
    requires 1 <= i <= |lines|
    ensures Offset(lines, i) == |lines[0]| + 1 + Offset(lines[1..], i - 1)
    decreases i
  {
    if i > 1 {
      OffsetCons(lines, i - 1);
    }
  }

  /** Each line takes at least its newline. */
  lemma {:induction false} OffsetGrows(lines: seq<seq<byte>>, i: nat, j: nat)
    requires i <= j <= |lines|
    ensures Offset(lines, i) + (j - i) <= Offset(lines, j)
    decreases j
  {
    if i < j {
      OffsetGrows(lines, i, j - 1);
    }
  }

  lemma {:induction false} JoinLength(lines: seq<seq<byte>>)
    ensures |Join(lines)| == Offset(lines, |lines|)
    decreases |lines|
  {
    if lines != [] {
      JoinLength(lines[1..]);
      OffsetCons(lines, |lines|);
    }
  }

  /** Byte c of line j, or its newline when c is the length of the line. */
  lemma {:induction false} JoinByte(lines: seq<seq<byte>>, j: nat, c: nat)
    requires j < |lines| && c <= |lines[j]|
    ensures Offset(lines, j) + c < |Join(lines)|
    ensures Join(lines)[Offset(lines, j) + c] == if c < |lines[j]| then lines[j][c] else NL
    decreases j
  {
    var rest := lines[1..];
    assert Join(lines) == lines[0] + [NL] + Join(rest);
    if j > 0 {
      OffsetCons(lines, j);
      JoinByte(rest, j - 1, c);
      assert rest[j - 1] == lines[j];
    }
  }

  /** The window of the first n bytes. */
  function Window(lines: seq<seq<byte>>, n: nat): (w: seq<byte>)
    requires n <= |Join(lines)|
    ensures |w| == n
  {
    Join(lines)[..n]
  }

  /** The last line whose first byte lies inside a window of n > 0 bytes. */
  function LastStart(lines: seq<seq<byte>>, n: nat): (t: nat)
    requires 0 < n <= |Join(lines)|
    ensures t < |lines| && Offset(lines, t) < n <= Offset(lines, t + 1)
    decreases |lines|
  {
    var rest := lines[1..];
    assert Join(lines) == lines[0] + [NL] + Join(rest);
    OffsetCons(lines, 1);
    if n <= |lines[0]| + 1 then 0
    else
      var t' := LastStart(rest, n - |lines[0]| - 1);
      OffsetCons(lines, t' + 1);
      OffsetCons(lines, t' + 2);
      t' + 1
  }

  /** The number of newlines inside the window: those ending lines
      0 .. LastStart - 1, and the one ending line LastStart when the window
      stops right after it. */
  function Closed(lines: seq<seq<byte>>, n: nat): (e: nat)
    requires 0 < n <= |Join(lines)|
    ensures LastStart(lines, n) <= e <= LastStart(lines, n) + 1
  {
    var t := LastStart(lines, n);
    if n == Offset(lines, t + 1) then t + 1 else t
  }

  /** The window ends inside line e, or right at its start. */
  predicate EndsIn(lines: seq<seq<byte>>, n: nat, e: nat)
  {
    e <= |lines| && Offset(lines, e) <= n && (e < |lines| ==> n <= Offset(lines, e) + |lines[e]|)
  }

  lemma EndsInClosed(lines: seq<seq<byte>>, n: nat)
    requires 0 < n <= |Join(lines)|
    ensures EndsIn(lines, n, Closed(lines, n))
  {
  }

  /** No newline from the start of line m up to a position inside it. */
  lemma InsideLine(lines: seq<seq<byte>>, n: nat, m: nat, end: nat)
    requires AllLines(lines) && n <= |Join(lines)| && end <= n
    requires EndsIn(lines, end, m)
    ensures NoNewline(Window(lines, n), Offset(lines, m), end)
  {
    var w := Window(lines, n);
    JoinLength(lines);
    forall p | Offset(lines, m) <= p < end
      ensures w[p] != NL
    {
      JoinByte(lines, m, p - Offset(lines, m));
      assert IsLine(lines[m]);
    }
  }

  /** Searching back from a position inside line m (or at its start) finds
      the newline that ends line m - 1, and nothing when m is the first line. */
  lemma LastNewlineInLine(lines: seq<seq<byte>>, n: nat, m: nat, end: nat)
    requires AllLines(lines) && n <= |Join(lines)| && end <= n
    requires EndsIn(lines, end, m)
    ensures LastNewline(Window(lines, n), end) ==
            if m == 0 then None else Some(Offset(lines, m) - 1)
  {
    var w := Window(lines, n);
    InsideLine(lines, n, m, end);
    if m == 0 {
      LastNewlineNone(w, end);
    } else {
      var p := Offset(lines, m) - 1;
      JoinByte(lines, m - 1, |lines[m - 1]|);
      assert w[p] == NL;
      LastNewlineIs(w, end, p);
    }
  }

  /** The newlines of the window, counted from its end: the k-th last ends
      line e - k, where the window ends inside line e. */
  lemma {:induction false} NthLastNewlineInWindow(lines: seq<seq<byte>>, n: nat, e: nat, k: nat)
    requires AllLines(lines) && n <= |Join(lines)| && EndsIn(lines, n, e) && 1 <= k
    ensures NthLastNewline(Window(lines, n), k) ==
            if k <= e then Some(Offset(lines, e - k + 1) - 1) else None
    decreases k
  {
    if k == 1 {
      LastNewlineInLine(lines, n, e, n);
    } else {
      NthLastNewlineInWindow(lines, n, e, k - 1);
      NextNewlineBack(lines, n, e, k);
    }
  }

  /** One more probe back: from the newline that ends line e - k + 1 to the
      one that ends line e - k. */
  lemma NextNewlineBack(lines: seq<seq<byte>>, n: nat, e: nat, k: nat)
    requires AllLines(lines) && n <= |Join(lines)| && EndsIn(lines, n, e) && 2 <= k
    requires NthLastNewline(Window(lines, n), k - 1) ==
             if k - 1 <= e then Some(Offset(lines, e - k + 2) - 1) else None
    ensures NthLastNewline(Window(lines, n), k) ==
            if k <= e then Some(Offset(lines, e - k + 1) - 1) else None
  {
    var w := Window(lines, n);
    if k - 1 <= e {
      var m := e - k + 1;
      OffsetGrows(lines, m + 1, e);
      assert NthLastNewline(w, k) == LastNewline(w, Offset(lines, m + 1) - 1);
      LastNewlineInLine(lines, n, m, Offset(lines, m + 1) - 1);
    } else {
      assert NthLastNewline(w, k - 1) == None;
    }
  }

  /** The byte after the newline that ends line j - 1 is the first byte of
      line j (a newline when line j is empty), when it lies in the window. */
  lemma HeadInWindow(lines: seq<seq<byte>>, n: nat, j: nat, sigil: byte)
    requires AllLines(lines) && n <= |Join(lines)| && j < |lines| && Offset(lines, j) < n && sigil != NL
    ensures Window(lines, n)[Offset(lines, j)] == sigil <==> HeadIs(lines[j], sigil)
  {
    JoinByte(lines, j, 0);
  }

  /** One probe of a finder: the k-th last newline of the window ends line
      e - k, and the line after it is visible and begins with `sigil`
      exactly when it starts before the end of the window and does. */
  lemma ProbeSees(lines: seq<seq<byte>>, n: nat, k: nat, sigil: byte)
    requires AllLines(lines) && 0 < n <= |Join(lines)| && 1 <= k <= Closed(lines, n) && sigil != NL
    ensures var e := Closed(lines, n);
            var w := Window(lines, n);
            NthLastNewline(w, k) == Some(Offset(lines, e - k + 1) - 1) &&
            (LineStartsWith(w, k, sigil) <==>
             e - k + 1 <= LastStart(lines, n) && HeadIs(lines[e - k + 1], sigil))
  {
    var e := Closed(lines, n);
    var j := e - k + 1;
    var w := Window(lines, n);
    EndsInClosed(lines, n);
    NthLastNewlineInWindow(lines, n, e, k);
    assert NthLastNewline(w, k).value + 1 == Offset(lines, j);
    if j <= LastStart(lines, n) {
      Visible(lines, n, j);
      HeadInWindow(lines, n, j, sigil);
    } else {
      assert Offset(lines, j) == n;
    }
  }

  /** A line starts inside the window exactly when it is at most LastStart. */
  lemma Visible(lines: seq<seq<byte>>, n: nat, j: nat)
    requires 0 < n <= |Join(lines)| && j < |lines|
    ensures Offset(lines, j) < n <==> j <= LastStart(lines, n)
  {
    var t := LastStart(lines, n);
    if j <= t {
      OffsetGrows(lines, j, t);
    } else {
      OffsetGrows(lines, t + 1, j);
    }
  }

  /** Probes past the e-th find nothing. */
  lemma ProbeBeyond(lines: seq<seq<byte>>, n: nat, k: nat)
    requires AllLines(lines) && 0 < n <= |Join(lines)| && Closed(lines, n) < k
    ensures NthLastNewline(Window(lines, n), k) == None
  {
    EndsInClosed(lines, n);
    NthLastNewlineInWindow(lines, n, Closed(lines, n), k);
  }

  /** From the start of line m on, the bytes are the lines from m on. */
  lemma {:induction false} JoinFrom(lines: seq<seq<byte>>, m: nat)
    requires m <= |lines|
    ensures Offset(lines, m) <= |Join(lines)| && Join(lines)[Offset(lines, m)..] == Join(lines[m..])
    decreases m
  {
    if m > 0 {
      var rest := lines[1..];
      var head := lines[0] + [NL];
      assert Join(lines) == head + Join(rest);
      OffsetCons(lines, m);
      JoinFrom(rest, m - 1);
      assert rest[m - 1..] == lines[m..];
      assert Join(lines)[|head| + Offset(rest, m - 1)..] == Join(rest)[Offset(rest, m - 1)..];
    }
  }

  /** Offsets counted from line m on add to the offset of line m. */
  lemma {:induction false} OffsetFrom(lines: seq<seq<byte>>, m: nat, k: nat)
    requires m + k <= |lines|
    ensures Offset(lines, m + k) == Offset(lines, m) + Offset(lines[m..], k)
    decreases k
  {
    if k > 0 {
      OffsetFrom(lines, m, k - 1);
      assert lines[m..][k - 1] == lines[m + k - 1];
    }
  }
}
