/** The length bound of the splitter cannot be had for less: for a fence that leaves no room for
    a piece between its mending lines, a short text with that fence alone breaks the limit. */
module SplitterTight {
  import opened Wrappers
  import opened Text
  import opened Splitter
  import opened SplitterBounds
  import SplitterLossless

  /** A line that opens a code block, and the block it opens. */
  ghost predicate Opens(f: Fence) {
    NextFence(None, f.opener) == Some(f) && '\n' !in f.opener
  }

  /** The text is in no code block but `f`'s. */
  ghost predicate OnlyFence(text: string, f: Fence) {
    forall k | 0 <= k <= |Lines(text)| ::
      var s := Scan(None, Lines(text)[..k]); s.Some? ==> s.value == f
  }

  function Xs(n: nat): string {
    seq(n, _ => 'x')
  }

  function ProbeLines(f: Fence, limit: int): seq<string> {
    var x := Xs(Max(1, limit / 2));
    ["x", f.opener, x, x, x]
  }

  /** A line, the opener, and three lines of the block as long as a piece. */
  function Probe(f: Fence, limit: int): string {
    JoinLines(ProbeLines(f, limit))
  }

  ghost predicate ProbePieces(ps: seq<Piece>, k: nat, f: Fence, limit: int) {
    && 1 <= k && |ps| == k + 3
    && (forall i | 0 <= i < k :: ps[i].fence.None?)
    && (forall i | k <= i < |ps| :: ps[i] == Piece(Xs(Max(1, limit / 2)), "\n", Some(f)))
  }

  lemma XIsPlain(n: nat)
    requires n >= 1
    ensures FenceMatch(Xs(n)).None? && LStrip(Xs(n)) == Xs(n) && Strip(Xs(n)) == Xs(n)
  {
    assert Xs(n)[0] == 'x' && Xs(n)[n - 1] == 'x';
    RStripStable(Xs(n));
  }

  lemma MarkerShape(line: string)
    ensures var m := FenceMatch(line);
            m.Some? ==> && |m.value.marker| >= 3
                        && (m.value.marker[0] == '`' || m.value.marker[0] == '~')
                        && forall i | 0 <= i < |m.value.marker| :: m.value.marker[i] == m.value.marker[0]
  {
  }

  lemma ProbeHasPieces(f: Fence, limit: int) returns (k: nat)
    requires Opens(f)
    ensures ProbePieces(Pieces(Probe(f, limit), Max(1, limit / 2)), k, f, limit)
  {
    var width := Max(1, limit / 2);
    var x, lines := Xs(width), ProbeLines(f, limit);
    LinesOfJoin(lines);
    XIsPlain(width);
    XIsPlain(1);
    assert "x" == Xs(1);
    var tail := PiecesFrom([x, x, x], width, Some(f));
    var p := Piece(x, "\n", Some(f));
    assert [x, x, x][1..] == [x, x] && [x, x][1..] == [x] && [x][1..] == [];
    assert PiecesFrom([x], width, Some(f)) == [p];
    assert PiecesFrom([x, x], width, Some(f)) == [p, p];
    assert tail == [p, p, p];
    var opener := Slices(f.opener, width, "\n", None);
    SlicesFit(f.opener, width, "\n", None);
    assert lines[1..] == [f.opener, x, x, x] && lines[1..][1..] == [x, x, x];
    assert PiecesFrom(lines[1..], width, None) == opener + tail;
    var first := Piece("x", "\n", None);
    assert Slices("x", width, "\n", None) == [first];
    assert Pieces(Probe(f, limit), width) == [first] + (opener + tail);
    k := 1 + |opener|;
  }

  lemma ProbeOnlyFence(f: Fence, limit: int)
    requires Opens(f)
    ensures OnlyFence(Probe(f, limit), f) && Strip(Probe(f, limit)) == Probe(f, limit)
    ensures Probe(f, limit) != ""
  {
    var width := Max(1, limit / 2);
    var x, lines := Xs(width), ProbeLines(f, limit);
    LinesOfJoin(lines);
    XIsPlain(width);
    XIsPlain(1);
    assert "x" == Xs(1);
    forall k | 0 <= k <= |lines| ensures var s := Scan(None, lines[..k]); s.Some? ==> s.value == f {
      ScanStays(lines, k, f);
    }
    var t := Probe(f, limit);
    JoinEnds(lines);
    assert t[0] == 'x' && t[|t| - 1] == 'x';
    RStripStable(t);
  }

  lemma {:induction false} ScanStays(lines: seq<string>, k: nat, f: Fence)
    requires k <= |lines| && |lines| == 5 && lines[1] == f.opener && Opens(f)
    requires forall i | 0 <= i < 5 && i != 1 :: FenceMatch(lines[i]).None?
    ensures Scan(None, lines[..k]) == if k <= 1 then None else Some(f)
  {
    if k > 0 {
      ScanStays(lines, k - 1, f);
      ScanConcat(None, lines[..k - 1], [lines[k - 1]]);
      assert lines[..k - 1] + [lines[k - 1]] == lines[..k];
      assert Scan(Scan(None, lines[..k - 1]), [lines[k - 1]]) == NextFence(Scan(None, lines[..k - 1]), lines[k - 1]);
    }
  }

  lemma {:induction false} JoinEnds(lines: seq<string>)
    requires lines != [] && lines[0] != "" && lines[|lines| - 1] != ""
    ensures var t := JoinLines(lines);
            t != "" && t[0] == lines[0][0] &&
            t[|t| - 1] == lines[|lines| - 1][|lines[|lines| - 1]| - 1]
  {
    if |lines| > 1 {
      JoinTail(lines);
    }
  }

  lemma {:induction false} JoinTail(lines: seq<string>)
    requires lines != [] && lines[|lines| - 1] != ""
    ensures var t := JoinLines(lines); var l := lines[|lines| - 1];
            t != "" && t[|t| - 1] == l[|l| - 1]
  {
    if |lines| > 1 {
      JoinTail(lines[1..]);
    }
  }

  lemma {:induction false} TailLength(ps: seq<Piece>, k: nat, f: Fence, limit: int, i: nat, e: nat)
    requires ProbePieces(ps, k, f, limit) && i <= k + 2 <= e <= |ps|
    ensures |Tail(ps, i, e)| >= (if i <= k then 2 else k + 2 - i) * (Max(1, limit / 2) + 1)
  {
    var width := Max(1, limit / 2);
    if e > k + 2 {
      TailLength(ps, k, f, limit, i, e - 1);
    } else {
      assert i <= k + 1 ==> |Tail(ps, i, k + 2)| == |Tail(ps, i, k + 1)| + 1 + width;
      assert i <= k ==> |Tail(ps, i, k + 1)| == |Tail(ps, i, k)| + 1 + width;
    }
  }

  /** A message that starts before the block ends before the block's third line. */
  lemma ProbeNear(ps: seq<Piece>, k: nat, f: Fence, limit: int, a: nat)
    requires ProbePieces(ps, k, f, limit) && a < k
    ensures Cut(ps, a, limit) <= k + 1
  {
    var e := Cut(ps, a, limit);
    if e >= k + 2 {
      TailLength(ps, k, f, limit, a + 1, e);
    }
  }

  /** A message that starts on the block's first or second line is kept, and too long. */
  lemma ProbeLong(ps: seq<Piece>, k: nat, f: Fence, limit: int, a: nat)
    requires ProbePieces(ps, k, f, limit) && Opens(f) && !FenceFits(f, limit) && k <= a <= k + 1
    ensures var d := Dress(CutoutAt(ps, a, Cut(ps, a, limit))); |d| > limit && Strip(d) != ""
  {
    var width := Max(1, limit / 2);
    assert Size(ps, a, |ps|) > limit by {
      assert |Tail(ps, a + 1, |ps|)| == |Tail(ps, a + 1, |ps| - 1)| + 1 + width;
    }
    MarkerShape(f.opener);
    LastKept(CutoutAt(ps, a, Cut(ps, a, limit)));
  }

  /** A message cut inside a code block is kept whole. */
  lemma LastKept(c: Cutout)
    requires c.closer.Some? && c.closer.value.marker != ""
    requires !IsSpace(c.closer.value.marker[|c.closer.value.marker| - 1])
    ensures Strip(Dress(c)) != ""
    ensures |Dress(c)| == (if c.opener.Some? then |c.opener.value.opener| + 1 else 0) + |c.body|
                          + |c.closer.value.marker| + 1
  {
    var d := Dress(c);
    assert !IsSpace(d[|d| - 1]);
    if Strip(d) == "" {
      SplitterLossless.StripBlank(d);
    }
  }

  lemma NotWithinAfter(head: seq<string>, rest: seq<string>, limit: int)
    requires !AllWithin(rest, limit)
    ensures !AllWithin(head + rest, limit)
  {
    var j :| 0 <= j < |rest| && |rest[j]| > limit;
    assert (head + rest)[|head| + j] == rest[j];
  }

  lemma {:induction false} ProbeBreaks(ps: seq<Piece>, k: nat, f: Fence, limit: int, a: nat)
    requires ProbePieces(ps, k, f, limit) && Opens(f) && !FenceFits(f, limit) && a <= k + 1
    ensures !AllWithin(DressAll(Cutouts(ps, a, limit)), limit)
    decreases |ps| - a
  {
    CutoutsStep(ps, a, limit);
    var e := Cut(ps, a, limit);
    var s := SkipBlank(ps, e);
    var d := Dress(CutoutAt(ps, a, e));
    var head := if Strip(d) != "" then [d] else [];
    var rest := DressAll(Cutouts(ps, s, limit));
    if a >= k {
      ProbeLong(ps, k, f, limit, a);
      assert (head + rest)[0] == d;
    } else {
      ProbeNear(ps, k, f, limit, a);
      assert e <= s && !Blank(ps[k]) && !Blank(ps[k + 1]);
      ProbeBreaks(ps, k, f, limit, s);
      NotWithinAfter(head, rest, limit);
    }
  }

  lemma OnlyFenceFits(text: string, f: Fence, limit: int)
    requires OnlyFence(text, f) && FenceFits(f, limit)
    ensures FencesFit(text, limit)
  {
  }

  /** When the limit holds: for a given fence, every text whose code blocks are all that fence's
      is split within the limit if and only if the fence leaves room for a piece. */
  lemma BoundExactly(f: Fence, limit: int)
    requires Opens(f)
    ensures (forall text | OnlyFence(Strip(text), f) :: AllWithin(Split(text, limit), limit))
            <==> FenceFits(f, limit)
  {
    if FenceFits(f, limit) {
      forall text | OnlyFence(Strip(text), f) ensures AllWithin(Split(text, limit), limit) {
        OnlyFenceFits(Strip(text), f, limit);
        SplitBounded(text, limit);
      }
    } else {
      var t := Probe(f, limit);
      ProbeOnlyFence(f, limit);
      var k := ProbeHasPieces(f, limit);
      ProbeBreaks(Pieces(t, Max(1, limit / 2)), k, f, limit, 0);
      assert OnlyFence(Strip(t), f) && !AllWithin(Split(t, limit), limit);
    }
  }
}
