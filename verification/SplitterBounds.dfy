/** How long messages get. Every message is within the limit when every fence of the text leaves
    room for a piece between its two mending lines; for a fence that does not, some text breaks
    the limit. */
module SplitterBounds {
  import opened Wrappers
  import opened Text
  import opened Splitter

  /** A piece fits between a reopened opener line and a closing one. */
  predicate FenceFits(f: Fence, limit: int) {
    |f.opener| + 1 + |f.marker| + 1 + Max(1, limit / 2) <= limit
  }

  /** Every code block the text enters has a fence that fits. */
  ghost predicate FencesFit(text: string, limit: int) {
    forall k | 0 <= k <= |Lines(text)| ::
      var f := Scan(None, Lines(text)[..k]);
      f.Some? ==> FenceFits(f.value, limit)
  }

  ghost predicate AllWithin(parts: seq<string>, limit: int) {
    forall k | 0 <= k < |parts| :: |parts[k]| <= limit
  }

  /** What the bound needs of the pieces: they are short, their fences fit, and two consecutive
      pieces are not in two different code blocks. */
  ghost predicate Fitting(ps: seq<Piece>, limit: int) {
    && (forall i | 0 <= i < |ps| :: |ps[i].text| <= Max(1, limit / 2))
    && (forall i | 0 <= i < |ps| :: ps[i].fence.Some? ==> FenceFits(ps[i].fence.value, limit))
    && (forall i | 0 < i < |ps| ::
          ps[i].fence.Some? && ps[i - 1].fence.Some? ==> ps[i].fence == ps[i - 1].fence)
  }

  lemma {:induction false} ScanConcat(fence: Option<Fence>, a: seq<string>, b: seq<string>)
    ensures Scan(fence, a + b) == Scan(Scan(fence, a), b)
    decreases |a|
  {
    if a == [] {
      assert a + b == b;
    } else {
      assert (a + b)[1..] == a[1..] + b;
      ScanConcat(NextFence(fence, a[0]), a[1..], b);
    }
  }

  lemma {:induction false} SlicesFit(line: string, width: nat, sep: string, inside: Option<Fence>)
    requires width > 0
    ensures var ps := Slices(line, width, sep, inside);
            ps != [] && forall i | 0 <= i < |ps| :: |ps[i].text| <= width && ps[i].fence == inside
    decreases |line|
  {
    if |line| > width {
      SlicesFit(line[width..], width, "", inside);
    }
  }

  lemma {:induction false} PiecesFit(lines: seq<string>, limit: int, fence: Option<Fence>)
    requires forall k | 0 <= k <= |lines| ::
               var f := Scan(fence, lines[..k]); f.Some? ==> FenceFits(f.value, limit)
    ensures var ps := PiecesFrom(lines, Max(1, limit / 2), fence);
            Fitting(ps, limit) && (lines != [] ==> ps != [] && ps[0].fence == fence)
    decreases |lines|
  {
    if lines != [] {
      var width := Max(1, limit / 2);
      var next := NextFence(fence, lines[0]);
      var first := Slices(lines[0], width, "\n", fence);
      var rest := PiecesFrom(lines[1..], width, next);
      SlicesFit(lines[0], width, "\n", fence);
      forall k | 0 <= k <= |lines[1..]|
        ensures var f := Scan(next, lines[1..][..k]); f.Some? ==> FenceFits(f.value, limit)
      {
        assert lines[..k + 1][1..] == lines[1..][..k];
      }
      assert Scan(fence, lines[..0]) == fence;
      PiecesFit(lines[1..], limit, next);
      var ps := first + rest;
      assert forall i | 0 <= i < |ps| :: ps[i] == if i < |first| then first[i] else rest[i - |first|];
      assert rest != [] ==> rest[0].fence == next;
    }
  }

  /** The chosen cut fits: the fallback to a single piece that does not fit is never taken. */
  lemma CutFits(ps: seq<Piece>, a: nat, limit: int)
    requires a < |ps| && limit >= 1 && Fitting(ps, limit)
    ensures var e := Cut(ps, a, limit);
            Candidate(ps, a, limit, e) || (e == |ps| && Size(ps, a, e) <= limit)
  {
    assert Size(ps, a, a + 1) == OpenerSize(ps[a].fence) + |ps[a].text|;
    if a + 1 < |ps| {
      var c := a + 1;
      assert ps[c].fence.Some? && ps[c - 1].fence.Some? ==> ps[c].fence == ps[c - 1].fence;
      assert Candidate(ps, a, limit, a + 1);
    }
  }

  lemma DressWithin(ps: seq<Piece>, a: nat, e: nat)
    requires a < e <= |ps|
    ensures |Dress(CutoutAt(ps, a, e))| <= Total(ps, a, e)
    ensures FenceAt(ps, e).Some? ==> |Dress(CutoutAt(ps, a, e))| == Total(ps, a, e)
  {
  }

  lemma {:induction false} CutoutsWithin(ps: seq<Piece>, a: nat, limit: int)
    requires a <= |ps| && limit >= 1 && Fitting(ps, limit)
    ensures AllWithin(DressAll(Cutouts(ps, a, limit)), limit)
    decreases |ps| - a
  {
    if a < |ps| {
      var e := Cut(ps, a, limit);
      CutFits(ps, a, limit);
      DressWithin(ps, a, e);
      CutoutsWithin(ps, SkipBlank(ps, e), limit);
      CutoutsStep(ps, a, limit);
    }
  }

  /** No message is longer than the limit. */
  lemma SplitBounded(text: string, limit: int)
    requires limit >= 1 && FencesFit(Strip(text), limit)
    ensures AllWithin(Split(text, limit), limit)
  {
    var t := Strip(text);
    if t != "" {
      PiecesFit(Lines(t), limit, None);
      CutoutsWithin(Pieces(t, Max(1, limit / 2)), 0, limit);
    }
  }
}
