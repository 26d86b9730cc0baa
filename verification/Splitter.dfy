/** The WeChat message splitter: `_pieces` and `split_message` of runner/im_wechat.py.

    A text becomes pieces (lines, or slices of over-long lines), each knowing the fenced code
    block it starts in. Messages are runs of consecutive pieces. The methods are the source's
    loops; `Cutouts` says which runs they pick. */
module Splitter {
  import opened Wrappers
  import opened Text

  /** An open code block: the line that opened it, and the fence characters that close it. */
  datatype Fence = Fence(opener: string, marker: string)

  datatype FenceLine = FenceLine(marker: string, info: string)

  datatype Piece = Piece(text: string, sep: string, fence: Option<Fence>)

  /** One message before its fences are mended: the slice of the text it carries, the code
      block that slice starts in, and the code block it is cut in. */
  datatype Cutout = Cutout(opener: Option<Fence>, body: string, closer: Option<Fence>)

  function Max(a: int, b: int): int {
    if a < b then b else a
  }

  // ---- fences ----

  function RunLength(s: string, c: char): (n: nat)
    ensures n <= |s|
    ensures forall i | 0 <= i < n :: s[i] == c
    ensures n < |s| ==> s[n] != c
  {
    if s != "" && s[0] == c then 1 + RunLength(s[1..], c) else 0
  }

  /** The regex `^\s{0,3}(`{3,}|~{3,})(.*)$` on one line. */
  function FenceMatch(line: string): Option<FenceLine> {
    var rest := LStrip(line);
    if |line| - |rest| > 3 || rest == "" || (rest[0] != '`' && rest[0] != '~') then None
    else
      var n := RunLength(rest, rest[0]);
      if n < 3 then None else Some(FenceLine(rest[..n], rest[n..]))
  }

  predicate SameStart(a: string, b: string) {
    a != "" && b != "" && a[0] == b[0]
  }

  /** The code block a line leaves its successor in. */
  function NextFence(fence: Option<Fence>, line: string): Option<Fence> {
    var m := FenceMatch(line);
    if fence.None? then
      if m.Some? && !(SameStart(m.value.marker, "`") && '`' in m.value.info)
      then Some(Fence(line, m.value.marker)) else None
    else if && m.Some?
            && SameStart(m.value.marker, fence.value.marker)
            && |m.value.marker| >= |fence.value.marker|
            && Strip(m.value.info) == ""
    then None else fence
  }

  /** The code block a list of lines ends in. */
  function Scan(fence: Option<Fence>, lines: seq<string>): Option<Fence>
    decreases |lines|
  {
    if lines == [] then fence else Scan(NextFence(fence, lines[0]), lines[1..])
  }

  // ---- pieces ----

  function Slices(line: string, width: nat, sep: string, inside: Option<Fence>): (ps: seq<Piece>)
    requires width > 0
  {
    if |line| <= width then [Piece(line, sep, inside)]
    else [Piece(line[..width], sep, inside)] + Slices(line[width..], width, "", inside)
  }

  function PiecesFrom(lines: seq<string>, width: nat, fence: Option<Fence>): seq<Piece>
    requires width > 0
  {
    if lines == [] then []
    else Slices(lines[0], width, "\n", fence) + PiecesFrom(lines[1..], width, NextFence(fence, lines[0]))
  }

  function Pieces(text: string, width: nat): seq<Piece>
    requires width > 0
  {
    PiecesFrom(Lines(text), width, None)
  }

  /** The inner loop of `_pieces`: one line, cut every `width` characters. */
  method CutLine(before: seq<Piece>, line: string, width: nat, inside: Option<Fence>)
    returns (pieces: seq<Piece>)
    requires width > 0
    ensures pieces == before + Slices(line, width, "\n", inside)
  {
    pieces := before;
    var start := 0;
    ghost var left := Slices(line, width, "\n", inside);
    while start < Max(|line|, 1)
      invariant 0 <= start
      invariant start < Max(|line|, 1) ==>
        start <= |line| && left == Slices(line[start..], width, if start == 0 then "\n" else "", inside)
      invariant start >= Max(|line|, 1) ==> left == []
      invariant pieces + left == before + Slices(line, width, "\n", inside)
      decreases Max(|line|, 1) - start
    {
      var stop := if start + width < |line| then start + width else |line|;
      ghost var rest := line[start..];
      var piece := Piece(line[start..stop], if start == 0 then "\n" else "", inside);
      if start + width < |line| {
        assert rest[..width] == line[start..stop] && rest[width..] == line[stop..];
      } else {
        assert rest == line[start..stop];
      }
      assert left == [piece] + left[1..];
      pieces := pieces + [piece];
      left := left[1..];
      start := start + width;
    }
  }

  /** `_pieces`. */
  method CutPieces(text: string, width: nat) returns (pieces: seq<Piece>)
    requires width > 0
    ensures pieces == Pieces(text, width)
  {
    pieces := [];
    var fence: Option<Fence> := None;
    var lines := Lines(text);
    var k := 0;
    while k < |lines|
      invariant k <= |lines|
      invariant pieces + PiecesFrom(lines[k..], width, fence) == Pieces(text, width)
    {
      var line := lines[k];
      assert lines[k..][1..] == lines[k + 1..];
      pieces := CutLine(pieces, line, width, fence);
      fence := NextFence(fence, line);
      k := k + 1;
    }
  }

  // ---- one cut ----

  /** Pieces `i` to `e`, each with the separator before it. */
  function Tail(ps: seq<Piece>, i: nat, e: nat): string
    requires i <= e <= |ps|
  {
    if i == e then "" else Tail(ps, i, e - 1) + ps[e - 1].sep + ps[e - 1].text
  }

  /** What pieces `a` to `e` say: the separator before the first is the cut, not text. */
  function Body(ps: seq<Piece>, a: nat, e: nat): string
    requires a < e <= |ps|
  {
    ps[a].text + Tail(ps, a + 1, e)
  }

  function OpenerSize(fence: Option<Fence>): nat {
    if fence.Some? then |fence.value.opener| + 1 else 0
  }

  function CloserSize(fence: Option<Fence>): nat {
    if fence.Some? then |fence.value.marker| + 1 else 0
  }

  /** The code block a cut before piece `e` falls in. */
  function FenceAt(ps: seq<Piece>, e: nat): Option<Fence> {
    if e < |ps| then ps[e].fence else None
  }

  function Size(ps: seq<Piece>, a: nat, e: nat): nat
    requires a < e <= |ps|
  {
    OpenerSize(ps[a].fence) + |Body(ps, a, e)|
  }

  /** The length of message `a` to `e` with both its mending lines. */
  function Total(ps: seq<Piece>, a: nat, e: nat): nat
    requires a < e <= |ps|
  {
    Size(ps, a, e) + CloserSize(FenceAt(ps, e))
  }

  /** A cut before piece `c` that fits. */
  predicate Candidate(ps: seq<Piece>, a: nat, limit: int, c: nat) {
    a < c < |ps| && Total(ps, a, c) <= limit
  }

  /** How good a cut is, 0 best: a blank line outside code blocks, a line end outside them, a
      line end inside one, and last a cut inside a line or one that leaves the message less
      than a third full. */
  function Tier(ps: seq<Piece>, a: nat, limit: int, c: nat): nat
    requires a < c < |ps|
  {
    if ps[c].sep == "" || Total(ps, a, c) < limit / 3 then 3
    else if ps[c].fence.Some? then 2
    else if Strip(ps[c].text) == "" || Strip(ps[c - 1].text) == "" then 0
    else 1
  }

  /** What the docstring of `split_message` promises of a cut: everything that is left when it
      fits, else the latest among the cuts of the best tier, else (nothing fits) one piece. */
  ghost predicate IsCut(ps: seq<Piece>, a: nat, limit: int, e: nat)
    requires a < |ps|
  {
    if Size(ps, a, |ps|) <= limit then e == |ps|
    else if exists c: nat :: Candidate(ps, a, limit, c) then
      && Candidate(ps, a, limit, e)
      && forall c: nat | Candidate(ps, a, limit, c) ::
           || Tier(ps, a, limit, e) < Tier(ps, a, limit, c)
           || (Tier(ps, a, limit, e) == Tier(ps, a, limit, c) && c <= e)
    else e == a + 1
  }

  /** The preferred cut among those up to `j`. */
  function Best(ps: seq<Piece>, a: nat, limit: int, j: nat): (b: Option<nat>)
    requires a < |ps|
    ensures b.Some? ==> Candidate(ps, a, limit, b.value) && b.value <= j
    ensures b.None? ==> forall c: nat | c <= j :: !Candidate(ps, a, limit, c)
    ensures b.Some? ==> forall c: nat | c <= j && Candidate(ps, a, limit, c) ::
                          || Tier(ps, a, limit, b.value) < Tier(ps, a, limit, c)
                          || (Tier(ps, a, limit, b.value) == Tier(ps, a, limit, c) && c <= b.value)
  {
    if j == 0 then None
    else
      var prev := Best(ps, a, limit, j - 1);
      if Candidate(ps, a, limit, j) && (prev.None? || Tier(ps, a, limit, j) <= Tier(ps, a, limit, prev.value))
      then Some(j) else prev
  }

  function Cut(ps: seq<Piece>, a: nat, limit: int): (e: nat)
    requires a < |ps|
    ensures a < e <= |ps|
    ensures IsCut(ps, a, limit, e)
  {
    if Size(ps, a, |ps|) <= limit then |ps|
    else
      var b := Best(ps, a, limit, |ps|);
      if b.Some? then b.value else a + 1
  }

  lemma CutUnique(ps: seq<Piece>, a: nat, limit: int, e: nat)
    requires a < |ps| && IsCut(ps, a, limit, e)
    ensures e == Cut(ps, a, limit)
  {
  }

  predicate LineEnd(ps: seq<Piece>, a: nat, limit: int, c: nat)
    requires a < c < |ps|
  {
    ps[c].sep != "" && Total(ps, a, c) >= limit / 3
  }

  predicate BlankLine(ps: seq<Piece>, c: nat)
    requires 0 < c < |ps|
  {
    Strip(ps[c].text) == "" || Strip(ps[c - 1].text) == ""
  }

  /** The order of preference, cut by cut: no cut that fills a third of a message and fits is
      passed over for an earlier one of its own kind, nor for one of a worse kind. */
  lemma CutPrefers(ps: seq<Piece>, a: nat, limit: int, c: nat)
    requires a < |ps| && limit < Size(ps, a, |ps|) && Candidate(ps, a, limit, c) && LineEnd(ps, a, limit, c)
    ensures var e := Cut(ps, a, limit);
            && Candidate(ps, a, limit, e) && LineEnd(ps, a, limit, e)
            && (ps[c].fence.None? ==> ps[e].fence.None?)
            && (ps[c].fence.None? && BlankLine(ps, c) ==> BlankLine(ps, e))
            && (c <= e || (ps[e].fence.None? && (ps[c].fence.Some? || (BlankLine(ps, e) && !BlankLine(ps, c)))))
  {
  }

  /** With no such cut, the latest that fits is taken, and with none that fits, one piece. */
  lemma CutLatest(ps: seq<Piece>, a: nat, limit: int, c: nat)
    requires a < |ps| && limit < Size(ps, a, |ps|)
    requires forall b: nat | Candidate(ps, a, limit, b) :: !LineEnd(ps, a, limit, b)
    ensures Candidate(ps, a, limit, c) ==> Candidate(ps, a, limit, Cut(ps, a, limit)) && c <= Cut(ps, a, limit)
    ensures (forall b: nat :: !Candidate(ps, a, limit, b)) ==> Cut(ps, a, limit) == a + 1
  {
  }

  lemma {:induction false} SizeGrows(ps: seq<Piece>, a: nat, i: nat, j: nat)
    requires a < i <= j <= |ps|
    ensures Size(ps, a, i) <= Size(ps, a, j)
  {
    if i < j {
      SizeGrows(ps, a, i, j - 1);
    }
  }

  /** `next((cut for cut in best if cut is not None), default)`. */
  function FirstCut(best: seq<Option<nat>>, default: nat): (cut: nat)
    ensures || (cut == default && forall t | 0 <= t < |best| :: best[t].None?)
            || (exists t :: 0 <= t < |best| && best[t] == Some(cut) && forall u | 0 <= u < t :: best[u].None?)
  {
    if best == [] then default
    else if best[0].Some? then best[0].value
    else FirstCut(best[1..], default)
  }

  /** `best[t]` is the latest cut of tier `t` up to `j`. */
  ghost predicate Kept(ps: seq<Piece>, a: nat, limit: int, best: seq<Option<nat>>, j: nat) {
    && |best| == 4
    && (forall t | 0 <= t < 4 && best[t].Some? ::
          Candidate(ps, a, limit, best[t].value) && Tier(ps, a, limit, best[t].value) == t)
    && (forall c: nat | c <= j && Candidate(ps, a, limit, c) ::
          best[Tier(ps, a, limit, c)].Some? && c <= best[Tier(ps, a, limit, c)].value)
  }

  lemma KeptStep(ps: seq<Piece>, a: nat, limit: int, best: seq<Option<nat>>, j: nat)
    requires a < j < |ps| && Kept(ps, a, limit, best, j - 1)
    ensures Kept(ps, a, limit,
                 if Candidate(ps, a, limit, j) then best[Tier(ps, a, limit, j) := Some(j)] else best, j)
  {
  }

  lemma KeptChooses(ps: seq<Piece>, a: nat, limit: int, best: seq<Option<nat>>, j: nat)
    requires a < j <= |ps| && Kept(ps, a, limit, best, j - 1) && limit < Size(ps, a, j)
    ensures FirstCut(best, a + 1) == Cut(ps, a, limit)
  {
    forall c: nat | Candidate(ps, a, limit, c) ensures c < j {
      if j <= c { SizeGrows(ps, a, j, c); }
    }
    SizeGrows(ps, a, j, |ps|);
    if exists c: nat :: Candidate(ps, a, limit, c) {
      var c: nat :| Candidate(ps, a, limit, c);
      assert best[Tier(ps, a, limit, c)].Some?;
    }
    CutUnique(ps, a, limit, FirstCut(best, a + 1));
  }

  /** The inner loop of `split_message`: sizes grow piece by piece, the last cut of each tier
      is kept, and the scan stops once nothing longer can fit. */
  method ChooseCut(ps: seq<Piece>, a: nat, limit: int) returns (cut: nat)
    requires a < |ps|
    ensures cut == Cut(ps, a, limit)
  {
    var size := OpenerSize(ps[a].fence);
    var best: seq<Option<nat>> := [None, None, None, None];
    var j := a;
    while j < |ps|
      invariant a <= j <= |ps|
      invariant size == if j == a then OpenerSize(ps[a].fence) else Size(ps, a, j)
      invariant a == |ps| || j < |ps|
      invariant Kept(ps, a, limit, best, j)
    {
      size := size + |ps[j].text| + (if j > a then |ps[j].sep| else 0);
      j := j + 1;
      assert size == Size(ps, a, j);
      if size > limit {
        KeptChooses(ps, a, limit, best, j);
        return FirstCut(best, a + 1);
      }
      if j == |ps| {
        return j;
      }
      KeptStep(ps, a, limit, best, j);
      var after := ps[j];
      var total := size + CloserSize(after.fence);
      if total <= limit {
        var tier :=
          if after.sep == "" || total < limit / 3 then 3
          else if after.fence.Some? then 2
          else if Strip(after.text) == "" || Strip(ps[j - 1].text) == "" then 0
          else 1;
        best := best[tier := Some(j)];
      }
    }
    assert false;
  }

  // ---- the whole text ----

  /** `text` mended: the code block it starts in reopened, the one it is cut in closed. */
  function Dress(c: Cutout): string {
    var body := if c.opener.Some? then c.opener.value.opener + "\n" + c.body else c.body;
    if c.closer.Some? then body + "\n" + c.closer.value.marker else RStrip(body)
  }

  function DressAll(cs: seq<Cutout>): (parts: seq<string>)
    ensures |parts| == |cs|
    ensures forall k | 0 <= k < |cs| :: parts[k] == Dress(cs[k])
  {
    if cs == [] then [] else [Dress(cs[0])] + DressAll(cs[1..])
  }

  function CutoutAt(ps: seq<Piece>, a: nat, e: nat): Cutout
    requires a < e <= |ps|
  {
    Cutout(ps[a].fence, Body(ps, a, e), FenceAt(ps, e))
  }

  predicate Blank(p: Piece) {
    p.fence.None? && Strip(p.text) == ""
  }

  /** Blank pieces outside code blocks that follow a cut belong to it. */
  function SkipBlank(ps: seq<Piece>, i: nat): (j: nat)
    requires i <= |ps|
    ensures i <= j <= |ps|
    ensures forall k | i <= k < j :: Blank(ps[k])
    ensures j < |ps| ==> !Blank(ps[j])
    decreases |ps| - i
  {
    if i < |ps| && Blank(ps[i]) then SkipBlank(ps, i + 1) else i
  }

  /** The messages cut from piece `a` on. */
  function Cutouts(ps: seq<Piece>, a: nat, limit: int): seq<Cutout>
    requires a <= |ps|
    decreases |ps| - a
  {
    if a == |ps| then []
    else
      var e := Cut(ps, a, limit);
      var c := CutoutAt(ps, a, e);
      (if Strip(Dress(c)) != "" then [c] else []) + Cutouts(ps, SkipBlank(ps, e), limit)
  }

  function TextCutouts(text: string, limit: int): seq<Cutout> {
    var t := Strip(text);
    if t == "" then [] else Cutouts(Pieces(t, Max(1, limit / 2)), 0, limit)
  }

  function Split(text: string, limit: int): seq<string> {
    DressAll(TextCutouts(text, limit))
  }

  /** One message and the blank lines after it. */
  lemma CutoutsStep(ps: seq<Piece>, a: nat, limit: int)
    requires a < |ps|
    ensures var e := Cut(ps, a, limit);
            var c := CutoutAt(ps, a, e);
            DressAll(Cutouts(ps, a, limit)) ==
            (if Strip(Dress(c)) != "" then [Dress(c)] else []) + DressAll(Cutouts(ps, SkipBlank(ps, e), limit))
  {
    var e := Cut(ps, a, limit);
    var rest := Cutouts(ps, SkipBlank(ps, e), limit);
    assert ([CutoutAt(ps, a, e)] + rest)[1..] == rest;
    assert [] + rest == rest;
  }

  method SkipBlankPieces(pieces: seq<Piece>, start: nat) returns (a: nat)
    requires start <= |pieces|
    ensures a == SkipBlank(pieces, start)
  {
    a := start;
    while a < |pieces| && pieces[a].fence.None? && Strip(pieces[a].text) == ""
      invariant start <= a <= |pieces|
      invariant SkipBlank(pieces, a) == SkipBlank(pieces, start)
    {
      a := a + 1;
    }
  }

  /** The outer loop of `split_message`. */
  method CutMessages(pieces: seq<Piece>, limit: int) returns (parts: seq<string>)
    ensures parts == DressAll(Cutouts(pieces, 0, limit))
  {
    parts := [];
    var a := 0;
    ghost var all := DressAll(Cutouts(pieces, 0, limit));
    ghost var left := all;
    while a < |pieces|
      invariant a <= |pieces|
      invariant left == DressAll(Cutouts(pieces, a, limit))
      invariant parts + left == all
    {
      CutoutsStep(pieces, a, limit);
      var end := ChooseCut(pieces, a, limit);
      var body := Dress(CutoutAt(pieces, a, end));
      left := DressAll(Cutouts(pieces, SkipBlank(pieces, end), limit));
      if Strip(body) != "" {
        Assoc(parts, [body], left);
        parts := parts + [body];
      } else {
        NoLeft(left);
      }
      a := SkipBlankPieces(pieces, end);
    }
  }

  /** `split_message`. */
  method SplitMessage(text: string, limit: int) returns (parts: seq<string>)
    ensures parts == Split(text, limit)
  {
    var t := Strip(text);
    if t == "" { return []; }
    var pieces := CutPieces(t, Max(1, limit / 2));
    parts := CutMessages(pieces, limit);
  }
}
