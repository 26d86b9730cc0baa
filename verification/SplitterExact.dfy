/** What the splitter reads and writes, in terms of the text alone: where a code block opens and
    closes, how a line is sliced, what a message looks like, and which runs of pieces are
    messages. */
module SplitterExact {
  import opened Wrappers
  import opened Text
  import opened Splitter
  import opened SplitterBounds
  import opened SplitterBalance
  import SplitterTight
  import SplitterLossless

  // ---- code blocks ----

  /** The line opens a code block, and this one: it is a fence line, and not a backtick one with a
      backtick in its rest. */
  ghost predicate OpensBlock(line: string, f: Fence) {
    exists m ::
      && IsFenceLine(line, m) && !(m.marker[0] == '`' && '`' in m.info)
      && f == Fence(line, m.marker)
  }

  /** The line closes this code block: it is a fence line with a run of the same character, at least
      as long, and nothing visible after it. */
  ghost predicate ClosesBlock(line: string, f: Fence)
    requires f.marker != ""
  {
    exists m ::
      IsFenceLine(line, m) && m.marker[0] == f.marker[0] && |m.marker| >= |f.marker| && AllSpace(m.info)
  }

  /** Outside code blocks a line opens the block it says, and no other does. */
  lemma OpensExactly(line: string, f: Fence)
    ensures NextFence(None, line) == Some(f) <==> OpensBlock(line, f)
  {
    if NextFence(None, line) == Some(f) {
      FenceMatchExactly(line, FenceMatch(line).value);
    }
    if OpensBlock(line, f) {
      var m :| IsFenceLine(line, m) && !(m.marker[0] == '`' && '`' in m.info) && f == Fence(line, m.marker);
      FenceMatchExactly(line, m);
    }
  }

  /** Inside a code block a line that closes it ends it, and every other line leaves it as it is. */
  lemma ClosesExactly(line: string, f: Fence)
    requires f.marker != ""
    ensures NextFence(Some(f), line) == if ClosesBlock(line, f) then None else Some(f)
  {
    var m := FenceMatch(line);
    if m.Some? {
      FenceMatchExactly(line, m.value);
      AllSpaceStrips(m.value.info);
    }
    if ClosesBlock(line, f) {
      var n :| IsFenceLine(line, n) && n.marker[0] == f.marker[0] && |n.marker| >= |f.marker| && AllSpace(n.info);
      FenceMatchExactly(line, n);
    }
  }

  /** Line `o` is outside code blocks and opens `f`, and no line after it closes it. */
  ghost predicate OpenSince(lines: seq<string>, o: nat, f: Fence)
    requires o < |lines|
  {
    && f.marker != "" && Scan(None, lines[..o]).None? && OpensBlock(lines[o], f)
    && forall j | o < j < |lines| :: !ClosesBlock(lines[j], f)
  }

  ghost predicate InBlock(lines: seq<string>, f: Fence) {
    exists o :: 0 <= o < |lines| && OpenSince(lines, o, f)
  }

  lemma StillOpen(lines: seq<string>, o: nat, f: Fence)
    requires o < |lines| - 1
    ensures OpenSince(lines, o, f) <==>
            OpenSince(lines[..|lines| - 1], o, f) && !ClosesBlockOf(lines[|lines| - 1], f)
  {
    var n := |lines| - 1;
    assert lines[..n][..o] == lines[..o];
    if OpenSince(lines[..n], o, f) && !ClosesBlockOf(lines[n], f) {
      forall j | o < j < |lines| ensures !ClosesBlock(lines[j], f) {
        assert j < n ==> lines[..n][j] == lines[j];
      }
    }
  }

  ghost predicate ClosesBlockOf(line: string, f: Fence) {
    f.marker != "" && ClosesBlock(line, f)
  }

  /** One line more. */
  lemma InBlockSnoc(lines: seq<string>, f: Fence)
    requires lines != []
    ensures var init, last := lines[..|lines| - 1], lines[|lines| - 1];
            InBlock(lines, f) <==>
            || (InBlock(init, f) && !ClosesBlockOf(last, f))
            || (f.marker != "" && Scan(None, init).None? && OpensBlock(last, f))
  {
    var n := |lines| - 1;
    forall o: nat | o < n
      ensures OpenSince(lines, o, f) <==> OpenSince(lines[..n], o, f) && !ClosesBlockOf(lines[n], f)
    {
      StillOpen(lines, o, f);
    }
    assert OpenSince(lines, n, f) <==> f.marker != "" && Scan(None, lines[..n]).None? && OpensBlock(lines[n], f);
  }

  lemma OpenedHasMarker(line: string, f: Fence)
    requires OpensBlock(line, f)
    ensures f.marker != ""
  {
  }

  /** A text is in a code block exactly if one of its lines opened it, outside code blocks, and no
      line since closes it. */
  lemma {:induction false} InBlockExactly(lines: seq<string>, f: Fence)
    ensures Scan(None, lines) == Some(f) <==> InBlock(lines, f)
  {
    if lines != [] {
      var init, last := lines[..|lines| - 1], lines[|lines| - 1];
      InBlockExactly(init, f);
      ScanLast(None, lines);
      InBlockSnoc(lines, f);
      if Scan(None, init).None? {
        OpensExactly(last, f);
        if OpensBlock(last, f) { OpenedHasMarker(last, f); }
      } else {
        var g := Scan(None, init).value;
        InBlockExactly(init, g);
        assert g.marker != "";
        ClosesExactly(last, g);
      }
    }
  }

  // ---- slices ----

  /** Every slice but the last is as wide as allowed, the last is not empty unless the line is; the
      first has the line's separator, and all the code block the line starts in. */
  ghost predicate Sliced(ps: seq<Piece>, line: string, width: nat, sep: string, inside: Option<Fence>) {
    && ps != []
    && (forall k | 0 <= k < |ps| :: ps[k].fence == inside && ps[k].sep == (if k == 0 then sep else ""))
    && (forall k | 0 <= k < |ps| - 1 :: |ps[k].text| == width)
    && |ps[|ps| - 1].text| <= width && (ps[|ps| - 1].text == "" ==> line == "")
    && Tail(ps, 0, |ps|) == sep + line
  }

  lemma {:induction false} SlicesExactly(line: string, width: nat, sep: string, inside: Option<Fence>)
    requires width > 0
    ensures Sliced(Slices(line, width, sep, inside), line, width, sep, inside)
    decreases |line|
  {
    SplitterLossless.SlicesJoin(line, width, sep, inside);
    if |line| > width {
      SlicesExactly(line[width..], width, "", inside);
    }
  }

  /** The pieces of a text, line by line: each line's slices have the code block that the lines
      before it end in. */
  lemma {:induction false} PiecesOfLine(lines: seq<string>, width: nat, fence: Option<Fence>, i: nat)
    requires width > 0 && i < |lines|
    ensures PiecesFrom(lines, width, fence) ==
            PiecesFrom(lines[..i], width, fence)
            + Slices(lines[i], width, "\n", Scan(fence, lines[..i]))
            + PiecesFrom(lines[i + 1..], width, Scan(fence, lines[..i + 1]))
    decreases i
  {
    var first, next := Slices(lines[0], width, "\n", fence), NextFence(fence, lines[0]);
    if i == 0 {
      assert lines[..1][1..] == [] && lines[..0] == [];
    } else {
      PiecesOfLine(lines[1..], width, next, i - 1);
      assert lines[..i][1..] == lines[1..][..i - 1] && lines[..i + 1][1..] == lines[1..][..i];
      assert lines[1..][i - 1 + 1..] == lines[i + 1..];
      var a, b := PiecesFrom(lines[1..][..i - 1], width, next), Slices(lines[i], width, "\n", Scan(fence, lines[..i]));
      var c := PiecesFrom(lines[i + 1..], width, Scan(fence, lines[..i + 1]));
      Assoc(first, a, b);
      Assoc(first, a + b, c);
    }
  }

  // ---- a message ----

  /** The text a cutout's message starts with: the opener line, if it starts in a code block, and the
      slice. */
  function Opened(c: Cutout): string {
    if c.opener.Some? then c.opener.value.opener + "\n" + c.body else c.body
  }

  /** A message is that text: with the closing marker on a line of its own if it is cut in a code
      block, and otherwise without the whitespace at its end. */
  ghost predicate IsMessage(message: string, c: Cutout) {
    if c.closer.Some? then message == Opened(c) + "\n" + c.closer.value.marker
    else
      && message <= Opened(c) && AllSpace(Opened(c)[|message|..])
      && (message != "" ==> !IsSpace(message[|message| - 1]))
  }

  lemma DressExactly(c: Cutout)
    ensures IsMessage(Dress(c), c)
  {
    RStripSplits(Opened(c));
  }

  /** The sizes the cuts are judged by are those of the text so far, and of the message. */
  lemma SizesExactly(ps: seq<Piece>, a: nat, e: nat)
    requires a < e <= |ps|
    ensures var c := CutoutAt(ps, a, e);
            && Size(ps, a, e) == |Opened(c)|
            && Total(ps, a, e) == |Opened(c)| + (if c.closer.Some? then 1 + |c.closer.value.marker| else 0)
  {
  }

  // ---- all messages ----

  /** A run of pieces. */
  datatype Span = Span(start: nat, end: nat)

  /** The piece is outside code blocks and shows nothing. */
  ghost predicate ShowsNothing(p: Piece) {
    p.fence.None? && AllSpace(p.text)
  }

  /** `next` is the first piece from `e` on that shows something or is in a code block. */
  ghost predicate NextStart(ps: seq<Piece>, e: nat, next: nat) {
    && e <= next <= |ps|
    && (forall k | e <= k < next :: ShowsNothing(ps[k]))
    && (next < |ps| ==> !ShowsNothing(ps[next]))
  }

  /** The runs are cut one after the other, each where `IsCut` says, from piece `a` on. */
  ghost predicate AreCut(ps: seq<Piece>, a: nat, limit: int, spans: seq<Span>)
    decreases |spans|
  {
    if spans == [] then a == |ps|
    else
      var s := spans[0];
      && s.start == a < s.end <= |ps| && IsCut(ps, a, limit, s.end)
      && exists next: nat :: NextStart(ps, s.end, next) && AreCut(ps, next, limit, spans[1..])
  }

  ghost predicate InPieces(ps: seq<Piece>, spans: seq<Span>) {
    forall k | 0 <= k < |spans| :: spans[k].start < spans[k].end <= |ps|
  }

  /** The messages of some runs, but for those that show nothing. */
  ghost predicate Messages(ps: seq<Piece>, spans: seq<Span>, parts: seq<string>)
    requires InPieces(ps, spans)
    decreases |spans|
  {
    if spans == [] then parts == []
    else
      exists message ::
        && IsMessage(message, CutoutAt(ps, spans[0].start, spans[0].end))
        && if AllSpace(message) then Messages(ps, spans[1..], parts)
           else parts != [] && parts[0] == message && Messages(ps, spans[1..], parts[1..])
  }

  lemma SkipsExactly(ps: seq<Piece>, e: nat)
    requires e <= |ps|
    ensures NextStart(ps, e, SkipBlank(ps, e))
  {
    forall k | 0 <= k < |ps| ensures Blank(ps[k]) <==> ShowsNothing(ps[k]) {
      AllSpaceStrips(ps[k].text);
    }
  }

  lemma {:induction false} CutoutsExactly(ps: seq<Piece>, a: nat, limit: int) returns (spans: seq<Span>)
    requires a <= |ps|
    ensures AreCut(ps, a, limit, spans) && InPieces(ps, spans)
    ensures Messages(ps, spans, DressAll(Cutouts(ps, a, limit)))
    decreases |ps| - a
  {
    if a == |ps| {
      spans := [];
    } else {
      var e := Cut(ps, a, limit);
      SkipsExactly(ps, e);
      var rest := CutoutsExactly(ps, SkipBlank(ps, e), limit);
      spans := [Span(a, e)] + rest;
      CutoutsStep(ps, a, limit);
      OneSpan(ps, a, limit, e, rest);
      OneMessage(ps, spans, DressAll(Cutouts(ps, SkipBlank(ps, e), limit)));
    }
  }

  lemma OneSpan(ps: seq<Piece>, a: nat, limit: int, e: nat, rest: seq<Span>)
    requires a < e <= |ps| && IsCut(ps, a, limit, e) && InPieces(ps, rest)
    requires NextStart(ps, e, SkipBlank(ps, e)) && AreCut(ps, SkipBlank(ps, e), limit, rest)
    ensures AreCut(ps, a, limit, [Span(a, e)] + rest) && InPieces(ps, [Span(a, e)] + rest)
  {
    assert ([Span(a, e)] + rest)[1..] == rest;
  }

  lemma OneMessage(ps: seq<Piece>, spans: seq<Span>, rest: seq<string>)
    requires spans != [] && InPieces(ps, spans) && InPieces(ps, spans[1..]) && Messages(ps, spans[1..], rest)
    ensures var d := Dress(CutoutAt(ps, spans[0].start, spans[0].end));
            Messages(ps, spans, (if Strip(d) != "" then [d] else []) + rest)
  {
    var c := CutoutAt(ps, spans[0].start, spans[0].end);
    var d := Dress(c);
    DressExactly(c);
    AllSpaceStrips(d);
    assert IsMessage(d, c);
    if Strip(d) != "" {
      assert ([d] + rest)[1..] == rest;
    } else {
      assert [] + rest == rest;
    }
  }

  /** What `split_message` gives for a text that shows something: the messages of runs of its pieces,
      slices of at most half a message, each run cut where it is to be and the next one starting at
      the first piece after it that shows something. */
  lemma SplitExactly(text: string, limit: int) returns (spans: seq<Span>)
    requires Strip(text) != ""
    ensures var ps := Pieces(Strip(text), Max(1, limit / 2));
            AreCut(ps, 0, limit, spans) && InPieces(ps, spans) && Messages(ps, spans, Split(text, limit))
  {
    spans := CutoutsExactly(Pieces(Strip(text), Max(1, limit / 2)), 0, limit);
  }
}
