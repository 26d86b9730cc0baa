/** Splitting loses nothing: the messages carry, in order, slices of the text, and everything
    between two slices is whitespace. */
module SplitterLossless {
  import opened Wrappers
  import opened Text
  import opened Splitter

  function Bodies(cs: seq<Cutout>): (bodies: seq<string>)
    ensures |bodies| == |cs|
    ensures forall k | 0 <= k < |cs| :: bodies[k] == cs[k].body
  {
    if cs == [] then [] else [cs[0].body] + Bodies(cs[1..])
  }

  /** `t` is the bodies in this order, with nothing but whitespace before, between and after
      them. */
  ghost predicate Covers(t: string, bodies: seq<string>)
    decreases |bodies|
  {
    if bodies == [] then AllSpace(t)
    else exists i: nat, j: nat | i <= j <= |t| ::
           AllSpace(t[..i]) && t[i..j] == bodies[0] && Covers(t[j..], bodies[1..])
  }

  lemma CoversGap(gap: string, t: string, bodies: seq<string>)
    requires AllSpace(gap) && Covers(t, bodies)
    ensures Covers(gap + t, bodies)
  {
    if bodies != [] {
      var i: nat, j: nat :| i <= j <= |t| &&
                            AllSpace(t[..i]) && t[i..j] == bodies[0] && Covers(t[j..], bodies[1..]);
      BehindGap(gap, t, i, j);
      assert AllSpace(gap + t[..i]);
    }
  }

  lemma BehindGap(gap: string, t: string, i: nat, j: nat)
    requires i <= j <= |t|
    ensures var u, g := gap + t, |gap|;
            u[..g + i] == gap + t[..i] && u[g + i..g + j] == t[i..j] && u[g + j..] == t[j..]
  {
    var u, g := gap + t, |gap|;
    assert u[g..] == t;
    assert u[g + i..g + j] == u[g..][i..j];
  }

  lemma CoversNext(body: string, t: string, bodies: seq<string>)
    requires bodies != [] && bodies[0] == body && Covers(t, bodies[1..])
    ensures Covers(body + t, bodies)
  {
    var u := body + t;
    assert u[..0] == "" && u[0..|body|] == body && u[|body|..] == t;
  }

  lemma {:induction false} CoversNonSpace(t: string, bodies: seq<string>)
    requires Covers(t, bodies)
    ensures NonSpace(Flatten(bodies)) == NonSpace(t)
    decreases |bodies|
  {
    if bodies == [] {
      NonSpaceOfSpace(t);
    } else {
      var i: nat, j: nat :| i <= j <= |t| &&
                            AllSpace(t[..i]) && t[i..j] == bodies[0] && Covers(t[j..], bodies[1..]);
      CoversNonSpace(t[j..], bodies[1..]);
      NonSpaceAfterGap(t, i, j);
      NonSpaceConcat(bodies[0], Flatten(bodies[1..]));
    }
  }

  // ---- the pieces are the text ----

  lemma {:induction false} TailSplits(ps: seq<Piece>, i: nat, m: nat, e: nat)
    requires i <= m <= e <= |ps|
    ensures Tail(ps, i, e) == Tail(ps, i, m) + Tail(ps, m, e)
  {
    if m < e {
      TailSplits(ps, i, m, e - 1);
    }
  }

  lemma {:induction false} TailShift(a: seq<Piece>, b: seq<Piece>, i: nat, e: nat)
    requires i <= e <= |b|
    ensures Tail(a + b, |a| + i, |a| + e) == Tail(b, i, e)
  {
    if i < e {
      TailShift(a, b, i, e - 1);
    }
  }

  lemma {:induction false} TailPrefix(a: seq<Piece>, b: seq<Piece>, e: nat)
    requires e <= |a|
    ensures Tail(a + b, 0, e) == Tail(a, 0, e)
  {
    if 0 < e {
      TailPrefix(a, b, e - 1);
    }
  }

  lemma TailConcat(a: seq<Piece>, b: seq<Piece>)
    ensures Tail(a + b, 0, |a + b|) == Tail(a, 0, |a|) + Tail(b, 0, |b|)
  {
    TailSplits(a + b, 0, |a|, |a + b|);
    TailPrefix(a, b, |a|);
    TailShift(a, b, 0, |b|);
  }

  lemma {:induction false} SlicesJoin(line: string, width: nat, sep: string, inside: Option<Fence>)
    requires width > 0
    ensures var ps := Slices(line, width, sep, inside); Tail(ps, 0, |ps|) == sep + line
    decreases |line|
  {
    var ps := Slices(line, width, sep, inside);
    if |line| <= width {
      assert Tail(ps, 0, 1) == Tail(ps, 0, 0) + sep + line;
    } else {
      var first := [Piece(line[..width], sep, inside)];
      var rest := Slices(line[width..], width, "", inside);
      SlicesJoin(line[width..], width, "", inside);
      TailConcat(first, rest);
      assert Tail(first, 0, 1) == Tail(first, 0, 0) + sep + line[..width];
      assert line == line[..width] + line[width..];
    }
  }

  lemma {:induction false} PiecesJoin(lines: seq<string>, width: nat, fence: Option<Fence>)
    requires width > 0 && lines != []
    ensures var ps := PiecesFrom(lines, width, fence); Tail(ps, 0, |ps|) == "\n" + JoinLines(lines)
    decreases |lines|
  {
    var first := Slices(lines[0], width, "\n", fence);
    var rest := PiecesFrom(lines[1..], width, NextFence(fence, lines[0]));
    SlicesJoin(lines[0], width, "\n", fence);
    TailConcat(first, rest);
    if |lines| == 1 {
      assert rest == [];
    } else {
      PiecesJoin(lines[1..], width, NextFence(fence, lines[0]));
      Assoc("\n", lines[0], "\n" + JoinLines(lines[1..]));
      Assoc(lines[0], "\n", JoinLines(lines[1..]));
    }
  }

  ghost predicate SpaceSeps(ps: seq<Piece>) {
    forall i | 0 <= i < |ps| :: AllSpace(ps[i].sep)
  }

  lemma {:induction false} SlicesSeps(line: string, width: nat, sep: string, inside: Option<Fence>)
    requires width > 0 && AllSpace(sep)
    ensures SpaceSeps(Slices(line, width, sep, inside))
    ensures Slices(line, width, sep, inside) != []
    ensures Slices(line, width, sep, inside)[0].sep == sep
    decreases |line|
  {
    if |line| > width {
      SlicesSeps(line[width..], width, "", inside);
    }
  }

  lemma {:induction false} PiecesSeps(lines: seq<string>, width: nat, fence: Option<Fence>)
    requires width > 0
    ensures SpaceSeps(PiecesFrom(lines, width, fence))
    ensures lines != [] ==> PiecesFrom(lines, width, fence) != [] && PiecesFrom(lines, width, fence)[0].sep == "\n"
    decreases |lines|
  {
    if lines != [] {
      assert AllSpace("\n");
      SlicesSeps(lines[0], width, "\n", fence);
      PiecesSeps(lines[1..], width, NextFence(fence, lines[0]));
    }
  }

  /** The pieces of a text, joined by their separators, are the text. */
  lemma PiecesAreText(text: string, width: nat)
    requires width > 0
    ensures var ps := Pieces(text, width);
            SpaceSeps(ps) && ps != [] && Body(ps, 0, |ps|) == text
  {
    var ps := Pieces(text, width);
    PiecesSeps(Lines(text), width, None);
    PiecesJoin(Lines(text), width, None);
    JoinOfLines(text);
    TailFrom(ps, 0);
    DropNewline(Body(ps, 0, |ps|), text);
  }

  lemma TailOne(ps: seq<Piece>, s: nat)
    requires s < |ps|
    ensures Tail(ps, s, s + 1) == ps[s].sep + ps[s].text
  {
    NoLeft(ps[s].sep);
    assert Tail(ps, s, s) == "";
  }

  lemma DropNewline(a: string, b: string)
    requires "\n" + a == "\n" + b
    ensures a == b
  {
    assert ("\n" + a)[1..] == a && ("\n" + b)[1..] == b;
  }

  /** Pieces `s` and after: the separator before them, then what they say. */
  lemma TailFrom(ps: seq<Piece>, s: nat)
    requires s < |ps|
    ensures Tail(ps, s, |ps|) == ps[s].sep + Body(ps, s, |ps|)
  {
    TailSplits(ps, s, s + 1, |ps|);
    TailOne(ps, s);
    Assoc(ps[s].sep, ps[s].text, Tail(ps, s + 1, |ps|));
  }

  // ---- the messages are the pieces ----

  lemma {:induction false} StripBlank(s: string)
    requires Strip(s) == ""
    ensures AllSpace(s)
  {
    var l := LStrip(s);
    RStripSplits(l);
    assert l == l[|RStrip(l)|..];
    if l != "" {
      LStripStops(s);
    } else {
      LStripSplits(s);
    }
  }

  lemma {:induction false} LStripStops(s: string)
    ensures LStrip(s) != "" ==> !IsSpace(LStrip(s)[0])
  {
    if s != "" && IsSpace(s[0]) {
      LStripStops(s[1..]);
    }
  }

  lemma {:induction false} LStripSplits(s: string)
    ensures |LStrip(s)| <= |s| && s[|s| - |LStrip(s)|..] == LStrip(s)
    ensures AllSpace(s[..|s| - |LStrip(s)|])
  {
    if s != "" && IsSpace(s[0]) {
      LStripSplits(s[1..]);
      var n := |s| - |LStrip(s)|;
      assert s[..n] == [s[0]] + s[1..][..n - 1];
      assert s[n..] == s[1..][n - 1..];
    }
  }

  /** What is visible of the message is the opener line that reopens its code block, if it starts in
      one, the slice, and the marker that closes the block it is cut in, if it is. */
  predicate Says(message: string, c: Cutout) {
    NonSpace(message) ==
    (if c.opener.Some? then NonSpace(c.opener.value.opener) else "")
    + NonSpace(c.body)
    + (if c.closer.Some? then NonSpace(c.closer.value.marker) else "")
  }

  /** Mending adds the fence lines and takes off trailing whitespace; what is left is the slice. */
  lemma DressKeeps(c: Cutout)
    ensures Says(Dress(c), c)
  {
    var body := if c.opener.Some? then c.opener.value.opener + "\n" + c.body else c.body;
    if c.opener.Some? {
      NonSpaceLines(c.opener.value.opener, c.body);
    }
    if c.closer.Some? {
      NonSpaceLines(body, c.closer.value.marker);
    } else {
      NonSpaceRStrip(body);
    }
  }

  lemma NonSpaceLines(a: string, b: string)
    ensures NonSpace(a + "\n" + b) == NonSpace(a) + NonSpace(b)
  {
    NonSpaceConcat(a + "\n", b);
    NonSpaceConcat(a, "\n");
    NonSpaceOfSpace("\n");
  }

  lemma {:induction false} NoNonSpace(s: string)
    requires NonSpace(s) == ""
    ensures AllSpace(s)
  {
    if s != "" {
      NoNonSpace(s[1..]);
    }
  }

  /** A message is left out only if it is whitespace. */
  lemma DroppedIsBlank(c: Cutout)
    requires Strip(Dress(c)) == ""
    ensures AllSpace(c.body)
  {
    StripBlank(Dress(c));
    NonSpaceOfSpace(Dress(c));
    DressKeeps(c);
    NoNonSpace(c.body);
  }

  lemma {:induction false} BlankTail(ps: seq<Piece>, i: nat, e: nat)
    requires i <= e <= |ps| && SpaceSeps(ps)
    requires forall k | i <= k < e :: Blank(ps[k])
    ensures AllSpace(Tail(ps, i, e))
  {
    if i < e {
      BlankTail(ps, i, e - 1);
      StripBlank(ps[e - 1].text);
    }
  }

  /** What follows a cut: the blank pieces, then the next message's text. */
  lemma AfterCut(ps: seq<Piece>, e: nat)
    requires e < |ps| && SpaceSeps(ps)
    ensures var s := SkipBlank(ps, e);
            var gap := Tail(ps, e, s) + (if s < |ps| then ps[s].sep else "");
            && AllSpace(gap)
            && Tail(ps, e, |ps|) == gap + (if s < |ps| then Body(ps, s, |ps|) else "")
  {
    var s := SkipBlank(ps, e);
    BlankTail(ps, e, s);
    TailSplits(ps, e, s, |ps|);
    if s < |ps| {
      TailFrom(ps, s);
      Assoc(Tail(ps, e, s), ps[s].sep, Body(ps, s, |ps|));
    }
  }

  lemma BodiesStep(ps: seq<Piece>, a: nat, limit: int)
    requires a < |ps|
    ensures var e := Cut(ps, a, limit);
            var c := CutoutAt(ps, a, e);
            Bodies(Cutouts(ps, a, limit)) ==
            (if Strip(Dress(c)) != "" then [c.body] else []) + Bodies(Cutouts(ps, SkipBlank(ps, e), limit))
  {
    var c := CutoutAt(ps, a, Cut(ps, a, limit));
    var rest := Cutouts(ps, SkipBlank(ps, Cut(ps, a, limit)), limit);
    assert ([c] + rest)[1..] == rest;
    assert [] + rest == rest;
  }

  lemma CoversBody(c: Cutout, tail: string, rest: seq<string>)
    requires Covers(tail, rest)
    ensures Covers(c.body + tail, (if Strip(Dress(c)) != "" then [c.body] else []) + rest)
  {
    if Strip(Dress(c)) != "" {
      assert ([c.body] + rest)[1..] == rest;
      CoversNext(c.body, tail, [c.body] + rest);
    } else {
      DroppedIsBlank(c);
      CoversGap(c.body, tail, rest);
      assert [] + rest == rest;
    }
  }

  lemma {:induction false} CutoutsCover(ps: seq<Piece>, a: nat, limit: int)
    requires a < |ps| && SpaceSeps(ps)
    ensures Covers(Body(ps, a, |ps|), Bodies(Cutouts(ps, a, limit)))
    decreases |ps| - a, 1
  {
    var e := Cut(ps, a, limit);
    TailSplits(ps, a + 1, e, |ps|);
    Assoc(ps[a].text, Tail(ps, a + 1, e), Tail(ps, e, |ps|));
    CutoutsCoverTail(ps, e, limit);
    CoversBody(CutoutAt(ps, a, e), Tail(ps, e, |ps|), Bodies(Cutouts(ps, SkipBlank(ps, e), limit)));
    BodiesStep(ps, a, limit);
  }

  lemma {:induction false} CutoutsCoverTail(ps: seq<Piece>, e: nat, limit: int)
    requires e <= |ps| && SpaceSeps(ps)
    ensures Covers(Tail(ps, e, |ps|), Bodies(Cutouts(ps, SkipBlank(ps, e), limit)))
    decreases |ps| - e, 2
  {
    if e < |ps| {
      AfterCut(ps, e);
      var s := SkipBlank(ps, e);
      if s < |ps| {
        CutoutsCover(ps, s, limit);
        CoversGap(Tail(ps, e, s) + ps[s].sep, Body(ps, s, |ps|), Bodies(Cutouts(ps, s, limit)));
      }
    }
  }

  /** Nothing is lost: each message says one slice of the text between its mending lines, and the
      slices make up the text but for whitespace at the cuts, so their non-whitespace characters are
      the text's, in order, each once. */
  lemma SplitLosesNothing(text: string, limit: int)
    ensures var bodies := Bodies(TextCutouts(text, limit));
            && |Split(text, limit)| == |bodies|
            && (forall k | 0 <= k < |bodies| :: Says(Split(text, limit)[k], TextCutouts(text, limit)[k]))
            && Covers(Strip(text), bodies)
            && NonSpace(Flatten(bodies)) == NonSpace(text)
  {
    var t := Strip(text);
    if t != "" {
      var ps := Pieces(t, Max(1, limit / 2));
      PiecesAreText(t, Max(1, limit / 2));
      CutoutsCover(ps, 0, limit);
    }
    CoversNonSpace(t, Bodies(TextCutouts(text, limit)));
    NonSpaceStrip(text);
    MessagesSay(TextCutouts(text, limit));
  }

  lemma MessagesSay(cs: seq<Cutout>)
    ensures forall k | 0 <= k < |cs| :: Says(DressAll(cs)[k], cs[k])
  {
    forall k | 0 <= k < |cs| ensures Says(DressAll(cs)[k], cs[k]) {
      DressKeeps(cs[k]);
    }
  }
}
