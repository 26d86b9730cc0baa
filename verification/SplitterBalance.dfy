/** Code blocks across messages. When no line is cut, every message but the last leaves no code
    block open, and the block it was cut in is reopened by the next one. */
module SplitterBalance {
  import opened Wrappers
  import opened Text
  import opened Splitter
  import opened SplitterBounds
  import SplitterTight
  import SplitterLossless

  /** The code block a reader of `text` alone ends in. */
  function Rescan(text: string): Option<Fence> {
    Scan(None, Lines(text))
  }

  ghost predicate ShortLines(lines: seq<string>, width: nat) {
    forall k | 0 <= k < |lines| :: |lines[k]| <= width
  }

  ghost predicate NoNewlines(lines: seq<string>) {
    forall k | 0 <= k < |lines| :: '\n' !in lines[k]
  }

  /** Every piece is a whole line. */
  ghost predicate WholeLines(ps: seq<Piece>, lines: seq<string>, fence: Option<Fence>) {
    && |ps| == |lines|
    && forall k | 0 <= k < |ps| :: ps[k] == Piece(lines[k], "\n", Scan(fence, lines[..k]))
  }

  lemma {:induction false} PiecesAreLines(lines: seq<string>, width: nat, fence: Option<Fence>)
    requires width > 0 && ShortLines(lines, width)
    ensures WholeLines(PiecesFrom(lines, width, fence), lines, fence)
    decreases |lines|
  {
    if lines != [] {
      var next := NextFence(fence, lines[0]);
      PiecesAreLines(lines[1..], width, next);
      var ps := PiecesFrom(lines, width, fence);
      assert Slices(lines[0], width, "\n", fence) == [Piece(lines[0], "\n", fence)];
      forall k | 0 < k < |ps| ensures ps[k] == Piece(lines[k], "\n", Scan(fence, lines[..k])) {
        assert lines[..k][1..] == lines[1..][..k - 1];
        assert ps[k] == PiecesFrom(lines[1..], width, next)[k - 1];
      }
    }
  }

  lemma {:induction false} BodyIsLines(ps: seq<Piece>, lines: seq<string>, fence: Option<Fence>, a: nat, e: nat)
    requires WholeLines(ps, lines, fence) && a < e <= |ps|
    ensures Body(ps, a, e) == JoinLines(lines[a..e])
  {
    if e == a + 1 {
      assert lines[a..e] == [lines[a]];
      assert Tail(ps, a + 1, e) == "";
    } else {
      BodyIsLines(ps, lines, fence, a, e - 1);
      JoinLinesConcat(lines[a..e - 1], [lines[e - 1]]);
      assert lines[a..e - 1] + [lines[e - 1]] == lines[a..e];
      Assoc(ps[a].text, Tail(ps, a + 1, e - 1), "\n");
      Assoc(ps[a].text, Tail(ps, a + 1, e - 1) + "\n", lines[e - 1]);
    }
  }

  // ---- fences ----

  /** Whatever block a text is in was opened by one of its lines. */
  lemma {:induction false} ScanOpens(fence: Option<Fence>, lines: seq<string>)
    requires NoNewlines(lines)
    requires fence.Some? ==> SplitterTight.Opens(fence.value)
    ensures var f := Scan(fence, lines); f.Some? ==> SplitterTight.Opens(f.value)
    decreases |lines|
  {
    if lines != [] {
      ScanOpens(NextFence(fence, lines[0]), lines[1..]);
    }
  }

  lemma {:induction false} RunOfSame(s: string, c: char)
    requires forall i | 0 <= i < |s| :: s[i] == c
    ensures RunLength(s, c) == |s|
  {
    if s != "" {
      RunOfSame(s[1..], c);
    }
  }

  /** The bare marker closes the block. */
  lemma MarkerCloses(f: Fence)
    requires SplitterTight.Opens(f)
    ensures NextFence(Some(f), f.marker).None? && '\n' !in f.marker
  {
    SplitterTight.MarkerShape(f.opener);
    var c := f.marker[0];
    assert LStrip(f.marker) == f.marker;
    RunOfSame(f.marker, c);
    var n := |f.marker|;
    assert f.marker[..n] == f.marker && f.marker[n..] == "";
    assert FenceMatch(f.marker) == Some(FenceLine(f.marker, ""));
    assert Strip("") == "";
  }

  lemma {:induction false} AllSpaceStrips(s: string)
    ensures Strip(s) == "" <==> AllSpace(s)
  {
    if Strip(s) == "" {
      SplitterLossless.StripBlank(s);
    }
    if AllSpace(s) {
      SpaceLStrips(s);
    }
  }

  lemma {:induction false} SpaceLStrips(s: string)
    requires AllSpace(s)
    ensures LStrip(s) == ""
  {
    if s != "" {
      SpaceLStrips(s[1..]);
    }
  }

  lemma {:induction false} LStripSnoc(s: string, c: char)
    requires IsSpace(c)
    ensures LStrip(s + [c]) == if LStrip(s) == "" then "" else LStrip(s) + [c]
  {
    if s == "" {
      assert s + [c] == [c];
      assert LStrip([c][1..]) == "";
    } else {
      assert (s + [c])[1..] == s[1..] + [c];
      LStripSnoc(s[1..], c);
    }
  }

  lemma {:induction false} RunSnoc(s: string, c: char, space: char)
    requires c != space
    ensures RunLength(s + [space], c) == RunLength(s, c)
  {
    if s != "" {
      assert (s + [space])[1..] == s[1..] + [space];
      RunSnoc(s[1..], c, space);
    }
  }

  /** Whitespace at the end of a line makes it no more and no less a fence. */
  lemma FenceMatchSnoc(line: string, c: char)
    requires IsSpace(c)
    ensures var m, n := FenceMatch(line), FenceMatch(line + [c]);
            if m.Some? then n == Some(FenceLine(m.value.marker, m.value.info + [c])) else n.None?
  {
    LStripSnoc(line, c);
    var rest := LStrip(line);
    if rest != "" {
      assert IsSpace(c) ==> c != '`' && c != '~';
      if rest[0] == '`' || rest[0] == '~' {
        RunSnoc(rest, rest[0], c);
        var n := RunLength(rest, rest[0]);
        assert (rest + [c])[..n] == rest[..n];
        assert (rest + [c])[n..] == rest[n..] + [c];
      }
    }
  }

  lemma NextFenceSnoc(fence: Option<Fence>, line: string, c: char)
    requires IsSpace(c)
    ensures NextFence(fence, line + [c]).None? <==> NextFence(fence, line).None?
  {
    FenceMatchSnoc(line, c);
    var m := FenceMatch(line);
    if m.Some? {
      var info := m.value.info + [c];
      AllSpaceStrips(m.value.info);
      AllSpaceStrips(info);
      assert info[|m.value.info|] == c && c != '`';
      assert AllSpace(info) <==> AllSpace(m.value.info) by {
        assert info[..|m.value.info|] == m.value.info;
      }
      assert '`' in info <==> '`' in m.value.info;
    }
  }

  lemma ScanLast(fence: Option<Fence>, lines: seq<string>)
    requires lines != []
    ensures var n := |lines| - 1;
            Scan(fence, lines) == NextFence(Scan(fence, lines[..n]), lines[n])
  {
    var n := |lines| - 1;
    ScanConcat(fence, lines[..n], [lines[n]]);
    assert lines[..n] + [lines[n]] == lines;
    assert [lines[n]][1..] == [];
  }

  lemma RescanSnoc(s: string, c: char)
    requires IsSpace(c)
    ensures Rescan(s + [c]).None? <==> Rescan(s).None?
  {
    if c == '\n' {
      LinesConcat(s, "");
      assert s + "\n" + "" == s + [c];
      ScanLast(None, Lines(s) + [""]);
      assert (Lines(s) + [""])[..|Lines(s)|] == Lines(s);
      assert FenceMatch("").None?;
    } else {
      LinesAppend(s, [c]);
      var ls := Lines(s);
      var n := |ls| - 1;
      ScanLast(None, ls);
      var ms := ls[..n] + [ls[n] + [c]];
      ScanLast(None, ms);
      assert ms[..n] == ls[..n];
      NextFenceSnoc(Scan(None, ls[..n]), ls[n], c);
    }
  }

  /** Taking whitespace off the end of a message opens and closes nothing. */
  lemma {:induction false} RescanRStrip(s: string)
    ensures Rescan(RStrip(s)).None? <==> Rescan(s).None?
  {
    if s != "" && IsSpace(s[|s| - 1]) {
      var t := s[..|s| - 1];
      RescanRStrip(t);
      RescanSnoc(t, s[|s| - 1]);
      assert t + [s[|s| - 1]] == s;
    }
  }

  /** The fence regex, said outright: at most three whitespace characters, a run of three or
      more of one fence character, and a rest that does not go on with it. */
  ghost predicate IsFenceLine(line: string, m: FenceLine) {
    && |m.marker| >= 3
    && (m.marker[0] == '`' || m.marker[0] == '~')
    && (forall i | 0 <= i < |m.marker| :: m.marker[i] == m.marker[0])
    && !SameStart(m.info, m.marker)
    && exists k | 0 <= k <= 3 && k <= |line| :: AllSpace(line[..k]) && line[k..] == m.marker + m.info
  }

  lemma {:induction false} LStripPast(s: string, k: nat)
    requires k < |s| && AllSpace(s[..k]) && !IsSpace(s[k])
    ensures LStrip(s) == s[k..]
  {
    if k > 0 {
      assert IsSpace(s[..k][0]);
      assert s[1..][..k - 1] == s[..k][1..];
      LStripPast(s[1..], k - 1);
      assert s[1..][k - 1..] == s[k..];
    }
  }

  lemma {:induction false} RunThenOther(run: string, rest: string, c: char)
    requires (forall i | 0 <= i < |run| :: run[i] == c) && (rest != "" ==> rest[0] != c)
    ensures RunLength(run + rest, c) == |run|
  {
    if run == "" {
      assert run + rest == rest;
    } else {
      assert (run + rest)[1..] == run[1..] + rest;
      RunThenOther(run[1..], rest, c);
    }
  }

  lemma FenceMatchExactly(line: string, m: FenceLine)
    ensures FenceMatch(line) == Some(m) <==> IsFenceLine(line, m)
  {
    if FenceMatch(line) == Some(m) {
      SplitterLossless.LStripSplits(line);
      SplitterTight.MarkerShape(line);
      var k := |line| - |LStrip(line)|;
      assert AllSpace(line[..k]) && line[k..] == m.marker + m.info;
    }
    if IsFenceLine(line, m) {
      var k :| 0 <= k <= 3 && k <= |line| && AllSpace(line[..k]) && line[k..] == m.marker + m.info;
      FenceLineMatches(line, m, k);
    }
  }

  lemma FenceLineMatches(line: string, m: FenceLine, k: nat)
    requires |m.marker| >= 3 && (m.marker[0] == '`' || m.marker[0] == '~') && !SameStart(m.info, m.marker)
    requires forall i | 0 <= i < |m.marker| :: m.marker[i] == m.marker[0]
    requires k <= 3 && k <= |line| && AllSpace(line[..k]) && line[k..] == m.marker + m.info
    ensures FenceMatch(line) == Some(m)
  {
    var c, rest := m.marker[0], m.marker + m.info;
    assert line[k] == line[k..][0] == c;
    LStripPast(line, k);
    RunThenOther(m.marker, m.info, c);
    assert rest[..|m.marker|] == m.marker && rest[|m.marker|..] == m.info;
  }

  // ---- messages ----

  /** A message's own text, before its end is mended, ends where the whole text is at the cut. */
  lemma OpenedScan(lines: seq<string>, a: nat, e: nat)
    requires NoNewlines(lines) && a < e <= |lines|
    ensures var f := Scan(None, lines[..a]);
            var body := JoinLines(lines[a..e]);
            Rescan(if f.Some? then f.value.opener + "\n" + body else body) == Scan(None, lines[..e])
  {
    var f := Scan(None, lines[..a]);
    var ls := lines[a..e];
    ScanConcat(None, lines[..a], ls);
    assert lines[..a] + ls == lines[..e];
    LinesOfJoin(ls);
    if f.Some? {
      ScanOpens(None, lines[..a]);
      LinesConcat(f.value.opener, JoinLines(ls));
      LinesOfLine(f.value.opener);
      assert ([f.value.opener] + ls)[1..] == ls;
    }
  }

  lemma MessageScan(ps: seq<Piece>, lines: seq<string>, a: nat, e: nat)
    requires WholeLines(ps, lines, None) && NoNewlines(lines) && a < e <= |ps|
    ensures var r := Rescan(Dress(CutoutAt(ps, a, e)));
            if e < |ps| then r.None? else (r.None? <==> Scan(None, lines).None?)
  {
    var c := CutoutAt(ps, a, e);
    var f := Scan(None, lines[..a]);
    BodyIsLines(ps, lines, None, a, e);
    OpenedScan(lines, a, e);
    var body := if f.Some? then f.value.opener + "\n" + c.body else c.body;
    if c.closer.Some? {
      ScanOpens(None, lines[..e]);
      MarkerCloses(c.closer.value);
      LinesConcat(body, c.closer.value.marker);
      LinesOfLine(c.closer.value.marker);
      ScanConcat(None, Lines(body), [c.closer.value.marker]);
      assert [c.closer.value.marker][1..] == [];
    } else {
      RescanRStrip(body);
      if e == |ps| {
        assert lines[..e] == lines;
      }
    }
  }

  /** What the messages from piece `a` on keep: closed, the last as the whole text is. */
  ghost predicate Balanced(parts: seq<string>, whole: Option<Fence>) {
    && parts != []
    && (forall k | 0 <= k < |parts| - 1 :: Rescan(parts[k]).None?)
    && (Rescan(parts[|parts| - 1]).None? <==> whole.None?)
  }

  ghost predicate EndsVisibly(s: string) {
    s != "" && !IsSpace(s[|s| - 1])
  }

  lemma {:induction false} JoinEndsAs(lines: seq<string>)
    requires lines != [] && EndsVisibly(JoinLines(lines))
    ensures EndsVisibly(lines[|lines| - 1])
  {
    if |lines| > 1 {
      assert JoinLines(lines[1..]) != "";
      JoinEndsAs(lines[1..]);
    }
  }

  lemma VisibleKept(s: string)
    requires EndsVisibly(s)
    ensures Strip(s) != ""
  {
    AllSpaceStrips(s);
  }

  /** The message that ends the text is kept. */
  lemma FinalKept(ps: seq<Piece>, lines: seq<string>, a: nat)
    requires WholeLines(ps, lines, None) && a < |ps| && EndsVisibly(lines[|ps| - 1])
    ensures Strip(Dress(CutoutAt(ps, a, |ps|))) != ""
  {
    var c := CutoutAt(ps, a, |ps|);
    assert EndsVisibly(c.body) by {
      if a + 1 < |ps| {
        assert Tail(ps, a + 1, |ps|) == Tail(ps, a + 1, |ps| - 1) + "\n" + lines[|ps| - 1];
      }
    }
    var body := if c.opener.Some? then c.opener.value.opener + "\n" + c.body else c.body;
    assert EndsVisibly(body);
    RStripStable(body);
    VisibleKept(body);
  }

  lemma BalancedAfter(head: seq<string>, rest: seq<string>, whole: Option<Fence>)
    requires Balanced(rest, whole) && forall k | 0 <= k < |head| :: Rescan(head[k]).None?
    ensures Balanced(head + rest, whole)
  {
    var all := head + rest;
    forall k | 0 <= k < |all| - 1 ensures Rescan(all[k]).None? {
      if k >= |head| {
        assert all[k] == rest[k - |head|];
      }
    }
  }

  lemma {:induction false} MessagesBalanced(ps: seq<Piece>, lines: seq<string>, a: nat, limit: int)
    requires WholeLines(ps, lines, None) && NoNewlines(lines)
    requires a < |ps| && EndsVisibly(lines[|ps| - 1])
    ensures Balanced(DressAll(Cutouts(ps, a, limit)), Scan(None, lines))
    decreases |ps| - a
  {
    var e := Cut(ps, a, limit);
    if e < |ps| {
      MoreToCome(ps, lines, e);
      MessagesBalanced(ps, lines, SkipBlank(ps, e), limit);
      FirstBalanced(ps, lines, a, limit);
    } else {
      LastBalanced(ps, lines, a, limit);
    }
  }

  lemma FirstBalanced(ps: seq<Piece>, lines: seq<string>, a: nat, limit: int)
    requires WholeLines(ps, lines, None) && NoNewlines(lines) && a < |ps| && Cut(ps, a, limit) < |ps|
    requires Balanced(DressAll(Cutouts(ps, SkipBlank(ps, Cut(ps, a, limit)), limit)), Scan(None, lines))
    ensures Balanced(DressAll(Cutouts(ps, a, limit)), Scan(None, lines))
  {
    var e := Cut(ps, a, limit);
    var d := Dress(CutoutAt(ps, a, e));
    CutoutsStep(ps, a, limit);
    MessageScan(ps, lines, a, e);
    BalancedAfter(if Strip(d) != "" then [d] else [], DressAll(Cutouts(ps, SkipBlank(ps, e), limit)), Scan(None, lines));
  }

  lemma LastBalanced(ps: seq<Piece>, lines: seq<string>, a: nat, limit: int)
    requires WholeLines(ps, lines, None) && NoNewlines(lines) && a < |ps| && Cut(ps, a, limit) == |ps|
    requires EndsVisibly(lines[|ps| - 1])
    ensures Balanced(DressAll(Cutouts(ps, a, limit)), Scan(None, lines))
  {
    var d := Dress(CutoutAt(ps, a, |ps|));
    CutoutsStep(ps, a, limit);
    MessageScan(ps, lines, a, |ps|);
    FinalKept(ps, lines, a);
    assert Cutouts(ps, |ps|, limit) == [] && [d] + [] == [d];
  }

  lemma MoreToCome(ps: seq<Piece>, lines: seq<string>, e: nat)
    requires WholeLines(ps, lines, None) && e < |ps| && EndsVisibly(lines[|ps| - 1])
    ensures SkipBlank(ps, e) < |ps|
  {
    VisibleKept(lines[|ps| - 1]);
    assert !Blank(ps[|ps| - 1]);
  }

  /** Each message opens the block the one before it was cut in. */
  ghost predicate Chained(cs: seq<Cutout>, first: Option<Fence>) {
    && (cs != [] ==> cs[0].opener == first)
    && forall k | 0 < k < |cs| :: cs[k].opener == cs[k - 1].closer
  }

  lemma {:induction false} BlankKeepsFence(ps: seq<Piece>, lines: seq<string>, i: nat, j: nat)
    requires WholeLines(ps, lines, None) && i <= j < |ps|
    requires forall k | i <= k < j :: Blank(ps[k])
    ensures ps[j].fence == ps[i].fence
  {
    if i < j {
      BlankKeepsFence(ps, lines, i, j - 1);
      ScanLast(None, lines[..j]);
      assert lines[..j][..j - 1] == lines[..j - 1];
      AllSpaceStrips(lines[j - 1]);
      BlankIsNoFence(lines[j - 1]);
    }
  }

  lemma {:induction false} BlankIsNoFence(line: string)
    requires AllSpace(line)
    ensures FenceMatch(line).None?
  {
    SplitterLossless.LStripStops(line);
    SplitterLossless.LStripSplits(line);
  }

  /** A message with a reopened block is kept. */
  lemma OpenerKept(c: Cutout)
    requires c.opener.Some? && SplitterTight.Opens(c.opener.value)
    ensures Strip(Dress(c)) != ""
  {
    var line := c.opener.value.opener;
    if AllSpace(line) {
      BlankIsNoFence(line);
    }
    if NonSpace(line) == "" {
      SplitterLossless.NoNonSpace(line);
    }
    SplitterLossless.DressKeeps(c);
    AllSpaceStrips(Dress(c));
    if AllSpace(Dress(c)) {
      NonSpaceOfSpace(Dress(c));
    }
  }

  lemma {:induction false} MessagesChained(ps: seq<Piece>, lines: seq<string>, a: nat, limit: int)
    requires WholeLines(ps, lines, None) && NoNewlines(lines) && a <= |ps|
    ensures Chained(Cutouts(ps, a, limit), FenceAt(ps, a))
    decreases |ps| - a
  {
    if a < |ps| {
      var e := Cut(ps, a, limit);
      var s := SkipBlank(ps, e);
      var c := CutoutAt(ps, a, e);
      var rest := Cutouts(ps, s, limit);
      MessagesChained(ps, lines, s, limit);
      if s < |ps| {
        BlankKeepsFence(ps, lines, e, s);
      }
      if Strip(Dress(c)) == "" {
        DroppedOutside(c, lines, a, e);
        assert [] + rest == rest;
      } else {
        var all := [c] + rest;
        assert forall k | 0 < k < |all| :: all[k] == rest[k - 1];
      }
    }
  }

  /** A message that is left out lies outside code blocks. */
  lemma DroppedOutside(c: Cutout, lines: seq<string>, a: nat, e: nat)
    requires Strip(Dress(c)) == "" && NoNewlines(lines) && a <= e <= |lines|
    requires c.opener == Scan(None, lines[..a])
    requires c.closer.Some? ==> c.closer == Scan(None, lines[..e])
    ensures c.opener.None? && c.closer.None?
  {
    ScanOpens(None, lines[..a]);
    if c.opener.Some? {
      OpenerKept(c);
    }
    if c.closer.Some? {
      ScanOpens(None, lines[..e]);
      SplitterTight.MarkerShape(c.closer.value.opener);
      SplitterTight.LastKept(c);
    }
  }

  /** Code blocks survive a cut: with no line cut, each message but the last is complete on its own,
      the last as complete as the text, and the block a message is cut in is the one the next
      message opens, with the same line. */
  lemma SplitBalanced(text: string, limit: int)
    requires ShortLines(Lines(Strip(text)), Max(1, limit / 2)) && Strip(text) != ""
    ensures Balanced(Split(text, limit), Rescan(Strip(text)))
    ensures Chained(TextCutouts(text, limit), None)
  {
    var t := Strip(text);
    var lines := Lines(t);
    var ps := Pieces(t, Max(1, limit / 2));
    PiecesAreLines(lines, Max(1, limit / 2), None);
    JoinOfLines(t);
    LastLineVisible(text);
    MessagesBalanced(ps, lines, 0, limit);
    MessagesChained(ps, lines, 0, limit);
  }

  lemma LastLineVisible(text: string)
    requires Strip(text) != ""
    ensures var lines := Lines(Strip(text)); EndsVisibly(lines[|lines| - 1])
  {
    JoinOfLines(Strip(text));
    RStripSplits(LStrip(text));
    JoinEndsAs(Lines(Strip(text)));
  }

  // ---- exactly how long lines may be ----

  function Ticks(n: nat): string {
    seq(n, _ => '`')
  }

  /** An opener line one character longer than half a message, and a line of code of half a message. */
  function LongOpener(limit: nat): string {
    Ticks(limit / 2 + 1) + "\n" + SplitterTight.Xs(limit / 2)
  }

  lemma VisiblePieceKept(ps: seq<Piece>, a: nat, e: nat)
    requires a < e <= |ps| && ps[a].text != "" && !IsSpace(ps[a].text[0])
    requires ps[a].fence.None? && FenceAt(ps, e).None?
    ensures !Blank(ps[a]) && Strip(Dress(CutoutAt(ps, a, e))) != ""
  {
    AllSpaceStrips(ps[a].text);
    var c := CutoutAt(ps, a, e);
    assert !AllSpace(c.body) by { assert !IsSpace(c.body[0]); }
    if Strip(Dress(c)) == "" {
      SplitterLossless.DroppedIsBlank(c);
    }
  }

  lemma TicksOpen(n: nat)
    requires n >= 3
    ensures NextFence(None, Ticks(n)) == Some(Fence(Ticks(n), Ticks(n))) && Rescan(Ticks(n)).Some?
  {
    var t := Ticks(n);
    assert t[..0] == "" && t[0..] == t + "";
    FenceLineMatches(t, FenceLine(t, ""), 0);
    LinesOfLine(t);
    assert [t][1..] == [];
    assert Scan(None, [t]) == Scan(Some(Fence(t, t)), []);
  }

  lemma LongOpenerLines(limit: nat)
    requires limit >= 6
    ensures var t, h := LongOpener(limit), limit / 2;
            && Lines(t) == [Ticks(h + 1), SplitterTight.Xs(h)]
            && Strip(t) == t && t != "" && |t| == 2 * h + 2
  {
    var t, h := LongOpener(limit), limit / 2;
    LinesConcat(Ticks(h + 1), SplitterTight.Xs(h));
    LinesOfLine(Ticks(h + 1));
    LinesOfLine(SplitterTight.Xs(h));
    assert t[0] == '`' && t[|t| - 1] == SplitterTight.Xs(h)[h - 1];
    RStripStable(t);
  }

  /** The opener's two slices and the line of code. */
  function LongOpenerPieces(limit: nat): seq<Piece>
    requires limit >= 6
  {
    var h := limit / 2;
    [Piece(Ticks(h), "\n", None), Piece(Ticks(1), "", None),
     Piece(SplitterTight.Xs(h), "\n", Some(Fence(Ticks(h + 1), Ticks(h + 1))))]
  }

  lemma LongOpenerCut(limit: nat)
    requires limit >= 6
    ensures Pieces(LongOpener(limit), limit / 2) == LongOpenerPieces(limit)
  {
    var h := limit / 2;
    var a, x := Ticks(h + 1), SplitterTight.Xs(h);
    var f := Some(Fence(a, a));
    LongOpenerLines(limit);
    TicksOpen(h + 1);
    assert a[..h] == Ticks(h) && a[h..] == Ticks(1);
    assert Slices(a, h, "\n", None) == [Piece(Ticks(h), "\n", None)] + [Piece(Ticks(1), "", None)];
    assert Slices(x, h, "\n", f) == [Piece(x, "\n", f)];
    assert [a, x][1..] == [x] && [x][1..] == [];
    assert PiecesFrom([x], h, f) == [Piece(x, "\n", f)] + [];
  }

  /** The first message can only be cut inside the opener. */
  lemma FirstCutInOpener(limit: nat)
    requires limit >= 6
    ensures Cut(LongOpenerPieces(limit), 0, limit) == 1
  {
    var ps, h := LongOpenerPieces(limit), limit / 2;
    assert Tail(ps, 1, 1) == "" && Tail(ps, 1, 2) == "" + "" + Ticks(1) && |Tail(ps, 1, 3)| == 2 + h;
    assert Total(ps, 0, 1) == h && Total(ps, 0, 2) == 2 * h + 3 && Size(ps, 0, 3) == 2 * h + 2;
    assert Candidate(ps, 0, limit, 1);
  }

  lemma RestIsOneMessage(limit: nat)
    requires limit >= 6
    ensures var ps := LongOpenerPieces(limit);
            SkipBlank(ps, 1) == 1 && DressAll(Cutouts(ps, 1, limit)) != []
  {
    var ps := LongOpenerPieces(limit);
    assert Tail(ps, 2, 2) == "" && |Tail(ps, 2, 3)| == 1 + limit / 2;
    assert Size(ps, 1, 3) == 2 + limit / 2;
    VisiblePieceKept(ps, 1, 3);
    CutoutsStep(ps, 1, limit);
  }

  /** An opener line one character too long is cut where its beginning already opens a block: the
      first of several messages, read on its own, ends inside it. */
  lemma LongLineLeavesOpen(limit: nat)
    requires limit >= 6
    ensures var parts := Split(LongOpener(limit), limit);
            |parts| > 1 && Rescan(parts[0]).Some?
  {
    var ps, h := LongOpenerPieces(limit), limit / 2;
    LongOpenerLines(limit);
    LongOpenerCut(limit);
    FirstCutInOpener(limit);
    RestIsOneMessage(limit);
    CutoutsStep(ps, 0, limit);
    FirstIsTicks(limit);
    TicksOpen(h);
  }

  lemma FirstIsTicks(limit: nat)
    requires limit >= 6
    ensures var first := Dress(CutoutAt(LongOpenerPieces(limit), 0, 1));
            first == Ticks(limit / 2) && Strip(first) != ""
  {
    var ps, h := LongOpenerPieces(limit), limit / 2;
    assert Body(ps, 0, 1) == Ticks(h) + "" == Ticks(h);
    RStripStable(Ticks(h));
    VisiblePieceKept(ps, 0, 1);
  }

  lemma ShorterLines(lines: seq<string>, w: nat, v: nat)
    requires ShortLines(lines, w) && w <= v
    ensures ShortLines(lines, v)
  {
  }

  /** How long lines may be, exactly: every text with no line over `w` is split into balanced messages
      if and only if `w` is at most half the limit. */
  lemma BalancedExactly(limit: nat, w: nat)
    requires limit >= 6
    ensures (forall text | Strip(text) != "" && ShortLines(Lines(Strip(text)), w) ::
              Balanced(Split(text, limit), Rescan(Strip(text)))) <==> w <= limit / 2
  {
    if w <= limit / 2 {
      forall text | Strip(text) != "" && ShortLines(Lines(Strip(text)), w)
        ensures Balanced(Split(text, limit), Rescan(Strip(text)))
      {
        ShorterLines(Lines(Strip(text)), w, limit / 2);
        SplitBalanced(text, limit);
      }
    } else {
      var t := LongOpener(limit);
      LongOpenerLines(limit);
      LongLineLeavesOpen(limit);
      assert Strip(t) != "" && ShortLines(Lines(Strip(t)), w) && !Balanced(Split(t, limit), Rescan(Strip(t)));
    }
  }
}
