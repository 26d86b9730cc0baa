/** What GA prints, sorted: `GaPrintForwarder` of runner/ga_print_forward.py.

    Lines arrive in pieces; those that start with a forwarded prefix go to the target once their
    newline arrives. `Report` is the same rule on whole lines. Scrubbing is an unknown function
    on strings. */
module PrintForward {
  import opened Text

  const PREFIXES: seq<string> := ["Backend Error", "[LLM Retry]"]
  const MAX_FORWARDED := 1000
  const MAX_BUFFERED := 4000

  /** `line.startswith(FORWARDED_PREFIXES)`. */
  predicate IsForwarded(line: string) {
    PREFIXES[0] <= line || PREFIXES[1] <= line
  }

  /** `_may_be_forwarded`. */
  predicate MayBeForwarded(start: string) {
    IsForwarded(start) || start <= PREFIXES[0] || start <= PREFIXES[1]
  }

  function First(s: string, n: nat): string {
    if |s| < n then s else s[..n]
  }

  /** `line.rstrip("\r")`. */
  function StripReturns(s: string): string {
    if s != "" && s[|s| - 1] == '\r' then StripReturns(s[..|s| - 1]) else s
  }

  function CutLine(line: string): (cut: string)
    ensures |cut| <= MAX_FORWARDED
  {
    if |line| > MAX_FORWARDED then line[..MAX_FORWARDED - 1] + "…" else line
  }

  /** What the target gets for a complete line. */
  function Forwarded(scrub: string -> string, line: string): seq<string> {
    if IsForwarded(line) then [CutLine(scrub(StripReturns(First(line, MAX_BUFFERED)))) + "\n"] else []
  }

  function Report(scrub: string -> string, lines: seq<string>): seq<string> {
    if lines == [] then []
    else
      var n := |lines| - 1;
      Report(scrub, lines[..n]) + Forwarded(scrub, lines[n])
  }

  /** What is kept of a line whose newline is on the way. */
  predicate Buffers(line: string, kept: string, dropping: bool) {
    if MayBeForwarded(line) then kept == First(line, MAX_BUFFERED) && !dropping
    else kept == "" && dropping
  }

  /** A start that rules a line out keeps ruling it out. */
  lemma StaysOut(start: string, more: string)
    requires !MayBeForwarded(start)
    ensures !MayBeForwarded(start + more)
  {
    var t := start + more;
    assert t[..|start|] == start;
    forall p | p in PREFIXES ensures (p <= t || t <= p) ==> (p <= start || start <= p) {
      PrefixOfLonger(p, start, more);
    }
  }

  lemma PrefixOfLonger(p: string, start: string, more: string)
    ensures (p <= start + more || start + more <= p) ==> (p <= start || start <= p)
  {
    var t := start + more;
    assert t[..|start|] == start;
    if p <= t || t <= p {
      assert forall i | 0 <= i < |p| && i < |t| :: p[i] == t[i];
      assert forall i | 0 <= i < |start| :: t[i] == start[i];
    }
  }

  /** The prefixes are shorter than the buffer, so the buffer decides as the line would. */
  lemma BufferDecides(line: string)
    ensures IsForwarded(First(line, MAX_BUFFERED)) <==> IsForwarded(line)
    ensures MayBeForwarded(First(line, MAX_BUFFERED)) <==> MayBeForwarded(line)
  {
    var f := First(line, MAX_BUFFERED);
    if |line| > MAX_BUFFERED {
      forall p | p in PREFIXES ensures p <= f <==> p <= line {
        assert f[..|p|] == line[..|p|];
      }
    }
  }

  /** The line being written. */
  ghost function Current(written: string): string {
    var lines := Lines(written);
    lines[|lines| - 1]
  }

  ghost function Completed(written: string): seq<string> {
    var lines := Lines(written);
    lines[..|lines| - 1]
  }

  /** A newline completes the current line, of which the buffer says what it calls for. */
  lemma NewlineEnds(scrub: string -> string, written: string)
    ensures Current(written + "\n") == ""
    ensures var current := Current(written);
            && Report(scrub, Completed(written + "\n")) == Report(scrub, Completed(written)) + Forwarded(scrub, current)
            && (IsForwarded(First(current, MAX_BUFFERED)) <==> IsForwarded(current))
  {
    LinesConcat(written, "");
    assert written + "\n" + "" == written + "\n";
    var lines := Lines(written);
    var n := |lines| - 1;
    assert lines[..n] + [lines[n]] == lines;
    assert (lines + [""])[..n + 1] == lines;
    BufferDecides(lines[n]);
  }

  lemma PieceGoesOn(written: string, piece: string)
    requires '\n' !in piece
    ensures Current(written + piece) == Current(written) + piece && Completed(written + piece) == Completed(written)
  {
    LinesAppend(written, piece);
    var lines := Lines(written);
    var n := |lines| - 1;
    assert (lines[..n] + [lines[n] + piece])[..n] == lines[..n];
  }

  class GaPrintForwarder {
    const scrub: string -> string
    var line: string
    var dropping: bool
    var target: seq<string>
    ghost var written: string

    /** The target has what the complete lines of all that was written call for. */
    ghost predicate Valid()
      reads this
    {
      Buffers(Current(written), line, dropping) && target == Report(scrub, Completed(written))
    }

    constructor (scrub: string -> string)
      ensures Valid() && written == "" && target == [] && this.scrub == scrub
    {
      this.scrub := scrub;
      line, dropping, target, written := "", false, [], "";
    }

    /** `write`: the lines it completes, and the piece of a line it ends with. */
    method Write(text: string) returns (length: nat)
      requires Valid()
      modifies this
      ensures Valid() && written == old(written) + text && length == |text|
    {
      var pieces := Lines(text);
      JoinOfLines(text);
      var i := 0;
      ghost var before := written;
      while i < |pieces|
        invariant 0 <= i <= |pieces| && Valid() && written == Joined(before, pieces, i)
      {
        TakeNext(before, pieces, i);
        i := i + 1;
      }
      assert pieces[..i] == pieces;
      length := |text|;
    }

    /** The body of the loop of `write`. */
    method TakeNext(ghost before: string, pieces: seq<string>, i: nat)
      requires i < |pieces| && '\n' !in pieces[i]
      requires Valid() && written == Joined(before, pieces, i)
      modifies this
      ensures Valid() && written == Joined(before, pieces, i + 1)
    {
      if i > 0 {
        EndLine();
      }
      Take(pieces[i]);
      Gathered(before, pieces, i);
    }

    /** `_take`: more of the current line. */
    method Take(piece: string)
      requires Valid() && '\n' !in piece
      modifies this
      ensures Valid() && written == old(written) + piece && target == old(target)
    {
      ghost var current := Current(written);
      PieceGoesOn(written, piece);
      written := written + piece;
      if dropping || piece == "" {
        Unchanged(current, piece);
        return;
      }
      Longer(current, piece, line);
      if |line| < MAX_BUFFERED {
        line := line + First(piece, MAX_BUFFERED - |line|);
      }
      BufferDecides(current + piece);
      if !MayBeForwarded(line) {
        line, dropping := "", true;
      }
    }

    /** `_end_line`: the newline of the current line. */
    method EndLine()
      requires Valid()
      modifies this
      ensures Valid() && written == old(written) + "\n"
    {
      NewlineEnds(scrub, written);
      NotEmpty(Current(written));
      written := written + "\n";
      var ended := line;
      line, dropping := "", false;
      if !IsForwarded(ended) {
        return;
      }
      ended := scrub(StripReturns(ended));
      if |ended| > MAX_FORWARDED {
        ended := ended[..MAX_FORWARDED - 1] + "…";
      }
      target := target + [ended + "\n"];
    }
  }

  /** `before` and the first `i` pieces of what is being written. */
  ghost function Joined(before: string, pieces: seq<string>, i: nat): string
    requires i <= |pieces|
  {
    if i == 0 then before else before + JoinLines(pieces[..i])
  }

  lemma Gathered(before: string, pieces: seq<string>, i: nat)
    requires i < |pieces|
    ensures Joined(before, pieces, i + 1) ==
            (if i == 0 then before else Joined(before, pieces, i) + "\n") + pieces[i]
  {
    if i == 0 {
      assert pieces[..1] == [pieces[0]];
    } else {
      assert pieces[..i + 1] == pieces[..i] + [pieces[i]];
      JoinLinesConcat(pieces[..i], [pieces[i]]);
      Assoc(before, JoinLines(pieces[..i]), "\n");
      Assoc(before, JoinLines(pieces[..i]) + "\n", pieces[i]);
    }
  }

  /** A dropped line stays dropped, and an empty piece changes nothing. */
  lemma Unchanged(current: string, piece: string)
    requires !MayBeForwarded(current) || piece == ""
    ensures MayBeForwarded(current + piece) <==> MayBeForwarded(current)
    ensures piece == "" ==> current + piece == current
  {
    if !MayBeForwarded(current) {
      StaysOut(current, piece);
    }
  }

  lemma Longer(current: string, piece: string, kept: string)
    requires kept == First(current, MAX_BUFFERED)
    ensures First(current + piece, MAX_BUFFERED)
            == if |kept| < MAX_BUFFERED then kept + First(piece, MAX_BUFFERED - |kept|) else kept
  {
  }

  lemma NotEmpty(line: string)
    ensures IsForwarded(line) ==> line != "" && MayBeForwarded(line)
    ensures !IsForwarded("") && MayBeForwarded("")
  {
  }

  /** However the output is cut into writes, the target has the report of its complete lines. */
  method ForwardAll(scrub: string -> string, writes: seq<string>) returns (target: seq<string>)
    ensures var lines := Lines(Flatten(writes));
            target == Report(scrub, lines[..|lines| - 1])
  {
    var forwarder := new GaPrintForwarder(scrub);
    var k := 0;
    while k < |writes|
      invariant 0 <= k <= |writes| && forwarder.Valid()
      invariant forwarder.scrub == scrub && forwarder.written + Flatten(writes[k..]) == Flatten(writes)
    {
      assert writes[k..][1..] == writes[k + 1..];
      Assoc(forwarder.written, writes[k], Flatten(writes[k + 1..]));
      var _ := forwarder.Write(writes[k]);
      k := k + 1;
    }
    assert forwarder.written + "" == forwarder.written;
    target := forwarder.target;
  }

  // ---- what the target is given ----

  /** The line starts as one of the two kinds GA prints about a backend. */
  predicate IsReport(line: string) {
    "Backend Error" <= line || "[LLM Retry]" <= line
  }

  /** `start` is the line's first 4000 characters, without the carriage returns at their end. */
  ghost predicate IsStart(line: string, start: string) {
    var first := if |line| <= 4000 then line else line[..4000];
    && start <= first && (forall k | |start| <= k < |first| :: first[k] == '\r')
    && (start != "" ==> start[|start| - 1] != '\r')
  }

  /** What is written for a scrubbed line: all of it if it has at most 1000 characters, else the first
      999 and an ellipsis; and a newline. */
  function Entry(scrubbed: string): string {
    if |scrubbed| <= 1000 then scrubbed + "\n" else scrubbed[..999] + "…\n"
  }

  /** `picks` are the lines to be reported, in order. */
  ghost predicate PicksReports(lines: seq<string>, picks: seq<nat>) {
    && (forall j, k | 0 <= j < k < |picks| :: picks[j] < picks[k])
    && (forall k | 0 <= k < |picks| :: picks[k] < |lines|)
    && forall i: nat | i < |lines| :: IsReport(lines[i]) <==> i in picks
  }

  ghost predicate IsEntry(scrub: string -> string, line: string, entry: string) {
    exists start :: IsStart(line, start) && entry == Entry(scrub(start))
  }

  /** Each entry is written for its line's scrubbed start. */
  ghost predicate EntriesAre(scrub: string -> string, lines: seq<string>, picks: seq<nat>, target: seq<string>)
    requires PicksReports(lines, picks)
  {
    && |target| == |picks|
    && forall k | 0 <= k < |picks| :: IsEntry(scrub, lines[picks[k]], target[k])
  }

  lemma {:induction false} StripReturnsIs(s: string)
    ensures StripReturns(s) <= s && (forall k | |StripReturns(s)| <= k < |s| :: s[k] == '\r')
    ensures StripReturns(s) != "" ==> StripReturns(s)[|StripReturns(s)| - 1] != '\r'
  {
    if s != "" && s[|s| - 1] == '\r' {
      StripReturnsIs(s[..|s| - 1]);
    }
  }

  lemma ForwardedIs(scrub: string -> string, line: string)
    ensures var out := Forwarded(scrub, line);
            if IsReport(line) then |out| == 1 && IsEntry(scrub, line, out[0]) else out == []
  {
    var first := First(line, MAX_BUFFERED);
    var start := StripReturns(first);
    StripReturnsIs(first);
    assert |line| == 4000 ==> line[..4000] == line;
    assert IsStart(line, start);
    if |scrub(start)| > 1000 {
      Assoc(scrub(start)[..999], "…", "\n");
      assert "…" + "\n" == "…\n";
    }
  }

  lemma PicksMore(lines: seq<string>, picks: seq<nat>)
    requires lines != [] && PicksReports(lines[..|lines| - 1], picks)
    ensures PicksReports(lines, if IsReport(lines[|lines| - 1]) then picks + [|lines| - 1] else picks)
  {
    var n := |lines| - 1;
    var more := if IsReport(lines[n]) then picks + [n] else picks;
    assert forall i: nat | i < n :: lines[..n][i] == lines[i];
    assert forall i: nat | i < n :: i in more <==> i in picks;
  }

  lemma EntriesMore(scrub: string -> string, lines: seq<string>, picks: seq<nat>, target: seq<string>, out: seq<string>)
    requires lines != [] && PicksReports(lines[..|lines| - 1], picks)
    requires EntriesAre(scrub, lines[..|lines| - 1], picks, target)
    requires if IsReport(lines[|lines| - 1]) then |out| == 1 && IsEntry(scrub, lines[|lines| - 1], out[0]) else out == []
    ensures var n := |lines| - 1;
            var more := if IsReport(lines[n]) then picks + [n] else picks;
            PicksReports(lines, more) && EntriesAre(scrub, lines, more, target + out)
  {
    var n := |lines| - 1;
    var more := if IsReport(lines[n]) then picks + [n] else picks;
    PicksMore(lines, picks);
    forall k | 0 <= k < |more| ensures IsEntry(scrub, lines[more[k]], (target + out)[k]) {
      if k < |picks| {
        assert IsEntry(scrub, lines[..n][picks[k]], target[k]);
        assert lines[..n][picks[k]] == lines[more[k]] && (target + out)[k] == target[k];
      } else {
        assert (target + out)[k] == out[0];
      }
    }
  }

  /** The target is given one entry for each complete line that is a report, in order: what scrubbing
      leaves of its start. */
  lemma {:induction false} ReportExactly(scrub: string -> string, lines: seq<string>) returns (picks: seq<nat>)
    ensures PicksReports(lines, picks) && EntriesAre(scrub, lines, picks, Report(scrub, lines))
    decreases |lines|
  {
    if lines == [] {
      picks := [];
    } else {
      var before := ReportExactly(scrub, lines[..|lines| - 1]);
      ForwardedIs(scrub, lines[|lines| - 1]);
      EntriesMore(scrub, lines, before, Report(scrub, lines[..|lines| - 1]), Forwarded(scrub, lines[|lines| - 1]));
      picks := if IsReport(lines[|lines| - 1]) then before + [|lines| - 1] else before;
    }
  }

  /** The scrubbed starts of the reports. */
  function Scrubbed(scrub: string -> string, lines: seq<string>): seq<string> {
    if lines == [] then []
    else
      var n := |lines| - 1;
      Scrubbed(scrub, lines[..n])
      + (if IsReport(lines[n]) then [scrub(StripReturns(First(lines[n], 4000)))] else [])
  }

  function Entries(scrubbed: seq<string>): seq<string> {
    if scrubbed == [] then []
    else Entries(scrubbed[..|scrubbed| - 1]) + [Entry(scrubbed[|scrubbed| - 1])]
  }

  lemma ForwardedOfScrubbed(scrub: string -> string, line: string)
    ensures Forwarded(scrub, line) ==
            if IsReport(line) then [Entry(scrub(StripReturns(First(line, 4000))))] else []
  {
    var text := scrub(StripReturns(First(line, 4000)));
    if |text| > 1000 {
      Assoc(text[..999], "…", "\n");
      assert "…" + "\n" == "…\n";
    }
  }

  lemma EntriesSnoc(scrubbed: seq<string>, out: seq<string>)
    requires |out| <= 1
    ensures Entries(scrubbed + out) == Entries(scrubbed) + (if out == [] then [] else [Entry(out[0])])
  {
    if out == [] {
      assert scrubbed + out == scrubbed;
    } else {
      assert (scrubbed + out)[..|scrubbed|] == scrubbed;
    }
  }

  lemma {:induction false} ReportOfScrubbed(scrub: string -> string, lines: seq<string>)
    ensures Report(scrub, lines) == Entries(Scrubbed(scrub, lines))
  {
    if lines != [] {
      var n := |lines| - 1;
      ReportOfScrubbed(scrub, lines[..n]);
      ForwardedOfScrubbed(scrub, lines[n]);
      EntriesSnoc(Scrubbed(scrub, lines[..n]),
                  if IsReport(lines[n]) then [scrub(StripReturns(First(lines[n], 4000)))] else []);
    }
  }

  /** Nothing else gets out: two outputs whose reports scrub to the same are the same to the target. */
  lemma NothingElseGoesOut(scrub: string -> string, lines: seq<string>, others: seq<string>)
    requires Scrubbed(scrub, lines) == Scrubbed(scrub, others)
    ensures Report(scrub, lines) == Report(scrub, others)
  {
    ReportOfScrubbed(scrub, lines);
    ReportOfScrubbed(scrub, others);
  }
}
