/** `_compose` of runner/im_wechat.py: a message with a notice before it and a last line after
    it, split so that no part goes over the channel's limit. */
module SplitterCompose {
  import opened Wrappers
  import opened Text
  import opened Splitter
  import opened SplitterBounds
  import SplitterBalance
  import SplitterLossless

  const TEXT_LIMIT := 4000

  /** `"\n\n".join(text for text in (a, b) if text)`. */
  function Paragraphs(a: string, b: string): string {
    if a == "" then b else if b == "" then a else a + "\n\n" + b
  }

  function Present(parts: seq<string>): seq<string> {
    if parts == [] then [] else (if parts[0] != "" then [parts[0]] else []) + Present(parts[1..])
  }

  /** What is left of the limit for the body. */
  function Room(head: string, tail: string): int {
    TEXT_LIMIT - (if head != "" then |head| + 2 else 0) - (if tail != "" then |tail| + 2 else 0)
  }

  /** The body's messages with the notice in the first and the last line in the last. */
  function Framed(parts: seq<string>, head: string, tail: string): seq<string>
    requires parts != []
  {
    var first := parts[0 := Paragraphs(head, parts[0])];
    first[|first| - 1 := Paragraphs(first[|first| - 1], tail)]
  }

  function BodyParts(body: string, room: int): (parts: seq<string>)
    ensures parts != []
  {
    if Split(body, room) == [] then [""] else Split(body, room)
  }

  /** `_compose`. */
  method Compose(body: string, head: string, tail: string) returns (parts: seq<string>)
    ensures parts == Present(Framed(BodyParts(body, Room(head, tail)), head, tail))
  {
    parts := SplitMessage(body, Room(head, tail));
    if parts == [] { parts := [""]; }
    assert parts == BodyParts(body, Room(head, tail));
    parts := Frame(parts, head, tail);
  }

  method Frame(parts: seq<string>, head: string, tail: string) returns (framed: seq<string>)
    requires parts != []
    ensures framed == Present(Framed(parts, head, tail))
  {
    framed := parts[0 := Paragraphs(head, parts[0])];
    framed := framed[|framed| - 1 := Paragraphs(framed[|framed| - 1], tail)];
    framed := Present(framed);
  }

  lemma {:induction false} PresentKeeps(parts: seq<string>, limit: int)
    requires AllWithin(parts, limit)
    ensures AllWithin(Present(parts), limit) && NoneEmpty(Present(parts))
    ensures Flatten(Present(parts)) == Flatten(parts)
  {
    if parts != [] {
      PresentKeeps(parts[1..], limit);
      PutFirst(parts[0], Present(parts[1..]), limit);
      NoLeft(Present(parts[1..]));
      NoLeft(Flatten(parts[1..]));
    }
  }

  ghost predicate NoneEmpty(parts: seq<string>) {
    forall k | 0 <= k < |parts| :: parts[k] != ""
  }

  lemma PutFirst(part: string, rest: seq<string>, limit: int)
    requires AllWithin(rest, limit) && NoneEmpty(rest) && |part| <= limit
    ensures AllWithin([part] + rest, limit) && (part != "" ==> NoneEmpty([part] + rest))
    ensures Flatten([part] + rest) == part + Flatten(rest)
  {
    assert ([part] + rest)[1..] == rest;
  }

  /** No part is over the channel's limit: with room left for the body, and for its fences in that
      room, every part is within the limit and none is empty. */
  lemma ComposeBounded(body: string, head: string, tail: string)
    requires Room(head, tail) >= 1 && FencesFit(Strip(body), Room(head, tail))
    ensures var parts := Present(Framed(BodyParts(body, Room(head, tail)), head, tail));
            AllWithin(parts, 4000) && NoneEmpty(parts)
  {
    var room := Room(head, tail);
    SplitBounded(body, room);
    var parts := BodyParts(body, room);
    assert AllWithin(parts, room);
    FramedWithin(parts, head, tail);
    PresentKeeps(Framed(parts, head, tail), TEXT_LIMIT);
  }

  lemma FramedWithin(parts: seq<string>, head: string, tail: string)
    requires parts != [] && AllWithin(parts, Room(head, tail))
    ensures AllWithin(Framed(parts, head, tail), TEXT_LIMIT)
  {
  }

  lemma ParagraphsKeep(a: string, b: string)
    ensures NonSpace(Paragraphs(a, b)) == NonSpace(a) + NonSpace(b)
  {
    assert a + "\n\n" + b == a + "\n" + ("\n" + b);
    SplitterLossless.NonSpaceLines(a, "\n" + b);
    SplitterLossless.NonSpaceLines("", b);
    assert "" + "\n" + b == "\n" + b;
    NoLeft(NonSpace(b));
  }

  lemma {:induction false} FlattenFirst(parts: seq<string>, head: string)
    requires parts != []
    ensures NonSpace(Flatten(parts[0 := Paragraphs(head, parts[0])])) == NonSpace(head) + NonSpace(Flatten(parts))
  {
    var framed := parts[0 := Paragraphs(head, parts[0])];
    assert framed[1..] == parts[1..];
    ParagraphsKeep(head, parts[0]);
    NonSpaceConcat(framed[0], Flatten(parts[1..]));
    NonSpaceConcat(parts[0], Flatten(parts[1..]));
    Assoc(NonSpace(head), NonSpace(parts[0]), NonSpace(Flatten(parts[1..])));
  }

  lemma {:induction false} FlattenLast(parts: seq<string>, tail: string)
    requires parts != []
    ensures NonSpace(Flatten(parts[|parts| - 1 := Paragraphs(parts[|parts| - 1], tail)]))
            == NonSpace(Flatten(parts)) + NonSpace(tail)
  {
    var n := |parts| - 1;
    var framed := parts[n := Paragraphs(parts[n], tail)];
    if n == 0 {
      assert framed[1..] == [] && parts[1..] == [];
      assert Flatten(framed) == framed[0] + "" == framed[0];
      assert Flatten(parts) == parts[0] + "" == parts[0];
      ParagraphsKeep(parts[0], tail);
    } else {
      FlattenLast(parts[1..], tail);
      assert framed[1..] == parts[1..][n - 1 := Paragraphs(parts[n], tail)];
      NonSpaceConcat(framed[0], Flatten(framed[1..]));
      NonSpaceConcat(parts[0], Flatten(parts[1..]));
      Assoc(NonSpace(parts[0]), NonSpace(Flatten(parts[1..])), NonSpace(tail));
    }
  }

  /** The notice, the split body and the last line, in that order, and nothing else visible. */
  lemma ComposeKeeps(body: string, head: string, tail: string)
    ensures var room := Room(head, tail);
            NonSpace(Flatten(Present(Framed(BodyParts(body, room), head, tail))))
            == NonSpace(head) + NonSpace(Flatten(Split(body, room))) + NonSpace(tail)
  {
    var parts := BodyParts(body, Room(head, tail));
    var first := parts[0 := Paragraphs(head, parts[0])];
    FlattenFirst(parts, head);
    FlattenLast(first, tail);
    var framed := Framed(parts, head, tail);
    PresentKeeps(framed, Longest(framed));
    assert Flatten([""]) == "" + Flatten([""][1..]);
    assert Flatten(parts) == Flatten(Split(body, Room(head, tail)));
  }

  ghost function Longest(parts: seq<string>): (n: int)
    ensures AllWithin(parts, n)
  {
    if parts == [] then 0 else Max(|parts[0]|, Longest(parts[1..]))
  }

  /** A text that fits is sent as it is, stripped. */
  lemma SplitShort(text: string, limit: int)
    requires 0 < |Strip(text)| <= limit
    ensures Split(text, limit) == [Strip(text)]
  {
    var t := Strip(text);
    var ps := Pieces(t, Max(1, limit / 2));
    SplitterLossless.PiecesAreText(t, Max(1, limit / 2));
    PiecesStartOutside(t, Max(1, limit / 2));
    RStripSplits(LStrip(text));
    RStripStable(t);
    assert Cut(ps, 0, limit) == |ps|;
    assert Dress(CutoutAt(ps, 0, |ps|)) == t;
    SplitterBalance.VisibleKept(t);
    CutoutsStep(ps, 0, limit);
  }

  lemma PiecesStartOutside(text: string, width: nat)
    requires width > 0
    ensures Pieces(text, width) != [] && Pieces(text, width)[0].fence.None?
  {
    SlicesFit(Lines(text)[0], width, "\n", None);
  }

  // ---- the parts ----

  function Notice(head: string): string {
    if head != "" then head + "\n\n" else ""
  }

  function LastLine(tail: string): string {
    if tail != "" then "\n\n" + tail else ""
  }

  /** Each part is its message, the first with the notice and a blank line before it, the last with a
      blank line and the last line after it. */
  lemma FramedExactly(parts: seq<string>, head: string, tail: string)
    requires parts != [] && NoneEmpty(parts)
    ensures var framed, n := Framed(parts, head, tail), |parts|;
            && Present(framed) == framed && |framed| == n
            && forall k | 0 <= k < n ::
                 framed[k] ==
                 (if k == 0 then Notice(head) else "") + parts[k] + (if k == n - 1 then LastLine(tail) else "")
  {
    var framed := Framed(parts, head, tail);
    forall k | 0 <= k < |parts|
      ensures framed[k] ==
              (if k == 0 then Notice(head) else "") + parts[k] + (if k == |parts| - 1 then LastLine(tail) else "")
    {
    }
    AllPresent(framed);
  }

  lemma {:induction false} AllPresent(parts: seq<string>)
    requires NoneEmpty(parts)
    ensures Present(parts) == parts
  {
    if parts != [] {
      assert forall k | 0 <= k < |parts[1..]| :: parts[1..][k] == parts[k + 1];
      AllPresent(parts[1..]);
    }
  }

  /** What fits a message in all is one message. */
  lemma ComposeShort(body: string, head: string, tail: string)
    requires Strip(body) != "" && |Notice(head)| + |Strip(body)| + |LastLine(tail)| <= 4000
    ensures Present(Framed(BodyParts(body, Room(head, tail)), head, tail)) ==
            [Notice(head) + Strip(body) + LastLine(tail)]
  {
    SplitShort(body, Room(head, tail));
    FramedExactly([Strip(body)], head, tail);
  }

  /** An empty body leaves the notice and the last line, if there are any. */
  lemma ComposeEmpty(body: string, head: string, tail: string)
    requires Strip(body) == ""
    ensures Present(Framed(BodyParts(body, Room(head, tail)), head, tail)) ==
            if head == "" && tail == "" then [] else if head == "" then [tail] else [head + LastLine(tail)]
  {
    var all := if head == "" then tail else head + LastLine(tail);
    assert Split(body, Room(head, tail)) == [];
    assert Paragraphs(head, "") == head;
    Assoc(head, "\n\n", tail);
    assert tail == "" ==> head + LastLine(tail) == head;
    assert Paragraphs(head, tail) == all;
    assert [""][0 := head] == [head];
    assert Framed([""], head, tail) == [head][0 := Paragraphs(head, tail)];
    assert [all][1..] == [] && [all] + [] == [all];
    assert Present([all]) == (if all != "" then [all] else []) + Present([]);
  }
}
