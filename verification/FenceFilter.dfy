/** The bridge's stream filter over tool output fences: `_FenceFilter` of
    runner/workbench_bridge.py, and its use by one progress drain.

    `Fed` says what one pass over a text yields, character by character. Cutting the text
    anywhere and feeding the two halves one after the other gives the same, so how GA chunks its
    output does not matter. The functions take the marker as a parameter; the filter's is `FENCE`. */
module FenceFilter {
  import opened Wrappers
  import opened Text

  const FENCE: string := "`````\n"

  predicate Starts(m: string, text: string) {
    |m| <= |text| && text[..|m|] == m
  }

  /** The whole text is the start of a marker that is still incomplete. */
  predicate Held(m: string, text: string) {
    |text| < |m| && text == m[..|text|]
  }

  /** The longest end of the text that may still become a marker starts at `p`. */
  ghost predicate KeepsFrom(m: string, text: string, p: nat) {
    && p <= |text| && Held(m, text[p..])
    && forall q | 0 <= q < p :: !Held(m, text[q..])
  }

  /** `text.find(m, i)`. */
  function Find(m: string, text: string, i: nat): (j: Option<nat>)
    requires i <= |text|
    ensures j.Some? ==> i <= j.value && j.value + |m| <= |text|
    decreases |text| - i
  {
    if Starts(m, text[i..]) then Some(i)
    else if i == |text| then None
    else Find(m, text, i + 1)
  }

  lemma {:induction false} FindIsFirst(m: string, text: string, i: nat)
    requires i <= |text|
    ensures var j := Find(m, text, i);
            && (j.Some? ==> Starts(m, text[j.value..]))
            && forall k | i <= k <= |text| && (j.Some? ==> k < j.value) :: !Starts(m, text[k..])
    decreases |text| - i
  {
    if !Starts(m, text[i..]) && i < |text| {
      FindIsFirst(m, text, i + 1);
    }
  }

  // ---- the batch form ----

  /** `text.split(m)`. */
  function SplitOn(m: string, text: string): (pieces: seq<string>)
    requires m != ""
    ensures pieces != []
    decreases |text|
  {
    var j := Find(m, text, 0);
    if j.None? then [text] else [text[..j.value]] + SplitOn(m, text[j.value..][|m|..])
  }

  function Shown(text: string, inside: bool): string {
    if inside then "" else text
  }

  /** Every second piece, from the first when not `inside` a fence. */
  function Alternate(pieces: seq<string>, inside: bool): seq<string> {
    if pieces == [] then [] else [Shown(pieces[0], inside)] + Alternate(pieces[1..], !inside)
  }

  /** What a text says outside fences. */
  function Outside(m: string, text: string, inside: bool): string
    requires m != ""
  {
    Flatten(Alternate(SplitOn(m, text), inside))
  }

  // ---- the streaming form ----

  datatype FeedResult = FeedResult(out: string, carry: string, inside: bool)

  function Before(out: string, r: FeedResult): FeedResult {
    r.(out := out + r.out)
  }

  /** One pass over `text`, starting inside a fence or not. */
  function Fed(m: string, text: string, inside: bool): FeedResult
    requires m != ""
    decreases |text|
  {
    if Starts(m, text) then Fed(m, text[|m|..], !inside)
    else if Held(m, text) then FeedResult("", text, inside)
    else Before(Shown(text[..1], inside), Fed(m, text[1..], inside))
  }

  /** `_FenceFilter`. */
  class FenceFilter {
    var inside: bool
    var carry: string

    constructor ()
      ensures !inside && carry == ""
    {
      inside := false;
      carry := "";
    }

    method Feed(delta: string) returns (out: string)
      modifies this
      ensures FeedResult(out, carry, inside) == Fed(FENCE, old(carry) + delta, old(inside))
    {
      out, carry, inside := FeedText(FENCE, carry + delta, inside);
    }

    static method FeedText(m: string, text: string, wasInside: bool) returns (out: string, carry: string, inside: bool)
      requires m != ""
      ensures FeedResult(out, carry, inside) == Fed(m, text, wasInside)
    {
      var parts, i;
      parts, i, inside := ScanMarkers(m, text, wasInside);
      var suffixLen := SuffixLen(m, text[i..]);
      FeedEnds(m, text, wasInside, parts, i, inside, suffixLen);
      var emitEnd := |text| - suffixLen;
      carry := text[emitEnd..];
      if !inside && emitEnd > i {
        FlattenSnoc(parts, text[i..emitEnd]);
        parts := parts + [text[i..emitEnd]];
      } else {
        assert Flatten(parts) + "" == Flatten(parts);
      }
      out := Flatten(parts);
    }

    /** The loop of `feed` over complete markers: the parts outside, where the text after the
        last marker starts, and whether that is inside a fence. */
    static method ScanMarkers(m: string, text: string, wasInside: bool)
      returns (parts: seq<string>, i: nat, inside: bool)
      requires m != ""
      ensures i <= |text| && Find(m, text, i).None?
      ensures ScannedTo(m, text, wasInside, parts, i, inside)
    {
      inside := wasInside;
      parts := [];
      i := 0;
      var j := Find(m, text, 0);
      NothingScanned(m, text, inside);
      while j.Some?
        invariant i <= |text| && j == Find(m, text, i)
        invariant ScannedTo(m, text, wasInside, parts, i, inside)
        decreases |text| - i
      {
        PastMarker(m, text, wasInside, parts, i, j.value, inside);
        if !inside {
          parts := parts + [text[i..j.value]];
        }
        inside := !inside;
        i := j.value + |m|;
        j := Find(m, text, i);
      }
    }

    /** How much of the end to hold back: the longest that may still become a marker. */
    static method SuffixLen(m: string, remaining: string) returns (n: nat)
      requires m != ""
      ensures n <= |remaining| && KeepsFrom(m, remaining, |remaining| - n)
    {
      n := if |m| - 1 < |remaining| then |m| - 1 else |remaining|;
      while n > 0
        invariant n <= |remaining| && n < |m|
        invariant forall q | 0 <= q < |remaining| - n :: !Held(m, remaining[q..])
      {
        if remaining[|remaining| - n..] == m[..n] {
          return;
        }
        n := n - 1;
      }
    }

    method Flush() returns (out: string)
      modifies this
      ensures out == Shown(old(carry), inside) && carry == "" && inside == old(inside)
    {
      out := if inside then "" else carry;
      carry := "";
    }
  }

  lemma FlattenSnoc(parts: seq<string>, part: string)
    ensures Flatten(parts + [part]) == Flatten(parts) + part
  {
    FlattenConcat(parts, [part]);
    assert [part][1..] == [];
    assert Flatten([part]) == part + "" == part;
  }

  lemma BeforeTwice(a: string, b: string, r: FeedResult)
    ensures Before(a, Before(b, r)) == Before(a + b, r)
  {
    Assoc(a, b, r.out);
  }

  lemma ShownConcat(a: string, b: string, inside: bool)
    ensures Shown(a + b, inside) == Shown(a, inside) + Shown(b, inside)
  {
  }

  /** A stretch in which no marker can start goes straight through. */
  lemma {:induction false} FedThrough(m: string, text: string, i: nat, k: nat, inside: bool)
    requires m != "" && i <= k <= |text|
    requires forall p | i <= p < k :: !Starts(m, text[p..]) && !Held(m, text[p..])
    ensures Fed(m, text[i..], inside) == Before(Shown(text[i..k], inside), Fed(m, text[k..], inside))
    decreases k - i
  {
    if i == k {
      assert text[i..k] == "";
      NoLeft(Fed(m, text[k..], inside).out);
    } else {
      assert text[i..] != "" && text[i..][1..] == text[i + 1..];
      FedThrough(m, text, i + 1, k, inside);
      assert text[i..][..1] + text[i + 1..k] == text[i..k];
      ShownConcat(text[i..][..1], text[i + 1..k], inside);
      BeforeTwice(Shown(text[i..][..1], inside), Shown(text[i + 1..k], inside), Fed(m, text[k..], inside));
    }
  }

  /** The text up to the next marker, and the marker. */
  lemma FedMarker(m: string, text: string, i: nat, j: nat, inside: bool)
    requires m != "" && i <= |text| && Find(m, text, i) == Some(j)
    ensures Fed(m, text[i..], inside) == Before(Shown(text[i..j], inside), Fed(m, text[j + |m|..], !inside))
  {
    FindIsFirst(m, text, i);
    FedThrough(m, text, i, j, inside);
    assert text[j..][|m|..] == text[j + |m|..];
  }

  /** `parts` are what is outside fences up to `i`, just behind a marker or at the start. */
  ghost predicate ScannedTo(m: string, text: string, wasInside: bool, parts: seq<string>, i: nat, inside: bool)
    requires m != "" && i <= |text|
  {
    Fed(m, text, wasInside) == Before(Flatten(parts), Fed(m, text[i..], inside))
  }

  lemma NothingScanned(m: string, text: string, inside: bool)
    requires m != ""
    ensures ScannedTo(m, text, inside, [], 0, inside)
  {
    assert text[0..] == text;
    NoLeft(Fed(m, text, inside).out);
  }

  lemma PastMarker(m: string, text: string, wasInside: bool, parts: seq<string>, i: nat, j: nat, inside: bool)
    requires m != "" && i <= |text| && Find(m, text, i) == Some(j)
    requires ScannedTo(m, text, wasInside, parts, i, inside)
    ensures ScannedTo(m, text, wasInside, if inside then parts else parts + [text[i..j]], j + |m|, !inside)
  {
    FedMarker(m, text, i, j, inside);
    AddShown(parts, text[i..j], inside, Fed(m, text[j + |m|..], !inside));
  }

  lemma AddShown(parts: seq<string>, piece: string, inside: bool, left: FeedResult)
    ensures Before(Flatten(parts), Before(Shown(piece, inside), left)) ==
            Before(Flatten(if inside then parts else parts + [piece]), left)
  {
    if inside {
      NoLeft(left.out);
    } else {
      BeforeTwice(Flatten(parts), piece, left);
      FlattenSnoc(parts, piece);
    }
  }

  /** What follows the last marker, but for the end that is held back. */
  lemma FedRest(m: string, text: string, i: nat, inside: bool, n: nat)
    requires m != "" && i <= |text| && Find(m, text, i).None?
    requires var rest := text[i..];
             n <= |rest| && KeepsFrom(m, rest, |rest| - n)
    ensures var keep := |text| - n;
            Fed(m, text[i..], inside) == FeedResult(Shown(text[i..keep], inside), text[keep..], inside)
  {
    var keep, rest := |text| - n, text[i..];
    FindIsFirst(m, text, i);
    forall p | i <= p < keep ensures !Starts(m, text[p..]) && !Held(m, text[p..]) {
      assert rest[p - i..] == text[p..];
    }
    FedThrough(m, text, i, keep, inside);
    assert rest[keep - i..] == text[keep..];
  }

  lemma FeedEnds(m: string, text: string, wasInside: bool, parts: seq<string>, i: nat, inside: bool, n: nat)
    requires m != "" && i <= |text| && Find(m, text, i).None?
    requires n <= |text| - i && KeepsFrom(m, text[i..], |text| - i - n)
    requires ScannedTo(m, text, wasInside, parts, i, inside)
    ensures var keep := |text| - n;
            && Fed(m, text, wasInside) == FeedResult(Flatten(parts) + Shown(text[i..keep], inside), text[keep..], inside)
            && (i == keep ==> text[i..keep] == "")
  {
    FedRest(m, text, i, inside, n);
  }

  // ---- cutting the stream ----

  /** Feeding a text in two parts is feeding it at once. */
  lemma {:induction false} FedInTwo(m: string, a: string, b: string, inside: bool)
    requires m != ""
    ensures var r := Fed(m, a, inside);
            Fed(m, a + b, inside) == Before(r.out, Fed(m, r.carry + b, r.inside))
    decreases |a|
  {
    var t := a + b;
    if Starts(m, a) {
      assert t[..|m|] == a[..|m|] && t[|m|..] == a[|m|..] + b;
      FedInTwo(m, a[|m|..], b, !inside);
    } else if Held(m, a) {
      NoLeft(Fed(m, t, inside).out);
    } else {
      StaysOpen(m, a, b);
      assert t[..1] == a[..1] && t[1..] == a[1..] + b;
      FedInTwo(m, a[1..], b, inside);
      var r := Fed(m, a[1..], inside);
      BeforeTwice(Shown(a[..1], inside), r.out, Fed(m, r.carry + b, r.inside));
    }
  }

  /** No more text makes a start of what is none. */
  lemma StaysOpen(m: string, a: string, b: string)
    requires !Starts(m, a) && !Held(m, a)
    ensures !Starts(m, a + b) && !Held(m, a + b)
  {
    var n := if |a| < |m| then |a| else |m|;
    assert a[..n] != m[..n];
    var i :| 0 <= i < n && a[i] != m[i];
    assert (a + b)[i] == a[i];
  }

  /** The state and output after a sequence of chunks. */
  function FedAll(m: string, chunks: seq<string>, carry: string, inside: bool): FeedResult
    requires m != ""
  {
    if chunks == [] then FeedResult("", carry, inside)
    else
      var r := Fed(m, carry + chunks[0], inside);
      Before(r.out, FedAll(m, chunks[1..], r.carry, r.inside))
  }

  lemma {:induction false} FedHolds(m: string, text: string, inside: bool)
    requires m != ""
    ensures Held(m, Fed(m, text, inside).carry)
    decreases |text|
  {
    if Starts(m, text) {
      FedHolds(m, text[|m|..], !inside);
    } else if !Held(m, text) {
      FedHolds(m, text[1..], inside);
    }
  }

  /** However a text is cut into chunks, state and output after them are those of one pass. */
  lemma {:induction false} ChunksDoNotMatter(m: string, chunks: seq<string>, carry: string, inside: bool)
    requires m != "" && Held(m, carry)
    ensures FedAll(m, chunks, carry, inside) == Fed(m, carry + Flatten(chunks), inside)
    decreases |chunks|
  {
    if chunks == [] {
      assert carry + "" == carry;
    } else {
      var first := carry + chunks[0];
      var r := Fed(m, first, inside);
      FedHolds(m, first, inside);
      ChunksDoNotMatter(m, chunks[1..], r.carry, r.inside);
      FedInTwo(m, first, Flatten(chunks[1..]), inside);
      Assoc(carry, chunks[0], Flatten(chunks[1..]));
    }
  }

  /** One pass, flushed, is the batch form. */
  lemma {:induction false} FedIsOutside(m: string, text: string, inside: bool)
    requires m != ""
    ensures var r := Fed(m, text, inside);
            r.out + Shown(r.carry, r.inside) == Outside(m, text, inside)
    decreases |text|
  {
    match Find(m, text, 0)
    case None => OutsideWithoutMarker(m, text, inside);
    case Some(j) =>
      FedIsOutside(m, text[j + |m|..], !inside);
      OutsideAtMarker(m, text, j, inside);
  }

  lemma OutsideAtMarker(m: string, text: string, j: nat, inside: bool)
    requires m != "" && Find(m, text, 0) == Some(j)
    requires var next := text[j + |m|..];
             var r := Fed(m, next, !inside);
             r.out + Shown(r.carry, r.inside) == Outside(m, next, !inside)
    ensures var r := Fed(m, text, inside);
            r.out + Shown(r.carry, r.inside) == Outside(m, text, inside)
  {
    var head, next := text[..j], text[j + |m|..];
    FedFirst(m, text, j, inside);
    SplitFirst(m, text);
    var r := Fed(m, next, !inside);
    Assoc(Shown(head, inside), r.out, Shown(r.carry, r.inside));
    AlternateCons(head, SplitOn(m, next), inside);
  }

  lemma OutsideWithoutMarker(m: string, text: string, inside: bool)
    requires m != "" && Find(m, text, 0).None?
    ensures var r := Fed(m, text, inside);
            r.out + Shown(r.carry, r.inside) == Outside(m, text, inside)
  {
    FindsNone(m, text);
    NoMarkerFed(m, text, inside);
    AlternateCons(text, [], inside);
    assert [text] + [] == [text];
    assert Shown(text, inside) + "" == Shown(text, inside);
  }

  /** No marker starts anywhere in the text. */
  predicate NoMarker(m: string, text: string) {
    !Starts(m, text) && (text != "" ==> NoMarker(m, text[1..]))
  }

  lemma {:induction false} NoneFrom(m: string, text: string, i: nat)
    requires i <= |text| && Find(m, text, i).None?
    ensures NoMarker(m, text[i..])
    decreases |text| - i
  {
    if i < |text| {
      NoneFrom(m, text, i + 1);
      assert text[i..][1..] == text[i + 1..];
    }
  }

  lemma FindsNone(m: string, text: string)
    requires Find(m, text, 0).None?
    ensures NoMarker(m, text)
  {
    NoneFrom(m, text, 0);
    assert text[0..] == text;
  }

  lemma {:induction false} NoMarkerFed(m: string, text: string, inside: bool)
    requires m != "" && NoMarker(m, text)
    ensures var r := Fed(m, text, inside);
            && r.inside == inside && r.carry == HeldEnd(m, text)
            && r.out + Shown(r.carry, inside) == Shown(text, inside)
    decreases |text|
  {
    if !Held(m, text) {
      NoMarkerFed(m, text[1..], inside);
      var r := Fed(m, text[1..], inside);
      Assoc(Shown(text[..1], inside), r.out, Shown(r.carry, inside));
      ShownConcat(text[..1], text[1..], inside);
      assert text[..1] + text[1..] == text;
    } else {
      NoLeft(Shown(text, inside));
    }
  }

  lemma AlternateCons(piece: string, rest: seq<string>, inside: bool)
    ensures Flatten(Alternate([piece] + rest, inside)) == Shown(piece, inside) + Flatten(Alternate(rest, !inside))
  {
    assert ([piece] + rest)[1..] == rest;
    var tail := Alternate(rest, !inside);
    assert ([Shown(piece, inside)] + tail)[1..] == tail;
  }

  /** The longest end of the text that may still become a marker. */
  function HeldEnd(m: string, text: string): string
    requires m != ""
  {
    if Held(m, text) then text else HeldEnd(m, text[1..])
  }

  lemma {:induction false} HeldEndIsLongest(m: string, text: string)
    requires m != ""
    ensures var c := HeldEnd(m, text);
            |c| <= |text| && c == text[|text| - |c|..] && KeepsFrom(m, text, |text| - |c|)
  {
    assert text[0..] == text;
    if !Held(m, text) {
      var rest := text[1..];
      HeldEndIsLongest(m, rest);
      var c := HeldEnd(m, rest);
      assert text[|text| - |c|..] == rest[|rest| - |c|..];
      forall q | 0 <= q < |text| - |c| ensures !Held(m, text[q..]) {
        if q > 0 {
          assert text[q..] == rest[q - 1..];
        }
      }
    }
  }

  /** After any text the filter is inside a fence exactly when an odd number of markers went by
      (an even number of pieces), and what it holds back is the longest end, since the last
      marker, that may still become one. */
  lemma {:induction false} FedState(m: string, text: string, inside: bool)
    requires m != ""
    ensures EndsAs(m, SplitOn(m, text), inside, Fed(m, text, inside))
    decreases |text|
  {
    match Find(m, text, 0)
    case None => NoMarkerState(m, text, inside);
    case Some(j) =>
      FedState(m, text[j + |m|..], !inside);
      MarkerState(m, text, j, inside);
  }

  lemma MarkerState(m: string, text: string, j: nat, inside: bool)
    requires m != "" && Find(m, text, 0) == Some(j)
    requires var next := text[j + |m|..]; EndsAs(m, SplitOn(m, next), !inside, Fed(m, next, !inside))
    ensures EndsAs(m, SplitOn(m, text), inside, Fed(m, text, inside))
  {
    var head, next := text[..j], text[j + |m|..];
    FedFirst(m, text, j, inside);
    SplitFirst(m, text);
    OneMore(m, head, SplitOn(m, next), inside, Fed(m, next, !inside), Shown(head, inside));
  }

  lemma NoMarkerState(m: string, text: string, inside: bool)
    requires m != "" && Find(m, text, 0).None?
    ensures EndsAs(m, SplitOn(m, text), inside, Fed(m, text, inside))
  {
    FindsNone(m, text);
    NoMarkerFed(m, text, inside);
    assert SplitOn(m, text) == [text];
  }

  /** The state after a text split into `pieces`. */
  predicate EndsAs(m: string, pieces: seq<string>, inside: bool, r: FeedResult)
    requires m != "" && pieces != []
  {
    && (r.inside != inside <==> |pieces| % 2 == 0)
    && r.carry == HeldEnd(m, pieces[|pieces| - 1])
  }

  lemma OneMore(m: string, piece: string, rest: seq<string>, inside: bool, r: FeedResult, out: string)
    requires m != "" && rest != [] && EndsAs(m, rest, !inside, r)
    ensures EndsAs(m, [piece] + rest, inside, Before(out, r))
  {
  }

  lemma FedFirst(m: string, text: string, j: nat, inside: bool)
    requires m != "" && Find(m, text, 0) == Some(j)
    ensures Fed(m, text, inside) == Before(Shown(text[..j], inside), Fed(m, text[j + |m|..], !inside))
  {
    FedMarker(m, text, 0, j, inside);
    FromStart(m, text, j, inside, Fed(m, text[j + |m|..], !inside));
  }

  lemma FromStart(m: string, text: string, j: nat, inside: bool, rest: FeedResult)
    requires m != "" && j <= |text|
    requires Fed(m, text[0..], inside) == Before(Shown(text[0..j], inside), rest)
    ensures Fed(m, text, inside) == Before(Shown(text[..j], inside), rest)
  {
    assert text[0..] == text && text[0..j] == text[..j];
  }

  lemma SplitFirst(m: string, text: string)
    requires m != "" && Find(m, text, 0).Some?
    ensures var j := Find(m, text, 0).value;
            j + |m| <= |text| && SplitOn(m, text) == [text[..j]] + SplitOn(m, text[j + |m|..])
  {
    var j := Find(m, text, 0).value;
    assert text[j..][|m|..] == text[j + |m|..];
  }

  /** Nothing held back could have gone out: one continuation keeps it, another drops it. */
  lemma HoldsBackOnlyWhatItMust(m: string, text: string)
    requires m != "" && !Fed(m, text, false).inside
    ensures var r := Fed(m, text, false);
            && |r.carry| <= |m|
            && Outside(m, text, false) == r.out + r.carry
            && Outside(m, text + m[|r.carry|..], false) == r.out
  {
    var r := Fed(m, text, false);
    FedIsOutside(m, text, false);
    FedHolds(m, text, false);
    var rest := m[|r.carry|..];
    FedInTwo(m, text, rest, false);
    assert r.carry + rest == m;
    assert Starts(m, m) && m[|m|..] == "";
    assert Fed(m, "", true) == FeedResult("", "", true);
    FedIsOutside(m, text + rest, false);
    assert r.out + "" == r.out;
  }

  /** One progress drain: a fresh filter, a delta per non-empty filtered chunk, and what was
      held back once its task is done. Together they are the stream outside fences. */
  method DrainTask(chunks: seq<string>) returns (deltas: seq<string>)
    ensures Flatten(deltas) == Outside("`````\n", Flatten(chunks), false)
    ensures forall k | 0 <= k < |deltas| :: deltas[k] != ""
  {
    var filter := new FenceFilter();
    deltas := [];
    var k := 0;
    ghost var all := FedAll(FENCE, chunks, "", false);
    ghost var left := all;
    assert chunks[0..] == chunks;
    NoLeft(all.out);
    while k < |chunks|
      invariant k <= |chunks|
      invariant left == FedAll(FENCE, chunks[k..], filter.carry, filter.inside)
      invariant all == Before(Flatten(deltas), left)
      invariant forall i | 0 <= i < |deltas| :: deltas[i] != ""
    {
      assert chunks[k..][1..] == chunks[k + 1..];
      var filtered := filter.Feed(chunks[k]);
      left := FedAll(FENCE, chunks[k + 1..], filter.carry, filter.inside);
      BeforeTwice(Flatten(deltas), filtered, left);
      deltas := AppendDelta(deltas, filtered);
      k := k + 1;
    }
    assert Flatten(deltas) + "" == Flatten(deltas);
    AllFed(chunks);
    var tail := filter.Flush();
    deltas := AppendDelta(deltas, tail);
  }

  method AppendDelta(deltas: seq<string>, delta: string) returns (more: seq<string>)
    requires forall i | 0 <= i < |deltas| :: deltas[i] != ""
    ensures Flatten(more) == Flatten(deltas) + delta
    ensures forall i | 0 <= i < |more| :: more[i] != ""
  {
    if delta == "" {
      assert Flatten(deltas) + "" == Flatten(deltas);
      return deltas;
    }
    FlattenSnoc(deltas, delta);
    more := deltas + [delta];
  }

  lemma AllFed(chunks: seq<string>)
    ensures var all := FedAll(FENCE, chunks, "", false);
            all.out + Shown(all.carry, all.inside) == Outside(FENCE, Flatten(chunks), false)
  {
    ChunksDoNotMatter(FENCE, chunks, "", false);
    NoLeft(Flatten(chunks));
    FedIsOutside(FENCE, Flatten(chunks), false);
  }
}
