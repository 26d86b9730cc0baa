/** The download-progress throttle: `ProgressThrottle` in core/src/app_update.rs. Times are
    milliseconds; counts are 64-bit, and the multiplication by 100 saturates. */
module Throttle {
  import opened Wrappers

  const MIN_INTERVAL: nat := 150
  const U64_MAX: nat := 0xFFFF_FFFF_FFFF_FFFF

  datatype State = State(lastEmitAt: Option<nat>, lastPercent: Option<nat>)

  const NEW := State(None, None)

  function SaturatingMul(a: nat, b: nat): nat {
    if a * b > U64_MAX then U64_MAX else a * b
  }

  function Percent(downloaded: nat, total: Option<nat>): Option<nat> {
    if total.Some? && total.value > 0 then Some(SaturatingMul(downloaded, 100) / total.value) else None
  }

  /** `duration_since`, which is zero when time runs backwards. */
  predicate IntervalElapsed(s: State, now: nat) {
    s.lastEmitAt.None? || now - s.lastEmitAt.value >= MIN_INTERVAL
  }

  predicate Changes(s: State, percent: Option<nat>) {
    percent.Some? && percent != s.lastPercent
  }

  predicate Emits(s: State, percent: Option<nat>, now: nat) {
    IntervalElapsed(s, now) || Changes(s, percent)
  }

  function After(s: State, percent: Option<nat>, now: nat): State {
    if Emits(s, percent, now) then State(Some(now), if percent.Some? then percent else s.lastPercent) else s
  }

  class ProgressThrottle {
    var lastEmitAt: Option<nat>
    var lastPercent: Option<nat>

    ghost function View(): State
      reads this
    {
      State(lastEmitAt, lastPercent)
    }

    constructor ()
      ensures View() == NEW
    {
      lastEmitAt, lastPercent := None, None;
    }

    /** Whether to emit: at the first call, at every other percent than the last emitted one, and
        when the interval has passed since the last event. */
    method ShouldEmit(downloaded: nat, total: Option<nat>, now: nat) returns (emit: bool)
      requires downloaded <= U64_MAX && (total.Some? ==> total.value <= U64_MAX)
      modifies this
      ensures emit == Emits(old(View()), Percent(downloaded, total), now)
      ensures Percent(downloaded, total).Some? && Percent(downloaded, total) != old(lastPercent) ==> emit
      ensures View() == After(old(View()), Percent(downloaded, total), now)
    {
      var percent := Percent(downloaded, total);
      var intervalElapsed := true;
      if lastEmitAt.Some? {
        var since := if now >= lastEmitAt.value then now - lastEmitAt.value else 0;
        intervalElapsed := since >= MIN_INTERVAL;
      }
      var percentChanged :=
        (percent.Some? && lastPercent.Some? && percent.value != lastPercent.value) || (percent.Some? && lastPercent.None?);
      if !intervalElapsed && !percentChanged {
        return false;
      }
      lastEmitAt := Some(now);
      if percent.Some? {
        lastPercent := percent;
      }
      emit := true;
    }
  }

  // ---- a whole download ----

  /** A call: how much is downloaded, and when. */
  datatype Call = Call(downloaded: nat, now: nat)

  function EndState(s: State, total: nat, calls: seq<Call>): State
    decreases |calls|
  {
    if calls == [] then s
    else EndState(After(s, Percent(calls[0].downloaded, Some(total)), calls[0].now), total, calls[1..])
  }

  /** How many of the calls emit. */
  function Emitted(s: State, total: nat, calls: seq<Call>): nat
    decreases |calls|
  {
    if calls == [] then 0
    else
      var percent := Percent(calls[0].downloaded, Some(total));
      (if Emits(s, percent, calls[0].now) then 1 else 0)
      + Emitted(After(s, percent, calls[0].now), total, calls[1..])
  }

  /** Neither the bytes nor the clock go back, and no more arrives than there is. */
  ghost predicate Steady(downloaded: nat, now: nat, total: nat, calls: seq<Call>)
    decreases |calls|
  {
    calls != [] ==>
      && downloaded <= calls[0].downloaded <= total && now <= calls[0].now
      && Steady(calls[0].downloaded, calls[0].now, total, calls[1..])
  }

  lemma PercentRises(a: nat, b: nat, total: nat)
    requires a <= b <= total && total > 0
    ensures Percent(a, Some(total)).value <= Percent(b, Some(total)).value <= 100
  {
    MulRises(a, b, total);
    DivRises(SaturatingMul(a, 100), SaturatingMul(b, 100), total);
    DivRises(SaturatingMul(b, 100), total * 100, total);
    Hundred(total);
  }

  lemma MulRises(a: nat, b: nat, total: nat)
    requires a <= b <= total
    ensures SaturatingMul(a, 100) <= SaturatingMul(b, 100) <= total * 100
  {
  }

  lemma Hundred(total: nat)
    requires total > 0
    ensures total * 100 / total == 100
  {
  }

  lemma DivRises(x: nat, y: nat, d: nat)
    requires x <= y && d > 0
    ensures x / d <= y / d
  {
    assert x == x / d * d + x % d && y == y / d * d + y % d;
    assert (y / d + 1) * d == y / d * d + d;
    MulLess(x / d, y / d + 1, d);
  }

  lemma {:induction false} MulLess(a: nat, b: nat, d: nat)
    requires a * d < b * d
    ensures a < b
    decreases b
  {
    if b <= a {
      MulMono(b, a, d);
      assert false;
    }
  }

  lemma {:induction false} MulMono(a: nat, b: nat, d: nat)
    requires a <= b
    ensures a * d <= b * d
    decreases b
  {
    if a < b {
      MulMono(a, b - 1, d);
      assert b * d == (b - 1) * d + d;
    }
  }

  /** How many percents the last event has passed, 0 included. */
  function Spent(s: State): nat {
    if s.lastPercent.Some? then s.lastPercent.value + 1 else 0
  }

  ghost predicate Behind(s: State, downloaded: nat, now: nat, total: nat)
    requires total > 0
  {
    && (s.lastEmitAt.None? <==> s.lastPercent.None?)
    && (s.lastEmitAt.Some? ==> s.lastEmitAt.value <= now)
    && (s.lastPercent.Some? ==> s.lastPercent.value <= Percent(downloaded, Some(total)).value)
  }

  lemma OneCall(s: State, downloaded: nat, now: nat, total: nat, call: Call)
    requires 0 < total && downloaded <= call.downloaded <= total && now <= call.now && Behind(s, downloaded, now, total)
    ensures var percent := Percent(call.downloaded, Some(total));
            var t := After(s, percent, call.now);
            && Behind(t, call.downloaded, call.now, total)
            && Spent(s) <= Spent(t) <= 101
            && (s.lastEmitAt.Some? ==> t.lastEmitAt.Some? && s.lastEmitAt.value <= t.lastEmitAt.value)
            && (Emits(s, percent, call.now) ==>
                 Spent(t) > Spent(s) || (s.lastEmitAt.Some? && t.lastEmitAt.value >= s.lastEmitAt.value + MIN_INTERVAL))
  {
    PercentRises(downloaded, call.downloaded, total);
  }

  /** Milliseconds between the last events of two states. */
  function Between(s: State, t: State): nat {
    if s.lastEmitAt.Some? && t.lastEmitAt.Some? && t.lastEmitAt.value > s.lastEmitAt.value
    then t.lastEmitAt.value - s.lastEmitAt.value else 0
  }

  /** Every event is paid for: by a percent, once each, or by an interval. */
  lemma {:induction false} EveryEventIsPaid(s: State, downloaded: nat, now: nat, total: nat, calls: seq<Call>)
    requires 0 < total && Behind(s, downloaded, now, total) && s.lastEmitAt.Some? && Spent(s) <= 101
    requires Steady(downloaded, now, total, calls)
    ensures var t := EndState(s, total, calls);
            && t.lastEmitAt.Some? && s.lastEmitAt.value <= t.lastEmitAt.value && Spent(s) <= Spent(t) <= 101
            && MIN_INTERVAL * Emitted(s, total, calls) <= MIN_INTERVAL * (Spent(t) - Spent(s)) + Between(s, t)
            && (calls != [] ==> t.lastEmitAt.value <= calls[|calls| - 1].now || t.lastEmitAt == s.lastEmitAt)
    decreases |calls|
  {
    if calls != [] {
      var call := calls[0];
      OneCall(s, downloaded, now, total, call);
      var next := After(s, Percent(call.downloaded, Some(total)), call.now);
      EveryEventIsPaid(next, call.downloaded, call.now, total, calls[1..]);
      LastIsLatest(call.downloaded, call.now, total, calls[1..]);
    }
  }

  lemma {:induction false} LastIsLatest(downloaded: nat, now: nat, total: nat, calls: seq<Call>)
    requires Steady(downloaded, now, total, calls)
    ensures calls != [] ==> now <= calls[|calls| - 1].now
    decreases |calls|
  {
    if calls != [] {
      LastIsLatest(calls[0].downloaded, calls[0].now, total, calls[1..]);
    }
  }

  /** A whole download emits at most 101 events and one for each interval it lasts. */
  lemma BoundedEvents(total: nat, calls: seq<Call>)
    requires 0 < total && calls != [] && Steady(0, 0, total, calls)
    ensures Emitted(NEW, total, calls) <= 101 + (calls[|calls| - 1].now - calls[0].now) / MIN_INTERVAL
  {
    var first := calls[0];
    OneCall(NEW, 0, 0, total, first);
    var s := After(NEW, Percent(first.downloaded, Some(total)), first.now);
    EveryEventIsPaid(s, first.downloaded, first.now, total, calls[1..]);
    LastIsLatest(first.downloaded, first.now, total, calls[1..]);
    var t := EndState(s, total, calls[1..]);
    var span := calls[|calls| - 1].now - first.now;
    assert Between(s, t) <= span;
  }

  // ---- call by call ----

  /** The percent is that of the bytes, rounded down, where 100 times the bytes is at most what 64 bits
      hold; without a total, or with a total of 0, there is none. */
  lemma PercentExactly(downloaded: nat, total: nat)
    ensures var p := Percent(downloaded, Some(total));
            var most := 0xFFFF_FFFF_FFFF_FFFF;
            var hundredfold := if 100 * downloaded <= most then 100 * downloaded else most;
            && (p.Some? <==> total > 0)
            && (p.Some? ==> p.value * total <= hundredfold < (p.value + 1) * total)
    ensures Percent(downloaded, None).None?
  {
    if total > 0 {
      var x := SaturatingMul(downloaded, 100);
      assert x == x / total * total + x % total;
      assert (x / total + 1) * total == x / total * total + total;
    }
  }

  /** A call with the total it is told. */
  datatype Chunk = Chunk(downloaded: nat, total: Option<nat>, now: nat)

  /** The throttle after some calls. */
  function StateAfter(calls: seq<Chunk>): State {
    if calls == [] then NEW
    else
      var n := |calls| - 1;
      After(StateAfter(calls[..n]), Percent(calls[n].downloaded, calls[n].total), calls[n].now)
  }

  function PercentAt(calls: seq<Chunk>, k: nat): Option<nat>
    requires k < |calls|
  {
    Percent(calls[k].downloaded, calls[k].total)
  }

  /** Whether call `k` emits. */
  predicate EmitsAt(calls: seq<Chunk>, k: nat)
    requires k < |calls|
  {
    Emits(StateAfter(calls[..k]), PercentAt(calls, k), calls[k].now)
  }

  /** `j` is the last call before `k` that emitted. */
  ghost predicate LastEvent(calls: seq<Chunk>, j: nat, k: nat)
    requires k <= |calls|
  {
    j < k && EmitsAt(calls, j) && forall i | j < i < k :: !EmitsAt(calls, i)
  }

  /** `j` is the last call before `k` that emitted with a percent known. */
  ghost predicate LastKnown(calls: seq<Chunk>, j: nat, k: nat)
    requires k <= |calls|
  {
    && j < k && EmitsAt(calls, j) && PercentAt(calls, j).Some?
    && forall i | j < i < k && EmitsAt(calls, i) :: PercentAt(calls, i).None?
  }

  /** What the throttle remembers: when it last emitted, and the last percent it emitted. */
  ghost predicate RemembersWhen(calls: seq<Chunk>, k: nat, at: Option<nat>)
    requires k <= |calls|
  {
    match at
    case None => forall j | 0 <= j < k :: !EmitsAt(calls, j)
    case Some(now) => exists j :: 0 <= j < k && LastEvent(calls, j, k) && calls[j].now == now
  }

  ghost predicate RemembersPercent(calls: seq<Chunk>, k: nat, percent: Option<nat>)
    requires k <= |calls|
  {
    match percent
    case None => forall j | 0 <= j < k && EmitsAt(calls, j) :: PercentAt(calls, j).None?
    case Some(p) => exists j :: 0 <= j < k && LastKnown(calls, j, k) && PercentAt(calls, j) == Some(p)
  }

  lemma NextState(calls: seq<Chunk>, k: nat)
    requires k < |calls|
    ensures var s, t := StateAfter(calls[..k]), StateAfter(calls[..k + 1]);
            && t.lastEmitAt == (if EmitsAt(calls, k) then Some(calls[k].now) else s.lastEmitAt)
            && t.lastPercent ==
               (if EmitsAt(calls, k) && PercentAt(calls, k).Some? then PercentAt(calls, k) else s.lastPercent)
  {
    assert calls[..k + 1][..k] == calls[..k];
  }

  lemma WhenKept(calls: seq<Chunk>, k: nat, at: Option<nat>)
    requires k < |calls| && RemembersWhen(calls, k, at)
    ensures RemembersWhen(calls, k + 1, if EmitsAt(calls, k) then Some(calls[k].now) else at)
  {
    if EmitsAt(calls, k) {
      assert LastEvent(calls, k, k + 1);
    } else if at.Some? {
      var j :| 0 <= j < k && LastEvent(calls, j, k) && calls[j].now == at.value;
      assert LastEvent(calls, j, k + 1);
    }
  }

  lemma PercentKept(calls: seq<Chunk>, k: nat, percent: Option<nat>)
    requires k < |calls| && RemembersPercent(calls, k, percent)
    ensures RemembersPercent(calls, k + 1,
                             if EmitsAt(calls, k) && PercentAt(calls, k).Some? then PercentAt(calls, k) else percent)
  {
    if EmitsAt(calls, k) && PercentAt(calls, k).Some? {
      assert LastKnown(calls, k, k + 1);
    } else if percent.Some? {
      var j :| 0 <= j < k && LastKnown(calls, j, k) && PercentAt(calls, j) == percent;
      assert LastKnown(calls, j, k + 1);
    }
  }

  lemma {:induction false} AlwaysWhen(calls: seq<Chunk>, k: nat)
    requires k <= |calls|
    ensures RemembersWhen(calls, k, StateAfter(calls[..k]).lastEmitAt)
  {
    if k > 0 {
      AlwaysWhen(calls, k - 1);
      NextState(calls, k - 1);
      WhenKept(calls, k - 1, StateAfter(calls[..k - 1]).lastEmitAt);
    }
  }

  lemma {:induction false} AlwaysPercent(calls: seq<Chunk>, k: nat)
    requires k <= |calls|
    ensures RemembersPercent(calls, k, StateAfter(calls[..k]).lastPercent)
  {
    if k > 0 {
      AlwaysPercent(calls, k - 1);
      NextState(calls, k - 1);
      PercentKept(calls, k - 1, StateAfter(calls[..k - 1]).lastPercent);
    }
  }

  /** Exactly which calls emit: one before which none has, one 150 ms or more after the
      last that did, and one whose percent is known and is not that of the last with one. */
  lemma EmitsExactly(calls: seq<Chunk>, k: nat)
    requires k < |calls|
    ensures EmitsAt(calls, k) <==>
            || (forall j | 0 <= j < k :: !EmitsAt(calls, j))
            || (exists j :: 0 <= j < k && LastEvent(calls, j, k) && calls[k].now - calls[j].now >= 150)
            || (PercentAt(calls, k).Some? &&
                forall j | 0 <= j < k && LastKnown(calls, j, k) ::
                  PercentAt(calls, j) != PercentAt(calls, k))
  {
    AlwaysWhen(calls, k);
    AlwaysPercent(calls, k);
    forall i, j | 0 <= i < k && 0 <= j < k && LastEvent(calls, i, k) && LastEvent(calls, j, k)
      ensures i == j
    {
    }
    forall i, j | 0 <= i < k && 0 <= j < k && LastKnown(calls, i, k) && LastKnown(calls, j, k)
      ensures i == j
    {
    }
  }
}
