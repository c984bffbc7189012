/** The windowed-minimum round-trip estimator (rtt.rs), proved against the whole sample history. */
module Rtt {
  import opened Prelude

  /** Times and durations in nanoseconds. */
  datatype Sample = Sample(at: nat, rtt: nat)

  const MAX_SAMPLES := 8
  const MAX_AGE := 5 * 60 * 1_000_000_000

  predicate Fresh(s: Sample, now: nat) {
    now < s.at + MAX_AGE
  }

  function FreshOf(samples: seq<Sample>, now: nat): seq<Sample> {
    if samples == [] then []
    else
      var last := samples[|samples| - 1];
      FreshOf(samples[..|samples| - 1], now) + if Fresh(last, now) then [last] else []
  }

  ghost predicate Ordered(history: seq<Sample>) {
    forall i, j | 0 <= i <= j < |history| :: history[i].at <= history[j].at
  }

  function LastOf(samples: seq<Sample>, n: nat): seq<Sample> {
    if |samples| <= n then samples else samples[|samples| - n..]
  }

  /** What the estimator must remember of a history: the last 8 of the samples fresh at the latest one. */
  function Window(history: seq<Sample>): seq<Sample> {
    if history == [] then [] else LastOf(FreshOf(history, history[|history| - 1].at), MAX_SAMPLES)
  }

  ghost predicate IsMinimum(m: nat, samples: seq<Sample>) {
    (exists i | 0 <= i < |samples| :: samples[i].rtt == m) && forall i | 0 <= i < |samples| :: m <= samples[i].rtt
  }

  /**
   What an estimate means: the least round trip of the remembered samples still fresh, or of all of them if
   none is.
   */
  ghost predicate Estimates(e: Option<nat>, history: seq<Sample>, now: nat) {
    var young := FreshOf(Window(history), now);
    if history == [] then e == None
    else e.Some? && IsMinimum(e.value, if young != [] then young else Window(history))
  }

  lemma FreshAppend(samples: seq<Sample>, s: Sample, now: nat)
    ensures FreshOf(samples + [s], now) == FreshOf(samples, now) + if Fresh(s, now) then [s] else []
  {
    assert (samples + [s])[..|samples|] == samples;
  }

  lemma {:induction false} FreshOfFresh(samples: seq<Sample>, now: nat)
    requires forall i | 0 <= i < |samples| :: Fresh(samples[i], now)
    ensures FreshOf(samples, now) == samples
  {
    if samples != [] {
      FreshOfFresh(samples[..|samples| - 1], now);
    }
  }

  lemma {:induction false} FreshOfStale(samples: seq<Sample>, now: nat)
    requires forall i | 0 <= i < |samples| :: !Fresh(samples[i], now)
    ensures FreshOf(samples, now) == []
  {
    if samples != [] {
      FreshOfStale(samples[..|samples| - 1], now);
    }
  }

  /** If the samples before `k` are stale and the others fresh, filtering keeps the latter. */
  lemma {:induction false} FreshFrom(samples: seq<Sample>, k: nat, now: nat)
    requires k <= |samples|
    requires forall i | 0 <= i < |samples| :: Fresh(samples[i], now) <==> i >= k
    ensures FreshOf(samples, now) == samples[k..]
  {
    if k == |samples| {
      FreshOfStale(samples, now);
    } else {
      var n := |samples| - 1;
      FreshFrom(samples[..n], k, now);
      assert samples[..n][k..] + [samples[n]] == samples[k..];
    }
  }

  /** In a history ordered in time there is a first fresh sample, and all later ones are fresh. */
  lemma {:induction false} FirstFresh(history: seq<Sample>, now: nat) returns (k: nat)
    requires Ordered(history)
    ensures k <= |history| && forall i | 0 <= i < |history| :: Fresh(history[i], now) <==> i >= k
  {
    if history == [] {
      k := 0;
    } else {
      var n := |history| - 1;
      k := FirstFresh(history[..n], now);
      if !Fresh(history[n], now) {
        assert forall i | 0 <= i < n :: history[..n][i].at <= history[n].at;
        k := n + 1;
      } else {
        assert forall i | 0 <= i < n :: Fresh(history[..n][i], now) <==> i >= k;
      }
    }
  }

  /** The estimator's contents are the history from some point on. */
  lemma WindowFrom(history: seq<Sample>, k: nat, now: nat)
    requires history != [] && history[|history| - 1].at == now && k <= |history|
    requires forall i | 0 <= i < |history| :: Fresh(history[i], now) <==> i >= k
    ensures Window(history) == history[if |history| - k <= MAX_SAMPLES then k else |history| - MAX_SAMPLES..]
  {
    FreshFrom(history, k, now);
  }

  function Observed(samples: seq<Sample>, s: Sample): seq<Sample> {
    var kept := FreshOf(samples, s.at);
    (if |kept| == MAX_SAMPLES then kept[1..] else kept) + [s]
  }

  lemma KeptFrom(history: seq<Sample>, j: nat, k: nat, now: nat)
    requires j <= |history| && k <= |history|
    requires forall i | 0 <= i < |history| :: Fresh(history[i], now) <==> i >= k
    ensures FreshOf(history[j..], now) == history[if k <= j then j else k..]
  {
    var d := if k <= j then 0 else k - j;
    FreshFrom(history[j..], d, now);
  }

  lemma FirstObservation(s: Sample)
    ensures Observed(Window([]), s) == Window([s])
  {
    WindowFrom([s], 0, s.at);
  }

  /** Time has only made samples older. */
  lemma StaleStaysStale(history: seq<Sample>, before: nat, k: nat, now: nat, k': nat)
    requires before <= now && k <= |history| && k' <= |history|
    requires forall i | 0 <= i < |history| :: Fresh(history[i], before) <==> i >= k
    requires forall i | 0 <= i < |history| :: Fresh(history[i], now) <==> i >= k'
    ensures k <= k'
  {
    assert k' < |history| ==> Fresh(history[k'], now) ==> Fresh(history[k'], before);
  }

  lemma WindowAppend(history: seq<Sample>, s: Sample, k: nat)
    requires k <= |history|
    requires forall i | 0 <= i < |history| :: Fresh(history[i], s.at) <==> i >= k
    ensures Window(history + [s]) ==
            (history + [s])[if |history| + 1 - k <= MAX_SAMPLES then k else |history| + 1 - MAX_SAMPLES..]
  {
    WindowFrom(history + [s], k, s.at);
  }

  /** Observing a sample moves the window of the history to the window of the longer history. */
  lemma ObserveMovesWindow(history: seq<Sample>, s: Sample)
    requires Ordered(history + [s])
    ensures Observed(Window(history), s) == Window(history + [s])
  {
    hide FreshOf, Window, Fresh;
    var n, longer := |history|, history + [s];
    if n == 0 {
      FirstObservation(s);
      assert history == [] && longer == [s];
    } else {
      var before := history[n - 1].at;
      forall i, j | 0 <= i <= j < n ensures history[i].at <= history[j].at {
        assert longer[i].at <= longer[j].at;
      }
      assert before <= s.at by { assert longer[n - 1].at <= longer[n].at; }
      var k := FirstFresh(history, before);
      var k' := FirstFresh(history, s.at);
      StaleStaysStale(history, before, k, s.at, k');
      var j := if n - k <= MAX_SAMPLES then k else n - MAX_SAMPLES;
      WindowFrom(history, k, before);
      KeptFrom(history, j, k', s.at);
      WindowAppend(history, s, k');
      SlideWindow(history, s, if k' <= j then j else k', k');
    }
  }

  /** Dropping the eldest of 8 and adding one is the same as adding one and keeping the last 8. */
  lemma SlideWindow(history: seq<Sample>, s: Sample, from: nat, k: nat)
    requires k <= |history| && from == (if |history| - k <= MAX_SAMPLES then k else |history| - MAX_SAMPLES)
    ensures var kept := history[from..];
            (if |kept| == MAX_SAMPLES then kept[1..] else kept) + [s] ==
            (history + [s])[if |history| + 1 - k <= MAX_SAMPLES then k else |history| + 1 - MAX_SAMPLES..]
  {
  }

  class RttEstimator {
    var samples: seq<Sample>
    ghost var history: seq<Sample>

    /** What is remembered is the window of everything ever observed. */
    ghost predicate Valid()
      reads this
    {
      Ordered(history) && samples == Window(history)
    }

    constructor ()
      ensures Valid() && history == []
    {
      samples, history := [], [];
    }

    method Observe(now: nat, rtt: nat)
      requires Valid()
      requires history != [] ==> history[|history| - 1].at <= now
      modifies this
      ensures Valid() && history == old(history) + [Sample(now, rtt)]
    {
      var kept: seq<Sample> := [];
      for i := 0 to |samples|
        invariant samples == old(samples) && kept == FreshOf(samples[..i], now)
      {
        assert samples[..i + 1][..i] == samples[..i];
        if Fresh(samples[i], now) {
          kept := kept + [samples[i]];
        }
      }
      assert samples[..|samples|] == samples;
      samples := kept;
      if |samples| == MAX_SAMPLES {
        samples := samples[1..];
      }
      samples := samples + [Sample(now, rtt)];
      ObserveMovesWindow(history, Sample(now, rtt));
      history := history + [Sample(now, rtt)];
    }

    method Minimum(of: seq<Sample>) returns (m: Option<nat>)
      ensures if of == [] then m == None else m.Some? && IsMinimum(m.value, of)
    {
      if of == [] {
        return None;
      }
      var least, at := of[0].rtt, 0;
      for i := 1 to |of|
        invariant 0 <= at < i && of[at].rtt == least
        invariant forall j | 0 <= j < i :: least <= of[j].rtt
      {
        if of[i].rtt < least {
          least, at := of[i].rtt, i;
        }
      }
      return Some(least);
    }

    method Estimate(now: nat) returns (e: Option<nat>)
      requires Valid()
      ensures Estimates(e, history, now)
    {
      e := Minimum(FreshOf(samples, now));
      if e.None? {
        e := Minimum(samples);
      }
      if history != [] {
        LatestRemembered(history);
      }
    }
  }

  /** The latest sample is always remembered, so there is an estimate ever after the first one. */
  lemma LatestRemembered(history: seq<Sample>)
    requires history != []
    ensures 0 < |Window(history)| <= MAX_SAMPLES
    ensures Window(history)[|Window(history)| - 1] == history[|history| - 1]
  {
    var n := |history| - 1;
    assert history == history[..n] + [history[n]];
    FreshAppend(history[..n], history[n], history[n].at);
  }

  /** What is remembered: the longest run of latest samples that is at most 8 long and all younger than 5 minutes. */
  lemma WindowExactly(history: seq<Sample>) returns (k: nat)
    requires Ordered(history) && history != []
    ensures k < |history| && Window(history) == history[k..] && |Window(history)| <= 8
    ensures forall i | k <= i < |history| :: history[|history| - 1].at - history[i].at < 300_000_000_000
    ensures k == 0 || |Window(history)| == 8 || history[|history| - 1].at - history[k - 1].at >= 300_000_000_000
  {
    var now := history[|history| - 1].at;
    var first := FirstFresh(history, now);
    WindowFrom(history, first, now);
    k := if |history| - first <= MAX_SAMPLES then first else |history| - MAX_SAMPLES;
    assert Fresh(history[|history| - 1], now);
  }

  /**
   What an estimate is: None exactly before the first sample; the least of those among the last 8 samples
   that are younger than 5 minutes, if the latest one is; else one of the last 8.
   */
  lemma EstimateMeans(e: Option<nat>, history: seq<Sample>, now: nat)
    requires Ordered(history) && Estimates(e, history, now)
    requires history != [] ==> history[|history| - 1].at <= now
    ensures e.None? <==> history == []
    ensures history != [] ==> exists i | 0 <= i < |history| && |history| - 8 <= i :: history[i].rtt == e.value
    ensures history != [] && now - history[|history| - 1].at < 300_000_000_000 ==>
              && (exists i | 0 <= i < |history| && |history| - 8 <= i ::
                    history[i].rtt == e.value && now - history[i].at < 300_000_000_000)
              && (forall i | 0 <= i < |history| && |history| - 8 <= i ::
                    now - history[i].at < 300_000_000_000 ==> e.value <= history[i].rtt)
  {
    hide Window, FreshOf;
    if history != [] {
      var from := Considered(history, now);
      var m :| 0 <= m < |history[from..]| && history[from..][m].rtt == e.value;
      assert history[from + m].rtt == e.value;
      if now - history[|history| - 1].at < 300_000_000_000 {
        forall i | 0 <= i < |history| && |history| - 8 <= i && now - history[i].at < 300_000_000_000
          ensures e.value <= history[i].rtt
        {
          assert history[from..][i - from] == history[i];
        }
      }
    }
  }

  /** Where the samples that an estimate is taken from begin. */
  lemma Considered(history: seq<Sample>, now: nat) returns (from: nat)
    requires Ordered(history) && history != [] && history[|history| - 1].at <= now
    ensures from < |history| && |history| - 8 <= from
    ensures var young := FreshOf(Window(history), now);
            (if young != [] then young else Window(history)) == history[from..]
    ensures now - history[|history| - 1].at < 300_000_000_000 ==>
              forall i | 0 <= i < |history| && |history| - 8 <= i ::
                i >= from <==> now - history[i].at < 300_000_000_000
  {
    hide Window, FreshOf;
    var k := WindowExactly(history);
    var first := FirstFresh(history, now);
    KeptFrom(history, k, first, now);
    var young := FreshOf(Window(history), now);
    from := if young != [] then Max(k, first) else k;
    assert Fresh(history[|history| - 1], now) ==> first < |history|;
    assert forall i | 0 <= i < k :: history[i].at <= history[k - 1].at;
    assert forall i | 0 <= i < |history| && |history| - 8 <= i && Fresh(history[i], now) :: i >= k;
  }

  function Max(a: nat, b: nat): nat {
    if a < b then b else a
  }
}
