/** Fitting one round's window to its caps (internal/activity/payload.go Fit). */
module RowBudget {
  import opened Grouping

  const MAX_SAMPLES := 64
  const MAX_DESTINATIONS := 400

  function Min(a: int, b: int): int {
    if a < b then a else b
  }

  function Max(a: int, b: int): int {
    if a < b then b else a
  }

  function Size(s: Sample): nat {
    |s.outbound| + |s.inbound|
  }

  /** All rows of the first `n` samples. */
  function Rows(samples: seq<Sample>, n: nat): nat
    requires n <= |samples|
  {
    if n == 0 then 0 else Rows(samples, n - 1) + Size(samples[n - 1])
  }

  /** What is left for sample `n`: the cap less every row before it, whether kept or not. */
  function Left(samples: seq<Sample>, n: nat): nat
    requires n <= |samples|
  {
    if Rows(samples, n) < MAX_DESTINATIONS then MAX_DESTINATIONS - Rows(samples, n) else 0
  }

  /** `kept` is what is left of `was` when only `left` rows fit: its first outbound rows,
      then its first inbound rows, and a mark exactly when a row was lost. */
  ghost predicate Trimmed(kept: Sample, was: Sample, left: nat) {
    && kept.container == was.container && kept.members == was.members && kept.mode == was.mode
    && kept.outbound == was.outbound[..Min(|was.outbound|, left)]
    && kept.inbound == was.inbound[..Min(|was.inbound|, left - |kept.outbound|)]
    && (kept.truncated <==> was.truncated || Size(was) > left)
  }

  ghost predicate FittedAt(kept: seq<Sample>, was: seq<Sample>, i: nat) {
    i < |kept| && i < |was| && Trimmed(kept[i], was[i], Left(was, i))
  }

  /** The window after fitting, said of every sample at once. */
  ghost predicate Fitted(kept: seq<Sample>, was: seq<Sample>) {
    && |kept| == Min(|was|, MAX_SAMPLES)
    && forall i: nat :: i < |kept| ==> FittedAt(kept, was, i)
  }

  class Window {
    var samples: seq<Sample>

    constructor (samples: seq<Sample>)
      ensures this.samples == samples
    {
      this.samples := samples;
    }

    method Fit()
      modifies this
      ensures Fitted(samples, old(samples))
    {
      ghost var was := samples;
      if |samples| > MAX_SAMPLES {
        samples := samples[..MAX_SAMPLES];
      }
      var budget := MAX_DESTINATIONS;
      for i := 0 to |samples|
        invariant |samples| == Min(|was|, MAX_SAMPLES)
        invariant forall k: nat :: k < i ==> FittedAt(samples, was, k)
        invariant forall k: nat :: i <= k < |samples| ==> samples[k] == was[k]
        invariant budget == Left(was, i)
      {
        var s, rest := TrimOne(samples[i], budget);
        ghost var before := samples;
        samples := samples[i := s];
        budget := rest;
        forall k: nat | k <= i
          ensures FittedAt(samples, was, k)
        {
          assert k < i ==> FittedAt(before, was, k);
        }
      }
    }
  }

  /** The body of the loop: one sample against what is left of the budget. */
  method TrimOne(was: Sample, budget: nat) returns (s: Sample, rest: nat)
    ensures Trimmed(s, was, budget)
    ensures rest == if Size(was) < budget then budget - Size(was) else 0
  {
    s := was;
    if |s.outbound| + |s.inbound| > budget {
      if |s.outbound| > budget {
        s := s.(outbound := s.outbound[..budget]);
      }
      s := s.(inbound := s.inbound[..Max(0, Min(|s.inbound|, budget - |s.outbound|))]);
      s := s.(truncated := true);
    }
    rest := budget - (|s.outbound| + |s.inbound|);
  }

  /** The kept rows of every prefix are exactly as many as fit: nothing is dropped while
      there is room, and the whole never exceeds the cap. */
  lemma {:induction false} KeepsWhatFits(kept: seq<Sample>, was: seq<Sample>, n: nat)
    requires Fitted(kept, was) && n <= |kept|
    ensures Rows(kept, n) == Min(MAX_DESTINATIONS, Rows(was, n))
  {
    if n > 0 {
      KeepsWhatFits(kept, was, n - 1);
      assert FittedAt(kept, was, n - 1);
    }
  }

  /** The rows of some samples, one list. */
  ghost function AllRows(samples: seq<Sample>): seq<Row> {
    if samples == [] then []
    else AllRows(samples[..|samples| - 1]) + samples[|samples| - 1].outbound + samples[|samples| - 1].inbound
  }

  lemma {:induction false} RowsAreAll(samples: seq<Sample>, n: nat)
    requires n <= |samples|
    ensures Rows(samples, n) == |AllRows(samples[..n])|
  {
    if n > 0 {
      RowsAreAll(samples, n - 1);
      assert samples[..n][..n - 1] == samples[..n - 1];
    }
  }

  /** At most sixty-four samples with four hundred rows in all stay, and none is dropped
      while there is room. */
  lemma WindowIsBounded(kept: seq<Sample>, was: seq<Sample>)
    requires Fitted(kept, was)
    ensures |kept| == if |was| <= 64 then |was| else 64
    ensures var rows := |AllRows(was[..|kept|])|; |AllRows(kept)| == if rows <= 400 then rows else 400
  {
    KeepsWhatFits(kept, was, |kept|);
    RowsAreAll(kept, |kept|);
    RowsAreAll(was, |kept|);
    assert kept[..|kept|] == kept;
  }

  /** A sample keeps its first rows, an inbound one only with all its outbound ones, and is
      marked exactly when it was before or lost a row. */
  lemma NothingLostInSilence(kept: seq<Sample>, was: seq<Sample>, i: nat)
    requires Fitted(kept, was) && i < |kept|
    ensures
      && kept[i].outbound <= was[i].outbound && kept[i].inbound <= was[i].inbound
      && (kept[i].inbound != [] ==> kept[i].outbound == was[i].outbound)
      && (kept[i].truncated <==>
            was[i].truncated || kept[i].outbound != was[i].outbound || kept[i].inbound != was[i].inbound)
  {
    assert FittedAt(kept, was, i);
  }

  /** Fitting a fitted window changes nothing. */
  lemma {:induction false} FitIsIdempotent(kept: seq<Sample>, was: seq<Sample>, again: seq<Sample>)
    requires Fitted(kept, was) && Fitted(again, kept)
    ensures again == kept
  {
    forall i: nat | i < |kept|
      ensures again[i] == kept[i]
    {
      KeepsWhatFits(kept, was, i);
      assert FittedAt(kept, was, i) && FittedAt(again, kept, i);
    }
  }

  /** No two results meet the specification. */
  lemma {:induction false} FitIsDetermined(one: seq<Sample>, other: seq<Sample>, was: seq<Sample>)
    requires Fitted(one, was) && Fitted(other, was)
    ensures one == other
  {
    forall i: nat | i < |one|
      ensures one[i] == other[i]
    {
      assert FittedAt(one, was, i) && FittedAt(other, was, i);
    }
  }
}
