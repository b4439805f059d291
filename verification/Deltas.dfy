/** The counter state kept between rounds and the changes reported from it
    (internal/activity/activity.go, Deltas). Counters are 64-bit integers, as the helper
    printed them; instants are real seconds. */
module Deltas {
  import opened Common

  const MAX_DELTA_SECONDS := 600.0
  const MAX_INT64 := 0x7fff_ffff_ffff_ffff
  const MIN_INT64 := -0x8000_0000_0000_0000

  type Int64 = n: int | MIN_INT64 <= n <= MAX_INT64

  /** ActiveOpens, PassiveOpens, AttemptFails, EstabResets, UDP in, UDP out. */
  type Counters = c: seq<Int64> | |c| == 6 witness [0, 0, 0, 0, 0, 0]

  datatype Reading = Reading(netns: string, snmp: Counters, at: real)

  /** 64-bit subtraction. */
  function Minus(a: Int64, b: Int64): (r: Int64)
    ensures r == a - b || r == a - b - 0x1_0000_0000_0000_0000 || r == a - b + 0x1_0000_0000_0000_0000
  {
    if a - b > MAX_INT64 then a - b - 0x1_0000_0000_0000_0000
    else if a - b < MIN_INT64 then a - b + 0x1_0000_0000_0000_0000
    else a - b
  }

  /** The delta fields of a sample; None is unknown. */
  datatype Report = Report(counts: seq<Option<Int64>>, seconds: Option<real>)

  const NOTHING := Report([None, None, None, None, None, None], None)

  /** Whether a reading can be set against the one kept. */
  predicate Comparable(prev: Option<Reading>, netns: string, counters: Option<Counters>, now: real) {
    && prev.Some? && counters.Some? && netns != "" && prev.value.netns == netns
    && 0.0 <= now - prev.value.at <= MAX_DELTA_SECONDS
    && (forall i :: 0 <= i < 4 ==> counters.value[i] >= prev.value.snmp[i])
  }

  /** One counter's change: a UDP counter that could not be read, or went back, has none. */
  function Change(i: nat, current: Int64, before: Int64): Option<Int64> {
    if i >= 4 && (current < 0 || before < 0 || current < before) then None else Some(Minus(current, before))
  }

  function Changes(current: Counters, before: Counters): seq<Option<Int64>> {
    seq(6, i requires 0 <= i < 6 => Change(i, current[i], before[i]))
  }

  function Tenths(x: real): real {
    (x * 10.0 + 0.5).Floor as real / 10.0
  }

  function Reported(prev: Option<Reading>, netns: string, counters: Option<Counters>, now: real): Report {
    if Comparable(prev, netns, counters, now)
    then Report(Changes(counters.value, prev.value.snmp), Some(Tenths(now - prev.value.at)))
    else NOTHING
  }

  // ---------------------------------------------------------------------
  // The source's object.
  // ---------------------------------------------------------------------

  datatype Event =
    | Read(owner: string, netns: string, counters: Option<Counters>, now: real)
    | Forget(owner: string)
    | Keep(live: set<string>)
    | Reset

  /** A reading worth keeping: counters, and a namespace to hold them against. */
  predicate Usable(e: Event) {
    e.Read? && e.counters.Some? && e.netns != ""
  }

  function After(prev: map<string, Reading>, e: Event): map<string, Reading> {
    match e
    case Read(owner, netns, counters, now) =>
      if Usable(e) then prev[owner := Reading(netns, counters.value, now)] else prev - {owner}
    case Forget(owner) => prev - {owner}
    case Keep(live) => map k | k in prev && k in live :: prev[k]
    case Reset => map[]
  }

  function Previous(prev: map<string, Reading>, owner: string): Option<Reading> {
    if owner in prev then Some(prev[owner]) else None
  }

  class Sample {
    var counts: seq<Option<Int64>>
    var seconds: Option<real>

    constructor ()
      ensures Report(counts, seconds) == NOTHING
    {
      counts, seconds := [None, None, None, None, None, None], None;
    }
  }

  class State {
    var prev: map<string, Reading>

    constructor ()
      ensures prev == map[]
    {
      prev := map[];
    }

    method Forget(owner: string)
      modifies this
      ensures prev == After(old(prev), Event.Forget(owner))
    {
      prev := prev - {owner};
    }

    method Reset()
      modifies this
      ensures prev == After(old(prev), Event.Reset)
    {
      prev := map[];
    }

    method Keep(live: set<string>)
      modifies this
      ensures prev == After(old(prev), Event.Keep(live))
    {
      var left := prev.Keys;
      ghost var before := prev;
      while left != {}
        invariant left <= before.Keys && prev.Keys <= before.Keys
        invariant forall k :: k in prev ==> prev[k] == before[k]
        invariant forall k :: k in before ==> (k in prev <==> k in live || k in left)
        decreases left
      {
        var k :| k in left;
        left := left - {k};
        if k !in live {
          prev := prev - {k};
        }
      }
    }

    /** Apply, writing its result through the sample it is given. */
    method Apply(owner: string, netns: string, counters: Option<Counters>, now: real, s: Sample)
      requires Report(s.counts, s.seconds) == NOTHING
      modifies this, s
      ensures Report(s.counts, s.seconds) == Reported(Previous(old(prev), owner), netns, counters, now)
      ensures prev == After(old(prev), Read(owner, netns, counters, now))
    {
      if owner in prev && counters.Some? && netns != "" {
        var p, current := prev[owner], counters.value;
        if p.netns == netns && 0.0 <= now - p.at <= MAX_DELTA_SECONDS {
          var back := false;
          for i := 0 to 4
            invariant back <==> exists j :: 0 <= j < i && current[j] < p.snmp[j]
          {
            if current[i] < p.snmp[i] {
              back := true;
            }
          }
          if !back {
            var counts: seq<Option<Int64>> := NOTHING.counts;
            for i := 0 to 6
              invariant |counts| == 6
              invariant forall j :: 0 <= j < i ==> counts[j] == Change(j, current[j], p.snmp[j])
              invariant forall j :: i <= j < 6 ==> counts[j] == None
            {
              var c, o := current[i], p.snmp[i];
              if i >= 4 && (c < 0 || o < 0 || c < o) {
                continue;
              }
              counts := counts[i := Some(Minus(c, o))];
            }
            assert counts == Changes(current, p.snmp);
            s.counts := counts;
            s.seconds := Some(((now - p.at) * 10.0 + 0.5).Floor as real / 10.0);
          }
        }
      }
      if counters.Some? && netns != "" {
        prev := prev[owner := Reading(netns, counters.value, now)];
      } else {
        prev := prev - {owner};
      }
    }
  }

  // ---------------------------------------------------------------------
  // The state refines a log of readings.
  // ---------------------------------------------------------------------

  predicate Touches(e: Event, owner: string) {
    match e
    case Read(o, _, _, _) => o == owner
    case Forget(o) => o == owner
    case Keep(live) => owner !in live
    case Reset => true
  }

  function ReadingOf(e: Event): Reading
    requires Usable(e)
  {
    Reading(e.netns, e.counters.value, e.now)
  }

  /** The reading of `owner` the first `n` events leave standing: the last event that
      concerns it, when that is a usable reading. */
  function LastReading(log: seq<Event>, n: nat, owner: string): Option<Reading>
    requires n <= |log|
  {
    if n == 0 then None
    else if !Touches(log[n - 1], owner) then LastReading(log, n - 1, owner)
    else if Usable(log[n - 1]) then Some(ReadingOf(log[n - 1]))
    else None
  }

  function Run(log: seq<Event>, n: nat): map<string, Reading>
    requires n <= |log|
  {
    if n == 0 then map[] else After(Run(log, n - 1), log[n - 1])
  }

  /** The map and the log never disagree about any namespace. */
  lemma {:induction false} StateRefinesLog(log: seq<Event>, n: nat, owner: string)
    requires n <= |log|
    ensures Previous(Run(log, n), owner) == LastReading(log, n, owner)
  {
    if n > 0 {
      StateRefinesLog(log, n - 1, owner);
    }
  }

  /** A reading stands exactly when nothing that concerns its namespace came after it. */
  lemma {:induction false} LastReadingStands(log: seq<Event>, n: nat, owner: string, p: Reading)
    requires n <= |log|
    ensures LastReading(log, n, owner) == Some(p) <==>
      exists i :: 0 <= i < n && Stands(log, i, n, owner, p)
  {
    if n > 0 {
      LastReadingStands(log, n - 1, owner, p);
      var e := log[n - 1];
      if Touches(e, owner) {
        if Usable(e) && ReadingOf(e) == p {
          assert Stands(log, n - 1, n, owner, p);
        }
      } else if LastReading(log, n - 1, owner) == Some(p) {
        var i :| 0 <= i < n - 1 && Stands(log, i, n - 1, owner, p);
        assert Stands(log, i, n, owner, p);
      } else if i :| 0 <= i < n && Stands(log, i, n, owner, p) {
        assert i < n - 1 && Stands(log, i, n - 1, owner, p);
      }
    }
  }

  ghost predicate Stands(log: seq<Event>, i: nat, n: nat, owner: string, p: Reading)
    requires i < n <= |log|
  {
    && Usable(log[i]) && log[i].owner == owner && ReadingOf(log[i]) == p
    && forall k :: i < k < n ==> !Touches(log[k], owner)
  }

  /** What the event at `k` reports, when it is a reading. */
  function ReportAt(log: seq<Event>, k: nat): Report
    requires k < |log|
  {
    if !log[k].Read? then NOTHING
    else Reported(LastReading(log, k, log[k].owner), log[k].netns, log[k].counters, log[k].now)
  }

  /** EVERY DELTA IS A DIFFERENCE OF NEIGHBOURS. What a round reports for a namespace is the
      difference to the reading of the same owner and the same namespace right before it,
      with nothing dropped in between; the counters never go back. */
  lemma DeltaIsNeighbourDifference(log: seq<Event>, k: nat, j: nat)
    requires k < |log| && j < 6 && ReportAt(log, k).counts[j].Some?
    ensures Usable(log[k])
    ensures exists i ::
      && 0 <= i < k && Usable(log[i])
      && Stands(log, i, k, log[k].owner, ReadingOf(log[i]))
      && log[i].netns == log[k].netns
      && log[k].counters.value[j] >= log[i].counters.value[j]
      && ReportAt(log, k).counts[j].value == Minus(log[k].counters.value[j], log[i].counters.value[j])
  {
    var owner := log[k].owner;
    var p := LastReading(log, k, owner).value;
    LastReadingStands(log, k, owner, p);
    var i :| 0 <= i < k && Stands(log, i, k, owner, p);
    assert log[k].counters.value[j] >= log[i].counters.value[j];
  }

  /** The reading at `i` is the one right before that at `k`: of the same owner and the same
      namespace, at most ten minutes old, with no TCP counter gone back since. */
  ghost predicate Neighbour(log: seq<Event>, i: nat, k: nat) {
    && i < k < |log| && log[i].Read? && log[k].Read? && log[i].owner == log[k].owner
    && log[i].counters.Some? && log[k].counters.Some? && log[i].netns == log[k].netns != ""
    && (forall j :: i < j < k ==> !Touches(log[j], log[k].owner))
    && 0.0 <= log[k].now - log[i].now <= 600.0
    && forall c :: 0 <= c < 4 ==> log[i].counters.value[c] <= log[k].counters.value[c]
  }

  lemma NeighbourStands(log: seq<Event>, i: nat, k: nat)
    requires k < |log| && log[k].Read?
    ensures Neighbour(log, i, k) <==> i < k && Usable(log[i]) && Stands(log, i, k, log[k].owner, ReadingOf(log[i]))
                                      && Comparable(Some(ReadingOf(log[i])), log[k].netns, log[k].counters, log[k].now)
  {
  }

  /** A round reports exactly when there is such a neighbour; a UDP counter, in addition, only
      when both readings have it and it did not go back. */
  lemma ReportedExactly(log: seq<Event>, k: nat, j: nat)
    requires k < |log| && log[k].Read? && j < 6
    ensures ReportAt(log, k).seconds.Some? <==> exists i: nat :: Neighbour(log, i, k)
    ensures ReportAt(log, k).counts[j].Some?
       <==> exists i: nat :: Neighbour(log, i, k) && (j < 4 || 0 <= log[i].counters.value[j] <= log[k].counters.value[j])
  {
    var owner, last := log[k].owner, LastReading(log, k, log[k].owner);
    if last.Some? {
      LastReadingStands(log, k, owner, last.value);
      var i :| 0 <= i < k && Stands(log, i, k, owner, last.value);
      NeighbourStands(log, i, k);
    }
    forall i: nat | Neighbour(log, i, k)
      ensures last == Some(ReadingOf(log[i])) && Comparable(last, log[k].netns, log[k].counters, log[k].now)
    {
      NeighbourStands(log, i, k);
      LastReadingStands(log, k, owner, ReadingOf(log[i]));
    }
  }

  /** The seconds reported are the time since the neighbour, to the nearest tenth. */
  lemma SecondsAreTenths(log: seq<Event>, i: nat, k: nat) returns (tenths: int)
    requires Neighbour(log, i, k)
    ensures ReportAt(log, k).seconds == Some(tenths as real / 10.0)
    ensures tenths as real - 0.5 <= (log[k].now - log[i].now) * 10.0 < tenths as real + 0.5
  {
    NeighbourStands(log, i, k);
    LastReadingStands(log, k, log[k].owner, ReadingOf(log[i]));
    tenths := ((log[k].now - log[i].now) * 10.0 + 0.5).Floor;
  }

  /** The 64-bit difference of a counter that did not go back is the true one exactly when
      the true one fits; otherwise it is negative. Counters the kernel can show, which are
      never negative, always fit. */
  lemma DifferenceFits(current: Int64, before: Int64)
    requires current >= before
    ensures Minus(current, before) == current - before <==> current - before <= MAX_INT64
    ensures Minus(current, before) >= 0 <==> current - before <= MAX_INT64
    ensures before >= 0 ==> Minus(current, before) == current - before
  {
  }

  /** The sum of what the events from `m` to `n` report for one counter of one owner. */
  function Sum(log: seq<Event>, m: nat, n: nat, owner: string, j: nat): int
    requires m <= n <= |log| && j < 6
    decreases n
  {
    if n == m then 0
    else
      Sum(log, m, n - 1, owner, j)
      + if log[n - 1].Read? && log[n - 1].owner == owner && ReportAt(log, n - 1).counts[j].Some?
        then ReportAt(log, n - 1).counts[j].value
        else 0
  }

  /** From `m` to `n` the owner is only ever read, each time with a report of counter `j`. */
  ghost predicate Uninterrupted(log: seq<Event>, m: nat, n: nat, owner: string, j: nat)
    requires m <= n <= |log| && j < 6
  {
    forall k :: m <= k < n && Touches(log[k], owner) ==>
      && Usable(log[k])
      && ReportAt(log, k).counts[j].Some?
      && LastReading(log, k, owner).value.snmp[j] >= 0
  }

  /** An uninterrupted stretch telescopes: its reports add up to last minus first. */
  lemma {:induction false} ReportsTelescope(log: seq<Event>, m: nat, n: nat, owner: string, j: nat)
    requires m <= n <= |log| && j < 6
    requires LastReading(log, m, owner).Some? && Uninterrupted(log, m, n, owner, j)
    ensures LastReading(log, n, owner).Some?
    ensures Sum(log, m, n, owner, j)
         == LastReading(log, n, owner).value.snmp[j] as int - LastReading(log, m, owner).value.snmp[j] as int
    decreases n
  {
    if n > m {
      ReportsTelescope(log, m, n - 1, owner, j);
      if Touches(log[n - 1], owner) {
        DifferenceFits(log[n - 1].counters.value[j], LastReading(log, n - 1, owner).value.snmp[j]);
      }
    }
  }
}
