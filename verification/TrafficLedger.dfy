/** Where every byte of a proxy's traffic ends up: over whole runs of passes, resets and
    edits, what the cap counts is what the tunnels moved (internal/proxies/proxies.go,
    capDelta and Account, with ResetState and CapChange). */
module TrafficLedger {
  import opened Common
  import opened ProxyCap

  /** A complete reading of a tunnel, with the life of the container it was read in.
      The life is what really happened; the code sees only `startedAt`. */
  datatype Obs = Obs(tunnel: string, life: nat, rx: nat, tx: nat, at: int, startedAt: string)

  datatype Sighting = Sighting(traffic: Traffic, life: nat)

  function Moved(o: Obs): nat {
    o.rx + o.tx
  }

  predicate SameLife(a: Obs, b: Obs) {
    a.tunnel == b.tunnel && a.life == b.life
  }

  // ---------------------------------------------------------------------
  // What the tunnels moved: the last reading of every life.
  // ---------------------------------------------------------------------

  predicate ReadAgain(o: Obs, later: seq<Obs>) {
    later != [] && (SameLife(o, later[0]) || ReadAgain(o, later[1..]))
  }

  /** The sum, over every life of every tunnel, of its last-read rx+tx. */
  function Total(h: seq<Obs>): nat {
    if h == [] then 0 else (if ReadAgain(h[0], h[1..]) then 0 else Moved(h[0])) + Total(h[1..])
  }

  /** The last reading of a life. */
  function LastOfLife(h: seq<Obs>, x: Obs): Option<Obs> {
    if h == [] then None
    else
      var later := LastOfLife(h[1..], x);
      if later.Some? then later else if SameLife(h[0], x) then Some(h[0]) else None
  }

  lemma {:induction false} ReadAgainAppend(o: Obs, later: seq<Obs>, x: Obs)
    ensures ReadAgain(o, later + [x]) == (ReadAgain(o, later) || SameLife(o, x))
  {
    if later == [] {
      assert [x][1..] == [] && later + [x] == [x];
    } else {
      assert (later + [x])[1..] == later[1..] + [x];
      ReadAgainAppend(o, later[1..], x);
    }
  }

  lemma {:induction false} LastOfLifeReadAgain(h: seq<Obs>, o: Obs, x: Obs)
    requires SameLife(o, x)
    ensures ReadAgain(o, h) <==> LastOfLife(h, x).Some?
  {
    if h != [] {
      LastOfLifeReadAgain(h[1..], o, x);
    }
  }

  /** A new reading replaces the last one of its life in the total. */
  lemma {:induction false} TotalAppend(h: seq<Obs>, x: Obs)
    ensures
      var last := LastOfLife(h, x);
      Total(h + [x]) + (if last.Some? then Moved(last.value) else 0) == Total(h) + Moved(x)
  {
    if h == [] {
      assert [x][1..] == [] && h + [x] == [x];
    } else {
      assert (h + [x])[1..] == h[1..] + [x];
      TotalAppend(h[1..], x);
      ReadAgainAppend(h[0], h[1..], x);
      if SameLife(h[0], x) {
        LastOfLifeReadAgain(h[1..], h[0], x);
      }
    }
  }

  // ---------------------------------------------------------------------
  // Honest histories.
  // ---------------------------------------------------------------------

  /** What two readings of one tunnel, one after the other, can be: lives follow each
      other, counters only grow within a life, and known start times tell lives apart. */
  predicate HonestPair(a: Obs, b: Obs) {
    a.tunnel == b.tunnel ==>
      && a.life <= b.life
      && (a.life == b.life ==> a.rx <= b.rx && a.tx <= b.tx)
      && (a.startedAt != "" && b.startedAt != "" ==> (a.startedAt == b.startedAt <==> a.life == b.life))
  }

  ghost predicate Honest(h: seq<Obs>) {
    forall i, j :: 0 <= i < j < |h| ==> HonestPair(h[i], h[j])
  }

  /** The last reading of a tunnel among the first `n`. */
  function LastOf(h: seq<Obs>, n: nat, tunnel: string): Option<Obs>
    requires n <= |h|
  {
    if n == 0 then None
    else if h[n - 1].tunnel == tunnel then Some(h[n - 1])
    else LastOf(h, n - 1, tunnel)
  }

  predicate Soon(last: Option<Obs>, x: Obs) {
    last.Some? && last.value.life == x.life ==> x.at - last.value.at / SECOND * SECOND < BASELINE_KEEP
  }

  /** Two readings of a life are never a whole baseline period apart. */
  ghost predicate GapsShort(h: seq<Obs>) {
    forall j: nat :: j < |h| ==> SoonAt(h, j)
  }

  ghost predicate SoonAt(h: seq<Obs>, j: nat) {
    j < |h| && Soon(LastOf(h, j, h[j].tunnel), h[j])
  }

  lemma {:induction false} LastOfPrefix(h: seq<Obs>, more: seq<Obs>, n: nat, tunnel: string)
    requires n <= |h|
    ensures LastOf(h + more, n, tunnel) == LastOf(h, n, tunnel)
  {
    if n > 0 {
      assert (h + more)[n - 1] == h[n - 1];
      LastOfPrefix(h, more, n - 1, tunnel);
    }
  }

  lemma PrefixHonest(h: seq<Obs>, more: seq<Obs>)
    requires Honest(h + more) && GapsShort(h + more)
    ensures Honest(h) && GapsShort(h)
  {
    forall i, j | 0 <= i < j < |h|
      ensures HonestPair(h[i], h[j])
    {
      assert (h + more)[i] == h[i] && (h + more)[j] == h[j];
    }
    forall j: nat | j < |h|
      ensures SoonAt(h, j)
    {
      assert SoonAt(h + more, j) && (h + more)[j] == h[j];
      LastOfPrefix(h, more, j, h[j].tunnel);
    }
  }

  lemma {:induction false} LastOfIsLast(h: seq<Obs>, n: nat, tunnel: string)
    requires n <= |h|
    ensures
      match LastOf(h, n, tunnel)
      case None => forall i :: 0 <= i < n ==> h[i].tunnel != tunnel
      case Some(p) =>
        p.tunnel == tunnel
        && exists i :: 0 <= i < n && h[i] == p && forall j :: i < j < n ==> h[j].tunnel != tunnel
  {
    if n > 0 {
      LastOfIsLast(h, n - 1, tunnel);
    }
  }

  lemma {:induction false} LastOfLifeSome(h: seq<Obs>, x: Obs)
    ensures
      match LastOfLife(h, x)
      case None => forall i :: 0 <= i < |h| ==> !SameLife(h[i], x)
      case Some(p) => exists i :: 0 <= i < |h| && h[i] == p && SameLife(p, x)
                        && forall j :: i < j < |h| ==> !SameLife(h[j], x)
  {
    if h != [] {
      LastOfLifeSome(h[1..], x);
      match LastOfLife(h[1..], x) {
        case None =>
          forall i | 1 <= i < |h|
            ensures !SameLife(h[i], x)
          {
            assert h[i] == h[1..][i - 1];
          }
        case Some(p) =>
          var i :| 0 <= i < |h[1..]| && h[1..][i] == p && forall j :: i < j < |h[1..]| ==> !SameLife(h[1..][j], x);
          assert h[i + 1] == p;
          forall j | i + 1 < j < |h|
            ensures !SameLife(h[j], x)
          {
            assert h[j] == h[1..][j - 1];
          }
      }
    }
  }

  /** In an honest history the last reading of a tunnel is the last reading of its life. */
  lemma {:induction false} LastOfLifeIsLastOf(h: seq<Obs>, x: Obs)
    requires Honest(h + [x])
    ensures
      LastOfLife(h, x) ==
      match LastOf(h, |h|, x.tunnel)
      case None => None
      case Some(p) => if p.life == x.life then Some(p) else None
  {
    LastOfIsLast(h, |h|, x.tunnel);
    LastOfLifeSome(h, x);
    forall i | 0 <= i < |h|
      ensures HonestPair(h[i], x)
    {
      assert (h + [x])[i] == h[i] && (h + [x])[|h|] == x;
    }
    forall i, j | 0 <= i < j < |h|
      ensures HonestPair(h[i], h[j])
    {
      assert (h + [x])[i] == h[i] && (h + [x])[j] == h[j];
    }
  }

  // ---------------------------------------------------------------------
  // One reading.
  // ---------------------------------------------------------------------

  /** What a proxy has counted, the baselines it counts from, what was really read, and
      the bytes of restarts it could not tell from the life before. */
  datatype Tally = Tally(used: nat, counters: map<string, Counter>, history: seq<Obs>, missed: nat)

  function ObsOf(s: Sighting, now: int): Obs
    requires Known(s.traffic)
  {
    Obs(s.traffic.tunnel, s.life, s.traffic.rx.value, s.traffic.tx.value, now, s.traffic.startedAt)
  }

  predicate NewLife(h: seq<Obs>, x: Obs) {
    var last := LastOf(h, |h|, x.tunnel);
    last.None? || last.value.life != x.life
  }

  function TallyOne(t: Tally, s: Sighting, now: int): Tally
    requires Known(s.traffic)
  {
    var x, r := ObsOf(s, now), s.traffic;
    var delta := Delta(Baseline(t.counters, r.tunnel), r);
    Tally(t.used + delta, t.counters[r.tunnel := Read(r, now)], t.history + [x],
          t.missed + if NewLife(t.history, x) then Moved(x) - delta else 0)
  }

  /** Every baseline is the tunnel's last reading; one is gone only when it went stale. */
  ghost predicate Baselined(counters: map<string, Counter>, h: seq<Obs>, clock: int) {
    forall tunnel :: BaselinedAt(counters, h, clock, tunnel)
  }

  ghost predicate BaselinedAt(counters: map<string, Counter>, h: seq<Obs>, clock: int, tunnel: string) {
    match LastOf(h, |h|, tunnel)
    case None => tunnel !in counters
    case Some(p) =>
      if tunnel in counters then counters[tunnel] == Counter(p.rx, p.tx, p.at / SECOND, p.startedAt)
      else clock - p.at / SECOND * SECOND >= BASELINE_KEEP
  }

  ghost predicate StartsKnown(h: seq<Obs>) {
    forall o :: o in h ==> o.startedAt != ""
  }

  lemma TallyOneConserves(t: Tally, s: Sighting, now: int)
    requires Known(s.traffic)
    requires Baselined(t.counters, t.history, now)
    requires Honest(t.history + [ObsOf(s, now)]) && GapsShort(t.history + [ObsOf(s, now)])
    ensures
      var next := TallyOne(t, s, now);
      && Baselined(next.counters, next.history, now)
      && next.used + next.missed + Total(t.history) == t.used + t.missed + Total(next.history)
      && (StartsKnown(next.history) ==> next.missed == t.missed)
  {
    var x, next := ObsOf(s, now), TallyOne(t, s, now);
    var last := LastOf(t.history, |t.history|, x.tunnel);
    TotalAppend(t.history, x);
    LastOfLifeIsLastOf(t.history, x);
    assert BaselinedAt(t.counters, t.history, now, x.tunnel);
    forall tunnel
      ensures BaselinedAt(next.counters, next.history, now, tunnel)
    {
      assert BaselinedAt(t.counters, t.history, now, tunnel);
      LastOfPrefix(t.history, [x], |t.history|, tunnel);
    }
    LastOfPrefix(t.history, [x], |t.history|, x.tunnel);
    assert (t.history + [x])[|t.history|] == x;
    assert SoonAt(t.history + [x], |t.history|);
    assert Soon(last, x);
    if last.Some? {
      LastOfIsLast(t.history, |t.history|, x.tunnel);
      var i :| 0 <= i < |t.history| && t.history[i] == last.value;
      assert next.history[i] == last.value && last.value in next.history && x in next.history;
      assert HonestPair(last.value, x);
    }
  }

  /** A restart is only ever missed when a start time is missing and the new counter is
      already at or past the old one. */
  lemma MissedOnlyWhenHidden(prev: Counter, r: Traffic)
    requires Known(r) && Delta(Some(prev), r) < r.rx.value + r.tx.value
    ensures r.startedAt == "" || prev.startedAt == "" || r.startedAt == prev.startedAt
    ensures (r.rx.value >= prev.rx > 0) || (r.tx.value >= prev.tx > 0)
  {
  }

  // ---------------------------------------------------------------------
  // One pass.
  // ---------------------------------------------------------------------

  function Tallied(t: Tally, sightings: seq<Sighting>, n: nat, now: int): Tally
    requires n <= |sightings|
  {
    if n == 0 then t
    else
      var before := Tallied(t, sightings, n - 1, now);
      if Known(sightings[n - 1].traffic) then TallyOne(before, sightings[n - 1], now) else before
  }

  function Traffics(sightings: seq<Sighting>): seq<Traffic> {
    seq(|sightings|, i requires 0 <= i < |sightings| => sightings[i].traffic)
  }

  /** The tally counts what the code counts. */
  lemma {:induction false} TalliedIsCounted(t: Tally, sightings: seq<Sighting>, n: nat, now: int)
    requires n <= |sightings|
    ensures
      var r := Tallied(t, sightings, n, now);
      (r.used, r.counters) == Counted(t.used, t.counters, Traffics(sightings), n, now)
  {
    if n > 0 {
      TalliedIsCounted(t, sightings, n - 1, now);
    }
  }

  lemma {:induction false} TalliedGrows(t: Tally, sightings: seq<Sighting>, n: nat, now: int)
    requires n <= |sightings|
    ensures
      var r := Tallied(t, sightings, n, now);
      t.history <= r.history && t.missed <= r.missed && t.used <= r.used
  {
    if n > 0 {
      TalliedGrows(t, sightings, n - 1, now);
    }
  }

  lemma PrefixOf(h: seq<Obs>, whole: seq<Obs>)
    requires h <= whole && Honest(whole) && GapsShort(whole)
    ensures Honest(h) && GapsShort(h) && (StartsKnown(whole) ==> StartsKnown(h))
  {
    assert whole == h + whole[|h|..];
    PrefixHonest(h, whole[|h|..]);
  }

  /** From `t` to `r` every byte read was counted, cleared off or missed. */
  ghost predicate Conserved(t: Tally, r: Tally, now: int) {
    && Baselined(r.counters, r.history, now)
    && r.used + r.missed + Total(t.history) == t.used + t.missed + Total(r.history)
    && (StartsKnown(r.history) ==> r.missed == t.missed)
  }

  lemma ConservedStep(t: Tally, before: Tally, s: Sighting, now: int)
    requires Known(s.traffic) && Conserved(t, before, now)
    requires Honest(before.history + [ObsOf(s, now)]) && GapsShort(before.history + [ObsOf(s, now)])
    ensures Conserved(t, TallyOne(before, s, now), now)
  {
    TallyOneConserves(before, s, now);
    assert forall o :: o in before.history ==> o in before.history + [ObsOf(s, now)];
  }

  lemma {:induction false} TalliedConserves(t: Tally, sightings: seq<Sighting>, n: nat, now: int, h: seq<Obs>)
    requires n <= |sightings| && Baselined(t.counters, t.history, now)
    requires h == Tallied(t, sightings, n, now).history && Honest(h) && GapsShort(h)
    ensures Conserved(t, Tallied(t, sightings, n, now), now)
  {
    if n > 0 {
      var before, last := Tallied(t, sightings, n - 1, now), sightings[n - 1];
      if Known(last.traffic) {
        PrefixHonest(before.history, [ObsOf(last, now)]);
        TalliedConserves(t, sightings, n - 1, now, before.history);
        ConservedStep(t, before, last, now);
      } else {
        TalliedConserves(t, sightings, n - 1, now, h);
      }
    }
  }

  lemma KeptBaselined(counters: map<string, Counter>, h: seq<Obs>, now: int)
    requires Baselined(counters, h, now)
    ensures Baselined(Kept(counters, now), h, now)
  {
    forall tunnel
      ensures BaselinedAt(Kept(counters, now), h, now, tunnel)
    {
      assert BaselinedAt(counters, h, now, tunnel);
    }
  }

  lemma BaselinedLater(counters: map<string, Counter>, h: seq<Obs>, clock: int, now: int)
    requires Baselined(counters, h, clock) && clock <= now
    ensures Baselined(counters, h, now)
  {
    forall tunnel
      ensures BaselinedAt(counters, h, now, tunnel)
    {
      assert BaselinedAt(counters, h, clock, tunnel);
    }
  }

  // ---------------------------------------------------------------------
  // Whole runs.
  // ---------------------------------------------------------------------

  datatype Act =
    | Watch(sightings: seq<Sighting>, now: int, today: Date)
    | Clear(today: Date)
    | Change(updated: Definition, today: Date)

  /** The proxy, the bytes its resets cleared, and the truth beside it. */
  datatype Ledger = Ledger(p: Proxy, cleared: nat, missed: nat, history: seq<Obs>, clock: int)

  function EventOf(a: Act): Event {
    match a
    case Watch(sightings, now, today) => Pass(Traffics(sightings), now, today)
    case Clear(today) => Reset(today)
    case Change(updated, today) => Edit(updated, today)
  }

  /** The bytes an act takes off the proxy's count by starting a new period. */
  function ClearedBy(p: Proxy, a: Act): nat {
    match a
    case Watch(_, _, today) => if ResetDue(p.d, p.s, today) then p.s.used else 0
    case Clear(_) => p.s.used
    case Change(updated, _) => if CapBytes(updated).Some? && CapBytes(p.d).None? then p.s.used else 0
  }

  function Booked(l: Ledger, a: Act): Ledger {
    var p, cleared := Step(l.p, EventOf(a)), l.cleared + ClearedBy(l.p, a);
    match a
    case Watch(sightings, now, today) =>
      var used := if ResetDue(l.p.d, l.p.s, today) then 0 else l.p.s.used;
      var t := Tallied(Tally(used, l.p.s.counters, l.history, l.missed), sightings, |sightings|, now);
      Ledger(p, cleared, t.missed, t.history, now)
    case _ => Ledger(p, cleared, l.missed, l.history, l.clock)
  }

  function BookedAll(l: Ledger, acts: seq<Act>): Ledger {
    if acts == [] then l else Booked(BookedAll(l, acts[..|acts| - 1]), acts[|acts| - 1])
  }

  /** Passes never go back in time. */
  predicate Timely(clock: int, acts: seq<Act>) {
    acts == [] || (
      && Timely(clock, acts[..|acts| - 1])
      && (acts[|acts| - 1].Watch? ==> BookedClock(clock, acts[..|acts| - 1]) <= acts[|acts| - 1].now))
  }

  function BookedClock(clock: int, acts: seq<Act>): int {
    if acts == [] then clock
    else if acts[|acts| - 1].Watch? then acts[|acts| - 1].now
    else BookedClock(clock, acts[..|acts| - 1])
  }

  /** The complete readings of a pass, those with a tunnel and both counters, as they stand. */
  function Observed(sightings: seq<Sighting>, n: nat, now: int): seq<Obs>
    requires n <= |sightings|
  {
    if n == 0 then []
    else
      var r := sightings[n - 1].traffic;
      Observed(sightings, n - 1, now)
      + if r.tunnel != "" && r.rx.Some? && r.tx.Some?
        then [Obs(r.tunnel, sightings[n - 1].life, r.rx.value, r.tx.value, now, r.startedAt)] else []
  }

  function AllObserved(acts: seq<Act>): seq<Obs> {
    if acts == [] then []
    else
      AllObserved(acts[..|acts| - 1])
      + match acts[|acts| - 1]
        case Watch(sightings, now, _) => Observed(sightings, |sightings|, now)
        case _ => []
  }

  lemma {:induction false} TalliedObserves(t: Tally, sightings: seq<Sighting>, n: nat, now: int)
    requires n <= |sightings|
    ensures Tallied(t, sightings, n, now).history == t.history + Observed(sightings, n, now)
  {
    if n > 0 {
      TalliedObserves(t, sightings, n - 1, now);
    }
  }

  /** The history holds every complete reading, in order, and nothing else. */
  lemma {:induction false} HistoryIsComplete(d: Definition, s: State, clock: int, acts: seq<Act>)
    ensures BookedAll(NewLedger(d, s, clock), acts).history == AllObserved(acts)
  {
    if acts != [] {
      var init, a := acts[..|acts| - 1], acts[|acts| - 1];
      HistoryIsComplete(d, s, clock, init);
      var l := BookedAll(NewLedger(d, s, clock), init);
      if a.Watch? {
        var used := if ResetDue(l.p.d, l.p.s, a.today) then 0 else l.p.s.used;
        TalliedObserves(Tally(used, l.p.s.counters, l.history, l.missed), a.sightings, |a.sightings|, a.now);
      }
    }
  }

  function NewLedger(d: Definition, s: State, clock: int): Ledger {
    Ledger(NewProxy(d, s), 0, 0, [], clock)
  }

  lemma StepBooks(l: Ledger, a: Act)
    requires Baselined(l.p.s.counters, l.history, l.clock)
    requires a.Watch? ==> l.clock <= a.now
    requires Honest(Booked(l, a).history) && GapsShort(Booked(l, a).history)
    ensures
      var next := Booked(l, a);
      && Baselined(next.p.s.counters, next.history, next.clock)
      && next.p.s.used + next.cleared + next.missed + Total(l.history)
         == l.p.s.used + l.cleared + l.missed + Total(next.history)
      && (StartsKnown(next.history) ==> next.missed == l.missed)
  {
    if a.Watch? {
      var used := if ResetDue(l.p.d, l.p.s, a.today) then 0 else l.p.s.used;
      var t := Tally(used, l.p.s.counters, l.history, l.missed);
      BaselinedLater(l.p.s.counters, l.history, l.clock, a.now);
      TalliedConserves(t, a.sightings, |a.sightings|, a.now, Booked(l, a).history);
      TalliedIsCounted(t, a.sightings, |a.sightings|, a.now);
      var r := Tallied(t, a.sightings, |a.sightings|, a.now);
      KeptBaselined(r.counters, r.history, a.now);
    }
  }

  /** EVERY BYTE IS ACCOUNTED FOR. Over any run of passes, period resets and edits with
      an honest clock and honest counters, what the proxy has used, plus what its resets
      cleared, plus what hidden restarts took along, is exactly what the tunnels moved:
      the sum over every life of its last reading. */
  lemma {:induction false} TrafficConserved(d: Definition, s: State, clock: int, acts: seq<Act>)
    requires s.used == 0 && s.counters == map[] && Timely(clock, acts)
    requires
      var h := BookedAll(NewLedger(d, s, clock), acts).history;
      Honest(h) && GapsShort(h)
    ensures
      var l := BookedAll(NewLedger(d, s, clock), acts);
      && Baselined(l.p.s.counters, l.history, l.clock)
      && l.clock == BookedClock(clock, acts)
      && l.history == AllObserved(acts)
      && l.p.s.used + l.cleared + l.missed == Total(l.history)
      && (StartsKnown(l.history) ==> l.missed == 0)
  {
    HistoryIsComplete(d, s, clock, acts);
    if acts != [] {
      var init, a := acts[..|acts| - 1], acts[|acts| - 1];
      var before, after := BookedAll(NewLedger(d, s, clock), init), BookedAll(NewLedger(d, s, clock), acts);
      HistoryGrows(before, a);
      PrefixOf(before.history, after.history);
      TrafficConserved(d, s, clock, init);
      StepBooks(before, a);
    }
  }

  lemma HistoryGrows(l: Ledger, a: Act)
    ensures l.history <= Booked(l, a).history
  {
    if a.Watch? {
      var used := if ResetDue(l.p.d, l.p.s, a.today) then 0 else l.p.s.used;
      TalliedGrows(Tally(used, l.p.s.counters, l.history, l.missed), a.sightings, |a.sightings|, a.now);
    }
  }

  /** With every start time known nothing is ever counted twice or lost; without them the
      count can only fall short. */
  lemma {:induction false} NeverDoubleCounted(d: Definition, s: State, clock: int, acts: seq<Act>)
    requires s.used == 0 && s.counters == map[] && Timely(clock, acts)
    requires
      var h := BookedAll(NewLedger(d, s, clock), acts).history;
      Honest(h) && GapsShort(h)
    ensures
      var l := BookedAll(NewLedger(d, s, clock), acts);
      && l.p.s.used + l.cleared <= Total(l.history)
      && (StartsKnown(l.history) ==> l.p.s.used + l.cleared == Total(l.history))
  {
    TrafficConserved(d, s, clock, acts);
  }

  /** The ledger runs the very proxy whose cap ProxyCap follows. */
  lemma {:induction false} LedgerRunsTheProxy(d: Definition, s: State, clock: int, acts: seq<Act>, events: seq<Event>)
    requires |events| == |acts| && forall i :: 0 <= i < |acts| ==> events[i] == EventOf(acts[i])
    ensures BookedAll(NewLedger(d, s, clock), acts).p == Run(NewProxy(d, s), events)
  {
    if acts != [] {
      LedgerRunsTheProxy(d, s, clock, acts[..|acts| - 1], events[..|events| - 1]);
    }
  }
}
