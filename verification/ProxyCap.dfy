/** A proxy's traffic cap: the counters of its tunnels, the stop at the threshold, edits
    of the definition and the period reset (internal/proxies/proxies.go). Bytes are
    naturals, instants are nanoseconds, and a cap is a real number of gigabytes. */
module ProxyCap {
  import opened Common

  const GB := 1_000_000_000
  const SECOND := 1_000_000_000
  const BASELINE_KEEP := 31 * 24 * 3600 * SECOND
  const DEFAULT_THRESHOLD_PCT := 90

  datatype Date = Date(year: int, month: int, day: int)

  datatype Definition = Definition(name: string, capGB: Option<real>, thresholdPct: nat, resetDay: Option<int>)

  datatype Counter = Counter(rx: nat, tx: nat, seenAt: int, startedAt: string)

  /** What the stop message is made of. */
  datatype Reason = Reason(name: string, pct: nat, cap: nat, on: Date, resetDay: Option<int>)

  /** `periodStart` is None when it is empty or not a date. */
  datatype State = State(
    used: nat, periodStart: Option<Date>, cappedAt: Option<int>, capReason: Option<Reason>, counters: map<string, Counter>)

  /** One tunnel's counters as the runtime read them; None is unknown, not zero. */
  datatype Traffic = Traffic(tunnel: string, startedAt: string, rx: Option<nat>, tx: Option<nat>)

  // ---------------------------------------------------------------------
  // The cap.
  // ---------------------------------------------------------------------

  function CapBytes(d: Definition): Option<nat> {
    if d.capGB.None? || d.capGB.value <= 0.0 then None else Some((d.capGB.value * GB as real).Floor)
  }

  function ThresholdPct(d: Definition): nat {
    if d.thresholdPct == 0 then DEFAULT_THRESHOLD_PCT else d.thresholdPct
  }

  function ThresholdBytes(d: Definition): Option<nat> {
    match CapBytes(d)
    case None => None
    case Some(c) => Some(c * ThresholdPct(d) / 100)
  }

  /** The bounds the form is held to (Clean). */
  predicate Clean(d: Definition) {
    && (d.capGB.Some? ==> 0.001 <= d.capGB.value <= 1_000_000.0)
    && 10 <= d.thresholdPct <= 100
    && (d.resetDay.Some? ==> 1 <= d.resetDay.value <= 28)
  }

  lemma ScaledBounds(gb: real)
    requires 0.001 <= gb <= 1_000_000.0
    ensures 1_000_000 <= (gb * GB as real).Floor <= 1_000_000 * GB
  {
    assert 0.001 * GB as real <= gb * GB as real <= 1_000_000.0 * GB as real;
  }

  lemma PercentBounds(c: nat, pct: nat)
    requires 10 <= c && 10 <= pct <= 100
    ensures c * pct <= c * 100 && 0 < c * pct / 100 <= c
  {
    assert c * 10 <= c * pct <= c * 100;
  }

  /** Inside those bounds the threshold product fits 64 bits and never rounds to nothing. */
  lemma ThresholdFits(d: Definition)
    requires Clean(d) && d.capGB.Some?
    ensures CapBytes(d).Some? && CapBytes(d).value * ThresholdPct(d) < 0x1_0000_0000_0000_0000
    ensures 0 < ThresholdBytes(d).value <= CapBytes(d).value
  {
    ScaledBounds(d.capGB.value);
    PercentBounds(CapBytes(d).value, ThresholdPct(d));
  }

  /** `c` is how many whole bytes `gb` gigabytes are. */
  predicate WholeBytes(gb: real, c: int) {
    c as real <= gb * 1_000_000_000.0 < c as real + 1.0
  }

  predicate HasCap(d: Definition) {
    d.capGB.Some? && d.capGB.value > 0.0
  }

  /** The promise, in bytes and percent: the share that is to stop the copies, of the cap's
      whole bytes, is used up but for less than one byte. */
  ghost predicate AtCap(d: Definition, used: nat) {
    HasCap(d) && forall c: int :: WholeBytes(d.capGB.value, c) ==>
      100 * (used + 1) > c * (if d.thresholdPct == 0 then 90 else d.thresholdPct)
  }

  lemma OneWholeBytes(gb: real, c: int)
    requires WholeBytes(gb, c)
    ensures (gb * GB as real).Floor == c
  {
  }

  lemma FloorIsWholeBytes(gb: real)
    ensures WholeBytes(gb, (gb * GB as real).Floor)
  {
  }

  lemma CapIsWholeBytes(d: Definition)
    ensures CapBytes(d).Some? <==> HasCap(d)
    ensures HasCap(d) ==> WholeBytes(d.capGB.value, CapBytes(d).value)
    ensures HasCap(d) ==> forall c: int :: WholeBytes(d.capGB.value, c) ==> c == CapBytes(d).value
  {
    if HasCap(d) {
      FloorIsWholeBytes(d.capGB.value);
      forall c: int | WholeBytes(d.capGB.value, c)
        ensures c == CapBytes(d).value
      {
        OneWholeBytes(d.capGB.value, c);
      }
    }
  }

  /** The truncated threshold is reached exactly when the promise says so. */
  lemma ReachedIsAtCap(d: Definition, used: nat)
    ensures Reached(d, used) <==> AtCap(d, used)
  {
    CapIsWholeBytes(d);
  }

  function ReasonOf(d: Definition, on: Date): Reason {
    Reason(d.name, ThresholdPct(d), match CapBytes(d) case Some(c) => c case None => 0, on, d.resetDay)
  }

  // ---------------------------------------------------------------------
  // Counting traffic.
  // ---------------------------------------------------------------------

  function CapDelta(prev: Option<Counter>, current: nat, prevValue: nat, startedAt: string): nat {
    if prev.None? then current
    else if startedAt != "" && prev.value.startedAt != "" && startedAt != prev.value.startedAt then current
    else if current < prevValue then current
    else current - prevValue
  }

  predicate Known(r: Traffic) {
    r.tunnel != "" && r.rx.Some? && r.tx.Some?
  }

  function Baseline(counters: map<string, Counter>, tunnel: string): Option<Counter> {
    if tunnel in counters then Some(counters[tunnel]) else None
  }

  /** The bytes one complete reading adds. */
  function Delta(prev: Option<Counter>, r: Traffic): nat
    requires Known(r)
  {
    var (prx, ptx) := match prev case None => (0, 0) case Some(c) => (c.rx, c.tx);
    CapDelta(prev, r.rx.value, prx, r.startedAt) + CapDelta(prev, r.tx.value, ptx, r.startedAt)
  }

  function Read(r: Traffic, now: int): Counter
    requires Known(r)
  {
    Counter(r.rx.value, r.tx.value, now / SECOND, r.startedAt)
  }

  /** The bytes and the baselines after the first `n` readings of a pass. */
  function Counted(used: nat, counters: map<string, Counter>, readings: seq<Traffic>, n: nat, now: int)
    : (nat, map<string, Counter>)
    requires n <= |readings|
  {
    if n == 0 then (used, counters)
    else
      var (u, c) := Counted(used, counters, readings, n - 1, now);
      var r := readings[n - 1];
      if !Known(r) then (u, c) else (u + Delta(Baseline(c, r.tunnel), r), c[r.tunnel := Read(r, now)])
  }

  predicate Stale(c: Counter, now: int) {
    now - c.seenAt * SECOND >= BASELINE_KEEP
  }

  function Kept(counters: map<string, Counter>, now: int): map<string, Counter> {
    map k | k in counters && !Stale(counters[k], now) :: counters[k]
  }

  predicate Reached(d: Definition, used: nat) {
    ThresholdBytes(d).Some? && used >= ThresholdBytes(d).value
  }

  /** One pass over a proxy's tunnels: the new state, and whether it crossed the cap. */
  function Accounted(s: State, d: Definition, readings: seq<Traffic>, now: int, today: Date): (State, bool) {
    var (used, counters) := Counted(s.used, s.counters, readings, |readings|, now);
    var next := s.(used := used, counters := Kept(counters, now));
    if s.cappedAt.None? && Reached(d, used)
    then (next.(cappedAt := Some(now), capReason := Some(ReasonOf(d, today))), true)
    else (next, false)
  }

  method DropStale(counters: map<string, Counter>, now: int) returns (kept: map<string, Counter>)
    ensures kept == Kept(counters, now)
    ensures forall k :: k in kept <==>
              k in counters && now - counters[k].seenAt * 1_000_000_000 < 31 * 24 * 3600 * 1_000_000_000
  {
    kept := counters;
    var left := counters.Keys;
    while left != {}
      invariant left <= counters.Keys && kept.Keys <= counters.Keys && left <= kept.Keys
      invariant forall k :: k in kept ==> kept[k] == counters[k]
      invariant forall k :: k in counters && k !in left ==> (k in kept <==> !Stale(counters[k], now))
      decreases left
    {
      var k :| k in left;
      left := left - {k};
      if Stale(counters[k], now) {
        kept := kept - {k};
      }
    }
  }

  method Account(s: State, d: Definition, readings: seq<Traffic>, now: int, today: Date)
    returns (out: State, crossed: bool)
    ensures (out, crossed) == Accounted(s, d, readings, now, today)
  {
    out := s;
    var counters := s.counters;
    var used := s.used;
    for n := 0 to |readings|
      invariant (used, counters) == Counted(s.used, s.counters, readings, n, now)
    {
      var r := readings[n];
      if r.tunnel == "" || r.rx.None? || r.tx.None? {
        continue;
      }
      var prev: Option<Counter> := None;
      if r.tunnel in counters {
        prev := Some(counters[r.tunnel]);
      }
      var prx, ptx := 0, 0;
      if prev.Some? {
        prx, ptx := prev.value.rx, prev.value.tx;
      }
      used := used + CapDelta(prev, r.rx.value, prx, r.startedAt);
      used := used + CapDelta(prev, r.tx.value, ptx, r.startedAt);
      counters := counters[r.tunnel := Counter(r.rx.value, r.tx.value, now / SECOND, r.startedAt)];
    }
    counters := DropStale(counters, now);
    out := out.(counters := counters, used := used);
    var limit := ThresholdBytes(d);
    crossed := limit.Some? && out.cappedAt.None? && used >= limit.value;
    if crossed {
      out := out.(cappedAt := Some(now), capReason := Some(ReasonOf(d, today)));
    }
  }

  // ---------------------------------------------------------------------
  // Resets and edits.
  // ---------------------------------------------------------------------

  function ResetState(s: State, today: Date): State {
    s.(used := 0, periodStart := Some(today), cappedAt := None, capReason := None)
  }

  predicate SameCap(a: Definition, b: Definition) {
    a.capGB == b.capGB && a.thresholdPct == b.thresholdPct && a.resetDay == b.resetDay && a.name == b.name
  }

  /** The new state, and whether the copies the cap stopped should start again. */
  function CapChange(previous: Definition, updated: Definition, s: State, today: Date): (State, bool) {
    if CapBytes(updated).Some? && CapBytes(previous).None? then (ResetState(s, today), s.cappedAt.Some?)
    else if s.cappedAt.None? then (s, false)
    else if !Reached(updated, s.used) then (s.(cappedAt := None, capReason := None), true)
    else if !SameCap(previous, updated) then (s.(capReason := Some(ReasonOf(updated, today))), false)
    else (s, false)
  }

  // ---------------------------------------------------------------------
  // The cap over whole runs.
  // ---------------------------------------------------------------------

  datatype Event =
    | Pass(readings: seq<Traffic>, now: int, today: Date)
    | Reset(today: Date)
    | Edit(updated: Definition, today: Date)

  /** A proxy, with what its history did to the cap. */
  datatype Proxy = Proxy(s: State, d: Definition, crossings: nat, lifts: nat)

  function Lifted(before: State, after: State): nat {
    if before.cappedAt.Some? && after.cappedAt.None? then 1 else 0
  }

  /** ProxyTick, ResetProxy and SaveProxy, as they change one proxy. */
  function Step(p: Proxy, e: Event): Proxy {
    match e
    case Pass(readings, now, today) =>
      var s := if ResetDue(p.d, p.s, today) then ResetState(p.s, today) else p.s;
      var (next, crossed) := Accounted(s, p.d, readings, now, today);
      Proxy(next, p.d, p.crossings + (if crossed then 1 else 0), p.lifts + Lifted(p.s, s))
    case Reset(today) =>
      p.(s := ResetState(p.s, today), lifts := p.lifts + Lifted(p.s, ResetState(p.s, today)))
    case Edit(updated, today) =>
      var (next, release) := CapChange(p.d, updated, p.s, today);
      Proxy(next, updated, p.crossings, p.lifts + if release then 1 else 0)
  }

  function Run(p: Proxy, events: seq<Event>): Proxy {
    if events == [] then p else Step(Run(p, events[..|events| - 1]), events[|events| - 1])
  }

  function NewProxy(d: Definition, s: State): Proxy {
    Proxy(s, d, 0, 0)
  }

  /** CapChange asks for the copies to start exactly when it lifts a stop. */
  lemma ReleaseIsLift(previous: Definition, updated: Definition, s: State, today: Date)
    ensures
      var (next, release) := CapChange(previous, updated, s, today);
      release <==> s.cappedAt.Some? && next.cappedAt.None?
  {
  }

  lemma {:induction false} CountedGrows(used: nat, counters: map<string, Counter>, readings: seq<Traffic>, n: nat, now: int)
    requires n <= |readings|
    ensures Counted(used, counters, readings, n, now).0 >= used
  {
    if n > 0 {
      CountedGrows(used, counters, readings, n - 1, now);
    }
  }

  /** The stop message describes the definition in force. */
  predicate Describes(r: Reason, d: Definition) {
    && HasCap(d) && r.name == d.name && WholeBytes(d.capGB.value, r.cap) && r.resetDay == d.resetDay
    && r.pct == if d.thresholdPct == 0 then 90 else d.thresholdPct
  }

  lemma ReasonDescribes(d: Definition, on: Date)
    requires HasCap(d)
    ensures Describes(ReasonOf(d, on), d) && ReasonOf(d, on).on == on
  {
    CapIsWholeBytes(d);
  }

  /** What one edit does, in bytes and percent. A cap turned on starts a fresh period; else
      nothing counted changes, and a stop stays exactly while the new cap is used up. */
  lemma EditKeepsTheStop(previous: Definition, updated: Definition, s: State, today: Date)
    ensures
      var (next, release) := CapChange(previous, updated, s, today);
      var starts := HasCap(updated) && !HasCap(previous);
      && next.counters == s.counters
      && next.used == (if starts then 0 else s.used)
      && next.periodStart == (if starts then Some(today) else s.periodStart)
      && next.cappedAt == (if !starts && AtCap(updated, s.used) then s.cappedAt else None)
      && (release <==> s.cappedAt.Some? && next.cappedAt.None?)
      && (next.cappedAt.Some? ==>
            if previous.capGB == updated.capGB && previous.thresholdPct == updated.thresholdPct
               && previous.resetDay == updated.resetDay && previous.name == updated.name
            then next.capReason == s.capReason
            else next.capReason.Some? && Describes(next.capReason.value, updated) && next.capReason.value.on == today)
  {
    CapIsWholeBytes(previous);
    CapIsWholeBytes(updated);
    ReachedIsAtCap(updated, s.used);
    if HasCap(updated) {
      ReasonDescribes(updated, today);
    }
  }

  /** What one pass does: it only ever sets the stop, and then at once, dated and described. */
  lemma PassSetsTheStop(s: State, d: Definition, readings: seq<Traffic>, now: int, today: Date)
    ensures
      var (next, crossed) := Accounted(s, d, readings, now, today);
      && next.periodStart == s.periodStart
      && (crossed <==> s.cappedAt.None? && AtCap(d, next.used))
      && next.cappedAt == (if crossed then Some(now) else s.cappedAt)
      && (crossed ==> next.capReason.Some? && Describes(next.capReason.value, d) && next.capReason.value.on == today)
      && (!crossed ==> next.capReason == s.capReason)
  {
    var used := Counted(s.used, s.counters, readings, |readings|, now).0;
    ReachedIsAtCap(d, used);
    if AtCap(d, used) {
      ReasonDescribes(d, today);
    }
  }

  /** The definition the last edit left. */
  function Current(d: Definition, events: seq<Event>): Definition {
    if events == [] then d
    else if events[|events| - 1].Edit? then events[|events| - 1].updated
    else Current(d, events[..|events| - 1])
  }

  ghost predicate CapConsistent(p: Proxy) {
    && (p.s.cappedAt.Some? ==> AtCap(p.d, p.s.used))
    && (p.s.cappedAt.Some? ==> p.s.capReason.Some? && Describes(p.s.capReason.value, p.d))
    && p.crossings == p.lifts + (if p.s.cappedAt.Some? then 1 else 0)
  }

  lemma SameCapSameReason(a: Definition, b: Definition, r: Reason)
    requires SameCap(a, b) && Describes(r, a)
    ensures Describes(r, b)
  {
  }

  lemma PassConsistent(p: Proxy, e: Event)
    requires CapConsistent(p) && e.Pass?
    ensures CapConsistent(Step(p, e))
    ensures var next := Step(p, e).s; next.cappedAt.Some? <==> AtCap(p.d, next.used)
  {
    var start := if ResetDue(p.d, p.s, e.today) then ResetState(p.s, e.today) else p.s;
    PassSetsTheStop(start, p.d, e.readings, e.now, e.today);
    CountedGrows(start.used, start.counters, e.readings, |e.readings|, e.now);
  }

  lemma EditConsistent(p: Proxy, e: Event)
    requires CapConsistent(p) && e.Edit?
    ensures CapConsistent(Step(p, e))
  {
    EditKeepsTheStop(p.d, e.updated, p.s, e.today);
    var next := CapChange(p.d, e.updated, p.s, e.today).0;
    if next.cappedAt.Some? {
      ReasonDescribes(e.updated, e.today);
      if SameCap(p.d, e.updated) {
        SameCapSameReason(p.d, e.updated, p.s.capReason.value);
      }
    }
  }

  /** A STOP ALWAYS HAS ITS CAUSE. Over any run of passes, resets and edits, a stopped
      proxy has a cap and has used the share of it that stops it, and says so of the cap in
      force; every crossing is followed by exactly one lift before the next; and after a pass
      the converse holds too, so a proxy at its threshold is stopped. */
  lemma {:induction false} CapOverRuns(d: Definition, s: State, events: seq<Event>)
    requires s.cappedAt.None?
    ensures
      var p := Run(NewProxy(d, s), events);
      && CapConsistent(p) && p.d == Current(d, events)
      && (events != [] && events[|events| - 1].Pass? ==> (p.s.cappedAt.Some? <==> AtCap(p.d, p.s.used)))
  {
    if events != [] {
      var p, e := Run(NewProxy(d, s), events[..|events| - 1]), events[|events| - 1];
      CapOverRuns(d, s, events[..|events| - 1]);
      match e {
        case Pass(_, _, _) => PassConsistent(p, e);
        case Reset(_) =>
        case Edit(_, _) => EditConsistent(p, e);
      }
    }
  }

  /** The same in numbers: after any run that ends in a pass, a cap of `gb` gigabytes has
      stopped the copies exactly when the percentage of its bytes is used. */
  lemma {:induction false} StopsAtPercent(d: Definition, s: State, events: seq<Event>, gb: real, c: nat)
    requires s.cappedAt.None? && events != [] && events[|events| - 1].Pass?
    requires Current(d, events).capGB == Some(gb) && gb > 0.0
    requires c as real <= gb * 1_000_000_000.0 < c as real + 1.0
    ensures
      var p := Run(NewProxy(d, s), events);
      var pct := if Current(d, events).thresholdPct == 0 then 90 else Current(d, events).thresholdPct;
      p.s.cappedAt.Some? <==> 100 * (p.s.used + 1) > c * pct
  {
    CapOverRuns(d, s, events);
    CapIsWholeBytes(Current(d, events));
    assert WholeBytes(gb, c);
  }

  // ---------------------------------------------------------------------
  // The reset day.
  // ---------------------------------------------------------------------

  predicate Before(a: Date, b: Date) {
    || a.year < b.year
    || (a.year == b.year && a.month < b.month)
    || (a.year == b.year && a.month == b.month && a.day < b.day)
  }

  predicate LeapYear(y: int) {
    y % 4 == 0 && (y % 100 != 0 || y % 400 == 0)
  }

  function DaysIn(y: int, m: int): int {
    if m == 2 then (if LeapYear(y) then 29 else 28)
    else if m in [4, 6, 9, 11] then 30
    else 31
  }

  predicate IsDate(d: Date) {
    1 <= d.month <= 12 && 1 <= d.day <= DaysIn(d.year, d.month)
  }

  /** The last reset day on or before `today`: this month's, or the month before's. */
  function Boundary(day: int, today: Date): Date {
    if today.day >= day then Date(today.year, today.month, day)
    else if today.month == 1 then Date(today.year - 1, 12, day)
    else Date(today.year, today.month - 1, day)
  }

  predicate ResetDue(d: Definition, s: State, today: Date) {
    if d.resetDay.None? || d.resetDay.value == 0 then false
    else if s.periodStart.None? then true
    else Before(s.periodStart.value, Boundary(d.resetDay.value, today))
  }

  ghost predicate ResetDayBetween(day: int, start: Date, today: Date, b: Date) {
    IsDate(b) && b.day == day && Before(start, b) && !Before(today, b)
  }

  /** A period that started on `start` is due for a reset on `today` exactly when some
      reset day lies after its start and not after today, over any month and year ends. */
  lemma ResetDueExactly(d: Definition, s: State, today: Date)
    requires Clean(d) && d.resetDay.Some? && IsDate(today)
    requires s.periodStart.Some? && IsDate(s.periodStart.value)
    ensures ResetDue(d, s, today)
       <==> exists b :: ResetDayBetween(d.resetDay.value, s.periodStart.value, today, b)
  {
    var day, start := d.resetDay.value, s.periodStart.value;
    var last := Boundary(day, today);
    if Before(start, last) {
      assert ResetDayBetween(day, start, today, last);
    }
    forall b | ResetDayBetween(day, start, today, b)
      ensures Before(start, last)
    {
      assert !Before(last, b);
    }
  }

  /** Without a reset day none is due; with one, a period that never began is overdue. */
  lemma ResetDueWithoutPeriod(d: Definition, s: State, today: Date)
    ensures d.resetDay.None? || d.resetDay == Some(0) ==> !ResetDue(d, s, today)
    ensures d.resetDay.Some? && d.resetDay != Some(0) && s.periodStart.None? ==> ResetDue(d, s, today)
  {
  }

  /** A reset is done once: until the next reset day none is due again. */
  lemma ResetClearsDue(d: Definition, day: int, s: State, today: Date, later: Date)
    requires Clean(d) && d.resetDay == Some(day) && IsDate(today) && IsDate(later)
    requires forall b :: !ResetDayBetween(day, today, later, b)
    ensures !ResetDue(d, ResetState(s, today), later)
  {
    ResetDueExactly(d, ResetState(s, today), later);
  }
}
