/** Switching Activity off deletes what it stored, and nothing a round still running does
    afterwards puts any of it back (activity_sampler.go, activity_app.go, and the store
    calls they make in internal/store/activity.go). Each event is one critical section
    under the write lock, or one unlocked read. */
module ActivitySwitch {

  /** A sampled destination: the sample it belongs to, and the remote address. */
  datatype Dest = Dest(sample: nat, address: nat)

  /** One round's result: its samples and the destinations of each. */
  datatype Window = Window(samples: set<nat>, dests: set<Dest>)

  /** What is on disk: samples hold no address, raw destinations do. */
  datatype Store = Store(samples: set<nat>, raw: set<Dest>, alerts: set<nat>)

  predicate Within(a: Store, b: Store) {
    a.samples <= b.samples && a.raw <= b.raw && a.alerts <= b.alerts
  }

  /** How a delete ends: when it fails, any part of the rows may be left. */
  datatype Deletion = Deleted | Failed(left: Store)

  function AfterDelete(s: Store, all: bool, d: Deletion): Store {
    match d
    case Deleted => if all then Store({}, {}, {}) else s.(raw := {})
    case Failed(left) =>
      if all then Store(s.samples * left.samples, s.raw * left.raw, s.alerts * left.alerts)
      else s.(raw := s.raw * left.raw)
  }

  /** The window's samples that are not stored yet: an already stored one is ignored whole. */
  function NewSamples(s: Store, w: Window): set<nat> {
    w.samples - s.samples
  }

  /** RecordActivity: the rows of a window, and the purge of old destinations, in one
      transaction; nothing at all when the switch reads off. */
  function Recorded(s: Store, w: Window, wanted: bool, fails: bool, expired: set<Dest>): (Store, nat) {
    if fails || !wanted then (s, 0)
    else
      var added := NewSamples(s, w);
      (s.(samples := s.samples + added, raw := s.raw + (set d | d in w.dests && d.sample in added) - expired), |added|)
  }

  // ---------------------------------------------------------------------
  // The source's methods, each under the write lock.
  // ---------------------------------------------------------------------

  /** The part of the App the switch and the sampler share. */
  datatype Shared = Shared(on: bool, gen: nat, pending: bool, store: Store)

  function Switched(s: Shared, on: bool, saved: bool, d: Deletion): Shared {
    if on then (if saved then s.(on := true, pending := false) else s)
    else if !saved then s.(gen := s.gen + 1)
    else Shared(false, s.gen + 1, d.Failed?, AfterDelete(s.store, false, d))
  }

  function Retried(s: Shared, d: Deletion): Shared {
    if !s.pending || s.on then s
    else Shared(s.on, s.gen + 1, d.Failed?, AfterDelete(s.store, false, d))
  }

  function Erased(s: Shared, d: Deletion): Shared {
    s.(gen := s.gen + 1, store := AfterDelete(s.store, true, d))
  }

  function Stored(s: Shared, gen: nat, w: Window, fails: bool, expired: set<Dest>, alerts: set<nat>): Shared {
    var (store, written) := Recorded(s.store, w, s.on, fails, expired);
    if s.gen != gen then s
    else s.(store := if written == 0 then store else store.(alerts := store.alerts + alerts))
  }

  function Spiked(s: Shared, gen: nat, alerts: set<nat>): Shared {
    if s.gen != gen then s else s.(store := s.store.(alerts := s.store.alerts + alerts))
  }

  class App {
    var activityEnabled: bool
    var gen: nat
    var deletePending: bool
    var store: Store

    constructor (activityEnabled: bool, store: Store)
      ensures View() == Shared(activityEnabled, 0, false, store)
    {
      this.activityEnabled, gen, deletePending, this.store := activityEnabled, 0, false, store;
    }

    function View(): Shared
      reads this
    {
      Shared(activityEnabled, gen, deletePending, store)
    }

    /** startActivitySampler: while off, whatever is still stored is to be deleted. */
    method StartSampler()
      modifies this
      ensures View() == old(View()).(pending := !old(activityEnabled))
    {
      deletePending := !activityEnabled;
    }

    method DeleteRows(all: bool, d: Deletion) returns (failed: bool)
      modifies this`store
      ensures store == AfterDelete(old(store), all, d) && failed == d.Failed?
    {
      match d {
        case Deleted =>
          store := store.(raw := {});
          if all {
            store := store.(samples := {}, alerts := {});
          }
        case Failed(left) =>
          store := store.(raw := store.raw * left.raw);
          if all {
            store := store.(samples := store.samples * left.samples, alerts := store.alerts * left.alerts);
          }
      }
      failed := d.Failed?;
    }

    method SetActivityEnabled(on: bool, saved: bool, d: Deletion)
      modifies this
      ensures View() == Switched(old(View()), on, saved, d)
    {
      if on {
        if saved {
          activityEnabled := true;
          deletePending := false;
        }
      } else {
        gen := gen + 1;
        if !saved {
          return;
        }
        activityEnabled := false;
        deletePending := DeleteRows(false, d);
      }
    }

    method RetryDelete(d: Deletion)
      modifies this
      ensures View() == Retried(old(View()), d)
    {
      if !deletePending || activityEnabled {
        return;
      }
      gen := gen + 1;
      var failed := DeleteRows(false, d);
      if failed {
        return;
      }
      deletePending := false;
    }

    method DeleteActivityData(d: Deletion)
      modifies this
      ensures View() == Erased(old(View()), d)
    {
      gen := gen + 1;
      var failed := DeleteRows(true, d);
    }

    method StoreRound(round: nat, w: Window, fails: bool, expired: set<Dest>, alerts: set<nat>)
      modifies this`store
      ensures View() == Stored(old(View()), round, w, fails, expired, alerts)
    {
      if gen != round {
        return;
      }
      var (next, written) := Recorded(store, w, activityEnabled, fails, expired);
      store := next;
      if written == 0 {
        return;
      }
      store := store.(alerts := store.alerts + alerts);
    }

    method RaiseSpike(round: nat, alerts: set<nat>)
      modifies this`store
      ensures View() == Spiked(old(View()), round, alerts)
    {
      if gen != round {
        return;
      }
      store := store.(alerts := store.alerts + alerts);
    }
  }

  // ---------------------------------------------------------------------
  // Every interleaving.
  // ---------------------------------------------------------------------

  /** A tick that is still running: the generation it read, and whether its later,
      unlocked look at the switch read on. */
  datatype Round = Round(gen: nat, sawOn: bool)

  datatype World = World(shared: Shared, started: bool, rounds: map<nat, Round>)

  datatype Event =
    | Begin(round: nat)                  // activityGen, at the start of a tick
    | Look(round: nat)                   // activityOn, unlocked
    | Finish(round: nat, w: Window, fails: bool, expired: set<Dest>, alerts: set<nat>)
    | Spike(round: nat, alerts: set<nat>)
    | Retry(d: Deletion)
    | Switch(on: bool, saved: bool, d: Deletion)
    | Erase(d: Deletion)
    | Purge(kept: Store)                 // PurgeActivity, not under the lock
    | Boot(on: bool, kept: Store)        // the process dies, any time, and comes back
    | StartSampler

  function Step(w: World, e: Event): World {
    match e
    case Begin(r) => w.(rounds := w.rounds[r := Round(w.shared.gen, false)])
    case Look(r) =>
      if r in w.rounds && w.shared.on then w.(rounds := w.rounds[r := w.rounds[r].(sawOn := true)]) else w
    case Finish(r, window, fails, expired, alerts) =>
      if r in w.rounds && w.rounds[r].sawOn
      then w.(shared := Stored(w.shared, w.rounds[r].gen, window, fails, expired, alerts))
      else w
    case Spike(r, alerts) =>
      if r in w.rounds && w.rounds[r].sawOn then w.(shared := Spiked(w.shared, w.rounds[r].gen, alerts)) else w
    case Retry(d) => w.(shared := Retried(w.shared, d))
    case Switch(on, saved, d) => w.(shared := Switched(w.shared, on, saved, d))
    case Erase(d) => w.(shared := Erased(w.shared, d))
    case Purge(kept) => w.(shared := w.shared.(store := AfterDelete(w.shared.store, true, Failed(kept))))
    case Boot(on, kept) =>
      World(Shared(on, 0, false, AfterDelete(w.shared.store, true, Failed(kept))), false, map[])
    case StartSampler => World(w.shared.(pending := !w.shared.on), true, w.rounds)
  }

  function Run(w: World, events: seq<Event>, n: nat): World
    requires n <= |events|
  {
    if n == 0 then w else Step(Run(w, events, n - 1), events[n - 1])
  }

  /** A process that has just come up over whatever is on disk. */
  predicate JustBooted(w: World) {
    !w.started && w.shared.gen == 0 && !w.shared.pending && w.rounds == map[]
  }

  predicate Consistent(w: World) {
    && (w.started && !w.shared.on && !w.shared.pending ==> w.shared.store.raw == {})
    && (forall r :: r in w.rounds ==> w.rounds[r].gen <= w.shared.gen)
    && (forall r :: r in w.rounds && w.rounds[r].sawOn && w.rounds[r].gen == w.shared.gen ==> w.shared.on)
  }

  lemma {:induction false} StepConsistent(w: World, e: Event)
    requires Consistent(w)
    ensures Consistent(Step(w, e))
  {
  }

  /** OPT-OUT HOLDS. In every reachable world, failed deletes, retries, crashes and running
      rounds included: once the sampler has started, "off and no delete pending" means that
      no address row is left. */
  lemma {:induction false} OptOutHolds(w: World, events: seq<Event>, n: nat)
    requires JustBooted(w) && n <= |events|
    ensures Consistent(Run(w, events, n))
  {
    if n > 0 {
      OptOutHolds(w, events, n - 1);
      StepConsistent(Run(w, events, n - 1), events[n - 1]);
    }
  }

  lemma {:induction false} StepKeepsWithin(w: World, e: Event)
    requires Consistent(w) && !w.shared.on
    ensures Within(Step(w, e).shared.store, w.shared.store)
  {
  }

  /** While the switch is off nothing is added to the store, by any round in any state: not
      a sample, not an address, not an alert. */
  lemma {:induction false} NothingKeptWhileOff(w: World, events: seq<Event>, n: nat)
    requires JustBooted(w) && n < |events| && !Run(w, events, n).shared.on
    ensures Within(Run(w, events, n + 1).shared.store, Run(w, events, n).shared.store)
  {
    OptOutHolds(w, events, n);
    StepKeepsWithin(Run(w, events, n), events[n]);
  }

  /** Whether an event is a delete, successful or not: it moves the generation on. */
  predicate IsDelete(w: World, e: Event) {
    e.Erase? || (e.Switch? && !e.on) || (e.Retry? && w.shared.pending && !w.shared.on)
  }

  /** A round that a delete has overtaken. */
  predicate Overtaken(w: World, r: nat) {
    r in w.rounds ==> w.rounds[r].gen < w.shared.gen
  }

  lemma {:induction false} StaysOvertaken(w: World, events: seq<Event>, m: nat, n: nat, r: nat)
    requires m <= n <= |events| && Overtaken(Run(w, events, m), r)
    requires forall i :: m <= i < n ==> events[i] != Begin(r)
    ensures Overtaken(Run(w, events, n), r)
  {
    if m < n {
      StaysOvertaken(w, events, m, n - 1, r);
    }
  }

  /** AN OVERTAKEN ROUND IS MUTE. When a delete has happened since a round began, whatever
      came between, the round's window, its alerts and its spikes change nothing. */
  lemma {:induction false} OvertakenRoundIsMute(w: World, events: seq<Event>, begin: nat, delete: nat, act: nat, r: nat)
    requires JustBooted(w) && begin < delete < act < |events|
    requires events[begin] == Begin(r) && IsDelete(Run(w, events, delete), events[delete])
    requires forall i :: begin < i < act ==> events[i] != Begin(r)
    requires (events[act].Finish? || events[act].Spike?) && events[act].round == r
    ensures Run(w, events, act + 1) == Run(w, events, act)
  {
    OptOutHolds(w, events, delete);
    assert Overtaken(Run(w, events, delete + 1), r);
    StaysOvertaken(w, events, delete + 1, act, r);
  }

  /** Nothing is stored, and every running round has been overtaken. */
  ghost predicate Wiped(w: World) {
    && w.shared.store.samples == {} && w.shared.store.raw == {} && w.shared.store.alerts == {}
    && forall r :: r in w.rounds ==> w.rounds[r].gen < w.shared.gen
  }

  lemma {:induction false} StaysWiped(w: World, e: Event)
    requires Wiped(w) && !e.Begin?
    ensures Wiped(Step(w, e))
  {
  }

  /** DELETED MEANS DELETED. After "delete all activity data" has succeeded there is no sample,
      no address and no alert, and until a new round begins nothing that happens, failures,
      crashes and the rounds still running included, brings one back. */
  lemma {:induction false} EraseEmpties(w: World, events: seq<Event>, erase: nat, n: nat)
    requires JustBooted(w) && erase < n <= |events| && events[erase] == Erase(Deleted)
    requires forall i :: erase < i < n ==> !events[i].Begin?
    ensures Run(w, events, n).shared.store == Store({}, {}, {})
    ensures Wiped(Run(w, events, n))
  {
    if n == erase + 1 {
      OptOutHolds(w, events, erase);
    } else {
      EraseEmpties(w, events, erase, n - 1);
      StaysWiped(Run(w, events, n - 1), events[n - 1]);
    }
  }

  /** What the switch does. Switching on, once saved, leaves it on with nothing pending and
      nothing deleted; switching off, once saved, deletes the addresses and no sample or alert,
      and owes that delete exactly when it failed; unsaved it only overtakes the rounds. */
  lemma SwitchMeans(w: World, on: bool, saved: bool, d: Deletion)
    ensures
      var before, after := w.shared, Step(w, Switch(on, saved, d)).shared;
      && after.on == (if saved then on else before.on)
      && after.gen == (if on then before.gen else before.gen + 1)
      && after.pending == (if !saved then before.pending else !on && d.Failed?)
      && after.store.samples == before.store.samples && after.store.alerts == before.store.alerts
      && (on || !saved ==> after.store.raw == before.store.raw)
      && (!on && saved ==> after.store.raw <= before.store.raw)
      && (!on && saved && d.Deleted? ==> after.store.raw == {})
  {
  }

  /** A retry acts only on a delete that is owed while the switch is off, deletes only
      addresses, and settles the debt exactly when it succeeds. */
  lemma RetryMeans(w: World, d: Deletion)
    ensures
      var before, after := w.shared, Step(w, Retry(d)).shared;
      var owed := before.pending && !before.on;
      && after.on == before.on
      && after.store.samples == before.store.samples && after.store.alerts == before.store.alerts
      && after.store.raw <= before.store.raw
      && (!owed ==> after == before)
      && (owed ==> after.gen == before.gen + 1 && (after.pending <==> d.Failed?) && (d.Deleted? ==> after.store.raw == {}))
  {
  }

  /** A round nothing has overtaken stores, while the switch is on and the write succeeds,
      exactly its new samples with their addresses, less the outdated ones, and its alerts when
      a sample was new; else nothing. */
  lemma {:induction false} HonestRoundStores(w: World, r: nat, window: Window, fails: bool, expired: set<Dest>, alerts: set<nat>)
    requires Consistent(w) && r in w.rounds && w.rounds[r] == Round(w.shared.gen, true)
    ensures
      var before, after := w.shared.store, Step(w, Finish(r, window, fails, expired, alerts)).shared.store;
      && (fails ==> after == before)
      && (!fails ==>
            && after.samples == before.samples + window.samples
            && (forall d :: d in after.raw <==>
                  d !in expired && (d in before.raw || (d in window.dests && d.sample in window.samples && d.sample !in before.samples)))
            && after.alerts == (if window.samples <= before.samples then before.alerts else before.alerts + alerts))
  {
    CountNew(w.shared.store, window);
  }

  lemma CountNew(s: Store, w: Window)
    ensures |NewSamples(s, w)| == 0 <==> w.samples <= s.samples
  {
    if w.samples <= s.samples {
      assert NewSamples(s, w) == {};
    } else {
      var x :| x in w.samples && x !in s.samples;
      assert x in NewSamples(s, w);
    }
  }

  /** A spike in a round nothing has overtaken raises its alerts, and changes nothing else. */
  lemma HonestSpikeIsRaised(w: World, r: nat, alerts: set<nat>)
    requires r in w.rounds && w.rounds[r] == Round(w.shared.gen, true)
    ensures
      var before, after := w.shared.store, Step(w, Spike(r, alerts)).shared.store;
      after.alerts == before.alerts + alerts && after.samples == before.samples && after.raw == before.raw
  {
  }

  /** A failed delete is made good by the first retry that succeeds while the switch stays off. */
  lemma {:induction false} RetryCompletes(w: World)
    requires w.shared.pending && !w.shared.on
    ensures
      var next := Step(w, Retry(Deleted)).shared;
      !next.pending && !next.on && next.store.raw == {}
  {
  }
}
