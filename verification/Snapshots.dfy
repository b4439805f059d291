/** Folding several socket snapshots of one namespace into one bounded summary
    (internal/activity/procnet.py summarise). */
module Snapshots {

  datatype Proto = Tcp | Udp

  datatype State = Est | SynSent | SynRecv | Closed | Listen | Other

  datatype Ip = Ip(text: string, loopback: bool)

  datatype Socket = Socket(proto: Proto, local: Ip, lport: nat, remote: Ip, rport: nat, state: State)

  type Snapshot = seq<Socket>

  /** (protocol, address, port) for a connection dialled, (local port, address) for one
      received. */
  datatype Key = Dialled(proto: Proto, ip: string, port: nat) | Received(lport: nat, ip: string)

  predicate Listener(s: Socket) {
    s.proto == Tcp && s.state == Listen
  }

  function ListeningPorts(snapshots: seq<Snapshot>): set<nat> {
    set snap, s | snap in snapshots && s in snap && Listener(s) :: s.lport
  }

  predicate Bound(s: Socket) {
    s.proto == Udp && s.state == Other
  }

  /** A connected socket that leaves the namespace. */
  predicate Remote(s: Socket) {
    s.state != Listen && !Bound(s) && !s.remote.loopback
  }

  function KeyOf(listening: set<nat>, s: Socket): Key {
    if s.proto == Tcp && s.lport in listening then Received(s.lport, s.remote.text)
    else Dialled(s.proto, s.remote.text, s.rport)
  }

  // ---------------------------------------------------------------------
  // The meaning of the summary: counts over the snapshots.
  // ---------------------------------------------------------------------

  /** What is being counted. */
  datatype Mark =
    | Keyed(listening: set<nat>, key: Key)
    | KeyedIn(listening: set<nat>, key: Key, state: State)
    | Established
    | Dialling
    | BoundUdp

  predicate Marked(mark: Mark, s: Socket) {
    match mark
    case Keyed(listening, key) => Remote(s) && KeyOf(listening, s) == key
    case KeyedIn(listening, key, state) => Remote(s) && KeyOf(listening, s) == key && s.state == state
    case Established => Remote(s) && s.proto == Tcp && s.state == Est
    case Dialling => Remote(s) && s.state == SynSent
    case BoundUdp => Bound(s) && !s.local.loopback
  }

  function Count(snap: Snapshot, mark: Mark, n: nat): nat
    requires n <= |snap|
  {
    if n == 0 then 0 else Count(snap, mark, n - 1) + (if Marked(mark, snap[n - 1]) then 1 else 0)
  }

  /** In how many snapshots, how many sockets in all, and the most in one snapshot. */
  datatype Tally = Tally(seen: nat, total: nat, peak: nat)

  function Max(a: nat, b: nat): nat {
    if a < b then b else a
  }

  function Plus(t: Tally, u: Tally): Tally {
    Tally(t.seen + u.seen, t.total + u.total, Max(t.peak, u.peak))
  }

  function Once(count: nat): Tally {
    Tally(if count > 0 then 1 else 0, count, count)
  }

  function Tallied(snapshots: seq<Snapshot>, mark: Mark, n: nat): Tally
    requires n <= |snapshots|
  {
    if n == 0 then Tally(0, 0, 0)
    else Plus(Tallied(snapshots, mark, n - 1), Once(Count(snapshots[n - 1], mark, |snapshots[n - 1]|)))
  }

  function Overall(snapshots: seq<Snapshot>, mark: Mark): Tally {
    Tallied(snapshots, mark, |snapshots|)
  }

  // ---------------------------------------------------------------------
  // Order does not matter to a tally.
  // ---------------------------------------------------------------------

  lemma {:induction false} CountWithout(snap: Snapshot, mark: Mark, j: nat, n: nat)
    requires j < n <= |snap|
    ensures var without := snap[..j] + snap[j + 1..];
            Count(snap, mark, n) == Count(without, mark, n - 1) + (if Marked(mark, snap[j]) then 1 else 0)
    decreases n
  {
    var without := snap[..j] + snap[j + 1..];
    if j < n - 1 {
      CountWithout(snap, mark, j, n - 1);
      assert without[n - 2] == snap[n - 1];
    } else {
      CountSame(snap, without, mark, j);
    }
  }

  lemma {:induction false} CountSame(a: Snapshot, b: Snapshot, mark: Mark, n: nat)
    requires n <= |a| && n <= |b| && forall k :: 0 <= k < n ==> a[k] == b[k]
    ensures Count(a, mark, n) == Count(b, mark, n)
  {
    if n > 0 {
      CountSame(a, b, mark, n - 1);
    }
  }

  /** Removing the same element from two permuted lists. */
  lemma TakeOut<T>(a: seq<T>, b: seq<T>) returns (j: nat, rest: seq<T>)
    requires a != [] && multiset(a) == multiset(b)
    ensures j < |b| && b[j] == a[|a| - 1] && rest == b[..j] + b[j + 1..]
    ensures multiset(a[..|a| - 1]) == multiset(rest) && |b| == |a|
  {
    var last := a[|a| - 1];
    assert a == a[..|a| - 1] + [last];
    assert last in multiset(b);
    j :| 0 <= j < |b| && b[j] == last;
    rest := b[..j] + b[j + 1..];
    assert b == b[..j] + [last] + b[j + 1..];
    assert multiset(rest) == multiset(b) - multiset{last};
    assert multiset(a[..|a| - 1]) == multiset(a) - multiset{last};
    assert |multiset(a)| == |multiset(b)|;
  }

  lemma {:induction false} CountPermuted(a: Snapshot, b: Snapshot, mark: Mark)
    requires multiset(a) == multiset(b)
    ensures Count(a, mark, |a|) == Count(b, mark, |b|)
    decreases |a|
  {
    if a == [] {
      assert |multiset(b)| == 0;
    } else {
      var j, rest := TakeOut(a, b);
      CountPermuted(a[..|a| - 1], rest, mark);
      CountSame(a, a[..|a| - 1], mark, |a| - 1);
      CountWithout(b, mark, j, |b|);
    }
  }

  lemma {:induction false} TalliedSame(a: seq<Snapshot>, b: seq<Snapshot>, mark: Mark, n: nat)
    requires n <= |a| && n <= |b| && forall k :: 0 <= k < n ==> multiset(a[k]) == multiset(b[k])
    ensures Tallied(a, mark, n) == Tallied(b, mark, n)
  {
    if n > 0 {
      TalliedSame(a, b, mark, n - 1);
      CountPermuted(a[n - 1], b[n - 1], mark);
    }
  }

  lemma PlusSwap(t: Tally, u: Tally, v: Tally)
    ensures Plus(Plus(t, u), v) == Plus(Plus(t, v), u)
  {
  }

  lemma {:induction false} TalliedWithout(a: seq<Snapshot>, mark: Mark, j: nat, n: nat)
    requires j < n <= |a|
    ensures var without := a[..j] + a[j + 1..];
            Tallied(a, mark, n) == Plus(Tallied(without, mark, n - 1), Once(Count(a[j], mark, |a[j]|)))
    decreases n
  {
    var without := a[..j] + a[j + 1..];
    if j < n - 1 {
      TalliedWithout(a, mark, j, n - 1);
      assert without[n - 2] == a[n - 1];
      PlusSwap(Tallied(without, mark, n - 2), Once(Count(a[j], mark, |a[j]|)),
               Once(Count(a[n - 1], mark, |a[n - 1]|)));
    } else {
      TalliedSame(a, without, mark, j);
    }
  }

  lemma {:induction false} TalliedPermuted(a: seq<Snapshot>, b: seq<Snapshot>, mark: Mark)
    requires multiset(a) == multiset(b)
    ensures Overall(a, mark) == Overall(b, mark)
    decreases |a|
  {
    if a == [] {
      assert |multiset(b)| == 0;
    } else {
      var j, rest := TakeOut(a, b);
      TalliedPermuted(a[..|a| - 1], rest, mark);
      TalliedSame(a, a[..|a| - 1], mark, |a| - 1);
      TalliedWithout(b, mark, j, |b|);
    }
  }

  /** The same snapshots in some order, the sockets of each in some order. */
  ghost predicate Reordered(a: seq<Snapshot>, b: seq<Snapshot>) {
    exists mid: seq<Snapshot> :: ReorderedVia(a, mid, b)
  }

  ghost predicate ReorderedVia(a: seq<Snapshot>, mid: seq<Snapshot>, b: seq<Snapshot>) {
    && |a| == |mid| && (forall k :: 0 <= k < |a| ==> multiset(a[k]) == multiset(mid[k]))
    && multiset(mid) == multiset(b)
  }

  lemma TallyIsOrderFree(a: seq<Snapshot>, b: seq<Snapshot>, mark: Mark)
    requires Reordered(a, b)
    ensures Overall(a, mark) == Overall(b, mark)
  {
    var mid :| ReorderedVia(a, mid, b);
    TalliedSame(a, mid, mark, |a|);
    TalliedPermuted(mid, b, mark);
  }

  // ---------------------------------------------------------------------
  // The fold: two dictionaries and running maxima.
  // ---------------------------------------------------------------------

  datatype Entry = Entry(seen: nat, states: map<State, nat>)

  type Entries = map<Key, Entry>

  function SeenAt(entries: Entries, key: Key): nat {
    if key in entries then entries[key].seen else 0
  }

  function StateAt(entries: Entries, key: Key, state: State): nat {
    if key in entries && state in entries[key].states then entries[key].states[state] else 0
  }

  /** Each table holds keys of its own kind. */
  ghost predicate Kinds(outs: Entries, ins: Entries) {
    (forall key :: key in outs ==> key.Dialled?) && (forall key :: key in ins ==> key.Received?)
  }

  /** Keys of either kind in one table of entries. */
  function Side(outs: Entries, ins: Entries, key: Key): Entries {
    if key.Received? then ins else outs
  }

  /** One key's entry after some snapshots, in `seen` of which it appeared, and part of
      another, in which it has appeared `count` times. */
  ghost predicate KeyIs(entries: Entries, now: set<Key>, key: Key, seen: nat, count: nat) {
    && (key in now <==> count > 0)
    && (key in entries <==> seen + count > 0)
    && SeenAt(entries, key) == seen + (if count > 0 then 1 else 0)
  }

  ghost predicate StateIs(entries: Entries, key: Key, state: State, total: nat) {
    && StateAt(entries, key, state) == (if key.Received? then 0 else total)
    && (key in entries && state in entries[key].states ==> entries[key].states[state] > 0)
  }

  /** One key of the tables after `i` snapshots and `j` sockets of the next. */
  ghost predicate FoldedKey(outs: Entries, ins: Entries, now: set<Key>, listening: set<nat>,
                            snapshots: seq<Snapshot>, i: nat, j: nat, key: Key)
    requires i < |snapshots| && j <= |snapshots[i]|
  {
    KeyIs(Side(outs, ins, key), now, key, Tallied(snapshots, Keyed(listening, key), i).seen,
          Count(snapshots[i], Keyed(listening, key), j))
  }

  ghost predicate FoldedState(outs: Entries, ins: Entries, listening: set<nat>,
                              snapshots: seq<Snapshot>, i: nat, j: nat, key: Key, state: State)
    requires i < |snapshots| && j <= |snapshots[i]|
  {
    StateIs(Side(outs, ins, key), key, state,
            Tallied(snapshots, KeyedIn(listening, key, state), i).total
            + Count(snapshots[i], KeyedIn(listening, key, state), j))
  }

  ghost predicate Folded(outs: Entries, ins: Entries, now: set<Key>, listening: set<nat>,
                         snapshots: seq<Snapshot>, i: nat, j: nat)
    requires i < |snapshots| && j <= |snapshots[i]|
  {
    && (forall key: Key :: FoldedKey(outs, ins, now, listening, snapshots, i, j, key))
    && (forall key: Key, state: State :: FoldedState(outs, ins, listening, snapshots, i, j, key, state))
  }

  /** Between two snapshots. */
  ghost predicate WholeKey(outs: Entries, ins: Entries, listening: set<nat>, snapshots: seq<Snapshot>, i: nat, key: Key)
    requires i <= |snapshots|
  {
    KeyIs(Side(outs, ins, key), {}, key, Tallied(snapshots, Keyed(listening, key), i).seen, 0)
  }

  ghost predicate WholeState(outs: Entries, ins: Entries, listening: set<nat>, snapshots: seq<Snapshot>, i: nat,
                             key: Key, state: State)
    requires i <= |snapshots|
  {
    StateIs(Side(outs, ins, key), key, state, Tallied(snapshots, KeyedIn(listening, key, state), i).total)
  }

  ghost predicate Whole(outs: Entries, ins: Entries, listening: set<nat>, snapshots: seq<Snapshot>, i: nat)
    requires i <= |snapshots|
  {
    && (forall key: Key :: WholeKey(outs, ins, listening, snapshots, i, key))
    && (forall key: Key, state: State :: WholeState(outs, ins, listening, snapshots, i, key, state))
  }

  /** Adding one sighting to a table: the entry is created when the key is new, and counted
      once per snapshot. */
  method Sight(entries: Entries, now: set<Key>, key: Key) returns (entries': Entries)
    ensures entries'.Keys == entries.Keys + {key}
    ensures forall other :: other != key && other in entries ==> entries'[other] == entries[other]
    ensures SeenAt(entries', key) == SeenAt(entries, key) + (if key in now then 0 else 1)
    ensures entries'[key].states == if key in entries then entries[key].states else map[]
  {
    var entry := if key in entries then entries[key] else Entry(0, map[]);
    if key !in now {
      entry := entry.(seen := entry.seen + 1);
    }
    entries' := entries[key := entry];
  }

  method CountState(entries: Entries, key: Key, state: State) returns (entries': Entries)
    requires key in entries
    ensures entries'.Keys == entries.Keys
    ensures forall other :: other != key && other in entries ==> entries'[other] == entries[other]
    ensures entries'[key].seen == entries[key].seen
    ensures entries'[key].states == entries[key].states[state := StateAt(entries, key, state) + 1]
  {
    var entry := entries[key];
    entries' := entries[key := entry.(states := entry.states[state := StateAt(entries, key, state) + 1])];
  }

  function StatesAt(entries: Entries, key: Key): map<State, nat> {
    if key in entries then entries[key].states else map[]
  }

  ghost predicate SameAt(entries: Entries, entries': Entries, key: Key) {
    && (key in entries <==> key in entries')
    && SeenAt(entries, key) == SeenAt(entries', key)
    && StatesAt(entries, key) == StatesAt(entries', key)
  }

  /** What one sighting of `key` does to its table; nothing happens to other keys. */
  ghost predicate SightedAt(entries: Entries, entries': Entries, key: Key, again: bool, state: State) {
    && key in entries'
    && SeenAt(entries', key) == SeenAt(entries, key) + (if again then 0 else 1)
    && StatesAt(entries', key)
       == (if key.Received? then StatesAt(entries, key)
           else StatesAt(entries, key)[state := StateAt(entries, key, state) + 1])
  }

  method SightSocket(outs: Entries, ins: Entries, now: set<Key>, listening: set<nat>, s: Socket)
    returns (outs': Entries, ins': Entries, now': set<Key>)
    requires Kinds(outs, ins)
    ensures Kinds(outs', ins')
    ensures now' == now + {KeyOf(listening, s)}
    ensures forall key :: key != KeyOf(listening, s) ==> SameAt(Side(outs, ins, key), Side(outs', ins', key), key)
    ensures var key := KeyOf(listening, s);
            SightedAt(Side(outs, ins, key), Side(outs', ins', key), key, key in now, s.state)
  {
    outs', ins' := outs, ins;
    var key := KeyOf(listening, s);
    if s.proto == Tcp && s.lport in listening {
      ins' := Sight(ins, now, key);
    } else {
      outs' := Sight(outs, now, key);
      outs' := CountState(outs', key, s.state);
    }
    now' := now + {key};
  }

  lemma StepKey(outs: Entries, ins: Entries, now: set<Key>, outs': Entries, ins': Entries, now': set<Key>,
                listening: set<nat>, snapshots: seq<Snapshot>, i: nat, j: nat, key: Key)
    requires i < |snapshots| && j < |snapshots[i]| && Remote(snapshots[i][j])
    requires FoldedKey(outs, ins, now, listening, snapshots, i, j, key)
    requires var s := snapshots[i][j];
             var at := KeyOf(listening, s);
             && now' == now + {at}
             && (key != at ==> SameAt(Side(outs, ins, key), Side(outs', ins', key), key))
             && (key == at ==> SightedAt(Side(outs, ins, key), Side(outs', ins', key), key, key in now, s.state))
    ensures FoldedKey(outs', ins', now', listening, snapshots, i, j + 1, key)
  {
  }

  lemma StepState(outs: Entries, ins: Entries, outs': Entries, ins': Entries, again: bool,
                  listening: set<nat>, snapshots: seq<Snapshot>, i: nat, j: nat, key: Key, state: State)
    requires i < |snapshots| && j < |snapshots[i]| && Remote(snapshots[i][j])
    requires FoldedState(outs, ins, listening, snapshots, i, j, key, state)
    requires var s := snapshots[i][j];
             var at := KeyOf(listening, s);
             && (key != at ==> SameAt(Side(outs, ins, key), Side(outs', ins', key), key))
             && (key == at ==> SightedAt(Side(outs, ins, key), Side(outs', ins', key), key, again, s.state))
    ensures FoldedState(outs', ins', listening, snapshots, i, j + 1, key, state)
  {
    var s := snapshots[i][j];
    if key == KeyOf(listening, s) {
    }
  }

  lemma Step(outs: Entries, ins: Entries, now: set<Key>, outs': Entries, ins': Entries, now': set<Key>,
             listening: set<nat>, snapshots: seq<Snapshot>, i: nat, j: nat)
    requires i < |snapshots| && j < |snapshots[i]| && Remote(snapshots[i][j])
    requires Folded(outs, ins, now, listening, snapshots, i, j)
    requires var s := snapshots[i][j];
             var at := KeyOf(listening, s);
             && now' == now + {at}
             && (forall key :: key != at ==> SameAt(Side(outs, ins, key), Side(outs', ins', key), key))
             && SightedAt(Side(outs, ins, at), Side(outs', ins', at), at, at in now, s.state)
    ensures Folded(outs', ins', now', listening, snapshots, i, j + 1)
  {
    var next := j + 1;
    forall key: Key
      ensures FoldedKey(outs', ins', now', listening, snapshots, i, next, key)
    {
      StepKey(outs, ins, now, outs', ins', now', listening, snapshots, i, j, key);
    }
    forall key: Key, state: State
      ensures FoldedState(outs', ins', listening, snapshots, i, next, key, state)
    {
      StepState(outs, ins, outs', ins', key in now, listening, snapshots, i, j, key, state);
    }
  }

  lemma Skip(outs: Entries, ins: Entries, now: set<Key>, listening: set<nat>, snapshots: seq<Snapshot>, i: nat, j: nat)
    requires i < |snapshots| && j < |snapshots[i]| && !Remote(snapshots[i][j])
    requires Folded(outs, ins, now, listening, snapshots, i, j)
    ensures Folded(outs, ins, now, listening, snapshots, i, j + 1)
  {
    var next := j + 1;
    forall key: Key
      ensures FoldedKey(outs, ins, now, listening, snapshots, i, next, key)
    {
      assert FoldedKey(outs, ins, now, listening, snapshots, i, j, key);
    }
    forall key: Key, state: State
      ensures FoldedState(outs, ins, listening, snapshots, i, next, key, state)
    {
      assert FoldedState(outs, ins, listening, snapshots, i, j, key, state);
    }
  }

  /** A snapshot begins with nothing seen in it, and when it ends it is one of those before. */
  lemma Begin(outs: Entries, ins: Entries, listening: set<nat>, snapshots: seq<Snapshot>, i: nat)
    requires i < |snapshots| && Whole(outs, ins, listening, snapshots, i)
    ensures Folded(outs, ins, {}, listening, snapshots, i, 0)
  {
    forall key: Key
      ensures FoldedKey(outs, ins, {}, listening, snapshots, i, 0, key)
    {
      assert WholeKey(outs, ins, listening, snapshots, i, key);
    }
    forall key: Key, state: State
      ensures FoldedState(outs, ins, listening, snapshots, i, 0, key, state)
    {
      assert WholeState(outs, ins, listening, snapshots, i, key, state);
    }
  }

  lemma Finish(outs: Entries, ins: Entries, now: set<Key>, listening: set<nat>, snapshots: seq<Snapshot>, i: nat)
    requires i < |snapshots| && Folded(outs, ins, now, listening, snapshots, i, |snapshots[i]|)
    ensures Whole(outs, ins, listening, snapshots, i + 1)
  {
    var next := i + 1;
    forall key: Key
      ensures WholeKey(outs, ins, listening, snapshots, next, key)
    {
      assert FoldedKey(outs, ins, now, listening, snapshots, i, |snapshots[i]|, key);
    }
    forall key: Key, state: State
      ensures WholeState(outs, ins, listening, snapshots, next, key, state)
    {
      assert FoldedState(outs, ins, listening, snapshots, i, |snapshots[i]|, key, state);
    }
  }

  method FoldSnapshot(outs: Entries, ins: Entries, listening: set<nat>, snapshots: seq<Snapshot>, i: nat)
    returns (outs': Entries, ins': Entries, est: nat, syn: nat, bound: nat)
    requires i < |snapshots| && Kinds(outs, ins) && Whole(outs, ins, listening, snapshots, i)
    ensures Kinds(outs', ins') && Whole(outs', ins', listening, snapshots, i + 1)
    ensures est == Count(snapshots[i], Established, |snapshots[i]|)
    ensures syn == Count(snapshots[i], Dialling, |snapshots[i]|)
    ensures bound == Count(snapshots[i], BoundUdp, |snapshots[i]|)
  {
    outs', ins', est, syn, bound := outs, ins, 0, 0, 0;
    var snap, now: set<Key> := snapshots[i], {};
    Begin(outs, ins, listening, snapshots, i);
    for j := 0 to |snap|
      invariant Kinds(outs', ins') && Folded(outs', ins', now, listening, snapshots, i, j)
      invariant est == Count(snap, Established, j) && syn == Count(snap, Dialling, j)
      invariant bound == Count(snap, BoundUdp, j)
    {
      var s := snap[j];
      if s.state == Listen {
        Skip(outs', ins', now, listening, snapshots, i, j);
        continue;
      }
      if s.proto == Udp && s.state == Other {
        if !s.local.loopback {
          bound := bound + 1;
        }
        Skip(outs', ins', now, listening, snapshots, i, j);
        continue;
      }
      if s.remote.loopback {
        Skip(outs', ins', now, listening, snapshots, i, j);
        continue;
      }
      if s.proto == Tcp && s.state == Est {
        est := est + 1;
      } else if s.state == SynSent {
        syn := syn + 1;
      }
      var outs1, ins1, now1 := SightSocket(outs', ins', now, listening, s);
      Step(outs', ins', now, outs1, ins1, now1, listening, snapshots, i, j);
      outs', ins', now := outs1, ins1, now1;
    }
    Finish(outs', ins', now, listening, snapshots, i);
  }

  // ---------------------------------------------------------------------
  // Rows in order: most seen first, then by key.
  // ---------------------------------------------------------------------

  datatype Row = Row(key: Key, seen: nat, states: map<State, nat>)

  /** Text order, from position `i` on. */
  predicate TextBefore(a: string, b: string, i: nat)
    requires i <= |a| && i <= |b|
    decreases |a| - i
  {
    if i == |b| then false
    else if i == |a| then true
    else if a[i] != b[i] then a[i] < b[i]
    else TextBefore(a, b, i + 1)
  }

  lemma {:induction false} TextNotBoth(a: string, b: string, i: nat)
    requires i <= |a| && i <= |b| && TextBefore(a, b, i)
    ensures !TextBefore(b, a, i)
    decreases |a| - i
  {
    if i < |a| && i < |b| && a[i] == b[i] {
      TextNotBoth(a, b, i + 1);
    }
  }

  lemma {:induction false} TextTotal(a: string, b: string, i: nat)
    requires i <= |a| && i <= |b| && a[..i] == b[..i] && a != b
    ensures TextBefore(a, b, i) || TextBefore(b, a, i)
    decreases |a| - i
  {
    if i == |a| || i == |b| {
      assert a == a[..|a|] && b == b[..|b|];
    } else if a[i] == b[i] {
      assert a[..i + 1] == a[..i] + [a[i]] == b[..i + 1];
      TextTotal(a, b, i + 1);
    }
  }

  lemma {:induction false} TextChain(a: string, b: string, c: string, i: nat)
    requires i <= |a| && i <= |b| && i <= |c| && TextBefore(a, b, i) && TextBefore(b, c, i)
    ensures TextBefore(a, c, i)
    decreases |a| - i
  {
    if i < |a| && a[i] == b[i] == c[i] {
      TextChain(a, b, c, i + 1);
    }
  }

  function Rank(p: Proto): nat {
    if p == Tcp then 0 else 1
  }

  predicate KeyBefore(a: Key, b: Key) {
    match (a, b)
    case (Dialled(p, ip, port), Dialled(q, ip', port')) =>
      Rank(p) < Rank(q) || (p == q && (TextBefore(ip, ip', 0) || (ip == ip' && port < port')))
    case (Received(lport, ip), Received(lport', ip')) =>
      lport < lport' || (lport == lport' && TextBefore(ip, ip', 0))
    case _ => a.Dialled? && b.Received?
  }

  predicate Before(a: Row, b: Row) {
    a.seen > b.seen || (a.seen == b.seen && KeyBefore(a.key, b.key))
  }

  lemma BeforeNotBoth(a: Row, b: Row)
    requires Before(a, b)
    ensures !Before(b, a)
  {
    if TextBefore(a.key.ip, b.key.ip, 0) {
      TextNotBoth(a.key.ip, b.key.ip, 0);
    }
  }

  lemma BeforeTotal(a: Row, b: Row)
    requires a.key != b.key
    ensures Before(a, b) || Before(b, a)
  {
    if a.key.ip != b.key.ip {
      TextTotal(a.key.ip, b.key.ip, 0);
    }
  }

  lemma BeforeChain(a: Row, b: Row, c: Row)
    requires Before(a, b) && Before(b, c)
    ensures Before(a, c)
  {
    if TextBefore(a.key.ip, b.key.ip, 0) && TextBefore(b.key.ip, c.key.ip, 0) {
      TextChain(a.key.ip, b.key.ip, c.key.ip, 0);
    }
  }

  ghost predicate Ordered(rows: seq<Row>) {
    forall i, j :: 0 <= i < j < |rows| ==> Before(rows[i], rows[j])
  }

  /** Text order by the first place where the two differ. */
  ghost predicate Precedes(a: string, b: string) {
    exists k: nat :: DiffersAt(a, b, k)
  }

  ghost predicate DiffersAt(a: string, b: string, k: nat) {
    && k <= |a| && k < |b| && a[..k] == b[..k]
    && (k == |a| || a[k] < b[k])
  }

  lemma {:induction false} TextPrecedes(a: string, b: string, i: nat)
    requires i <= |a| && i <= |b| && a[..i] == b[..i] && TextBefore(a, b, i)
    ensures Precedes(a, b)
    decreases |a| - i
  {
    if i == |a| || a[i] != b[i] {
      assert DiffersAt(a, b, i);
    } else {
      assert a[..i + 1] == a[..i] + [a[i]] == b[..i + 1];
      TextPrecedes(a, b, i + 1);
    }
  }

  /** What the order is: most seen first; of dialled rows seen alike TCP before UDP, then by
      address, then by port; of received ones by port, then by address. */
  lemma OrderMeans(rows: seq<Row>, i: nat, j: nat)
    requires Ordered(rows) && i < j < |rows|
    ensures
      var a, b := rows[i], rows[j];
      && a.seen >= b.seen
      && (a.seen == b.seen && a.key.Dialled? && b.key.Dialled? ==>
            || (a.key.proto == Tcp && b.key.proto == Udp)
            || (a.key.proto == b.key.proto && (Precedes(a.key.ip, b.key.ip) || (a.key.ip == b.key.ip && a.key.port < b.key.port))))
      && (a.seen == b.seen && a.key.Received? && b.key.Received? ==>
            a.key.lport < b.key.lport || (a.key.lport == b.key.lport && Precedes(a.key.ip, b.key.ip)))
  {
    var a, b := rows[i], rows[j];
    assert Before(a, b);
    if TextBefore(a.key.ip, b.key.ip, 0) {
      TextPrecedes(a.key.ip, b.key.ip, 0);
    }
  }

  /** There is one ordered list of the same rows. */
  lemma {:induction false} OrderedUnique(a: seq<Row>, b: seq<Row>)
    requires Ordered(a) && Ordered(b) && forall row :: row in a <==> row in b
    ensures a == b
    decreases |a|
  {
    if b != [] {
      assert b[0] in b;
    }
    if a != [] {
      assert a[0] in b && b[0] in a;
      SameFirst(a, b);
      forall row
        ensures row in a[1..] <==> row in b[1..]
      {
        InTail(a, row);
        InTail(b, row);
      }
      OrderedUnique(a[1..], b[1..]);
      assert a == [a[0]] + a[1..] && b == [b[0]] + b[1..];
    }
  }

  lemma SameFirst(a: seq<Row>, b: seq<Row>)
    requires Ordered(a) && Ordered(b) && a != [] && b != [] && a[0] in b && b[0] in a
    ensures a[0] == b[0]
  {
    if a[0] != b[0] {
      var i :| 0 <= i < |a| && a[i] == b[0];
      var j :| 0 <= j < |b| && b[j] == a[0];
      assert Before(a[0], a[i]) && Before(b[0], b[j]);
      BeforeNotBoth(a[0], b[0]);
    }
  }

  lemma InTail(a: seq<Row>, row: Row)
    requires Ordered(a) && a != []
    ensures row in a[1..] <==> row in a && row != a[0]
  {
    if a[0] in a[1..] {
      var k :| 1 <= k < |a| && a[k] == a[0];
      BeforeNotBoth(a[0], a[k]);
    }
    assert a == [a[0]] + a[1..];
  }

  /** Python's sorted, as insertion of one row at a time. */
  method SortRows(entries: Entries) returns (rows: seq<Row>)
    ensures Ordered(rows)
    ensures forall row :: row in rows <==> row.key in entries && row == Row(row.key, entries[row.key].seen, entries[row.key].states)
  {
    rows := [];
    var left := entries.Keys;
    while left != {}
      invariant left <= entries.Keys && Ordered(rows)
      invariant forall row :: row in rows <==>
        row.key in entries && row.key !in left && row == Row(row.key, entries[row.key].seen, entries[row.key].states)
      decreases left
    {
      var key :| key in left;
      rows := Insert(rows, Row(key, entries[key].seen, entries[key].states));
      left := left - {key};
    }
  }

  method Insert(rows: seq<Row>, row: Row) returns (more: seq<Row>)
    requires Ordered(rows) && forall other :: other in rows ==> other.key != row.key
    ensures Ordered(more)
    ensures forall other :: other in more <==> other in rows || other == row
  {
    var i := 0;
    while i < |rows| && Before(rows[i], row)
      invariant i <= |rows| && forall k :: 0 <= k < i ==> Before(rows[k], row)
    {
      i := i + 1;
    }
    more := rows[..i] + [row] + rows[i..];
    forall k | i <= k < |rows|
      ensures Before(row, rows[k])
    {
      assert rows[i] in rows && rows[k] in rows;
      BeforeTotal(row, rows[i]);
      if i < k {
        BeforeChain(row, rows[i], rows[k]);
      }
    }
  }

  // ---------------------------------------------------------------------
  // The summary.
  // ---------------------------------------------------------------------

  const CAP_OUT := 40
  const CAP_IN := 20

  datatype Summary = Summary(estMax: nat, synSentMax: nat, udpBound: nat, listenPorts: set<nat>, remotesTotal: nat,
                             truncated: bool, outRows: seq<Row>, inRows: seq<Row>)

  /** The row of a key: how many snapshots it appeared in and, for a connection dialled, how
      many sockets were in each state. */
  ghost predicate RowIs(snapshots: seq<Snapshot>, row: Row) {
    var listening := ListeningPorts(snapshots);
    && row.seen == Overall(snapshots, Keyed(listening, row.key)).seen > 0
    && forall state :: StateOf(snapshots, listening, row, state)
  }

  ghost predicate StateOf(snapshots: seq<Snapshot>, listening: set<nat>, row: Row, state: State) {
    var total := if row.key.Received? then 0 else Overall(snapshots, KeyedIn(listening, row.key, state)).total;
    && (state in row.states <==> total > 0)
    && (state in row.states ==> row.states[state] == total)
  }

  function Min(a: nat, b: nat): nat {
    if a < b then a else b
  }

  /** The ports reachable from outside the namespace. */
  function OpenPorts(snapshots: seq<Snapshot>): set<nat> {
    set snap, s | snap in snapshots && s in snap && Listener(s) && !s.local.loopback :: s.lport
  }

  /** All rows of one kind, in order. */
  ghost predicate RowsAre(snapshots: seq<Snapshot>, rows: seq<Row>, received: bool) {
    Ordered(rows) && forall row :: row in rows <==> row.key.Received? == received && RowIs(snapshots, row)
  }

  ghost predicate Capped(r: Summary, outs: seq<Row>, ins: seq<Row>) {
    && r.remotesTotal == |outs| + |ins|
    && r.truncated == (|outs| > CAP_OUT || |ins| > CAP_IN)
    && r.outRows == outs[..Min(|outs|, CAP_OUT)]
    && r.inRows == ins[..Min(|ins|, CAP_IN)]
  }

  ghost predicate RowsFit(snapshots: seq<Snapshot>, r: Summary, outs: seq<Row>, ins: seq<Row>) {
    RowsAre(snapshots, outs, false) && RowsAre(snapshots, ins, true) && Capped(r, outs, ins)
  }

  /** What a summary says of its snapshots. */
  ghost predicate Summarises(snapshots: seq<Snapshot>, r: Summary) {
    && r.estMax == Overall(snapshots, Established).peak
    && r.synSentMax == Overall(snapshots, Dialling).peak
    && r.udpBound == Overall(snapshots, BoundUdp).peak
    && r.listenPorts == OpenPorts(snapshots)
    && exists outs, ins :: RowsFit(snapshots, r, outs, ins)
  }

  method Summarise(snapshots: seq<Snapshot>) returns (r: Summary)
    ensures Summarises(snapshots, r)
  {
    var listening := ListeningPorts(snapshots);
    var outs, ins: Entries := map[], map[];
    var estMax, synMax, udpBound := 0, 0, 0;
    var listen: set<nat> := {};
    for i := 0 to |snapshots|
      invariant Kinds(outs, ins) && Whole(outs, ins, listening, snapshots, i)
      invariant estMax == Tallied(snapshots, Established, i).peak
      invariant synMax == Tallied(snapshots, Dialling, i).peak
      invariant udpBound == Tallied(snapshots, BoundUdp, i).peak
      invariant listen == OpenPorts(snapshots[..i])
    {
      listen := AddPorts(snapshots, i, listen);
      var est, syn, bound;
      outs, ins, est, syn, bound := FoldSnapshot(outs, ins, listening, snapshots, i);
      estMax, synMax, udpBound := Max(estMax, est), Max(synMax, syn), Max(udpBound, bound);
    }
    assert snapshots[..|snapshots|] == snapshots;
    var outSorted := SortRows(outs);
    var inSorted := SortRows(ins);
    RowsAreTheEntries(snapshots, outs, ins, outSorted, inSorted);
    r := Summary(estMax, synMax, udpBound, listen, |outSorted| + |inSorted|,
                 |outSorted| > CAP_OUT || |inSorted| > CAP_IN,
                 outSorted[..Min(|outSorted|, CAP_OUT)], inSorted[..Min(|inSorted|, CAP_IN)]);
    assert RowsFit(snapshots, r, outSorted, inSorted);
  }

  lemma RowsAreTheEntries(snapshots: seq<Snapshot>, outs: Entries, ins: Entries, outRows: seq<Row>, inRows: seq<Row>)
    requires Kinds(outs, ins) && Whole(outs, ins, ListeningPorts(snapshots), snapshots, |snapshots|)
    requires RowsOf(outRows, outs) && RowsOf(inRows, ins)
    ensures forall row :: row in outRows <==> !row.key.Received? && RowIs(snapshots, row)
    ensures forall row :: row in inRows <==> row.key.Received? && RowIs(snapshots, row)
  {
    forall row
      ensures row in outRows <==> !row.key.Received? && RowIs(snapshots, row)
      ensures row in inRows <==> row.key.Received? && RowIs(snapshots, row)
    {
      EntryRow(snapshots, outs, ins, row);
    }
  }

  method AddPorts(snapshots: seq<Snapshot>, i: nat, listen: set<nat>) returns (more: set<nat>)
    requires i < |snapshots| && listen == OpenPorts(snapshots[..i])
    ensures more == OpenPorts(snapshots[..i + 1])
  {
    var snap := snapshots[i];
    more := listen + set s | s in snap && Listener(s) && !s.local.loopback :: s.lport;
    assert snapshots[..i + 1] == snapshots[..i] + [snap];
    forall port
      ensures port in more <==> port in OpenPorts(snapshots[..i + 1])
    {
      if port in OpenPorts(snapshots[..i + 1]) {
        var sn, s :| sn in snapshots[..i + 1] && s in sn && Listener(s) && !s.local.loopback && s.lport == port;
        assert sn in snapshots[..i] || sn == snap;
      }
    }
  }

  ghost predicate RowsOf(rows: seq<Row>, entries: Entries) {
    forall row :: row in rows <==>
      row.key in entries && row == Row(row.key, entries[row.key].seen, entries[row.key].states)
  }

  lemma EntryRow(snapshots: seq<Snapshot>, outs: Entries, ins: Entries, row: Row)
    requires Whole(outs, ins, ListeningPorts(snapshots), snapshots, |snapshots|)
    ensures var entries := Side(outs, ins, row.key);
            (row.key in entries && row == Row(row.key, entries[row.key].seen, entries[row.key].states))
            <==> RowIs(snapshots, row)
  {
    var entries, listening := Side(outs, ins, row.key), ListeningPorts(snapshots);
    assert WholeKey(outs, ins, listening, snapshots, |snapshots|, row.key);
    if row.key in entries {
      var entry := Row(row.key, entries[row.key].seen, entries[row.key].states);
      forall state
        ensures StateOf(snapshots, listening, entry, state)
      {
        assert WholeState(outs, ins, listening, snapshots, |snapshots|, row.key, state);
      }
      if RowIs(snapshots, row) {
        SameStates(snapshots, listening, row, entry);
      }
    }
  }

  lemma SameStates(snapshots: seq<Snapshot>, listening: set<nat>, a: Row, b: Row)
    requires a.key == b.key
    requires forall state :: StateOf(snapshots, listening, a, state)
    requires forall state :: StateOf(snapshots, listening, b, state)
    ensures a.states == b.states
  {
    forall state
      ensures state in a.states <==> state in b.states
      ensures state in a.states ==> a.states[state] == b.states[state]
    {
      assert StateOf(snapshots, listening, a, state) && StateOf(snapshots, listening, b, state);
    }
  }

  /** The summary does not depend on the order of the snapshots, nor on the order of the
      sockets in any of them. */
  lemma {:induction false} SummaryIsOrderFree(a: seq<Snapshot>, ra: Summary, b: seq<Snapshot>, rb: Summary)
    requires Reordered(a, b) && Summarises(a, ra) && Summarises(b, rb)
    ensures ra == rb
  {
    TallyIsOrderFree(a, b, Established);
    TallyIsOrderFree(a, b, Dialling);
    TallyIsOrderFree(a, b, BoundUdp);
    SocketsReordered(a, b);
    var outsA, insA :| RowsFit(a, ra, outsA, insA);
    var outsB, insB :| RowsFit(b, rb, outsB, insB);
    SameRows(a, b, outsA, outsB, false);
    SameRows(a, b, insA, insB, true);
  }

  lemma SameRows(a: seq<Snapshot>, b: seq<Snapshot>, rowsA: seq<Row>, rowsB: seq<Row>, received: bool)
    requires Reordered(a, b) && ListeningPorts(a) == ListeningPorts(b)
    requires RowsAre(a, rowsA, received) && RowsAre(b, rowsB, received)
    ensures rowsA == rowsB
  {
    forall row
      ensures RowIs(a, row) <==> RowIs(b, row)
    {
      RowIsOrderFree(a, b, row);
    }
    OrderedUnique(rowsA, rowsB);
  }

  ghost predicate Holds(snapshots: seq<Snapshot>, s: Socket) {
    exists snap :: snap in snapshots && s in snap
  }

  lemma SocketsReordered(a: seq<Snapshot>, b: seq<Snapshot>)
    requires Reordered(a, b)
    ensures forall s :: Holds(a, s) <==> Holds(b, s)
    ensures ListeningPorts(a) == ListeningPorts(b) && OpenPorts(a) == OpenPorts(b)
  {
    var mid :| ReorderedVia(a, mid, b);
    forall s
      ensures Holds(a, s) <==> Holds(b, s)
    {
      SocketReordered(a, mid, b, s);
    }
    PortsOf(a);
    PortsOf(b);
  }

  lemma PortsOf(a: seq<Snapshot>)
    ensures forall port :: port in ListeningPorts(a) <==> exists s :: Holds(a, s) && Listener(s) && s.lport == port
    ensures forall port :: port in OpenPorts(a)
                           <==> exists s :: Holds(a, s) && Listener(s) && !s.local.loopback && s.lport == port
  {
  }

  lemma HoldsAt(a: seq<Snapshot>, k: nat, s: Socket)
    requires k < |a| && s in a[k]
    ensures Holds(a, s)
  {
  }

  lemma HoldsPermuted(a: seq<Snapshot>, b: seq<Snapshot>, s: Socket)
    requires multiset(a) == multiset(b) && Holds(a, s)
    ensures Holds(b, s)
  {
    var snap :| snap in a && s in snap;
    assert snap in multiset(b);
  }

  lemma HoldsInside(a: seq<Snapshot>, b: seq<Snapshot>, s: Socket)
    requires |a| == |b| && forall k :: 0 <= k < |a| ==> multiset(a[k]) == multiset(b[k])
    requires Holds(a, s)
    ensures Holds(b, s)
  {
    var snap :| snap in a && s in snap;
    var k :| 0 <= k < |a| && a[k] == snap;
    assert s in multiset(b[k]);
    HoldsAt(b, k, s);
  }

  lemma SocketReordered(a: seq<Snapshot>, mid: seq<Snapshot>, b: seq<Snapshot>, s: Socket)
    requires ReorderedVia(a, mid, b)
    ensures Holds(a, s) <==> Holds(b, s)
  {
    if Holds(a, s) {
      HoldsInside(a, mid, s);
      HoldsPermuted(mid, b, s);
    }
    if Holds(b, s) {
      HoldsPermuted(b, mid, s);
      HoldsInside(mid, a, s);
    }
  }

  lemma RowIsOrderFree(a: seq<Snapshot>, b: seq<Snapshot>, row: Row)
    requires Reordered(a, b) && ListeningPorts(a) == ListeningPorts(b)
    ensures RowIs(a, row) <==> RowIs(b, row)
  {
    var listening := ListeningPorts(a);
    TallyIsOrderFree(a, b, Keyed(listening, row.key));
    forall state
      ensures StateOf(a, listening, row, state) <==> StateOf(b, listening, row, state)
    {
      TallyIsOrderFree(a, b, KeyedIn(listening, row.key, state));
    }
  }

  /** The caps drop only rows seen no more often than every row they keep. */
  lemma {:induction false} CapsKeepTheMostSeen(snapshots: seq<Snapshot>, r: Summary, kept: Row, dropped: Row)
    requires Summarises(snapshots, r) && RowIs(snapshots, kept) && RowIs(snapshots, dropped)
    requires var rows := if kept.key.Received? then r.inRows else r.outRows;
             dropped.key.Received? == kept.key.Received? && kept in rows && dropped !in rows
    ensures dropped.seen <= kept.seen
  {
    var outs, ins :| RowsFit(snapshots, r, outs, ins);
    var rows, cap := if kept.key.Received? then ins else outs, if kept.key.Received? then CAP_IN else CAP_OUT;
  }

  // ---------------------------------------------------------------------
  // The summary, in the fields of the sockets it counts.
  // ---------------------------------------------------------------------

  /** Some snapshot shows a TCP listener on the port. */
  ghost predicate ListensOn(snapshots: seq<Snapshot>, port: nat) {
    exists s :: Holds(snapshots, s) && s.proto == Tcp && s.state == Listen && s.lport == port
  }

  /** A socket that belongs in a row: neither a listener nor an unconnected UDP socket nor one to
      the namespace itself; received on a listening port, or else dialled. */
  ghost predicate InRow(snapshots: seq<Snapshot>, key: Key, s: Socket) {
    && s.state != Listen && !(s.proto == Udp && s.state == Other) && !s.remote.loopback && s.remote.text == key.ip
    && match key
       case Received(lport, _) => s.proto == Tcp && s.lport == lport && ListensOn(snapshots, lport)
       case Dialled(proto, _, port) =>
         s.proto == proto && s.rport == port && !(s.proto == Tcp && ListensOn(snapshots, s.lport))
  }

  lemma ListeningIs(snapshots: seq<Snapshot>, port: nat)
    ensures port in ListeningPorts(snapshots) <==> ListensOn(snapshots, port)
  {
    PortsOf(snapshots);
  }

  lemma KeyedIsInRow(snapshots: seq<Snapshot>, key: Key, s: Socket)
    ensures Marked(Keyed(ListeningPorts(snapshots), key), s) <==> InRow(snapshots, key, s)
  {
    ListeningIs(snapshots, s.lport);
  }

  // Counting by position, whatever is counted.

  ghost function Trues(bs: seq<bool>, n: nat): set<nat>
    requires n <= |bs|
  {
    set j: nat | j < n && bs[j]
  }

  lemma OneMoreTrue(bs: seq<bool>, n: nat)
    requires n < |bs|
    ensures |Trues(bs, n + 1)| == |Trues(bs, n)| + (if bs[n] then 1 else 0)
  {
    assert Trues(bs, n + 1) == if bs[n] then Trues(bs, n) + {n} else Trues(bs, n);
  }

  ghost function Pairs(rows: seq<set<nat>>, n: nat): set<(nat, nat)>
    requires n <= |rows|
  {
    set i: nat, j | i < n && j in rows[i] :: (i, j)
  }

  ghost function Paired(i: nat, js: set<nat>): set<(nat, nat)> {
    set j | j in js :: (i, j)
  }

  lemma {:induction false} PairsCount(i: nat, js: set<nat>)
    ensures |Paired(i, js)| == |js|
  {
    if js == {} {
      assert Paired(i, js) == {};
    } else {
      var one :| one in js;
      PairsCount(i, js - {one});
      assert Paired(i, js) == Paired(i, js - {one}) + {(i, one)};
    }
  }

  lemma OneMorePair(rows: seq<set<nat>>, n: nat)
    requires n < |rows|
    ensures |Pairs(rows, n + 1)| == |Pairs(rows, n)| + |rows[n]|
  {
    PairsCount(n, rows[n]);
    assert Pairs(rows, n + 1) == Pairs(rows, n) + Paired(n, rows[n]) && Pairs(rows, n) !! Paired(n, rows[n]);
  }

  /** Which sockets of a snapshot are marked. */
  ghost function Marks(snap: Snapshot, mark: Mark): seq<bool> {
    seq(|snap|, j requires 0 <= j < |snap| => Marked(mark, snap[j]))
  }

  lemma {:induction false} CountIsTrues(snap: Snapshot, mark: Mark, n: nat)
    requires n <= |snap|
    ensures Count(snap, mark, n) == |Trues(Marks(snap, mark), n)|
  {
    if n == 0 {
      assert Trues(Marks(snap, mark), 0) == {};
    } else {
      CountIsTrues(snap, mark, n - 1);
      OneMoreTrue(Marks(snap, mark), n - 1);
    }
  }

  lemma SomeMarked(snap: Snapshot, mark: Mark)
    ensures Count(snap, mark, |snap|) > 0 <==> exists s :: s in snap && Marked(mark, s)
  {
    CountIsTrues(snap, mark, |snap|);
    var at := Trues(Marks(snap, mark), |snap|);
    if s :| s in snap && Marked(mark, s) {
      var j :| 0 <= j < |snap| && snap[j] == s;
      assert j in at;
    } else {
      assert at == {};
    }
  }

  /** In which snapshots some socket is marked. */
  ghost function Appears(snapshots: seq<Snapshot>, mark: Mark): seq<bool> {
    seq(|snapshots|, i requires 0 <= i < |snapshots| => CountIn(snapshots, mark, i) > 0)
  }

  lemma {:induction false} SeenIsTrues(snapshots: seq<Snapshot>, mark: Mark, n: nat)
    requires n <= |snapshots|
    ensures Tallied(snapshots, mark, n).seen == |Trues(Appears(snapshots, mark), n)|
  {
    if n == 0 {
      assert Trues(Appears(snapshots, mark), 0) == {};
    } else {
      SeenIsTrues(snapshots, mark, n - 1);
      OneMoreTrue(Appears(snapshots, mark), n - 1);
    }
  }

  /** Which sockets are marked, snapshot by snapshot. */
  ghost function MarkedIn(snapshots: seq<Snapshot>, mark: Mark): seq<set<nat>> {
    seq(|snapshots|, i requires 0 <= i < |snapshots| => Trues(Marks(snapshots[i], mark), |snapshots[i]|))
  }

  lemma {:induction false} TotalIsPairs(snapshots: seq<Snapshot>, mark: Mark, n: nat)
    requires n <= |snapshots|
    ensures Tallied(snapshots, mark, n).total == |Pairs(MarkedIn(snapshots, mark), n)|
  {
    if n == 0 {
      assert Pairs(MarkedIn(snapshots, mark), 0) == {};
    } else {
      TotalIsPairs(snapshots, mark, n - 1);
      CountIsTrues(snapshots[n - 1], mark, |snapshots[n - 1]|);
      OneMorePair(MarkedIn(snapshots, mark), n - 1);
    }
  }

  /** The most marked sockets of any snapshot. */
  lemma {:induction false} PeakIsMost(snapshots: seq<Snapshot>, mark: Mark, n: nat)
    requires n <= |snapshots|
    ensures var peak := Tallied(snapshots, mark, n).peak;
            && (forall i :: 0 <= i < n ==> CountIn(snapshots, mark, i) <= peak)
            && (peak == 0 || exists i :: 0 <= i < n && CountIn(snapshots, mark, i) == peak)
  {
    if n > 0 {
      PeakIsMost(snapshots, mark, n - 1);
      assert Tallied(snapshots, mark, n).peak == Max(Tallied(snapshots, mark, n - 1).peak, CountIn(snapshots, mark, n - 1));
    }
  }

  function CountIn(snapshots: seq<Snapshot>, mark: Mark, i: nat): nat
    requires i < |snapshots|
  {
    Count(snapshots[i], mark, |snapshots[i]|)
  }

  /** The snapshots that hold a socket belonging to the row. */
  ghost function SnapshotsWith(snapshots: seq<Snapshot>, key: Key): set<nat> {
    set i: nat | i < |snapshots| && exists s :: s in snapshots[i] && InRow(snapshots, key, s)
  }

  /** The sockets belonging to the row that are in one state, by snapshot and position. */
  ghost function SocketsIn(snapshots: seq<Snapshot>, key: Key, state: State): set<(nat, nat)> {
    set i: nat, j: nat | i < |snapshots| && j < |snapshots[i]|
      && InRow(snapshots, key, snapshots[i][j]) && snapshots[i][j].state == state :: (i, j)
  }

  /** A ROW, BY ITS SOCKETS. It counts the snapshots that hold a socket belonging to it, at
      least one. */
  lemma RowMeans(snapshots: seq<Snapshot>, row: Row)
    requires RowIs(snapshots, row)
    ensures row.seen == |SnapshotsWith(snapshots, row.key)| > 0
  {
    var mark := Keyed(ListeningPorts(snapshots), row.key);
    SeenIsTrues(snapshots, mark, |snapshots|);
    forall s
      ensures Marked(mark, s) <==> InRow(snapshots, row.key, s)
    {
      KeyedIsInRow(snapshots, row.key, s);
    }
    forall i: nat | i < |snapshots|
      ensures Appears(snapshots, mark)[i] <==> i in SnapshotsWith(snapshots, row.key)
    {
      SomeMarked(snapshots[i], mark);
    }
    assert Trues(Appears(snapshots, mark), |snapshots|) == SnapshotsWith(snapshots, row.key);
  }

  /** A dialled row says of every state how many of its sockets were in it, over all snapshots; a
      received row says nothing of states. */
  lemma StatesMean(snapshots: seq<Snapshot>, row: Row, state: State)
    requires RowIs(snapshots, row)
    ensures var at := SocketsIn(snapshots, row.key, state);
            if row.key.Received? then state !in row.states
            else (state in row.states <==> at != {}) && (state in row.states ==> row.states[state] == |at|)
  {
    var listening := ListeningPorts(snapshots);
    var mark := KeyedIn(listening, row.key, state);
    var at := SocketsIn(snapshots, row.key, state);
    assert StateOf(snapshots, listening, row, state);
    TotalIsPairs(snapshots, mark, |snapshots|);
    forall s
      ensures Marked(mark, s) <==> InRow(snapshots, row.key, s) && s.state == state
    {
      KeyedIsInRow(snapshots, row.key, s);
    }
    assert Pairs(MarkedIn(snapshots, mark), |snapshots|) == at;
    assert |at| == 0 ==> at == {};
  }

  // How many rows there are.

  ghost function KeysUpTo(rows: seq<Row>, n: nat): set<Key>
    requires n <= |rows|
  {
    set i: nat | i < n :: rows[i].key
  }

  lemma KeyNotBeforeItself(key: Key)
    ensures !KeyBefore(key, key)
  {
    if TextBefore(key.ip, key.ip, 0) {
      TextNotBoth(key.ip, key.ip, 0);
    }
  }

  lemma KeysDiffer(snapshots: seq<Snapshot>, a: Row, b: Row)
    requires Before(a, b) && RowIs(snapshots, a) && RowIs(snapshots, b)
    ensures a.key != b.key
  {
    KeyNotBeforeItself(a.key);
  }

  lemma OneMoreKey(rows: seq<Row>, n: nat)
    requires n < |rows| && forall i :: 0 <= i < n ==> rows[i].key != rows[n].key
    ensures |KeysUpTo(rows, n + 1)| == |KeysUpTo(rows, n)| + 1
  {
    assert KeysUpTo(rows, n + 1) == KeysUpTo(rows, n) + {rows[n].key};
  }

  /** Rows in order are one for each key. */
  lemma {:induction false} OneRowAKey(snapshots: seq<Snapshot>, rows: seq<Row>, n: nat)
    requires n <= |rows| && Ordered(rows) && forall row :: row in rows ==> RowIs(snapshots, row)
    ensures |KeysUpTo(rows, n)| == n
  {
    if n == 0 {
      assert KeysUpTo(rows, 0) == {};
    } else {
      OneRowAKey(snapshots, rows, n - 1);
      forall i | 0 <= i < n - 1
        ensures rows[i].key != rows[n - 1].key
      {
        KeysDiffer(snapshots, rows[i], rows[n - 1]);
      }
      OneMoreKey(rows, n - 1);
    }
  }

  /** Every key that some socket belongs to has a row. */
  lemma RowOf(snapshots: seq<Snapshot>, key: Key, s: Socket) returns (row: Row)
    requires Holds(snapshots, s) && InRow(snapshots, key, s)
    ensures RowIs(snapshots, row) && row.key == key
  {
    var listening := ListeningPorts(snapshots);
    var mark := Keyed(listening, key);
    SeenIsTrues(snapshots, mark, |snapshots|);
    KeyedIsInRow(snapshots, key, s);
    var snap :| snap in snapshots && s in snap;
    var i :| 0 <= i < |snapshots| && snapshots[i] == snap;
    SomeMarked(snap, mark);
    assert i in Trues(Appears(snapshots, mark), |snapshots|);
    var states := map state: State | !key.Received? && Overall(snapshots, KeyedIn(listening, key, state)).total > 0
                  :: Overall(snapshots, KeyedIn(listening, key, state)).total;
    row := Row(key, Overall(snapshots, mark).seen, states);
    assert forall state :: StateOf(snapshots, listening, row, state);
  }

  ghost predicate Belongs(snapshots: seq<Snapshot>, key: Key, s: Socket) {
    Holds(snapshots, s) && InRow(snapshots, key, s)
  }

  lemma KeysOfRows(snapshots: seq<Snapshot>, rows: seq<Row>, received: bool, key: Key)
    requires RowsAre(snapshots, rows, received)
    ensures key in KeysUpTo(rows, |rows|) <==> key.Received? == received && exists s :: Belongs(snapshots, key, s)
  {
    if key in KeysUpTo(rows, |rows|) {
      var i: nat :| i < |rows| && rows[i].key == key;
      assert rows[i] in rows;
      RowMeans(snapshots, rows[i]);
      assert SnapshotsWith(snapshots, key) != {};
      var at :| at in SnapshotsWith(snapshots, key);
      var s :| s in snapshots[at] && InRow(snapshots, key, s);
      assert Belongs(snapshots, key, s);
    }
    if s :| key.Received? == received && Belongs(snapshots, key, s) {
      var row := RowOf(snapshots, key, s);
      assert row in rows;
    }
  }

  /** HOW MANY. The total counts every key some socket belongs to, before the caps of forty
      dialled and twenty received rows, and a summary is marked exactly when they drop one. */
  lemma TotalCountsKeys(snapshots: seq<Snapshot>, r: Summary, dialled: set<Key>, received: set<Key>)
    requires Summarises(snapshots, r)
    requires forall key :: key in dialled <==> key.Dialled? && exists s :: Belongs(snapshots, key, s)
    requires forall key :: key in received <==> key.Received? && exists s :: Belongs(snapshots, key, s)
    ensures r.remotesTotal == |dialled| + |received|
    ensures |r.outRows| == if |dialled| <= 40 then |dialled| else 40
    ensures |r.inRows| == if |received| <= 20 then |received| else 20
    ensures r.truncated <==> |r.outRows| + |r.inRows| < r.remotesTotal
  {
    var outs, ins :| RowsFit(snapshots, r, outs, ins);
    OneRowAKey(snapshots, outs, |outs|);
    OneRowAKey(snapshots, ins, |ins|);
    forall key
      ensures key in KeysUpTo(outs, |outs|) <==> key in dialled
      ensures key in KeysUpTo(ins, |ins|) <==> key in received
    {
      KeysOfRows(snapshots, outs, false, key);
      KeysOfRows(snapshots, ins, true, key);
    }
    assert KeysUpTo(outs, |outs|) == dialled && KeysUpTo(ins, |ins|) == received;
  }

  /** What the three maxima count: established TCP connections and connections being opened that
      leave the namespace, and UDP sockets bound to an address others can reach. */
  lemma MaximaMean(s: Socket)
    ensures Marked(Established, s) <==> s.proto == Tcp && s.state == Est && !s.remote.loopback
    ensures Marked(Dialling, s) <==> s.state == SynSent && !s.remote.loopback
    ensures Marked(BoundUdp, s) <==> s.proto == Udp && s.state == Other && !s.local.loopback
  {
  }
}
