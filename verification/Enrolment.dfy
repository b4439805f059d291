/** Per-worker key enrolment: the server's locked heartbeat handler (fleet_server.go) and
    the client that reports to it (upstream_client.go, internal/upstream/upstream.go),
    over a channel that loses requests and answers. The key hash is injective. */
module Enrolment {
  import opened Common

  datatype Digest = NoDigest | DigestOf(key: string)

  datatype Action = Reject | Issue | Confirm

  /** One device row's key state. */
  datatype Device = Device(stored: Digest, confirmed: bool)

  /** Which of the handler's store and random-source calls fail. A failed key write may
      still have reached the row. */
  datatype Faults = Faults(read: bool, upsert: bool, mint: bool, set_: bool, setReached: bool, confirm: bool)

  const NO_FAULTS := Faults(false, false, false, false, false, false)

  datatype Response = ServerError | Unauthorized | Accepted(key: string)

  type Devices = map<string, Device>

  // ---------------------------------------------------------------------
  // The server.
  // ---------------------------------------------------------------------

  /** classifyFleetAuth. */
  function Classify(d: Device, token: string, shared: string): Action {
    var sharedValid := token != "" && shared != "" && DigestOf(token) == DigestOf(shared);
    if token != "" && d.stored != NoDigest && DigestOf(token) == d.stored then Confirm
    else if d.stored == NoDigest then (if sharedValid then Issue else Reject)
    else if !d.confirmed && sharedValid then Issue
    else Reject
  }

  /** FleetDeviceKeyState: a device with no row has no key. */
  function KeyState(devices: Devices, id: string): Device {
    if id in devices then devices[id] else Device(NoDigest, false)
  }

  /** The handler on one device: its key state afterwards (None: no row) and the answer. */
  function Handle(row: Option<Device>, token: string, shared: string, minted: string, f: Faults)
    : (Option<Device>, Response)
  {
    var d := match row case None => Device(NoDigest, false) case Some(x) => x;
    var action := Classify(d, token, shared);
    if f.read then (row, ServerError)
    else if action == Reject then (row, Unauthorized)
    else if f.upsert then (row, ServerError)
    else if action == Confirm then (Some(if f.confirm then d else d.(confirmed := true)), Accepted(""))
    else if f.mint then (Some(d), ServerError)
    else if f.set_ then (Some(if f.setReached then Device(DigestOf(minted), false) else d), ServerError)
    else (Some(Device(DigestOf(minted), false)), Accepted(minted))
  }

  class FleetServer {
    const shared: string
    var devices: Devices

    constructor (shared: string)
      ensures this.shared == shared && devices == map[]
    {
      this.shared := shared;
      devices := map[];
    }

    function Row(id: string): Option<Device>
      reads this
    {
      if id in devices then Some(devices[id]) else None
    }

    /** The part of handleWorkerHeartbeat that runs under the lock: read, classify, upsert,
        then issue or confirm. Only the sender's own device changes. */
    method Heartbeat(id: string, token: string, minted: string, f: Faults) returns (r: Response)
      modifies this
      ensures (Row(id), r) == Handle(old(Row(id)), token, shared, minted, f)
      ensures devices - {id} == old(devices) - {id}
    {
      if f.read {
        return ServerError;
      }
      var action := Classify(KeyState(devices, id), token, shared);
      if action == Reject {
        return Unauthorized;
      }
      if f.upsert {
        return ServerError;
      }
      devices := devices[id := KeyState(devices, id)];
      r := Accepted("");
      match action {
        case Issue =>
          if f.mint {
            return ServerError;
          }
          if f.set_ {
            if f.setReached {
              devices := devices[id := Device(DigestOf(minted), false)];
            }
            return ServerError;
          }
          devices := devices[id := Device(DigestOf(minted), false)];
          r := Accepted(minted);
        case Confirm =>
          if !f.confirm {
            devices := devices[id := devices[id].(confirmed := true)];
          }
        case Reject =>
      }
    }
  }

  // ---------------------------------------------------------------------
  // The client.
  // ---------------------------------------------------------------------

  function AuthToken(workerKey: string, enrolKey: string): string {
    if TrimSpace(workerKey) != "" then TrimSpace(workerKey) else TrimSpace(enrolKey)
  }

  function KeyToPersist(current: string, received: string): string {
    if TrimSpace(received) == "" || TrimSpace(received) == TrimSpace(current) then "" else TrimSpace(received)
  }

  /** The keys the client holds after an answer: in memory and on disk. */
  function Kept(mem: string, disk: string, r: Response, saved: bool): (string, string) {
    if !r.Accepted? || KeyToPersist(mem, r.key) == "" || !saved then (mem, disk)
    else (KeyToPersist(mem, r.key), KeyToPersist(mem, r.key))
  }

  class Upstream {
    var workerKey: string
    var stored: string  // what the keychain holds, read back on a restart
    const enrolKey: string

    constructor (stored: string, enrolKey: string)
      ensures workerKey == this.stored == stored && this.enrolKey == enrolKey
    {
      workerKey, this.stored, this.enrolKey := stored, stored, enrolKey;
    }

    method Token() returns (token: string)
      ensures token == AuthToken(workerKey, enrolKey)
    {
      token := AuthToken(workerKey, enrolKey);
    }

    /** The part of sendUpstream after the answer: a new key is saved before it is used. */
    method Receive(r: Response, saved: bool)
      modifies this
      ensures (workerKey, stored) == Kept(old(workerKey), old(stored), r, saved)
    {
      if !r.Accepted? {
        return;
      }
      var next := KeyToPersist(workerKey, r.key);
      if next != "" {
        if !saved {
          return;
        }
        stored := next;
        workerKey := next;
      }
    }
  }

  // ---------------------------------------------------------------------
  // Runs.
  // ---------------------------------------------------------------------

  /** A key with nothing to trim, as the server mints them. */
  predicate Plain(key: string) {
    key != "" && TrimSpace(key) == key
  }

  /** One device, its client, and every key ever minted for it. */
  datatype World = World(row: Option<Device>, mem: string, disk: string, minted: set<string>)

  datatype Event =
    /** One heartbeat of the client: it may not arrive, its answer may be lost, and a new
        key may fail to be saved. */
    | Beat(arrives: bool, minted: string, faults: Faults, delivered: bool, saved: bool)
    /** The client restarts and reads its key back. */
    | Restart
    /** Somebody else names this device. */
    | Stranger(token: string, minted: string, faults: Faults)

  function Answer(w: World, shared: string, e: Event): Response
    requires e.Beat?
  {
    Handle(w.row, AuthToken(w.mem, shared), shared, e.minted, e.faults).1
  }

  function Step(w: World, shared: string, e: Event): World {
    match e
    case Restart => w.(mem := w.disk)
    case Stranger(token, minted, f) =>
      w.(row := Handle(w.row, token, shared, minted, f).0, minted := w.minted + {minted})
    case Beat(arrives, minted, f, delivered, saved) =>
      if !arrives then w
      else
        var (row, r) := Handle(w.row, AuthToken(w.mem, shared), shared, minted, f);
        var (mem, disk) := if delivered then Kept(w.mem, w.disk, r, saved) else (w.mem, w.disk);
        World(row, mem, disk, w.minted + {minted})
  }

  function KeyOf(row: Option<Device>): Device {
    match row case None => Device(NoDigest, false) case Some(d) => d
  }

  /** What the run allows: minted keys are plain and new; a stranger knows neither the key the
      server stores nor, before the cutover, the shared one, but may hold any older key. */
  predicate Allowed(w: World, shared: string, e: Event) {
    match e
    case Restart => true
    case Beat(_, minted, _, _, _) => Plain(minted) && minted !in w.minted && minted != shared
    case Stranger(token, minted, _) =>
      && Plain(minted) && minted !in w.minted && minted != shared
      && DigestOf(token) != KeyOf(w.row).stored && (token == shared ==> KeyOf(w.row).confirmed)
  }

  const FRESH := World(None, "", "", {})

  /** The world after the first `n` events. */
  function Run(shared: string, events: seq<Event>, n: nat): World
    requires n <= |events|
  {
    if n == 0 then FRESH else Step(Run(shared, events, n - 1), shared, events[n - 1])
  }

  predicate AllAllowed(shared: string, events: seq<Event>, n: nat)
    requires n <= |events|
  {
    n == 0 || (AllAllowed(shared, events, n - 1) && Allowed(Run(shared, events, n - 1), shared, events[n - 1]))
  }

  /** What every reachable world keeps. */
  predicate Safe(w: World, shared: string) {
    var d := KeyOf(w.row);
    && w.mem == w.disk
    && (w.mem != "" ==> Plain(w.mem) && w.mem in w.minted && d.stored == DigestOf(w.mem))
    && (d.confirmed ==> w.mem != "")
    && (d.stored != NoDigest ==> d.stored.key in w.minted)
    && shared !in w.minted
  }

  lemma StrangerChangesNothing(w: World, shared: string, e: Event)
    requires e.Stranger? && Plain(shared) && Safe(w, shared) && Allowed(w, shared, e)
    ensures Step(w, shared, e).row == w.row && Safe(Step(w, shared, e), shared)
  {
    var d := KeyOf(w.row);
    assert Classify(d, e.token, shared) == Reject;
  }

  lemma BeatSafe(w: World, shared: string, e: Event)
    requires e.Beat? && Plain(shared) && Safe(w, shared) && Allowed(w, shared, e)
    ensures Safe(Step(w, shared, e), shared)
    ensures e.arrives ==> Answer(w, shared, e) != Unauthorized
    ensures KeyOf(w.row).confirmed ==> KeyOf(Step(w, shared, e).row) == KeyOf(w.row)
  {
    assert TrimSpace("") == "";
    var d := KeyOf(w.row);
    if w.mem == "" {
      assert AuthToken(w.mem, shared) == shared && Classify(d, shared, shared) == Issue;
    } else {
      assert AuthToken(w.mem, shared) == w.mem && Classify(d, w.mem, shared) == Confirm;
    }
  }

  lemma StepSafe(w: World, shared: string, e: Event)
    requires Plain(shared) && Safe(w, shared) && Allowed(w, shared, e)
    ensures Safe(Step(w, shared, e), shared)
    ensures e.Beat? && e.arrives ==> Answer(w, shared, e) != Unauthorized
    ensures KeyOf(w.row).confirmed ==> KeyOf(Step(w, shared, e).row) == KeyOf(w.row)
    ensures KeyOf(w.row).confirmed ==> Classify(KeyOf(w.row), shared, shared) == Reject
  {
    match e {
      case Restart =>
      case Stranger(_, _, _) => StrangerChangesNothing(w, shared, e);
      case Beat(_, _, _, _, _) => BeatSafe(w, shared, e);
    }
  }

  /** ENROLMENT IS SAFE. Over any run of heartbeats with lost requests, lost answers, failed
      writes and failed saves, restarts, and strangers: the key the client holds is the one
      the server stores, and the client is never rejected. */
  lemma {:induction false} RunSafe(shared: string, events: seq<Event>, n: nat)
    requires Plain(shared) && n <= |events| && AllAllowed(shared, events, n)
    ensures Safe(Run(shared, events, n), shared)
    ensures n > 0 && events[n - 1].Beat? && events[n - 1].arrives ==>
              Answer(Run(shared, events, n - 1), shared, events[n - 1]) != Unauthorized
  {
    if n > 0 {
      RunSafe(shared, events, n - 1);
      StepSafe(Run(shared, events, n - 1), shared, events[n - 1]);
    }
  }

  /** Once confirmed, a device stays so: in every later world its key is the same one and
      the shared key is refused for it. */
  lemma {:induction false} CutoverIsFinal(shared: string, events: seq<Event>, m: nat, n: nat)
    requires Plain(shared) && m <= n <= |events| && AllAllowed(shared, events, n)
    requires KeyOf(Run(shared, events, m).row).confirmed
    ensures KeyOf(Run(shared, events, n).row) == KeyOf(Run(shared, events, m).row)
    ensures Classify(KeyOf(Run(shared, events, n).row), shared, shared) == Reject
    decreases n
  {
    RunSafe(shared, events, n);
    if m < n {
      RunSafe(shared, events, n - 1);
      CutoverIsFinal(shared, events, m, n - 1);
      StepSafe(Run(shared, events, n - 1), shared, events[n - 1]);
    } else {
      StepSafe(Run(shared, events, n), shared, Restart);
    }
  }

  /** From any reachable world two undisturbed heartbeats complete the enrolment. */
  lemma {:induction false} TwoCleanBeatsConfirm(w: World, shared: string, first: string, second: string)
    requires Plain(shared) && Safe(w, shared)
    requires Plain(first) && Plain(second) && first !in w.minted && first != shared
    requires second !in w.minted + {first} && second != shared
    ensures
      var w1 := Step(w, shared, Beat(true, first, NO_FAULTS, true, true));
      var w2 := Step(w1, shared, Beat(true, second, NO_FAULTS, true, true));
      KeyOf(w2.row).confirmed && w2.mem != "" && KeyOf(w2.row).stored == DigestOf(w2.mem)
  {
    assert TrimSpace("") == "";
    StepSafe(w, shared, Beat(true, first, NO_FAULTS, true, true));
  }

  /** Why there may be only one client: while a device is unconfirmed, a second sender with
      the shared key takes the enrolment over with a key of its own, and the client is then
      rejected exactly when it already held a key. */
  lemma {:induction false} SecondSenderTakesOver(w: World, shared: string, minted: string, e: Event)
    requires Plain(shared) && Safe(w, shared) && !KeyOf(w.row).confirmed
    requires Plain(minted) && minted !in w.minted && minted != shared
    requires e.Beat? && e.faults == NO_FAULTS
    ensures
      var next := Step(w, shared, Stranger(shared, minted, NO_FAULTS));
      && KeyOf(next.row) == Device(DigestOf(minted), false)
      && (Answer(next, shared, e) == Unauthorized <==> w.mem != "")
  {
    assert TrimSpace("") == "";
  }

  /** One heartbeat leads to such a world: the client holds the key "k", unconfirmed. */
  lemma SecondSenderInstance(e: Event)
    requires e.Beat? && e.faults == NO_FAULTS
    ensures
      var w := Run("s", [Beat(true, "k", NO_FAULTS, true, true)], 1);
      var next := Step(w, "s", Stranger("s", "m", NO_FAULTS));
      && Safe(w, "s") && w.mem == "k" && !KeyOf(w.row).confirmed
      && KeyOf(next.row).stored == DigestOf("m") && Answer(next, "s", e) == Unauthorized
  {
    assert Plain("s") && Plain("k") && Plain("m") && TrimSpace("") == "";
    assert "s" != "k" && "m" != "s" && "m" != "k";
    var events := [Beat(true, "k", NO_FAULTS, true, true)];
    assert Run("s", events, 0) == FRESH && Allowed(FRESH, "s", events[0]) && AllAllowed("s", events, 0);
    RunSafe("s", events, 1);
    SecondSenderTakesOver(Run("s", events, 1), "s", "m", e);
  }
}
