/** The heartbeat endpoint's per-address sliding-window limiter (fleet_server.go): an
    in-place, pruning, map-sweeping structure against the plain log it stands for. */
module RateLimiter {

  datatype Address = Address(text: string)

  type Hits = map<Address, seq<int>>

  const SWEEP_ABOVE := 1024

  /** Those of the first `n` hits of `s` that come after `cutoff`, in order. */
  function AfterOf(s: seq<int>, n: nat, cutoff: int): (r: seq<int>)
    requires n <= |s|
    ensures |r| <= n
  {
    if n == 0 then [] else AfterOf(s, n - 1, cutoff) + if s[n - 1] > cutoff then [s[n - 1]] else []
  }

  function After(s: seq<int>, cutoff: int): seq<int> {
    AfterOf(s, |s|, cutoff)
  }

  /** Only the elements read matter. */
  lemma {:induction false} AfterOfPrefix(s: seq<int>, t: seq<int>, n: nat, cutoff: int)
    requires n <= |s| && n <= |t| && s[..n] == t[..n]
    ensures AfterOf(s, n, cutoff) == AfterOf(t, n, cutoff)
  {
    if n > 0 {
      assert s[..n - 1] == s[..n][..n - 1] && t[..n - 1] == t[..n][..n - 1];
      assert s[n - 1] == s[..n][n - 1] && t[n - 1] == t[..n][n - 1];
      AfterOfPrefix(s, t, n - 1, cutoff);
    }
  }

  lemma AfterAppend(s: seq<int>, t: int, c: int)
    ensures After(s + [t], c) == After(s, c) + if t > c then [t] else []
  {
    AfterOfPrefix(s + [t], s, |s|, c);
  }

  function Of(hits: Hits, ip: Address): seq<int> {
    if ip in hits then hits[ip] else []
  }

  /** The sweep: every address keeps its live hits, and one with none is dropped. */
  function Swept(hits: Hits, cutoff: int): Hits {
    map k | k in hits && After(hits[k], cutoff) != [] :: After(hits[k], cutoff)
  }

  /** One call: the new map and the verdict. */
  function Allowed(hits: Hits, limit: int, window: int, ip: Address, now: int): (Hits, bool) {
    var cutoff := now - window;
    var swept := if |hits| > SWEEP_ABOVE then Swept(hits, cutoff) else hits;
    var kept := After(Of(swept, ip), cutoff);
    if |kept| >= limit then (swept[ip := kept], false) else (swept[ip := kept + [now]], true)
  }

  /** Only above 1024 addresses are the others touched at all, and then those stay that still
      have a live hit, with just their live hits. */
  lemma SweepAbove1024(hits: Hits, limit: int, window: int, ip: Address, now: int, other: Address)
    requires other != ip
    ensures
      var next, live := Allowed(hits, limit, window, ip, now).0, After(Of(hits, other), now - window);
      if |hits| > 1024 then (other in next <==> live != []) && Of(next, other) == live
      else (other in next <==> other in hits) && Of(next, other) == Of(hits, other)
  {
    if other !in hits {
      assert After([], now - window) == [];
    }
  }

  // ---------------------------------------------------------------------
  // The limiter as the source keeps it: slices over backing arrays.
  // ---------------------------------------------------------------------

  /** A Go slice: the first `len` elements of a backing array. */
  datatype Slice = Slice(buf: array<int>, len: nat)

  /** The in-place pruning of one slice: live hits move to the front of their own array. */
  method Prune(s: Slice, cutoff: int) returns (kept: Slice)
    requires s.len <= s.buf.Length
    modifies s.buf
    ensures kept.buf == s.buf && kept.len <= s.len
    ensures s.buf[..kept.len] == After(old(s.buf[..s.len]), cutoff)
  {
    var live := 0;
    ghost var before := s.buf[..s.len];
    for i := 0 to s.len
      invariant live <= i
      invariant s.buf[..live] == AfterOf(before, i, cutoff)
      invariant s.buf[i..s.len] == before[i..]
    {
      var t := s.buf[i];
      assert t == s.buf[i..s.len][0] == before[i];
      if t > cutoff {
        s.buf[live] := t;
        live := live + 1;
      }
    }
    kept := Slice(s.buf, live);
  }

  /** Go's append: in place while the array has room, into a larger copy when it has none. */
  method Push(s: Slice, x: int) returns (r: Slice)
    requires s.len <= s.buf.Length
    modifies s.buf
    ensures r.len == s.len + 1 <= r.buf.Length
    ensures r.buf[..r.len] == old(s.buf[..s.len]) + [x]
    ensures r.buf == s.buf || fresh(r.buf)
  {
    r := Slice(s.buf, s.len + 1);
    if s.len == s.buf.Length {
      var larger := new int[2 * s.len + 1];
      for i := 0 to s.len
        invariant larger[..i] == s.buf[..i]
        invariant s.buf[..] == old(s.buf[..])
      {
        larger[i] := s.buf[i];
      }
      r := Slice(larger, s.len + 1);
    }
    r.buf[s.len] := x;
  }

  class FleetRateLimiter {
    const limit: int
    const window: int
    var hits: map<Address, Slice>
    // What the slices hold, and which address each backing array belongs to.
    ghost var contents: Hits
    ghost var owner: map<array<int>, Address>

    constructor (limit: int, window: int)
      ensures Valid() && contents == map[] && this.limit == limit && this.window == window
      ensures owner == map[]
    {
      this.limit := limit;
      this.window := window;
      hits := map[];
      contents := map[];
      owner := map[];
    }

    /** Every slice lies in an array of its own and holds what `contents` says. */
    ghost predicate Valid()
      reads this, owner.Keys
    {
      && hits.Keys == contents.Keys
      && forall k :: k in hits ==>
           && hits[k].buf in owner && owner[hits[k].buf] == k
           && Holds(hits[k], contents[k])
    }

    /** Prunes the slice of `ip` in its own array. */
    method PruneAt(ip: Address, cutoff: int)
      requires Valid() && ip in hits
      modifies this`hits, this`contents, hits[ip].buf
      ensures Valid() && ip in hits
      ensures contents == old(contents)[ip := After(old(contents)[ip], cutoff)]
    {
      var kept := Prune(hits[ip], cutoff);
      hits := hits[ip := kept];
      contents := contents[ip := After(contents[ip], cutoff)];
    }

    /** One turn of the sweep. */
    method PruneOrDelete(ip: Address, cutoff: int)
      requires Valid() && ip in hits
      modifies this`hits, this`contents, hits[ip].buf
      ensures Valid()
      ensures
        var live := After(old(contents)[ip], cutoff);
        contents == if live == [] then old(contents) - {ip} else old(contents)[ip := live]
    {
      PruneAt(ip, cutoff);
      if hits[ip].len == 0 {
        UpdateThenRemove(old(contents), ip, contents[ip]);
        hits := hits - {ip};
        contents := contents - {ip};
      }
    }

    method Append(ip: Address, now: int)
      requires Valid() && ip in hits
      modifies this, hits[ip].buf
      ensures Valid() && contents == old(contents)[ip := old(contents)[ip] + [now]]
      ensures fresh(owner.Keys - old(owner.Keys))
    {
      var grown := Push(hits[ip], now);
      hits := hits[ip := grown];
      contents := contents[ip := contents[ip] + [now]];
      owner := owner[grown.buf := ip];
    }

    method Sweep(cutoff: int)
      requires Valid()
      modifies this`hits, this`contents, owner.Keys
      ensures Valid() && contents == Swept(old(contents), cutoff)
    {
      var left := hits.Keys;
      ghost var before := contents;
      while left != {}
        invariant Valid() && left <= hits.Keys
        invariant contents == SweptBut(before, left, cutoff)
        decreases left
      {
        var k :| k in left;
        PruneOrDelete(k, cutoff);
        SweptOneMore(before, left, k, cutoff);
        left := left - {k};
      }
    }

    method SweepIfLarge(cutoff: int)
      requires Valid()
      modifies this`hits, this`contents, owner.Keys
      ensures Valid()
      ensures contents == if |old(contents)| > SWEEP_ABOVE then Swept(old(contents), cutoff) else old(contents)
    {
      assert |hits.Keys| == |contents.Keys|;
      if |hits| > SWEEP_ABOVE {
        Sweep(cutoff);
      }
    }

    /** allow, the body that runs under the lock. */
    method Allow(ip: Address, now: int) returns (ok: bool)
      requires Valid()
      modifies this, owner.Keys
      ensures Valid() && fresh(owner.Keys - old(owner.Keys))
      ensures (contents, ok) == Allowed(old(contents), limit, window, ip, now)
    {
      var cutoff := now - window;
      SweepIfLarge(cutoff);
      ok := Record(ip, cutoff, now);
    }

    /** The live hits of `ip`; Go's lookup of an absent key is an empty slice, here given
        an array of its own. */
    method Live(ip: Address, cutoff: int)
      requires Valid()
      modifies this`hits, this`contents, this`owner, owner.Keys
      ensures Valid() && fresh(owner.Keys - old(owner.Keys))
      ensures ip in hits && contents == old(contents)[ip := After(Of(old(contents), ip), cutoff)]
    {
      if ip in hits {
        PruneAt(ip, cutoff);
      } else {
        var none := new int[0];
        hits := hits[ip := Slice(none, 0)];
        contents := contents[ip := []];
        owner := owner[none := ip];
      }
    }

    method Record(ip: Address, cutoff: int, now: int) returns (ok: bool)
      requires Valid()
      modifies this, owner.Keys
      ensures Valid() && fresh(owner.Keys - old(owner.Keys))
      ensures
        var kept := After(Of(old(contents), ip), cutoff);
        && ok == (|kept| < limit)
        && contents == old(contents)[ip := if ok then kept + [now] else kept]
    {
      ghost var before, kept := contents, After(Of(contents, ip), cutoff);
      Live(ip, cutoff);
      ok := hits[ip].len < limit;
      if ok {
        Append(ip, now);
        UpdateTwice(before, ip, kept, kept + [now]);
      }
    }
  }

  lemma UpdateThenRemove(m: Hits, k: Address, a: seq<int>)
    ensures m[k := a] - {k} == m - {k}
  {
  }

  lemma UpdateTwice(m: Hits, k: Address, a: seq<int>, b: seq<int>)
    ensures m[k := a][k := b] == m[k := b]
  {
  }

  /** The sweep with the addresses in `left` still to do. */
  ghost function SweptBut(hits: Hits, left: set<Address>, cutoff: int): Hits {
    map k | k in hits && (k in left || After(hits[k], cutoff) != []) ::
      if k in left then hits[k] else After(hits[k], cutoff)
  }

  lemma SweptOneMore(hits: Hits, left: set<Address>, k: Address, cutoff: int)
    requires k in left && k in hits
    ensures
      var now, live := SweptBut(hits, left, cutoff), After(hits[k], cutoff);
      && k in now && now[k] == hits[k]
      && SweptBut(hits, left - {k}, cutoff) == if live == [] then now - {k} else now[k := live]
  {
  }

  ghost predicate Holds(s: Slice, contents: seq<int>)
    reads s.buf
  {
    s.len <= s.buf.Length && s.buf[..s.len] == contents
  }

  // ---------------------------------------------------------------------
  // The log the limiter stands for.
  // ---------------------------------------------------------------------

  datatype Hit = Hit(ip: Address, at: int)

  /** The accepted hits of one address among the first `n` of the log, oldest first. */
  function LogOfFirst(log: seq<Hit>, n: nat, ip: Address): seq<int>
    requires n <= |log|
  {
    if n == 0 then [] else LogOfFirst(log, n - 1, ip) + if log[n - 1].ip == ip then [log[n - 1].at] else []
  }

  function LogOf(log: seq<Hit>, ip: Address): seq<int> {
    LogOfFirst(log, |log|, ip)
  }

  /** The plain rule: fewer than `limit` accepted hits in the window that ends now. */
  predicate LogAllows(log: seq<Hit>, limit: int, window: int, ip: Address, now: int) {
    |After(LogOf(log, ip), now - window)| < limit
  }

  /** The limiter beside an append-only log of what it accepted, and the latest time seen. */
  datatype Limiter = Limiter(hits: Hits, log: seq<Hit>, high: int)

  function Call(l: Limiter, limit: int, window: int, c: Hit): (Limiter, bool) {
    var (hits, ok) := Allowed(l.hits, limit, window, c.ip, c.at);
    (Limiter(hits, if ok then l.log + [c] else l.log, if c.at > l.high then c.at else l.high), ok)
  }

  function Calls(start: int, limit: int, window: int, calls: seq<Hit>): Limiter {
    if calls == [] then Limiter(map[], [], start)
    else Call(Calls(start, limit, window, calls[..|calls| - 1]), limit, window, calls[|calls| - 1]).0
  }

  lemma {:induction false} AfterAfterOf(s: seq<int>, n: nat, a: int, b: int)
    requires n <= |s|
    ensures After(AfterOf(s, n, a), b) == AfterOf(s, n, if a > b then a else b)
  {
    if n > 0 {
      AfterAfterOf(s, n - 1, a, b);
      if s[n - 1] > a {
        AfterAppend(AfterOf(s, n - 1, a), s[n - 1], b);
      } else {
        assert AfterOf(s, n, a) == AfterOf(s, n - 1, a);
      }
    }
  }

  lemma AfterAfter(s: seq<int>, a: int, b: int)
    ensures After(After(s, a), b) == After(s, if a > b then a else b)
  {
    AfterAfterOf(s, |s|, a, b);
  }

  /** The first `k` kept hits are what is left of the first `n` of `full` after some were dropped. */
  predicate WithinOf(kept: seq<int>, k: nat, full: seq<int>, n: nat)
    requires k <= |kept| && n <= |full|
  {
    k == 0 || (n > 0 && (
      || WithinOf(kept, k, full, n - 1)
      || (kept[k - 1] == full[n - 1] && WithinOf(kept, k - 1, full, n - 1))))
  }

  predicate Within(kept: seq<int>, full: seq<int>) {
    WithinOf(kept, |kept|, full, |full|)
  }

  lemma {:induction false} WithinCounts(kept: seq<int>, k: nat, full: seq<int>, n: nat, c: int)
    requires k <= |kept| && n <= |full| && WithinOf(kept, k, full, n)
    ensures |AfterOf(kept, k, c)| <= |AfterOf(full, n, c)|
  {
    if k > 0 {
      if WithinOf(kept, k, full, n - 1) {
        WithinCounts(kept, k, full, n - 1, c);
      } else {
        WithinCounts(kept, k - 1, full, n - 1, c);
      }
    }
  }

  lemma {:induction false} WithinPrefix(kept: seq<int>, x: seq<int>, k: nat, full: seq<int>, y: seq<int>, n: nat)
    requires k <= |kept| && n <= |full| && WithinOf(kept, k, full, n)
    ensures WithinOf(kept + x, k, full + y, n)
  {
    if k > 0 {
      assert (kept + x)[k - 1] == kept[k - 1] && (full + y)[n - 1] == full[n - 1];
      if WithinOf(kept, k, full, n - 1) {
        WithinPrefix(kept, x, k, full, y, n - 1);
      } else {
        WithinPrefix(kept, x, k - 1, full, y, n - 1);
      }
    }
  }

  lemma {:induction false} PrunedWithin(kept: seq<int>, k: nat, full: seq<int>, n: nat, c: int)
    requires k <= |kept| && n <= |full| && WithinOf(kept, k, full, n)
    ensures WithinOf(AfterOf(kept, k, c), |AfterOf(kept, k, c)|, full, n)
  {
    if k > 0 {
      if WithinOf(kept, k, full, n - 1) {
        PrunedWithin(kept, k, full, n - 1, c);
      } else {
        var front := AfterOf(kept, k - 1, c);
        PrunedWithin(kept, k - 1, full, n - 1, c);
        if kept[k - 1] > c {
          WithinPrefix(front, [kept[k - 1]], |front|, full, [], n - 1);
          assert full + [] == full;
        } else {
          assert AfterOf(kept, k, c) == front;
        }
      }
    }
  }

  /** What is kept agrees with the log on everything still in reach, and holds nothing else. */
  predicate Tracks(kept: seq<int>, full: seq<int>, reach: int) {
    After(kept, reach) == After(full, reach) && Within(kept, full)
  }

  lemma PrunedTracks(kept: seq<int>, full: seq<int>, reach: int, cutoff: int, reach': int)
    requires Tracks(kept, full, reach) && reach <= reach' && cutoff <= reach'
    ensures Tracks(kept, full, reach') && Tracks(After(kept, cutoff), full, reach')
  {
    AfterAfter(kept, reach, reach');
    AfterAfter(full, reach, reach');
    AfterAfter(kept, cutoff, reach');
    PrunedWithin(kept, |kept|, full, |full|, cutoff);
  }

  lemma AppendedTracks(kept: seq<int>, full: seq<int>, reach: int, t: int)
    requires Tracks(kept, full, reach)
    ensures Tracks(kept + [t], full + [t], reach)
  {
    AfterAppend(kept, t, reach);
    AfterAppend(full, t, reach);
    WithinPrefix(kept, [t], |kept|, full, [t], |full|);
  }

  ghost predicate TracksAt(l: Limiter, window: int, ip: Address) {
    Tracks(Of(l.hits, ip), LogOf(l.log, ip), l.high - window)
  }

  ghost predicate TracksLog(l: Limiter, window: int) {
    forall ip :: TracksAt(l, window, ip)
  }

  lemma {:induction false} LogPrefix(log: seq<Hit>, more: seq<Hit>, n: nat, ip: Address)
    requires n <= |log|
    ensures LogOfFirst(log + more, n, ip) == LogOfFirst(log, n, ip)
  {
    if n > 0 {
      LogPrefix(log, more, n - 1, ip);
    }
  }

  lemma LogAppend(log: seq<Hit>, c: Hit, ip: Address)
    ensures LogOf(log + [c], ip) == if c.ip == ip then LogOf(log, ip) + [c.at] else LogOf(log, ip)
  {
    LogPrefix(log, [c], |log|, ip);
  }

  /** What one call leaves of each address, swept or not. */
  lemma AllowedOf(hits: Hits, limit: int, window: int, ip: Address, now: int, other: Address)
    ensures
      var (next, ok) := Allowed(hits, limit, window, ip, now);
      var kept := After(Of(hits, ip), now - window);
      && ok == (|kept| < limit)
      && Of(next, ip) == (if ok then kept + [now] else kept)
      && (other != ip ==>
            Of(next, other) == Of(hits, other) || Of(next, other) == After(Of(hits, other), now - window))
  {
    var cutoff := now - window;
    AfterAfter(Of(hits, ip), cutoff, cutoff);
  }

  /** What one call does to one address, kept hits and log, as a step on sequences. */
  predicate AddressStep(kept: seq<int>, full: seq<int>, kept': seq<int>, full': seq<int>, cutoff: int, t: int) {
    || (kept' == kept && full' == full)
    || (kept' == After(kept, cutoff) && full' == full)
    || (kept' == After(kept, cutoff) + [t] && full' == full + [t])
  }

  lemma CallStep(l: Limiter, limit: int, window: int, c: Hit, ip: Address)
    ensures
      var next := Call(l, limit, window, c).0;
      AddressStep(Of(l.hits, ip), LogOf(l.log, ip), Of(next.hits, ip), LogOf(next.log, ip), c.at - window, c.at)
  {
    AllowedOf(l.hits, limit, window, c.ip, c.at, ip);
    LogAppend(l.log, c, ip);
  }

  lemma TrackStep(kept: seq<int>, full: seq<int>, kept': seq<int>, full': seq<int>,
                  reach: int, reach': int, cutoff: int, t: int)
    requires Tracks(kept, full, reach) && reach <= reach' && cutoff <= reach'
    requires AddressStep(kept, full, kept', full', cutoff, t)
    ensures Tracks(kept', full', reach')
  {
    PrunedTracks(kept, full, reach, cutoff, reach');
    AppendedTracks(After(kept, cutoff), full, reach', t);
  }

  lemma TracksAtOn(l: Limiter, next: Limiter, window: int, c: Hit, ip: Address)
    requires TracksAt(l, window, ip) && l.high <= next.high && c.at <= next.high
    requires AddressStep(Of(l.hits, ip), LogOf(l.log, ip), Of(next.hits, ip), LogOf(next.log, ip), c.at - window, c.at)
    ensures TracksAt(next, window, ip)
  {
    TrackStep(Of(l.hits, ip), LogOf(l.log, ip), Of(next.hits, ip), LogOf(next.log, ip),
              l.high - window, next.high - window, c.at - window, c.at);
  }

  lemma CallTracks(l: Limiter, limit: int, window: int, c: Hit)
    requires TracksLog(l, window)
    ensures TracksLog(Call(l, limit, window, c).0, window)
  {
    forall ip
      ensures TracksAt(Call(l, limit, window, c).0, window, ip)
    {
      assert TracksAt(l, window, ip);
      CallStep(l, limit, window, c, ip);
      TracksAtOn(l, Call(l, limit, window, c).0, window, c, ip);
    }
  }

  lemma {:induction false} CallsTrack(start: int, limit: int, window: int, calls: seq<Hit>)
    ensures TracksLog(Calls(start, limit, window, calls), window)
  {
    if calls != [] {
      var init, c := calls[..|calls| - 1], calls[|calls| - 1];
      CallsTrack(start, limit, window, init);
      CallTracks(Calls(start, limit, window, init), limit, window, c);
    }
  }

  lemma TracksAgree(kept: seq<int>, full: seq<int>, reach: int, cutoff: int)
    requires Tracks(kept, full, reach)
    ensures |After(kept, cutoff)| <= |After(full, cutoff)|
    ensures reach <= cutoff ==> After(kept, cutoff) == After(full, cutoff)
  {
    WithinCounts(kept, |kept|, full, |full|, cutoff);
    if reach <= cutoff {
      AfterAfter(kept, reach, cutoff);
      AfterAfter(full, reach, cutoff);
    }
  }

  /** How many of an address's kept hits come after `cutoff`. */
  function Kept(l: Limiter, ip: Address, cutoff: int): nat {
    |After(Of(l.hits, ip), cutoff)|
  }

  lemma AllowedVerdict(hits: Hits, limit: int, window: int, ip: Address, now: int)
    ensures Allowed(hits, limit, window, ip, now).1 <==> |After(Of(hits, ip), now - window)| < limit
  {
    AllowedOf(hits, limit, window, ip, now, ip);
  }

  lemma VerdictIs(l: Limiter, limit: int, window: int, c: Hit)
    ensures Call(l, limit, window, c).1 <==> Kept(l, c.ip, c.at - window) < limit
  {
    AllowedVerdict(l.hits, limit, window, c.ip, c.at);
  }

  lemma CallVerdict(l: Limiter, limit: int, window: int, c: Hit)
    requires TracksAt(l, window, c.ip)
    ensures
      var ok := Call(l, limit, window, c).1;
      && (LogAllows(l.log, limit, window, c.ip, c.at) ==> ok)
      && (l.high <= c.at ==> (ok <==> LogAllows(l.log, limit, window, c.ip, c.at)))
  {
    VerdictIs(l, limit, window, c);
    TracksAgree(Of(l.hits, c.ip), LogOf(l.log, c.ip), l.high - window, c.at - window);
  }

  /** THE LIMITER IS THE LOG. After any calls at all, a call no earlier than every one
      before it is accepted exactly when the log allows it; an earlier one is accepted at
      least then. The sweep is never visible. */
  lemma {:induction false} LimiterIsTheLog(start: int, limit: int, window: int, calls: seq<Hit>, c: Hit)
    ensures
      var l := Calls(start, limit, window, calls);
      var ok := Call(l, limit, window, c).1;
      && (LogAllows(l.log, limit, window, c.ip, c.at) ==> ok)
      && (l.high <= c.at ==> (ok <==> LogAllows(l.log, limit, window, c.ip, c.at)))
  {
    CallsTrack(start, limit, window, calls);
    assert TracksAt(Calls(start, limit, window, calls), window, c.ip);
    CallVerdict(Calls(start, limit, window, calls), limit, window, c);
  }

  /** How many of the first `n` hits fall in the window of `width` that starts at `x`. */
  function InWindowOf(s: seq<int>, n: nat, x: int, width: int): nat
    requires n <= |s|
  {
    if n == 0 then 0 else InWindowOf(s, n - 1, x, width) + if x < s[n - 1] <= x + width then 1 else 0
  }

  function InWindow(s: seq<int>, x: int, width: int): nat {
    InWindowOf(s, |s|, x, width)
  }

  lemma {:induction false} InWindowWithinAfter(s: seq<int>, n: nat, x: int, width: int, cutoff: int)
    requires n <= |s| && cutoff <= x
    ensures InWindowOf(s, n, x, width) <= |AfterOf(s, n, cutoff)|
  {
    if n > 0 {
      InWindowWithinAfter(s, n - 1, x, width, cutoff);
    }
  }

  lemma {:induction false} WindowPrefix(s: seq<int>, more: seq<int>, n: nat, x: int, width: int)
    requires n <= |s|
    ensures InWindowOf(s + more, n, x, width) == InWindowOf(s, n, x, width)
  {
    if n > 0 {
      WindowPrefix(s, more, n - 1, x, width);
    }
  }

  predicate InOrder(start: int, calls: seq<Hit>) {
    calls == [] || (
      && InOrder(start, calls[..|calls| - 1])
      && (if |calls| == 1 then start else calls[|calls| - 2].at) <= calls[|calls| - 1].at)
  }

  /** An accepted call within the rule keeps every window within the limit. */
  lemma WindowStep(log: seq<Hit>, next: seq<Hit>, limit: nat, window: int, c: Hit, ip: Address, x: int)
    requires InWindow(LogOf(log, ip), x, window) <= limit
    requires next == log || (next == log + [c] && LogAllows(log, limit, window, c.ip, c.at))
    ensures InWindow(LogOf(next, ip), x, window) <= limit
  {
    LogAppend(log, c, ip);
    if next != log && c.ip == ip {
      WindowAppend(LogOf(log, ip), c.at, x, window, limit);
    }
  }

  /** NO WINDOW EVER OVERFLOWS. For calls in order of time, no window of that width ever
      holds more than `limit` accepted hits of one address. */
  lemma {:induction false} NoWindowOverflows(start: int, limit: nat, window: int, calls: seq<Hit>, ip: Address, x: int)
    requires InOrder(start, calls)
    ensures InWindow(LogOf(Calls(start, limit, window, calls).log, ip), x, window) <= limit
    ensures Calls(start, limit, window, calls).high == if calls == [] then start else calls[|calls| - 1].at
  {
    if calls != [] {
      var init, c := calls[..|calls| - 1], calls[|calls| - 1];
      NoWindowOverflows(start, limit, window, init, ip, x);
      LimiterIsTheLog(start, limit, window, init, c);
      var before, after := Calls(start, limit, window, init).log, Calls(start, limit, window, calls).log;
      WindowStep(before, after, limit, window, c, ip, x);
    }
  }

  lemma WindowAppend(full: seq<int>, t: int, x: int, width: int, limit: nat)
    requires InWindow(full, x, width) <= limit && |After(full, t - width)| < limit
    ensures InWindow(full + [t], x, width) <= limit
  {
    WindowPrefix(full, [t], |full|, x, width);
    if x < t <= x + width {
      InWindowWithinAfter(full, |full|, x, width, t - width);
    }
  }

  // ---------------------------------------------------------------------
  // Calls out of order.
  // ---------------------------------------------------------------------

  /** How many of an address's logged hits come after `cutoff`. */
  function Logged(l: Limiter, ip: Address, cutoff: int): nat {
    |After(LogOf(l.log, ip), cutoff)|
  }

  /** Some calls lead to `l`. */
  ghost predicate Reached(start: int, limit: int, window: int, l: Limiter) {
    exists calls :: Calls(start, limit, window, calls) == l
  }

  lemma ReachedNext(start: int, limit: int, window: int, l: Limiter, c: Hit)
    requires Reached(start, limit, window, l)
    ensures Reached(start, limit, window, Call(l, limit, window, c).0)
  {
    var calls :| Calls(start, limit, window, calls) == l;
    assert (calls + [c])[..|calls|] == calls;
    assert Calls(start, limit, window, calls + [c]) == Call(l, limit, window, c).0;
  }

  /** What an accepted call does to its own address. */
  lemma CallOf(l: Limiter, limit: int, window: int, ip: Address, at: int)
    requires Kept(l, ip, at - window) < limit
    ensures var next := Call(l, limit, window, Hit(ip, at)).0;
            && Of(next.hits, ip) == After(Of(l.hits, ip), at - window) + [at]
            && LogOf(next.log, ip) == LogOf(l.log, ip) + [at]
  {
    AllowedOf(l.hits, limit, window, ip, at, ip);
    LogAppend(l.log, Hit(ip, at), ip);
  }

  lemma Counts(l: Limiter, limit: int, window: int, ip: Address, at: int, cutoff: int)
    requires Kept(l, ip, at - window) < limit
    ensures var next := Call(l, limit, window, Hit(ip, at)).0;
            && Kept(next, ip, cutoff)
               == Kept(l, ip, if at - window > cutoff then at - window else cutoff) + (if at > cutoff then 1 else 0)
            && Logged(next, ip, cutoff) == Logged(l, ip, cutoff) + (if at > cutoff then 1 else 0)
  {
    CallOf(l, limit, window, ip, at);
    AfterAppend(After(Of(l.hits, ip), at - window), at, cutoff);
    AfterAfter(Of(l.hits, ip), at - window, cutoff);
    AfterAppend(LogOf(l.log, ip), at, cutoff);
  }

  /** An address with `n` hits at `t`, kept and logged. */
  ghost predicate Full(l: Limiter, ip: Address, t: int, n: nat) {
    l.high == t && forall cutoff ::
      Kept(l, ip, cutoff) == Logged(l, ip, cutoff) == if cutoff < t then n else 0
  }

  lemma OneMore(l: Limiter, limit: int, window: int, ip: Address, t: int, n: nat)
    requires Full(l, ip, t, n) && n < limit && window > 0
    ensures Full(Call(l, limit, window, Hit(ip, t)).0, ip, t, n + 1)
  {
    var next := Call(l, limit, window, Hit(ip, t)).0;
    forall cutoff
      ensures Kept(next, ip, cutoff) == Logged(next, ip, cutoff) == if cutoff < t then n + 1 else 0
    {
      Counts(l, limit, window, ip, t, cutoff);
    }
  }

  /** Calls at one time fill the window of one address, up to the limit. */
  lemma {:induction false} Filled(ip: Address, limit: int, window: int, t: int, n: nat) returns (l: Limiter)
    requires n <= limit && window > 0
    ensures Reached(t, limit, window, l) && Full(l, ip, t, n)
  {
    if n == 0 {
      l := Calls(t, limit, window, []);
    } else {
      var before := Filled(ip, limit, window, t, n - 1);
      OneMore(before, limit, window, ip, t, n - 1);
      ReachedNext(t, limit, window, before, Hit(ip, t));
      l := Call(before, limit, window, Hit(ip, t)).0;
    }
  }

  /** One hit is kept, of many that are logged after `cutoff`. */
  ghost predicate Outpaced(l: Limiter, limit: nat, ip: Address, t: int, cutoff: int) {
    l.high == t && Kept(l, ip, cutoff) == 1 && Logged(l, ip, cutoff) == limit + 1
  }

  /** A call at `t` prunes a window filled a whole width before it. */
  lemma Prunes(l: Limiter, limit: nat, window: int, ip: Address, t: int, cutoff: int)
    requires limit > 0 && window > 0 && cutoff < t - window
    ensures Full(l, ip, t - window, limit) ==> Outpaced(Call(l, limit, window, Hit(ip, t)).0, limit, ip, t, cutoff)
  {
    if Full(l, ip, t - window, limit) {
      Counts(l, limit, window, ip, t, cutoff);
    }
  }

  /** With the latest call at `t1`, one at `t2` is accepted although the log has no room. */
  predicate AcceptsTooMuch(l: Limiter, limit: int, window: int, ip: Address, t1: int, t2: int) {
    l.high == t1 && Call(l, limit, window, Hit(ip, t2)).1 && !LogAllows(l.log, limit, window, ip, t2)
  }

  lemma OutpacedAccepts(l: Limiter, limit: nat, window: int, ip: Address, t1: int, t2: int)
    requires limit >= 2
    ensures Outpaced(l, limit, ip, t1, t2 - window) ==> AcceptsTooMuch(l, limit, window, ip, t1, t2)
  {
    AllowedOf(l.hits, limit, window, ip, t2, ip);
  }

  lemma OutpacedReached(ip: Address, limit: nat, window: int, t: int, cutoff: int)
    requires limit > 0 && window > 0 && cutoff < t - window
    ensures exists l :: Reached(t - window, limit, window, l) && Outpaced(l, limit, ip, t, cutoff)
  {
    var full := Filled(ip, limit, window, t - window, limit);
    ReachedNext(t - window, limit, window, full, Hit(ip, t));
    Prunes(full, limit, window, ip, t, cutoff);
  }

  lemma LateIsAccepted(ip: Address, limit: nat, window: int, t1: int, t2: int)
    requires limit >= 2 && window > 0 && t2 < t1
    ensures exists start, l :: Reached(start, limit, window, l) && AcceptsTooMuch(l, limit, window, ip, t1, t2)
  {
    OutpacedReached(ip, limit, window, t1, t2 - window);
    var l :| Reached(t1 - window, limit, window, l) && Outpaced(l, limit, ip, t1, t2 - window);
    OutpacedAccepts(l, limit, window, ip, t1, t2);
  }

  /** EXACTLY THE LATE CALLS. With a limit of two or more, calls up to time `t1` can bring the
      limiter to accept a call at `t2` that the log would refuse, if and only if `t2` is
      before `t1`. */
  lemma {:induction false} OverrunExactlyWhenLate(ip: Address, limit: nat, window: int, t1: int, t2: int)
    requires limit >= 2 && window > 0
    ensures t2 < t1
       <==> exists start, l :: Reached(start, limit, window, l) && AcceptsTooMuch(l, limit, window, ip, t1, t2)
  {
    if t2 < t1 {
      LateIsAccepted(ip, limit, window, t1, t2);
    } else if start, l :| Reached(start, limit, window, l) && AcceptsTooMuch(l, limit, window, ip, t1, t2) {
      var calls :| Calls(start, limit, window, calls) == l;
      LimiterIsTheLog(start, limit, window, calls, Hit(ip, t2));
    }
  }

  /** The server's own figures: sixty hits a minute, and a call one second late. */
  lemma OutOfOrderAcceptsMore(ip: Address)
    ensures exists start, l :: Reached(start, 60, 60, l) && AcceptsTooMuch(l, 60, 60, ip, 60, 59)
  {
    OverrunExactlyWhenLate(ip, 60, 60, 60, 59);
  }
}
