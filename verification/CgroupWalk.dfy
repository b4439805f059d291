/** The bounded walk that finds a container's cgroups, and says so when it could not
    read them all (internal/activity/procnet.py, cgroup_ids). */
module CgroupWalk {
  import opened Common

  /** One directory entry of the cgroup file system. `inspectable`: its type and inode
      can be read. `readable`: its own entries can be listed. */
  datatype Node =
    | File(name: string)
    | Dir(name: string, ino: nat, inspectable: bool, readable: bool, entries: seq<Node>)

  type Directory = n: Node | n.Dir? witness Dir("", 0, true, true, [])

  /** A directory waiting to be read, its depth, and whether it belongs to the container. */
  datatype Item = Item(node: Directory, depth: nat, inside: bool)

  datatype Walk = Walk(queue: seq<Item>, seen: nat, ids: set<nat>, cut: bool)

  datatype Limits = Limits(cid: string, maxDepth: nat, maxDirs: nat)

  datatype Reason = Complete | V1 | Missing | Partial

  /** `cid in name`, Python's substring test. */
  predicate Holds(name: string, cid: string) {
    |cid| <= |name| && (name[..|cid|] == cid || (name != "" && Holds(name[1..], cid)))
  }

  lemma {:induction false} HoldsIsContains(name: string, cid: string)
    ensures Holds(name, cid) <==> Contains(name, cid)
  {
    if |cid| <= |name| {
      if name[..|cid|] == cid {
        assert StandsAt(name, 0, cid);
      } else if name != "" {
        HoldsIsContains(name[1..], cid);
        ContainsLater(name, cid);
      }
    }
  }

  // ---------------------------------------------------------------------
  // Measures and references over the whole tree.
  // ---------------------------------------------------------------------

  /** How many directories there are below. */
  function Weight(es: seq<Node>): nat {
    if es == [] then 0
    else (match es[0] case File(_) => 0 case Dir(_, _, _, _, sub) => 1 + Weight(sub)) + Weight(es[1..])
  }

  /** How many levels of directories there are below. */
  function Height(es: seq<Node>): nat {
    if es == [] then 0
    else
      var rest := Height(es[1..]);
      match es[0]
      case File(_) => rest
      case Dir(_, _, _, _, sub) => if 1 + Height(sub) > rest then 1 + Height(sub) else rest
  }

  /** Every directory below, at any depth. */
  function Dirs(es: seq<Node>): set<Node> {
    if es == [] then {}
    else (match es[0] case File(_) => {} case Dir(_, _, _, _, sub) => {es[0]} + Dirs(sub)) + Dirs(es[1..])
  }

  /** The directories directly in `es`. */
  function Inos(es: seq<Node>): set<nat> {
    if es == [] then {}
    else (if es[0].Dir? then {es[0].ino} else {}) + Inos(es[1..])
  }

  /** The ids the container really has: every directory at or below one whose name
      holds the container id. */
  function Owned(es: seq<Node>, inside: bool, cid: string): set<nat> {
    if es == [] then {}
    else
      (match es[0]
       case File(_) => {}
       case Dir(name, ino, _, _, sub) =>
         var mine := inside || Holds(name, cid);
         (if mine then {ino} else {}) + Owned(sub, mine, cid))
      + Owned(es[1..], inside, cid)
  }

  /** An inode of a directory at or below one whose name contains the container id. */
  ghost predicate Below(es: seq<Node>, cid: string, ino: nat) {
    exists top, d :: top in Dirs(es) && top.Dir? && Contains(top.name, cid) && AtOrBelow(top, d) && d.Dir? && d.ino == ino
  }

  predicate AtOrBelow(top: Node, d: Node)
    requires top.Dir?
  {
    d == top || d in Dirs(top.entries)
  }

  lemma {:induction false} OwnedInside(es: seq<Node>, cid: string, ino: nat)
    ensures ino in Owned(es, true, cid) <==> exists d :: d in Dirs(es) && d.Dir? && d.ino == ino
  {
    if es != [] {
      OwnedInside(es[1..], cid, ino);
      if es[0].Dir? {
        OwnedInside(es[0].entries, cid, ino);
      }
    }
  }

  /** What the container owns, by names alone. */
  lemma {:induction false} OwnedIsBelow(es: seq<Node>, cid: string, ino: nat)
    ensures ino in Owned(es, false, cid) <==> Below(es, cid, ino)
  {
    if es == [] {
      assert Dirs(es) == {};
    } else {
      OwnedIsBelow(es[1..], cid, ino);
      if es[0].Dir? {
        HoldsIsContains(es[0].name, cid);
        OwnedInside(es[0].entries, cid, ino);
        OwnedIsBelow(es[0].entries, cid, ino);
        if Below(es[0].entries, cid, ino) {
          BelowIsInside(es[0].entries, cid, ino);
        }
      }
      BelowFirst(es, cid, ino);
    }
  }

  lemma BelowIsInside(es: seq<Node>, cid: string, ino: nat)
    requires Below(es, cid, ino)
    ensures exists d :: d in Dirs(es) && d.Dir? && d.ino == ino
  {
    var top, d :| top in Dirs(es) && top.Dir? && Contains(top.name, cid) && AtOrBelow(top, d) && d.Dir? && d.ino == ino;
    DirsNested(es, top);
    assert d in Dirs(es);
  }

  /** The first entry, what is below it, and the others. */
  lemma BelowFirst(es: seq<Node>, cid: string, ino: nat)
    requires es != []
    ensures Below(es, cid, ino)
       <==> Below(es[1..], cid, ino)
            || (es[0].Dir? && Below(es[0].entries, cid, ino))
            || (es[0].Dir? && Contains(es[0].name, cid)
                && (es[0].ino == ino || exists d :: d in Dirs(es[0].entries) && d.Dir? && d.ino == ino))
  {
    if Below(es, cid, ino) {
      var top, d :| top in Dirs(es) && top.Dir? && Contains(top.name, cid) && AtOrBelow(top, d) && d.Dir? && d.ino == ino;
      assert top in Dirs(es[1..]) || top == es[0] || (es[0].Dir? && top in Dirs(es[0].entries));
    }
    if Below(es[1..], cid, ino) {
      var top, d :| top in Dirs(es[1..]) && top.Dir? && Contains(top.name, cid) && AtOrBelow(top, d) && d.Dir? && d.ino == ino;
      assert top in Dirs(es);
    }
    if es[0].Dir? && Below(es[0].entries, cid, ino) {
      var top, d :| top in Dirs(es[0].entries) && top.Dir? && Contains(top.name, cid) && AtOrBelow(top, d) && d.Dir? && d.ino == ino;
      assert top in Dirs(es);
    }
    if es[0].Dir? && Contains(es[0].name, cid) {
      assert es[0] in Dirs(es) && AtOrBelow(es[0], es[0]);
      if d :| d in Dirs(es[0].entries) && d.Dir? && d.ino == ino {
        assert AtOrBelow(es[0], d);
      }
    }
  }

  function QueueSize(queue: seq<Item>): nat {
    if queue == [] then 0
    else QueueSize(queue[..|queue| - 1]) + 1 + Weight(queue[|queue| - 1].node.entries)
  }

  // ---------------------------------------------------------------------
  // The walk, as a function of its state.
  // ---------------------------------------------------------------------

  /** _has_subdir: an entry that cannot be inspected before the first directory, or a
      directory that cannot be listed, reads as "no". */
  predicate HasSubdir(d: Directory) {
    d.readable && FirstIsDir(d.entries)
  }

  predicate FirstIsDir(es: seq<Node>) {
    es != [] && (if es[0].File? then FirstIsDir(es[1..]) else es[0].inspectable)
  }

  /** What one inspected directory `e` does to the walk, below the limit. */
  function Enter(w: Walk, e: Directory, depth: nat, inside: bool, lim: Limits): (r: Walk)
    ensures QueueSize(r.queue) <= QueueSize(w.queue) + 1 + Weight(e.entries)
    ensures w.ids <= r.ids && (w.cut ==> r.cut)
  {
    var mine := inside || Holds(e.name, lim.cid);
    var ids := if mine then w.ids + {e.ino} else w.ids;
    if depth + 1 < lim.maxDepth then
      Walk(w.queue + [Item(e, depth + 1, mine)], w.seen + 1, ids, w.cut)
    else
      Walk(w.queue, w.seen + 1, ids, w.cut || (mine && HasSubdir(e)))
  }

  predicate AnyHolds(es: seq<Node>, cid: string) {
    exists x :: x in es && Holds(x.name, cid)
  }

  /** Reading the entries of one directory. */
  function Scan(w: Walk, es: seq<Node>, depth: nat, inside: bool, lim: Limits): (r: Walk)
    ensures QueueSize(r.queue) <= QueueSize(w.queue) + Weight(es)
    ensures w.ids <= r.ids && (w.cut ==> r.cut)
    decreases |es|
  {
    if es == [] then w
    else if es[0].File? || !es[0].inspectable then Scan(w, es[1..], depth, inside, lim)
    else if w.seen + 1 > lim.maxDirs then
      w.(seen := w.seen + 1, cut := w.cut || inside || AnyHolds(es, lim.cid))
    else Scan(Enter(w, es[0], depth, inside, lim), es[1..], depth, inside, lim)
  }

  /** One turn of the outer loop: the directory pushed last is read. */
  function Turn(w: Walk, lim: Limits): (r: Walk)
    requires w.queue != []
    ensures QueueSize(r.queue) < QueueSize(w.queue)
  {
    var last := |w.queue| - 1;
    var p, rest := w.queue[last], w.(queue := w.queue[..last]);
    if !p.node.readable then rest.(cut := w.cut || p.inside)
    else Scan(rest, p.node.entries, p.depth, p.inside, lim)
  }

  function Walked(w: Walk, lim: Limits): Walk
    decreases QueueSize(w.queue)
  {
    if w.queue == [] || w.seen >= lim.maxDirs then w else Walked(Turn(w, lim), lim)
  }

  function Start(root: Directory): Walk {
    Walk([Item(root, 0, false)], 0, {}, false)
  }

  predicate AnyInside(queue: seq<Item>) {
    exists q :: q in queue && q.inside
  }

  predicate IsContainerId(cid: string) {
    |cid| == 64 && forall c :: c in cid ==> '0' <= c <= '9' || 'a' <= c <= 'f'
  }

  lemma ContainerIdIsHex(cid: string)
    ensures IsContainerId(cid) <==> |cid| == 64 && forall c :: c in cid ==> c in "0123456789abcdef"
  {
    forall c | '0' <= c <= '9' || 'a' <= c <= 'f'
      ensures c in "0123456789abcdef"
    {
      HexDigit(c as int);
    }
    forall c | c in "0123456789abcdef"
      ensures '0' <= c <= '9' || 'a' <= c <= 'f'
    {
      var k :| 0 <= k < 16 && "0123456789abcdef"[k] == c;
    }
  }

  lemma HexDigit(n: nat)
    requires 48 <= n <= 57 || 97 <= n <= 102
    ensures n as char in "0123456789abcdef"
  {
    var digits := "0123456789abcdef";
    var k := if n <= 57 then n - 48 else n - 87;
    assert digits[k] == n as char;
  }

  function Answer(w: Walk): (set<nat>, Reason) {
    (w.ids, if w.ids == {} then Missing else if w.cut || AnyInside(w.queue) then Partial else Complete)
  }

  // ---------------------------------------------------------------------
  // The source's loops.
  // ---------------------------------------------------------------------

  method EnterDirectory(w: Walk, e: Directory, depth: nat, inside: bool, lim: Limits) returns (r: Walk)
    ensures r == Enter(w, e, depth, inside, lim)
  {
    var mine := inside || Holds(e.name, lim.cid);
    r := w.(seen := w.seen + 1);
    if mine {
      r := r.(ids := r.ids + {e.ino});
    }
    if depth + 1 < lim.maxDepth {
      r := r.(queue := r.queue + [Item(e, depth + 1, mine)]);
    } else if mine && HasSubdir(e) {
      r := r.(cut := true);
    }
  }

  method ReadEntries(w: Walk, entries: seq<Node>, depth: nat, inside: bool, lim: Limits) returns (r: Walk)
    ensures r == Scan(w, entries, depth, inside, lim)
  {
    r := w;
    for i := 0 to |entries|
      invariant Scan(r, entries[i..], depth, inside, lim) == Scan(w, entries, depth, inside, lim)
    {
      var e := entries[i];
      if e.File? || !e.inspectable {
        continue;
      }
      if r.seen + 1 > lim.maxDirs {
        return r.(seen := r.seen + 1, cut := r.cut || inside || AnyHolds(entries[i..], lim.cid));
      }
      r := EnterDirectory(r, e, depth, inside, lim);
    }
  }

  /** cgroup_ids. `controllers`: the root holds a cgroup.controllers file (cgroup v2). */
  method CgroupIds(controllers: bool, root: Directory, lim: Limits) returns (ids: set<nat>, reason: Reason)
    ensures !controllers ==> ids == {} && reason == V1
    ensures controllers && !IsContainerId(lim.cid) ==> ids == {} && reason == Missing
    ensures controllers && IsContainerId(lim.cid) ==> (ids, reason) == Answer(Walked(Start(root), lim))
  {
    if !controllers {
      return {}, V1;
    }
    if !IsContainerId(lim.cid) {
      return {}, Missing;
    }
    var w := Walk([Item(root, 0, false)], 0, {}, false);
    while w.queue != [] && w.seen < lim.maxDirs
      invariant Walked(w, lim) == Walked(Start(root), lim)
      decreases QueueSize(w.queue)
    {
      ghost var before := w;
      var p := w.queue[|w.queue| - 1];
      w := w.(queue := w.queue[..|w.queue| - 1]);
      if !p.node.readable {
        w := w.(cut := w.cut || p.inside);
      } else {
        w := ReadEntries(w, p.node.entries, p.depth, p.inside, lim);
      }
      assert w == Turn(before, lim);
    }
    var cut := w.cut || AnyInside(w.queue);
    ids := w.ids;
    reason := if ids == {} then Missing else if cut then Partial else Complete;
  }

  // ---------------------------------------------------------------------
  // Soundness: no id of another container's directory is ever returned.
  // ---------------------------------------------------------------------

  ghost predicate Sound(w: Walk, owned: set<nat>, cid: string) {
    && w.ids <= owned
    && forall q :: q in w.queue ==> Owned(q.node.entries, q.inside, cid) <= owned
  }

  lemma {:induction false} ScanSound(w: Walk, es: seq<Node>, depth: nat, inside: bool, lim: Limits, owned: set<nat>)
    requires Sound(w, owned, lim.cid) && Owned(es, inside, lim.cid) <= owned
    ensures Sound(Scan(w, es, depth, inside, lim), owned, lim.cid)
    decreases |es|
  {
    if es == [] {
    } else if es[0].File? || !es[0].inspectable {
      ScanSound(w, es[1..], depth, inside, lim, owned);
    } else if w.seen + 1 > lim.maxDirs {
    } else {
      ScanSound(Enter(w, es[0], depth, inside, lim), es[1..], depth, inside, lim, owned);
    }
  }

  lemma {:induction false} WalkedSound(w: Walk, lim: Limits, owned: set<nat>)
    requires Sound(w, owned, lim.cid)
    ensures Sound(Walked(w, lim), owned, lim.cid)
    decreases QueueSize(w.queue)
  {
    if w.queue != [] && w.seen < lim.maxDirs {
      var last := |w.queue| - 1;
      var p, rest := w.queue[last], w.(queue := w.queue[..last]);
      assert p in w.queue;
      if p.node.readable {
        ScanSound(rest, p.node.entries, p.depth, p.inside, lim, owned);
      }
      WalkedSound(Turn(w, lim), lim, owned);
    }
  }

  /** Whatever the limits and whatever could not be read, every id returned is that of
      a directory at or below one whose name contains the container id. */
  lemma {:induction false} EveryIdIsOwned(root: Directory, lim: Limits)
    ensures forall ino :: ino in Answer(Walked(Start(root), lim)).0 ==> Below(root.entries, lim.cid, ino)
  {
    WalkedSound(Start(root), lim, Owned(root.entries, false, lim.cid));
    forall ino | ino in Answer(Walked(Start(root), lim)).0
      ensures Below(root.entries, lim.cid, ino)
    {
      OwnedIsBelow(root.entries, lim.cid, ino);
    }
  }

  // ---------------------------------------------------------------------
  // The limits bound what is read, and stopping at one is noticed.
  // ---------------------------------------------------------------------

  /** The inodes of the directories at most `k` levels down. */
  function Within(es: seq<Node>, k: nat): set<nat> {
    if es == [] || k == 0 then {}
    else
      (match es[0] case File(_) => {} case Dir(_, ino, _, _, sub) => {ino} + Within(sub, k - 1)) + Within(es[1..], k)
  }

  /** The deepest level whose directories are looked at: the entries of the root always are. */
  function Deepest(lim: Limits): nat {
    if lim.maxDepth == 0 then 1 else lim.maxDepth
  }

  ghost predicate QueueBounded(queue: seq<Item>, lim: Limits, allowed: set<nat>) {
    forall q :: q in queue ==> q.depth < Deepest(lim) && Within(q.node.entries, Deepest(lim) - q.depth) <= allowed
  }

  ghost predicate Bounded(w: Walk, lim: Limits, allowed: set<nat>) {
    w.ids <= allowed && |w.ids| <= w.seen && |w.ids| <= lim.maxDirs && QueueBounded(w.queue, lim, allowed)
  }

  lemma PushBounded(queue: seq<Item>, x: Item, lim: Limits, allowed: set<nat>)
    requires QueueBounded(queue, lim, allowed)
    requires x.depth < Deepest(lim) && Within(x.node.entries, Deepest(lim) - x.depth) <= allowed
    ensures QueueBounded(queue + [x], lim, allowed)
  {
  }

  lemma EnterBounded(w: Walk, e: Directory, depth: nat, inside: bool, lim: Limits, allowed: set<nat>)
    requires Bounded(w, lim, allowed) && depth < Deepest(lim) && w.seen + 1 <= lim.maxDirs
    requires e.ino in allowed && Within(e.entries, Deepest(lim) - depth - 1) <= allowed
    ensures Bounded(Enter(w, e, depth, inside, lim), lim, allowed)
  {
    OneMoreId(w.ids, e.ino);
    if depth + 1 < lim.maxDepth {
      PushBounded(w.queue, Item(e, depth + 1, inside || Holds(e.name, lim.cid)), lim, allowed);
    }
  }

  lemma OneMoreId(ids: set<nat>, ino: nat)
    ensures |ids + {ino}| <= |ids| + 1
  {
    if ino in ids {
      assert ids + {ino} == ids;
    }
  }

  lemma {:induction false} ScanBounded(w: Walk, es: seq<Node>, depth: nat, inside: bool, lim: Limits, allowed: set<nat>)
    requires Bounded(w, lim, allowed) && depth < Deepest(lim) && Within(es, Deepest(lim) - depth) <= allowed
    ensures Bounded(Scan(w, es, depth, inside, lim), lim, allowed)
    decreases |es|
  {
    if es == [] {
    } else if es[0].File? || !es[0].inspectable {
      ScanBounded(w, es[1..], depth, inside, lim, allowed);
    } else if w.seen + 1 <= lim.maxDirs {
      EnterBounded(w, es[0], depth, inside, lim, allowed);
      ScanBounded(Enter(w, es[0], depth, inside, lim), es[1..], depth, inside, lim, allowed);
    }
  }

  lemma {:induction false} WalkedBounded(w: Walk, lim: Limits, allowed: set<nat>)
    requires Bounded(w, lim, allowed)
    ensures Bounded(Walked(w, lim), lim, allowed)
    decreases QueueSize(w.queue)
  {
    if w.queue != [] && w.seen < lim.maxDirs {
      var last := |w.queue| - 1;
      var p, rest := w.queue[last], w.(queue := w.queue[..last]);
      assert p in w.queue;
      if p.node.readable {
        ScanBounded(rest, p.node.entries, p.depth, p.inside, lim, allowed);
      }
      WalkedBounded(Turn(w, lim), lim, allowed);
    }
  }

  /** No directory below the depth limit is ever looked at, and never more ids than the
      directory limit are returned. */
  lemma {:induction false} WalkIsBounded(root: Directory, lim: Limits)
    ensures Answer(Walked(Start(root), lim)).0 <= Within(root.entries, Deepest(lim))
    ensures |Answer(Walked(Start(root), lim)).0| <= lim.maxDirs
  {
    WalkedBounded(Start(root), lim, Within(root.entries, Deepest(lim)));
  }

  /** A directory among `es` that is the container's by its own name. */
  predicate Named(es: seq<Node>, d: Node, cid: string) {
    d in es && d.Dir? && d.inspectable && Holds(d.name, cid)
  }

  lemma {:induction false} ScanNames(w: Walk, es: seq<Node>, depth: nat, inside: bool, lim: Limits, d: Node)
    requires Named(es, d, lim.cid)
    ensures var r := Scan(w, es, depth, inside, lim); d.ino in r.ids || r.cut
    decreases |es|
  {
    if es[0].File? || !es[0].inspectable {
      ScanNames(w, es[1..], depth, inside, lim, d);
    } else if w.seen + 1 > lim.maxDirs {
      assert AnyHolds(es, lim.cid);
    } else if d == es[0] {
      assert d.ino in Enter(w, d, depth, inside, lim).ids;
    } else {
      ScanNames(Enter(w, es[0], depth, inside, lim), es[1..], depth, inside, lim, d);
    }
  }

  lemma {:induction false} WalkedGrows(w: Walk, lim: Limits)
    ensures w.ids <= Walked(w, lim).ids && (w.cut ==> Walked(w, lim).cut)
    decreases QueueSize(w.queue)
  {
    if w.queue != [] && w.seen < lim.maxDirs {
      WalkedGrows(Turn(w, lim), lim);
    }
  }

  /** Of a directory the walk comes to read, every entry whose name contains the container id
      is found, or the walk ends up knowing that it is partial. */
  lemma MatchesAreNotLost(w: Walk, lim: Limits, d: Node)
    requires w.queue != [] && w.seen < lim.maxDirs
    requires var p := w.queue[|w.queue| - 1];
             p.node.readable && d in p.node.entries && d.Dir? && d.inspectable && Contains(d.name, lim.cid)
    ensures d.ino in Walked(w, lim).ids || Walked(w, lim).cut
  {
    var last := |w.queue| - 1;
    var p, rest := w.queue[last], w.(queue := w.queue[..last]);
    HoldsIsContains(d.name, lim.cid);
    ScanNames(rest, p.node.entries, p.depth, p.inside, lim, d);
    WalkedGrows(Turn(w, lim), lim);
  }

  // ---------------------------------------------------------------------
  // Complete or says so.
  // ---------------------------------------------------------------------

  /** An inode names one directory. */
  ghost predicate UniqueInos(all: set<Node>) {
    && (forall d :: d in all ==> d.Dir?)
    && (forall a, b :: a in all && b in all && a.ino == b.ino ==> a == b)
  }

  /** Below a directory whose name holds the container id every entry can be inspected, and
      the container's directories at the depth limit can be listed: the walk notices every
      other failure by itself. */
  predicate Legible(es: seq<Node>, depth: nat, inside: bool, lim: Limits) {
    es == [] || (
      && (es[0].Dir? ==>
            var mine := inside || Holds(es[0].name, lim.cid);
            && (inside ==> es[0].inspectable)
            && (mine && depth + 1 >= lim.maxDepth ==> es[0].readable)
            && Legible(es[0].entries, depth + 1, mine, lim))
      && Legible(es[1..], depth, inside, lim))
  }

  predicate LegibleBelow(e: Directory, depth: nat, inside: bool, lim: Limits) {
    var mine := inside || Holds(e.name, lim.cid);
    (mine && depth + 1 >= lim.maxDepth ==> e.readable) && Legible(e.entries, depth + 1, mine, lim)
  }

  ghost predicate Queued(w: Walk, d: Node) {
    exists q :: q in w.queue && q.inside && q.node == d
  }

  /** A found directory is still to be read, or all its directories were found, or the
      walk already knows that it is partial. */
  ghost predicate Followed(w: Walk, d: Node)
    requires d.Dir?
  {
    d.ino in w.ids ==> w.cut || Queued(w, d) || Inos(d.entries) <= w.ids
  }

  ghost predicate AllFollowed(w: Walk, all: set<Node>, except: set<Node>)
    requires UniqueInos(all)
  {
    forall d :: d in all && d !in except ==> Followed(w, d)
  }

  /** Every queued directory lies in the tree. */
  ghost predicate InTree(w: Walk, all: set<Node>, lim: Limits) {
    forall q :: q in w.queue ==> Dirs(q.node.entries) <= all && Legible(q.node.entries, q.depth, q.inside, lim)
  }

  /** A directory with no subdirectory, as far as HasSubdir can tell, has none. */
  lemma {:induction false} NoSubdir(es: seq<Node>, depth: nat, lim: Limits)
    requires Legible(es, depth, true, lim) && !FirstIsDir(es)
    ensures Inos(es) == {}
  {
    if es != [] {
      NoSubdir(es[1..], depth, lim);
    }
  }

  /** A directory at the depth limit that HasSubdir passes over has no directories. */
  ghost predicate LeafIsKnown(e: Directory, depth: nat, inside: bool, lim: Limits) {
    depth + 1 >= lim.maxDepth && (inside || Holds(e.name, lim.cid)) && !HasSubdir(e) ==> Inos(e.entries) == {}
  }

  lemma LegibleLeaf(e: Directory, depth: nat, inside: bool, lim: Limits)
    requires LegibleBelow(e, depth, inside, lim)
    ensures LeafIsKnown(e, depth, inside, lim)
  {
    if depth + 1 >= lim.maxDepth && (inside || Holds(e.name, lim.cid)) && !HasSubdir(e) {
      NoSubdir(e.entries, depth + 1, lim);
    }
  }

  lemma {:induction false} EnterKeepsFollowed(w: Walk, e: Directory, depth: nat, inside: bool, lim: Limits, d: Node)
    requires d.Dir? && Followed(w, d) && (d.ino == e.ino ==> d == e) && LeafIsKnown(e, depth, inside, lim)
    ensures Followed(Enter(w, e, depth, inside, lim), d)
  {
    QueuedStays(w, e, depth, inside, lim, d);
    var r, mine := Enter(w, e, depth, inside, lim), inside || Holds(e.name, lim.cid);
    if mine && d.ino == e.ino {
      if depth + 1 >= lim.maxDepth && !HasSubdir(e) {
        assert Inos(d.entries) == {};
      }
    } else {
      assert d.ino in r.ids ==> d.ino in w.ids;
    }
  }

  /** A directory queued stays queued, and one found above the depth limit is queued. */
  lemma QueuedStays(w: Walk, e: Directory, depth: nat, inside: bool, lim: Limits, d: Node)
    ensures Queued(w, d) ==> Queued(Enter(w, e, depth, inside, lim), d)
    ensures d == e && depth + 1 < lim.maxDepth && (inside || Holds(e.name, lim.cid)) ==>
              Queued(Enter(w, e, depth, inside, lim), d)
  {
    var r := Enter(w, e, depth, inside, lim);
    if Queued(w, d) {
      var q :| q in w.queue && q.inside && q.node == d;
      assert q in r.queue;
    } else if depth + 1 < lim.maxDepth {
      assert Item(e, depth + 1, inside || Holds(e.name, lim.cid)) in r.queue;
    }
  }

  lemma EnterInTree(w: Walk, e: Directory, depth: nat, inside: bool, lim: Limits, all: set<Node>)
    requires Dirs(e.entries) <= all && InTree(w, all, lim) && LegibleBelow(e, depth, inside, lim)
    ensures InTree(Enter(w, e, depth, inside, lim), all, lim)
  {
    forall q | q in Enter(w, e, depth, inside, lim).queue
      ensures Dirs(q.node.entries) <= all && Legible(q.node.entries, q.depth, q.inside, lim)
    {
      assert q in w.queue || q == Item(e, depth + 1, inside || Holds(e.name, lim.cid));
    }
  }

  lemma EnterFollowed(w: Walk, e: Directory, depth: nat, inside: bool, lim: Limits, all: set<Node>, except: set<Node>)
    requires UniqueInos(all) && e in all && AllFollowed(w, all, except) && LegibleBelow(e, depth, inside, lim)
    ensures
      var r := Enter(w, e, depth, inside, lim);
      AllFollowed(r, all, except) && w.ids <= r.ids && (inside ==> e.ino in r.ids)
  {
    LegibleLeaf(e, depth, inside, lim);
    forall d | d in all && d !in except
      ensures Followed(Enter(w, e, depth, inside, lim), d)
    {
      EnterKeepsFollowed(w, e, depth, inside, lim, d);
    }
  }

  lemma {:induction false} ScanFollowed(w: Walk, es: seq<Node>, depth: nat, inside: bool, lim: Limits,
                                        all: set<Node>, except: set<Node>)
    requires UniqueInos(all) && Dirs(es) <= all && Legible(es, depth, inside, lim)
    requires InTree(w, all, lim) && AllFollowed(w, all, except)
    ensures
      var r := Scan(w, es, depth, inside, lim);
      && InTree(r, all, lim) && AllFollowed(r, all, except)
      && w.ids <= r.ids
      && (inside ==> r.cut || Inos(es) <= r.ids)
    decreases |es|
  {
    if es == [] {
    } else if es[0].File? || !es[0].inspectable {
      ScanFollowed(w, es[1..], depth, inside, lim, all, except);
    } else if w.seen + 1 > lim.maxDirs {
      var r := Scan(w, es, depth, inside, lim);
      forall d | d in all && d !in except
        ensures Followed(r, d)
      {
        assert Followed(w, d);
        assert Queued(w, d) ==> Queued(r, d);
      }
    } else {
      var e := es[0];
      EnterInTree(w, e, depth, inside, lim, all);
      EnterFollowed(w, e, depth, inside, lim, all, except);
      ScanFollowed(Enter(w, e, depth, inside, lim), es[1..], depth, inside, lim, all, except);
    }
  }

  lemma TurnFollowed(w: Walk, lim: Limits, all: set<Node>)
    requires UniqueInos(all) && w.queue != []
    requires InTree(w, all, lim) && AllFollowed(w, all, {})
    ensures InTree(Turn(w, lim), all, lim) && AllFollowed(Turn(w, lim), all, {})
  {
    var last := |w.queue| - 1;
    var p, rest, r := w.queue[last], w.(queue := w.queue[..last]), Turn(w, lim);
    var except: set<Node> := if p.inside then {p.node} else {};
    assert p in w.queue;
    forall d | d in all && d !in except
      ensures Followed(rest, d)
    {
      assert Followed(w, d);
      if Queued(w, d) {
        var q :| q in w.queue && q.inside && q.node == d;
        assert q in rest.queue;
      }
    }
    if p.node.readable {
      ScanFollowed(rest, p.node.entries, p.depth, p.inside, lim, all, except);
    } else {
      forall d | d in all
        ensures Followed(r, d)
      {
        if d !in except {
          assert Followed(rest, d);
          assert Queued(rest, d) ==> Queued(r, d);
        }
      }
    }
  }

  lemma {:induction false} WalkedFollowed(w: Walk, lim: Limits, all: set<Node>)
    requires UniqueInos(all) && InTree(w, all, lim) && AllFollowed(w, all, {})
    ensures AllFollowed(Walked(w, lim), all, {})
    decreases QueueSize(w.queue)
  {
    if w.queue != [] && w.seen < lim.maxDirs {
      TurnFollowed(w, lim, all);
      WalkedFollowed(Turn(w, lim), lim, all);
    }
  }

  /** Closed one level down everywhere is closed all the way down. */
  lemma {:induction false} ClosedBelow(es: seq<Node>, all: set<Node>, ids: set<nat>, x: Node)
    requires UniqueInos(all) && Dirs(es) <= all && Inos(es) <= ids && x in Dirs(es)
    requires forall d :: d in all && d.ino in ids ==> Inos(d.entries) <= ids
    ensures x.ino in ids
  {
    if x in Dirs(es[1..]) {
      ClosedBelow(es[1..], all, ids, x);
    } else if x != es[0] {
      ClosedBelow(es[0].entries, all, ids, x);
    }
  }

  /** COMPLETE OR SAYS SO. When the walk reports no reason, nothing below a directory it
      found is missing, however the limits and the read failures fell. */
  lemma {:induction false} CompleteOrSaysSo(root: Directory, lim: Limits, found: Node, below: Node)
    requires UniqueInos(Dirs(root.entries)) && Legible(root.entries, 0, false, lim)
    requires Answer(Walked(Start(root), lim)).1 == Complete
    requires found in Dirs(root.entries) && found.ino in Answer(Walked(Start(root), lim)).0
    requires below in Dirs(found.entries)
    ensures below.Dir? && below.ino in Answer(Walked(Start(root), lim)).0
  {
    var all, w := Dirs(root.entries), Walked(Start(root), lim);
    WalkedFollowed(Start(root), lim, all);
    forall d | d in all && d.ino in w.ids
      ensures Inos(d.entries) <= w.ids
    {
      assert Followed(w, d);
    }
    DirsNested(root.entries, found);
    DirsNested(found.entries, below);
    ClosedBelow(found.entries, all, w.ids, below);
  }

  lemma {:induction false} DirsNested(es: seq<Node>, d: Node)
    requires d in Dirs(es)
    ensures d.Dir? && Dirs(d.entries) <= Dirs(es)
  {
    if d in Dirs(es[1..]) {
      DirsNested(es[1..], d);
    } else if d != es[0] {
      DirsNested(es[0].entries, d);
    }
  }

  // ---------------------------------------------------------------------
  // Exact when no limit is hit.
  // ---------------------------------------------------------------------

  predicate AllReadable(es: seq<Node>) {
    es == [] || (
      && (es[0].Dir? ==> es[0].inspectable && es[0].readable && AllReadable(es[0].entries))
      && AllReadable(es[1..]))
  }

  function QueueWeight(queue: seq<Item>): nat {
    if queue == [] then 0
    else QueueWeight(queue[..|queue| - 1]) + Weight(queue[|queue| - 1].node.entries)
  }

  function QueueOwned(queue: seq<Item>, cid: string): set<nat> {
    if queue == [] then {}
    else
      var q := queue[|queue| - 1];
      QueueOwned(queue[..|queue| - 1], cid) + Owned(q.node.entries, q.inside, cid)
  }

  predicate Fits(q: Item, lim: Limits) {
    AllReadable(q.node.entries) && q.node.readable && q.depth + Height(q.node.entries) <= lim.maxDepth
  }

  /** Nothing was cut, everything left fits the limits, and what was found plus what is
      left to find is `owned`. */
  ghost predicate OnTrack(w: Walk, more: nat, moreOwned: set<nat>, lim: Limits, total: nat, owned: set<nat>) {
    && !w.cut
    && w.seen + QueueWeight(w.queue) + more == total <= lim.maxDirs
    && (forall q :: q in w.queue ==> Fits(q, lim))
    && w.ids + QueueOwned(w.queue, lim.cid) + moreOwned == owned
  }

  lemma PushTotals(queue: seq<Item>, x: Item, cid: string)
    ensures QueueWeight(queue + [x]) == QueueWeight(queue) + Weight(x.node.entries)
    ensures QueueOwned(queue + [x], cid) == QueueOwned(queue, cid) + Owned(x.node.entries, x.inside, cid)
  {
    assert (queue + [x])[..|queue|] == queue;
  }

  lemma PushOnTrack(w: Walk, x: Item, self: set<nat>, lim: Limits, rest: nat, restOwned: set<nat>,
                    total: nat, owned: set<nat>)
    requires OnTrack(w, 1 + Weight(x.node.entries) + rest, self + Owned(x.node.entries, x.inside, lim.cid) + restOwned,
                     lim, total, owned)
    requires Fits(x, lim)
    ensures OnTrack(Walk(w.queue + [x], w.seen + 1, w.ids + self, w.cut), rest, restOwned, lim, total, owned)
  {
    PushTotals(w.queue, x, lim.cid);
    var queued, below := QueueOwned(w.queue, lim.cid), Owned(x.node.entries, x.inside, lim.cid);
    assert w.ids + queued + (self + below + restOwned) == (w.ids + self) + (queued + below) + restOwned;
  }

  lemma LeafOnTrack(w: Walk, self: set<nat>, lim: Limits, rest: nat, restOwned: set<nat>, total: nat, owned: set<nat>)
    requires OnTrack(w, 1 + rest, self + restOwned, lim, total, owned)
    ensures OnTrack(Walk(w.queue, w.seen + 1, w.ids + self, w.cut), rest, restOwned, lim, total, owned)
  {
    var queued := QueueOwned(w.queue, lim.cid);
    assert w.ids + queued + (self + restOwned) == (w.ids + self) + queued + restOwned;
  }

  lemma EnterOnTrack(w: Walk, e: Directory, depth: nat, inside: bool, lim: Limits, rest: nat, restOwned: set<nat>,
                     total: nat, owned: set<nat>)
    requires
      var mine := inside || Holds(e.name, lim.cid);
      var self: set<nat> := if mine then {e.ino} else {};
      OnTrack(w, 1 + Weight(e.entries) + rest, self + Owned(e.entries, mine, lim.cid) + restOwned, lim, total, owned)
    requires AllReadable(e.entries) && e.readable && depth + 1 + Height(e.entries) <= lim.maxDepth
    ensures OnTrack(Enter(w, e, depth, inside, lim), rest, restOwned, lim, total, owned)
  {
    var mine := inside || Holds(e.name, lim.cid);
    var self: set<nat> := if mine then {e.ino} else {};
    assert w.ids + {} == w.ids;
    if depth + 1 < lim.maxDepth {
      PushOnTrack(w, Item(e, depth + 1, mine), self, lim, rest, restOwned, total, owned);
    } else {
      NoDirs(e.entries, mine, lim.cid);
      assert self + {} == self;
      LeafOnTrack(w, self, lim, rest, restOwned, total, owned);
    }
  }

  lemma {:induction false} NoDirs(es: seq<Node>, inside: bool, cid: string)
    requires Height(es) == 0 || Weight(es) == 0
    ensures !FirstIsDir(es) && Weight(es) == 0 && Owned(es, inside, cid) == {}
  {
    if es != [] {
      NoDirs(es[1..], inside, cid);
    }
  }

  lemma {:induction false} ScanOnTrack(w: Walk, es: seq<Node>, depth: nat, inside: bool, lim: Limits,
                                       total: nat, owned: set<nat>)
    requires OnTrack(w, Weight(es), Owned(es, inside, lim.cid), lim, total, owned)
    requires AllReadable(es) && depth + Height(es) <= lim.maxDepth
    ensures OnTrack(Scan(w, es, depth, inside, lim), 0, {}, lim, total, owned)
    decreases |es|
  {
    if es == [] {
    } else if es[0].File? {
      ScanOnTrack(w, es[1..], depth, inside, lim, total, owned);
    } else {
      var rest := es[1..];
      EnterOnTrack(w, es[0], depth, inside, lim, Weight(rest), Owned(rest, inside, lim.cid), total, owned);
      ScanOnTrack(Enter(w, es[0], depth, inside, lim), rest, depth, inside, lim, total, owned);
    }
  }

  lemma {:induction false} WalkedOnTrack(w: Walk, lim: Limits, total: nat, owned: set<nat>)
    requires OnTrack(w, 0, {}, lim, total, owned)
    ensures OnTrack(Walked(w, lim), 0, {}, lim, total, owned)
    decreases QueueSize(w.queue)
  {
    if w.queue != [] && w.seen < lim.maxDirs {
      var last := |w.queue| - 1;
      var p, rest := w.queue[last], w.(queue := w.queue[..last]);
      assert p in w.queue;
      ScanOnTrack(rest, p.node.entries, p.depth, p.inside, lim, total, owned);
      WalkedOnTrack(Turn(w, lim), lim, total, owned);
    }
  }

  lemma {:induction false} NothingLeft(queue: seq<Item>, cid: string)
    requires QueueWeight(queue) == 0
    ensures QueueOwned(queue, cid) == {}
  {
    if queue != [] {
      var q := queue[|queue| - 1];
      NothingLeft(queue[..|queue| - 1], cid);
      NoDirs(q.node.entries, q.inside, cid);
    }
  }

  /** EXACT WHEN NO LIMIT IS HIT. A readable tree within the limits gives exactly the ids of
      the directories at or below one whose name contains the container id; with a directory
      to spare, the reason is exact too. */
  lemma {:induction false} ExactWithinLimits(root: Directory, lim: Limits)
    requires root.readable && AllReadable(root.entries)
    requires Weight(root.entries) <= lim.maxDirs && Height(root.entries) <= lim.maxDepth
    ensures
      var (ids, reason) := Answer(Walked(Start(root), lim));
      && ids == Owned(root.entries, false, lim.cid)
      && (forall ino :: ino in ids <==> Below(root.entries, lim.cid, ino))
      && (Weight(root.entries) < lim.maxDirs ==> reason == if ids == {} then Missing else Complete)
  {
    var w, total, owned := Start(root), Weight(root.entries), Owned(root.entries, false, lim.cid);
    WalkedOnTrack(w, lim, total, owned);
    WalkedStops(w, lim);
    var r := Walked(w, lim);
    NothingLeft(r.queue, lim.cid);
    forall ino
      ensures ino in owned <==> Below(root.entries, lim.cid, ino)
    {
      OwnedIsBelow(root.entries, lim.cid, ino);
    }
  }

  /** The layout systemd gives a container: its one scope is found by the id inside its name. */
  lemma ScopeIsFound(cid: string, ino: nat, lim: Limits)
    requires lim.cid == cid && lim.maxDirs >= 2 && lim.maxDepth >= 1
    ensures
      var scope := Dir("docker-" + cid + ".scope", ino, true, true, []);
      Answer(Walked(Start(Dir("", 0, true, true, [scope])), lim)) == ({ino}, Complete)
  {
    var name := "docker-" + cid + ".scope";
    var scope := Dir(name, ino, true, true, []);
    var root := Dir("", 0, true, true, [scope]);
    assert StandsAt(name, |"docker-"|, cid);
    HoldsIsContains(name, cid);
    assert Weight([]) == 0 && Height([]) == 0 && Owned([], true, cid) == {} && Owned([], false, cid) == {};
    assert root.entries[1..] == [] && AllReadable([]);
    ExactWithinLimits(root, lim);
  }

  lemma {:induction false} WalkedStops(w: Walk, lim: Limits)
    ensures var r := Walked(w, lim); r.queue == [] || r.seen >= lim.maxDirs
    decreases QueueSize(w.queue)
  {
    if w.queue != [] && w.seen < lim.maxDirs {
      WalkedStops(Turn(w, lim), lim);
    }
  }
}
