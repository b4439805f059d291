/** How one round groups the running earners by network namespace, samples each group once
    and fits the window to its row budget (internal/activity/activity.go Plan,
    round.go Round, payload.go Fit). */
module Grouping {
  import opened Common

  /** `probe`: the container carries the probe label. */
  datatype Container = Container(id: string, name: string, probe: bool, mode: string, runtime: string)

  datatype Kind = Netns | Cgroup

  datatype Group = Group(owner: Container, members: seq<string>, mode: string, kind: Kind, ownerEarner: bool)

  /** Why an earner gets a sample of its own. */
  datatype Status = NoNetwork | Sandboxed | OwnerMissing

  datatype Fixed = Fixed(name: string, mode: string, status: Status)

  /** The containers Docker can look up by id or name. */
  type Lookup = map<string, Container>

  const JOINED := "container:"
  const MAX_HOPS := 8

  predicate Joins(mode: string): (joins: bool)
    ensures joins <==> |mode| >= 10 && mode[..10] == "container:"
  {
    JOINED <= mode
  }

  function Target(mode: string): string
    requires Joins(mode)
  {
    mode[|JOINED|..]
  }

  /** Docker's names for the default network all mean the bridge; every other mode stands. */
  function Mode(c: Container): (mode: string)
    ensures mode !in ["", "default"] && (mode != c.mode ==> mode == "bridge" && c.mode in ["", "default"])
  {
    if c.mode == "" || c.mode == "default" then "bridge" else c.mode
  }

  // ---------------------------------------------------------------------
  // Following a chain of containers to the one that owns the namespace.
  // ---------------------------------------------------------------------

  /** The container `n` further hops along the chain from `name`, if every hop resolves. */
  function Hop(lookup: Lookup, name: string, n: nat): Option<Container> {
    if n == 0 then (if name in lookup then Some(lookup[name]) else None)
    else
      match Hop(lookup, name, n - 1)
      case Some(c) => if Joins(c.mode) && Target(c.mode) in lookup then Some(lookup[Target(c.mode)]) else None
      case None => None
  }

  /** The chain ends at hop `n`: there the container has a namespace of its own. */
  predicate EndsAt(lookup: Lookup, name: string, n: nat) {
    Hop(lookup, name, n).Some? && !Joins(Hop(lookup, name, n).value.mode)
  }

  lemma {:induction false} EndsOnce(lookup: Lookup, name: string, m: nat, n: nat)
    requires EndsAt(lookup, name, m) && m < n
    ensures Hop(lookup, name, n).None?
    decreases n
  {
    if m < n - 1 {
      EndsOnce(lookup, name, m, n - 1);
    }
  }

  /** The owner at the end of the chain, when it ends within MAX_HOPS. */
  function Resolved(lookup: Lookup, name: string, n: nat): Option<Container>
    requires n <= MAX_HOPS + 1
  {
    if n == 0 then None
    else if Resolved(lookup, name, n - 1).Some? then Resolved(lookup, name, n - 1)
    else if EndsAt(lookup, name, n - 1) then Hop(lookup, name, n - 1)
    else None
  }

  function Owner(lookup: Lookup, name: string): Option<Container> {
    Resolved(lookup, name, MAX_HOPS + 1)
  }

  lemma {:induction false} ResolvedEnds(lookup: Lookup, name: string, n: nat)
    requires n <= MAX_HOPS + 1
    ensures Resolved(lookup, name, n).Some? <==> exists k :: 0 <= k < n && EndsAt(lookup, name, k)
    ensures forall k :: 0 <= k < n && EndsAt(lookup, name, k) ==> Resolved(lookup, name, n) == Hop(lookup, name, k)
    ensures Resolved(lookup, name, n).Some? ==> !Joins(Resolved(lookup, name, n).value.mode)
  {
    if n > 0 {
      ResolvedEnds(lookup, name, n - 1);
      if k :| 0 <= k < n - 1 && EndsAt(lookup, name, k) {
        EndsOnce(lookup, name, k, n - 1);
      }
    }
  }

  /** The source's loop. A chain resolves exactly when it ends within eight hops, and no
      chain, however long or circular, costs more than nine lookups. */
  method Follow(lookup: Lookup, name: string) returns (owner: Option<Container>, lookups: nat)
    ensures owner.Some? <==> exists k :: 0 <= k <= 8 && EndsAt(lookup, name, k)
    ensures forall k :: 0 <= k <= 8 && EndsAt(lookup, name, k) ==> owner == Hop(lookup, name, k)
    ensures owner == Owner(lookup, name)
    ensures 1 <= lookups <= 9
  {
    ResolvedEnds(lookup, name, MAX_HOPS + 1);
    owner := if name in lookup then Some(lookup[name]) else None;
    lookups := 1;
    var i := 0;
    while owner.Some? && Joins(owner.value.mode)
      invariant 0 <= i <= MAX_HOPS && lookups == i + 1
      invariant owner == Hop(lookup, name, i)
      invariant forall k :: 0 <= k < i ==> !EndsAt(lookup, name, k)
      decreases MAX_HOPS - i
    {
      if i >= MAX_HOPS {
        return None, lookups;
      }
      var target := Target(owner.value.mode);
      owner := if target in lookup then Some(lookup[target]) else None;
      lookups := lookups + 1;
      i := i + 1;
    }
    if owner.Some? {
      assert EndsAt(lookup, name, i);
    } else {
      NoneStays(lookup, name, i);
    }
  }

  lemma NoneStays(lookup: Lookup, name: string, i: nat)
    requires Hop(lookup, name, i).None?
    ensures forall k :: k >= i ==> !EndsAt(lookup, name, k)
  {
    forall k | k >= i
      ensures Hop(lookup, name, k).None?
    {
      HopNone(lookup, name, i, k);
    }
  }

  lemma {:induction false} HopNone(lookup: Lookup, name: string, i: nat, k: nat)
    requires Hop(lookup, name, i).None? && i <= k
    ensures Hop(lookup, name, k).None?
    decreases k
  {
    if i < k {
      HopNone(lookup, name, i, k - 1);
    }
  }

  // ---------------------------------------------------------------------
  // Where one earner goes.
  // ---------------------------------------------------------------------

  /** Everything a round sees of the machine. `joinable`: the runtimes a probe can join. */
  datatype Machine = Machine(earners: seq<Container>, lookup: Lookup, joinable: set<string>)

  /** A sample without a probe, a group of its own told apart by cgroup, or a place in the
      group of the container that owns its namespace. */
  datatype Place = Unsampled | Alone(status: Status) | ByCgroup | Sharing(owner: Container)

  function PlaceOf(m: Machine, c: Container): Place {
    var mode := Mode(c);
    if c.probe then Unsampled
    else if mode == "none" then Alone(NoNetwork)
    else if c.runtime !in m.joinable then Alone(Sandboxed)
    else if mode == "host" then ByCgroup
    else if !Joins(mode) then Sharing(c)
    else PlaceOfMember(m, Owner(m.lookup, Target(mode)))
  }

  function PlaceOfMember(m: Machine, owner: Option<Container>): Place {
    if owner.None? then Alone(OwnerMissing)
    else if owner.value.mode == "host" then ByCgroup
    else if owner.value.runtime !in m.joinable then Alone(Sandboxed)
    else Sharing(owner.value)
  }

  function Key(m: Machine, c: Container): Option<string> {
    match PlaceOf(m, c)
    case ByCgroup => Some(c.id)
    case Sharing(owner) => Some(owner.id)
    case _ => None
  }

  /** `owner` is where the chain from `name` ends, within the hops allowed. */
  ghost predicate ChainEndsAt(lookup: Lookup, name: string, owner: Container) {
    exists k: nat :: k <= 8 && EndsAt(lookup, name, k) && Hop(lookup, name, k) == Some(owner)
  }

  ghost predicate ChainEnds(lookup: Lookup, name: string) {
    exists owner :: ChainEndsAt(lookup, name, owner)
  }

  lemma OwnerEndsTheChain(lookup: Lookup, name: string, owner: Container)
    ensures Owner(lookup, name) == Some(owner) <==> ChainEndsAt(lookup, name, owner)
    ensures Owner(lookup, name).None? <==> !ChainEnds(lookup, name)
  {
    ResolvedEnds(lookup, name, MAX_HOPS + 1);
    if Owner(lookup, name).Some? {
      var k :| 0 <= k < MAX_HOPS + 1 && EndsAt(lookup, name, k);
      assert ChainEndsAt(lookup, name, Hop(lookup, name, k).value);
    }
  }

  /** WHERE AN EARNER GOES, said by where its sockets are: on no network; behind a runtime
      no probe can join, its own or its owner's; on the host network, its own or that of the
      container its chain ends at; in the namespace of that container, or in its own; or
      nowhere, when the chain does not end within eight hops. */
  lemma PlaceMeans(m: Machine, c: Container, owner: Container)
    requires !c.probe
    ensures var name := if Joins(Mode(c)) then Target(Mode(c)) else "";
            var reachable := Mode(c) != "none" && c.runtime in m.joinable;
            && (PlaceOf(m, c) == Alone(NoNetwork) <==> Mode(c) == "none")
            && (PlaceOf(m, c) == Alone(OwnerMissing)
                <==> reachable && Joins(Mode(c)) && !ChainEnds(m.lookup, name))
            && (Joins(Mode(c)) && ChainEndsAt(m.lookup, name, owner) ==>
                  && (PlaceOf(m, c) == ByCgroup <==> reachable && owner.mode == "host")
                  && (PlaceOf(m, c) == Sharing(owner)
                      <==> reachable && owner.mode != "host" && owner.runtime in m.joinable)
                  && (PlaceOf(m, c) == Alone(Sandboxed)
                      <==> c.runtime !in m.joinable || (owner.mode != "host" && owner.runtime !in m.joinable)))
            && (Joins(Mode(c)) && !ChainEnds(m.lookup, name) ==>
                  (PlaceOf(m, c) == Alone(Sandboxed) <==> c.runtime !in m.joinable))
            && (!Joins(Mode(c)) ==>
                  && (PlaceOf(m, c) == Alone(Sandboxed) <==> Mode(c) != "none" && c.runtime !in m.joinable)
                  && (PlaceOf(m, c) == ByCgroup <==> reachable && Mode(c) == "host")
                  && (PlaceOf(m, c) == Sharing(c) <==> reachable && Mode(c) != "host"))
  {
    if Joins(Mode(c)) {
      OwnerEndsTheChain(m.lookup, Target(Mode(c)), owner);
    }
  }

  predicate DistinctIds(earners: seq<Container>) {
    forall i, j :: 0 <= i < j < |earners| ==> earners[i].id != earners[j].id
  }

  /** Docker reports one network mode per container id. */
  predicate Consistent(m: Machine) {
    && DistinctIds(m.earners)
    && forall x, i :: x in m.lookup && 0 <= i < |m.earners| && m.lookup[x].id == m.earners[i].id
                      ==> m.lookup[x].mode == m.earners[i].mode
  }

  lemma {:induction false} ResolvedIsListed(lookup: Lookup, name: string, n: nat)
    requires n <= MAX_HOPS + 1 && Resolved(lookup, name, n).Some?
    ensures exists x :: x in lookup && lookup[x] == Resolved(lookup, name, n).value
  {
    if Resolved(lookup, name, n - 1).Some? {
      ResolvedIsListed(lookup, name, n - 1);
    } else if n - 1 == 0 {
      assert name in lookup;
    } else {
      assert Hop(lookup, name, n - 2).Some?;
    }
  }

  /** What makes an owner a namespace owner: it joins nobody and is not on the host network;
      and under a consistent lookup an earner that is such an owner is in its own group. */
  lemma SharersOwner(m: Machine, c: Container, i: nat)
    requires Consistent(m) && i < |m.earners| && PlaceOf(m, c).Sharing?
    requires PlaceOf(m, c).owner.id == m.earners[i].id
    requires c in m.earners
    ensures !Joins(m.earners[i].mode) && m.earners[i].mode != "host"
  {
    var owner := PlaceOf(m, c).owner;
    if Joins(Mode(c)) {
      var target := Target(Mode(c));
      ResolvedEnds(m.lookup, target, MAX_HOPS + 1);
      ResolvedIsListed(m.lookup, target, MAX_HOPS + 1);
      assert owner.mode == m.earners[i].mode;
    }
  }

  /** No other earner ever lands on the key of a cgroup group, so none is overwritten. */
  lemma CgroupKeysAreTaken(m: Machine, i: nat, j: nat)
    requires Consistent(m) && i < |m.earners| && j < |m.earners|
    requires PlaceOf(m, m.earners[i]).ByCgroup? && Key(m, m.earners[j]) == Some(m.earners[i].id)
    ensures i == j
  {
    if PlaceOf(m, m.earners[j]).Sharing? {
      SharersOwner(m, m.earners[j], i);
    }
  }

  // ---------------------------------------------------------------------
  // The plan: fixed samples and groups.
  // ---------------------------------------------------------------------

  function FixedUpTo(m: Machine, n: nat): seq<Fixed>
    requires n <= |m.earners|
  {
    if n == 0 then []
    else
      var c := m.earners[n - 1];
      match PlaceOf(m, c)
      case Alone(status) => FixedUpTo(m, n - 1) + [Fixed(c.name, Mode(c), status)]
      case _ => FixedUpTo(m, n - 1)
  }

  /** The group under `key` once earner `c` is placed there. */
  function Extended(m: Machine, group: Option<Group>, c: Container): Option<Group> {
    match PlaceOf(m, c)
    case ByCgroup => Some(Group(c, [c.name], Mode(c), Cgroup, true))
    case Sharing(owner) =>
      var g := if group.Some? then group.value
               else Group(owner, [], Mode(c), Netns, exists e :: e in m.earners && e.name == owner.name);
      Some(g.(members := g.members + [c.name], mode := if owner.id == c.id then Mode(c) else g.mode))
    case _ => group
  }

  function GroupUpTo(m: Machine, key: string, n: nat): Option<Group>
    requires n <= |m.earners|
  {
    if n == 0 then None
    else if Key(m, m.earners[n - 1]) == Some(key) then Extended(m, GroupUpTo(m, key, n - 1), m.earners[n - 1])
    else GroupUpTo(m, key, n - 1)
  }

  function At(groups: map<string, Group>, key: string): Option<Group> {
    if key in groups then Some(groups[key]) else None
  }

  /** The source's loop over the earners, assigning and appending through one map. */
  method Plan(m: Machine) returns (groups: map<string, Group>, fixed: seq<Fixed>)
    ensures fixed == FixedUpTo(m, |m.earners|)
    ensures forall key :: At(groups, key) == GroupUpTo(m, key, |m.earners|)
  {
    groups, fixed := map[], [];
    var names := set c | c in m.earners :: c.name;
    for i := 0 to |m.earners|
      invariant fixed == FixedUpTo(m, i)
      invariant forall key :: At(groups, key) == GroupUpTo(m, key, i)
    {
      groups, fixed := PlanOne(m, i, names, groups, fixed);
    }
  }

  method PlanOne(m: Machine, i: nat, names: set<string>, groups: map<string, Group>, fixed: seq<Fixed>)
    returns (groups': map<string, Group>, fixed': seq<Fixed>)
    requires i < |m.earners|
    requires names == set c | c in m.earners :: c.name
    requires fixed == FixedUpTo(m, i)
    requires forall key :: At(groups, key) == GroupUpTo(m, key, i)
    ensures fixed' == FixedUpTo(m, i + 1)
    ensures forall key :: At(groups', key) == GroupUpTo(m, key, i + 1)
  {
    groups', fixed' := groups, fixed;
    var c := m.earners[i];
    if c.probe {
      return;
    }
    var mode := Mode(c);
    if mode == "none" {
      fixed' := fixed + [Fixed(c.name, mode, NoNetwork)];
      return;
    }
    if c.runtime !in m.joinable {
      fixed' := fixed + [Fixed(c.name, mode, Sandboxed)];
      return;
    }
    if mode == "host" {
      groups' := groups[c.id := Group(c, [c.name], mode, Cgroup, true)];
      return;
    }
    var owner := c;
    if Joins(mode) {
      var found, _ := Follow(m.lookup, Target(mode));
      if found.None? {
        fixed' := fixed + [Fixed(c.name, mode, OwnerMissing)];
        return;
      }
      owner := found.value;
      if owner.mode == "host" {
        groups' := groups[c.id := Group(c, [c.name], mode, Cgroup, true)];
        return;
      }
      if owner.runtime !in m.joinable {
        fixed' := fixed + [Fixed(c.name, mode, Sandboxed)];
        return;
      }
    }
    assert PlaceOf(m, c) == Sharing(owner);
    groups' := Share(m, groups, c, owner, mode, owner.name in names);
  }

  /** Appending through the map's group, which is created on first use. */
  method Share(m: Machine, groups: map<string, Group>, c: Container, owner: Container, mode: string, known: bool)
    returns (groups': map<string, Group>)
    requires PlaceOf(m, c) == Sharing(owner) && mode == Mode(c)
    requires known == exists e :: e in m.earners && e.name == owner.name
    ensures groups'.Keys == groups.Keys + {owner.id}
    ensures forall key :: key != owner.id ==> At(groups', key) == At(groups, key)
    ensures At(groups', owner.id) == Extended(m, At(groups, owner.id), c)
  {
    var g := if owner.id in groups then groups[owner.id] else Group(owner, [], mode, Netns, known);
    g := g.(members := g.members + [c.name]);
    if owner.id == c.id {
      g := g.(mode := mode);
    }
    groups' := groups[owner.id := g];
  }

  // ---------------------------------------------------------------------
  // Nobody is lost and nobody is counted twice.
  // ---------------------------------------------------------------------

  /** The earners whose sockets are found under `key`, in the order Docker listed them. */
  function MembersUpTo(m: Machine, key: string, n: nat): seq<string>
    requires n <= |m.earners|
  {
    if n == 0 then []
    else if Key(m, m.earners[n - 1]) == Some(key) then MembersUpTo(m, key, n - 1) + [m.earners[n - 1].name]
    else MembersUpTo(m, key, n - 1)
  }

  /** A group holds exactly the earners that belong under its key, in order: none is
      overwritten, and a cgroup group holds its one owner. */
  ghost predicate GroupIsWhole(m: Machine, key: string, n: nat)
    requires n <= |m.earners|
  {
    var group, members := GroupUpTo(m, key, n), MembersUpTo(m, key, n);
    && (group.Some? <==> members != [])
    && (group.Some? ==>
          && group.value.members == members
          && group.value.owner.id == key
          && (group.value.kind == Cgroup ==> members == [group.value.owner.name] && group.value.owner in m.earners)
          && (group.value.kind == Netns ==> !Joins(group.value.owner.mode) && group.value.owner.mode != "host"))
  }

  lemma {:induction false} GroupsAreWhole(m: Machine, key: string, n: nat)
    requires Consistent(m) && n <= |m.earners|
    ensures GroupIsWhole(m, key, n)
    decreases n
  {
    if n > 0 {
      GroupsAreWhole(m, key, n - 1);
      KeyIsFree(m, key, n);
      OneMoreIsWhole(m, key, n);
    }
  }

  /** The `n`-th earner, if it belongs under the key, finds nobody there when it is told apart
      by cgroup, and else no group made by cgroup. */
  ghost predicate Free(m: Machine, key: string, n: nat)
    requires 0 < n <= |m.earners|
  {
    var c, group := m.earners[n - 1], GroupUpTo(m, key, n - 1);
    Key(m, c) == Some(key) ==>
      if PlaceOf(m, c).ByCgroup? then MembersUpTo(m, key, n - 1) == []
      else group.Some? ==> group.value.kind == Netns
  }

  lemma KeyIsFree(m: Machine, key: string, n: nat)
    requires Consistent(m) && 0 < n <= |m.earners|
    ensures Free(m, key, n)
  {
    var c := m.earners[n - 1];
    if Key(m, c) == Some(key) {
      if PlaceOf(m, c).ByCgroup? {
        AloneUnderItsKey(m, n - 1, n - 1);
      } else {
        NotUnderCgroup(m, key, n - 1, n - 1);
      }
    }
  }

  /** An earner told apart by cgroup begins a group; one in a shared namespace extends a
      whole group, or begins one. */
  lemma OneMoreIsWhole(m: Machine, key: string, n: nat)
    requires 0 < n <= |m.earners| && Free(m, key, n)
    ensures GroupIsWhole(m, key, n - 1) ==> GroupIsWhole(m, key, n)
  {
    var c := m.earners[n - 1];
    if Key(m, c) == Some(key) && Joins(Mode(c)) {
      ResolvedEnds(m.lookup, Target(Mode(c)), MAX_HOPS + 1);
    }
  }

  /** Who founded a group: the first earner under its key. On the host network it is the owner
      itself; else the owner is the container its chain ends at. */
  ghost predicate FoundedBy(m: Machine, key: string, group: Group, i: nat, n: nat) {
    && i < n <= |m.earners| && Key(m, m.earners[i]) == Some(key)
    && (forall j :: 0 <= j < i ==> Key(m, m.earners[j]) != Some(key))
    && PlaceOf(m, m.earners[i]) == (if group.kind == Cgroup then ByCgroup else Sharing(group.owner))
    && (group.kind == Cgroup ==> group.owner == m.earners[i])
    && (group.ownerEarner <==> group.kind == Cgroup || exists e :: e in m.earners && e.name == group.owner.name)
    && ((forall j :: 0 <= j < n ==> m.earners[j].id != key) ==> group.mode == Mode(m.earners[i]))
  }

  lemma {:induction false} GroupIsFounded(m: Machine, key: string, n: nat) returns (i: nat)
    requires Consistent(m) && n <= |m.earners| && GroupUpTo(m, key, n).Some?
    ensures FoundedBy(m, key, GroupUpTo(m, key, n).value, i, n)
    decreases n
  {
    if GroupUpTo(m, key, n - 1).Some? {
      i := GroupIsFounded(m, key, n - 1);
      OnlySharersJoin(m, key, n);
      StaysFounded(m, key, i, n);
    } else {
      i := n - 1;
      BeginsFounded(m, key, n);
    }
  }

  lemma BeginsFounded(m: Machine, key: string, n: nat)
    requires 0 < n <= |m.earners| && GroupUpTo(m, key, n - 1).None? && GroupUpTo(m, key, n).Some?
    ensures FoundedBy(m, key, GroupUpTo(m, key, n).value, n - 1, n)
  {
    forall j | 0 <= j < n - 1
      ensures Key(m, m.earners[j]) != Some(key)
    {
      NoGroupNobody(m, key, j, n - 1);
    }
  }

  lemma StaysFounded(m: Machine, key: string, i: nat, n: nat)
    requires 0 < n <= |m.earners| && GroupUpTo(m, key, n - 1).Some? && GroupUpTo(m, key, n).Some?
    requires OnlySharerJoins(m, key, n)
    ensures FoundedBy(m, key, GroupUpTo(m, key, n - 1).value, i, n - 1) ==> FoundedBy(m, key, GroupUpTo(m, key, n).value, i, n)
  {
  }

  /** Only an earner in a shared namespace is put where a group stands already. */
  ghost predicate OnlySharerJoins(m: Machine, key: string, n: nat)
    requires 0 < n <= |m.earners|
  {
    var c, group := m.earners[n - 1], GroupUpTo(m, key, n - 1);
    Key(m, c) == Some(key) && group.Some? ==> PlaceOf(m, c).Sharing? && group.value.kind == Netns
  }

  lemma OnlySharersJoin(m: Machine, key: string, n: nat)
    requires Consistent(m) && 0 < n <= |m.earners|
    ensures OnlySharerJoins(m, key, n)
  {
    KeyIsFree(m, key, n);
    GroupsAreWhole(m, key, n - 1);
  }

  lemma {:induction false} NoGroupNobody(m: Machine, key: string, j: nat, n: nat)
    requires j < n <= |m.earners| && GroupUpTo(m, key, n).None?
    ensures Key(m, m.earners[j]) != Some(key)
    decreases n
  {
    if j < n - 1 {
      NoGroupNobody(m, key, j, n - 1);
    }
  }

  /** The earners without a probe: exactly those that stand alone, each with its own mode
      and the reason. */
  lemma {:induction false} FixedAre(m: Machine, n: nat, f: Fixed)
    requires n <= |m.earners|
    ensures f in FixedUpTo(m, n)
       <==> exists i :: 0 <= i < n && PlaceOf(m, m.earners[i]) == Alone(f.status)
                        && f.name == m.earners[i].name && f.mode == Mode(m.earners[i])
  {
    if n > 0 {
      FixedAre(m, n - 1, f);
    }
  }

  /** A group whose owner is one of its members has that earner's own network mode, wherever
      it stands in the list. */
  lemma {:induction false} OwnersModeStands(m: Machine, i: nat, n: nat)
    requires Consistent(m) && i < n <= |m.earners| && Key(m, m.earners[i]) == Some(m.earners[i].id)
    ensures GroupUpTo(m, m.earners[i].id, n).Some?
    ensures GroupUpTo(m, m.earners[i].id, n).value.mode == Mode(m.earners[i])
    decreases n
  {
    var key := m.earners[i].id;
    if i == n - 1 {
      assert GroupUpTo(m, key, n) == Extended(m, GroupUpTo(m, key, n - 1), m.earners[i]);
    } else {
      OwnersModeStands(m, i, n - 1);
      var c := m.earners[n - 1];
      assert c.id != key && (Key(m, c) == Some(key) ==> PlaceOf(m, c).Sharing?);
    }
  }

  /** Before an earner told apart by cgroup is placed, nobody is under its key. */
  lemma {:induction false} AloneUnderItsKey(m: Machine, i: nat, n: nat)
    requires Consistent(m) && n <= i < |m.earners| && PlaceOf(m, m.earners[i]).ByCgroup?
    ensures MembersUpTo(m, m.earners[i].id, n) == []
  {
    if n > 0 {
      AloneUnderItsKey(m, i, n - 1);
      if Key(m, m.earners[n - 1]) == Some(m.earners[i].id) {
        CgroupKeysAreTaken(m, i, n - 1);
      }
    }
  }

  /** A group that takes a sharer was not made by cgroup. */
  lemma {:induction false} NotUnderCgroup(m: Machine, key: string, j: nat, n: nat)
    requires Consistent(m) && n <= j < |m.earners|
    requires Key(m, m.earners[j]) == Some(key) && PlaceOf(m, m.earners[j]).Sharing?
    ensures GroupUpTo(m, key, n).Some? ==> GroupUpTo(m, key, n).value.kind == Netns
  {
    if n > 0 {
      NotUnderCgroup(m, key, j, n - 1);
      if Key(m, m.earners[n - 1]) == Some(key) && PlaceOf(m, m.earners[n - 1]).ByCgroup? {
        CgroupKeysAreTaken(m, n - 1, j);
      }
    }
  }

  function Once(counted: bool): nat {
    if counted then 1 else 0
  }

  /** How many of the first `n` earners bear the name, probes left out. */
  function EarnersNamed(m: Machine, name: string, n: nat): nat
    requires n <= |m.earners|
  {
    if n == 0 then 0
    else EarnersNamed(m, name, n - 1) + Once(!m.earners[n - 1].probe && m.earners[n - 1].name == name)
  }

  function FixedNamed(fixed: seq<Fixed>, name: string, n: nat): nat
    requires n <= |fixed|
  {
    if n == 0 then 0 else FixedNamed(fixed, name, n - 1) + Once(fixed[n - 1].name == name)
  }

  /** How often the name is a member under the first `j` keys. */
  function KeyedNamed(m: Machine, keys: seq<string>, name: string, j: nat, n: nat): nat
    requires j <= |keys| && n <= |m.earners|
  {
    if j == 0 then 0 else KeyedNamed(m, keys, name, j - 1, n) + multiset(MembersUpTo(m, keys[j - 1], n))[name]
  }

  ghost predicate Distinct(keys: seq<string>) {
    forall i, j :: 0 <= i < j < |keys| ==> keys[i] != keys[j]
  }

  lemma OneMoreMember(m: Machine, key: string, name: string, n: nat)
    requires n < |m.earners|
    ensures multiset(MembersUpTo(m, key, n + 1))[name]
            == multiset(MembersUpTo(m, key, n))[name]
               + Once(m.earners[n].name == name && Key(m, m.earners[n]) == Some(key))
  {
  }

  ghost predicate IsKey(key: Option<string>, keys: seq<string>, n: nat)
    requires n <= |keys|
  {
    exists i :: 0 <= i < n && key == Some(keys[i])
  }

  lemma OneMoreKey(key: Option<string>, keys: seq<string>, n: nat)
    requires n < |keys| && Distinct(keys)
    ensures Once(IsKey(key, keys, n + 1)) == Once(IsKey(key, keys, n)) + Once(key == Some(keys[n]))
  {
  }

  /** One more earner adds its name once, under the one key that is its own. */
  lemma {:induction false} OneMoreKeyed(m: Machine, keys: seq<string>, name: string, j: nat, n: nat)
    requires j <= |keys| && n < |m.earners| && Distinct(keys)
    ensures KeyedNamed(m, keys, name, j, n + 1)
            == KeyedNamed(m, keys, name, j, n)
               + Once(m.earners[n].name == name && IsKey(Key(m, m.earners[n]), keys, j))
  {
    if j > 0 {
      OneMoreKeyed(m, keys, name, j - 1, n);
      OneMoreMember(m, keys[j - 1], name, n);
      OneMoreKey(Key(m, m.earners[n]), keys, j - 1);
    }
  }

  lemma {:induction false} KeysEmptyAtFirst(m: Machine, keys: seq<string>, name: string, j: nat)
    requires j <= |keys|
    ensures KeyedNamed(m, keys, name, j, 0) == 0
  {
    if j > 0 {
      KeysEmptyAtFirst(m, keys, name, j - 1);
    }
  }

  lemma {:induction false} FixedNamedAppend(fixed: seq<Fixed>, one: Fixed, name: string, n: nat)
    requires n <= |fixed|
    ensures FixedNamed(fixed + [one], name, n) == FixedNamed(fixed, name, n)
  {
    if n > 0 {
      FixedNamedAppend(fixed, one, name, n - 1);
    }
  }

  lemma OneMoreFixed(m: Machine, name: string, n: nat)
    requires n < |m.earners|
    ensures FixedNamed(FixedUpTo(m, n + 1), name, |FixedUpTo(m, n + 1)|)
            == FixedNamed(FixedUpTo(m, n), name, |FixedUpTo(m, n)|)
               + Once(m.earners[n].name == name && PlaceOf(m, m.earners[n]).Alone?)
  {
    var c, before := m.earners[n], FixedUpTo(m, n);
    var place := PlaceOf(m, c);
    if place.Alone? {
      var one := Fixed(c.name, Mode(c), place.status);
      FixedNamedAppend(before, one, name, |before|);
      assert FixedUpTo(m, n + 1) == before + [one];
    }
  }

  ghost predicate KeyListed(m: Machine, keys: seq<string>, i: nat)
    requires i < |m.earners|
  {
    Key(m, m.earners[i]).Some? ==> IsKey(Key(m, m.earners[i]), keys, |keys|)
  }

  ghost predicate KeysListed(m: Machine, keys: seq<string>, n: nat)
    requires n <= |m.earners|
  {
    n == 0 || (KeysListed(m, keys, n - 1) && KeyListed(m, keys, n - 1))
  }

  lemma OneMorePlaced(m: Machine, keys: seq<string>, name: string, n: nat)
    requires n < |m.earners| && Distinct(keys) && KeyListed(m, keys, n)
    ensures KeyedNamed(m, keys, name, |keys|, n + 1)
            == KeyedNamed(m, keys, name, |keys|, n) + Once(m.earners[n].name == name && Key(m, m.earners[n]).Some?)
  {
    OneMoreKeyed(m, keys, name, |keys|, n);
  }

  /** Every earner but the probes is either fixed or under exactly one key. */
  lemma {:induction false} EveryoneIsPlaced(m: Machine, keys: seq<string>, name: string, n: nat)
    requires n <= |m.earners| && Distinct(keys)
    requires KeysListed(m, keys, n)
    ensures FixedNamed(FixedUpTo(m, n), name, |FixedUpTo(m, n)|) + KeyedNamed(m, keys, name, |keys|, n)
            == EarnersNamed(m, name, n)
  {
    if n == 0 {
      KeysEmptyAtFirst(m, keys, name, |keys|);
    } else {
      EveryoneIsPlaced(m, keys, name, n - 1);
      OneMorePlaced(m, keys, name, n - 1);
      OneMoreFixed(m, name, n - 1);
    }
  }

  // ---------------------------------------------------------------------
  // One round: a sample per group, filled in by index as the probes come back.
  // ---------------------------------------------------------------------

  /** One destination row; what it holds does not matter here. */
  datatype Row = Row(text: string)

  datatype Sample = Sample(container: string, members: multiset<string>, mode: string,
                           outbound: seq<Row>, inbound: seq<Row>, truncated: bool)

  /** What the probe of one group brings back. `byCgroup`: it could tell the earner's
      sockets from the host's. */
  datatype Reading = Failed | Seen(byCgroup: bool, outbound: seq<Row>, inbound: seq<Row>, truncated: bool)

  function FixedSample(f: Fixed): Sample {
    Sample(f.name, multiset{f.name}, f.mode, [], [], false)
  }

  function SampleName(key: string, g: Group): string {
    if g.owner.name == "" then key[..if |key| < 12 then |key| else 12] else g.owner.name
  }

  /** Whether the probe saw the group's own sockets. */
  predicate Told(g: Group, reading: Reading) {
    reading.Seen? && (g.kind == Cgroup ==> reading.byCgroup)
  }

  /** What a group's sample is to show: its owner and members, and the rows the probe saw,
      those only when they are an earner's own. */
  ghost predicate Shows(s: Sample, key: string, g: Group, reading: Reading) {
    && s.container == (if g.owner.name != "" then g.owner.name else if |key| <= 12 then key else key[..12])
    && s.members == multiset(g.members) && s.mode == g.mode
    && (Told(g, reading) && g.ownerEarner ==> s.outbound == reading.outbound && s.inbound == reading.inbound)
    && (Told(g, reading) && !g.ownerEarner ==> s.outbound == [] && s.inbound == [])
    && (Told(g, reading) ==> s.truncated == reading.truncated)
    && (!Told(g, reading) ==> s.outbound == [] && s.inbound == [] && !s.truncated)
  }

  function SampleOf(key: string, g: Group, reading: Reading): (s: Sample)
    ensures Shows(s, key, g, reading)
  {
    var empty := Sample(SampleName(key, g), multiset(g.members), g.mode, [], [], false);
    match reading
    case Failed => empty
    case Seen(byCgroup, outbound, inbound, truncated) =>
      if g.kind == Cgroup && !byCgroup then empty
      else if !g.ownerEarner then empty.(truncated := truncated)
      else empty.(outbound := outbound, inbound := inbound, truncated := truncated)
  }

  /** How often the first `n` samples count the name as a member. */
  function CountedIn(samples: seq<Sample>, name: string, n: nat): nat
    requires n <= |samples|
  {
    if n == 0 then 0 else CountedIn(samples, name, n - 1) + samples[n - 1].members[name]
  }

  /** The probes finish in any order; each writes its own slot. */
  method Collect(groups: map<string, Group>, keys: seq<string>, readings: map<string, Reading>, order: seq<nat>)
    returns (samples: seq<Sample>)
    requires forall i :: 0 <= i < |keys| ==> keys[i] in groups && keys[i] in readings && i in order
    requires forall k :: 0 <= k < |order| ==> order[k] < |keys|
    ensures |samples| == |keys|
    ensures forall i :: 0 <= i < |keys| ==> SlotIs(samples, i, keys[i], groups, readings)
  {
    var results := new Sample[|keys|];
    for k := 0 to |order|
      invariant forall t :: 0 <= t < k ==>
        results[order[t]] == SampleOf(keys[order[t]], groups[keys[order[t]]], readings[keys[order[t]]])
    {
      var i := order[k];
      results[i] := SampleOf(keys[i], groups[keys[i]], readings[keys[i]]);
    }
    samples := results[..];
    forall i | 0 <= i < |keys|
      ensures SlotIs(samples, i, keys[i], groups, readings)
    {
      assert keys[i] in groups && i in order;
      var t :| 0 <= t < |order| && order[t] == i;
      assert results[order[t]] == SampleOf(keys[i], groups[keys[i]], readings[keys[i]]);
    }
  }

  method FixedSamples(fixed: seq<Fixed>) returns (samples: seq<Sample>)
    ensures |samples| == |fixed|
    ensures forall i :: 0 <= i < |fixed| ==> samples[i] == FixedSample(fixed[i])
  {
    samples := [];
    for i := 0 to |fixed|
      invariant |samples| == i
      invariant forall k :: 0 <= k < i ==> samples[k] == FixedSample(fixed[k])
    {
      samples := samples + [FixedSample(fixed[i])];
    }
  }

  lemma {:induction false} CountedAsFixed(samples: seq<Sample>, fixed: seq<Fixed>, name: string, n: nat)
    requires n <= |fixed| <= |samples|
    requires forall i :: 0 <= i < |fixed| ==> samples[i] == FixedSample(fixed[i])
    ensures CountedIn(samples, name, n) == FixedNamed(fixed, name, n)
  {
    if n > 0 {
      CountedAsFixed(samples, fixed, name, n - 1);
    }
  }

  lemma KeysHaveGroups(m: Machine, groups: map<string, Group>, keys: seq<string>, i: nat)
    requires Consistent(m) && i < |m.earners| && (forall key :: key in groups <==> key in keys)
    requires forall key :: At(groups, key) == GroupUpTo(m, key, |m.earners|)
    ensures KeyListed(m, keys, i)
  {
    if Key(m, m.earners[i]).Some? {
      var key := Key(m, m.earners[i]).value;
      GroupsAreWhole(m, key, |m.earners|);
      MemberStays(m, key, i, |m.earners|);
      assert At(groups, key).Some?;
    }
  }

  lemma {:induction false} MemberStays(m: Machine, key: string, i: nat, n: nat)
    requires i < n <= |m.earners| && Key(m, m.earners[i]) == Some(key)
    ensures m.earners[i].name in MembersUpTo(m, key, n)
    decreases n
  {
    if i < n - 1 {
      MemberStays(m, key, i, n - 1);
    }
  }

  /** The samples of one round before they are sorted and capped: one for each earner that
      cannot be probed and one for each group, and between them they count every earner that
      is not a probe exactly once. */
  method Round(m: Machine, readings: map<string, Reading>, keys: seq<string>, groups: map<string, Group>,
               fixed: seq<Fixed>, order: seq<nat>)
    returns (samples: seq<Sample>)
    requires Consistent(m)
    requires fixed == FixedUpTo(m, |m.earners|)
    requires forall key :: At(groups, key) == GroupUpTo(m, key, |m.earners|)
    requires Distinct(keys) && (forall key :: key in groups <==> key in keys)
    requires forall key :: key in groups ==> key in readings
    requires forall i :: 0 <= i < |keys| ==> i in order
    requires forall k :: 0 <= k < |order| ==> order[k] < |keys|
    ensures |samples| == |fixed| + |groups| && Slots(m, samples, keys, groups, readings)
    ensures forall name :: CountedIn(samples, name, |samples|) == EarnersNamed(m, name, |m.earners|)
  {
    var first := FixedSamples(fixed);
    assert forall i :: 0 <= i < |keys| ==> keys[i] in groups;
    var results := Collect(groups, keys, readings, order);
    samples := first + results;
    EnumerationSize(groups, keys);
    RoundSlots(m, first, results, keys, groups, readings);
    RoundCounts(m, samples, keys, groups, readings);
  }

  lemma RoundSlots(m: Machine, first: seq<Sample>, results: seq<Sample>, keys: seq<string>, groups: map<string, Group>,
                   readings: map<string, Reading>)
    requires var fixed := FixedUpTo(m, |m.earners|);
             |first| == |fixed| && forall i :: 0 <= i < |fixed| ==> first[i] == FixedSample(fixed[i])
    requires |results| == |keys| && forall i :: 0 <= i < |keys| ==> SlotIs(results, i, keys[i], groups, readings)
    ensures Slots(m, first + results, keys, groups, readings)
  {
    forall i | 0 <= i < |keys|
      ensures SlotIs(first + results, |first| + i, keys[i], groups, readings)
    {
      assert SlotIs(results, i, keys[i], groups, readings) && (first + results)[|first| + i] == results[i];
    }
  }

  lemma RoundCounts(m: Machine, samples: seq<Sample>, keys: seq<string>, groups: map<string, Group>,
                    readings: map<string, Reading>)
    requires Consistent(m)
    requires forall key :: At(groups, key) == GroupUpTo(m, key, |m.earners|)
    requires Distinct(keys) && (forall key :: key in groups <==> key in keys)
    ensures Slots(m, samples, keys, groups, readings) ==>
              forall name :: CountedIn(samples, name, |samples|) == EarnersNamed(m, name, |m.earners|)
  {
    if Slots(m, samples, keys, groups, readings) {
      forall name {
        RoundAddsUp(m, samples, keys, groups, readings, name);
      }
    }
  }

  ghost predicate SlotIs(samples: seq<Sample>, slot: nat, key: string, groups: map<string, Group>,
                   readings: map<string, Reading>)
    requires slot < |samples|
  {
    key in groups && key in readings && Shows(samples[slot], key, groups[key], readings[key])
  }

  /** The slots of the round's samples: the fixed ones, then one per key. */
  ghost predicate Slots(m: Machine, samples: seq<Sample>, keys: seq<string>, groups: map<string, Group>,
                        readings: map<string, Reading>)
  {
    var fixed := FixedUpTo(m, |m.earners|);
    && |samples| == |fixed| + |keys|
    && (forall i :: 0 <= i < |fixed| ==>
          samples[i] == Sample(fixed[i].name, multiset{fixed[i].name}, fixed[i].mode, [], [], false))
    && (forall i :: 0 <= i < |keys| ==> SlotIs(samples, |fixed| + i, keys[i], groups, readings))
  }

  lemma {:induction false} RoundAddsUp(m: Machine, samples: seq<Sample>, keys: seq<string>, groups: map<string, Group>,
                    readings: map<string, Reading>, name: string)
    requires Consistent(m) && Slots(m, samples, keys, groups, readings)
    requires forall key :: At(groups, key) == GroupUpTo(m, key, |m.earners|)
    requires Distinct(keys) && (forall key :: key in groups <==> key in keys)
    ensures CountedIn(samples, name, |samples|) == EarnersNamed(m, name, |m.earners|)
  {
    SlotsAddUp(m, samples, keys, groups, readings, name);
    AllKeysListed(m, groups, keys, |m.earners|);
    EveryoneIsPlaced(m, keys, name, |m.earners|);
  }

  lemma SlotsAddUp(m: Machine, samples: seq<Sample>, keys: seq<string>, groups: map<string, Group>,
                   readings: map<string, Reading>, name: string)
    requires Consistent(m) && Slots(m, samples, keys, groups, readings)
    requires forall key :: At(groups, key) == GroupUpTo(m, key, |m.earners|)
    ensures CountedIn(samples, name, |samples|)
         == FixedNamed(FixedUpTo(m, |m.earners|), name, |FixedUpTo(m, |m.earners|)|)
            + KeyedNamed(m, keys, name, |keys|, |m.earners|)
  {
    var fixed := FixedUpTo(m, |m.earners|);
    CountedAsFixed(samples, fixed, name, |fixed|);
    AllSlotsMatch(m, samples, keys, groups, readings);
    SlotsCount(m, samples, |fixed|, keys, name, |keys|);
  }

  ghost predicate SlotMatches(m: Machine, samples: seq<Sample>, from: nat, keys: seq<string>, j: nat) {
    j < |keys| && from + j < |samples|
    && samples[from + j].members == multiset(MembersUpTo(m, keys[j], |m.earners|))
  }

  lemma {:induction false} SlotsCount(m: Machine, samples: seq<Sample>, from: nat, keys: seq<string>, name: string, j: nat)
    requires j <= |keys| && |samples| == from + |keys|
    requires forall i: nat :: i < |keys| ==> SlotMatches(m, samples, from, keys, i)
    ensures CountedIn(samples, name, from + j)
            == CountedIn(samples, name, from) + KeyedNamed(m, keys, name, j, |m.earners|)
  {
    if j > 0 {
      SlotsCount(m, samples, from, keys, name, j - 1);
      assert SlotMatches(m, samples, from, keys, j - 1);
    }
  }

  lemma SlotCounts(m: Machine, samples: seq<Sample>, keys: seq<string>, groups: map<string, Group>,
                   readings: map<string, Reading>, j: nat)
    requires Consistent(m) && Slots(m, samples, keys, groups, readings) && j < |keys|
    requires forall key :: At(groups, key) == GroupUpTo(m, key, |m.earners|)
    ensures SlotMatches(m, samples, |FixedUpTo(m, |m.earners|)|, keys, j)
  {
    assert SlotIs(samples, |FixedUpTo(m, |m.earners|)| + j, keys[j], groups, readings);
    KeyedSample(m, groups, keys[j], readings[keys[j]]);
  }

  lemma AllSlotsMatch(m: Machine, samples: seq<Sample>, keys: seq<string>, groups: map<string, Group>,
                      readings: map<string, Reading>)
    requires Consistent(m) && Slots(m, samples, keys, groups, readings)
    requires forall key :: At(groups, key) == GroupUpTo(m, key, |m.earners|)
    ensures forall i: nat :: i < |keys| ==> SlotMatches(m, samples, |FixedUpTo(m, |m.earners|)|, keys, i)
  {
    forall i: nat | i < |keys| {
      SlotCounts(m, samples, keys, groups, readings, i);
    }
  }

  lemma {:induction false} AllKeysListed(m: Machine, groups: map<string, Group>, keys: seq<string>, n: nat)
    requires Consistent(m) && n <= |m.earners| && (forall key :: key in groups <==> key in keys)
    requires forall key :: At(groups, key) == GroupUpTo(m, key, |m.earners|)
    ensures KeysListed(m, keys, n)
  {
    if n > 0 {
      AllKeysListed(m, groups, keys, n - 1);
      KeysHaveGroups(m, groups, keys, n - 1);
    }
  }

  lemma KeyedSample(m: Machine, groups: map<string, Group>, key: string, reading: Reading)
    requires Consistent(m) && key in groups
    requires At(groups, key) == GroupUpTo(m, key, |m.earners|)
    ensures SampleOf(key, groups[key], reading).members == multiset(MembersUpTo(m, key, |m.earners|))
  {
    GroupsAreWhole(m, key, |m.earners|);
  }

  lemma EnumerationSize(groups: map<string, Group>, keys: seq<string>)
    requires Distinct(keys) && (forall key :: key in groups <==> key in keys)
    ensures |keys| == |groups|
  {
    PrefixSize(keys, |keys|);
    assert (set i | 0 <= i < |keys| :: keys[i]) == groups.Keys;
  }

  lemma {:induction false} PrefixSize(keys: seq<string>, n: nat)
    requires Distinct(keys) && n <= |keys|
    ensures |set i | 0 <= i < n :: keys[i]| == n
  {
    if n > 0 {
      PrefixSize(keys, n - 1);
      assert (set i | 0 <= i < n :: keys[i]) == (set i | 0 <= i < n - 1 :: keys[i]) + {keys[n - 1]};
    }
  }
}
