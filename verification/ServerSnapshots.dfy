/**
 * Lifetime of server objects behind shared server-list snapshots. Snapshots hold raw
 * server pointers; a removed server is retired with the generation it was removed in
 * and freed only when no surviving snapshot can still name it. Threads load, copy and
 * drop snapshots between any two steps of the writer, which holds the topology lock.
 */
module ServerSnapshots {
  import opened Common

  /** Server objects are numbered by identity, so a number is never used again. */
  datatype Snapshot = Snapshot(generation: nat, servers: set<nat>)

  datatype Retiree = Retiree(srv: nat, generation: nat)

  // ----- the two vectors, as functions of their contents

  /** The snapshots that someone outside the manager still owns, in their order. */
  function KeepBusy(s: seq<Snapshot>, busy: set<nat>): seq<Snapshot> {
    if s == [] then []
    else KeepBusy(s[..|s| - 1], busy) + if s[|s| - 1].generation in busy then [s[|s| - 1]] else []
  }

  /** The oldest generation among `s`, or `none` when there is no snapshot. */
  function Oldest(s: seq<Snapshot>, none: nat): (g: nat)
    ensures forall x :: x in s ==> g <= x.generation
    ensures s == [] ==> g == none
    ensures s != [] ==> exists x :: x in s && x.generation == g
  {
    if s == [] then none
    else if |s| == 1 then s[0].generation
    else
      var g := Oldest(s[..|s| - 1], none);
      if s[|s| - 1].generation < g then s[|s| - 1].generation else g
  }

  /** Servers retired at or after `cut` stay, in their order. */
  function Remaining(r: seq<Retiree>, cut: nat): seq<Retiree> {
    if r == [] then []
    else Remaining(r[..|r| - 1], cut) + if r[|r| - 1].generation < cut then [] else [r[|r| - 1]]
  }

  /** Servers retired before `cut` are handed out for deletion, in their order. */
  function Released(r: seq<Retiree>, cut: nat): seq<nat> {
    if r == [] then []
    else Released(r[..|r| - 1], cut) + if r[|r| - 1].generation < cut then [r[|r| - 1].srv] else []
  }

  function Cutoff(retired: seq<Snapshot>, generation: nat): nat {
    Oldest(retired, generation + 1)
  }

  function Retiring(current: Option<Snapshot>): seq<Snapshot> {
    match current
    case Some(s) => [s]
    case None => []
  }

  lemma {:induction false} KeepBusyMembers(s: seq<Snapshot>, busy: set<nat>, x: Snapshot)
    ensures x in KeepBusy(s, busy) <==> x in s && x.generation in busy
  {
    if s != [] {
      KeepBusyMembers(s[..|s| - 1], busy, x);
      assert s == s[..|s| - 1] + [s[|s| - 1]];
    }
  }

  lemma {:induction false} RemainingMembers(r: seq<Retiree>, cut: nat, x: Retiree)
    ensures x in Remaining(r, cut) <==> x in r && x.generation >= cut
  {
    if r != [] {
      RemainingMembers(r[..|r| - 1], cut, x);
      assert r == r[..|r| - 1] + [r[|r| - 1]];
    }
  }

  lemma {:induction false} ReleasedMembers(r: seq<Retiree>, cut: nat, srv: nat)
    ensures srv in Released(r, cut) <==> exists x :: x in r && x.srv == srv && x.generation < cut
  {
    if r != [] {
      var last := r[|r| - 1];
      ReleasedMembers(r[..|r| - 1], cut, srv);
      assert r == r[..|r| - 1] + [last];
      if srv in Released(r, cut) && srv !in Released(r[..|r| - 1], cut) {
        assert last in r && last.srv == srv && last.generation < cut;
      }
    }
  }

  /** The manager's fields that only change under the topology lock. */
  class SnapshotStore {
    var generation: nat
    var current: Option<Snapshot>
    var retiredSnapshots: seq<Snapshot>
    var retirees: seq<Retiree>

    constructor ()
      ensures generation == 0 && current.None? && retiredSnapshots == [] && retirees == []
    {
      generation, current, retiredSnapshots, retirees := 0, None, [], [];
    }

    /** `polardb_update_server_list_snapshot…`: every server of every hostgroup, then the three stores. */
    method Republish(hostgroups: seq<seq<nat>>, busy: set<nat>)
      modifies this`generation, this`current, this`retiredSnapshots
      ensures generation == old(generation) + 1
      ensures current.Some? && current.value.generation == generation
      ensures forall srv :: srv in current.value.servers <==> exists g :: g in hostgroups && srv in g
      ensures retiredSnapshots == KeepBusy(old(retiredSnapshots) + Retiring(old(current)), busy)
    {
      var servers: set<nat> := {};
      for i := 0 to |hostgroups|
        invariant forall srv :: srv in servers <==> exists g :: g in hostgroups[..i] && srv in g
      {
        var before := servers;
        for j := 0 to |hostgroups[i]|
          invariant forall srv :: srv in servers <==> srv in before || srv in hostgroups[i][..j]
        {
          assert hostgroups[i][..j + 1] == hostgroups[i][..j] + [hostgroups[i][j]];
          servers := servers + {hostgroups[i][j]};
        }
        assert hostgroups[i][..|hostgroups[i]|] == hostgroups[i];
        assert hostgroups[..i + 1] == hostgroups[..i] + [hostgroups[i]];
      }
      assert hostgroups[..|hostgroups|] == hostgroups;
      if current.Some? {
        retiredSnapshots := retiredSnapshots + [current.value];
      }
      assert retiredSnapshots == old(retiredSnapshots) + Retiring(old(current));
      current := Some(Snapshot(generation + 1, servers));
      generation := generation + 1;
      Prune(busy);
    }

    /** `polardb_retire_server_under_fast_topology_lock`. */
    method Retire(srv: nat)
      modifies this`retirees
      ensures retirees == old(retirees) + [Retiree(srv, generation)]
    {
      retirees := retirees + [Retiree(srv, generation)];
    }

    /** `polardb_prune_retired_server_snapshots…`: erases while iterating. */
    method Prune(busy: set<nat>)
      modifies this`retiredSnapshots
      ensures retiredSnapshots == KeepBusy(old(retiredSnapshots), busy)
    {
      var it := 0;
      ghost var done := 0;
      while it < |retiredSnapshots|
        invariant 0 <= it <= |retiredSnapshots| && 0 <= done <= |old(retiredSnapshots)|
        invariant retiredSnapshots[..it] == KeepBusy(old(retiredSnapshots)[..done], busy)
        invariant retiredSnapshots[it..] == old(retiredSnapshots)[done..]
        decreases |retiredSnapshots| - it
      {
        var x := retiredSnapshots[it];
        assert x == old(retiredSnapshots)[done];
        assert old(retiredSnapshots)[..done + 1][..done] == old(retiredSnapshots)[..done];
        if x.generation !in busy {
          retiredSnapshots := retiredSnapshots[..it] + retiredSnapshots[it + 1..];
        } else {
          assert retiredSnapshots[..it + 1] == retiredSnapshots[..it] + [x];
          it := it + 1;
        }
        done := done + 1;
      }
      assert old(retiredSnapshots)[..done] == old(retiredSnapshots);
      assert retiredSnapshots[..it] == retiredSnapshots;
    }

    /** The oldest generation a surviving snapshot still holds, by a running minimum. */
    method OldestActive() returns (cut: nat)
      ensures cut == Cutoff(retiredSnapshots, generation)
    {
      var i := 0;
      cut := generation + 1;
      while i < |retiredSnapshots|
        invariant 0 <= i <= |retiredSnapshots|
        invariant cut == Oldest(retiredSnapshots[..i], generation + 1)
      {
        assert retiredSnapshots[..i + 1][..i] == retiredSnapshots[..i];
        if i == 0 || retiredSnapshots[i].generation < cut {
          cut := retiredSnapshots[i].generation;
        }
        i := i + 1;
      }
      assert retiredSnapshots[..i] == retiredSnapshots;
    }

    /** `polardb_detach_reclaimable_retired_servers…`: prune, then compact in place. */
    method DetachReclaimable(busy: set<nat>) returns (toDelete: seq<nat>)
      modifies this`retiredSnapshots, this`retirees
      ensures retiredSnapshots == KeepBusy(old(retiredSnapshots), busy)
      ensures var cut := Cutoff(KeepBusy(old(retiredSnapshots), busy), generation);
        retirees == Remaining(old(retirees), cut) && toDelete == Released(old(retirees), cut)
    {
      Prune(busy);
      var cut := OldestActive();
      var was := retirees;
      var it, out := 0, 0;
      toDelete := [];
      while it < |retirees|
        invariant 0 <= out <= it <= |retirees| == |was|
        invariant retirees[..out] == Remaining(was[..it], cut) && retirees[it..] == was[it..]
        invariant toDelete == Released(was[..it], cut)
        invariant retiredSnapshots == KeepBusy(old(retiredSnapshots), busy)
      {
        assert was[..it + 1][..it] == was[..it] && retirees[it] == was[it];
        if retirees[it].generation < cut {
          toDelete := toDelete + [retirees[it].srv];
        } else {
          retirees := retirees[out := retirees[it]];
          assert retirees[..out + 1] == retirees[..out] + [was[it]];
          out := out + 1;
        }
        it := it + 1;
      }
      assert was[..it] == was;
      retirees := retirees[..out];
    }
  }

  // ----- every interleaving of the writer with the threads that hold snapshots

  /** Where the lock holder is: idle, unlinking servers, or inside a republication. */
  datatype Phase = Quiet | Unlinking | Swapping | Stamping

  /** `holders`: thread caches, calls in progress and connections that store a snapshot. */
  datatype State = State(
    phase: Phase, linked: set<nat>, generation: nat, current: Snapshot,
    retired: seq<Snapshot>, retirees: seq<Retiree>, reclaimed: set<nat>, holders: map<nat, Snapshot>)

  datatype Step =
    | Load(h: nat) | Copy(h: nat, to: nat) | Drop(h: nat)                  // any thread
    | Link(srv: nat) | Unlink(srv: nat)                                    // servers enter and leave hostgroups
    | RetireCurrent | StoreNext | StampGeneration                          // one republication
    | PruneSnapshots(busy: set<nat>) | Reclaim

  ghost predicate Known(st: State, srv: nat) {
    srv in st.linked || srv in st.reclaimed || exists r :: r in st.retirees && r.srv == srv
  }

  /** Everything still held has another owner, so its use count is above one. */
  ghost predicate HeldAreBusy(st: State, busy: set<nat>) {
    forall h :: h in st.holders ==> st.holders[h].generation in busy
  }

  function Reclaimed(st: State): State {
    var cut := Cutoff(st.retired, st.generation);
    st.(retirees := Remaining(st.retirees, cut),
        reclaimed := st.reclaimed + set srv | srv in Released(st.retirees, cut))
  }

  ghost function Apply(st: State, step: Step): State {
    match step
    case Load(h) => st.(holders := st.holders[h := st.current])
    case Copy(h, to) => if h in st.holders then st.(holders := st.holders[to := st.holders[h]]) else st
    case Drop(h) => st.(holders := st.holders - {h})
    case Link(srv) => if st.phase == Quiet && !Known(st, srv) then st.(linked := st.linked + {srv}) else st
    case Unlink(srv) =>
      if (st.phase == Quiet || st.phase == Unlinking) && srv in st.linked
      then st.(phase := Unlinking, linked := st.linked - {srv},
               retirees := st.retirees + [Retiree(srv, st.generation)])
      else st
    case RetireCurrent =>
      if st.phase == Quiet || st.phase == Unlinking
      then st.(phase := Swapping, retired := st.retired + [st.current]) else st
    case StoreNext =>
      if st.phase == Swapping
      then st.(phase := Stamping, current := Snapshot(st.generation + 1, st.linked)) else st
    case StampGeneration =>
      if st.phase == Stamping then st.(phase := Quiet, generation := st.current.generation) else st
    case PruneSnapshots(busy) =>
      if st.phase == Quiet && HeldAreBusy(st, busy) then st.(retired := KeepBusy(st.retired, busy)) else st
    case Reclaim => if st.phase == Quiet then Reclaimed(st) else st
  }

  // ----- the invariant

  ghost predicate Alive(st: State, s: Snapshot) {
    s == st.current || s in st.retired
  }

  /** A server some snapshot lists is linked, or was retired no earlier than that snapshot. */
  ghost predicate Kept(st: State, s: Snapshot, srv: nat) {
    srv in st.linked || exists r :: r in st.retirees && r.srv == srv && r.generation >= s.generation
  }

  ghost predicate ListsKept(st: State) {
    forall s, srv :: Alive(st, s) && srv in s.servers ==> Kept(st, s, srv)
  }

  ghost predicate OnePlace(st: State) {
    && st.linked !! st.reclaimed
    && (forall r :: r in st.retirees ==> r.srv !in st.linked && r.srv !in st.reclaimed)
    && DistinctServers(st.retirees)
  }

  ghost predicate DistinctServers(r: seq<Retiree>) {
    forall i, j :: 0 <= i < j < |r| ==> r[i].srv != r[j].srv
  }

  ghost predicate Generations(st: State) {
    && st.current.generation == st.generation + (if st.phase == Stamping then 1 else 0)
    && (forall s :: s in st.retired ==> s.generation <= st.generation)
    && (forall r :: r in st.retirees ==> r.generation <= st.generation)
    && (st.phase == Quiet ==> forall r :: r in st.retirees ==> r.generation < st.generation)
  }

  ghost predicate HoldersAlive(st: State) {
    forall h :: h in st.holders ==> Alive(st, st.holders[h])
  }

  /** While the successor is being stored, the predecessor already waits in the retired list. */
  ghost predicate Inv(st: State) {
    && ListsKept(st) && OnePlace(st) && Generations(st) && HoldersAlive(st)
    && (st.phase == Swapping ==> st.current in st.retired)
  }

  /** No one can reach a freed server through a snapshot. */
  ghost predicate NoDangling(st: State) {
    forall h :: h in st.holders ==> st.holders[h].servers !! st.reclaimed
  }

  lemma InvIsSafe(st: State)
    requires Inv(st)
    ensures NoDangling(st)
  {
    forall h, srv | h in st.holders && srv in st.holders[h].servers ensures srv !in st.reclaimed {
      assert Kept(st, st.holders[h], srv);
    }
  }

  // ----- each step keeps it

  lemma HolderStep(st: State, step: Step)
    requires Inv(st) && (step.Load? || step.Copy? || step.Drop?)
    ensures Inv(Apply(st, step))
  {
    var n := Apply(st, step);
    forall s ensures Alive(n, s) <==> Alive(st, s) {
    }
    forall s, srv ensures Kept(n, s, srv) <==> Kept(st, s, srv) {
    }
  }

  lemma LinkKeeps(st: State, srv: nat)
    requires Inv(st) && st.phase == Quiet && !Known(st, srv)
    ensures Inv(Apply(st, Link(srv)))
  {
    var n := Apply(st, Link(srv));
    forall s, x | Alive(n, s) && x in s.servers ensures Kept(n, s, x) {
      assert Alive(st, s) && Kept(st, s, x);
    }
    forall h | h in n.holders ensures Alive(n, n.holders[h]) {
      assert Alive(st, st.holders[h]);
    }
  }

  lemma UnlinkKeeps(st: State, srv: nat)
    requires Inv(st) && (st.phase == Quiet || st.phase == Unlinking) && srv in st.linked
    ensures Inv(Apply(st, Unlink(srv)))
  {
    var n := Apply(st, Unlink(srv));
    var r := Retiree(srv, st.generation);
    assert n.retirees[|st.retirees|] == r;
    forall s, x | Alive(n, s) && x in s.servers ensures Kept(n, s, x) {
      assert Alive(st, s) && Kept(st, s, x);
      if x == srv {
        assert r in n.retirees && r.generation >= s.generation;
      } else if x !in st.linked {
        var q :| q in st.retirees && q.srv == x && q.generation >= s.generation;
        assert q in n.retirees;
      }
    }
    forall h | h in n.holders ensures Alive(n, n.holders[h]) {
      assert Alive(st, st.holders[h]);
    }
  }

  /** A republication step moves no server, so only the set of living snapshots matters. */
  lemma RepublishKeeps(st: State, step: Step)
    requires Inv(st) && (step.RetireCurrent? || step.StoreNext? || step.StampGeneration?)
    ensures Inv(Apply(st, step))
  {
    var n := Apply(st, step);
    forall s, x | Alive(n, s) && x in s.servers ensures Kept(n, s, x) {
      if Alive(st, s) {
        assert Kept(st, s, x);
      }
    }
    forall h | h in n.holders ensures Alive(n, n.holders[h]) {
      assert Alive(st, st.holders[h]);
    }
  }

  lemma PruneKeeps(st: State, busy: set<nat>)
    requires Inv(st) && st.phase == Quiet && HeldAreBusy(st, busy)
    ensures Inv(Apply(st, PruneSnapshots(busy)))
  {
    var n := Apply(st, PruneSnapshots(busy));
    forall s ensures s in n.retired <==> s in st.retired && s.generation in busy {
      KeepBusyMembers(st.retired, busy, s);
    }
    forall s, x | Alive(n, s) && x in s.servers ensures Kept(n, s, x) {
      assert Alive(st, s) && Kept(st, s, x);
    }
    forall h | h in n.holders ensures Alive(n, n.holders[h]) {
      assert Alive(st, st.holders[h]);
    }
  }

  /** Retirees are told apart by their server, so none is both kept and freed. */
  lemma ReclaimedOnePlace(st: State)
    requires OnePlace(st)
    ensures OnePlace(Reclaimed(st))
  {
    var cut := Cutoff(st.retired, st.generation);
    var n := Reclaimed(st);
    forall srv ensures srv in n.reclaimed <==>
      srv in st.reclaimed || exists x :: x in st.retirees && x.srv == srv && x.generation < cut
    {
      ReleasedMembers(st.retirees, cut, srv);
    }
    forall r | r in n.retirees ensures r.srv !in n.linked && r.srv !in n.reclaimed {
      RemainingMembers(st.retirees, cut, r);
      OneRetireePerServer(st, r);
    }
    RemainingDistinct(st.retirees, cut);
  }

  lemma OneRetireePerServer(st: State, r: Retiree)
    requires OnePlace(st) && r in st.retirees
    ensures forall x :: x in st.retirees && x.srv == r.srv ==> x == r
  {
  }

  lemma {:induction false} RemainingDistinct(r: seq<Retiree>, cut: nat)
    requires DistinctServers(r)
    ensures DistinctServers(Remaining(r, cut))
  {
    if r != [] {
      var front := r[..|r| - 1];
      RemainingDistinct(front, cut);
      forall i | 0 <= i < |Remaining(front, cut)| ensures Remaining(front, cut)[i].srv != r[|r| - 1].srv {
        RemainingMembers(front, cut, Remaining(front, cut)[i]);
      }
    }
  }

  lemma ReclaimKeeps(st: State)
    requires Inv(st) && st.phase == Quiet
    ensures Inv(Reclaimed(st))
  {
    var cut := Cutoff(st.retired, st.generation);
    var n := Reclaimed(st);
    ReclaimedOnePlace(st);
    forall r ensures r in n.retirees <==> r in st.retirees && r.generation >= cut {
      RemainingMembers(st.retirees, cut, r);
    }
    forall s, x | Alive(n, s) && x in s.servers ensures Kept(n, s, x) {
      assert Alive(st, s) && Kept(st, s, x);
      if x !in st.linked {
        var r :| r in st.retirees && r.srv == x && r.generation >= s.generation;
        assert s in st.retired && r in n.retirees;
      }
    }
    forall h | h in n.holders ensures Alive(n, n.holders[h]) {
      assert Alive(st, st.holders[h]);
    }
  }

  lemma StepKeeps(st: State, step: Step)
    requires Inv(st)
    ensures Inv(Apply(st, step))
  {
    match step
    case Load(_) => HolderStep(st, step);
    case Copy(_, _) => HolderStep(st, step);
    case Drop(_) => HolderStep(st, step);
    case Link(srv) => if st.phase == Quiet && !Known(st, srv) { LinkKeeps(st, srv); }
    case Unlink(srv) =>
      if (st.phase == Quiet || st.phase == Unlinking) && srv in st.linked { UnlinkKeeps(st, srv); }
    case PruneSnapshots(busy) => if st.phase == Quiet && HeldAreBusy(st, busy) { PruneKeeps(st, busy); }
    case Reclaim => if st.phase == Quiet { ReclaimKeeps(st); }
    case _ => RepublishKeeps(st, step);
  }

  // ----- whole runs

  ghost function Run(st: State, steps: seq<Step>): State
    decreases |steps|
  {
    if steps == [] then st else Run(Apply(st, steps[0]), steps[1..])
  }

  /** After the constructor published the first, empty list. */
  function Initial(): State {
    State(Quiet, {}, 1, Snapshot(1, {}), [], [], {}, map[])
  }

  lemma {:induction false} RunKeeps(st: State, steps: seq<Step>)
    requires Inv(st)
    ensures Inv(Run(st, steps))
    decreases |steps|
  {
    if steps != [] {
      StepKeeps(st, steps[0]);
      RunKeeps(Apply(st, steps[0]), steps[1..]);
    }
  }

  /** In every run, no held snapshot lists a server that has been freed. */
  lemma HeldServersAreNeverReclaimed(steps: seq<Step>)
    ensures NoDangling(Run(Initial(), steps))
  {
    RunKeeps(Initial(), steps);
    InvIsSafe(Run(Initial(), steps));
  }

  /** Reclamation frees a retired server exactly when every surviving old snapshot is younger. */
  lemma ReclaimExact(st: State, r: Retiree)
    requires Inv(st) && st.phase == Quiet && r in st.retirees
    ensures r.srv in Reclaimed(st).reclaimed <==> forall s :: s in st.retired ==> r.generation < s.generation
    ensures r in Reclaimed(st).retirees <==> exists s :: s in st.retired && s.generation <= r.generation
  {
    var cut := Cutoff(st.retired, st.generation);
    ReleasedMembers(st.retirees, cut, r.srv);
    RemainingMembers(st.retirees, cut, r);
    OneRetireePerServer(st, r);
  }

  /** Once nobody holds an old snapshot, pruning and reclaiming leave no retired server behind. */
  lemma NothingLeaks(st: State)
    requires Inv(st) && st.phase == Quiet
    requires forall h :: h in st.holders ==> st.holders[h] == st.current
    ensures var pruned := Apply(st, PruneSnapshots({st.generation}));
      && (forall s :: s in pruned.retired ==> s.generation == st.generation)
      && Apply(pruned, Reclaim).retirees == []
  {
    var busy := {st.generation};
    var pruned := Apply(st, PruneSnapshots(busy));
    PruneKeeps(st, busy);
    forall s | s in pruned.retired ensures s.generation == st.generation {
      KeepBusyMembers(st.retired, busy, s);
    }
    var n := Apply(pruned, Reclaim);
    if n.retirees != [] {
      RemainingMembers(pruned.retirees, Cutoff(pruned.retired, pruned.generation), n.retirees[0]);
    }
  }

  /**
   * The republication between unlinking and reclaiming is what makes this safe: without
   * it, with no older snapshot alive, the freed server is still in the current list.
   */
  lemma ReclaimBeforeRepublishDangles(st: State, srv: nat)
    requires Inv(st) && st.phase == Quiet && st.retired == [] && srv in st.linked && srv in st.current.servers
    ensures var n := Reclaimed(Apply(st, Unlink(srv)));
      srv in n.reclaimed && srv in n.current.servers && !NoDangling(Apply(n, Load(0)))
  {
    var u := Apply(st, Unlink(srv));
    assert u.retirees[|st.retirees|] == Retiree(srv, st.generation);
    ReleasedMembers(u.retirees, Cutoff(u.retired, u.generation), srv);
    var held := Apply(Reclaimed(u), Load(0));
    assert held.holders[0] == st.current && srv in held.holders[0].servers && srv in held.reclaimed;
  }

  // ----- what a reader finds in the list

  /**
   * A new list is complete, and until the next purge begins no list names a server that
   * has left its hostgroup.
   */
  ghost predicate Listing(st: State) {
    && (st.phase == Stamping ==> st.current.servers == st.linked)
    && (st.phase == Quiet ==> st.current.servers <= st.linked)
  }

  lemma {:induction false} ListingKept(st: State, steps: seq<Step>)
    requires Listing(st)
    ensures Listing(Run(st, steps))
    decreases |steps|
  {
    if steps != [] {
      assert Listing(Apply(st, steps[0]));
      ListingKept(Apply(st, steps[0]), steps[1..]);
    }
  }

  /** In every run, a thread that loads the list outside a purge gets no server that was unlinked. */
  lemma LoadedServersAreLinked(steps: seq<Step>, h: nat)
    ensures var st := Run(Initial(), steps);
      st.phase == Quiet ==> Apply(st, Load(h)).holders[h].servers <= st.linked
  {
    ListingKept(Initial(), steps);
  }

  /** One republication: the new list names exactly the linked servers, the old one is kept for its holders. */
  lemma RepublicationExact(st: State)
    requires st.phase == Quiet || st.phase == Unlinking
    ensures Run(st, [RetireCurrent, StoreNext, StampGeneration])
      == st.(phase := Quiet, generation := st.generation + 1, current := Snapshot(st.generation + 1, st.linked),
             retired := st.retired + [st.current])
  {
    RunThree(st, RetireCurrent, StoreNext, StampGeneration);
  }

  lemma RunThree(st: State, a: Step, b: Step, c: Step)
    ensures Run(st, [a, b, c]) == Apply(Apply(Apply(st, a), b), c)
  {
    assert [a, b, c][1..] == [b, c] && [b, c][1..] == [c] && [c][1..] == [];
    calc {
      Run(st, [a, b, c]);
      Run(Apply(st, a), [b, c]);
      Run(Apply(Apply(st, a), b), [c]);
      Run(Apply(Apply(Apply(st, a), b), c), []);
    }
  }

  /** Until servers enter or leave again, whatever else happens, every load gets exactly the linked ones. */
  lemma {:induction false} FreshListStays(st: State, steps: seq<Step>, h: nat)
    requires st.current.servers == st.linked
    requires forall i :: 0 <= i < |steps| ==> !steps[i].Link? && !steps[i].Unlink?
    ensures var n := Run(st, steps);
      n.current.servers == n.linked == st.linked && Apply(n, Load(h)).holders[h].servers == st.linked
    decreases |steps|
  {
    if steps != [] {
      FreshListStays(Apply(st, steps[0]), steps[1..], h);
    }
  }

  /** A new server is listed by the next republication. */
  lemma LinkedServerIsListed(st: State, srv: nat)
    requires st.phase == Quiet && !Known(st, srv)
    ensures Run(Apply(st, Link(srv)), [RetireCurrent, StoreNext, StampGeneration]).current.servers == st.linked + {srv}
  {
    RepublicationExact(Apply(st, Link(srv)));
  }

  /** What threads do to their own references. */
  lemma HoldersExact(st: State, h: nat, to: nat)
    requires h in st.holders
    ensures Apply(st, Load(to)) == st.(holders := st.holders[to := st.current])
    ensures Apply(st, Copy(h, to)) == st.(holders := st.holders[to := st.holders[h]])
    ensures Apply(st, Drop(h)).holders.Keys == st.holders.Keys - {h}
  {
  }

  /** Once nobody holds an old snapshot, every retired server is freed. */
  lemma RetiredServerIsFreed(st: State, r: Retiree)
    requires Inv(st) && st.phase == Quiet && r in st.retirees
    requires forall h :: h in st.holders ==> st.holders[h] == st.current
    ensures var n := Apply(Apply(st, PruneSnapshots({st.generation})), Reclaim);
      n.linked == st.linked && n.current == st.current && r.srv in n.reclaimed && n.retirees == []
  {
    var pruned := Apply(st, PruneSnapshots({st.generation}));
    NothingLeaks(st);
    PruneKeeps(st, {st.generation});
    assert pruned.retirees == st.retirees && r.generation < st.generation;
    ReclaimExact(pruned, r);
  }

  lemma UnlinkRetires(st: State, srv: nat)
    requires Inv(st) && st.phase == Quiet && srv in st.linked
    ensures var u := Apply(st, Unlink(srv));
      && Inv(u) && u.phase == Unlinking && u.linked == st.linked - {srv} && u.holders == st.holders
      && Retiree(srv, st.generation) in u.retirees
  {
    UnlinkKeeps(st, srv);
    assert Apply(st, Unlink(srv)).retirees[|st.retirees|] == Retiree(srv, st.generation);
  }

  /** A whole purge of a server nobody looks at: it leaves the list and is freed, and nothing is left behind. */
  lemma PurgedServerIsFreed(st: State, srv: nat)
    requires Inv(st) && st.phase == Quiet && srv in st.linked && st.holders == map[]
    ensures var listed := Run(Apply(st, Unlink(srv)), [RetireCurrent, StoreNext, StampGeneration]);
      var n := Apply(Apply(listed, PruneSnapshots({listed.generation})), Reclaim);
      n.linked == n.current.servers == st.linked - {srv} && srv in n.reclaimed && n.retirees == []
  {
    var u := Apply(st, Unlink(srv));
    UnlinkRetires(st, srv);
    RepublicationExact(u);
    RunKeeps(u, [RetireCurrent, StoreNext, StampGeneration]);
    RetiredServerIsFreed(Run(u, [RetireCurrent, StoreNext, StampGeneration]), Retiree(srv, st.generation));
  }
}
