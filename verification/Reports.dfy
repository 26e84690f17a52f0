/**
 The way of the counters from the secondaries to the master: what a report changes, what a slot shows
 after a run, and that the sum can get to the devices of the simulation.
 */
module Reports {
  import opened Common
  import opened Naming
  import opened Stats
  import opened DeviceRuns
  import opened CounterRuns
  import opened StrayRuns
  import opened Tiling
  import opened Clusters = Cluster

  // ---- One report -------------------------------------------------------------------------------

  /** A delivered report is in its slot, and the sum has moved by the difference to what was there. */
  lemma DeliverArrives(c: Cluster, i: nat, status: Status, now: nat)
    requires Clusters.Enabled(c, Deliver(i, status, now)) && i < |c.nodes[0].node.slots|
    ensures var v := Clusters.Apply(c, Deliver(i, status, now));
      var was := c.nodes[0].node.slots; var slots := v.nodes[0].node.slots;
      && |v.nodes| == |c.nodes| && (forall j | 1 <= j < |c.nodes| :: v.nodes[j] == c.nodes[j])
      && v.nodes[0] == c.nodes[0].(node := c.nodes[0].node.(slots := slots))
      && |slots| == |was| && slots[i] == status
      && slots[0] == was[0].(timeToFull := slots[0].timeToFull)
      && (forall j | 1 <= j < |was| && j != i :: slots[j] == was[j])
      && Total(slots) + was[i].live == Total(was) + status.live
      && v.reports == c.reports - multiset{(i, status)}
  {
    ReportArrives(c.nodes[0].node.master, c.nodes[0].node.slots, i, status, now);
  }

  /** A report sent is the sender's own slot. */
  lemma SendReports(c: Cluster, i: nat)
    requires Clusters.Enabled(c, Send(i))
    ensures Clusters.Apply(c, Send(i)) == c.(reports := c.reports + multiset{(i, c.nodes[i].node.slots[0])})
  {
  }

  // ---- What a slot shows ------------------------------------------------------------------------

  /** The report last delivered for slot i. */
  function LastReport(moves: seq<Move>, i: nat): Option<Status>
  {
    if moves == [] then None
    else if LastReport(moves[1..], i).Some? then LastReport(moves[1..], i)
    else if moves[0].Deliver? && moves[0].i == i then Some(moves[0].status)
    else None
  }

  /** No other move touches slot i of the master. */
  lemma OtherMovesKeepSlot(c: Cluster, m: Move, i: nat)
    requires c.nodes != [] && 0 < i < |c.nodes[0].node.slots| && Clusters.Enabled(c, m)
    requires m.Deliver? ==> m.i != i
    ensures var v := Clusters.Apply(c, m);
      && v.nodes != [] && |v.nodes[0].node.slots| == |c.nodes[0].node.slots|
      && v.nodes[0].node.slots[i] == c.nodes[0].node.slots[i]
  {
    match m
    case Local(j, s) => if j == 0 { SlotsStep(c.nodes[0], s); }
    case Send(_) =>
    case Deliver(j, status, now) =>
      if j < |c.nodes[0].node.slots| { DeliverArrives(c, j, status, now); }
  }

  lemma SlotMove(c: Cluster, m: Move, i: nat)
    requires c.nodes != [] && 0 < i < |c.nodes[0].node.slots| && Clusters.Enabled(c, m)
    ensures var v := Clusters.Apply(c, m);
      && v.nodes != [] && |v.nodes[0].node.slots| == |c.nodes[0].node.slots|
      && v.nodes[0].node.slots[i] == if m.Deliver? && m.i == i then m.status else c.nodes[0].node.slots[i]
  {
    if m.Deliver? && m.i == i {
      DeliverArrives(c, i, m.status, m.now);
    } else {
      OtherMovesKeepSlot(c, m, i);
    }
  }

  /** After any run slot i of the master is the report last delivered for it, as a whole. */
  lemma {:induction false} SlotShowsLastReport(c: Cluster, moves: seq<Move>, i: nat)
    requires c.nodes != [] && 0 < i < |c.nodes[0].node.slots| && Clusters.Run(c, moves)
    ensures var v := Clusters.After(c, moves);
      && v.nodes != [] && |v.nodes[0].node.slots| == |c.nodes[0].node.slots|
      && v.nodes[0].node.slots[i] ==
           if LastReport(moves, i).Some? then LastReport(moves, i).value else c.nodes[0].node.slots[i]
    decreases moves
  {
    if moves != [] {
      SlotMove(c, moves[0], i);
      SlotShowsLastReport(Clusters.Apply(c, moves[0]), moves[1..], i);
    }
  }

  lemma {:induction false} RunPrefix(c: Cluster, moves: seq<Move>, k: nat)
    requires Clusters.Run(c, moves) && k < |moves|
    ensures Clusters.Run(c, moves[..k]) && Clusters.Enabled(Clusters.After(c, moves[..k]), moves[k])
    decreases moves
  {
    if k > 0 {
      assert moves[..k][1..] == moves[1..][..k - 1];
      RunPrefix(Clusters.Apply(c, moves[0]), moves[1..], k - 1);
    }
  }

  /** At move k node i sends its own slot, which is this status. */
  predicate SentAt(c: Cluster, moves: seq<Move>, k: nat, i: nat, status: Status)
    requires Clusters.Run(c, moves)
  {
    && k < |moves| && moves[k] == Send(i) && Clusters.Run(c, moves[..k])
    && var u := Clusters.After(c, moves[..k]);
    i < |u.nodes| && u.nodes[i].node.slots != [] && status == u.nodes[i].node.slots[0]
  }

  lemma SentLater(c: Cluster, moves: seq<Move>, k: nat, i: nat, status: Status)
    requires moves != [] && Clusters.Run(c, moves)
    requires SentAt(Clusters.Apply(c, moves[0]), moves[1..], k, i, status)
    ensures SentAt(c, moves, k + 1, i, status)
  {
    assert moves[..k + 1][1..] == moves[1..][..k];
  }

  lemma SentFirst(c: Cluster, moves: seq<Move>, i: nat, status: Status)
    requires moves != [] && Clusters.Run(c, moves)
    requires (i, status) !in c.reports && (i, status) in Clusters.Apply(c, moves[0]).reports
    ensures SentAt(c, moves, 0, i, status)
  {
    assert moves[0].Send?;
  }

  /** A report under way was sent during the run. */
  lemma {:induction false} ReportWasSent(c: Cluster, moves: seq<Move>, i: nat, status: Status) returns (k: nat)
    requires Clusters.Run(c, moves) && (i, status) !in c.reports && (i, status) in Clusters.After(c, moves).reports
    ensures SentAt(c, moves, k, i, status)
    decreases moves
  {
    if (i, status) in Clusters.Apply(c, moves[0]).reports {
      SentFirst(c, moves, i, status);
      k := 0;
    } else {
      k := ReportWasSent(Clusters.Apply(c, moves[0]), moves[1..], i, status);
      SentLater(c, moves, k, i, status);
      k := k + 1;
    }
  }

  lemma {:induction false} LastReportAt(moves: seq<Move>, i: nat) returns (j: nat)
    requires LastReport(moves, i).Some?
    ensures j < |moves| && moves[j].Deliver? && moves[j].i == i && moves[j].status == LastReport(moves, i).value
  {
    if LastReport(moves[1..], i).Some? {
      j := LastReportAt(moves[1..], i);
      j := j + 1;
    } else {
      j := 0;
    }
  }

  lemma SentInPrefix(c: Cluster, moves: seq<Move>, n: nat, k: nat, i: nat, status: Status)
    requires n <= |moves| && Clusters.Run(c, moves) && Clusters.Run(c, moves[..n])
    requires SentAt(c, moves[..n], k, i, status)
    ensures SentAt(c, moves, k, i, status)
  {
    assert moves[..n][..k] == moves[..k];
  }

  /**
   What slot i of the master shows is what node i had in its own slot when it sent some report during the
   run, or nothing has been delivered for it yet.
   */
  lemma SlotWasTrue(c: Cluster, moves: seq<Move>, i: nat) returns (k: nat)
    requires c.nodes != [] && c.reports == multiset{} && 0 < i < |c.nodes[0].node.slots| && Clusters.Run(c, moves)
    ensures var v := Clusters.After(c, moves);
      && v.nodes != [] && i < |v.nodes[0].node.slots|
      && (SentAt(c, moves, k, i, v.nodes[0].node.slots[i])
          || (LastReport(moves, i) == None && v.nodes[0].node.slots[i] == c.nodes[0].node.slots[i]))
  {
    SlotShowsLastReport(c, moves, i);
    k := 0;
    if LastReport(moves, i).Some? {
      var status := LastReport(moves, i).value;
      var j := LastReportAt(moves, i);
      RunPrefix(c, moves, j);
      k := ReportWasSent(c, moves[..j], i, status);
      SentInPrefix(c, moves, j, k, i, status);
    }
  }

  // ---- Where the slots come from ----------------------------------------------------------------

  /** Nodes as run() leaves them, with the slots of the master as StartSim does, are where runs start. */
  lemma StartSimLeadsToStart(c: Cluster, macPrefix: string, devices: nat, services: nat,
                             id: string, simulationId: string, owner: string, now: nat)
    requires PadModulus(devices, services) != 0
    requires |c.nodes| == services + 1 && c.reports == multiset{}
    requires forall i | 0 <= i <= services ::
      && DeviceRuns.Start(c.nodes[i])
      && c.nodes[i].node.clients.Keys == Serials(macPrefix, First(devices, services, i),
                                                 First(devices, services, i) + Size(devices, services, i))
    requires c.nodes[0].node.slots == Copies(Fresh(id, simulationId, owner, devices, now), services + 1)
    ensures Clusters.Start(c, macPrefix, devices, services)
  {
    StartedSlots(id, simulationId, owner, devices, now, services + 1);
  }

  // ---- A run that gets everybody live -----------------------------------------------------------

  /** Those in `rest` wait for their first connection, all others are connected and counted. */
  ghost predicate Underway(w: World, rest: set<string>)
  {
    && w.node.slots != [] && w.node.running && rest <= w.node.clients.Keys
    && w.node.slots[0].live == Truth(w)
    && (forall c <- w.node.clients :: w.node.clients[c].valid)
    && (forall c <- w.node.clients :: c !in rest ==> w.node.clients[c].connected)
    && (forall c <- rest :: !w.node.clients[c].connected && ShareOf(w, c).establish > 0 && ShareOf(w, c).asleep == 0)
  }

  /** A connection of one client leaves the shares of all others. */
  lemma ConnectsAlone(w: World, c: string, v: World)
    requires c in w.node.clients && DeviceRuns.Enabled(w, Connecting(c, 1, 0))
    requires v == DeviceRuns.Apply(w, Connecting(c, 1, 0))
    ensures v.node.clients.Keys == w.node.clients.Keys
    ensures forall d <- w.node.clients | d != c :: ShareOf(v, d) == ShareOf(w, d)
  {
    KeysAfter(w, Connecting(c, 1, 0));
    forall d <- w.node.clients | d != c
      ensures d in v.node.clients && ShareOf(v, d) == ShareOf(w, d)
    {
      ShareAfter(w, Connecting(c, 1, 0), d);
    }
  }

  lemma UnderwayNext(w: World, v: World, rest: set<string>, c: string)
    requires Underway(w, rest) && c in rest && Shown(v, c) && v.node.clients[c].connected
    requires v.node.slots[0].live == Truth(v) && v.node.clients.Keys == w.node.clients.Keys
    requires forall d <- w.node.clients | d != c :: ShareOf(v, d) == ShareOf(w, d)
    ensures Underway(v, rest - {c})
  {
    forall d <- v.node.clients
      ensures v.node.clients[d].valid && (d !in rest - {c} ==> v.node.clients[d].connected)
    {
      if d != c {
        assert ShareOf(v, d) == ShareOf(w, d);
      }
    }
    forall d <- rest - {c}
      ensures !v.node.clients[d].connected && ShareOf(v, d).establish > 0 && ShareOf(v, d).asleep == 0
    {
      assert ShareOf(v, d) == ShareOf(w, d);
    }
  }

  lemma OneMoreUp(w: World, rest: set<string>, c: string) returns (v: World)
    requires Underway(w, rest) && c in rest
    ensures Leads(w, [Connecting(c, 1, 0)], v) && Underway(v, rest - {c})
    ensures v.node.clients.Keys == w.node.clients.Keys
  {
    ConnectUp(w, c, 1, 0);
    v := ConnectLeads(w, c, 1, 0);
    ConnectsAlone(w, c, v);
    UnderwayNext(w, v, rest, c);
  }

  lemma {:induction false} AllUp(w: World, rest: set<string>) returns (steps: seq<Step>, v: World)
    requires Underway(w, rest)
    ensures Leads(w, steps, v) && Underway(v, {}) && v.node.clients.Keys == w.node.clients.Keys
    decreases |rest|
  {
    if rest == {} {
      steps, v := [], w;
    } else {
      var c :| c in rest;
      var u := OneMoreUp(w, rest, c);
      var more;
      more, v := AllUp(u, rest - {c});
      Chain(w, [Connecting(c, 1, 0)], u, more, v);
      steps := [Connecting(c, 1, 0)] + more;
    }
  }

  /** All clients of a node connected, and its counter is their number. */
  ghost predicate IsUp(w: World, keys: set<string>)
  {
    && w.node.slots != [] && w.node.clients.Keys == keys && w.node.slots[0].live == |keys|
    && (forall c <- w.node.clients :: w.node.clients[c].connected)
  }

  lemma NodeComesUp(w: World) returns (steps: seq<Step>)
    requires DeviceRuns.Start(w)
    ensures DeviceRuns.Run(w, steps) && IsUp(DeviceRuns.After(w, steps), w.node.clients.Keys)
    ensures SameOthers(w.node.slots, DeviceRuns.After(w, steps).node.slots)
  {
    assert Connected(w.node.clients) == {};
    var v;
    steps, v := AllUp(w, w.node.clients.Keys);
    LeadsIsRun(w, steps, v);
    assert Connected(v.node.clients) == v.node.clients.Keys;
    OthersRun(w, steps);
  }

  lemma {:induction false} RunsJoin(c: Cluster, first: seq<Move>, second: seq<Move>)
    requires Clusters.Run(c, first) && Clusters.Run(Clusters.After(c, first), second)
    ensures Clusters.Run(c, first + second)
    ensures Clusters.After(c, first + second) == Clusters.After(Clusters.After(c, first), second)
    decreases first
  {
    if first == [] {
      assert first + second == second;
    } else {
      assert (first + second)[1..] == first[1..] + second;
      RunsJoin(Clusters.Apply(c, first[0]), first[1..], second);
    }
  }

  /** The first n nodes have come up, and nothing else has happened. */
  ghost predicate UpTo(c: Cluster, d: Cluster, n: nat)
  {
    && d.reports == c.reports && |d.nodes| == |c.nodes|
    && (forall i | 0 <= i < |c.nodes| :: if i < n then CameUpFrom(c.nodes[i], d.nodes[i]) else d.nodes[i] == c.nodes[i])
  }

  ghost predicate CameUpFrom(w: World, v: World)
  {
    IsUp(v, w.node.clients.Keys) && SameOthers(w.node.slots, v.node.slots)
  }

  lemma OneNodeUp(c: Cluster, d: Cluster, n: nat) returns (moves: seq<Move>)
    requires n < |c.nodes| && DeviceRuns.Start(c.nodes[n]) && UpTo(c, d, n)
    ensures Clusters.Run(d, moves) && UpTo(c, Clusters.After(d, moves), n + 1)
  {
    assert d.nodes[n] == c.nodes[n];
    var steps := NodeComesUp(c.nodes[n]);
    NodeRun(d, n, steps);
    moves := OnNode(n, steps);
  }

  lemma {:induction false} NodesComeUp(c: Cluster, n: nat) returns (moves: seq<Move>)
    requires n <= |c.nodes| && forall i | 0 <= i < |c.nodes| :: DeviceRuns.Start(c.nodes[i])
    ensures Clusters.Run(c, moves) && UpTo(c, Clusters.After(c, moves), n)
    decreases n
  {
    if n == 0 {
      moves := [];
    } else {
      var first := NodesComeUp(c, n - 1);
      var last := OneNodeUp(c, Clusters.After(c, first), n - 1);
      RunsJoin(c, first, last);
      moves := first + last;
    }
  }

  /** The secondaries below n have reported, and nothing else has happened. */
  ghost predicate HeardTo(c: Cluster, d: Cluster, n: nat)
  {
    && c.nodes != [] && d.reports == c.reports && |d.nodes| == |c.nodes|
    && (forall i | 1 <= i < |c.nodes| :: d.nodes[i] == c.nodes[i] && c.nodes[i].node.slots != [])
    && var was := c.nodes[0].node.slots; var slots := d.nodes[0].node.slots;
    && d.nodes[0] == c.nodes[0].(node := c.nodes[0].node.(slots := slots))
    && |slots| == |was| == |c.nodes| && slots[0].live == was[0].live
    && (forall i | 1 <= i < n <= |slots| :: slots[i] == c.nodes[i].node.slots[0])
  }

  /** Secondary n sends its slot and the master gets it. */
  function Telling(c: Cluster, n: nat): seq<Move>
    requires n < |c.nodes| && c.nodes[n].node.slots != []
  {
    [Send(n), Deliver(n, c.nodes[n].node.slots[0], 0)]
  }

  lemma TwoMoves(c: Cluster, a: Move, b: Move)
    requires Clusters.Enabled(c, a) && Clusters.Enabled(Clusters.Apply(c, a), b)
    ensures Clusters.Run(c, [a, b]) && Clusters.After(c, [a, b]) == Clusters.Apply(Clusters.Apply(c, a), b)
  {
    var d := Clusters.Apply(c, a);
    assert [a, b][1..] == [b] && [b][1..] == [];
    assert Clusters.After(d, [b]) == Clusters.Apply(d, b);
  }

  /** What it leaves. */
  lemma Told(d: Cluster, n: nat) returns (f: Cluster)
    requires d.nodes != [] && 1 <= n < |d.nodes| == |d.nodes[0].node.slots| && d.nodes[n].node.slots != []
    ensures Clusters.Run(d, Telling(d, n)) && f == Clusters.After(d, Telling(d, n))
    ensures f.reports == d.reports && |f.nodes| == |d.nodes|
    ensures forall i | 1 <= i < |d.nodes| :: f.nodes[i] == d.nodes[i]
    ensures var was := d.nodes[0].node.slots; var slots := f.nodes[0].node.slots;
      && f.nodes[0] == d.nodes[0].(node := d.nodes[0].node.(slots := slots))
      && |slots| == |was| && slots[0].live == was[0].live && slots[n] == d.nodes[n].node.slots[0]
      && (forall i | 1 <= i < |was| && i != n :: slots[i] == was[i])
  {
    var status := d.nodes[n].node.slots[0];
    SendReports(d, n);
    var e := Clusters.Apply(d, Send(n));
    DeliverArrives(e, n, status, 0);
    TwoMoves(d, Send(n), Deliver(n, status, 0));
    f := Clusters.Apply(e, Deliver(n, status, 0));
    assert e.reports - multiset{(n, status)} == d.reports;
  }

  lemma OneReport(c: Cluster, d: Cluster, n: nat)
    requires 1 <= n < |c.nodes| && HeardTo(c, d, n)
    ensures Clusters.Run(d, Telling(c, n)) && HeardTo(c, Clusters.After(d, Telling(c, n)), n + 1)
  {
    assert d.nodes[n] == c.nodes[n];
    assert Telling(d, n) == Telling(c, n);
    var f := Told(d, n);
  }

  lemma {:induction false} AllReport(c: Cluster, n: nat) returns (moves: seq<Move>)
    requires 1 <= n <= |c.nodes| && HeardTo(c, c, 1)
    ensures Clusters.Run(c, moves) && HeardTo(c, Clusters.After(c, moves), n)
    decreases n
  {
    if n == 1 {
      moves := [];
    } else {
      var first := AllReport(c, n - 1);
      OneReport(c, Clusters.After(c, first), n - 1);
      RunsJoin(c, first, Telling(c, n - 1));
      moves := first + Telling(c, n - 1);
    }
  }

  /** Every client of every node is connected, every report delivered, and the slots show the nodes' own. */
  ghost predicate AllHeard(v: Cluster)
  {
    && v.nodes != [] && v.reports == multiset{} && |v.nodes[0].node.slots| == |v.nodes|
    && (forall i | 0 <= i < |v.nodes| :: forall c <- v.nodes[i].node.clients :: v.nodes[i].node.clients[c].connected)
    && (forall i | 1 <= i < |v.nodes| ::
          v.nodes[i].node.slots != [] && v.nodes[0].node.slots[i] == v.nodes[i].node.slots[0])
  }

  lemma SumOfSizes(slots: Slots, devices: nat, services: nat)
    requires services + 1 <= devices && PadModulus(devices, services) != 0 && |slots| == services + 1
    requires forall i | 0 <= i <= services :: slots[i].live == Size(devices, services, i)
    ensures Total(slots) == devices
  {
    TotalWithinSizes(slots, Sizes(devices, services));
    SizesSum(devices, services);
  }

  lemma SizesOfKeys(c: Cluster, macPrefix: string, devices: nat, services: nat, i: nat)
    requires |macPrefix| == 6 && services + 1 <= devices <= DEVICE_SPACE && i <= services
    requires PadModulus(devices, services) != 0 && Clusters.Start(c, macPrefix, devices, services)
    ensures |c.nodes[i].node.clients.Keys| == Size(devices, services, i)
  {
    WithinDevices(devices, services, i);
    SerialsCount(macPrefix, First(devices, services, i),
                 First(devices, services, i) + Size(devices, services, i));
  }

  lemma HeardIsLive(c: Cluster, d: Cluster, v: Cluster, macPrefix: string, devices: nat, services: nat)
    requires |macPrefix| == 6 && services + 1 <= devices <= DEVICE_SPACE
    requires PadModulus(devices, services) != 0 && Clusters.Start(c, macPrefix, devices, services)
    requires UpTo(c, d, |c.nodes|) && HeardTo(d, v, |d.nodes|)
    ensures Total(v.nodes[0].node.slots) == devices
  {
    forall i | 0 <= i <= services
      ensures v.nodes[0].node.slots[i].live == Size(devices, services, i)
    {
      SizesOfKeys(c, macPrefix, devices, services, i);
      assert CameUpFrom(c.nodes[i], d.nodes[i]);
    }
    SumOfSizes(v.nodes[0].node.slots, devices, services);
  }

  lemma HeardIsAll(c: Cluster, d: Cluster, v: Cluster)
    requires UpTo(c, d, |c.nodes|) && c.reports == multiset{} && HeardTo(d, v, |d.nodes|)
    ensures AllHeard(v)
  {
    forall i | 0 <= i < |v.nodes|
      ensures forall x <- v.nodes[i].node.clients :: v.nodes[i].node.clients[x].connected
    {
      assert CameUpFrom(c.nodes[i], d.nodes[i]);
    }
  }

  lemma UpCanReport(c: Cluster, d: Cluster)
    requires c.nodes != [] && UpTo(c, d, |c.nodes|) && |c.nodes[0].node.slots| == |c.nodes|
    ensures HeardTo(d, d, 1)
  {
    forall i | 0 <= i < |d.nodes| ensures d.nodes[i].node.slots != [] {
      assert CameUpFrom(c.nodes[i], d.nodes[i]);
    }
  }

  /** Every simulation has a run in which everybody connects and reports, and the sum is then its devices. */
  lemma EverybodyLive(c: Cluster, macPrefix: string, devices: nat, services: nat) returns (moves: seq<Move>)
    requires |macPrefix| == 6 && services + 1 <= devices <= DEVICE_SPACE
    requires PadModulus(devices, services) != 0 && Clusters.Start(c, macPrefix, devices, services)
    ensures Clusters.Run(c, moves)
    ensures AllHeard(Clusters.After(c, moves)) && Total(Clusters.After(c, moves).nodes[0].node.slots) == devices
  {
    var first := NodesComeUp(c, |c.nodes|);
    var d := Clusters.After(c, first);
    UpCanReport(c, d);
    var second := AllReport(d, |d.nodes|);
    var v := Clusters.After(d, second);
    RunsJoin(c, first, second);
    HeardIsAll(c, d, v);
    HeardIsLive(c, d, v, macPrefix, devices, services);
    moves := first + second;
  }
}
