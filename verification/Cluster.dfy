/**
 A simulation spread over a master (node 0) and its secondaries: every node runs its slice of the
 devices, secondaries report their own counter, and the master adds the slots up.
 */
module Cluster {
  import opened Common
  import opened Naming
  import opened Stats
  import opened Devices
  import opened DeviceRuns
  import opened CounterRuns
  import opened StrayRuns
  import opened Tiling

  /** Reports sent by secondaries and not yet delivered, with the slot index they carry. */
  datatype Cluster = Cluster(nodes: seq<World>, reports: multiset<(nat, Status)>)

  datatype Move =
    | Local(i: nat, step: Step)
    | Send(i: nat)                                // UpdateMasterSimulation on a secondary
    | Deliver(i: nat, status: Status, now: nat)   // RESTAPI_status_handler::DoPut on the master

  /** Which devices node i runs. */
  function First(devices: nat, services: nat, i: nat): nat
    requires PadModulus(devices, services) != 0
  {
    if i == 0 then 0 else SliceOf(devices, services, i - 1).offset
  }

  function Size(devices: nat, services: nat, i: nat): nat
    requires PadModulus(devices, services) != 0
  {
    if i == 0 then MasterShare(devices, services) else BatchSize(devices, services)
  }

  predicate Enabled(c: Cluster, m: Move)
  {
    match m
    case Local(i, s) => i < |c.nodes| && DeviceRuns.Enabled(c.nodes[i], s)
    case Send(i) => 0 < i < |c.nodes| && c.nodes[i].node.slots != []
    case Deliver(i, status, _) => i != 0 && c.nodes != [] && c.reports[(i, status)] > 0
  }

  function Apply(c: Cluster, m: Move): Cluster
    requires Enabled(c, m)
  {
    match m
    case Local(i, s) => c.(nodes := c.nodes[i := DeviceRuns.Apply(c.nodes[i], s)])
    case Send(i) => c.(reports := c.reports + multiset{(i, Current(false, c.nodes[i].node.slots))})
    case Deliver(i, status, now) =>
      var k := c.nodes[0].node;
      Cluster(c.nodes[0 := c.nodes[0].(node := k.(slots := Reported(k.master, k.slots, i, status, now)))],
              c.reports - multiset{(i, status)})
  }

  predicate Run(c: Cluster, moves: seq<Move>)
    decreases moves
  {
    moves == [] || (Enabled(c, moves[0]) && Run(Apply(c, moves[0]), moves[1..]))
  }

  function After(c: Cluster, moves: seq<Move>): Cluster
    requires Run(c, moves)
    decreases moves
  {
    if moves == [] then c else After(Apply(c, moves[0]), moves[1..])
  }

  /** Every node as SimulationRunner::run and SimStats::StartSim leave it. */
  ghost predicate Start(c: Cluster, macPrefix: string, devices: nat, services: nat)
    requires PadModulus(devices, services) != 0
  {
    && |c.nodes| == services + 1 && c.reports == multiset{}
    && (forall i | 0 <= i <= services ::
          && DeviceRuns.Start(c.nodes[i])
          && c.nodes[i].node.clients.Keys == Serials(macPrefix, First(devices, services, i),
                                                     First(devices, services, i) + Size(devices, services, i)))
    && var slots := c.nodes[0].node.slots;
    && |slots| == services + 1 && slots[0].expected == devices && slots[0].timeToFull == 0
    && (forall i | 0 <= i < |slots| :: slots[i].live == 0)
  }

  function Sum(sizes: seq<nat>): nat
  {
    if sizes == [] then 0 else sizes[0] + Sum(sizes[1..])
  }

  /** How many devices each node runs. */
  function Sizes(devices: nat, services: nat): seq<nat>
    requires PadModulus(devices, services) != 0
  {
    seq(services + 1, i requires i >= 0 => Size(devices, services, i))
  }

  /** A node with that many clients whose counter does not exceed those connected. */
  predicate Fits(w: World, size: nat)
  {
    Covered(w) && |w.node.clients.Keys| == size
  }

  predicate SlotsFit(slots: Slots, devices: nat, sizes: seq<nat>)
  {
    && |slots| == |sizes| >= 1 && slots[0].expected == devices
    && (forall i | 0 <= i < |sizes| :: slots[i].live <= sizes[i])
  }

  predicate Bounded(c: Cluster, devices: nat, sizes: seq<nat>)
  {
    && |c.nodes| == |sizes| >= 1
    && (forall i | 0 <= i < |sizes| :: Fits(c.nodes[i], sizes[i]))
    && (forall r <- c.reports :: 0 < r.0 < |sizes| && r.1.live <= sizes[r.0])
    && SlotsFit(c.nodes[0].node.slots, devices, sizes)
  }

  /** A covered counter does not exceed the number of clients either. */
  lemma LiveWithinSize(w: World)
    requires Covered(w)
    ensures w.node.slots[0].live <= |w.node.clients.Keys|
  {
    SubsetSize(Connected(w.node.clients), w.node.clients.Keys);
  }

  lemma {:induction false} SubsetSize<T>(a: set<T>, b: set<T>)
    requires a <= b
    ensures |a| <= |b|
  {
    if a != {} {
      var x :| x in a;
      SubsetSize(a - {x}, b - {x});
    }
  }

  /** What a step of the master does to its slot vector. */
  lemma SlotsStep(w: World, s: Step)
    requires DeviceRuns.Enabled(w, s) && w.node.slots != []
    ensures var was := w.node.slots; var now := DeviceRuns.Apply(w, s).node.slots;
      && |now| == |was| && now[0].expected == was[0].expected && now[0].startTime == was[0].startTime
      && (forall i | 0 < i < |was| :: now[i] == was[i])
      && (now[0].timeToFull == was[0].timeToFull || (was[0].timeToFull == 0 && Total(now) == now[0].expected))
  {
    if !s.Find? && !s.Halt? {
      NodeAfter(w, s);
      CountedSlots(w.node.master, w.node.slots, EffectOf(w.node.running, w.node.clients[Subject(s)], WorkOf(s)).live);
    }
  }

  lemma CountedSlots(master: bool, slots: Slots, change: LiveChange)
    requires slots != []
    ensures var now := Counted(master, slots, change);
      && |now| == |slots| && now[0].expected == slots[0].expected && now[0].startTime == slots[0].startTime
      && (forall i | 0 < i < |slots| :: now[i] == slots[i])
      && (now[0].timeToFull == slots[0].timeToFull || (slots[0].timeToFull == 0 && Total(now) == now[0].expected))
  {
    if change.Raise? {
      StampedSlots(master, slots[0 := slots[0].(live := slots[0].live + 1)], change.now);
    }
  }

  lemma StampedSlots(master: bool, slots: Slots, now: nat)
    requires slots != []
    ensures var after := Stamped(master, slots, now);
      && |after| == |slots| && after[0].expected == slots[0].expected && after[0].startTime == slots[0].startTime
      && Total(after) == Total(slots)
      && (forall i | 0 <= i < |slots| :: after[i].live == slots[i].live)
      && (forall i | 0 < i < |slots| :: after[i] == slots[i])
      && (after[0].timeToFull == slots[0].timeToFull || (slots[0].timeToFull == 0 && Total(after) == after[0].expected))
  {
    TotalUpdate(slots, 0, slots[0].(timeToFull := Minus64(now, slots[0].startTime)));
  }

  /** The guard of CounterRuns for the node that moves. */
  predicate Roomy(c: Cluster, m: Move)
    requires Enabled(c, m)
  {
    m.Local? ==> HasRoom(c.nodes[m.i], m.step)
  }

  predicate AlwaysRoomy(c: Cluster, moves: seq<Move>)
    requires Run(c, moves)
    decreases moves
  {
    moves == [] || (Roomy(c, moves[0]) && AlwaysRoomy(Apply(c, moves[0]), moves[1..]))
  }

  lemma FitsStep(w: World, s: Step, size: nat)
    requires DeviceRuns.Enabled(w, s) && Fits(w, size) && HasRoom(w, s)
    ensures Fits(DeviceRuns.Apply(w, s), size)
  {
    CoveredStep(w, s);
    KeysAfter(w, s);
  }

  lemma MasterSlotsStep(w: World, s: Step, devices: nat, sizes: seq<nat>)
    requires DeviceRuns.Enabled(w, s) && SlotsFit(w.node.slots, devices, sizes)
    requires Fits(DeviceRuns.Apply(w, s), sizes[0])
    ensures SlotsFit(DeviceRuns.Apply(w, s).node.slots, devices, sizes)
  {
    SlotsStep(w, s);
    LiveWithinSize(DeviceRuns.Apply(w, s));
  }

  lemma ReplaceNode(c: Cluster, i: nat, v: World, reports: multiset<(nat, Status)>, devices: nat, sizes: seq<nat>)
    requires Bounded(c, devices, sizes) && i < |sizes| && Fits(v, sizes[i]) && reports <= c.reports
    requires i == 0 ==> SlotsFit(v.node.slots, devices, sizes)
    ensures Bounded(Cluster(c.nodes[i := v], reports), devices, sizes)
  {
    var d := Cluster(c.nodes[i := v], reports);
    forall j | 0 <= j < |sizes| ensures Fits(d.nodes[j], sizes[j]) {
      if j != i { assert d.nodes[j] == c.nodes[j]; }
    }
    forall r <- reports ensures 0 < r.0 < |sizes| && r.1.live <= sizes[r.0] {
      assert r in c.reports;
    }
  }

  lemma LocalMove(c: Cluster, m: Move, devices: nat, sizes: seq<nat>)
    requires Bounded(c, devices, sizes) && Enabled(c, m) && m.Local? && Roomy(c, m)
    ensures Bounded(Apply(c, m), devices, sizes)
  {
    assert Fits(c.nodes[m.i], sizes[m.i]);
    FitsStep(c.nodes[m.i], m.step, sizes[m.i]);
    if m.i == 0 { MasterSlotsStep(c.nodes[0], m.step, devices, sizes); }
    ReplaceNode(c, m.i, DeviceRuns.Apply(c.nodes[m.i], m.step), c.reports, devices, sizes);
  }

  /** Only slot 0 matters to the master's own counter. */
  lemma FitsOtherSlots(w: World, slots: Slots, size: nat)
    requires Fits(w, size) && slots != [] && slots[0].live == w.node.slots[0].live
    ensures Fits(w.(node := w.node.(slots := slots)), size)
  {
  }

  lemma ReportFits(master: bool, slots: Slots, index: nat, status: Status, now: nat, devices: nat, sizes: seq<nat>)
    requires SlotsFit(slots, devices, sizes) && 0 < index < |sizes| && status.live <= sizes[index]
    ensures var after := Reported(master, slots, index, status, now);
      SlotsFit(after, devices, sizes) && after[0].live == slots[0].live
  {
    StampedSlots(master, slots[index := status], now);
  }

  lemma DeliverMove(c: Cluster, m: Move, devices: nat, sizes: seq<nat>)
    requires Bounded(c, devices, sizes) && Enabled(c, m) && m.Deliver?
    ensures Bounded(Apply(c, m), devices, sizes)
  {
    var k := c.nodes[0].node;
    var slots := Reported(k.master, k.slots, m.i, m.status, m.now);
    assert (m.i, m.status) in c.reports;
    ReportFits(k.master, k.slots, m.i, m.status, m.now, devices, sizes);
    FitsOtherSlots(c.nodes[0], slots, sizes[0]);
    ReplaceNode(c, 0, c.nodes[0].(node := k.(slots := slots)), c.reports - multiset{(m.i, m.status)}, devices, sizes);
  }

  lemma SendMove(c: Cluster, m: Move, devices: nat, sizes: seq<nat>)
    requires Bounded(c, devices, sizes) && Enabled(c, m) && m.Send?
    ensures Bounded(Apply(c, m), devices, sizes)
  {
    assert Fits(c.nodes[m.i], sizes[m.i]);
    LiveWithinSize(c.nodes[m.i]);
  }

  lemma BoundedMove(c: Cluster, m: Move, devices: nat, sizes: seq<nat>)
    requires Bounded(c, devices, sizes) && Enabled(c, m) && Roomy(c, m)
    ensures Bounded(Apply(c, m), devices, sizes)
  {
    match m
    case Local(_, _) => LocalMove(c, m, devices, sizes);
    case Send(_) => SendMove(c, m, devices, sizes);
    case Deliver(_, _, _) => DeliverMove(c, m, devices, sizes);
  }

  lemma {:induction false} BoundedRun(c: Cluster, moves: seq<Move>, devices: nat, sizes: seq<nat>)
    requires Bounded(c, devices, sizes) && Run(c, moves) && AlwaysRoomy(c, moves)
    ensures Bounded(After(c, moves), devices, sizes)
    decreases moves
  {
    if moves != [] {
      BoundedMove(c, moves[0], devices, sizes);
      BoundedRun(Apply(c, moves[0]), moves[1..], devices, sizes);
    }
  }

  lemma WithinDevices(devices: nat, services: nat, i: nat)
    requires services + 1 <= devices && i <= services
    ensures PadModulus(devices, services) != 0
    ensures First(devices, services, i) + Size(devices, services, i) <= devices
  {
    PadIsRemainder(devices, services);
    if i > 0 { MinNeverTrims(devices, services, i - 1); }
  }

  lemma StartFits(w: World, macPrefix: string, first: nat, size: nat)
    requires |macPrefix| == 6 && first + size <= DEVICE_SPACE
    requires DeviceRuns.Start(w) && w.node.clients.Keys == Serials(macPrefix, first, first + size)
    ensures Fits(w, size)
  {
    StartIsRight(w);
    SerialsCount(macPrefix, first, first + size);
  }

  lemma StartIsBounded(c: Cluster, macPrefix: string, devices: nat, services: nat)
    requires |macPrefix| == 6 && services + 1 <= devices <= DEVICE_SPACE
    requires PadModulus(devices, services) != 0 && Start(c, macPrefix, devices, services)
    ensures Bounded(c, devices, Sizes(devices, services))
  {
    forall i | 0 <= i <= services ensures Fits(c.nodes[i], Size(devices, services, i)) {
      WithinDevices(devices, services, i);
      StartFits(c.nodes[i], macPrefix, First(devices, services, i), Size(devices, services, i));
    }
  }

  lemma {:induction false} SumOfEqual(sizes: seq<nat>, size: nat)
    requires forall i | 0 <= i < |sizes| :: sizes[i] == size
    ensures Sum(sizes) == |sizes| * size
  {
    if sizes != [] {
      SumOfEqual(sizes[1..], size);
      assert |sizes| * size == (|sizes| - 1) * size + size;
    }
  }

  lemma SizesSum(devices: nat, services: nat)
    requires devices >= services + 1
    ensures PadModulus(devices, services) != 0 && Sum(Sizes(devices, services)) == devices
  {
    PadIsRemainder(devices, services);
    SumOfEqual(Sizes(devices, services)[1..], BatchSize(devices, services));
  }

  lemma {:induction false} TotalWithinSizes(slots: Slots, sizes: seq<nat>)
    requires |slots| == |sizes| && forall i | 0 <= i < |sizes| :: slots[i].live <= sizes[i]
    ensures Total(slots) <= Sum(sizes)
    ensures Total(slots) == Sum(sizes) <==> forall i | 0 <= i < |sizes| :: slots[i].live == sizes[i]
  {
    if slots != [] {
      TotalWithinSizes(slots[1..], sizes[1..]);
      assert forall i | 1 <= i < |sizes| :: slots[i] == slots[1..][i - 1] && sizes[i] == sizes[1..][i - 1];
    }
  }

  /**
   As long as no node counts a client twice (a connection or a Reconnect that finds its client
   connected also finds the counter of its node too low), the master's sum never exceeds the devices of
   the simulation, and it equals them exactly when every slot shows its whole slice live.
   */
  lemma SumAgainstExpected(c: Cluster, moves: seq<Move>, macPrefix: string, devices: nat, services: nat)
    requires |macPrefix| == 6 && services + 1 <= devices <= DEVICE_SPACE
    requires PadModulus(devices, services) != 0 && Start(c, macPrefix, devices, services)
    requires Run(c, moves) && AlwaysRoomy(c, moves)
    ensures After(c, moves).nodes != []
    ensures var slots := After(c, moves).nodes[0].node.slots;
      && |slots| == services + 1 && slots[0].expected == devices
      && Total(slots) <= devices
      && (Total(slots) == devices <==> forall i | 0 <= i <= services :: slots[i].live == Sizes(devices, services)[i])
  {
    StartIsBounded(c, macPrefix, devices, services);
    BoundedRun(c, moves, devices, Sizes(devices, services));
    SizesSum(devices, services);
    TotalWithinSizes(After(c, moves).nodes[0].node.slots, Sizes(devices, services));
  }

  // ---- When the condition is met ----------------------------------------------------------------

  /** No node's counter exceeds its connected clients. */
  predicate AllCovered(c: Cluster)
  {
    forall i | 0 <= i < |c.nodes| :: Covered(c.nodes[i])
  }

  predicate AlwaysAllCovered(c: Cluster, moves: seq<Move>)
    requires Run(c, moves)
    decreases moves
  {
    AllCovered(c) && (moves == [] || AlwaysAllCovered(Apply(c, moves[0]), moves[1..]))
  }

  lemma AllCoveredMove(c: Cluster, m: Move)
    requires AllCovered(c) && Enabled(c, m)
    ensures AllCovered(Apply(c, m)) <==> Roomy(c, m)
  {
    match m
    case Local(i, s) =>
      CoveredStep(c.nodes[i], s);
      assert Apply(c, m).nodes[i] == DeviceRuns.Apply(c.nodes[i], s);
    case Send(_) =>
    case Deliver(i, status, now) =>
      var k := c.nodes[0].node;
      StampedSlots(k.master, if i < |k.slots| then k.slots[i := status] else k.slots, now);
  }

  lemma {:induction false} AllCoveredRun(c: Cluster, moves: seq<Move>)
    requires AllCovered(c) && Run(c, moves)
    ensures AlwaysAllCovered(c, moves) <==> AlwaysRoomy(c, moves)
    decreases moves
  {
    if moves != [] {
      AllCoveredMove(c, moves[0]);
      if AllCovered(Apply(c, moves[0])) {
        AllCoveredRun(Apply(c, moves[0]), moves[1..]);
      }
    }
  }

  /** In every run: no node ever counts more than it has connected iff every move is roomy. */
  lemma CountersAreCoveredIff(c: Cluster, moves: seq<Move>, macPrefix: string, devices: nat, services: nat)
    requires PadModulus(devices, services) != 0 && Start(c, macPrefix, devices, services) && Run(c, moves)
    ensures AlwaysAllCovered(c, moves) <==> AlwaysRoomy(c, moves)
  {
    forall i | 0 <= i < |c.nodes| ensures Covered(c.nodes[i]) {
      StartIsRight(c.nodes[i]);
    }
    AllCoveredRun(c, moves);
  }

  /** On running nodes, callbacks and commands that disconnect a client find it connected. */
  predicate AlwaysTame(c: Cluster, moves: seq<Move>)
    requires Run(c, moves)
    decreases moves
  {
    moves != [] ==>
      && (moves[0].Local? && c.nodes[moves[0].i].node.running ==> ActsOnConnected(c.nodes[moves[0].i], moves[0].step))
      && AlwaysTame(Apply(c, moves[0]), moves[1..])
  }

  predicate HandedOver(w: World)
  {
    w.node.running ==> AtMostOneHand(w)
  }

  lemma HandedOverStep(w: World, s: Step)
    requires DeviceRuns.Enabled(w, s) && HandedOver(w) && (w.node.running ==> ActsOnConnected(w, s))
    ensures HandedOver(DeviceRuns.Apply(w, s)) && HasRoom(w, s)
  {
    if w.node.running {
      AtMostOneHandStep(w, s);
      DisciplineGivesRoom(w, s);
    } else if !s.Halt? {
      RunningStays(w, s);
    }
  }

  lemma SlotsDoNotMatter(w: World, slots: Slots)
    requires HandedOver(w)
    ensures HandedOver(w.(node := w.node.(slots := slots)))
  {
    var v := w.(node := w.node.(slots := slots));
    if v.node.running {
      forall d <- v.node.clients ensures v.node.clients[d].valid && Hands(ShareOf(v, d)) <= 1 {
        assert ShareOf(v, d) == ShareOf(w, d);
      }
    }
  }

  lemma {:induction false} TameRun(c: Cluster, moves: seq<Move>)
    requires Run(c, moves) && AlwaysTame(c, moves)
    requires forall i | 0 <= i < |c.nodes| :: HandedOver(c.nodes[i])
    ensures AlwaysRoomy(c, moves)
    decreases moves
  {
    if moves != [] {
      var m := moves[0];
      match m {
        case Local(i, s) => HandedOverStep(c.nodes[i], s);
        case Send(_) =>
        case Deliver(i, status, now) =>
          var k := c.nodes[0].node;
          SlotsDoNotMatter(c.nodes[0], Reported(k.master, k.slots, i, status, now));
      }
      TameRun(Apply(c, m), moves[1..]);
    }
  }

  /** Disciplined runs are roomy, whether or not nodes are stopped on the way. */
  lemma DisciplineIsRoomy(c: Cluster, moves: seq<Move>, macPrefix: string, devices: nat, services: nat)
    requires PadModulus(devices, services) != 0 && Start(c, macPrefix, devices, services)
    requires Run(c, moves) && AlwaysTame(c, moves)
    ensures AlwaysRoomy(c, moves)
  {
    forall i | 0 <= i < |c.nodes| ensures HandedOver(c.nodes[i]) {
      StartIsOrderly(c.nodes[i]);
    }
    TameRun(c, moves);
  }

  // ---- The stamp --------------------------------------------------------------------------------

  predicate Headed(c: Cluster)
  {
    c.nodes != [] && c.nodes[0].node.slots != []
  }

  function Head(c: Cluster): Status
    requires Headed(c)
  {
    c.nodes[0].node.slots[0]
  }

  function SlotSum(c: Cluster): nat
    requires Headed(c)
  {
    Total(c.nodes[0].node.slots)
  }

  /** In any move at all, timeToFullDevices changes only from zero, and then every expected device is live. */
  lemma StampMove(c: Cluster, m: Move)
    requires Headed(c) && Enabled(c, m)
    ensures Headed(Apply(c, m)) && Head(Apply(c, m)).expected == Head(c).expected
    ensures Head(Apply(c, m)).timeToFull == Head(c).timeToFull
         || (Head(c).timeToFull == 0 && SlotSum(Apply(c, m)) == Head(c).expected)
  {
    match m
    case Local(i, s) => if i == 0 { SlotsStep(c.nodes[0], s); }
    case Send(_) =>
    case Deliver(i, status, now) =>
      var k := c.nodes[0].node;
      if i < |k.slots| { StampedSlots(k.master, k.slots[i := status], now); }
  }

  /** The moment of a move that makes the master compare its sum: a connection of its own or a report. */
  function ComparedAt(c: Cluster, m: Move): Option<nat>
    requires Headed(c) && Enabled(c, m)
  {
    match m
    case Local(i, s) => if i == 0 && Raises(c.nodes[0].node.running, s) then Some(s.now) else None
    case Send(_) => None
    case Deliver(i, _, now) => if i < |c.nodes[0].node.slots| then Some(now) else None
  }

  lemma ConnectionCompares(w: World, s: Step)
    requires DeviceRuns.Enabled(w, s) && w.node.slots != [] && Raises(w.node.running, s)
    ensures DeviceRuns.Apply(w, s).node.slots == Raised(w.node.master, w.node.slots, s.now)
  {
    NodeAfter(w, s);
  }

  lemma StampedHead(slots: Slots, now: nat)
    requires slots != []
    ensures var after := Stamped(true, slots, now);
      && after != [] && Total(after) == Total(slots)
      && after[0].timeToFull == if slots[0].timeToFull == 0 && slots[0].expected == Total(slots)
                                then Minus64(now, slots[0].startTime) else slots[0].timeToFull
  {
    StampedSlots(true, slots, now);
  }

  /** And it is stamped at once: by the very connection or report that makes the sum equal expectedDevices. */
  lemma StampIsPrompt(c: Cluster, m: Move)
    requires Headed(c) && Enabled(c, m) && c.nodes[0].node.master && ComparedAt(c, m).Some?
    ensures Headed(Apply(c, m))
    ensures Head(Apply(c, m)).timeToFull ==
      if Head(c).timeToFull == 0 && SlotSum(Apply(c, m)) == Head(c).expected
      then Minus64(ComparedAt(c, m).value, Head(c).startTime)
      else Head(c).timeToFull
  {
    var slots := c.nodes[0].node.slots;
    if m.Local? {
      ConnectionCompares(c.nodes[0], m.step);
      StampedHead(slots[0 := slots[0].(live := slots[0].live + 1)], m.step.now);
    } else {
      StampedHead(slots[m.i := m.status], m.now);
    }
  }

  /** Once set, timeToFullDevices never changes, in any continuation. */
  lemma {:induction false} StampStays(c: Cluster, moves: seq<Move>)
    requires Headed(c) && Run(c, moves) && Head(c).timeToFull != 0
    ensures Headed(After(c, moves)) && Head(After(c, moves)).timeToFull == Head(c).timeToFull
    decreases moves
  {
    if moves != [] {
      StampMove(c, moves[0]);
      StampStays(Apply(c, moves[0]), moves[1..]);
    }
  }

  lemma {:induction false} ExpectedStays(c: Cluster, moves: seq<Move>)
    requires Headed(c) && Run(c, moves)
    ensures Headed(After(c, moves)) && Head(After(c, moves)).expected == Head(c).expected
    decreases moves
  {
    if moves != [] {
      StampMove(c, moves[0]);
      ExpectedStays(Apply(c, moves[0]), moves[1..]);
    }
  }

  /**
   timeToFullDevices in every run whatsoever: a move sets it only when the sum then equals the devices,
   and what is once set stays.
   */
  lemma TimeToFullDevices(c: Cluster, moves: seq<Move>, m: Move, more: seq<Move>,
                          macPrefix: string, devices: nat, services: nat)
    requires PadModulus(devices, services) != 0 && Start(c, macPrefix, devices, services)
    requires Run(c, moves) && Enabled(After(c, moves), m) && Run(After(c, moves), more)
    ensures var was := After(c, moves); var now := Apply(was, m); var later := After(was, more);
      && Headed(was) && Headed(now) && Headed(later)
      && (Head(now).timeToFull == Head(was).timeToFull || (Head(was).timeToFull == 0 && SlotSum(now) == devices))
      && (Head(was).timeToFull != 0 ==> Head(later).timeToFull == Head(was).timeToFull)
  {
    ExpectedStays(c, moves);
    StampMove(After(c, moves), m);
    ExpectedStays(After(c, moves), more);
    if Head(After(c, moves)).timeToFull != 0 {
      StampStays(After(c, moves), more);
    }
  }

  lemma SerialIn(macPrefix: string, first: nat, end: nat, d: nat)
    requires |macPrefix| == 6 && first <= end <= DEVICE_SPACE && d < DEVICE_SPACE
    ensures Serial(macPrefix, d) in Serials(macPrefix, first, end) <==> first <= d < end
  {
    forall e | first <= e < end ensures Serial(macPrefix, e) == Serial(macPrefix, d) ==> e == d {
      SerialsDistinct(macPrefix, e, d);
    }
  }

  /** A node has the client of device d iff d lies in its range. */
  lemma HasClient(c: Cluster, macPrefix: string, devices: nat, services: nat, i: nat, d: nat)
    requires |macPrefix| == 6 && services + 1 <= devices <= DEVICE_SPACE && d < DEVICE_SPACE && i <= services
    requires PadModulus(devices, services) != 0 && Start(c, macPrefix, devices, services)
    ensures Serial(macPrefix, d) in c.nodes[i].node.clients <==>
      First(devices, services, i) <= d < First(devices, services, i) + Size(devices, services, i)
  {
    WithinDevices(devices, services, i);
    SerialIn(macPrefix, First(devices, services, i), First(devices, services, i) + Size(devices, services, i), d);
    assert Serial(macPrefix, d) in c.nodes[i].node.clients.Keys <==> Serial(macPrefix, d) in c.nodes[i].node.clients;
  }

  /** Node 0 has the clients of the master's share, node i those of the i-th slice. */
  lemma NodeRuns(c: Cluster, macPrefix: string, devices: nat, services: nat, i: nat, d: nat)
    requires |macPrefix| == 6 && services + 1 <= devices <= DEVICE_SPACE && d < DEVICE_SPACE && i <= services
    requires PadModulus(devices, services) != 0 && Start(c, macPrefix, devices, services)
    ensures Serial(macPrefix, d) in c.nodes[i].node.clients <==>
      if i == 0 then d < MasterShare(devices, services) else In(d, RemoteSlices(devices, services)[i - 1])
  {
    HasClient(c, macPrefix, devices, services, i, d);
  }

  /** Every device of the simulation has a client on one node, and no serial number is on two nodes. */
  lemma SerialsOverAllNodes(c: Cluster, macPrefix: string, devices: nat, services: nat, d: nat)
    requires |macPrefix| == 6 && services + 1 <= devices <= DEVICE_SPACE && d < DEVICE_SPACE
    requires PadModulus(devices, services) != 0 && Start(c, macPrefix, devices, services)
    ensures d < devices <==> exists i | 0 <= i <= services :: Serial(macPrefix, d) in c.nodes[i].node.clients
    ensures forall i, j | 0 <= i < j <= services ::
      !(Serial(macPrefix, d) in c.nodes[i].node.clients && Serial(macPrefix, d) in c.nodes[j].node.clients)
  {
    ExactTiling(devices, services, d);
    var slices := RemoteSlices(devices, services);
    forall i | 0 <= i <= services
      ensures Serial(macPrefix, d) in c.nodes[i].node.clients <==>
        if i == 0 then d < MasterShare(devices, services) else In(d, slices[i - 1])
    {
      NodeRuns(c, macPrefix, devices, services, i, d);
    }
    if MasterShare(devices, services) <= d < devices {
      var i :| 0 <= i < services && In(d, slices[i]);
      assert slices[i] == slices[(i + 1) - 1];
      assert Serial(macPrefix, d) in c.nodes[i + 1].node.clients;
    } else if d < devices {
      assert Serial(macPrefix, d) in c.nodes[0].node.clients;
    }
  }

  // ---- When the condition is not met ------------------------------------------------------------

  /** The same steps, taken by node i of a cluster. */
  function OnNode(i: nat, steps: seq<Step>): seq<Move>
  {
    if steps == [] then [] else [Local(i, steps[0])] + OnNode(i, steps[1..])
  }

  lemma {:induction false} NodeRun(c: Cluster, i: nat, steps: seq<Step>)
    requires i < |c.nodes| && DeviceRuns.Run(c.nodes[i], steps)
    ensures Run(c, OnNode(i, steps))
    ensures After(c, OnNode(i, steps)) == c.(nodes := c.nodes[i := DeviceRuns.After(c.nodes[i], steps)])
    decreases steps
  {
    if steps == [] {
      assert c.nodes[i := c.nodes[i]] == c.nodes;
    } else {
      var d := Apply(c, Local(i, steps[0]));
      assert OnNode(i, steps)[1..] == OnNode(i, steps[1..]);
      NodeRun(d, i, steps[1..]);
    }
  }

  /** What a node's own steps do not change in its slots. */
  predicate SameOthers(was: Slots, now: Slots)
  {
    && was != [] && |now| == |was| && now[1..] == was[1..]
    && now[0].expected == was[0].expected && now[0].startTime == was[0].startTime
  }

  lemma {:induction false} SameFrom1(was: Slots, now: Slots)
    requires was != [] && |now| == |was| && forall i | 0 < i < |was| :: now[i] == was[i]
    ensures now[1..] == was[1..]
  {
  }

  lemma OthersStep(w: World, s: Step)
    requires w.node.slots != [] && DeviceRuns.Enabled(w, s)
    ensures SameOthers(w.node.slots, DeviceRuns.Apply(w, s).node.slots)
  {
    SlotsStep(w, s);
    SameFrom1(w.node.slots, DeviceRuns.Apply(w, s).node.slots);
  }

  lemma {:induction false} OthersRun(w: World, steps: seq<Step>)
    requires w.node.slots != [] && DeviceRuns.Run(w, steps)
    ensures SameOthers(w.node.slots, DeviceRuns.After(w, steps).node.slots)
    decreases steps
  {
    if steps != [] {
      OthersStep(w, steps[0]);
      OthersRun(DeviceRuns.Apply(w, steps[0]), steps[1..]);
    }
  }

  lemma {:induction false} MasterStays(w: World, steps: seq<Step>)
    requires DeviceRuns.Run(w, steps)
    ensures DeviceRuns.After(w, steps).node.master == w.node.master
    decreases steps
  {
    if steps != [] {
      if !steps[0].Find? && !steps[0].Halt? { NodeAfter(w, steps[0]); }
      MasterStays(DeviceRuns.Apply(w, steps[0]), steps[1..]);
    }
  }

  lemma {:induction false} NoneLive(slots: Slots)
    requires forall i | 0 <= i < |slots| :: slots[i].live == 0
    ensures Total(slots) == 0
  {
    if slots != [] {
      NoneLive(slots[1..]);
    }
  }

  /** A node whose other slots show nothing live, with one client counted n times at last. */
  lemma {:induction false} NodeCounts(w: World, d: string, n: nat, now: nat) returns (steps: seq<Step>)
    requires DeviceRuns.Start(w) && d in w.node.clients && n >= 1
    requires forall i | 0 <= i < |w.node.slots| :: w.node.slots[i].live == 0
    ensures DeviceRuns.Run(w, steps) && DeviceRuns.Enabled(DeviceRuns.After(w, steps), Connecting(d, n, now))
    ensures var u := DeviceRuns.After(w, steps); var v := DeviceRuns.Apply(u, Connecting(d, n, now));
      && u.node.running && u.node.master == w.node.master && SameOthers(w.node.slots, u.node.slots)
      && v.node.slots != [] && Total(v.node.slots) == n && Truth(v) == 1
  {
    steps := CountedManyTimes(w, d, n, now);
    var u := DeviceRuns.After(w, steps);
    OthersRun(w, steps);
    MasterStays(w, steps);
    OthersStep(u, Connecting(d, n, now));
    RunningStays(u, Connecting(d, n, now));
    NoneLive(w.node.slots[1..]);
  }

  lemma MasterMoves(c: Cluster, steps: seq<Step>, s: Step)
    requires c.nodes != [] && DeviceRuns.Run(c.nodes[0], steps)
    requires DeviceRuns.Enabled(DeviceRuns.After(c.nodes[0], steps), s)
    ensures Run(c, OnNode(0, steps)) && Enabled(After(c, OnNode(0, steps)), Local(0, s))
    ensures After(c, OnNode(0, steps)).nodes == c.nodes[0 := DeviceRuns.After(c.nodes[0], steps)]
    ensures Apply(After(c, OnNode(0, steps)), Local(0, s)).nodes
         == c.nodes[0 := DeviceRuns.Apply(DeviceRuns.After(c.nodes[0], steps), s)]
  {
    NodeRun(c, 0, steps);
    OnceMore(c.nodes, DeviceRuns.After(c.nodes[0], steps), After(c, OnNode(0, steps)), s);
  }

  lemma OnceMore(nodes: seq<World>, u: World, d: Cluster, s: Step)
    requires nodes != [] && d.nodes == nodes[0 := u] && DeviceRuns.Enabled(u, s)
    ensures Enabled(d, Local(0, s)) && Apply(d, Local(0, s)).nodes == nodes[0 := DeviceRuns.Apply(u, s)]
  {
  }

  /** The master's first client. */
  lemma MasterHasAClient(c: Cluster, macPrefix: string, devices: nat, services: nat)
    requires |macPrefix| == 6 && services + 1 <= devices <= DEVICE_SPACE
    requires PadModulus(devices, services) != 0 && Start(c, macPrefix, devices, services)
    ensures Serial(macPrefix, 0) in c.nodes[0].node.clients
  {
    PadIsRemainder(devices, services);
    HasClient(c, macPrefix, devices, services, 0, 0);
  }

  /** What the master's moves do to the cluster, given what they do to the master. */
  lemma MasterMoved(c: Cluster, steps: seq<Step>, d: string, fd: int, now: nat)
    requires Headed(c) && DeviceRuns.Run(c.nodes[0], steps)
    requires DeviceRuns.Enabled(DeviceRuns.After(c.nodes[0], steps), Connecting(d, fd, now))
    requires var u := DeviceRuns.After(c.nodes[0], steps);
      && u.node.running && SameOthers(c.nodes[0].node.slots, u.node.slots)
      && DeviceRuns.Apply(u, Connecting(d, fd, now)).node.slots != []
    ensures Run(c, OnNode(0, steps)) && Enabled(After(c, OnNode(0, steps)), Local(0, Connecting(d, fd, now)))
    ensures var last := Local(0, Connecting(d, fd, now)); var u := After(c, OnNode(0, steps)); var v := Apply(u, last);
      && Headed(u) && Headed(v) && ComparedAt(u, last) == Some(now)
      && Head(u).expected == Head(c).expected && Head(u).startTime == Head(c).startTime
      && u.nodes[0] == DeviceRuns.After(c.nodes[0], steps)
      && v.nodes == c.nodes[0 := DeviceRuns.Apply(u.nodes[0], Connecting(d, fd, now))]
  {
    MasterMoves(c, steps, Connecting(d, fd, now));
  }

  /** The master moves alone and counts one client n times, the last time a second after the start. */
  lemma MasterCounts(c: Cluster, macPrefix: string, devices: nat, services: nat, n: nat)
    returns (moves: seq<Move>, last: Move)
    requires |macPrefix| == 6 && services + 1 <= devices <= DEVICE_SPACE && n >= 1
    requires PadModulus(devices, services) != 0 && Start(c, macPrefix, devices, services)
    ensures Run(c, moves) && Enabled(After(c, moves), last)
    ensures var u := After(c, moves); var v := Apply(u, last);
      && Headed(u) && Headed(v) && Head(u).expected == devices && Head(u).startTime == Head(c).startTime
      && u.nodes[0].node.master == c.nodes[0].node.master && ComparedAt(u, last) == Some(Head(c).startTime + 1)
      && SlotSum(v) == n && Truth(v.nodes[0]) == 1
      && |v.nodes| == |c.nodes| && forall i | 0 < i < |c.nodes| :: v.nodes[i] == c.nodes[i]
  {
    var d, now := Serial(macPrefix, 0), Head(c).startTime + 1;
    MasterHasAClient(c, macPrefix, devices, services);
    var steps := NodeCounts(c.nodes[0], d, n, now);
    MasterMoved(c, steps, d, n, now);
    moves, last := OnNode(0, steps), Local(0, Connecting(d, n, now));
  }

  /** Without the condition the sum can exceed the devices of any simulation, by any amount. */
  lemma SumCanExceed(c: Cluster, macPrefix: string, devices: nat, services: nat, excess: nat)
    returns (moves: seq<Move>, last: Move)
    requires |macPrefix| == 6 && services + 1 <= devices <= DEVICE_SPACE
    requires PadModulus(devices, services) != 0 && Start(c, macPrefix, devices, services)
    ensures Run(c, moves) && Enabled(After(c, moves), last)
    ensures Headed(Apply(After(c, moves), last)) && SlotSum(Apply(After(c, moves), last)) == devices + excess
  {
    moves, last := MasterCounts(c, macPrefix, devices, services, devices + excess);
  }

  /** And timeToFullDevices can be stamped with one single device connected. */
  lemma StampCanBeEarly(c: Cluster, macPrefix: string, devices: nat, services: nat)
    returns (moves: seq<Move>, last: Move)
    requires |macPrefix| == 6 && services + 1 <= devices <= DEVICE_SPACE && c.nodes != [] && c.nodes[0].node.master
    requires PadModulus(devices, services) != 0 && Start(c, macPrefix, devices, services)
    ensures Run(c, moves) && Enabled(After(c, moves), last)
    ensures var v := Apply(After(c, moves), last);
      && Headed(v) && Head(v).timeToFull != 0 && Truth(v.nodes[0]) == 1
      && |v.nodes| == |c.nodes| && forall i | 0 < i < |c.nodes| :: v.nodes[i] == c.nodes[i]
  {
    moves, last := MasterCounts(c, macPrefix, devices, services, devices);
    StampIsPrompt(After(c, moves), last);
  }
}
