/**
 Runs in which an exception takes the last hand of a client, and what becomes of such a client.
 */
module StrandedRuns {
  import opened Devices
  import opened DeviceRuns
  import opened CounterRuns
  import opened StrayRuns

  // ---- An EstablishConnection that throws -------------------------------------------------------

  function Losing(c: string): Step
  {
    Fire(Event(Establish, c), Handshake.Lost, false, 0)
  }

  lemma LosingShift(c: string, was: Share, now: Share)
    requires Shifted(true, Losing(c), was, now)
    ensures now == was.(establish := now.establish) && now.establish + 1 == was.establish
  {
  }

  /** A client whose first event throws is stranded at once. */
  lemma LostStrands(w: World, c: string)
    requires Start(w) && c in w.node.clients
    ensures Run(w, [Losing(c)]) && Disciplined(w, [Losing(c)])
    ensures var v := After(w, [Losing(c)]); v.node.running && c in v.node.clients && Hands(ShareOf(v, c)) == 0
  {
    StartProfile(w, c);
    assert Consumed(Losing(c)) == multiset{};
    OneStep(w, Losing(c));
    LeadsIsRun(w, [Losing(c)], Apply(w, Losing(c)));
    ShareAfter(w, Losing(c), c);
    LosingShift(c, ShareOf(w, c), ShareOf(Apply(w, Losing(c)), c));
    RunningStays(w, Losing(c));
  }

  /** Every EstablishConnection throws, as it does when Poco::URI refuses the gateway of the simulation. */
  predicate GatewayRefused(steps: seq<Step>)
  {
    forall i | 0 <= i < |steps| :: steps[i].Fire? && steps[i].event.kind == Establish ==> steps[i].handshake.Lost?
  }

  /** Nothing but first connections, some of them gone. */
  ghost predicate Untouched(w: World)
  {
    && w.threads == multiset{} && w.node.fdIndex == map[]
    && (forall c <- w.node.clients :: w.node.clients[c] == ClientState(true, false, NO_FD, 0))
    && (forall e :: w.node.pending[e] <= if e.kind == Establish && e.client in w.node.clients then 1 else 0)
  }

  /** All that can happen then are its events and the end. */
  lemma OnlyFires(w: World, s: Step)
    requires Untouched(w) && Enabled(w, s) && !s.Halt?
    ensures s.Fire? && s.event.kind == Establish && w.node.pending[s.event] == 1
  {
    if !s.Fire? && !s.Find? {
      ConsumedThread(s, w.threads);
    }
  }

  lemma LosingNode(w: World, s: Step)
    requires Enabled(w, s) && EndsUnlocked(s)
    ensures Apply(w, s).node == Dequeued(w.node, s)
  {
    NodeAfter(w, s);
    var k := Dequeued(w.node, s);
    assert k.clients[Subject(s) := k.clients[Subject(s)]] == k.clients;
  }

  lemma UntouchedStep(w: World, s: Step)
    requires Untouched(w) && Enabled(w, s) && (s.Fire? && s.event.kind == Establish ==> s.handshake.Lost?)
    ensures s.Halt? || (s.Fire? && s.event.kind == Establish && w.node.pending[s.event] == 1)
    ensures Apply(w, s) == w.(node := if s.Halt? then w.node.(running := false) else Dequeued(w.node, s))
  {
    if !s.Halt? {
      OnlyFires(w, s);
      LosingNode(w, s);
      assert Consumed(s) == multiset{} && Spawned(s) == multiset{};
    }
  }

  predicate Fired(steps: seq<Step>, c: string)
  {
    exists i :: 0 <= i < |steps| && steps[i].Fire? && steps[i].event == Event(Establish, c)
  }

  lemma {:induction false} FiredFrom(steps: seq<Step>, c: string)
    requires steps != []
    ensures Fired(steps, c) <==> (steps[0].Fire? && steps[0].event == Event(Establish, c)) || Fired(steps[1..], c)
  {
    assert forall i | 1 <= i < |steps| :: steps[i] == steps[1..][i - 1];
  }

  lemma {:induction false} RefusedRun(w: World, steps: seq<Step>, c: string)
    requires Run(w, steps) && GatewayRefused(steps) && Untouched(w) && c in w.node.clients
    ensures var v := After(w, steps);
      && Untouched(v) && v.node.slots == w.node.slots && v.node.clients == w.node.clients
      && v.node.pending[Event(Establish, c)] == if Fired(steps, c) then 0 else w.node.pending[Event(Establish, c)]
    decreases steps
  {
    if steps != [] {
      UntouchedStep(w, steps[0]);
      FiredFrom(steps, c);
      assert GatewayRefused(steps[1..]);
      RefusedRun(Apply(w, steps[0]), steps[1..], c);
    }
  }

  /**
   With a gateway that Poco::URI refuses, no run ever connects anybody or counts anything, and a client is
   stranded as soon as its one event has fired.
   */
  lemma RefusedGateway(w: World, steps: seq<Step>, c: string)
    requires Start(w) && Run(w, steps) && GatewayRefused(steps) && c in w.node.clients
    ensures var v := After(w, steps);
      && c in v.node.clients && !v.node.clients[c].connected && v.node.fdIndex == map[] && v.node.slots == w.node.slots
      && Hands(ShareOf(v, c)) == if Fired(steps, c) then 0 else 1
  {
    RefusedRun(w, steps, c);
  }

  // ---- An upgrade that throws -------------------------------------------------------------------

  function Aborting(c: string): Step
  {
    Obey(c, Upgrade(false), Sent)
  }

  lemma AbortMoves(c: string, was: Profile, seen: Profile)
    requires was.share.state.valid && Moved(Aborting(c), was, seen)
    ensures WentDown(was, seen, 0, 0, 0)
  {
  }

  lemma AbortLeads(w: World, c: string) returns (v: World)
    requires Shown(w, c) && ShareOf(w, c).asleep == 0 && w.threads[Ordered(c, Upgrade(false))] > 0
    ensures Enabled(w, Aborting(c)) && v == Apply(w, Aborting(c)) && Leads(w, [Aborting(c)], v) && Shown(v, c)
    ensures WentDown(ProfileOf(w, c), ProfileOf(v, c), 0, 0, 0)
  {
    assert Consumed(Aborting(c)) == multiset{Ordered(c, Upgrade(false))};
    ProfileAfter(w, Aborting(c), c);
    AbortMoves(c, ProfileOf(w, c), ProfileOf(Apply(w, Aborting(c)), c));
    OneStep(w, Aborting(c));
    v := Apply(w, Aborting(c));
  }

  /** A connection, and an upgrade whose uri Poco::URI refuses. */
  function BadUpgrade(c: string): seq<Step>
  {
    Ordering(c) + [Aborting(c)]
  }

  function Ordering(c: string): (steps: seq<Step>)
    ensures NoCuts(steps) && Halt !in steps
  {
    [Connecting(c, 1, 0)] + Receives(c, 1, Upgrade(false))
  }

  // ---- Stranded for good ------------------------------------------------------------------------

  /** No hand, no thread and no descriptor leads to the client. */
  ghost predicate Forgotten(w: World, c: string)
  {
    && c in w.node.clients && Hands(ShareOf(w, c)) == 0
    && (forall t <- w.threads :: t.c != c)
    && (forall fd <- w.node.fdIndex :: w.node.fdIndex[fd] != c)
  }

  /** All that can still happen to it are heartbeats, and they do nothing. */
  lemma ForgottenOn(w: World, s: Step, c: string)
    requires Forgotten(w, c) && Enabled(w, s) && On(s, c)
    ensures s.Fire? && s.event.kind != Establish && s.event.kind != Reconnect
    ensures EffectOf(w.node.running, w.node.clients[c], WorkOf(s)) == NoEffect(w.node.clients[c])
  {
    assert !w.node.clients[c].connected;
    if !s.Fire? {
      ConsumedThread(s, w.threads);
    }
  }

  lemma ConsumedThread(s: Step, threads: multiset<Thread>)
    requires !s.Find? && !s.Halt? && !s.Fire? && Consumed(s) <= threads
    ensures exists t :: t in threads && t.c == s.c
  {
    var t :| t in Consumed(s);
    assert t in threads && t.c == s.c;
  }

  lemma SpawnedThreads(s: Step, t: Thread)
    requires !s.Find? && !s.Halt? && t in Spawned(s)
    ensures !s.Fire? && t.c == s.c
  {
  }

  lemma ForgottenThreads(w: World, s: Step, c: string)
    requires Forgotten(w, c) && Enabled(w, s)
    ensures forall t <- Apply(w, s).threads :: t.c != c
  {
    if !s.Find? && !s.Halt? {
      forall t <- Apply(w, s).threads ensures t.c != c {
        ThreadsAfter(w, s, t);
        if t !in w.threads {
          SpawnedThreads(s, t);
          if On(s, c) { ForgottenOn(w, s, c); }
        }
      }
    }
  }

  lemma ForgottenIndex(w: World, s: Step, c: string)
    requires Forgotten(w, c) && Enabled(w, s)
    ensures forall fd <- Apply(w, s).node.fdIndex :: Apply(w, s).node.fdIndex[fd] != c
  {
    if !s.Find? && !s.Halt? {
      NodeAfter(w, s);
      var e := EffectOf(w.node.running, w.node.clients[Subject(s)], WorkOf(s));
      if On(s, c) { ForgottenOn(w, s, c); }
      IndexedTo(w.node.fdIndex, e.index, Subject(s), c);
    }
  }

  lemma IndexedTo(fdIndex: map<int, string>, change: IndexChange, subject: string, c: string)
    requires forall fd <- fdIndex :: fdIndex[fd] != c
    requires subject == c ==> change.KeepIndex?
    ensures forall fd <- Indexed(fdIndex, change, subject) :: Indexed(fdIndex, change, subject)[fd] != c
  {
  }

  lemma ForgottenStep(w: World, s: Step, c: string)
    requires Forgotten(w, c) && Enabled(w, s)
    ensures Forgotten(Apply(w, s), c)
  {
    ForgottenThreads(w, s, c);
    ForgottenIndex(w, s, c);
    ShareAfter(w, s, c);
    if On(s, c) { ForgottenOn(w, s, c); }
  }

  /** Such a client never connects again, whatever happens. */
  lemma {:induction false} StrandedForGood(w: World, steps: seq<Step>, c: string)
    requires Forgotten(w, c) && Run(w, steps)
    ensures Forgotten(After(w, steps), c) && !After(w, steps).node.clients[c].connected
    decreases steps
  {
    if steps != [] {
      ForgottenStep(w, steps[0], c);
      StrandedForGood(Apply(w, steps[0]), steps[1..], c);
    }
  }

  // ---- The run of a bad upgrade -----------------------------------------------------------------

  lemma AbortCleans(w: World, c: string)
    requires Enabled(w, Aborting(c)) && w.threads == multiset{Ordered(c, Upgrade(false))}
    requires w.node.fdIndex.Keys == {w.node.clients[c].fd} && w.node.clients[c].fd != NO_FD
    ensures Apply(w, Aborting(c)).threads == multiset{} && Apply(w, Aborting(c)).node.fdIndex == map[]
  {
    IndexAfter(w, Aborting(c));
    AbortOnly(w.node.running, w.node.clients[c], c);
  }

  lemma AbortOnly(running: bool, x: ClientState, c: string)
    ensures EffectOf(running, x, WorkOf(Aborting(c))).index == if x.fd == NO_FD then KeepIndex else Forget(x.fd)
    ensures Consumed(Aborting(c)) == multiset{Ordered(c, Upgrade(false))} && Spawned(Aborting(c)) == multiset{}
  {
  }

  lemma NothingLeads(v: World, c: string)
    requires c in v.node.clients && Hands(ShareOf(v, c)) == 0 && v.threads == multiset{} && v.node.fdIndex == map[]
    ensures Forgotten(v, c)
  {
  }

  lemma NoHandLeft(was: Profile, seen: Profile)
    requires WentDown(was, seen, 0, 0, 0) && was.share.state.connected && Hands(was.share) == 1
    ensures Hands(seen.share) == 0
  {
  }

  /** Where the first three steps take a fresh node. */
  lemma BadUpgradeArrives(w: World, c: string) returns (u: World)
    requires Start(w) && c in w.node.clients
    ensures Leads(w, Ordering(c), u) && Shown(u, c) && u.node.clients[c].connected && u.node.clients[c].fd == 1
    ensures u.threads == multiset{Ordered(c, Upgrade(false))} && u.node.fdIndex == map[1 := c]
    ensures Hands(ShareOf(u, c)) == 1 && ShareOf(u, c).asleep == 0
  {
    StartProfile(w, c);
    var t := ConnectLeads(w, c, 1, 0);
    assert t.node.fdIndex == map[1 := c];
    u := ReceivesLeads(t, c, 1, Upgrade(false));
    Chain(w, [Connecting(c, 1, 0)], t, Receives(c, 1, Upgrade(false)), u);
  }

  lemma AbortForgets(u: World, c: string)
    requires Shown(u, c) && u.node.clients[c].connected && u.node.clients[c].fd == 1
    requires u.threads == multiset{Ordered(c, Upgrade(false))} && u.node.fdIndex == map[1 := c]
    requires Hands(ShareOf(u, c)) == 1 && ShareOf(u, c).asleep == 0
    ensures Enabled(u, Aborting(c)) && ActsOnConnected(u, Aborting(c))
    ensures Apply(u, Aborting(c)).node.running && Forgotten(Apply(u, Aborting(c)), c)
  {
    var v := AbortLeads(u, c);
    assert u.node.fdIndex.Keys == {1};
    AbortCleans(u, c);
    NoHandLeft(ProfileOf(u, c), ProfileOf(v, c));
    NothingLeads(v, c);
  }

  /** A disciplined run of four steps strands any client of a fresh node, for good. */
  lemma UpgradeStrands(w: World, c: string)
    requires Start(w) && c in w.node.clients
    ensures Run(w, BadUpgrade(c)) && Disciplined(w, BadUpgrade(c)) && Halt !in BadUpgrade(c)
    ensures After(w, BadUpgrade(c)).node.running && Forgotten(After(w, BadUpgrade(c)), c)
  {
    var u := BadUpgradeArrives(w, c);
    AbortForgets(u, c);
    var v := Apply(u, Aborting(c));
    CutTamely(w, Ordering(c), u, Aborting(c), [], v);
    assert [Aborting(c)] + [] == [Aborting(c)];
    TamelyIsRun(w, BadUpgrade(c), v);
  }

  // ---- Who can come back ------------------------------------------------------------------------

  /** A step that cuts a client off and posts its connection, whether or not it finds it connected. */
  predicate Revives(s: Step)
  {
    (s.Read? && s.frame == Broken) || (s.Obey? && s.answer == Unsent)
  }

  lemma ReviveMoves(s: Step, was: Profile, seen: Profile)
    requires Revives(s) && was.share.state.valid && Moved(s, was, seen)
    ensures seen.share.establish == was.share.establish + 1 && seen.share.asleep == was.share.asleep
  {
  }

  /** Once a connection is pending again, the client can connect. */
  lemma ReviveThenConnect(w: World, s: Step, c: string) returns (steps: seq<Step>)
    requires Shown(w, c) && ShareOf(w, c).asleep == 0 && Enabled(w, s) && Revives(s) && Subject(s) == c
    ensures Run(w, steps) && Shown(After(w, steps), c) && After(w, steps).node.clients[c].connected
  {
    ProfileAfter(w, s, c);
    var u := Apply(w, s);
    ReviveMoves(s, ProfileOf(w, c), ProfileOf(u, c));
    OneStep(w, s);
    var v := ConnectLeads(u, c, 1, 0);
    steps := [s] + [Connecting(c, 1, 0)];
    Chain(w, [s], u, [Connecting(c, 1, 0)], v);
    LeadsIsRun(w, steps, v);
  }

  lemma DropThenConnect(w: World, c: string) returns (steps: seq<Step>)
    requires Shown(w, c) && ShareOf(w, c).asleep == 0 && w.threads[Found(c, ErrorOrShutdown)] > 0
    ensures Run(w, steps) && Shown(After(w, steps), c) && After(w, steps).node.clients[c].connected
  {
    var t := DropLeads(w, c);
    var u := ReconnectLeads(t, c);
    var v := ConnectLeads(u, c, 1, 0);
    Chain(w, [Drop(c)], t, [CallReconnect(c)], u);
    Chain(w, [Drop(c)] + [CallReconnect(c)], u, [Connecting(c, 1, 0)], v);
    steps := [Drop(c)] + [CallReconnect(c)] + [Connecting(c, 1, 0)];
    LeadsIsRun(w, steps, v);
  }

  lemma ThreadRevives(w: World, t: Thread, c: string) returns (steps: seq<Step>)
    requires Shown(w, c) && Hands(ShareOf(w, c)) == 0 && t in w.threads && t.c == c
    ensures Run(w, steps) && Shown(After(w, steps), c) && After(w, steps).node.clients[c].connected
  {
    match t
    case Found(_, Readable) =>
      assert Consumed(Read(c, Broken)) == multiset{t};
      steps := ReviveThenConnect(w, Read(c, Broken), c);
    case Found(_, ErrorOrShutdown) =>
      steps := DropThenConnect(w, c);
    case Ordered(_, command) =>
      assert Consumed(Obey(c, command, Unsent)) == multiset{t};
      steps := ReviveThenConnect(w, Obey(c, command, Unsent), c);
    case Gone(_) => assert false;
    case Asleep(_) => assert false;
  }

  lemma IndexRevives(w: World, fd: int, c: string) returns (steps: seq<Step>)
    requires Shown(w, c) && Hands(ShareOf(w, c)) == 0 && fd in w.node.fdIndex && w.node.fdIndex[fd] == c
    ensures Run(w, steps) && Shown(After(w, steps), c) && After(w, steps).node.clients[c].connected
  {
    var u := FindLeads(w, fd, Readable, c);
    assert Found(c, Readable) in u.threads;
    var rest := ThreadRevives(u, Found(c, Readable), c);
    LeadsIsRun(u, rest, After(u, rest));
    steps := [Find(fd, Readable)] + rest;
    Chain(w, [Find(fd, Readable)], u, rest, After(u, rest));
    LeadsIsRun(w, steps, After(u, rest));
  }

  /** Some run connects the client. */
  ghost predicate CanConnect(w: World, c: string)
  {
    exists steps: seq<Step> ::
      Run(w, steps) && c in After(w, steps).node.clients && After(w, steps).node.clients[c].connected
  }

  /**
   A client in no hand of a running node can connect again iff a thread under way or a stale descriptor
   still leads to it.
   */
  lemma StrandedForGoodIff(w: World, c: string)
    requires Shown(w, c) && Hands(ShareOf(w, c)) == 0
    ensures CanConnect(w, c) <==> !Forgotten(w, c)
  {
    if Forgotten(w, c) {
      forall steps: seq<Step> | Run(w, steps) && c in After(w, steps).node.clients
        ensures !After(w, steps).node.clients[c].connected
      {
        StrandedForGood(w, steps, c);
      }
    } else if t :| t in w.threads && t.c == c {
      var _ := ThreadRevives(w, t, c);
    } else {
      var fd :| fd in w.node.fdIndex && w.node.fdIndex[fd] == c;
      var _ := IndexRevives(w, fd, c);
    }
  }
}
