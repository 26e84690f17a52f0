/**
 Runs in which the live counter of a node goes wrong, step by step from where every run starts.
 */
module StrayRuns {
  import opened Devices
  import opened DeviceRuns
  import opened CounterRuns

  function Connecting(c: string, fd: int, now: nat): Step
  {
    Fire(Event(Establish, c), Opened(fd), false, now)
  }

  function FailingBeat(c: string): Step
  {
    Fire(Event(State, c), Failed, false, 0)
  }

  // ---- Single steps, on the profile of their client ---------------------------------------------

  predicate CameUp(was: Profile, seen: Profile, fd: int)
  {
    && seen.share.state.connected && seen.share.state.fd == fd
    && seen.share.establish + 1 == was.share.establish && seen.share.reconnect == was.share.reconnect
    && seen.share.stats == was.share.stats + 1
    && seen.share.gone == was.share.gone && seen.share.asleep == was.share.asleep
    && seen.live == was.live + 1 && seen.truth == was.truth + AsNat(!was.share.state.connected)
  }

  /** Disconnected, with so many more pending connections, callbacks about to reconnect, and sleepers. */
  predicate WentDown(was: Profile, seen: Profile, establish: nat, gone: nat, asleep: int)
  {
    && !seen.share.state.connected
    && seen.share.establish == was.share.establish + establish && seen.share.reconnect == was.share.reconnect
    && seen.share.gone == was.share.gone + gone && seen.share.asleep == was.share.asleep + asleep
    && seen.live == (if was.live > 0 then was.live - 1 else 0)
    && seen.truth + AsNat(was.share.state.connected) == was.truth
  }

  predicate Cleared(was: Profile, seen: Profile)
  {
    && !seen.share.state.connected
    && seen.share.establish == was.share.establish + 1 && seen.share.asleep == was.share.asleep
    && seen.live == was.live && seen.truth + AsNat(was.share.state.connected) == was.truth
  }

  lemma ConnectMoves(c: string, fd: int, now: nat, was: Profile, seen: Profile)
    requires was.share.state.valid && Moved(Connecting(c, fd, now), was, seen)
    ensures CameUp(was, seen, fd)
  {
  }

  lemma BeatMoves(c: string, was: Profile, seen: Profile)
    requires was.share.state.valid && was.share.state.connected && Moved(FailingBeat(c), was, seen)
    ensures WentDown(was, seen, 1, 0, 0)
  {
  }

  lemma DropMoves(c: string, was: Profile, seen: Profile)
    requires was.share.state.valid && Moved(Drop(c), was, seen)
    ensures WentDown(was, seen, 0, 1, 0)
  {
  }

  lemma ReconnectMoves(c: string, was: Profile, seen: Profile)
    requires was.share.state.valid && Moved(CallReconnect(c), was, seen)
    ensures Cleared(was, seen)
  {
  }

  lemma OrderMoves(c: string, command: Command, was: Profile, seen: Profile)
    requires Moved(Read(c, Order(command)), was, seen)
    ensures seen == was
  {
  }

  lemma RestartMoves(c: string, command: Command, was: Profile, seen: Profile)
    requires was.share.state.valid && Restarts(command) && Moved(Obey(c, command, Sent), was, seen)
    ensures WentDown(was, seen, 0, 0, 1)
  {
  }

  lemma WakeMoves(c: string, was: Profile, seen: Profile)
    requires was.share.state.valid && Moved(Wake(c), was, seen)
    ensures WentDown(was, seen, 1, 0, -1)
  {
  }

  // ---- Single steps, on the world ---------------------------------------------------------------

  /** A scheduled event of this kind can run. */
  lemma FireIsEnabled(w: World, e: Event, handshake: Handshake, now: nat)
    requires e.client in w.node.clients && w.node.pending[e] > 0 && w.threads[Asleep(e.client)] == 0
    ensures var s := Fire(e, handshake, false, now);
      Enabled(w, s) && Apply(w, s).threads == w.threads && Apply(w, s).restarts == w.restarts
  {
    assert Consumed(Fire(e, handshake, false, now)) == multiset{};
  }

  lemma ConnectUp(w: World, c: string, fd: int, now: nat)
    requires Shown(w, c) && ShareOf(w, c).establish > 0 && ShareOf(w, c).asleep == 0
    ensures Enabled(w, Connecting(c, fd, now)) && Shown(Apply(w, Connecting(c, fd, now)), c)
    ensures var v := Apply(w, Connecting(c, fd, now));
      && v.threads == w.threads && v.restarts == w.restarts
      && CameUp(ProfileOf(w, c), ProfileOf(v, c), fd)
  {
    FireIsEnabled(w, Event(Establish, c), Opened(fd), now);
    ProfileAfter(w, Connecting(c, fd, now), c);
    ConnectMoves(c, fd, now, ProfileOf(w, c), ProfileOf(Apply(w, Connecting(c, fd, now)), c));
  }

  lemma ConnectIndexes(w: World, c: string, fd: int, now: nat)
    requires Enabled(w, Connecting(c, fd, now)) && w.node.running
    ensures Apply(w, Connecting(c, fd, now)).node.fdIndex == w.node.fdIndex[fd := c]
  {
    NodeAfter(w, Connecting(c, fd, now));
  }

  lemma FindIt(w: World, fd: int, callback: Callback, c: string)
    requires Shown(w, c) && fd in w.node.fdIndex && w.node.fdIndex[fd] == c
    ensures Enabled(w, Find(fd, callback))
    ensures var v := Apply(w, Find(fd, callback));
      && v.node == w.node && v.restarts == w.restarts && v.threads == w.threads + multiset{Found(c, callback)}
      && Shown(v, c) && ProfileOf(v, c) == ProfileOf(w, c)
  {
  }

  lemma BeatFails(w: World, c: string)
    requires Shown(w, c) && w.node.clients[c].connected && ShareOf(w, c).stats > 0 && ShareOf(w, c).asleep == 0
    ensures Enabled(w, FailingBeat(c)) && Shown(Apply(w, FailingBeat(c)), c)
    ensures var v := Apply(w, FailingBeat(c));
      && v.threads == w.threads && v.restarts == w.restarts
      && WentDown(ProfileOf(w, c), ProfileOf(v, c), 1, 0, 0)
  {
    FireIsEnabled(w, Event(State, c), Failed, 0);
    ProfileAfter(w, FailingBeat(c), c);
    BeatMoves(c, ProfileOf(w, c), ProfileOf(Apply(w, FailingBeat(c)), c));
  }

  lemma DropIt(w: World, c: string)
    requires Shown(w, c) && ShareOf(w, c).asleep == 0 && w.threads[Found(c, ErrorOrShutdown)] > 0
    ensures Enabled(w, Drop(c)) && Shown(Apply(w, Drop(c)), c) && Apply(w, Drop(c)).restarts == w.restarts
    ensures WentDown(ProfileOf(w, c), ProfileOf(Apply(w, Drop(c)), c), 0, 1, 0)
  {
    assert Consumed(Drop(c)) == multiset{Found(c, ErrorOrShutdown)};
    ProfileAfter(w, Drop(c), c);
    DropMoves(c, ProfileOf(w, c), ProfileOf(Apply(w, Drop(c)), c));
  }

  lemma CallIt(w: World, c: string)
    requires Shown(w, c) && ShareOf(w, c).asleep == 0 && ShareOf(w, c).gone > 0
    ensures Enabled(w, CallReconnect(c)) && Shown(Apply(w, CallReconnect(c)), c)
    ensures Cleared(ProfileOf(w, c), ProfileOf(Apply(w, CallReconnect(c)), c))
  {
    assert Consumed(CallReconnect(c)) == multiset{Gone(c)};
    ProfileAfter(w, CallReconnect(c), c);
    ReconnectMoves(c, ProfileOf(w, c), ProfileOf(Apply(w, CallReconnect(c)), c));
  }

  lemma OrderIt(w: World, c: string, command: Command)
    requires Shown(w, c) && ShareOf(w, c).asleep == 0 && w.threads[Found(c, Readable)] > 0
    ensures var s := Read(c, Order(command));
      && Enabled(w, s) && Shown(Apply(w, s), c)
      && Apply(w, s).restarts == w.restarts && Apply(w, s).threads[Ordered(c, command)] > 0
      && ProfileOf(Apply(w, s), c) == ProfileOf(w, c)
  {
    var s := Read(c, Order(command));
    assert Consumed(s) == multiset{Found(c, Readable)};
    assert Spawned(s) == multiset{Ordered(c, command)};
    ThreadsAfter(w, s, Ordered(c, command));
    ProfileAfter(w, s, c);
    OrderMoves(c, command, ProfileOf(w, c), ProfileOf(Apply(w, s), c));
  }

  lemma RestartIt(w: World, c: string, command: Command)
    requires Shown(w, c) && ShareOf(w, c).asleep == 0 && Restarts(command) && w.threads[Ordered(c, command)] > 0
    ensures var s := Obey(c, command, Sent);
      && Enabled(w, s) && Shown(Apply(w, s), c) && Apply(w, s).restarts == w.restarts
      && WentDown(ProfileOf(w, c), ProfileOf(Apply(w, s), c), 0, 0, 1)
  {
    var s := Obey(c, command, Sent);
    assert Consumed(s) == multiset{Ordered(c, command)};
    ProfileAfter(w, s, c);
    RestartMoves(c, command, ProfileOf(w, c), ProfileOf(Apply(w, s), c));
  }

  lemma WakeIt(w: World, c: string)
    requires Shown(w, c) && ShareOf(w, c).asleep > 0
    ensures Enabled(w, Wake(c)) && Shown(Apply(w, Wake(c)), c) && Apply(w, Wake(c)).restarts == w.restarts + 1
    ensures WentDown(ProfileOf(w, c), ProfileOf(Apply(w, Wake(c)), c), 1, 0, -1)
  {
    assert Consumed(Wake(c)) == multiset{Asleep(c)};
    ProfileAfter(w, Wake(c), c);
    WakeMoves(c, ProfileOf(w, c), ProfileOf(Apply(w, Wake(c)), c));
  }

  /** A step on another client. */
  lemma Elsewhere(w: World, s: Step, c: string)
    requires Enabled(w, s) && !s.Find? && !s.Halt? && Subject(s) != c && Shown(w, c)
    ensures Shown(Apply(w, s), c) && ShareOf(Apply(w, s), c) == ShareOf(w, c)
  {
    ShownAfter(w, s, c);
    ShareAfter(w, s, c);
  }

  lemma StartProfile(w: World, c: string)
    requires Start(w) && c in w.node.clients
    ensures Shown(w, c)
    ensures ProfileOf(w, c) == Profile(Share(ClientState(true, false, NO_FD, 0), 1, 0, 0, 0, 0, 0, 0, 0), 0, 0)
  {
    assert Connected(w.node.clients) == {};
  }

  // ---- Putting steps together -------------------------------------------------------------------

  /** A run from w to v. */
  ghost predicate Leads(w: World, steps: seq<Step>, v: World)
    decreases steps
  {
    if steps == [] then v == w else Enabled(w, steps[0]) && Leads(Apply(w, steps[0]), steps[1..], v)
  }

  lemma {:induction false} LeadsIsRun(w: World, steps: seq<Step>, v: World)
    ensures Leads(w, steps, v) <==> Run(w, steps) && After(w, steps) == v
    decreases steps
  {
    if steps != [] && Enabled(w, steps[0]) {
      LeadsIsRun(Apply(w, steps[0]), steps[1..], v);
    }
  }

  lemma OneStep(w: World, s: Step)
    requires Enabled(w, s)
    ensures Leads(w, [s], Apply(w, s))
  {
    assert [s][1..] == [];
  }

  lemma {:induction false} Chain(w: World, first: seq<Step>, u: World, second: seq<Step>, v: World)
    requires Leads(w, first, u) && Leads(u, second, v)
    ensures Leads(w, first + second, v)
    decreases first
  {
    if first == [] {
      assert first + second == second;
    } else {
      assert (first + second)[1..] == first[1..] + second;
      Chain(Apply(w, first[0]), first[1..], u, second, v);
    }
  }

  /** A connected client of a running node as every run leaves it after connecting. */
  predicate Up(w: World, c: string, fd: int)
  {
    && Shown(w, c) && w.node.clients[c].connected && fd in w.node.fdIndex && w.node.fdIndex[fd] == c
    && ShareOf(w, c).stats > 0 && ShareOf(w, c).asleep == 0
  }

  lemma ConnectLeads(w: World, c: string, fd: int, now: nat) returns (v: World)
    requires Shown(w, c) && ShareOf(w, c).establish > 0 && ShareOf(w, c).asleep == 0
    ensures Leads(w, [Connecting(c, fd, now)], v) && v == Apply(w, Connecting(c, fd, now))
    ensures Up(v, c, fd) && CameUp(ProfileOf(w, c), ProfileOf(v, c), fd)
    ensures v.threads == w.threads && v.restarts == w.restarts && v.node.fdIndex == w.node.fdIndex[fd := c]
  {
    ConnectUp(w, c, fd, now);
    ConnectIndexes(w, c, fd, now);
    OneStep(w, Connecting(c, fd, now));
    v := Apply(w, Connecting(c, fd, now));
  }

  lemma FindLeads(w: World, fd: int, callback: Callback, c: string) returns (v: World)
    requires Shown(w, c) && fd in w.node.fdIndex && w.node.fdIndex[fd] == c
    ensures Leads(w, [Find(fd, callback)], v) && Shown(v, c) && ProfileOf(v, c) == ProfileOf(w, c)
    ensures v.threads == w.threads + multiset{Found(c, callback)}
    ensures v.restarts == w.restarts && v.node.fdIndex == w.node.fdIndex
  {
    FindIt(w, fd, callback, c);
    OneStep(w, Find(fd, callback));
    v := Apply(w, Find(fd, callback));
  }

  // ---- A callback overtaken by a heartbeat ------------------------------------------------------

  /** A callback landing on a client that is no longer connected doubles its hands and miscounts. */
  lemma StrayDrop(w: World, c: string)
    requires Shown(w, c) && Enabled(w, Drop(c)) && !w.node.clients[c].connected
    requires Right(w) && Truth(w) >= 1 && Hands(ShareOf(w, c)) == 1
    ensures var v := Apply(w, Drop(c));
      && Shown(v, c) && Hands(ShareOf(v, c)) == 2 && v.node.slots[0].live < Truth(v)
  {
    ProfileAfter(w, Drop(c), c);
    DropMoves(c, ProfileOf(w, c), ProfileOf(Apply(w, Drop(c)), c));
  }

  predicate Overtook(was: Profile, seen: Profile)
  {
    && !seen.share.state.connected
    && seen.share.establish == was.share.establish + 1 && seen.share.reconnect == was.share.reconnect
    && seen.share.gone == was.share.gone + 1 && seen.share.asleep == was.share.asleep
    && seen.live == (if was.live > 1 then was.live - 2 else 0) && seen.truth + 1 == was.truth
  }

  lemma DownTwice(was: Profile, mid: Profile, seen: Profile)
    requires WentDown(was, mid, 1, 0, 0) && WentDown(mid, seen, 0, 1, 0) && was.share.state.connected
    ensures Overtook(was, seen)
  {
  }

  lemma BeatLeads(w: World, c: string) returns (v: World)
    requires Shown(w, c) && w.node.clients[c].connected && ShareOf(w, c).stats > 0 && ShareOf(w, c).asleep == 0
    ensures Leads(w, [FailingBeat(c)], v) && Shown(v, c) && WentDown(ProfileOf(w, c), ProfileOf(v, c), 1, 0, 0)
    ensures v.threads == w.threads && v.restarts == w.restarts
  {
    BeatFails(w, c);
    OneStep(w, FailingBeat(c));
    v := Apply(w, FailingBeat(c));
  }

  lemma DropLeads(w: World, c: string) returns (v: World)
    requires Shown(w, c) && ShareOf(w, c).asleep == 0 && w.threads[Found(c, ErrorOrShutdown)] > 0
    ensures Leads(w, [Drop(c)], v) && Shown(v, c) && WentDown(ProfileOf(w, c), ProfileOf(v, c), 0, 1, 0)
    ensures v.restarts == w.restarts
  {
    DropIt(w, c);
    OneStep(w, Drop(c));
    v := Apply(w, Drop(c));
  }

  /** A failed heartbeat, then a callback that found the client before it. */
  lemma BeatThenDrop(w: World, c: string) returns (v: World)
    requires Shown(w, c) && w.node.clients[c].connected && ShareOf(w, c).stats > 0 && ShareOf(w, c).asleep == 0
    requires w.threads[Found(c, ErrorOrShutdown)] > 0
    ensures Leads(w, [FailingBeat(c)] + [Drop(c)], v) && Shown(v, c) && v.restarts == w.restarts
    ensures Overtook(ProfileOf(w, c), ProfileOf(v, c))
  {
    var u := BeatLeads(w, c);
    v := DropLeads(u, c);
    DownTwice(ProfileOf(w, c), ProfileOf(u, c), ProfileOf(v, c));
    Chain(w, [FailingBeat(c)], u, [Drop(c)], v);
  }

  /** A socket error finds its client, a heartbeat fails, the callback drops what is gone already. */
  function Overtaken(c: string, fd: int): seq<Step>
  {
    [Find(fd, ErrorOrShutdown)] + ([FailingBeat(c)] + [Drop(c)])
  }

  lemma OvertakenLeads(w: World, c: string, fd: int) returns (v: World)
    requires Up(w, c, fd)
    ensures Leads(w, Overtaken(c, fd), v) && Shown(v, c) && v.restarts == w.restarts
    ensures Overtook(ProfileOf(w, c), ProfileOf(v, c))
  {
    var u := FindLeads(w, fd, ErrorOrShutdown, c);
    v := BeatThenDrop(u, c);
    Chain(w, [Find(fd, ErrorOrShutdown)], u, [FailingBeat(c)] + [Drop(c)], v);
  }

  predicate TwoHandsTooLow(v: World, c: string)
  {
    Shown(v, c) && Hands(ShareOf(v, c)) == 2 && v.node.slots[0].live < Truth(v)
  }

  lemma OvertookMiscounts(was: Profile, seen: Profile)
    requires Overtook(was, seen) && was.share.state.connected && Hands(was.share) == 1 && was.live == was.truth >= 2
    ensures Hands(seen.share) == 2 && seen.live < seen.truth
  {
  }

  /**
   From every state with the counter right and two clients connected, a socket error overtaken by a
   failed heartbeat of the same client leaves that client in two hands and the counter below the
   number of connected clients.
   */
  lemma UndisciplinedRun(w: World, c: string, fd: int)
    requires Up(w, c, fd) && Hands(ShareOf(w, c)) == 1 && Right(w) && Truth(w) >= 2
    ensures Run(w, Overtaken(c, fd)) && TwoHandsTooLow(After(w, Overtaken(c, fd)), c)
  {
    var v := OvertakenLeads(w, c, fd);
    OvertookMiscounts(ProfileOf(w, c), ProfileOf(v, c));
    LeadsIsRun(w, Overtaken(c, fd), v);
  }

  /** A connection next to another client, of whom it changes nothing. */
  lemma ConnectBeside(w: World, c: string, fd: int, other: string) returns (v: World)
    requires Shown(w, c) && ShareOf(w, c).establish > 0 && ShareOf(w, c).asleep == 0
    requires Shown(w, other) && other != c
    ensures Leads(w, [Connecting(c, fd, 0)], v)
    ensures Up(v, c, fd) && CameUp(ProfileOf(w, c), ProfileOf(v, c), fd)
    ensures v.restarts == w.restarts && v.node.fdIndex == w.node.fdIndex[fd := c]
    ensures Shown(v, other) && ShareOf(v, other) == ShareOf(w, other)
  {
    v := ConnectLeads(w, c, fd, 0);
    Elsewhere(w, Connecting(c, fd, 0), other);
  }

  /** Where two successful connections take a fresh node. */
  lemma TwoUp(w: World, a: string, b: string) returns (u: World, v: World)
    requires Start(w) && a in w.node.clients && b in w.node.clients && a != b
    ensures Leads(w, [Connecting(a, 1, 0)], u) && Leads(u, [Connecting(b, 2, 0)], v)
    ensures Up(v, a, 1) && Hands(ShareOf(v, a)) == 1 && v.restarts == 0
    ensures ProfileOf(v, a).live == 2 && ProfileOf(v, a).truth == 2
  {
    StartProfile(w, a);
    StartProfile(w, b);
    u := ConnectBeside(w, a, 1, b);
    v := ConnectBeside(u, b, 2, a);
  }

  /** Two connections, then a callback overtaken. */
  function Undisciplined(a: string, b: string): (steps: seq<Step>)
    ensures |steps| == 5
  {
    [Connecting(a, 1, 0)] + ([Connecting(b, 2, 0)] + Overtaken(a, 1))
  }

  lemma OvertakenAfter(w: World, first: seq<Step>, u: World, c: string, fd: int) returns (v: World)
    requires Leads(w, first, u) && Up(u, c, fd)
    ensures Leads(w, first + Overtaken(c, fd), v) && Shown(v, c) && v.restarts == u.restarts
    ensures Overtook(ProfileOf(u, c), ProfileOf(v, c))
  {
    v := OvertakenLeads(u, c, fd);
    Chain(w, first, u, Overtaken(c, fd), v);
  }

  lemma UndisciplinedLeads(w: World, a: string, b: string) returns (v: World)
    requires Start(w) && a in w.node.clients && b in w.node.clients && a != b
    ensures Leads(w, [Connecting(a, 1, 0)] + ([Connecting(b, 2, 0)] + Overtaken(a, 1)), v)
    ensures TwoHandsTooLow(v, a) && v.restarts == 0
  {
    var t, u := TwoUp(w, a, b);
    v := OvertakenAfter(t, [Connecting(b, 2, 0)], u, a, 1);
    OvertookMiscounts(ProfileOf(u, a), ProfileOf(v, a));
    Chain(w, [Connecting(a, 1, 0)], t, [Connecting(b, 2, 0)] + Overtaken(a, 1), v);
  }

  /**
   Discipline cannot be dropped: every node with two clients has a run of five steps, without any
   restart, that puts a client in two hands and leaves the counter too low.
   */
  lemma DisciplineIsNeeded(w: World, a: string, b: string)
    requires Start(w) && a in w.node.clients && b in w.node.clients && a != b
    ensures Run(w, Undisciplined(a, b))
    ensures var v := After(w, Undisciplined(a, b)); TwoHandsTooLow(v, a) && v.restarts == 0
  {
    var v := UndisciplinedLeads(w, a, b);
    LeadsIsRun(w, Undisciplined(a, b), v);
  }

  // ---- A restart --------------------------------------------------------------------------------

  lemma IndexAfter(w: World, s: Step)
    requires Enabled(w, s) && !s.Find? && !s.Halt?
    ensures var e := EffectOf(w.node.running, w.node.clients[Subject(s)], WorkOf(s));
      && Apply(w, s).node.fdIndex == Indexed(w.node.fdIndex, e.index, Subject(s))
      && Apply(w, s).threads == w.threads - Consumed(s) + Spawned(s)
  {
    NodeAfter(w, s);
  }

  lemma OrderOnly(s: ClientState, c: string, command: Command, running: bool)
    ensures var step := Read(c, Order(command));
      && EffectOf(running, s, WorkOf(step)).index == KeepIndex
      && Consumed(step) == multiset{Found(c, Readable)} && Spawned(step) == multiset{Ordered(c, command)}
  {
  }

  lemma OrderIsQuiet(w: World, c: string, command: Command)
    requires Enabled(w, Read(c, Order(command)))
    ensures var v := Apply(w, Read(c, Order(command)));
      && v.threads == w.threads - multiset{Found(c, Readable)} + multiset{Ordered(c, command)}
      && v.node.fdIndex == w.node.fdIndex
  {
    OrderOnly(w.node.clients[c], c, command, w.node.running);
    IndexAfter(w, Read(c, Order(command)));
  }

  lemma OrderLeads(w: World, c: string, command: Command) returns (v: World)
    requires Shown(w, c) && ShareOf(w, c).asleep == 0 && w.threads[Found(c, Readable)] > 0
    ensures Leads(w, [Read(c, Order(command))], v) && Shown(v, c) && ProfileOf(v, c) == ProfileOf(w, c)
    ensures v.threads == w.threads - multiset{Found(c, Readable)} + multiset{Ordered(c, command)}
    ensures v.restarts == w.restarts && v.node.fdIndex == w.node.fdIndex
  {
    OrderIt(w, c, command);
    OrderIsQuiet(w, c, command);
    OneStep(w, Read(c, Order(command)));
    v := Apply(w, Read(c, Order(command)));
  }

  /** A callback finds a client and reads a command from it, which is spawned. */
  function Receives(c: string, fd: int, command: Command): seq<Step>
  {
    [Find(fd, Readable)] + [Read(c, Order(command))]
  }

  lemma ReceivesLeads(w: World, c: string, fd: int, command: Command) returns (v: World)
    requires Up(w, c, fd)
    ensures Leads(w, Receives(c, fd, command), v) && Shown(v, c) && ProfileOf(v, c) == ProfileOf(w, c)
    ensures v.threads == w.threads + multiset{Ordered(c, command)}
    ensures v.restarts == w.restarts && v.node.fdIndex == w.node.fdIndex
  {
    var u := FindLeads(w, fd, Readable, c);
    v := OrderLeads(u, c, command);
    Chain(w, [Find(fd, Readable)], u, [Read(c, Order(command))], v);
  }

  /** Two connections, then a command for one of the clients. */
  function Prologue(a: string, b: string, command: Command): seq<Step>
  {
    [Connecting(a, 1, 0)] + ([Connecting(b, 2, 0)] + Receives(a, 1, command))
  }

  lemma PrologueLeads(w: World, a: string, b: string, command: Command) returns (v: World)
    requires Start(w) && a in w.node.clients && b in w.node.clients && a != b
    ensures Leads(w, Prologue(a, b, command), v) && Shown(v, a) && v.node.clients[a].connected && v.restarts == 0
    ensures ShareOf(v, a).asleep == 0 && v.threads[Ordered(a, command)] > 0
    ensures ProfileOf(v, a).live == 2 && ProfileOf(v, a).truth == 2
  {
    var t, u := TwoUp(w, a, b);
    v := ReceivesLeads(u, a, 1, command);
    Chain(t, [Connecting(b, 2, 0)], u, Receives(a, 1, command), v);
    Chain(w, [Connecting(a, 1, 0)], t, [Connecting(b, 2, 0)] + Receives(a, 1, command), v);
  }

  lemma WakeLeads(w: World, c: string) returns (v: World)
    requires Shown(w, c) && ShareOf(w, c).asleep > 0
    ensures Leads(w, [Wake(c)], v) && Shown(v, c) && v.restarts == w.restarts + 1
    ensures WentDown(ProfileOf(w, c), ProfileOf(v, c), 1, 0, -1)
  {
    WakeIt(w, c);
    OneStep(w, Wake(c));
    v := Apply(w, Wake(c));
  }

  /** Two taken off the counter for one client. */
  predicate CountedOff(was: Profile, seen: Profile)
  {
    seen.live == (if was.live > 1 then was.live - 2 else 0) && seen.truth + 1 == was.truth
  }

  lemma RestartDownTwice(was: Profile, mid: Profile, seen: Profile)
    requires WentDown(was, mid, 0, 0, 1) && WentDown(mid, seen, 1, 0, -1) && was.share.state.connected
    ensures CountedOff(was, seen)
  {
  }

  lemma RestartLeads(w: World, c: string, command: Command) returns (v: World)
    requires Shown(w, c) && w.node.clients[c].connected && ShareOf(w, c).asleep == 0
    requires Restarts(command) && w.threads[Ordered(c, command)] > 0
    ensures Enabled(w, Obey(c, command, Sent)) && Leads(Apply(w, Obey(c, command, Sent)), [Wake(c)], v)
    ensures Shown(v, c) && v.restarts == w.restarts + 1 && CountedOff(ProfileOf(w, c), ProfileOf(v, c))
  {
    RestartIt(w, c, command);
    var u := Apply(w, Obey(c, command, Sent));
    v := WakeLeads(u, c);
    RestartDownTwice(ProfileOf(w, c), ProfileOf(u, c), ProfileOf(v, c));
  }

  predicate NoCuts(steps: seq<Step>)
  {
    forall i | 0 <= i < |steps| :: !Cuts(steps[i])
  }

  /** A disciplined run from w to v. */
  ghost predicate Tamely(w: World, steps: seq<Step>, v: World)
    decreases steps
  {
    if steps == [] then v == w
    else Enabled(w, steps[0]) && ActsOnConnected(w, steps[0]) && Tamely(Apply(w, steps[0]), steps[1..], v)
  }

  lemma {:induction false} TamelyIsRun(w: World, steps: seq<Step>, v: World)
    requires Tamely(w, steps, v)
    ensures Run(w, steps) && After(w, steps) == v && Disciplined(w, steps)
    decreases steps
  {
    if steps != [] {
      TamelyIsRun(Apply(w, steps[0]), steps[1..], v);
    }
  }

  lemma {:induction false} NoCutsTamely(w: World, steps: seq<Step>, v: World)
    requires Leads(w, steps, v) && NoCuts(steps)
    ensures Tamely(w, steps, v)
    decreases steps
  {
    if steps != [] {
      NoCutsTamely(Apply(w, steps[0]), steps[1..], v);
    }
  }

  lemma {:induction false} TamelyChain(w: World, first: seq<Step>, u: World, second: seq<Step>, v: World)
    requires Tamely(w, first, u) && Tamely(u, second, v)
    ensures Tamely(w, first + second, v)
    decreases first
  {
    if first == [] {
      assert first + second == second;
    } else {
      assert (first + second)[1..] == first[1..] + second;
      TamelyChain(Apply(w, first[0]), first[1..], u, second, v);
    }
  }

  /** A cut that finds its client connected, after and before steps that cut nobody off. */
  lemma CutTamely(w: World, first: seq<Step>, u: World, s: Step, last: seq<Step>, v: World)
    requires Leads(w, first, u) && NoCuts(first) && Enabled(u, s) && ActsOnConnected(u, s)
    requires Leads(Apply(u, s), last, v) && NoCuts(last)
    ensures Tamely(w, first + ([s] + last), v)
  {
    NoCutsTamely(w, first, u);
    NoCutsTamely(Apply(u, s), last, v);
    assert ([s] + last)[1..] == last;
    TamelyChain(w, first, u, [s] + last, v);
  }

  lemma PrologueIsTame(a: string, b: string, command: Command)
    ensures NoCuts(Prologue(a, b, command)) && Halt !in Prologue(a, b, command)
  {
  }

  /** The command is carried out, and the node not stopped. */
  predicate CarriesOut(steps: seq<Step>, c: string, command: Command)
  {
    Halt !in steps && Obey(c, command, Sent) in steps && Wake(c) in steps
  }

  lemma RestartAppended(first: seq<Step>, c: string, command: Command)
    requires Halt !in first
    ensures CarriesOut(first + ([Obey(c, command, Sent)] + [Wake(c)]), c, command)
  {
  }

  lemma RestartAfter(w: World, first: seq<Step>, u: World, c: string, command: Command)
    returns (steps: seq<Step>, v: World)
    requires Leads(w, first, u) && NoCuts(first) && Halt !in first && Restarts(command)
    requires Shown(u, c) && u.node.clients[c].connected && ShareOf(u, c).asleep == 0
    requires u.threads[Ordered(c, command)] > 0
    ensures CarriesOut(steps, c, command) && Tamely(w, steps, v)
    ensures Shown(v, c) && v.restarts == u.restarts + 1 && CountedOff(ProfileOf(u, c), ProfileOf(v, c))
  {
    v := RestartLeads(u, c, command);
    CutTamely(w, first, u, Obey(c, command, Sent), [Wake(c)], v);
    RestartAppended(first, c, command);
    steps := first + ([Obey(c, command, Sent)] + [Wake(c)]);
  }

  /** Some run brings a command to one of two connected clients. */
  lemma CommandArrives(w: World, a: string, b: string, command: Command) returns (steps: seq<Step>, v: World)
    requires Start(w) && a in w.node.clients && b in w.node.clients && a != b
    ensures Leads(w, steps, v) && NoCuts(steps) && Halt !in steps
    ensures Shown(v, a) && v.node.clients[a].connected && v.restarts == 0
    ensures ShareOf(v, a).asleep == 0 && v.threads[Ordered(a, command)] > 0
    ensures ProfileOf(v, a).live == 2 && ProfileOf(v, a).truth == 2
  {
    PrologueIsTame(a, b, command);
    steps := Prologue(a, b, command);
    v := PrologueLeads(w, a, b, command);
  }

  /**
   A restart miscounts even in a disciplined run: every node with two clients has one in which a single
   reboot, upgrade or factory reset leaves the counter one below the connected clients, as low as one
   restart can take it.
   */
  lemma RestartMiscounts(w: World, a: string, b: string, command: Command) returns (steps: seq<Step>)
    requires Start(w) && a in w.node.clients && b in w.node.clients && a != b
    requires command in {Reboot, Upgrade(true), Factory}
    ensures CarriesOut(steps, a, command) && Run(w, steps) && Disciplined(w, steps)
    ensures var v := After(w, steps);
      v.restarts == 1 && v.node.slots != [] && v.node.slots[0].live + 1 == Truth(v)
  {
    var first, u := CommandArrives(w, a, b, command);
    var v;
    steps, v := RestartAfter(w, first, u, a, command);
    TamelyIsRun(w, steps, v);
    assert ProfileOf(v, a).live == 0 && ProfileOf(v, a).truth == 1;
  }

  // ---- One client counted many times ------------------------------------------------------------

  predicate Idle(w: World, c: string, pending: nat)
  {
    && Shown(w, c) && !w.node.clients[c].connected && w.node.slots[0].live == 0 && Truth(w) == 0
    && ShareOf(w, c).establish == pending && ShareOf(w, c).asleep == 0
  }

  lemma ReconnectLeads(w: World, c: string) returns (v: World)
    requires Shown(w, c) && ShareOf(w, c).asleep == 0 && ShareOf(w, c).gone > 0
    ensures Leads(w, [CallReconnect(c)], v) && Shown(v, c) && Cleared(ProfileOf(w, c), ProfileOf(v, c))
  {
    CallIt(w, c);
    OneStep(w, CallReconnect(c));
    v := Apply(w, CallReconnect(c));
  }

  /** A connection, a callback overtaken, and its Reconnect: one more connection is pending than before. */
  lemma CycleLeads(w: World, c: string, pending: nat) returns (steps: seq<Step>, v: World)
    requires Idle(w, c, pending) && pending > 0
    ensures Leads(w, steps, v) && Idle(v, c, pending + 1)
  {
    var t := ConnectLeads(w, c, 1, 0);
    var u := OvertakenLeads(t, c, 1);
    v := ReconnectLeads(u, c);
    Chain(t, Overtaken(c, 1), u, [CallReconnect(c)], v);
    Chain(w, [Connecting(c, 1, 0)], t, Overtaken(c, 1) + [CallReconnect(c)], v);
    steps := [Connecting(c, 1, 0)] + (Overtaken(c, 1) + [CallReconnect(c)]);
  }

  lemma {:induction false} CyclesLead(w: World, c: string, pending: nat, n: nat) returns (steps: seq<Step>, v: World)
    requires Idle(w, c, pending) && pending > 0
    ensures Leads(w, steps, v) && Idle(v, c, pending + n)
    decreases n
  {
    if n == 0 {
      steps, v := [], w;
    } else {
      var first, u := CycleLeads(w, c, pending);
      var rest;
      rest, v := CyclesLead(u, c, pending + 1, n - 1);
      Chain(w, first, u, rest, v);
      steps := first + rest;
    }
  }

  /** All pending connections but the last come up, one after the other. */
  lemma {:induction false} ConnectionsLead(w: World, c: string, pending: nat, n: nat)
    returns (steps: seq<Step>, v: World)
    requires Idle(w, c, pending) && n < pending
    ensures Leads(w, steps, v) && Shown(v, c) && ShareOf(v, c).asleep == 0 && ShareOf(v, c).establish == pending - n
    ensures v.node.slots[0].live == n && Truth(v) == AsNat(n > 0) && v.node.clients[c].connected == (n > 0)
    decreases n
  {
    if n == 0 {
      steps, v := [], w;
    } else {
      var first, u := ConnectionsLead(w, c, pending, n - 1);
      v := ConnectLeads(u, c, n, 0);
      Chain(w, first, u, [Connecting(c, n, 0)], v);
      steps := first + [Connecting(c, n, 0)];
    }
  }

  lemma BeforeTheLast(w: World, c: string, n: nat) returns (steps: seq<Step>, v: World)
    requires Start(w) && c in w.node.clients && n >= 1
    ensures Leads(w, steps, v) && Shown(v, c) && ShareOf(v, c).asleep == 0 && ShareOf(v, c).establish == 1
    ensures v.node.slots[0].live == n - 1 && Truth(v) == AsNat(n > 1) && v.node.clients[c].connected == (n > 1)
  {
    StartProfile(w, c);
    var first, u := CyclesLead(w, c, 1, n - 1);
    var rest;
    rest, v := ConnectionsLead(u, c, n, n - 1);
    Chain(w, first, u, rest, v);
    steps := first + rest;
  }

  /**
   The counter can exceed the connected clients by any amount: on every fresh node each client has,
   for every n, a run that ends with its connection at time `now` and after which it counts for n.
   */
  lemma CountedManyTimes(w: World, c: string, n: nat, now: nat) returns (steps: seq<Step>)
    requires Start(w) && c in w.node.clients && n >= 1
    ensures Run(w, steps) && Enabled(After(w, steps), Connecting(c, n, now))
    ensures var u := After(w, steps); var v := Apply(u, Connecting(c, n, now));
      && u.node.slots != [] && u.node.slots[0].live == n - 1
      && Shown(v, c) && v.node.slots[0].live == n && Truth(v) == 1
  {
    var u;
    steps, u := BeforeTheLast(w, c, n);
    LeadsIsRun(w, steps, u);
    var v := ConnectLeads(u, c, n, now);
    ConnectUp(u, c, n, now);
  }
}
