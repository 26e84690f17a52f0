/**
 What every outcome of every step does, said outright: the client's fields, the descriptor index, the
 pending events, the threads under way and the live counter, before and after.
 */
module StepLaws {
  import opened Stats
  import opened Devices
  import opened DeviceRuns

  // ---- The vocabulary ---------------------------------------------------------------------------

  /** The events gone from the scheduler and those new in it; everything else around the client is kept. */
  predicate Moved(w: World, v: World, gone: multiset<Event>, posted: multiset<Event>)
  {
    && v.node.master == w.node.master && v.node.running == w.node.running
    && v.node.pending == w.node.pending - gone + posted
  }

  predicate SameThreads(w: World, v: World)
  {
    v.threads == w.threads
  }

  /** Neither client nor index nor counter change. */
  predicate Untouched(w: World, v: World)
  {
    v.node.clients == w.node.clients && v.node.fdIndex == w.node.fdIndex && v.node.slots == w.node.slots
  }

  /** The delay in the source's words: it doubles, and falls back to 15 once it is past 300. */
  function Delay(backoff: nat): nat
  {
    if backoff > 300 then 15 else backoff + backoff
  }

  /** One live device less in slot 0, if there is one; nothing else in the slots changes. */
  predicate CountsOneLess(was: Slots, now: Slots)
  {
    && |now| == |was|
    && (forall i | 1 <= i < |was| :: now[i] == was[i])
    && (was != [] ==> now[0] == was[0].(live := if was[0].live == 0 then 0 else was[0].live - 1))
  }

  /** The client is without connection and descriptor, its index entry is gone, and it is counted off. */
  predicate CutOff(w: World, v: World, c: string, backoff: nat)
    requires c in w.node.clients
  {
    var x := w.node.clients[c];
    && v.node.clients == w.node.clients[c := ClientState(x.valid, false, -1, backoff)]
    && v.node.fdIndex == (if x.fd == -1 then w.node.fdIndex else w.node.fdIndex - {x.fd})
    && CountsOneLess(w.node.slots, v.node.slots)
  }

  /** Cut off, and to be connected again. */
  predicate DroppedOut(w: World, v: World, c: string, gone: multiset<Event>)
    requires c in w.node.clients
  {
    && CutOff(w, v, c, Delay(w.node.clients[c].backoff))
    && Moved(w, v, gone, multiset{Event(Establish, c)})
  }

  lemma SameClient(clients: map<string, ClientState>, c: string)
    requires c in clients
    ensures clients[c := clients[c]] == clients
  {
  }

  function Unscheduled(s: Step): multiset<Event>
  {
    if s.Fire? then multiset{s.event} else multiset{}
  }

  /** What a step with a given effect leaves. */
  lemma Enacted(w: World, s: Step, e: Effect)
    requires Enabled(w, s) && !s.Find? && !s.Halt?
    requires EffectOf(w.node.running, w.node.clients[Subject(s)], WorkOf(s)) == e
    ensures var v := Apply(w, s);
      && v.node.clients == w.node.clients[Subject(s) := e.client]
      && v.node.fdIndex == Indexed(w.node.fdIndex, e.index, Subject(s))
      && v.node.slots == Counted(w.node.master, w.node.slots, e.live)
      && Moved(w, v, Unscheduled(s), Posted(e.posts, Subject(s)))
      && v.threads == w.threads - Consumed(s) + Spawned(s)
  {
    NodeAfter(w, s);
  }

  /** A step without effect on its client. */
  lemma NoEffectStep(w: World, s: Step)
    requires Enabled(w, s) && !s.Find? && !s.Halt?
    requires EffectOf(w.node.running, w.node.clients[Subject(s)], WorkOf(s)) == NoEffect(w.node.clients[Subject(s)])
    ensures var v := Apply(w, s);
      && Untouched(w, v) && Moved(w, v, Unscheduled(s), multiset{}) && (!s.Fire? ==> v.node == w.node)
      && v.threads == w.threads - Consumed(s) + Spawned(s)
  {
    Enacted(w, s, NoEffect(w.node.clients[Subject(s)]));
    SameClient(w.node.clients, Subject(s));
  }

  lemma LoweredCounts(slots: Slots)
    ensures CountsOneLess(slots, Lowered(slots))
  {
  }

  lemma DropOutSaid(x: ClientState)
    requires x.valid
    ensures DropOutEffect(true, x) == Effect(ClientState(true, false, -1, Delay(x.backoff)),
                                             if x.fd == -1 then KeepIndex else Forget(x.fd), One(Establish), Lower)
  {
  }

  lemma DropOutStep(w: World, s: Step)
    requires Enabled(w, s) && !s.Find? && !s.Halt? && w.node.clients[Subject(s)].valid
    requires EffectOf(w.node.running, w.node.clients[Subject(s)], WorkOf(s))
          == DropOutEffect(true, w.node.clients[Subject(s)])
    ensures DroppedOut(w, Apply(w, s), Subject(s), Unscheduled(s))
    ensures Apply(w, s).threads == w.threads - Consumed(s) + Spawned(s)
  {
    var x := w.node.clients[Subject(s)];
    Enacted(w, s, DropOutEffect(true, x));
    DropOutSaid(x);
    LoweredCounts(w.node.slots);
  }

  /** Dropping out is tried on stopped nodes too, and does nothing there. */
  lemma DropOutIfRunning(w: World, s: Step)
    requires Enabled(w, s) && !s.Find? && !s.Halt? && !s.Fire? && w.node.clients[Subject(s)].valid
    requires EffectOf(w.node.running, w.node.clients[Subject(s)], WorkOf(s))
          == DropOutEffect(w.node.running, w.node.clients[Subject(s)])
    ensures if w.node.running then DroppedOut(w, Apply(w, s), Subject(s), multiset{})
            else Apply(w, s).node == w.node
    ensures Apply(w, s).threads == w.threads - Consumed(s) + Spawned(s)
  {
    if w.node.running {
      DropOutStep(w, s);
    } else {
      NoEffectStep(w, s);
    }
  }

  lemma CutOffSaid(x: ClientState)
    requires x.valid
    ensures DisconnectEffect(x) == Effect(ClientState(true, false, -1, x.backoff),
                                          if x.fd == -1 then KeepIndex else Forget(x.fd), Nothing, Lower)
  {
  }

  lemma CutOffStep(w: World, s: Step)
    requires Enabled(w, s) && !s.Find? && !s.Halt? && !s.Fire? && w.node.clients[Subject(s)].valid
    requires EffectOf(w.node.running, w.node.clients[Subject(s)], WorkOf(s))
          == DisconnectEffect(w.node.clients[Subject(s)])
    ensures CutOff(w, Apply(w, s), Subject(s), w.node.clients[Subject(s)].backoff)
    ensures Moved(w, Apply(w, s), multiset{}, multiset{})
    ensures Apply(w, s).threads == w.threads - Consumed(s) + Spawned(s)
  {
    var x := w.node.clients[Subject(s)];
    Enacted(w, s, DisconnectEffect(x));
    CutOffSaid(x);
    LoweredCounts(w.node.slots);
  }

  // ---- Events -----------------------------------------------------------------------------------

  /** On a stopped node an event is only taken off the scheduler. */
  lemma EventOnStopped(w: World, e: Event, handshake: Handshake, sent: bool, now: nat)
    requires Enabled(w, Fire(e, handshake, sent, now)) && !w.node.running
    ensures var v := Apply(w, Fire(e, handshake, sent, now));
      Untouched(w, v) && SameThreads(w, v) && Moved(w, v, multiset{e}, multiset{})
  {
    NoEffectStep(w, Fire(e, handshake, sent, now));
  }

  lemma ConnectionLost(w: World, c: string, sent: bool, now: nat)
    requires Enabled(w, Fire(Event(Establish, c), Lost, sent, now)) && w.node.running
    ensures var v := Apply(w, Fire(Event(Establish, c), Lost, sent, now));
      Untouched(w, v) && SameThreads(w, v) && Moved(w, v, multiset{Event(Establish, c)}, multiset{})
  {
    NoEffectStep(w, Fire(Event(Establish, c), Lost, sent, now));
  }

  /** A failed connection posts a Reconnect, and no second EstablishConnection. */
  lemma ConnectionFailed(w: World, c: string, sent: bool, now: nat)
    requires Enabled(w, Fire(Event(Establish, c), Failed, sent, now)) && w.node.running
    ensures var v := Apply(w, Fire(Event(Establish, c), Failed, sent, now)); var x := w.node.clients[c];
      && v.node.clients == w.node.clients[c := x.(backoff := Delay(x.backoff))]
      && v.node.fdIndex == w.node.fdIndex && v.node.slots == w.node.slots && SameThreads(w, v)
      && Moved(w, v, multiset{Event(Establish, c)}, multiset{Event(Reconnect, c)})
  {
    var x := w.node.clients[c];
    Enacted(w, Fire(Event(Establish, c), Failed, sent, now),
            Effect(x.(backoff := Delay(x.backoff)), KeepIndex, One(Reconnect), Keep));
  }

  lemma OpenedSaid(x: ClientState, fd: int, now: nat)
    ensures EffectOf(true, x, Establishing(Opened(fd), now))
         == Effect(ClientState(x.valid, true, fd, 0), Remember(fd), Greeting, Raise(now))
  {
  }

  lemma OpenedNode(w: World, c: string, fd: int, sent: bool, now: nat)
    requires Enabled(w, Fire(Event(Establish, c), Opened(fd), sent, now)) && w.node.running
    ensures var v := Apply(w, Fire(Event(Establish, c), Opened(fd), sent, now)); var x := w.node.clients[c];
      && v.node.clients == w.node.clients[c := ClientState(x.valid, true, fd, 0)]
      && v.node.fdIndex == w.node.fdIndex[fd := c]
      && v.node.slots == Raised(w.node.master, w.node.slots, now)
      && Moved(w, v, multiset{Event(Establish, c)}, Posted(Greeting, c))
  {
    OpenedSaid(w.node.clients[c], fd, now);
    Enacted(w, Fire(Event(Establish, c), Opened(fd), sent, now),
            EffectOf(true, w.node.clients[c], Establishing(Opened(fd), now)));
  }

  lemma ConnectionCounted(w: World, c: string, fd: int, sent: bool, now: nat)
    requires Enabled(w, Fire(Event(Establish, c), Opened(fd), sent, now)) && w.node.running
    ensures var v := Apply(w, Fire(Event(Establish, c), Opened(fd), sent, now));
      v.connects == w.connects + multiset{c} && SameThreads(w, v)
  {
  }

  lemma GreetingSaid(c: string)
    ensures Posted(Greeting, c)
         == multiset{Event(State, c), Event(HealthCheck, c), Event(Log, c), Event(WSPing, c)}
  {
  }

  /** A connection: connected under its descriptor, one State, HealthCheck, Log and WSPing, one more live. */
  lemma ConnectionOpened(w: World, c: string, fd: int, sent: bool, now: nat)
    requires Enabled(w, Fire(Event(Establish, c), Opened(fd), sent, now)) && w.node.running && w.node.slots != []
    ensures var v := Apply(w, Fire(Event(Establish, c), Opened(fd), sent, now)); var x := w.node.clients[c];
      && v.node.clients == w.node.clients[c := ClientState(x.valid, true, fd, 0)]
      && v.node.fdIndex == w.node.fdIndex[fd := c] && SameThreads(w, v)
      && OnlyCounted(w.node.slots, v.node.slots) && v.node.slots[0].live == w.node.slots[0].live + 1
      && v.connects == w.connects + multiset{c}
      && Moved(w, v, multiset{Event(Establish, c)},
               multiset{Event(State, c), Event(HealthCheck, c), Event(Log, c), Event(WSPing, c)})
  {
    OpenedNode(w, c, fd, sent, now);
    GreetingSaid(c);
    CountingIsLocal(w.node.master, w.node.slots, now);
    ConnectionCounted(w, c, fd, sent, now);
  }

  /** Reconnect forgets the connection, but neither descriptor nor index nor counter. */
  lemma ReconnectFires(w: World, c: string, handshake: Handshake, sent: bool, now: nat)
    requires Enabled(w, Fire(Event(Reconnect, c), handshake, sent, now))
    requires w.node.running && w.node.clients[c].valid
    ensures var v := Apply(w, Fire(Event(Reconnect, c), handshake, sent, now)); var x := w.node.clients[c];
      && v.node.clients == w.node.clients[c := x.(connected := false, backoff := Delay(x.backoff))]
      && v.node.fdIndex == w.node.fdIndex && v.node.slots == w.node.slots && SameThreads(w, v)
      && Moved(w, v, multiset{Event(Reconnect, c)}, multiset{Event(Establish, c)})
  {
    var x := w.node.clients[c];
    Enacted(w, Fire(Event(Reconnect, c), handshake, sent, now),
            Effect(x.(connected := false, backoff := Delay(x.backoff)), KeepIndex, One(Establish), Keep));
  }

  predicate IsBeat(e: Event)
  {
    e.kind == State || e.kind == HealthCheck || e.kind == WSPing || e.kind == Log
  }

  /** A heartbeat or log of a client that is not connected does nothing. */
  lemma BeatOfDisconnected(w: World, e: Event, handshake: Handshake, sent: bool, now: nat)
    requires Enabled(w, Fire(e, handshake, sent, now)) && IsBeat(e) && !w.node.clients[e.client].connected
    ensures var v := Apply(w, Fire(e, handshake, sent, now));
      Untouched(w, v) && SameThreads(w, v) && Moved(w, v, multiset{e}, multiset{})
  {
    NoEffectStep(w, Fire(e, handshake, sent, now));
  }

  /** A State, HealthCheck or WSPing that is sent is posted again; a Log that is sent is not. */
  lemma BeatSent(w: World, e: Event, handshake: Handshake, now: nat)
    requires Enabled(w, Fire(e, handshake, true, now)) && IsBeat(e) && w.node.running
    requires w.node.clients[e.client].valid && w.node.clients[e.client].connected
    ensures var v := Apply(w, Fire(e, handshake, true, now));
      && Untouched(w, v) && SameThreads(w, v)
      && v.node.pending == if e.kind == Log then w.node.pending - multiset{e} else w.node.pending
  {
    SentSaid(w.node.clients[e.client], e.kind);
    Enacted(w, Fire(e, handshake, true, now), EffectOf(true, w.node.clients[e.client], Beating(e.kind, true)));
    SameClient(w.node.clients, e.client);
    Replaced(w.node.pending, e);
  }

  lemma SentSaid(x: ClientState, kind: EventKind)
    requires x.valid && x.connected
    ensures EffectOf(true, x, Beating(kind, true))
         == Effect(x, KeepIndex, if kind == Log then Nothing else One(kind), Keep)
  {
  }

  lemma Replaced(pending: multiset<Event>, e: Event)
    requires pending[e] > 0
    ensures pending - multiset{e} + multiset{e} == pending
  {
  }

  /** Any of them that cannot be sent drops its client out. */
  lemma BeatUnsent(w: World, e: Event, handshake: Handshake, now: nat)
    requires Enabled(w, Fire(e, handshake, false, now)) && IsBeat(e) && w.node.running
    requires w.node.clients[e.client].valid && w.node.clients[e.client].connected
    ensures var v := Apply(w, Fire(e, handshake, false, now));
      DroppedOut(w, v, e.client, multiset{e}) && SameThreads(w, v)
  {
    DropOutStep(w, Fire(e, handshake, false, now));
  }

  // ---- What can happen --------------------------------------------------------------------------

  /** The client is known and its mutex is not held by a sleeping command. */
  predicate Free(w: World, c: string)
  {
    c in w.node.clients && w.threads[Asleep(c)] == 0
  }

  /**
   A pending event can fire, a callback, a call or a command that waits can go on, unless a restarting
   command sleeps under the client's mutex. The sleep can end, a connection can fail before it takes the
   mutex, an indexed descriptor can be looked up, and the node can be stopped at any time.
   */
  lemma PossibleSteps(w: World, c: string, frame: Frame, command: Command, answer: Answer,
                      fd: int, callback: Callback)
    ensures Enabled(w, Drop(c)) <==> Free(w, c) && w.threads[Found(c, ErrorOrShutdown)] > 0
    ensures Enabled(w, CallReconnect(c)) <==> Free(w, c) && w.threads[Gone(c)] > 0
    ensures Enabled(w, Read(c, frame)) <==> Free(w, c) && w.threads[Found(c, Readable)] > 0
    ensures Enabled(w, Obey(c, command, answer)) <==> Free(w, c) && w.threads[Ordered(c, command)] > 0
    ensures Enabled(w, Wake(c)) <==> c in w.node.clients && w.threads[Asleep(c)] > 0
    ensures Enabled(w, Find(fd, callback)) <==> fd in w.node.fdIndex
    ensures Enabled(w, Halt)
  {
    Continues(w, Drop(c), Found(c, ErrorOrShutdown));
    Continues(w, CallReconnect(c), Gone(c));
    Continues(w, Read(c, frame), Found(c, Readable));
    Continues(w, Obey(c, command, answer), Ordered(c, command));
    Continues(w, Wake(c), Asleep(c));
  }

  /** A step that continues a thread needs that thread, and all but a Wake need the mutex. */
  lemma Continues(w: World, s: Step, t: Thread)
    requires !s.Find? && !s.Halt? && !s.Fire? && Consumed(s) == multiset{t}
    ensures Enabled(w, s) <==>
      s.c in w.node.clients && (s.Wake? || w.threads[Asleep(s.c)] == 0) && w.threads[t] > 0
  {
  }

  lemma PossibleEvents(w: World, e: Event, handshake: Handshake, sent: bool, now: nat)
    ensures Enabled(w, Fire(e, handshake, sent, now)) <==>
      && e.client in w.node.clients && w.node.pending[e] > 0
      && (w.threads[Asleep(e.client)] > 0 ==> e.kind == Establish && handshake == Lost)
  {
    assert Consumed(Fire(e, handshake, sent, now)) == multiset{};
  }

  // ---- Socket callbacks -------------------------------------------------------------------------

  lemma CallbackFinds(w: World, fd: int, callback: Callback)
    requires fd in w.node.fdIndex
    ensures Enabled(w, Find(fd, callback))
    ensures Apply(w, Find(fd, callback)).node == w.node
    ensures Apply(w, Find(fd, callback)).threads == w.threads + multiset{Found(w.node.fdIndex[fd], callback)}
  {
  }

  /** A socket error or shutdown cuts its client off, running or not, and goes on to Reconnect. */
  lemma CallbackDrops(w: World, c: string)
    requires Enabled(w, Drop(c)) && w.node.clients[c].valid
    ensures var v := Apply(w, Drop(c));
      && CutOff(w, v, c, w.node.clients[c].backoff) && Moved(w, v, multiset{}, multiset{})
      && v.threads == w.threads - multiset{Found(c, ErrorOrShutdown)} + multiset{Gone(c)}
  {
    CutOffStep(w, Drop(c));
  }

  lemma CallbackReconnects(w: World, c: string)
    requires Enabled(w, CallReconnect(c)) && w.node.clients[c].valid
    ensures var v := Apply(w, CallReconnect(c)); var x := w.node.clients[c];
      && v.threads == w.threads - multiset{Gone(c)}
      && v.node.fdIndex == w.node.fdIndex && v.node.slots == w.node.slots
      && (if w.node.running
          then && v.node.clients == w.node.clients[c := x.(connected := false, backoff := Delay(x.backoff))]
               && Moved(w, v, multiset{}, multiset{Event(Establish, c)})
          else v.node == w.node)
  {
    var x := w.node.clients[c];
    if w.node.running {
      Enacted(w, CallReconnect(c),
              Effect(x.(connected := false, backoff := Delay(x.backoff)), KeepIndex, One(Establish), Keep));
    } else {
      NoEffectStep(w, CallReconnect(c));
    }
  }

  /** A broken frame and a refusal that cannot be sent drop the client out, on a running node. */
  lemma FrameBreaks(w: World, c: string, frame: Frame)
    requires Enabled(w, Read(c, frame)) && w.node.clients[c].valid
    requires frame == Broken || frame == Unsupported(false)
    ensures var v := Apply(w, Read(c, frame));
      && v.threads == w.threads - multiset{Found(c, Readable)}
      && (if w.node.running then DroppedOut(w, v, c, multiset{}) else v.node == w.node)
  {
    DropOutIfRunning(w, Read(c, frame));
  }

  /** Any other frame leaves the node alone; a command gets its thread. */
  lemma FrameIsRead(w: World, c: string, frame: Frame)
    requires Enabled(w, Read(c, frame)) && frame != Broken && frame != Unsupported(false)
    ensures var v := Apply(w, Read(c, frame));
      && v.node == w.node
      && v.threads == w.threads - multiset{Found(c, Readable)}
                      + if frame.Order? then multiset{Ordered(c, frame.command)} else multiset{}
  {
    NoEffectStep(w, Read(c, frame));
  }

  // ---- Commands ---------------------------------------------------------------------------------

  /** A reboot, a good upgrade or a factory reset cuts its client off and sleeps. */
  lemma RestartSleeps(w: World, c: string, command: Command)
    requires Enabled(w, Obey(c, command, Sent)) && w.node.clients[c].valid
    requires command in {Reboot, Upgrade(true), Factory}
    ensures var v := Apply(w, Obey(c, command, Sent));
      && CutOff(w, v, c, w.node.clients[c].backoff) && Moved(w, v, multiset{}, multiset{})
      && v.threads == w.threads - multiset{Ordered(c, command)} + multiset{Asleep(c)}
  {
    CutOffStep(w, Obey(c, command, Sent));
  }

  /** An upgrade with a uri that is refused cuts its client off and leaves nothing to reconnect it. */
  lemma UpgradeAborts(w: World, c: string)
    requires Enabled(w, Obey(c, Upgrade(false), Sent)) && w.node.clients[c].valid
    ensures var v := Apply(w, Obey(c, Upgrade(false), Sent));
      && CutOff(w, v, c, w.node.clients[c].backoff) && Moved(w, v, multiset{}, multiset{})
      && v.threads == w.threads - multiset{Ordered(c, Upgrade(false))}
  {
    CutOffStep(w, Obey(c, Upgrade(false), Sent));
  }

  /** Configuring and blinking, and commands with parameters missing, only answer. */
  lemma CommandOnlyAnswers(w: World, c: string, command: Command, answer: Answer)
    requires Enabled(w, Obey(c, command, answer))
    requires answer == Ignored || (answer == Sent && command in {Configure, LEDs})
    ensures var v := Apply(w, Obey(c, command, answer));
      v.node == w.node && v.threads == w.threads - multiset{Ordered(c, command)}
  {
    NoEffectStep(w, Obey(c, command, answer));
  }

  /** Any command whose answer cannot be sent drops its client out, on a running node. */
  lemma CommandUnsent(w: World, c: string, command: Command)
    requires Enabled(w, Obey(c, command, Unsent)) && w.node.clients[c].valid
    ensures var v := Apply(w, Obey(c, command, Unsent));
      && v.threads == w.threads - multiset{Ordered(c, command)}
      && (if w.node.running then DroppedOut(w, v, c, multiset{}) else v.node == w.node)
  {
    DropOutIfRunning(w, Obey(c, command, Unsent));
  }

  /** The end of the sleep drops the client out once more, on a running node. */
  lemma RestartWakes(w: World, c: string)
    requires Enabled(w, Wake(c)) && w.node.clients[c].valid
    ensures var v := Apply(w, Wake(c));
      && v.threads == w.threads - multiset{Asleep(c)} && v.restarts == w.restarts + 1
      && (if w.node.running then DroppedOut(w, v, c, multiset{}) else v.node == w.node)
  {
    DropOutIfRunning(w, Wake(c));
  }

  /** From 15 on the back-off would go round: 30, 60, 120, 240, 480, and 15 again. */
  lemma BackoffCycle()
    ensures NextBackoff(15) == 30 && NextBackoff(30) == 60 && NextBackoff(60) == 120
    ensures NextBackoff(120) == 240 && NextBackoff(240) == 480 && NextBackoff(480) == 15
    ensures NextBackoff(300) == 600 && NextBackoff(301) == 15
  {
  }
}
