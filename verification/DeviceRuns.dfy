/**
 Whole runs of one node. A world adds to the node the threads that are under way: socket callbacks
 between finding their client and using it, commands waiting for their client's mutex, and restarting
 commands asleep while they hold it. One step is one mutex-protected body.
 */
module DeviceRuns {
  import opened Stats
  import opened Devices

  datatype Callback = Readable | ErrorOrShutdown

  datatype Thread =
    | Found(c: string, callback: Callback)    // looked up in Clients_fd_, client not locked yet
    | Gone(c: string)                         // disconnected its client, about to call Reconnect
    | Ordered(c: string, command: Command)    // command thread spawned, client not locked yet
    | Asleep(c: string)                       // restarting command sleeping under the client's mutex

  /** `connects` counts successful connections per client, `restarts` the restarting commands carried through. */
  datatype World = World(node: Node, threads: multiset<Thread>, connects: multiset<string>, restarts: nat)

  datatype Step =
    | Fire(event: Event, handshake: Handshake, sent: bool, now: nat)  // the scheduler runs an event
    | Find(fd: int, callback: Callback)                               // a callback looks its client up
    | Drop(c: string)                                                 // OnSocketError/Shutdown disconnect
    | CallReconnect(c: string)                                        // ... and reconnect
    | Read(c: string, frame: Frame)                                   // OnSocketReadable
    | Obey(c: string, command: Command, answer: Answer)
    | Wake(c: string)                                                 // end of a restarting command's sleep
    | Halt                                                            // SimulationRunner::Stop

  function WorkOf(s: Step): Work
    requires !s.Find? && !s.Halt?
  {
    match s
    case Fire(e, handshake, sent, now) =>
      if e.kind == Establish then Establishing(handshake, now)
      else if e.kind == Reconnect then Reconnecting
      else Beating(e.kind, sent)
    case Drop(_) => Disconnecting
    case CallReconnect(_) => Reconnecting
    case Read(_, frame) => Reading(frame)
    case Obey(_, command, answer) => Obeying(command, answer)
    case Wake(_) => DroppingOut
  }

  /** The client whose mutex the step takes. */
  function Subject(s: Step): string
    requires !s.Find? && !s.Halt?
  {
    if s.Fire? then s.event.client else s.c
  }

  /** The thread a step continues. */
  function Consumed(s: Step): multiset<Thread>
  {
    match s
    case Drop(c) => multiset{Found(c, ErrorOrShutdown)}
    case CallReconnect(c) => multiset{Gone(c)}
    case Read(c, _) => multiset{Found(c, Readable)}
    case Obey(c, command, _) => multiset{Ordered(c, command)}
    case Wake(c) => multiset{Asleep(c)}
    case _ => multiset{}
  }

  /** The thread a step leaves behind. */
  function Spawned(s: Step): multiset<Thread>
  {
    match s
    case Drop(c) => multiset{Gone(c)}
    case Read(c, Order(command)) => multiset{Ordered(c, command)}
    case Obey(c, command, Sent) => if Restarts(command) then multiset{Asleep(c)} else multiset{}
    case _ => multiset{}
  }

  /** An EstablishConnection that ends by an exception does so before it takes its client's mutex. */
  predicate EndsUnlocked(s: Step)
  {
    s.Fire? && s.event.kind == Establish && s.handshake.Lost?
  }

  predicate Enabled(w: World, s: Step)
  {
    if s.Halt? then true
    else if s.Find? then s.fd in w.node.fdIndex
    else
      && Subject(s) in w.node.clients
      && (s.Wake? || EndsUnlocked(s) || w.threads[Asleep(Subject(s))] == 0)
      && (s.Fire? ==> w.node.pending[s.event] > 0)
      && Consumed(s) <= w.threads
  }

  /** The scheduler forgets an event it runs. */
  function Dequeued(k: Node, s: Step): Node
  {
    if s.Fire? then k.(pending := k.pending - multiset{s.event}) else k
  }

  function Apply(w: World, s: Step): World
    requires Enabled(w, s)
  {
    if s.Halt? then w.(node := w.node.(running := false))
    else if s.Find? then w.(threads := w.threads + multiset{Found(w.node.fdIndex[s.fd], s.callback)})
    else
      World(Perform(Dequeued(w.node, s), Subject(s), WorkOf(s)),
            w.threads - Consumed(s) + Spawned(s),
            if w.node.running && Connects(s) then w.connects + multiset{Subject(s)} else w.connects,
            if s.Wake? then w.restarts + 1 else w.restarts)
  }

  predicate Connects(s: Step)
  {
    s.Fire? && s.event.kind == Establish && s.handshake.Opened?
  }

  /** A run: every step is enabled where it is taken. */
  predicate Run(w: World, steps: seq<Step>)
    decreases steps
  {
    steps == [] || (Enabled(w, steps[0]) && Run(Apply(w, steps[0]), steps[1..]))
  }

  function After(w: World, steps: seq<Step>): World
    requires Run(w, steps)
    decreases steps
  {
    if steps == [] then w else After(Apply(w, steps[0]), steps[1..])
  }

  /** One step more at the end of a run. */
  lemma {:induction false} Extend(w: World, steps: seq<Step>, s: Step)
    requires Run(w, steps) && Enabled(After(w, steps), s)
    ensures Run(w, steps + [s]) && After(w, steps + [s]) == Apply(After(w, steps), s)
    decreases steps
  {
    if steps == [] {
      assert [] + [s] == [s] && [s][1..] == [];
    } else {
      assert (steps + [s])[1..] == steps[1..] + [s];
      Extend(Apply(w, steps[0]), steps[1..], s);
    }
  }

  /** Where SimulationRunner::run leaves the node: one pending connection per idle client. */
  ghost predicate Start(w: World)
  {
    && w.threads == multiset{} && w.connects == multiset{} && w.restarts == 0
    && w.node.running && w.node.fdIndex == map[]
    && (forall c <- w.node.clients :: w.node.clients[c] == ClientState(true, false, NO_FD, 0))
    && (forall e :: w.node.pending[e] == if e.kind == Establish && e.client in w.node.clients then 1 else 0)
    && w.node.slots != [] && w.node.slots[0].live == 0
  }

  // ---- One client's share of the world ----------------------------------------------------------

  /** Everything in the world that concerns one client, as counts. */
  datatype Share = Share(state: ClientState, establish: nat, reconnect: nat, stats: nat, health: nat, ping: nat,
                         gone: nat, asleep: nat, connects: nat)

  function ShareOf(w: World, c: string): Share
    requires c in w.node.clients
  {
    Share(w.node.clients[c],
          w.node.pending[Event(Establish, c)], w.node.pending[Event(Reconnect, c)],
          w.node.pending[Event(State, c)], w.node.pending[Event(HealthCheck, c)], w.node.pending[Event(WSPing, c)],
          w.threads[Gone(c)], w.threads[Asleep(c)], w.connects[c])
  }

  /** How often `posts` contains an event of this kind. */
  function Times(posts: Posts, kind: EventKind): nat
  {
    match posts
    case Nothing => 0
    case One(k) => if k == kind then 1 else 0
    case Greeting => if kind == Establish || kind == Reconnect then 0 else 1
  }

  function Taken(s: Step, kind: EventKind): nat
  {
    if s.Fire? && s.event.kind == kind then 1 else 0
  }

  /** The effect of a step on the share of its subject. */
  predicate Shifted(running: bool, s: Step, was: Share, now: Share)
    requires !s.Find? && !s.Halt?
  {
    var e := EffectOf(running, was.state, WorkOf(s));
    && now.state == e.client
    && now.establish + Taken(s, Establish) == was.establish + Times(e.posts, Establish)
    && now.reconnect + Taken(s, Reconnect) == was.reconnect + Times(e.posts, Reconnect)
    && now.stats + Taken(s, State) == was.stats + Times(e.posts, State)
    && now.health + Taken(s, HealthCheck) == was.health + Times(e.posts, HealthCheck)
    && now.ping + Taken(s, WSPing) == was.ping + Times(e.posts, WSPing)
    && now.gone + (if s.CallReconnect? then 1 else 0) == was.gone + (if s.Drop? then 1 else 0)
    && now.asleep + (if s.Wake? then 1 else 0)
       == was.asleep + (if s.Obey? && s.answer == Sent && Restarts(s.command) then 1 else 0)
    && now.connects == was.connects + (if running && Connects(s) then 1 else 0)
  }

  lemma PostedCount(posts: Posts, c: string, kind: EventKind, d: string)
    ensures Posted(posts, c)[Event(kind, d)] == if c == d then Times(posts, kind) else 0
  {
  }

  lemma PendingAfter(w: World, s: Step, kind: EventKind, d: string)
    requires Enabled(w, s) && !s.Find? && !s.Halt?
    ensures var e := EffectOf(w.node.running, w.node.clients[Subject(s)], WorkOf(s)).posts;
      EventsMoved(s, kind, e, d == Subject(s), w.node.pending[Event(kind, d)], Apply(w, s).node.pending[Event(kind, d)])
  {
    var e := EffectOf(w.node.running, w.node.clients[Subject(s)], WorkOf(s)).posts;
    PostedCount(e, Subject(s), kind, d);
    PendingIs(w, s);
    DequeuedCount(w.node, s, kind, d);
  }

  lemma PendingIs(w: World, s: Step)
    requires Enabled(w, s) && !s.Find? && !s.Halt?
    ensures var e := EffectOf(w.node.running, w.node.clients[Subject(s)], WorkOf(s)).posts;
      Apply(w, s).node.pending == Dequeued(w.node, s).pending + Posted(e, Subject(s))
  {
    NodeAfter(w, s);
  }

  lemma DequeuedCount(k: Node, s: Step, kind: EventKind, d: string)
    requires !s.Find? && !s.Halt? && (s.Fire? ==> k.pending[s.event] > 0)
    ensures Dequeued(k, s).pending[Event(kind, d)] + (if d == Subject(s) then Taken(s, kind) else 0)
         == k.pending[Event(kind, d)]
  {
  }

  lemma ThreadsAfter(w: World, s: Step, t: Thread)
    requires Enabled(w, s) && !s.Find? && !s.Halt?
    ensures Apply(w, s).threads[t] + Consumed(s)[t] == w.threads[t] + Spawned(s)[t]
  {
  }

  lemma ConsumedCount(s: Step, d: string)
    ensures Consumed(s)[Gone(d)] == if s == CallReconnect(d) then 1 else 0
    ensures Consumed(s)[Asleep(d)] == if s == Wake(d) then 1 else 0
  {
  }

  lemma SpawnedCount(s: Step, d: string)
    ensures Spawned(s)[Gone(d)] == if s == Drop(d) then 1 else 0
    ensures Spawned(s)[Asleep(d)] == if s.Obey? && s.c == d && s.answer == Sent && Restarts(s.command) then 1 else 0
  {
  }

  lemma ConnectsAfter(w: World, s: Step, d: string)
    requires Enabled(w, s) && !s.Find? && !s.Halt?
    ensures Apply(w, s).connects[d]
         == w.connects[d] + (if w.node.running && Connects(s) && d == Subject(s) then 1 else 0)
  {
  }

  lemma StateAfter(w: World, s: Step, d: string)
    requires Enabled(w, s) && !s.Find? && !s.Halt? && d in w.node.clients
    ensures d in Apply(w, s).node.clients
    ensures Apply(w, s).node.clients[d]
         == if d == Subject(s) then EffectOf(w.node.running, w.node.clients[d], WorkOf(s)).client else w.node.clients[d]
  {
  }

  /** The node after a step that takes a client's mutex. */
  lemma NodeAfter(w: World, s: Step)
    requires Enabled(w, s) && !s.Find? && !s.Halt?
    ensures var e := EffectOf(w.node.running, w.node.clients[Subject(s)], WorkOf(s));
      Apply(w, s).node == Enact(Dequeued(w.node, s), Subject(s), e)
  {
  }

  lemma KeysAfter(w: World, s: Step)
    requires Enabled(w, s)
    ensures Apply(w, s).node.clients.Keys == w.node.clients.Keys
  {
    if !s.Find? && !s.Halt? {
      NodeAfter(w, s);
    }
  }

  /** A step changes the share of its subject as `Shifted` says and nobody else's. */
  lemma ShareAfter(w: World, s: Step, c: string)
    requires Enabled(w, s) && c in w.node.clients
    ensures c in Apply(w, s).node.clients
    ensures if s.Find? || s.Halt? || c != Subject(s)
            then ShareOf(Apply(w, s), c) == ShareOf(w, c)
            else Shifted(w.node.running, s, ShareOf(w, c), ShareOf(Apply(w, s), c))
  {
    if !s.Find? && !s.Halt? {
      StateAfter(w, s, c);
      EventsAfter(w, s, c);
      HelpersAfter(w, s, c);
      ConnectsAfter(w, s, c);
    }
  }

  /** The pending events of a client after a step. */
  lemma EventsAfter(w: World, s: Step, c: string)
    requires Enabled(w, s) && !s.Find? && !s.Halt? && c in w.node.clients
    ensures c in Apply(w, s).node.clients
    ensures var e := EffectOf(w.node.running, w.node.clients[Subject(s)], WorkOf(s)).posts; var on := c == Subject(s);
      var was := ShareOf(w, c); var now := ShareOf(Apply(w, s), c);
      && EventsMoved(s, Establish, e, on, was.establish, now.establish)
      && EventsMoved(s, Reconnect, e, on, was.reconnect, now.reconnect)
      && EventsMoved(s, State, e, on, was.stats, now.stats)
      && EventsMoved(s, HealthCheck, e, on, was.health, now.health)
      && EventsMoved(s, WSPing, e, on, was.ping, now.ping)
  {
    StateAfter(w, s, c);
    PendingAfter(w, s, Establish, c);
    PendingAfter(w, s, Reconnect, c);
    PendingAfter(w, s, State, c);
    PendingAfter(w, s, HealthCheck, c);
    PendingAfter(w, s, WSPing, c);
  }

  predicate EventsMoved(s: Step, kind: EventKind, posts: Posts, on: bool, was: nat, now: nat)
  {
    if on then now + Taken(s, kind) == was + Times(posts, kind) else now == was
  }

  lemma HelpersAfter(w: World, s: Step, c: string)
    requires Enabled(w, s) && !s.Find? && !s.Halt?
    ensures var now := Apply(w, s).threads;
      && now[Gone(c)] + (if s == CallReconnect(c) then 1 else 0) == w.threads[Gone(c)] + (if s == Drop(c) then 1 else 0)
      && now[Asleep(c)] + (if s == Wake(c) then 1 else 0)
         == w.threads[Asleep(c)]
            + (if s.Obey? && s.c == c && s.answer == Sent && Restarts(s.command) then 1 else 0)
  {
    ThreadsAfter(w, s, Gone(c));
    ThreadsAfter(w, s, Asleep(c));
    ConsumedCount(s, c);
    SpawnedCount(s, c);
  }

  // ---- Every run ------------------------------------------------------------------------------

  /** How many hands a client is in: its own when connected, else whoever is to reconnect it. */
  function Hands(x: Share): nat
  {
    (if x.state.connected then 1 else 0) + x.establish + x.reconnect + x.gone + x.asleep
  }

  /** A connected client has each heartbeat pending, none more often than it had connections. */
  predicate HeartBeats(x: Share)
  {
    && (x.state.connected ==> x.stats >= 1 && x.health >= 1 && x.ping >= 1)
    && x.stats <= x.connects && x.health <= x.connects && x.ping <= x.connects
  }

  predicate Sound(running: bool, x: Share)
  {
    x.state.valid && x.state.backoff == 0 && (running ==> HeartBeats(x))
  }

  lemma SoundShift(running: bool, s: Step, was: Share, now: Share)
    requires !s.Find? && !s.Halt? && Shifted(running, s, was, now) && Sound(running, was)
    ensures Sound(running, now)
  {
  }

  lemma SoundStep(w: World, s: Step, c: string)
    requires Enabled(w, s) && c in w.node.clients && Sound(w.node.running, ShareOf(w, c))
    ensures c in Apply(w, s).node.clients && Sound(Apply(w, s).node.running, ShareOf(Apply(w, s), c))
  {
    ShareAfter(w, s, c);
    if !s.Find? && !s.Halt? && c == Subject(s) {
      SoundShift(w.node.running, s, ShareOf(w, c), ShareOf(Apply(w, s), c));
    }
  }

  lemma {:induction false} SoundRun(w: World, steps: seq<Step>, c: string)
    requires Run(w, steps) && c in w.node.clients && Sound(w.node.running, ShareOf(w, c))
    ensures c in After(w, steps).node.clients
    ensures Sound(After(w, steps).node.running, ShareOf(After(w, steps), c))
    decreases steps
  {
    if steps != [] {
      SoundStep(w, steps[0], c);
      SoundRun(Apply(w, steps[0]), steps[1..], c);
    }
  }

  /** In every run at all, as long as the simulation runs no connected client loses a heartbeat. */
  lemma HeartbeatsStay(w: World, steps: seq<Step>, c: string)
    requires Start(w) && Run(w, steps) && c in w.node.clients
    ensures c in After(w, steps).node.clients
    ensures After(w, steps).node.running ==> HeartBeats(ShareOf(After(w, steps), c))
  {
    SoundRun(w, steps, c);
  }

  /** The back-off never leaves zero: doubling starts from zero and success resets to zero. */
  lemma BackoffStaysZero(w: World, steps: seq<Step>, c: string)
    requires Start(w) && Run(w, steps) && c in w.node.clients
    ensures c in After(w, steps).node.clients && After(w, steps).node.clients[c].backoff == 0
  {
    SoundRun(w, steps, c);
  }

  // ---- Hands gained and lost --------------------------------------------------------------------

  /** Steps of callbacks and commands that disconnect their client. */
  predicate Cuts(s: Step)
  {
    match s
    case Drop(_) => true
    case Read(_, frame) => frame == Broken || frame == Unsupported(false)
    case Obey(_, command, answer) => answer == Unsent || (answer == Sent && (Restarts(command) || Aborts(command)))
    case _ => false
  }

  /** Steps that end by an exception: an EstablishConnection before its try block, an upgrade after its answer. */
  predicate Throws(s: Step)
  {
    EndsUnlocked(s) || (s.Obey? && s.answer == Sent && Aborts(s.command))
  }

  /** A step that cuts its client off and has it reconnected finds it disconnected: one hand more. */
  predicate Strays(s: Step, x: ClientState)
  {
    Cuts(s) && !Throws(s) && !x.connected
  }

  /** A step that throws takes a hand of its client: the pending connection, or the connection it cuts off. */
  predicate Loses(s: Step, x: ClientState)
  {
    Throws(s) && (s.Fire? || x.connected)
  }

  /** A connection or a Reconnect finds its client connected: two hands become one. */
  predicate Merges(s: Step, x: ClientState)
  {
    (Connects(s) || s.CallReconnect? || s.Wake? || (s.Fire? && s.event.kind == Reconnect)) && x.connected
  }

  function AsNat(b: bool): nat
  {
    if b then 1 else 0
  }

  /** Hands before and after a step that strays, loses a hand, or makes two into one. */
  predicate Booked(was: nat, now: nat, strays: bool, loses: bool, merges: bool)
  {
    && now + AsNat(loses) + AsNat(merges) == was + AsNat(strays)
    && (merges ==> was >= 2 && !loses && !strays)
    && (loses ==> was >= 1 && !strays)
  }

  lemma HandsShift(s: Step, was: Share, now: Share)
    requires !s.Find? && !s.Halt? && Shifted(true, s, was, now) && was.state.valid
    ensures now.state.valid
    ensures Booked(Hands(was), Hands(now), Strays(s, was.state), Loses(s, was.state), Merges(s, was.state))
  {
  }

  /** The step takes the mutex of this client, or would have. */
  predicate On(s: Step, c: string)
  {
    !s.Find? && !s.Halt? && Subject(s) == c
  }

  /** On a running node, what a step does to the hands of a client. */
  lemma HandsStep(w: World, s: Step, c: string)
    requires Enabled(w, s) && w.node.running && c in w.node.clients && w.node.clients[c].valid
    ensures c in Apply(w, s).node.clients && Apply(w, s).node.clients[c].valid
    ensures var x := w.node.clients[c];
      Booked(Hands(ShareOf(w, c)), Hands(ShareOf(Apply(w, s), c)),
             On(s, c) && Strays(s, x), On(s, c) && Loses(s, x), On(s, c) && Merges(s, x))
  {
    ShareAfter(w, s, c);
    if On(s, c) {
      HandsShift(s, ShareOf(w, c), ShareOf(Apply(w, s), c));
    }
  }

  /** How often a client strays, loses a hand, or has two of them become one in a run. */
  datatype Tally = Tally(strayed: nat, lost: nat, merged: nat)

  function TallyOf(w: World, steps: seq<Step>, c: string): Tally
    requires Run(w, steps) && c in w.node.clients
    decreases steps
  {
    if steps == [] then Tally(0, 0, 0)
    else
      KeysAfter(w, steps[0]);
      var x, on := w.node.clients[c], On(steps[0], c);
      var rest := TallyOf(Apply(w, steps[0]), steps[1..], c);
      Tally(rest.strayed + AsNat(on && Strays(steps[0], x)), rest.lost + AsNat(on && Loses(steps[0], x)),
            rest.merged + AsNat(on && Merges(steps[0], x)))
  }

  lemma RunningStays(w: World, s: Step)
    requires Enabled(w, s) && !s.Halt?
    ensures Apply(w, s).node.running == w.node.running
  {
    if !s.Find? {
      NodeAfter(w, s);
    }
  }

  lemma {:induction false} HandsRun(w: World, steps: seq<Step>, c: string)
    requires Run(w, steps) && Halt !in steps && w.node.running && c in w.node.clients && w.node.clients[c].valid
    ensures c in After(w, steps).node.clients
    ensures var tally := TallyOf(w, steps, c);
      Hands(ShareOf(After(w, steps), c)) + tally.lost + tally.merged == Hands(ShareOf(w, c)) + tally.strayed
    decreases steps
  {
    if steps != [] {
      HandsStep(w, steps[0], c);
      RunningStays(w, steps[0]);
      HandsRun(Apply(w, steps[0]), steps[1..], c);
    }
  }

  /**
   The books of every run: a client is in one hand, and one more for each callback or command that cut it
   off when it was disconnected, less those lost to exceptions and those that became one.
   */
  lemma HandsAreConserved(w: World, steps: seq<Step>, c: string)
    requires Start(w) && Run(w, steps) && Halt !in steps && c in w.node.clients
    ensures c in After(w, steps).node.clients
    ensures var tally := TallyOf(w, steps, c);
      Hands(ShareOf(After(w, steps), c)) + tally.lost + tally.merged == 1 + tally.strayed
  {
    HandsRun(w, steps, c);
  }

  // ---- Nobody stranded --------------------------------------------------------------------------

  predicate AllValid(w: World)
  {
    forall c <- w.node.clients :: w.node.clients[c].valid
  }

  lemma ValidStays(running: bool, s: Step, x: ClientState)
    requires !s.Find? && !s.Halt?
    ensures EffectOf(running, x, WorkOf(s)).client.valid == x.valid
  {
  }

  lemma AllValidStep(w: World, s: Step)
    requires Enabled(w, s) && AllValid(w)
    ensures AllValid(Apply(w, s))
  {
    if !s.Find? && !s.Halt? {
      KeysAfter(w, s);
      ValidStays(w.node.running, s, w.node.clients[Subject(s)]);
      forall c <- Apply(w, s).node.clients ensures Apply(w, s).node.clients[c].valid {
        StateAfter(w, s, c);
      }
    }
  }

  /** As long as the simulation runs every client is in some hand. */
  predicate Held(w: World)
  {
    w.node.running ==> forall c <- w.node.clients :: Hands(ShareOf(w, c)) >= 1
  }

  /** A step does not take the last hand of its client by an exception. */
  predicate Spares(w: World, s: Step)
    requires Enabled(w, s)
  {
    w.node.running && !s.Find? && !s.Halt? && Loses(s, w.node.clients[Subject(s)]) ==>
      Hands(ShareOf(w, Subject(s))) >= 2
  }

  lemma BookedLast(was: nat, now: nat, strays: bool, loses: bool, merges: bool)
    requires Booked(was, now, strays, loses, merges)
    ensures was >= 1 ==> (now >= 1 <==> (loses ==> was >= 2))
    ensures was == 1 ==> (now == 1 <==> !strays && !loses)
  {
  }

  lemma HeldFor(w: World, s: Step, c: string)
    requires Enabled(w, s) && w.node.running && c in w.node.clients && w.node.clients[c].valid
    requires Hands(ShareOf(w, c)) >= 1
    ensures c in Apply(w, s).node.clients
    ensures Hands(ShareOf(Apply(w, s), c)) >= 1 <==> (On(s, c) ==> Spares(w, s))
  {
    var x := w.node.clients[c];
    HandsStep(w, s, c);
    BookedLast(Hands(ShareOf(w, c)), Hands(ShareOf(Apply(w, s), c)),
               On(s, c) && Strays(s, x), On(s, c) && Loses(s, x), On(s, c) && Merges(s, x));
  }

  lemma HeldStep(w: World, s: Step)
    requires Enabled(w, s) && Held(w) && AllValid(w)
    ensures Held(Apply(w, s)) <==> Spares(w, s)
  {
    KeysAfter(w, s);
    if !s.Halt? {
      RunningStays(w, s);
      if w.node.running {
        forall c <- w.node.clients
          ensures c in Apply(w, s).node.clients
          ensures Hands(ShareOf(Apply(w, s), c)) >= 1 <==> (On(s, c) ==> Spares(w, s))
        {
          HeldFor(w, s, c);
        }
      }
    }
  }

  predicate AlwaysHeld(w: World, steps: seq<Step>)
    requires Run(w, steps)
    decreases steps
  {
    Held(w) && (steps == [] || AlwaysHeld(Apply(w, steps[0]), steps[1..]))
  }

  predicate AlwaysSpares(w: World, steps: seq<Step>)
    requires Run(w, steps)
    decreases steps
  {
    steps == [] || (Spares(w, steps[0]) && AlwaysSpares(Apply(w, steps[0]), steps[1..]))
  }

  lemma {:induction false} HeldRun(w: World, steps: seq<Step>)
    requires Run(w, steps) && Held(w) && AllValid(w)
    ensures AlwaysHeld(w, steps) <==> AlwaysSpares(w, steps)
    decreases steps
  {
    if steps != [] {
      HeldStep(w, steps[0]);
      AllValidStep(w, steps[0]);
      if Held(Apply(w, steps[0])) {
        HeldRun(Apply(w, steps[0]), steps[1..]);
      }
    }
  }

  /**
   In every run, whatever callbacks and commands do and in whatever order: nobody is stranded while the
   simulation runs iff no step that ends by an exception takes its client's last hand.
   */
  lemma NobodyStranded(w: World, steps: seq<Step>)
    requires Start(w) && Run(w, steps)
    ensures AlwaysHeld(w, steps) <==> AlwaysSpares(w, steps)
  {
    HeldRun(w, steps);
  }

  // ---- Disciplined runs -------------------------------------------------------------------------

  /** Callbacks and commands that disconnect their client find it connected. */
  predicate ActsOnConnected(w: World, s: Step)
    requires Enabled(w, s)
  {
    Cuts(s) ==> w.node.clients[Subject(s)].connected
  }

  predicate OneHand(w: World)
  {
    forall c <- w.node.clients :: w.node.clients[c].valid && Hands(ShareOf(w, c)) == 1
  }

  predicate AtMostOneHand(w: World)
  {
    forall c <- w.node.clients :: w.node.clients[c].valid && Hands(ShareOf(w, c)) <= 1
  }

  /** A step that neither strays nor loses a hand. */
  predicate KeepsHands(w: World, s: Step)
    requires Enabled(w, s)
  {
    !s.Find? && !s.Halt? ==>
      !Strays(s, w.node.clients[Subject(s)]) && !Loses(s, w.node.clients[Subject(s)])
  }

  lemma OneHandFor(w: World, s: Step, c: string)
    requires Enabled(w, s) && w.node.running && c in w.node.clients && w.node.clients[c].valid
    requires Hands(ShareOf(w, c)) == 1
    ensures c in Apply(w, s).node.clients && Apply(w, s).node.clients[c].valid
    ensures Hands(ShareOf(Apply(w, s), c)) == 1 <==> (On(s, c) ==> KeepsHands(w, s))
  {
    var x := w.node.clients[c];
    HandsStep(w, s, c);
    BookedLast(Hands(ShareOf(w, c)), Hands(ShareOf(Apply(w, s), c)),
               On(s, c) && Strays(s, x), On(s, c) && Loses(s, x), On(s, c) && Merges(s, x));
  }

  /**
   On a running node, a step keeps every client in exactly one hand iff it neither has a disconnected
   client reconnected once more nor loses a hand to an exception.
   */
  lemma OneHandStep(w: World, s: Step)
    requires Enabled(w, s) && w.node.running && OneHand(w)
    ensures OneHand(Apply(w, s)) <==> KeepsHands(w, s)
  {
    var v := Apply(w, s);
    KeysAfter(w, s);
    forall c <- w.node.clients
      ensures c in v.node.clients && v.node.clients[c].valid
      ensures Hands(ShareOf(v, c)) == 1 <==> (On(s, c) ==> KeepsHands(w, s))
    {
      OneHandFor(w, s, c);
    }
  }

  lemma AtMostOneHandStep(w: World, s: Step)
    requires Enabled(w, s) && w.node.running && AtMostOneHand(w) && ActsOnConnected(w, s)
    ensures AtMostOneHand(Apply(w, s))
  {
    var v := Apply(w, s);
    KeysAfter(w, s);
    forall c <- w.node.clients
      ensures c in v.node.clients && v.node.clients[c].valid && Hands(ShareOf(v, c)) <= 1
    {
      HandsStep(w, s, c);
    }
  }

  predicate Disciplined(w: World, steps: seq<Step>)
    requires Run(w, steps)
    decreases steps
  {
    steps == [] || (ActsOnConnected(w, steps[0]) && Disciplined(Apply(w, steps[0]), steps[1..]))
  }

  predicate AlwaysKeepsHands(w: World, steps: seq<Step>)
    requires Run(w, steps)
    decreases steps
  {
    steps == [] || (KeepsHands(w, steps[0]) && AlwaysKeepsHands(Apply(w, steps[0]), steps[1..]))
  }

  predicate AlwaysOneHand(w: World, steps: seq<Step>)
    requires Run(w, steps)
    decreases steps
  {
    OneHand(w) && (steps == [] || AlwaysOneHand(Apply(w, steps[0]), steps[1..]))
  }

  lemma {:induction false} OneHandRunFrom(w: World, steps: seq<Step>)
    requires Run(w, steps) && w.node.running && Halt !in steps && OneHand(w)
    ensures AlwaysOneHand(w, steps) <==> AlwaysKeepsHands(w, steps)
    decreases steps
  {
    if steps != [] {
      OneHandStep(w, steps[0]);
      RunningStays(w, steps[0]);
      if OneHand(Apply(w, steps[0])) {
        OneHandRunFrom(Apply(w, steps[0]), steps[1..]);
      }
    }
  }

  /**
   Every client is in exactly one hand throughout a run iff no step strays and none loses a hand: every
   callback and command that disconnects a client and has it reconnected finds it connected, no
   EstablishConnection throws, and no upgrade that throws finds its client connected.
   */
  lemma OneHandRun(w: World, steps: seq<Step>)
    requires Start(w) && Run(w, steps) && Halt !in steps
    ensures AlwaysOneHand(w, steps) <==> AlwaysKeepsHands(w, steps)
  {
    OneHandRunFrom(w, steps);
  }

  predicate NoThrow(steps: seq<Step>)
  {
    forall i | 0 <= i < |steps| :: !Throws(steps[i])
  }

  lemma NoThrowFrom(steps: seq<Step>)
    requires steps != []
    ensures NoThrow(steps) <==> !Throws(steps[0]) && NoThrow(steps[1..])
  {
    assert forall i | 1 <= i < |steps| :: steps[i] == steps[1..][i - 1];
  }

  lemma DisciplinedLoses(s: Step, x: ClientState)
    requires Cuts(s) ==> x.connected
    ensures (Loses(s, x) <==> Throws(s)) && !Strays(s, x)
  {
  }

  lemma DisciplinedSpares(w: World, s: Step)
    requires Enabled(w, s) && w.node.running && OneHand(w) && ActsOnConnected(w, s)
    ensures (KeepsHands(w, s) <==> !Throws(s)) && (Spares(w, s) <==> !Throws(s))
  {
    if !s.Find? && !s.Halt? {
      DisciplinedLoses(s, w.node.clients[Subject(s)]);
      assert Hands(ShareOf(w, Subject(s))) == 1;
    }
  }

  lemma DisciplinedHandsStep(w: World, s: Step)
    requires Enabled(w, s) && w.node.running && !s.Halt? && OneHand(w) && ActsOnConnected(w, s)
    ensures OneHand(Apply(w, s)) <==> !Throws(s)
    ensures Held(w) && (Held(Apply(w, s)) <==> !Throws(s))
  {
    DisciplinedSpares(w, s);
    OneHandStep(w, s);
    HeldStep(w, s);
  }

  lemma {:induction false} DisciplinedHeldRun(w: World, steps: seq<Step>)
    requires Run(w, steps) && Disciplined(w, steps) && Halt !in steps && w.node.running && OneHand(w)
    ensures AlwaysHeld(w, steps) <==> NoThrow(steps)
    ensures AlwaysOneHand(w, steps) <==> NoThrow(steps)
    decreases steps
  {
    if steps != [] {
      var v := Apply(w, steps[0]);
      DisciplinedHandsStep(w, steps[0]);
      RunningStays(w, steps[0]);
      NoThrowFrom(steps);
      if OneHand(v) {
        DisciplinedHeldRun(v, steps[1..]);
      }
    }
  }

  /** In a disciplined run nobody is stranded, and everybody stays in one hand, iff no step ends by an exception. */
  lemma NobodyStrandedIfDisciplined(w: World, steps: seq<Step>)
    requires Start(w) && Run(w, steps) && Disciplined(w, steps) && Halt !in steps
    ensures AlwaysHeld(w, steps) <==> NoThrow(steps)
    ensures AlwaysOneHand(w, steps) <==> NoThrow(steps)
  {
    DisciplinedHeldRun(w, steps);
  }

  function Connected(clients: map<string, ClientState>): set<string>
  {
    set c | c in clients && clients[c].connected
  }

  /** The live counter against the truth. */
  predicate Counts(w: World)
  {
    && w.node.slots != []
    && w.node.slots[0].live <= |Connected(w.node.clients)| <= w.node.slots[0].live + w.restarts
  }

  /** Clients_fd_ maps exactly the descriptors of the connected clients to these clients. */
  ghost predicate FdIndexExact(clients: map<string, ClientState>, fdIndex: map<int, string>)
  {
    && (forall c <- clients :: clients[c].connected <==> clients[c].fd != NO_FD)
    && (forall c <- clients :: clients[c].connected ==> clients[c].fd in fdIndex && fdIndex[clients[c].fd] == c)
    && (forall fd <- fdIndex :: fd != NO_FD && fdIndex[fd] in clients && clients[fdIndex[fd]].fd == fd)
  }

  /** The operating system hands out a descriptor no connection is using. */
  predicate FreshDescriptor(w: World, s: Step)
  {
    Connects(s) ==>
      && s.handshake.fd != NO_FD
      && forall c <- w.node.clients :: w.node.clients[c].connected ==> w.node.clients[c].fd != s.handshake.fd
  }

  lemma ConnectedUpdate(clients: map<string, ClientState>, c: string, state: ClientState)
    requires c in clients
    ensures |Connected(clients[c := state])| + (if clients[c].connected then 1 else 0)
         == |Connected(clients)| + (if state.connected then 1 else 0)
    ensures clients[c].connected ==> |Connected(clients)| >= 1
  {
    var was, now := Connected(clients), Connected(clients[c := state]);
    assert was - {c} == now - {c};
    CountWithout(was, c);
    CountWithout(now, c);
  }

  lemma CountWithout(s: set<string>, c: string)
    ensures |s| == |s - {c}| + (if c in s then 1 else 0)
  {
    if c in s {
      assert s == (s - {c}) + {c};
    } else {
      assert s == s - {c};
    }
  }

  /** What an effect does to the counter agrees with what it does to its client. */
  predicate BalancedLive(s: Step, was: ClientState, e: Effect)
  {
    && (e.live.Keep? ==> e.client.connected == was.connected && !s.Wake?)
    && (e.live.Raise? ==> e.client.connected && !was.connected && !s.Wake?)
    && (e.live.Lower? ==> !e.client.connected && (was.connected <==> !s.Wake?))
  }

  /** What an effect does to the index agrees with what it does to its client. */
  predicate BalancedIndex(s: Step, was: ClientState, e: Effect)
  {
    && (e.index.KeepIndex? ==> e.client.connected == was.connected && e.client.fd == was.fd)
    && (e.index.Forget? ==> e.index.fd == was.fd && !e.client.connected && e.client.fd == NO_FD)
    && (e.index.Remember? ==> Connects(s) && e.index.fd == s.handshake.fd == e.client.fd
                              && e.client.connected && !was.connected)
  }

  lemma LiveShift(s: Step, was: Share, now: Share)
    requires !s.Find? && !s.Halt? && Shifted(true, s, was, now)
    requires was.state.valid && Hands(was) <= 1 && (Cuts(s) ==> was.state.connected)
    ensures BalancedLive(s, was.state, EffectOf(true, was.state, WorkOf(s)))
  {
  }

  lemma IndexShift(s: Step, was: Share, now: Share)
    requires !s.Find? && !s.Halt? && Shifted(true, s, was, now)
    requires was.state.valid && Hands(was) <= 1 && (Cuts(s) ==> was.state.connected)
    requires was.state.connected <==> was.state.fd != NO_FD
    ensures BalancedIndex(s, was.state, EffectOf(true, was.state, WorkOf(s)))
  {
  }

  lemma CountedLive(master: bool, slots: Slots, change: LiveChange)
    requires slots != []
    ensures Counted(master, slots, change) != []
    ensures Counted(master, slots, change)[0].live
         == if change.Keep? || (change.Lower? && slots[0].live == 0) then slots[0].live
            else if change.Raise? then slots[0].live + 1 else slots[0].live - 1
  {
  }

  lemma FdIndexUpdate(s: Step, clients: map<string, ClientState>, fdIndex: map<int, string>, c: string, e: Effect)
    requires FdIndexExact(clients, fdIndex) && c in clients && BalancedIndex(s, clients[c], e)
    requires e.index.Remember? ==> e.index.fd != NO_FD && e.index.fd !in fdIndex
    ensures FdIndexExact(clients[c := e.client], Indexed(fdIndex, e.index, c))
  {
  }

  /** No client in two hands, the counter right up to finished restarts. */
  predicate Tallied(w: World)
  {
    AtMostOneHand(w) && Counts(w)
  }

  /** And the index exact. */
  ghost predicate Orderly(w: World)
  {
    Tallied(w) && FdIndexExact(w.node.clients, w.node.fdIndex)
  }

  lemma CountsStep(w: World, s: Step)
    requires Enabled(w, s) && !s.Find? && !s.Halt? && w.node.running && Tallied(w) && ActsOnConnected(w, s)
    ensures Counts(Apply(w, s))
  {
    var k, c := w.node, Subject(s);
    var e := EffectOf(true, k.clients[c], WorkOf(s));
    NodeAfter(w, s);
    ShareAfter(w, s, c);
    LiveShift(s, ShareOf(w, c), ShareOf(Apply(w, s), c));
    ConnectedUpdate(k.clients, c, e.client);
    CountedLive(k.master, k.slots, e.live);
  }

  lemma TalliedStep(w: World, s: Step)
    requires Enabled(w, s) && w.node.running && Tallied(w) && ActsOnConnected(w, s)
    ensures Tallied(Apply(w, s))
  {
    AtMostOneHandStep(w, s);
    if !s.Find? && !s.Halt? {
      CountsStep(w, s);
    }
  }

  lemma FdIndexStep(w: World, s: Step)
    requires Enabled(w, s) && !s.Find? && !s.Halt? && w.node.running && Orderly(w)
    requires ActsOnConnected(w, s) && FreshDescriptor(w, s)
    ensures FdIndexExact(Apply(w, s).node.clients, Apply(w, s).node.fdIndex)
  {
    var k, c := w.node, Subject(s);
    NodeAfter(w, s);
    ShareAfter(w, s, c);
    IndexShift(s, ShareOf(w, c), ShareOf(Apply(w, s), c));
    FdIndexUpdate(s, k.clients, k.fdIndex, c, EffectOf(true, k.clients[c], WorkOf(s)));
  }

  lemma OrderlyStep(w: World, s: Step)
    requires Enabled(w, s) && w.node.running && Orderly(w)
    requires ActsOnConnected(w, s) && FreshDescriptor(w, s)
    ensures Orderly(Apply(w, s))
  {
    TalliedStep(w, s);
    if !s.Find? && !s.Halt? {
      FdIndexStep(w, s);
    }
  }

  lemma {:induction false} TalliedRun(w: World, steps: seq<Step>)
    requires Run(w, steps) && Disciplined(w, steps) && Halt !in steps
    requires w.node.running && Tallied(w)
    ensures Tallied(After(w, steps))
    decreases steps
  {
    if steps != [] {
      TalliedStep(w, steps[0]);
      TalliedRun(Apply(w, steps[0]), steps[1..]);
    }
  }

  predicate FreshDescriptors(w: World, steps: seq<Step>)
    requires Run(w, steps)
    decreases steps
  {
    steps == [] || (FreshDescriptor(w, steps[0]) && FreshDescriptors(Apply(w, steps[0]), steps[1..]))
  }

  lemma {:induction false} OrderlyRun(w: World, steps: seq<Step>)
    requires Run(w, steps) && Disciplined(w, steps) && FreshDescriptors(w, steps) && Halt !in steps
    requires w.node.running && Orderly(w)
    ensures After(w, steps).node.running && Orderly(After(w, steps))
    ensures After(w, steps).node.clients.Keys == w.node.clients.Keys
    decreases steps
  {
    if steps != [] {
      OrderlyStep(w, steps[0]);
      KeysAfter(w, steps[0]);
      OrderlyRun(Apply(w, steps[0]), steps[1..]);
    }
  }

  lemma StartIsOrderly(w: World)
    requires Start(w)
    ensures Orderly(w)
  {
    assert Connected(w.node.clients) == {};
  }

  /**
   After any disciplined run the live counter lies between the number of connected clients and that
   number less the restarts carried through; without restarts it is exact.
   */
  lemma CounterAgainstTruth(w: World, steps: seq<Step>)
    requires Start(w) && Run(w, steps) && Disciplined(w, steps) && Halt !in steps
    ensures var v := After(w, steps);
      && v.node.slots != []
      && |Connected(v.node.clients)| - v.restarts <= v.node.slots[0].live <= |Connected(v.node.clients)|
      && (v.restarts == 0 ==> v.node.slots[0].live == |Connected(v.node.clients)|)
  {
    StartIsOrderly(w);
    TalliedRun(w, steps);
  }

  /** After any disciplined run Clients_fd_ is exactly the map from descriptors to connected clients. */
  lemma FdIndexIsExact(w: World, steps: seq<Step>)
    requires Start(w) && Run(w, steps) && Halt !in steps
    requires Disciplined(w, steps) && FreshDescriptors(w, steps)
    ensures var k := After(w, steps).node;
      && (forall fd, c :: fd in k.fdIndex && k.fdIndex[fd] == c
                          <==> c in k.clients && k.clients[c].connected && k.clients[c].fd == fd)
      && (forall c <- k.clients :: !k.clients[c].connected ==> k.clients[c].fd == NO_FD)
  {
    StartIsOrderly(w);
    OrderlyRun(w, steps);
  }

  /** SimulationRunner::run leaves the node where runs start. */
  lemma RunLeadsToStart(runner: SimulationRunner, macPrefix: string, first: nat, end: nat)
    requires runner.Valid() && runner.Running && runner.ClientsFd == map[] && runner.Waiting(macPrefix, first, end)
    requires runner.View().slots != [] && runner.View().slots[0].live == 0
    ensures Start(World(runner.View(), multiset{}, multiset{}, 0))
  {
    var k := runner.View();
    assert k.clients.Keys == runner.Clients.Keys;
    assert forall c <- k.clients :: k.clients[c] == runner.Clients[c].State();
  }
}
