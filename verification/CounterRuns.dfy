/**
 When the live counter of a node is right. The conditions are guards on single steps, stated on the
 state a step finds; runs that break them show what the counter then does.
 */
module CounterRuns {
  import opened Devices
  import opened DeviceRuns

  /** The number of connected clients. */
  function Truth(w: World): nat
  {
    |Connected(w.node.clients)|
  }

  /** A connection comes up. */
  predicate Raises(running: bool, s: Step)
  {
    running && Connects(s)
  }

  /** Reconnect clears Connected_ without telling the counter. */
  predicate Clears(running: bool, s: Step, x: ClientState)
  {
    running && x.valid && (s.CallReconnect? || (s.Fire? && s.event.kind == Reconnect))
  }

  /** OWLSclient::Disconnect runs, whether or not the client is connected. */
  predicate Lowers(running: bool, s: Step, x: ClientState)
  {
    x.valid &&
    match s
    case Drop(_) => true
    case Obey(_, command, answer) =>
      (answer == Sent && (Restarts(command) || Aborts(command))) || (answer == Unsent && running)
    case Read(_, frame) => running && (frame == Broken || frame == Unsupported(false))
    case Wake(_) => running
    case Fire(e, _, sent, _) => running && x.connected && !sent && e.kind != Establish && e.kind != Reconnect
    case _ => false
  }

  lemma EffectOnCounter(running: bool, s: Step, x: ClientState)
    requires !s.Find? && !s.Halt?
    ensures var e := EffectOf(running, x, WorkOf(s));
      && (e.live.Raise? <==> Raises(running, s))
      && (e.live.Lower? <==> Lowers(running, s, x))
      && (e.client.connected <==>
            Raises(running, s) || (x.connected && !Clears(running, s, x) && !Lowers(running, s, x)))
  {
  }

  /** What a step does to the counter and to the number of connected clients. */
  lemma CounterStep(w: World, s: Step)
    requires Enabled(w, s) && !s.Find? && !s.Halt? && w.node.slots != []
    ensures var running := w.node.running; var x := w.node.clients[Subject(s)];
      var was := w.node.slots[0].live; var v := Apply(w, s);
      && v.node.slots != []
      && v.node.slots[0].live == (if Raises(running, s) then was + 1
                                  else if Lowers(running, s, x) && was > 0 then was - 1 else was)
      && Truth(v) + AsNat(x.connected) == Truth(w) + AsNat(
           Raises(running, s) || (x.connected && !Clears(running, s, x) && !Lowers(running, s, x)))
      && (x.connected ==> Truth(w) >= 1)
  {
    var k, c := w.node, Subject(s);
    var e := EffectOf(k.running, k.clients[c], WorkOf(s));
    NodeAfter(w, s);
    EffectOnCounter(k.running, s, k.clients[c]);
    ConnectedUpdate(k.clients, c, e.client);
    CountedLive(k.master, k.slots, e.live);
  }

  // ---- Exactly right ----------------------------------------------------------------------------

  predicate Right(w: World)
  {
    w.node.slots != [] && w.node.slots[0].live == Truth(w)
  }

  /**
   A connection and a Reconnect find their client disconnected; a disconnection finds it connected or
   has nothing left to take away.
   */
  predicate Fair(w: World, s: Step)
    requires Enabled(w, s)
  {
    !s.Find? && !s.Halt? ==>
      var x := w.node.clients[Subject(s)];
      && (Raises(w.node.running, s) || Clears(w.node.running, s, x) ==> !x.connected)
      && (Lowers(w.node.running, s, x) ==> x.connected || (w.node.slots != [] && w.node.slots[0].live == 0))
  }

  lemma RightStep(w: World, s: Step)
    requires Enabled(w, s) && Right(w)
    ensures Right(Apply(w, s)) <==> Fair(w, s)
  {
    if !s.Find? && !s.Halt? {
      CounterStep(w, s);
    }
  }

  predicate AlwaysRight(w: World, steps: seq<Step>)
    requires Run(w, steps)
    decreases steps
  {
    Right(w) && (steps == [] || AlwaysRight(Apply(w, steps[0]), steps[1..]))
  }

  predicate AlwaysFair(w: World, steps: seq<Step>)
    requires Run(w, steps)
    decreases steps
  {
    steps == [] || (Fair(w, steps[0]) && AlwaysFair(Apply(w, steps[0]), steps[1..]))
  }

  lemma {:induction false} RightRun(w: World, steps: seq<Step>)
    requires Run(w, steps) && Right(w)
    ensures AlwaysRight(w, steps) <==> AlwaysFair(w, steps)
    decreases steps
  {
    if steps != [] {
      RightStep(w, steps[0]);
      if Right(Apply(w, steps[0])) {
        RightRun(Apply(w, steps[0]), steps[1..]);
      }
    }
  }

  lemma StartIsRight(w: World)
    requires Start(w)
    ensures Right(w)
  {
    assert Connected(w.node.clients) == {};
  }

  /** In every run, stopped or not: the counter is right throughout iff every step is fair. */
  lemma CounterIsRightIff(w: World, steps: seq<Step>)
    requires Start(w) && Run(w, steps)
    ensures AlwaysRight(w, steps) <==> AlwaysFair(w, steps)
  {
    StartIsRight(w);
    RightRun(w, steps);
  }

  /** When a restarting command wakes up, the counter is at zero. */
  predicate WakesAtZero(w: World, steps: seq<Step>)
    requires Run(w, steps)
    decreases steps
  {
    steps != [] ==>
      && (steps[0].Wake? ==> w.node.slots != [] && w.node.slots[0].live == 0)
      && WakesAtZero(Apply(w, steps[0]), steps[1..])
  }

  /** With no client in two hands, connections and Reconnects find their client disconnected. */
  lemma HandsAreFair(w: World, s: Step)
    requires Enabled(w, s) && !s.Find? && !s.Halt? && AtMostOneHand(w)
    ensures var x := w.node.clients[Subject(s)];
      && x.valid
      && (Raises(w.node.running, s) || Clears(w.node.running, s, x) || s.Wake? ==> !x.connected)
  {
    var c := Subject(s);
    assert Hands(ShareOf(w, c)) <= 1;
    if s.Wake? {
      assert Consumed(s)[Asleep(c)] == 1;
    } else if s.CallReconnect? {
      assert Consumed(s)[Gone(c)] == 1;
    }
  }

  lemma FairIfDisciplined(w: World, s: Step)
    requires Enabled(w, s) && w.node.running && AtMostOneHand(w) && ActsOnConnected(w, s)
    ensures Fair(w, s) <==> (s.Wake? ==> w.node.slots != [] && w.node.slots[0].live == 0)
  {
    if !s.Find? && !s.Halt? {
      HandsAreFair(w, s);
    }
  }

  lemma {:induction false} DisciplinedRightRun(w: World, steps: seq<Step>)
    requires Run(w, steps) && Disciplined(w, steps) && Halt !in steps
    requires w.node.running && AtMostOneHand(w) && Right(w)
    ensures AlwaysRight(w, steps) <==> WakesAtZero(w, steps)
    decreases steps
  {
    if steps != [] {
      var v := Apply(w, steps[0]);
      FairIfDisciplined(w, steps[0]);
      RightStep(w, steps[0]);
      AtMostOneHandStep(w, steps[0]);
      if Right(v) {
        DisciplinedRightRun(v, steps[1..]);
      }
    }
  }

  /** In disciplined runs the counter is right throughout iff every restart wakes up to a counter of zero. */
  lemma DisciplinedCounterIsRightIff(w: World, steps: seq<Step>)
    requires Start(w) && Run(w, steps) && Disciplined(w, steps) && Halt !in steps
    ensures AlwaysRight(w, steps) <==> WakesAtZero(w, steps)
  {
    StartIsRight(w);
    StartIsOrderly(w);
    DisciplinedRightRun(w, steps);
  }

  // ---- Never too high ---------------------------------------------------------------------------

  predicate Covered(w: World)
  {
    w.node.slots != [] && w.node.slots[0].live <= Truth(w)
  }

  /** A connection or a Reconnect that finds its client connected also finds the counter too low. */
  predicate HasRoom(w: World, s: Step)
    requires Enabled(w, s)
  {
    !s.Find? && !s.Halt? ==>
      var x := w.node.clients[Subject(s)];
      (Raises(w.node.running, s) || Clears(w.node.running, s, x)) && x.connected ==>
        w.node.slots != [] && w.node.slots[0].live < Truth(w)
  }

  lemma CoveredStep(w: World, s: Step)
    requires Enabled(w, s) && Covered(w)
    ensures Covered(Apply(w, s)) <==> HasRoom(w, s)
  {
    if !s.Find? && !s.Halt? {
      CounterStep(w, s);
    }
  }

  predicate AlwaysCovered(w: World, steps: seq<Step>)
    requires Run(w, steps)
    decreases steps
  {
    Covered(w) && (steps == [] || AlwaysCovered(Apply(w, steps[0]), steps[1..]))
  }

  predicate AlwaysRoom(w: World, steps: seq<Step>)
    requires Run(w, steps)
    decreases steps
  {
    steps == [] || (HasRoom(w, steps[0]) && AlwaysRoom(Apply(w, steps[0]), steps[1..]))
  }

  lemma {:induction false} CoveredRun(w: World, steps: seq<Step>)
    requires Run(w, steps) && Covered(w)
    ensures AlwaysCovered(w, steps) <==> AlwaysRoom(w, steps)
    decreases steps
  {
    if steps != [] {
      CoveredStep(w, steps[0]);
      if Covered(Apply(w, steps[0])) {
        CoveredRun(Apply(w, steps[0]), steps[1..]);
      }
    }
  }

  /** In every run: the counter never exceeds the connected clients iff every step has room. */
  lemma CounterIsCoveredIff(w: World, steps: seq<Step>)
    requires Start(w) && Run(w, steps)
    ensures AlwaysCovered(w, steps) <==> AlwaysRoom(w, steps)
  {
    StartIsRight(w);
    CoveredRun(w, steps);
  }

  /** Discipline is more than enough for that. */
  lemma DisciplineGivesRoom(w: World, s: Step)
    requires Enabled(w, s) && AtMostOneHand(w)
    ensures HasRoom(w, s)
  {
    if !s.Find? && !s.Halt? {
      HandsAreFair(w, s);
    }
  }

  // ---- The books of the counter -----------------------------------------------------------------

  /** A step after which the counter is one higher against the connected clients. */
  predicate TooMany(w: World, s: Step)
    requires Enabled(w, s)
  {
    !s.Find? && !s.Halt? &&
      var x := w.node.clients[Subject(s)];
      && x.connected
      && (Raises(w.node.running, s) || Clears(w.node.running, s, x)
          || (Lowers(w.node.running, s, x) && w.node.slots != [] && w.node.slots[0].live == 0))
  }

  /** A step after which it is one lower. */
  predicate TooFew(w: World, s: Step)
    requires Enabled(w, s)
  {
    !s.Find? && !s.Halt? &&
      var x := w.node.clients[Subject(s)];
      !x.connected && Lowers(w.node.running, s, x) && w.node.slots != [] && w.node.slots[0].live > 0
  }

  lemma BooksStep(w: World, s: Step)
    requires Enabled(w, s) && w.node.slots != []
    ensures var v := Apply(w, s);
      && v.node.slots != []
      && v.node.slots[0].live + Truth(w) + AsNat(TooFew(w, s))
         == w.node.slots[0].live + Truth(v) + AsNat(TooMany(w, s))
  {
    if !s.Find? && !s.Halt? {
      CounterStep(w, s);
    }
  }

  /** How often each happens in a run. */
  datatype Books = Books(tooMany: nat, tooFew: nat)

  function BooksOf(w: World, steps: seq<Step>): Books
    requires Run(w, steps)
    decreases steps
  {
    if steps == [] then Books(0, 0)
    else
      var rest := BooksOf(Apply(w, steps[0]), steps[1..]);
      Books(rest.tooMany + AsNat(TooMany(w, steps[0])), rest.tooFew + AsNat(TooFew(w, steps[0])))
  }

  lemma {:induction false} BooksRun(w: World, steps: seq<Step>)
    requires Run(w, steps) && w.node.slots != []
    ensures var v := After(w, steps); var books := BooksOf(w, steps);
      && v.node.slots != []
      && v.node.slots[0].live + Truth(w) + books.tooFew == w.node.slots[0].live + Truth(v) + books.tooMany
    decreases steps
  {
    if steps != [] {
      BooksStep(w, steps[0]);
      BooksRun(Apply(w, steps[0]), steps[1..]);
    }
  }

  /**
   After every run the counter exceeds the connected clients by the history of the run alone: clients
   found connected by connections, Reconnects, and disconnections at zero, less those found disconnected
   by disconnections above zero. So it is right iff these are as many, and covered iff they are no more.
   */
  lemma CounterBooks(w: World, steps: seq<Step>)
    requires Start(w) && Run(w, steps)
    ensures var v := After(w, steps); var books := BooksOf(w, steps);
      && v.node.slots != [] && v.node.slots[0].live + books.tooFew == Truth(v) + books.tooMany
      && (Right(v) <==> books.tooMany == books.tooFew)
      && (Covered(v) <==> books.tooMany <= books.tooFew)
  {
    StartIsRight(w);
    BooksRun(w, steps);
  }

  // ---- What the counter does otherwise ----------------------------------------------------------

  /** One client of a running node together with the counter and the number of connected clients. */
  datatype Profile = Profile(share: Share, live: nat, truth: nat)

  predicate Shown(w: World, c: string)
  {
    w.node.running && w.node.slots != [] && c in w.node.clients && w.node.clients[c].valid
  }

  function ProfileOf(w: World, c: string): Profile
    requires Shown(w, c)
  {
    Profile(ShareOf(w, c), w.node.slots[0].live, Truth(w))
  }

  /** How a step on a client of a running node changes its profile. */
  predicate Moved(s: Step, was: Profile, now: Profile)
    requires !s.Find? && !s.Halt?
  {
    var x := was.share.state;
    && Shifted(true, s, was.share, now.share)
    && CountMoved(s, x, was.live, now.live) && TruthMoved(s, x, was.truth, now.truth)
  }

  predicate CountMoved(s: Step, x: ClientState, was: nat, now: nat)
    requires !s.Find? && !s.Halt?
  {
    now == if Raises(true, s) then was + 1 else if Lowers(true, s, x) && was > 0 then was - 1 else was
  }

  predicate TruthMoved(s: Step, x: ClientState, was: nat, now: nat)
    requires !s.Find? && !s.Halt?
  {
    now + AsNat(x.connected)
      == was + AsNat(Raises(true, s) || (x.connected && !Clears(true, s, x) && !Lowers(true, s, x)))
  }

  lemma CountsMove(w: World, s: Step)
    requires Enabled(w, s) && !s.Find? && !s.Halt? && w.node.slots != [] && w.node.running
    ensures var x := w.node.clients[Subject(s)]; var v := Apply(w, s);
      && v.node.slots != [] && CountMoved(s, x, w.node.slots[0].live, v.node.slots[0].live)
      && TruthMoved(s, x, Truth(w), Truth(v))
  {
    CounterStep(w, s);
  }

  lemma ShareMoves(w: World, s: Step, c: string)
    requires Enabled(w, s) && !s.Find? && !s.Halt? && Subject(s) == c && w.node.running && c in w.node.clients
    ensures c in Apply(w, s).node.clients && Shifted(true, s, ShareOf(w, c), ShareOf(Apply(w, s), c))
  {
    ShareAfter(w, s, c);
  }

  lemma ShownAfter(w: World, s: Step, c: string)
    requires Enabled(w, s) && !s.Find? && !s.Halt? && Shown(w, c)
    ensures Shown(Apply(w, s), c)
  {
    assert Apply(w, s).node.slots != [] by { CounterStep(w, s); }
    RunningStays(w, s);
    StateAfter(w, s, c);
    ValidStays(w.node.running, s, w.node.clients[c]);
  }

  lemma ProfileAfter(w: World, s: Step, c: string)
    requires Enabled(w, s) && !s.Find? && !s.Halt? && Subject(s) == c && Shown(w, c)
    ensures Shown(Apply(w, s), c) && Moved(s, ProfileOf(w, c), ProfileOf(Apply(w, s), c))
  {
    ShownAfter(w, s, c);
    CountsMove(w, s);
    ShareMoves(w, s, c);
  }
}
