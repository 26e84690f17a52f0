/**
 The registry of micro-services fed by bus messages (MicroService::BusMessageReceived).
 */
module Registry {
  import opened Common

  datatype EventName = Join | KeepAlive | Leave | RemoveToken | OtherEvent

  datatype Fields = Fields(kind: string, public: string, private: string, version: string, key: string)

  /**
   A bus message as the parser sees it: unreadable (an exception is raised and caught), lacking id or
   event, or a service event whose other fields may be incomplete.
   */
  datatype Payload = Unreadable | NoEvent | Message(id: nat, event: EventName, fields: Option<Fields>)

  /** A message with the two clock readings taken while it is handled. */
  datatype Arrival = Arrival(payload: Payload, stamp: nat, now: nat)

  datatype Meta = Meta(id: nat, kind: string, private: string, public: string, accessKey: string, version: string,
                       lastUpdate: nat)

  const EXPIRY: nat := 60

  /** A complete join, keep-alive or leave of another process. */
  predicate Relevant(self: nat, p: Payload)
  {
    p.Message? && p.id != self && p.fields.Some? && (p.event == Join || p.event == KeepAlive || p.event == Leave)
  }

  function MetaOf(p: Payload, stamp: nat): Meta
    requires p.Message? && p.fields.Some?
  {
    var f := p.fields.value;
    Meta(p.id, ToLower(f.kind), f.private, f.public, f.key, f.version, stamp)
  }

  /** The effect of the event itself. */
  function Noted(services: map<string, Meta>, self: nat, p: Payload, stamp: nat): map<string, Meta>
  {
    if !Relevant(self, p) then services
    else
      var ep := p.fields.value.private;
      if p.event == KeepAlive && ep in services then services[ep := services[ep].(lastUpdate := stamp)]
      else if p.event == Leave then services - {ep}
      else services[ep := MetaOf(p, stamp)]
  }

  predicate Expired(m: Meta, now: nat)
  {
    Minus64(now, m.lastUpdate) > EXPIRY
  }

  function Swept(services: map<string, Meta>, now: nat): map<string, Meta>
  {
    map ep | ep in services && !Expired(services[ep], now) :: services[ep]
  }

  function Received(services: map<string, Meta>, self: nat, a: Arrival): map<string, Meta>
  {
    if a.payload.Unreadable? then services else Swept(Noted(services, self, a.payload, a.stamp), a.now)
  }

  class MicroService {
    const Id: nat
    var Services: map<string, Meta>

    constructor (id: nat)
      ensures Id == id && Services == map[]
    {
      Id := id;
      Services := map[];
    }

    method BusMessageReceived(payload: Payload, stamp: nat, now: nat)
      modifies this
      ensures Services == Received(old(Services), Id, Arrival(payload, stamp, now))
    {
      if payload.Unreadable? { return; }
      if payload.Message? && payload.id != Id {
        if payload.event == Join || payload.event == KeepAlive || payload.event == Leave {
          if payload.fields.Some? {
            var f := payload.fields.value;
            if payload.event == KeepAlive && f.private in Services {
              Services := Services[f.private := Services[f.private].(lastUpdate := stamp)];
            } else if payload.event == Leave {
              Services := Services - {f.private};
            } else {
              Services := Services[f.private :=
                Meta(payload.id, ToLower(f.kind), f.private, f.public, f.key, f.version, stamp)];
            }
          }
        }
      }
      Sweep(now);
    }

    /** The loop that erases stale entries while walking the map. */
    method Sweep(now: nat)
      modifies this
      ensures Services == Swept(old(Services), now)
    {
      var todo := Services.Keys;
      while todo != {}
        invariant todo <= Services.Keys <= old(Services).Keys
        invariant forall ep <- Services :: Services[ep] == old(Services)[ep]
        invariant forall ep <- old(Services) :: ep !in todo ==> (ep in Services <==> !Expired(old(Services)[ep], now))
        decreases todo
      {
        var ep :| ep in todo;
        todo := todo - {ep};
        if Minus64(now, Services[ep].lastUpdate) > EXPIRY {
          Services := Services - {ep};
        }
      }
    }
  }

  /** The registry after a history of messages. */
  function After(self: nat, h: seq<Arrival>): map<string, Meta>
  {
    if h == [] then map[] else Received(After(self, h[..|h| - 1]), self, h[|h| - 1])
  }

  /** Clock readings never go back and fit 64 bits. */
  predicate ClockForward(h: seq<Arrival>)
  {
    && (forall i | 0 <= i < |h| :: h[i].stamp <= h[i].now < TWO_64)
    && (forall i, j | 0 <= i < j < |h| :: h[i].now <= h[j].stamp)
  }

  /** A join, keep-alive or leave of another process, with all its fields, that names the endpoint. */
  predicate Concerns(self: nat, a: Arrival, ep: string)
  {
    && a.payload.Message? && a.payload.id != self
    && (a.payload.event == Join || a.payload.event == KeepAlive || a.payload.event == Leave)
    && a.payload.fields.Some? && a.payload.fields.value.private == ep
  }

  /** Index of the last event of an endpoint. */
  function Latest(self: nat, h: seq<Arrival>, ep: string): (i: Option<nat>)
    ensures i.Some? ==> i.value < |h| && Concerns(self, h[i.value], ep)
  {
    if h == [] then None
    else if Concerns(self, h[|h| - 1], ep) then Some(|h| - 1)
    else Latest(self, h[..|h| - 1], ep)
  }

  lemma {:induction false} LatestIsLast(self: nat, h: seq<Arrival>, ep: string, j: nat)
    requires j < |h| && Concerns(self, h[j], ep)
    ensures Latest(self, h, ep).Some? && j <= Latest(self, h, ep).value
  {
    if j < |h| - 1 { LatestIsLast(self, h[..|h| - 1], ep, j); }
  }

  /** When the last readable message was handled. */
  function LastHandled(h: seq<Arrival>): nat
  {
    if h == [] then 0
    else if h[|h| - 1].payload.Unreadable? then LastHandled(h[..|h| - 1])
    else h[|h| - 1].now
  }

  /** The history's own definition of being registered. */
  predicate Registered(self: nat, h: seq<Arrival>, ep: string)
  {
    var i := Latest(self, h, ep);
    && i.Some? && h[i.value].payload.event != Leave
    && LastHandled(h) - h[i.value].stamp <= 60
  }

  /** A join, or a keep-alive that found its endpoint unregistered. */
  predicate Inserts(self: nat, h: seq<Arrival>, i: nat, ep: string)
    requires i < |h|
  {
    Concerns(self, h[i], ep) &&
    (h[i].payload.event == Join || (h[i].payload.event == KeepAlive && !Registered(self, h[..i], ep)))
  }

  lemma {:induction false} HandledBy(h: seq<Arrival>, t: nat)
    requires forall i | 0 <= i < |h| :: h[i].now <= t
    ensures LastHandled(h) <= t
  {
    if h != [] { HandledBy(h[..|h| - 1], t); }
  }

  lemma NoWrap(a: nat, b: nat)
    requires b <= a < TWO_64
    ensures Minus64(a, b) == a - b
  {
  }

  function Lookup(services: map<string, Meta>, ep: string): Option<Meta>
  {
    if ep in services then Some(services[ep]) else None
  }

  /** What a message leaves of one endpoint's entry. */
  function Kept(was: Option<Meta>, self: nat, a: Arrival, ep: string): Option<Meta>
  {
    if a.payload.Unreadable? then was
    else
      var noted :=
        if !Concerns(self, a, ep) then was
        else if a.payload.event == Leave then None
        else if a.payload.event == KeepAlive && was.Some? then Some(was.value.(lastUpdate := a.stamp))
        else Some(MetaOf(a.payload, a.stamp));
      if noted.Some? && Expired(noted.value, a.now) then None else noted
  }

  lemma ReceivedAt(services: map<string, Meta>, self: nat, a: Arrival, ep: string)
    ensures Lookup(Received(services, self, a), ep) == Kept(Lookup(services, ep), self, a, ep)
  {
  }

  /** An endpoint is in the map iff the history registers it, stamped with its latest event. */
  lemma {:induction false} RegistryIsHistory(self: nat, h: seq<Arrival>, ep: string)
    requires ClockForward(h)
    ensures ep in After(self, h) <==> Registered(self, h, ep)
    ensures ep in After(self, h) ==> After(self, h)[ep].lastUpdate == h[Latest(self, h, ep).value].stamp
  {
    if h != [] {
      RegistryIsHistory(self, h[..|h| - 1], ep);
      ReceivedAt(After(self, h[..|h| - 1]), self, h[|h| - 1], ep);
      if Concerns(self, h[|h| - 1], ep) {
        NoWrap(h[|h| - 1].now, h[|h| - 1].stamp);
      } else if Latest(self, h[..|h| - 1], ep).Some? {
        SweptByTime(self, h, ep);
      }
    }
  }

  /** Messages about other things sweep an entry away when its time is up. */
  lemma SweptByTime(self: nat, h: seq<Arrival>, ep: string)
    requires ClockForward(h) && h != [] && Latest(self, h[..|h| - 1], ep).Some?
    ensures var before := h[..|h| - 1]; var i := Latest(self, before, ep).value; var now := h[|h| - 1].now;
      && before[i] == h[i] && LastHandled(before) <= now && h[i].stamp <= now < TWO_64
      && Minus64(now, h[i].stamp) == now - h[i].stamp
  {
    var before := h[..|h| - 1];
    HandledBy(before, h[|h| - 1].now);
    NoWrap(h[|h| - 1].now, h[Latest(self, before, ep).value].stamp);
  }

  lemma InsertsBefore(self: nat, h: seq<Arrival>, n: nat, j: nat, ep: string)
    requires j < n <= |h|
    ensures Inserts(self, h, j, ep) == Inserts(self, h[..n], j, ep) && h[j] == h[..n][j]
  {
    assert h[..j] == h[..n][..j];
  }

  /** The last message inserted the endpoint. */
  lemma InsertedNow(self: nat, h: seq<Arrival>, ep: string)
    requires ClockForward(h) && h != [] && Inserts(self, h, |h| - 1, ep) && ep in After(self, h)
    ensures After(self, h)[ep] == MetaOf(h[|h| - 1].payload, After(self, h)[ep].lastUpdate)
  {
    RegistryIsHistory(self, h[..|h| - 1], ep);
    ReceivedAt(After(self, h[..|h| - 1]), self, h[|h| - 1], ep);
  }

  /** The last message found it there and renewed it at most. */
  lemma KeptNow(self: nat, h: seq<Arrival>, ep: string)
    requires ClockForward(h) && h != [] && !Inserts(self, h, |h| - 1, ep) && ep in After(self, h)
    ensures var before := After(self, h[..|h| - 1]);
      && ep in before && After(self, h)[ep] == before[ep].(lastUpdate := After(self, h)[ep].lastUpdate)
    ensures Concerns(self, h[|h| - 1], ep) ==> h[|h| - 1].payload.event == KeepAlive
  {
    RegistryIsHistory(self, h[..|h| - 1], ep);
    ReceivedAt(After(self, h[..|h| - 1]), self, h[|h| - 1], ep);
  }

  lemma {:induction false} LastInsertion(self: nat, h: seq<Arrival>, ep: string) returns (i: nat)
    requires ClockForward(h) && ep in After(self, h)
    ensures i < |h| && Inserts(self, h, i, ep)
    ensures forall j | i < j < |h| && Concerns(self, h[j], ep) ::
      h[j].payload.event == KeepAlive && !Inserts(self, h, j, ep)
    ensures After(self, h)[ep] == MetaOf(h[i].payload, After(self, h)[ep].lastUpdate)
  {
    if Inserts(self, h, |h| - 1, ep) {
      i := |h| - 1;
      InsertedNow(self, h, ep);
    } else {
      KeptNow(self, h, ep);
      i := LastInsertion(self, h[..|h| - 1], ep);
      InsertsAllBefore(self, h, ep);
    }
  }

  /** Its metadata is that of the last event that inserted it; keep-alives renewed only the time since. */
  lemma MetadataIsLastInsertion(self: nat, h: seq<Arrival>, ep: string) returns (i: nat)
    requires ClockForward(h) && ep in After(self, h)
    ensures i < |h| && Inserts(self, h, i, ep)
    ensures forall j | i < j < |h| && Concerns(self, h[j], ep) ::
      h[j].payload.event == KeepAlive && !Inserts(self, h, j, ep)
    ensures var m := After(self, h)[ep]; var f := h[i].payload.fields.value;
      && m.id == h[i].payload.id != self && m.private == f.private == ep && m.public == f.public
      && m.kind == ToLower(f.kind) && m.accessKey == f.key && m.version == f.version
  {
    i := LastInsertion(self, h, ep);
  }

  lemma InsertsAllBefore(self: nat, h: seq<Arrival>, ep: string)
    requires h != []
    ensures forall j | 0 <= j < |h| - 1 ::
      Inserts(self, h, j, ep) == Inserts(self, h[..|h| - 1], j, ep) && h[j] == h[..|h| - 1][j]
  {
    forall j | 0 <= j < |h| - 1
      ensures Inserts(self, h, j, ep) == Inserts(self, h[..|h| - 1], j, ep) && h[j] == h[..|h| - 1][j]
    {
      InsertsBefore(self, h, |h| - 1, j, ep);
    }
  }

  // ---- One message more -------------------------------------------------------------------------

  /** A complete message of this kind from another process about the endpoint. */
  predicate Says(self: nat, a: Arrival, event: EventName, ep: string)
  {
    && a.payload.Message? && a.payload.id != self && a.payload.event == event
    && a.payload.fields.Some? && a.payload.fields.value.private == ep
  }

  /** The clock has not gone back, and the message was handled within a minute of its stamp. */
  predicate Timely(a: Arrival)
  {
    a.stamp <= a.now <= a.stamp + 60 && a.now < 0x1_0000_0000_0000_0000
  }

  lemma OneMore(self: nat, h: seq<Arrival>, a: Arrival, ep: string)
    ensures Lookup(After(self, h + [a]), ep) == Kept(Lookup(After(self, h), ep), self, a, ep)
  {
    assert (h + [a])[..|h + [a]| - 1] == h;
    ReceivedAt(After(self, h), self, a, ep);
  }

  /** After any history, a leave takes the endpoint out. */
  lemma LeaveRemoves(self: nat, h: seq<Arrival>, a: Arrival, ep: string)
    requires Says(self, a, Leave, ep)
    ensures ep !in After(self, h + [a])
  {
    OneMore(self, h, a, ep);
  }

  /** After any history, a join puts it in, with all that the message says. */
  lemma JoinRegisters(self: nat, h: seq<Arrival>, a: Arrival, ep: string)
    requires Says(self, a, Join, ep) && Timely(a)
    ensures ep in After(self, h + [a])
    ensures var f := a.payload.fields.value;
      After(self, h + [a])[ep] == Meta(a.payload.id, ToLower(f.kind), ep, f.public, f.key, f.version, a.stamp)
  {
    OneMore(self, h, a, ep);
    NoWrap(a.now, a.stamp);
  }

  /** A keep-alive renews what is there and otherwise works as a join. */
  lemma KeepAliveRenews(self: nat, h: seq<Arrival>, a: Arrival, ep: string)
    requires Says(self, a, KeepAlive, ep) && Timely(a)
    ensures ep in After(self, h + [a])
    ensures var f := a.payload.fields.value;
      After(self, h + [a])[ep] ==
        if ep in After(self, h) then After(self, h)[ep].(lastUpdate := a.stamp)
        else Meta(a.payload.id, ToLower(f.kind), ep, f.public, f.key, f.version, a.stamp)
  {
    OneMore(self, h, a, ep);
    NoWrap(a.now, a.stamp);
  }

  /**
   Any other readable message (an own one, an incomplete one, another event, another endpoint) adds and
   renews nothing: the entry is as it was, or gone if it was stamped more than a minute ago, or after a
   clock that has gone back.
   */
  lemma OthersOnlySweep(self: nat, h: seq<Arrival>, a: Arrival, ep: string)
    requires !a.payload.Unreadable?
    requires !Says(self, a, Join, ep) && !Says(self, a, KeepAlive, ep) && !Says(self, a, Leave, ep)
    requires a.now < 0x1_0000_0000_0000_0000
    requires ep in After(self, h) ==> After(self, h)[ep].lastUpdate < 0x1_0000_0000_0000_0000
    ensures ep in After(self, h + [a]) <==>
      ep in After(self, h) && Elapsed(After(self, h)[ep].lastUpdate, a.now) <= 60
    ensures ep in After(self, h + [a]) ==> After(self, h + [a])[ep] == After(self, h)[ep]
  {
    OneMore(self, h, a, ep);
    if ep in After(self, h) {
      Minus64IsElapsed(After(self, h)[ep].lastUpdate, a.now);
    }
  }

  /** A message that cannot be parsed does not even sweep. */
  lemma UnreadableChangesNothing(self: nat, h: seq<Arrival>, a: Arrival)
    requires a.payload.Unreadable?
    ensures After(self, h + [a]) == After(self, h)
  {
    assert (h + [a])[..|h + [a]| - 1] == h;
  }

  /** Lower case is ASCII's, character by character. */
  lemma LowerCase()
    ensures ToLower("OwGw-AZaz@[09") == "owgw-azaz@[09"
  {
  }
}
