/** WebSocket connections: the per-IP counter and the ping/pong heartbeat of
    RFC 6455, sections 5.5.2 and 5.5.3. */
module Heartbeat {
  import opened Common

  /** `alive` is the `isAlive` property, absent on a socket whose upgrade was
      refused; `terminated` until the close event arrives. */
  datatype Socket = Socket(ip: string, accepted: bool, alive: Option<bool>, terminated: bool, closed: bool)

  datatype Server = Server(sockets: map<nat, Socket>, counts: map<string, int>)

  datatype Event = Connect(id: nat, ip: string, authorised: bool) | Pong(id: nat) | Closed(id: nat) | Sweep

  function CountOf(s: Server, ip: string): int {
    if ip in s.counts then s.counts[ip] else 0
  }

  predicate Open(s: Server, id: nat) { id in s.sockets && !s.sockets[id].closed }

  predicate Listening(s: Server, id: nat) { Open(s, id) && s.sockets[id].accepted && !s.sockets[id].terminated }

  /** Socket ids are fresh, a close event comes once, and a terminated socket
      sends nothing more. */
  predicate Possible(s: Server, e: Event) {
    match e
    case Connect(id, _, _) => id !in s.sockets
    case Pong(id) => Open(s, id) && !s.sockets[id].terminated
    case Closed(id) => Open(s, id)
    case Sweep => true
  }

  function Swept(k: Socket): Socket {
    if k.closed then k
    else if k.alive == Some(false) then k.(terminated := true)
    else k.(alive := Some(false))
  }

  function Step(s: Server, e: Event): Server
    requires Possible(s, e)
  {
    match e
    case Connect(id, ip, authorised) =>
      if authorised then
        Server(s.sockets[id := Socket(ip, true, Some(true), false, false)], s.counts[ip := CountOf(s, ip) + 1])
      else s.(sockets := s.sockets[id := Socket(ip, false, None, false, false)])
    case Pong(id) =>
      if s.sockets[id].accepted then s.(sockets := s.sockets[id := s.sockets[id].(alive := Some(true))]) else s
    case Closed(id) =>
      var k := s.sockets[id];
      var after := s.(sockets := s.sockets[id := k.(closed := true)]);
      if k.accepted && CountOf(s, k.ip) > 0 then after.(counts := s.counts[k.ip := CountOf(s, k.ip) - 1]) else after
    case Sweep => s.(sockets := map id | id in s.sockets :: Swept(s.sockets[id]))
  }

  const EMPTY := Server(map[], map[])

  /** A history of events, each possible when it happens. */
  ghost predicate History(h: seq<Event>)
    decreases |h|, 0
  {
    h == [] || (History(h[..|h| - 1]) && Possible(After(h[..|h| - 1]), h[|h| - 1]))
  }

  ghost function After(h: seq<Event>): Server
    requires History(h)
    decreases |h|, 1
  {
    if h == [] then EMPTY else Step(After(h[..|h| - 1]), h[|h| - 1])
  }

  // ------------------------------------------------------------- per-IP counting

  /** The accepted sockets from `ip` whose close event has not come. */
  function Counted(s: Server, ip: string): set<nat> {
    set id | id in s.sockets && s.sockets[id].accepted && !s.sockets[id].closed && s.sockets[id].ip == ip
  }

  ghost predicate CountsExact(s: Server) {
    forall ip :: CountOf(s, ip) == |Counted(s, ip)|
  }

  lemma ConnectKeepsCounts(s: Server, id: nat, ip: string, authorised: bool)
    requires CountsExact(s) && Possible(s, Connect(id, ip, authorised))
    ensures CountsExact(Step(s, Connect(id, ip, authorised)))
  {
    var r := Step(s, Connect(id, ip, authorised));
    forall x ensures CountOf(r, x) == |Counted(r, x)| {
      assert CountOf(s, x) == |Counted(s, x)|;
      if authorised && x == ip {
        assert Counted(r, x) == Counted(s, x) + {id};
      } else {
        assert Counted(r, x) == Counted(s, x);
      }
    }
  }

  lemma ClosedKeepsCounts(s: Server, id: nat)
    requires CountsExact(s) && Possible(s, Closed(id))
    ensures CountsExact(Step(s, Closed(id)))
  {
    var r := Step(s, Closed(id));
    var k := s.sockets[id];
    forall x ensures CountOf(r, x) == |Counted(r, x)| {
      assert CountOf(s, x) == |Counted(s, x)|;
      if k.accepted && x == k.ip {
        assert id in Counted(s, x);
        assert Counted(r, x) == Counted(s, x) - {id};
      } else {
        assert Counted(r, x) == Counted(s, x);
      }
    }
  }

  lemma StepKeepsCounts(s: Server, e: Event)
    requires CountsExact(s) && Possible(s, e)
    ensures CountsExact(Step(s, e))
  {
    match e
    case Connect(id, ip, authorised) =>
      ConnectKeepsCounts(s, id, ip, authorised);
    case Closed(id) =>
      ClosedKeepsCounts(s, id);
    case _ =>
      forall x ensures CountOf(Step(s, e), x) == |Counted(Step(s, e), x)| {
        assert CountOf(s, x) == |Counted(s, x)|;
        forall i ensures i in Counted(Step(s, e), x) <==> i in Counted(s, x) {}
        assert Counted(Step(s, e), x) == Counted(s, x);
      }
  }

  /** After any history the counter of an address is the number of its accepted
      sockets that are still open. */
  lemma {:induction false} CountsAreOpenSockets(h: seq<Event>, ip: string)
    requires History(h)
    ensures CountsExact(After(h)) && CountOf(After(h), ip) == |Counted(After(h), ip)|
    decreases |h|
  {
    if h == [] {
      assert forall x :: Counted(EMPTY, x) == {};
    } else {
      CountsAreOpenSockets(h[..|h| - 1], ip);
      StepKeepsCounts(After(h[..|h| - 1]), h[|h| - 1]);
    }
  }

  /** Closing an accepted socket always frees exactly one slot of its address and
      touches no other: in no history does the guard against a negative counter
      come into play. */
  lemma CloseFreesOneSlot(h: seq<Event>, id: nat, ip: string)
    requires History(h) && Possible(After(h), Closed(id))
    ensures History(h + [Closed(id)])
    ensures var k := After(h).sockets[id]; var r := After(h + [Closed(id)]);
            && (k.accepted ==> CountOf(After(h), k.ip) > 0)
            && CountOf(r, ip) == CountOf(After(h), ip) - if k.accepted && k.ip == ip then 1 else 0
  {
    var k := After(h).sockets[id];
    CountsAreOpenSockets(h, k.ip);
    assert k.accepted ==> id in Counted(After(h), k.ip);
    assert (h + [Closed(id)])[..|h|] == h;
  }

  // -------------------------------------------------------------------- heartbeat

  /** A sweep has happened since the socket connected or last sent a pong. */
  predicate SilentSinceSweep(h: seq<Event>, id: nat) {
    h != [] &&
    match h[|h| - 1]
    case Sweep => true
    case Connect(i, _, _) => i != id && SilentSinceSweep(h[..|h| - 1], id)
    case Pong(i) => i != id && SilentSinceSweep(h[..|h| - 1], id)
    case Closed(_) => SilentSinceSweep(h[..|h| - 1], id)
  }

  lemma {:induction false} AliveIsHeard(h: seq<Event>, id: nat)
    requires History(h) && Listening(After(h), id)
    ensures After(h).sockets[id].alive.Some?
    ensures After(h).sockets[id].alive == Some(false) <==> SilentSinceSweep(h, id)
    decreases |h|
  {
    if h != [] {
      var before, e := h[..|h| - 1], h[|h| - 1];
      if !(e.Connect? && e.id == id) {
        assert Listening(After(before), id);
        AliveIsHeard(before, id);
      }
    }
  }

  /** A sweep terminates an accepted, still listening socket exactly when it sent
      no pong since the sweep before. */
  lemma SweepTerminatesSilent(h: seq<Event>, id: nat)
    requires History(h) && Listening(After(h), id)
    ensures History(h + [Sweep])
    ensures After(h + [Sweep]).sockets[id].terminated <==> SilentSinceSweep(h, id)
  {
    AliveIsHeard(h, id);
    assert (h + [Sweep])[..|h|] == h;
  }

  lemma StepKeepsGone(s: Server, e: Event, id: nat)
    requires Possible(s, e) && id in s.sockets
    ensures var r := Step(s, e);
            && id in r.sockets && r.sockets[id].accepted == s.sockets[id].accepted
            && (!Listening(s, id) ==> !Listening(r, id))
  {
  }

  lemma {:induction false} GoneStaysGone(h: seq<Event>, rest: seq<Event>, id: nat)
    requires History(h) && History(h + rest) && id in After(h).sockets
    ensures id in After(h + rest).sockets
    ensures After(h + rest).sockets[id].accepted == After(h).sockets[id].accepted
    ensures !Listening(After(h), id) ==> !Listening(After(h + rest), id)
    decreases |rest|
  {
    if rest == [] {
      assert h + rest == h;
    } else {
      var init := rest[..|rest| - 1];
      var all := h + rest;
      assert all[..|all| - 1] == h + init;
      GoneStaysGone(h, init, id);
      StepKeepsGone(After(h + init), all[|all| - 1], id);
    }
  }

  lemma {:induction false} SilenceLasts(h: seq<Event>, quiet: seq<Event>, id: nat)
    requires History(h) && History(h + quiet) && id in After(h).sockets && SilentSinceSweep(h, id)
    requires forall e :: e in quiet ==> e != Pong(id)
    ensures SilentSinceSweep(h + quiet, id)
    decreases |quiet|
  {
    if quiet == [] {
      assert h + quiet == h;
    } else {
      var init := quiet[..|quiet| - 1];
      var all := h + quiet;
      assert all[..|all| - 1] == h + init;
      assert forall e :: e in init ==> e in quiet;
      SilenceLasts(h, init, id);
      GoneStaysGone(h, init, id);
      assert quiet[|quiet| - 1] in quiet;
    }
  }

  /** An accepted socket that stays silent between two sweeps is terminated or
      closed by the second, whatever else happens meanwhile. */
  lemma SilentGoneBySecondSweep(h: seq<Event>, quiet: seq<Event>, id: nat)
    requires History(h + [Sweep] + quiet + [Sweep]) && History(h) && Listening(After(h), id)
    requires forall e :: e in quiet ==> e != Pong(id)
    ensures !Listening(After(h + [Sweep] + quiet + [Sweep]), id)
  {
    var first := h + [Sweep];
    var mid := first + quiet;
    var all := mid + [Sweep];
    assert first[..|h|] == h && all[..|mid|] == mid;
    assert History(mid);
    GoneStaysGone(first, quiet, id);
    if Listening(After(mid), id) {
      SilenceLasts(first, quiet, id);
      SweepTerminatesSilent(mid, id);
    } else {
      GoneStaysGone(mid, [Sweep], id);
    }
  }

  // -------------------------------------------------------------- refused upgrades

  predicate Refused(s: Server, id: nat) { Open(s, id) && !s.sockets[id].accepted }

  /** A sweep has happened since the socket connected; pongs do not matter. */
  predicate SweptSinceConnect(h: seq<Event>, id: nat) {
    h != [] &&
    match h[|h| - 1]
    case Sweep => true
    case Connect(i, _, _) => i != id && SweptSinceConnect(h[..|h| - 1], id)
    case Pong(_) => SweptSinceConnect(h[..|h| - 1], id)
    case Closed(_) => SweptSinceConnect(h[..|h| - 1], id)
  }

  lemma {:induction false} RefusedIsMarkedOnce(h: seq<Event>, id: nat)
    requires History(h) && Refused(After(h), id)
    ensures After(h).sockets[id].alive == if SweptSinceConnect(h, id) then Some(false) else None
    decreases |h|
  {
    if h != [] {
      var before, e := h[..|h| - 1], h[|h| - 1];
      if !(e.Connect? && e.id == id) {
        assert Refused(After(before), id);
        RefusedIsMarkedOnce(before, id);
      }
    }
  }

  /** A socket whose upgrade was refused has no pong listener: a sweep terminates
      it exactly when another sweep came since it connected, whatever it sent. */
  lemma RefusedSocketsIgnorePongs(h: seq<Event>, id: nat)
    requires History(h) && Refused(After(h), id) && !After(h).sockets[id].terminated
    ensures History(h + [Sweep])
    ensures After(h + [Sweep]).sockets[id].terminated <==> SweptSinceConnect(h, id)
  {
    RefusedIsMarkedOnce(h, id);
    assert (h + [Sweep])[..|h|] == h;
  }

  lemma ThenHappens(h: seq<Event>, e: Event)
    requires History(h) && Possible(After(h), e)
    ensures History(h + [e]) && After(h + [e]) == Step(After(h), e)
  {
    assert (h + [e])[..|h|] == h;
  }

  /** A pong between two sweeps saves an accepted socket and not a refused one. */
  lemma RefusedExample(authorised: bool)
    ensures var h := [Connect(1, "10.0.0.1", authorised), Sweep, Pong(1), Sweep];
            && History(h) && 1 in After(h).sockets
            && (After(h).sockets[1].terminated <==> !authorised)
  {
    var e := Connect(1, "10.0.0.1", authorised);
    assert [] + [e] == [e] && [e] + [Sweep] == [e, Sweep] && [e, Sweep] + [Pong(1)] == [e, Sweep, Pong(1)];
    ThenHappens([], e);
    ThenHappens([e], Sweep);
    ThenHappens([e, Sweep], Pong(1));
    ThenHappens([e, Sweep, Pong(1)], Sweep);
    assert [e, Sweep, Pong(1)] + [Sweep] == [e, Sweep, Pong(1), Sweep];
  }

  // ------------------------------------------------------------------- the server

  /** The tables of the running process: `wsConnectionCounts` and the sockets. */
  class WSServer {
    var sockets: map<nat, Socket>
    var counts: map<string, int>

    function Now(): Server
      reads this
    {
      Server(sockets, counts)
    }

    constructor ()
      ensures Now() == EMPTY
    {
      sockets, counts := map[], map[];
    }

    method ConnectionOpen(ip: string)
      modifies this`counts
      ensures counts == old(counts)[ip := CountOf(old(Now()), ip) + 1]
    {
      counts := counts[ip := (if ip in counts then counts[ip] else 0) + 1];
    }

    method ConnectionClose(ip: string)
      modifies this`counts
      ensures counts == if CountOf(old(Now()), ip) > 0 then old(counts)[ip := CountOf(old(Now()), ip) - 1]
                        else old(counts)
    {
      var count := if ip in counts then counts[ip] else 0;
      if count > 0 {
        counts := counts[ip := count - 1];
      }
    }

    method OnUpgrade(id: nat, ip: string, authorised: bool)
      requires Possible(Now(), Connect(id, ip, authorised))
      modifies this
      ensures Now() == Step(old(Now()), Connect(id, ip, authorised))
    {
      if !authorised {
        sockets := sockets[id := Socket(ip, false, None, false, false)];
        return;
      }
      sockets := sockets[id := Socket(ip, true, Some(true), false, false)];
      ConnectionOpen(ip);
    }

    method OnPong(id: nat)
      requires Possible(Now(), Pong(id))
      modifies this`sockets
      ensures Now() == Step(old(Now()), Pong(id))
    {
      if sockets[id].accepted {
        sockets := sockets[id := sockets[id].(alive := Some(true))];
      }
    }

    method OnClose(id: nat)
      requires Possible(Now(), Closed(id))
      modifies this
      ensures Now() == Step(old(Now()), Closed(id))
    {
      var k := sockets[id];
      sockets := sockets[id := k.(closed := true)];
      if k.accepted {
        ConnectionClose(k.ip);
      }
    }

    /** The 30-second timer. */
    method OnSweep()
      modifies this`sockets
      ensures Now() == Step(old(Now()), Sweep)
    {
      PingAll();
    }

    /** One pass over the clients, in any order. */
    method PingAll()
      modifies this`sockets
      ensures sockets == map k | k in old(sockets) :: Swept(old(sockets)[k])
      ensures counts == old(counts)
    {
      ghost var before := sockets;
      var todo := sockets.Keys;
      while todo != {}
        invariant todo <= before.Keys && sockets.Keys == before.Keys
        invariant forall k :: k in before ==> sockets[k] == if k in todo then before[k] else Swept(before[k])
        decreases todo
      {
        var id :| id in todo;
        if !sockets[id].closed {
          if sockets[id].alive == Some(false) {
            sockets := sockets[id := sockets[id].(terminated := true)];
          } else {
            sockets := sockets[id := sockets[id].(alive := Some(false))];
          }
        }
        todo := todo - {id};
      }
    }
  }
}
