/** The relay told by its events alone (phase4/relay-server.mjs: handleSocket): who is online, in whose
  name a connection may send, and which frames go out, without the tables the relay keeps. */
module RelayHistory {
  import opened Wrappers
  import opened RelayServer

  // ------------------------------------------------------------------ registrations

  /** A well-formed registration of the name: it brings a nonempty key. */
  predicate Claims(ev: Event, id: NodeId) {
    && ev.Frame? && ev.message.Register? && ev.message.nodeId == Some(id)
    && ev.message.pubKey.Some? && ev.message.pubKey.value != ""
  }

  predicate FirstClaim(events: seq<Event>, j: nat, id: NodeId) {
    j < |events| && Claims(events[j], id) && forall k | 0 <= k < j :: !Claims(events[k], id)
  }

  /** Is a registration of the name accepted after these events? With takeover authentication only under
    the key the name was first registered with. */
  predicate Takes(l: Limits, before: seq<Event>, ev: Event, id: NodeId) {
    && Claims(ev, id)
    && (l.takeoverAuth ==> forall j | 0 <= j < |before| && FirstClaim(before, j, id) ::
        before[j].message.pubKey == ev.message.pubKey)
  }

  /** The i-th event is an accepted registration of the name. */
  predicate Registration(l: Limits, events: seq<Event>, i: nat, id: NodeId)
    requires i < |events|
  {
    Takes(l, events[..i], events[i], id)
  }

  /** After the i-th event no registration is accepted over the socket. */
  ghost predicate SilentAfter(l: Limits, events: seq<Event>, i: nat, socket: Socket) {
    forall j, other | i < j < |events| && events[j].socket == socket :: !Registration(l, events, j, other)
  }

  /** The last registration accepted on the socket was for the name. */
  ghost predicate SpeaksFor(l: Limits, events: seq<Event>, socket: Socket, id: NodeId) {
    exists i ::
      0 <= i < |events| && events[i].socket == socket && Registration(l, events, i, id) && SilentAfter(l, events, i, socket)
  }

  /** The last registration accepted for the name came over the socket, which has not closed since. */
  ghost predicate Online(l: Limits, events: seq<Event>, id: NodeId, socket: Socket) {
    exists i ::
      && 0 <= i < |events| && events[i].socket == socket && Registration(l, events, i, id)
      && forall j | i < j < |events| :: !Registration(l, events, j, id) && events[j] != Close(socket)
  }

  /** The event destroys the socket: directly, or by registering elsewhere a name that is online there. */
  ghost predicate Destroys(l: Limits, before: seq<Event>, ev: Event, socket: Socket) {
    || ev == Destroy(socket)
    || (ev.socket != socket && exists id :: Takes(l, before, ev, id) && Online(l, before, id, socket))
  }

  ghost predicate Destroyed(l: Limits, events: seq<Event>, socket: Socket) {
    exists i :: 0 <= i < |events| && Destroys(l, events[..i], events[i], socket)
  }

  /** A frame in this name goes out only from a connection that speaks for it, to a name that is online on
    a socket not destroyed. */
  ghost predicate Routable(l: Limits, events: seq<Event>, socket: Socket, from: NodeId, to: NodeId) {
    && SpeaksFor(l, events, socket, from)
    && to != "" && exists k :: Online(l, events, to, k) && !Destroyed(l, events, k)
  }

  // ------------------------------------------------------------------ one more event

  lemma FirstClaimMore(events: seq<Event>, ev: Event, id: NodeId)
    ensures forall j | 0 <= j < |events| :: FirstClaim(events + [ev], j, id) <==> FirstClaim(events, j, id)
    ensures FirstClaim(events + [ev], |events|, id) <==> Claims(ev, id) && forall j | 0 <= j < |events| ::
          !FirstClaim(events, j, id)
  {
    var more := events + [ev];
    assert more[|events|] == ev && forall i | 0 <= i < |events| :: more[i] == events[i];
    if j :| 0 <= j < |events| && Claims(events[j], id) {
      var f := EarliestClaim(events, j, id);
    }
  }

  lemma {:induction false} EarliestClaim(events: seq<Event>, j: nat, id: NodeId) returns (f: nat)
    requires j < |events| && Claims(events[j], id)
    ensures FirstClaim(events, f, id)
  {
    if k :| 0 <= k < j && Claims(events[k], id) {
      f := EarliestClaim(events, k, id);
    } else {
      f := j;
    }
  }

  lemma RegistrationMore(l: Limits, events: seq<Event>, ev: Event)
    ensures forall i, id | 0 <= i < |events| :: Registration(l, events + [ev], i, id) <==> Registration(l, events, i, id)
    ensures forall id :: Registration(l, events + [ev], |events|, id) <==> Takes(l, events, ev, id)
  {
    hide Takes;
    assert (events + [ev])[..|events|] == events;
    forall i | 0 <= i < |events| ensures (events + [ev])[..i] == events[..i] {
    }
  }

  lemma SilentMore(l: Limits, events: seq<Event>, ev: Event, i: nat, socket: Socket)
    requires i < |events|
    ensures SilentAfter(l, events + [ev], i, socket) <==>
            SilentAfter(l, events, i, socket) && (ev.socket == socket ==> forall other :: !Takes(l, events, ev, other))
  {
    hide Takes, Registration;
    var more, n := events + [ev], |events|;
    RegistrationMore(l, events, ev);
    assert more[n] == ev && forall j | 0 <= j < n :: more[j] == events[j];
    if SilentAfter(l, more, i, socket) {
      forall j, other | i < j < n && events[j].socket == socket ensures !Registration(l, events, j, other) {
        assert more[j].socket == socket && !Registration(l, more, j, other);
      }
    }
  }

  lemma SpeaksForMore(l: Limits, events: seq<Event>, ev: Event, socket: Socket, id: NodeId)
    ensures SpeaksFor(l, events + [ev], socket, id) <==>
            if ev.socket == socket && exists other :: Takes(l, events, ev, other) then Takes(l, events, ev, id)
            else SpeaksFor(l, events, socket, id)
  {
    hide Takes, Registration, SilentAfter;
    var more, n := events + [ev], |events|;
    RegistrationMore(l, events, ev);
    assert more[n] == ev && forall i | 0 <= i < n :: more[i] == events[i];
    forall i: nat | i < n
      ensures SilentAfter(l, more, i, socket) <==>
              SilentAfter(l, events, i, socket) && (ev.socket == socket ==> forall other :: !Takes(l, events, ev, other))
    {
      SilentMore(l, events, ev, i, socket);
    }
    SilentAtEnd(l, more, socket);
    if ev.socket == socket && Takes(l, events, ev, id) {
      assert Registration(l, more, n, id);
    } else if SpeaksFor(l, events, socket, id) {
      var i :| 0 <= i < n && events[i].socket == socket && Registration(l, events, i, id) &&
        SilentAfter(l, events, i, socket);
      assert more[i].socket == socket && Registration(l, more, i, id);
    }
    if SpeaksFor(l, more, socket, id) {
      var i :| 0 <= i < n + 1 && more[i].socket == socket && Registration(l, more, i, id) && SilentAfter(l, more, i, socket);
      assert i < n ==> events[i].socket == socket;
    }
  }

  lemma SilentAtEnd(l: Limits, events: seq<Event>, socket: Socket)
    ensures events != [] ==> SilentAfter(l, events, |events| - 1, socket)
  {
  }

  lemma OnlineMore(l: Limits, events: seq<Event>, ev: Event, id: NodeId, socket: Socket)
    ensures Online(l, events + [ev], id, socket) <==>
            if Takes(l, events, ev, id) then ev.socket == socket
            else Online(l, events, id, socket) && ev != Close(socket)
  {
    hide Takes, Registration;
    var more, n := events + [ev], |events|;
    RegistrationMore(l, events, ev);
    assert more[n] == ev && forall i | 0 <= i < n :: more[i] == events[i];
    if Takes(l, events, ev, id) && ev.socket == socket {
      assert Registration(l, more, n, id);
    }
    if Online(l, events, id, socket) && !Takes(l, events, ev, id) && ev != Close(socket) {
      var i :| 0 <= i < n && events[i].socket == socket && Registration(l, events, i, id)
        && forall j | i < j < n :: !Registration(l, events, j, id) && events[j] != Close(socket);
      assert more[i].socket == socket && Registration(l, more, i, id);
    }
    if Online(l, more, id, socket) {
      var i :| 0 <= i < n + 1 && more[i].socket == socket && Registration(l, more, i, id)
        && forall j | i < j < n + 1 :: !Registration(l, more, j, id) && more[j] != Close(socket);
      if i < n {
        assert events[i].socket == socket;
      }
    }
  }

  lemma DestroyedMore(l: Limits, events: seq<Event>, ev: Event, socket: Socket)
    ensures Destroyed(l, events + [ev], socket) <==> Destroyed(l, events, socket) || Destroys(l, events, ev, socket)
  {
    hide Destroys;
    var more, n := events + [ev], |events|;
    assert more[n] == ev && more[..n] == events && forall i | 0 <= i < n :: more[i] == events[i] && more[..i] == events[..i];
    if Destroys(l, events, ev, socket) {
      assert Destroys(l, more[..n], more[n], socket);
    }
    if Destroyed(l, events, socket) {
      var i :| 0 <= i < n && Destroys(l, events[..i], events[i], socket);
      assert Destroys(l, more[..i], more[i], socket);
    }
    if Destroyed(l, more, socket) {
      var i :| 0 <= i < n + 1 && Destroys(l, more[..i], more[i], socket);
    }
  }

  // ------------------------------------------------------------------ the tables say the same

  /** The key on record for the name is the one of its first registration. */
  predicate KeyTold(events: seq<Event>, known: map<NodeId, PubKey>, id: NodeId) {
    && (id in known ==> exists j :: 0 <= j < |events| && FirstClaim(events, j, id))
    && forall j | 0 <= j < |events| && FirstClaim(events, j, id) :: id in known && events[j].message.pubKey == Some(known[id])
  }

  ghost predicate KeysTell(l: Limits, events: seq<Event>, known: map<NodeId, PubKey>) {
    l.takeoverAuth ==> forall id :: KeyTold(events, known, id)
  }

  ghost predicate NamesTell(l: Limits, events: seq<Event>, registeredAs: map<Socket, NodeId>) {
    forall socket, id :: SpeaksFor(l, events, socket, id) <==> socket in registeredAs && registeredAs[socket] == id
  }

  ghost predicate ClientsTell(l: Limits, events: seq<Event>, clients: map<NodeId, Client>) {
    forall id, socket :: Online(l, events, id, socket) <==> id in clients && clients[id].socket == socket
  }

  ghost predicate DestroyedTell(l: Limits, events: seq<Event>, destroyed: set<Socket>) {
    forall socket :: Destroyed(l, events, socket) <==> socket in destroyed
  }

  ghost predicate Tells(l: Limits, events: seq<Event>, s: State) {
    && KeysTell(l, events, s.knownPubKeys) && KeysAgree(s)
    && NamesTell(l, events, s.registeredAs) && ClientsTell(l, events, s.clients) && DestroyedTell(l, events, s.destroyed)
  }

  function Fresh(l: Limits, start: int): State {
    State(map[], map[], map[], map[], Bucket(l.global, start), 0, 0, {})
  }

  /** A registration is taken exactly if the relay changes its tables for it. */
  lemma RegisteredIff(l: Limits, events: seq<Event>, s: State, ev: Event, id: NodeId)
    requires KeysTell(l, events, s.knownPubKeys) && KeysAgree(s) && Claims(ev, id)
    ensures var s', key := After(l, s, ev), ev.message.pubKey.value;
      if Takes(l, events, ev, id) then
        && s'.clients == s.clients[id := Client(ev.socket, key)] && s'.knownPubKeys == s.knownPubKeys[id := key]
        && s'.registeredAs == s.registeredAs[ev.socket := id]
        && (forall k :: k in s'.destroyed <==>
          k in s.destroyed || (k != ev.socket && id in s.clients && s.clients[id].socket == k))
      else s' == s
  {
    hide FirstClaim;
    if l.takeoverAuth {
      assert KeyTold(events, s.knownPubKeys, id);
    }
    if l.takeoverAuth && id in s.knownPubKeys {
      var j :| 0 <= j < |events| && FirstClaim(events, j, id);
    }
  }

  /** One more event: the record for a name stays, or is made by its first registration. */
  lemma KeyToldMore(events: seq<Event>, ev: Event, known: map<NodeId, PubKey>, known': map<NodeId, PubKey>, id: NodeId)
    requires KeyTold(events, known, id)
    requires id in known ==> id in known' && known'[id] == known[id]
    requires id in known' && id !in known ==> Claims(ev, id)
    requires Claims(ev, id) && id !in known ==> id in known' && ev.message.pubKey == Some(known'[id])
    ensures KeyTold(events + [ev], known', id)
  {
    var more, n := events + [ev], |events|;
    assert more[n] == ev && forall j | 0 <= j < n :: more[j] == events[j];
    FirstClaimMore(events, ev, id);
    hide FirstClaim;
    if id in known {
      var j :| 0 <= j < n && FirstClaim(events, j, id);
      assert FirstClaim(more, j, id);
    }
  }

  /** With authentication the key on record never changes; a new one is that of the registration taken. */
  lemma KeyAfter(l: Limits, events: seq<Event>, s: State, ev: Event, id: NodeId)
    requires l.takeoverAuth && KeysTell(l, events, s.knownPubKeys) && KeysAgree(s)
    ensures var known, known' := s.knownPubKeys, After(l, s, ev).knownPubKeys;
      && (id in known ==> id in known' && known'[id] == known[id])
      && (id in known' && id !in known ==> Claims(ev, id))
      && (Claims(ev, id) && id !in known ==> id in known' && ev.message.pubKey == Some(known'[id]))
  {
    assert KeyTold(events, s.knownPubKeys, id);
    if Claims(ev, id) {
      RegisteredIff(l, events, s, ev, id);
      if id in s.knownPubKeys {
        var j :| 0 <= j < |events| && FirstClaim(events, j, id);
      } else {
        assert Takes(l, events, ev, id);
      }
    } else if other :| Claims(ev, other) {
      RegisteredIff(l, events, s, ev, other);
    } else {
      QuietEvent(l, s, ev);
    }
  }

  lemma AgreesAfter(l: Limits, events: seq<Event>, s: State, ev: Event)
    requires KeysTell(l, events, s.knownPubKeys) && KeysAgree(s)
    ensures KeysAgree(After(l, s, ev))
  {
    if id :| Claims(ev, id) {
      RegisteredIff(l, events, s, ev, id);
      hide After, Takes;
    } else {
      QuietEvent(l, s, ev);
      hide After;
    }
  }

  lemma KeysMore(l: Limits, events: seq<Event>, s: State, ev: Event)
    requires KeysTell(l, events, s.knownPubKeys) && KeysAgree(s)
    ensures var s' := After(l, s, ev); KeysTell(l, events + [ev], s'.knownPubKeys) && KeysAgree(s')
  {
    hide After, FirstClaim, Claims, KeysAgree;
    AgreesAfter(l, events, s, ev);
    if l.takeoverAuth {
      forall id ensures KeyTold(events + [ev], After(l, s, ev).knownPubKeys, id) {
        assert KeyTold(events, s.knownPubKeys, id);
        KeyAfter(l, events, s, ev, id);
        KeyToldMore(events, ev, s.knownPubKeys, After(l, s, ev).knownPubKeys, id);
      }
    }
  }

  /** An event that is no well-formed registration leaves names and keys alone. */
  lemma QuietEvent(l: Limits, s: State, ev: Event)
    requires forall id :: !Claims(ev, id)
    ensures var s' := After(l, s, ev);
      && s'.knownPubKeys == s.knownPubKeys && s'.registeredAs == s.registeredAs
      && s'.clients == (if ev.Close? then map id | id in s.clients && s.clients[id].socket != ev.socket ::
          s.clients[id] else s.clients)
      && s'.destroyed == s.destroyed + if ev.Destroy? then {ev.socket} else {}
  {
    if ev.Frame? && ev.message.Register? {
      assert ev.message.nodeId.Some? ==> !Claims(ev, ev.message.nodeId.value);
    }
  }

  /** The tables once the name has been bound to the socket. */
  ghost predicate Bound(s: State, s': State, id: NodeId, socket: Socket) {
    && s'.registeredAs == s.registeredAs[socket := id]
    && id in s'.clients && s'.clients[id].socket == socket
    && (forall other | other != id :: other in s'.clients <==> other in s.clients)
    && (forall other | other != id && other in s.clients :: s'.clients[other] == s.clients[other])
    && (forall k :: k in s'.destroyed <==> k in s.destroyed || (k != socket && id in s.clients && s.clients[id].socket == k))
  }

  /** The tables after any other event. */
  ghost predicate Unbound(s: State, s': State, ev: Event) {
    && s'.registeredAs == s.registeredAs
    && s'.clients == (if ev.Close? then map id | id in s.clients && s.clients[id].socket != ev.socket ::
        s.clients[id] else s.clients)
    && s'.destroyed == s.destroyed + if ev.Destroy? then {ev.socket} else {}
  }

  /** Each event binds the one name it registers, or none. */
  lemma EventOutcome(l: Limits, events: seq<Event>, s: State, ev: Event) returns (taken: Option<NodeId>)
    requires KeysTell(l, events, s.knownPubKeys) && KeysAgree(s)
    ensures forall id :: Takes(l, events, ev, id) <==> taken == Some(id)
    ensures if taken.Some? then ev.Frame? && Bound(s, After(l, s, ev), taken.value, ev.socket)
            else Unbound(s, After(l, s, ev), ev)
  {
    if id :| Claims(ev, id) {
      RegisteredIff(l, events, s, ev, id);
      hide After, KeysTell, KeysAgree;
      taken := if Takes(l, events, ev, id) then Some(id) else None;
    } else {
      QuietEvent(l, s, ev);
      taken := None;
    }
  }

  lemma NamesMore(l: Limits, events: seq<Event>, ev: Event, s: State, s': State, taken: Option<NodeId>)
    requires NamesTell(l, events, s.registeredAs)
    requires forall id :: Takes(l, events, ev, id) <==> taken == Some(id)
    requires if taken.Some? then Bound(s, s', taken.value, ev.socket) else Unbound(s, s', ev)
    ensures NamesTell(l, events + [ev], s'.registeredAs)
  {
    hide SpeaksFor, Takes;
    forall socket, id
      ensures SpeaksFor(l, events + [ev], socket, id) <==> socket in s'.registeredAs && s'.registeredAs[socket] == id
    {
      SpeaksForMore(l, events, ev, socket, id);
      assert taken.Some? ==> Takes(l, events, ev, taken.value);
    }
  }

  lemma ClientsMore(l: Limits, events: seq<Event>, ev: Event, s: State, s': State, taken: Option<NodeId>)
    requires ClientsTell(l, events, s.clients)
    requires forall id :: Takes(l, events, ev, id) <==> taken == Some(id)
    requires if taken.Some? then ev.Frame? && Bound(s, s', taken.value, ev.socket) else Unbound(s, s', ev)
    ensures ClientsTell(l, events + [ev], s'.clients)
  {
    hide Online, Takes;
    forall id, socket
      ensures Online(l, events + [ev], id, socket) <==> id in s'.clients && s'.clients[id].socket == socket
    {
      OnlineMore(l, events, ev, id, socket);
    }
  }

  lemma DestroyedMoreTell(l: Limits, events: seq<Event>, ev: Event, s: State, s': State, taken: Option<NodeId>)
    requires DestroyedTell(l, events, s.destroyed) && ClientsTell(l, events, s.clients)
    requires forall id :: Takes(l, events, ev, id) <==> taken == Some(id)
    requires if taken.Some? then ev.Frame? && Bound(s, s', taken.value, ev.socket) else Unbound(s, s', ev)
    ensures DestroyedTell(l, events + [ev], s'.destroyed)
  {
    hide Online, Destroyed, Takes;
    forall socket ensures Destroyed(l, events + [ev], socket) <==> socket in s'.destroyed {
      DestroyedMore(l, events, ev, socket);
      assert taken.Some? ==> Takes(l, events, ev, taken.value);
    }
  }

  /** The tables of a relay that started empty say what its events say. */
  lemma {:induction false} TablesTell(l: Limits, start: int, events: seq<Event>)
    ensures Tells(l, events, Run(l, Fresh(l, start), events))
  {
    if events == [] {
      NothingYet(l, start);
    } else {
      hide KeysTell, KeysAgree, NamesTell, ClientsTell, DestroyedTell, After, Takes, Bound, Unbound;
      var init, ev := events[..|events| - 1], events[|events| - 1];
      assert events == init + [ev];
      TablesTell(l, start, init);
      var s := Run(l, Fresh(l, start), init);
      var taken := EventOutcome(l, init, s, ev);
      KeysMore(l, init, s, ev);
      NamesMore(l, init, ev, s, After(l, s, ev), taken);
      ClientsMore(l, init, ev, s, After(l, s, ev), taken);
      DestroyedMoreTell(l, init, ev, s, After(l, s, ev), taken);
    }
  }

  lemma NothingYet(l: Limits, start: int)
    ensures Tells(l, [], Fresh(l, start))
  {
  }

  /** A frame is let through to the limits exactly if its sender speaks for the name it gives and its
    target is online on a live socket. */
  lemma RoutableIff(l: Limits, start: int, events: seq<Event>, socket: Socket, from: NodeId, to: NodeId)
    ensures Routable(l, events, socket, from, to) <==> Forwardable(Run(l, Fresh(l, start), events), socket, from, to)
  {
    hide SpeaksFor, Online, Destroyed, Run, KeysTell, KeysAgree;
    TablesTell(l, start, events);
  }
}
