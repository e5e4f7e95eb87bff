/** The relay's registry and bandwidth limits (phase4/relay-server.mjs: handleSocket, takeBytes). Clocks are
  inputs, in milliseconds; tokens are reals. */
module RelayServer {
  import opened Wrappers

  type NodeId = string
  type PubKey = string
  type Socket = nat

  datatype Client = Client(socket: Socket, pubKey: PubKey)

  datatype Bucket = Bucket(tokens: real, last: int)

  datatype Limits = Limits(global: real, perDest: real, takeoverAuth: bool)

  datatype State = State(
    clients: map<NodeId, Client>, knownPubKeys: map<NodeId, PubKey>, registeredAs: map<Socket, NodeId>,
    destBuckets: map<NodeId, Bucket>, globalBucket: Bucket, forwarded: nat, forwardedBytes: nat,
    destroyed: set<Socket>)             // may not have been closed yet

  datatype Message =
    | Register(nodeId: Option<NodeId>, pubKey: Option<PubKey>)   // None: not a well-formed id, no key
    | Relay(from: NodeId, to: NodeId)

  /** A frame arrives on a socket, a socket is destroyed (by an error, or for sending too much), or it closes. */
  datatype Event = Frame(socket: Socket, message: Message, bytes: nat, now: int) | Destroy(socket: Socket) | Close(socket: Socket)

  function Min(a: real, b: real): real {
    if a < b then a else b
  }

  /** Refill at the configured rate up to the capacity, then take n tokens if there are that many. */
  function Taken(b: Bucket, cap: real, n: nat, now: int): (Bucket, bool) {
    var filled := Min(cap, b.tokens + (now - b.last) as real / 1000.0 * cap);
    if filled < n as real then (Bucket(filled, now), false) else (Bucket(filled - n as real, now), true)
  }

  function Registered(l: Limits, s: State, socket: Socket, id: NodeId, key: PubKey): State {
    var refused :=
      if id in s.clients && s.clients[id].socket != socket then l.takeoverAuth && key != s.clients[id].pubKey
      else l.takeoverAuth && id in s.knownPubKeys && s.knownPubKeys[id] != key;
    if refused then s
    else s.(clients := s.clients[id := Client(socket, key)], knownPubKeys := s.knownPubKeys[id := key],
            registeredAs := s.registeredAs[socket := id],
            destroyed := s.destroyed + if id in s.clients && s.clients[id].socket != socket then {s.clients[id].socket} else {})
  }

  /** May a frame from this socket in this name go out, limits aside? */
  predicate Forwardable(s: State, socket: Socket, from: NodeId, to: NodeId) {
    && socket in s.registeredAs && s.registeredAs[socket] == from
    && to != "" && to in s.clients && s.clients[to].socket !in s.destroyed
  }

  /** The global bucket is charged first, and stays charged if the destination's bucket then refuses. */
  function Relayed(l: Limits, s: State, socket: Socket, from: NodeId, to: NodeId, n: nat, now: int): State {
    if !Forwardable(s, socket, from, to) then s
    else
      var (global, granted) := Taken(s.globalBucket, l.global, n, now);
      var s1 := s.(globalBucket := global);
      if !granted then s1
      else
        var bucket := if to in s.destBuckets then s.destBuckets[to] else Bucket(l.perDest, now);
        var (dest, allowed) := Taken(bucket, l.perDest, n, now);
        var s2 := s1.(destBuckets := s.destBuckets[to := dest]);
        if !allowed then s2 else s2.(forwarded := s.forwarded + 1, forwardedBytes := s.forwardedBytes + n)
  }

  function Closed(s: State, socket: Socket): State {
    var gone := set id | id in s.clients && s.clients[id].socket == socket;
    s.(clients := s.clients - gone, destBuckets := s.destBuckets - gone)
  }

  function After(l: Limits, s: State, ev: Event): State {
    match ev
    case Destroy(socket) => s.(destroyed := s.destroyed + {socket})
    case Close(socket) => Closed(s, socket)
    case Frame(socket, Register(id, key), _, _) =>
      if id.None? || key.None? || key.value == "" then s else Registered(l, s, socket, id.value, key.value)
    case Frame(socket, Relay(from, to), n, now) => Relayed(l, s, socket, from, to, n, now)
  }

  function Run(l: Limits, s: State, events: seq<Event>): State {
    if events == [] then s else After(l, Run(l, s, events[..|events| - 1]), events[|events| - 1])
  }

  class Server {
    const limits: Limits
    var clients: map<NodeId, Client>
    var knownPubKeys: map<NodeId, PubKey>
    var registeredAs: map<Socket, NodeId>
    var destBuckets: map<NodeId, Bucket>
    var globalBucket: Bucket
    var forwarded: nat
    var forwardedBytes: nat
    var destroyed: set<Socket>

    function Abs(): State
      reads this
    {
      State(clients, knownPubKeys, registeredAs, destBuckets, globalBucket, forwarded, forwardedBytes, destroyed)
    }

    constructor (limits: Limits, now: int)
      ensures this.limits == limits
      ensures Abs() == State(map[], map[], map[], map[], Bucket(limits.global, now), 0, 0, {})
    {
      this.limits := limits;
      clients, knownPubKeys, registeredAs, destBuckets := map[], map[], map[], map[];
      globalBucket, forwarded, forwardedBytes, destroyed := Bucket(limits.global, now), 0, 0, {};
    }

    method TakeBytes(bucket: Bucket, cap: real, n: nat, now: int) returns (after: Bucket, ok: bool)
      ensures (after, ok) == Taken(bucket, cap, n, now)
    {
      var tokens := Min(cap, bucket.tokens + (now - bucket.last) as real / 1000.0 * cap);
      ok := !(tokens < n as real);
      if ok {
        tokens := tokens - n as real;
      }
      after := Bucket(tokens, now);
    }

    method OnRegister(socket: Socket, id: NodeId, key: PubKey) returns (ok: bool)
      modifies this`clients, this`knownPubKeys, this`registeredAs, this`destroyed
      ensures Abs() == Registered(limits, old(Abs()), socket, id, key)
    {
      if id in clients && clients[id].socket != socket {
        if limits.takeoverAuth && key != clients[id].pubKey {
          return false;
        }
        destroyed := destroyed + {clients[id].socket};
      } else if limits.takeoverAuth && id in knownPubKeys && knownPubKeys[id] != key {
        return false;
      }
      clients := clients[id := Client(socket, key)];
      knownPubKeys := knownPubKeys[id := key];
      registeredAs := registeredAs[socket := id];
      ok := true;
    }

    method OnRelay(socket: Socket, from: NodeId, to: NodeId, n: nat, now: int) returns (sent: bool)
      modifies this`globalBucket, this`destBuckets, this`forwarded, this`forwardedBytes
      ensures Abs() == Relayed(limits, old(Abs()), socket, from, to, n, now)
      ensures sent <==> forwarded == old(forwarded) + 1
      ensures sent ==> socket in registeredAs && registeredAs[socket] == from && to in clients && clients[to].socket !in destroyed
    {
      if socket !in registeredAs || registeredAs[socket] != from {
        return false;
      }
      if to == "" || to !in clients || clients[to].socket in destroyed {
        return false;
      }
      var granted;
      globalBucket, granted := TakeBytes(globalBucket, limits.global, n, now);
      if !granted {
        return false;
      }
      var bucket := if to in destBuckets then destBuckets[to] else Bucket(limits.perDest, now);
      var dest, allowed := TakeBytes(bucket, limits.perDest, n, now);
      destBuckets := destBuckets[to := dest];
      if !allowed {
        return false;
      }
      forwarded := forwarded + 1;
      forwardedBytes := forwardedBytes + n;
      sent := true;
    }

    method OnClose(socket: Socket)
      modifies this`clients, this`destBuckets
      ensures Abs() == Closed(old(Abs()), socket)
    {
      var gone := set id | id in clients && clients[id].socket == socket;
      clients, destBuckets := clients - gone, destBuckets - gone;
    }
  }

  // ------------------------------------------------------------------ names stay with their keys

  /** Everybody online is known under the key remembered for the name. */
  predicate KeysAgree(s: State) {
    forall id | id in s.clients :: id in s.knownPubKeys && s.knownPubKeys[id] == s.clients[id].pubKey
  }

  /** With takeover authentication on, a name keeps the key of its first registration for good, through
    takeovers, closed connections and registrations afresh. */
  lemma {:induction false} NamesKeepTheirKeys(l: Limits, s: State, events: seq<Event>)
    requires l.takeoverAuth && KeysAgree(s)
    ensures KeysAgree(Run(l, s, events))
    ensures forall id | id in s.knownPubKeys ::
      id in Run(l, s, events).knownPubKeys && Run(l, s, events).knownPubKeys[id] == s.knownPubKeys[id]
  {
    if events != [] {
      hide Relayed;
      var init, ev := events[..|events| - 1], events[|events| - 1];
      NamesKeepTheirKeys(l, s, init);
      if ev.Frame? && ev.message.Relay? {
        RelayingLeavesNames(l, Run(l, s, init), ev.socket, ev.message.from, ev.message.to, ev.bytes, ev.now);
      }
    }
  }

  lemma RelayingLeavesNames(l: Limits, s: State, socket: Socket, from: NodeId, to: NodeId, n: nat, now: int)
    ensures Relayed(l, s, socket, from, to, n, now).knownPubKeys == s.knownPubKeys
    ensures Relayed(l, s, socket, from, to, n, now).clients == s.clients
  {
  }

  // ------------------------------------------------------------------ bandwidth

  /** The clock readings of these events lie between two times and never run backwards. */
  predicate Clocked(events: seq<Event>, from: int, to: int) {
    && from <= to
    && (forall i | 0 <= i < |events| && events[i].Frame? :: from <= events[i].now <= to)
    && (forall i, j | 0 <= i < j < |events| && events[i].Frame? && events[j].Frame? :: events[i].now <= events[j].now)
  }

  predicate GlobalOk(l: Limits, s: State, now: int) {
    0.0 <= s.globalBucket.tokens <= l.global && s.globalBucket.last <= now
  }

  /** What the bucket may still give out by a later time, counted in real bytes. */
  function Budget(b: Bucket, cap: real, now: int): real {
    b.tokens + (now - b.last) as real / 1000.0 * cap
  }

  lemma TakenSpends(b: Bucket, cap: real, n: nat, now: int)
    requires cap >= 0.0 && 0.0 <= b.tokens <= cap && b.last <= now
    ensures var (b', ok) := Taken(b, cap, n, now);
      && 0.0 <= b'.tokens <= cap && b'.last == now
      && b'.tokens + (if ok then n as real else 0.0) <= Budget(b, cap, now)
  {
    assert (now - b.last) as real / 1000.0 * cap >= 0.0 by {
      NonNegativeProduct((now - b.last) as real / 1000.0, cap);
    }
  }

  lemma NonNegativeProduct(a: real, b: real)
    requires a >= 0.0 && b >= 0.0
    ensures a * b >= 0.0
  {
  }

  /** Over any stretch of time, with registrations and closed connections in between, the bytes
    forwarded to everybody together fit into what was left in the global bucket plus what flowed in. */
  lemma {:induction false} GlobalBandwidth(l: Limits, s: State, events: seq<Event>, from: int, to: int)
    requires l.global >= 0.0 && GlobalOk(l, s, from) && Clocked(events, from, to)
    ensures var s' := Run(l, s, events);
      && GlobalOk(l, s', to)
      && (s'.forwardedBytes - s.forwardedBytes) as real + Budget(s'.globalBucket, l.global, to) <= Budget(s.globalBucket, l.global, to)
  {
    if events == [] {
    } else {
      hide Budget;
      var init, ev := events[..|events| - 1], events[|events| - 1];
      if !ev.Frame? {
        GlobalBandwidth(l, s, init, from, to);
      } else {
        GlobalBandwidth(l, s, init, from, ev.now);
        FrameSpends(l, Run(l, s, init), ev);
        LaterBudget(s.globalBucket, Run(l, s, events).globalBucket, l.global, ev.now, to);
      }
    }
  }

  lemma LaterBudget(a: Bucket, b: Bucket, cap: real, now: int, later: int)
    ensures Budget(a, cap, later) - Budget(a, cap, now) == Budget(b, cap, later) - Budget(b, cap, now)
  {
    var dt := (later - now) as real / 1000.0;
    assert (later - a.last) as real / 1000.0 == (now - a.last) as real / 1000.0 + dt;
    assert (later - b.last) as real / 1000.0 == (now - b.last) as real / 1000.0 + dt;
    Distribute((now - a.last) as real / 1000.0, dt, cap);
    Distribute((now - b.last) as real / 1000.0, dt, cap);
  }

  lemma Distribute(x: real, y: real, cap: real)
    ensures (x + y) * cap == x * cap + y * cap
  {
  }

  lemma FrameSpends(l: Limits, s: State, ev: Event)
    requires l.global >= 0.0 && ev.Frame? && GlobalOk(l, s, ev.now)
    ensures var s' := After(l, s, ev);
      && GlobalOk(l, s', ev.now)
      && (s'.forwardedBytes - s.forwardedBytes) as real + Budget(s'.globalBucket, l.global, ev.now) <= Budget(s.globalBucket, l.global, ev.now)
  {
    hide Taken, Budget;
    TakenSpends(s.globalBucket, l.global, ev.bytes, ev.now);
    if ev.message.Relay? {
      NoTimeNoFlow(Taken(s.globalBucket, l.global, ev.bytes, ev.now).0, l.global, ev.now);
    }
  }

  lemma NoTimeNoFlow(b: Bucket, cap: real, now: int)
    ensures b.last == now ==> Budget(b, cap, now) == b.tokens
  {
    if b.last == now {
      assert (now - b.last) as real / 1000.0 == 0.0;
    }
  }

  /** So from the start, after T milliseconds, no more than one burst plus T/1000 seconds' worth of
    bytes has been forwarded. */
  lemma BurstAndRate(l: Limits, s: State, events: seq<Event>, from: int, to: int)
    requires l.global >= 0.0 && Clocked(events, from, to)
    requires s == State(map[], map[], map[], map[], Bucket(l.global, from), 0, 0, {})
    ensures Run(l, s, events).forwardedBytes as real <= l.global + (to - from) as real / 1000.0 * l.global
  {
    hide Run, Budget;
    GlobalBandwidth(l, s, events, from, to);
    var s' := Run(l, s, events);
    BudgetIsPositive(s'.globalBucket, l.global, to);
    FullBudget(l.global, from, to);
    assert s'.forwardedBytes - s.forwardedBytes == s'.forwardedBytes;
  }

  lemma BudgetIsPositive(b: Bucket, cap: real, now: int)
    requires cap >= 0.0 && b.tokens >= 0.0 && b.last <= now
    ensures Budget(b, cap, now) >= 0.0
  {
    NonNegativeProduct((now - b.last) as real / 1000.0, cap);
  }

  lemma FullBudget(cap: real, from: int, to: int)
    ensures Budget(Bucket(cap, from), cap, to) == cap + (to - from) as real / 1000.0 * cap
  {
  }
}
