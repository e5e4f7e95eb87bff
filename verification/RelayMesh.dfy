/** Flooding of envelopes between gateways (vap-transport.mjs: POST /envelopes, claimRelayed,
  forwardToPeers): marker files make each gateway accept a nonce once and forward an id once, on any
  peer graph, cycles and duplicate links included. */
module RelayMesh {
  import opened Wrappers

  type Id = string
  type Nonce = string

  /** An envelope as the checks before the markers see it. */
  datatype Envelope = Envelope(id: Id, nonce: Nonce, wellFormed: bool, signed: bool)

  /** The marker files and stored envelopes of a gateway. */
  datatype Files = Files(nonces: set<Nonce>, inbox: map<Id, Envelope>, relayed: set<Id>)

  /** What stands before the envelope is read: the rate limit and the inbox quota. */
  datatype Admission = Admitted | RateLimited | QuotaExceeded

  const ACCEPTED := 202
  const BAD_REQUEST := 400
  const FORBIDDEN := 403
  const REPLAY := 409
  const TOO_MANY_REQUESTS := 429
  const UNAVAILABLE := 503

  function StatusOf(f: Files, e: Envelope, admission: Admission): nat {
    if admission.RateLimited? then TOO_MANY_REQUESTS
    else if admission.QuotaExceeded? then UNAVAILABLE
    else if !e.wellFormed then BAD_REQUEST
    else if !e.signed then FORBIDDEN
    else if e.nonce in f.nonces then REPLAY
    else ACCEPTED
  }

  /** Does accepting it make the gateway pass the envelope on? */
  predicate Forwards(f: Files, peers: seq<nat>, e: Envelope) {
    peers != [] && e.id !in f.relayed
  }

  function Accepted(f: Files, peers: seq<nat>, e: Envelope): Files {
    Files(f.nonces + {e.nonce}, f.inbox[e.id := e], if Forwards(f, peers, e) then f.relayed + {e.id} else f.relayed)
  }

  datatype Packet = Packet(to: nat, envelope: Envelope)

  function Copies(peers: seq<nat>, e: Envelope): (ps: seq<Packet>)
    ensures |ps| == |peers| && forall i | 0 <= i < |ps| :: ps[i] == Packet(peers[i], e)
  {
    seq(|peers|, i requires 0 <= i < |peers| => Packet(peers[i], e))
  }

  /** A gateway handling one request: the status, the new files, the packets sent. */
  function Handled(f: Files, peers: seq<nat>, e: Envelope, admission: Admission): (nat, Files, seq<Packet>) {
    var status := StatusOf(f, e, admission);
    if status != ACCEPTED then (status, f, [])
    else (status, Accepted(f, peers, e), if Forwards(f, peers, e) then Copies(peers, e) else [])
  }

  class Gateway {
    const peers: seq<nat>
    var nonces: set<Nonce>
    var inbox: map<Id, Envelope>
    var relayed: set<Id>
    var rateRejected: nat
    var quotaRejected: nat

    function Abs(): Files
      reads this
    {
      Files(nonces, inbox, relayed)
    }

    constructor (peers: seq<nat>)
      ensures this.peers == peers && Abs() == Files({}, map[], {}) && rateRejected == 0 && quotaRejected == 0
    {
      this.peers := peers;
      nonces, inbox, relayed := {}, map[], {};
      rateRejected, quotaRejected := 0, 0;
    }

    /** Exclusive creation of a marker: true for the first caller only. */
    method ClaimNonce(nonce: Nonce) returns (claimed: bool)
      modifies this`nonces
      ensures claimed == (nonce !in old(nonces)) && nonces == old(nonces) + {nonce}
    {
      claimed := nonce !in nonces;
      nonces := nonces + {nonce};
    }

    method ClaimRelayed(id: Id) returns (claimed: bool)
      modifies this`relayed
      ensures claimed == (id !in old(relayed)) && relayed == old(relayed) + {id}
    {
      claimed := id !in relayed;
      relayed := relayed + {id};
    }

    method ForwardToPeers(e: Envelope) returns (sent: seq<Packet>)
      ensures sent == Copies(peers, e)
    {
      sent := [];
      for i := 0 to |peers|
        invariant |sent| == i && forall k | 0 <= k < i :: sent[k] == Packet(peers[k], e)
      {
        sent := sent + [Packet(peers[i], e)];
      }
    }

    method Post(e: Envelope, admission: Admission) returns (status: nat, sent: seq<Packet>)
      modifies this
      ensures (status, Abs(), sent) == Handled(old(Abs()), peers, e, admission)
      ensures status == ACCEPTED <==> admission == Admitted && e.wellFormed && e.signed && e.nonce !in old(nonces)
      ensures rateRejected == old(rateRejected) + if admission.RateLimited? then 1 else 0
      ensures quotaRejected == old(quotaRejected) + if admission.QuotaExceeded? then 1 else 0
    {
      sent := [];
      if admission == RateLimited {
        rateRejected := rateRejected + 1;
        return TOO_MANY_REQUESTS, [];
      }
      if admission == QuotaExceeded {
        quotaRejected := quotaRejected + 1;
        return UNAVAILABLE, [];
      }
      if !e.wellFormed {
        return BAD_REQUEST, [];
      }
      if !e.signed {
        return FORBIDDEN, [];
      }
      var claimed := ClaimNonce(e.nonce);
      if !claimed {
        assert nonces == old(nonces);
        return REPLAY, [];
      }
      inbox := inbox[e.id := e];
      if |peers| > 0 {
        var first := ClaimRelayed(e.id);
        if first {
          sent := ForwardToPeers(e);
        } else {
          assert relayed == old(relayed);
        }
      }
      status := ACCEPTED;
    }
  }

  // ------------------------------------------------------------------ the mesh

  /** All gateways, the packets under way, and a history: everything sent between gateways, everything
    taken off the wire, and who accepted what. */
  datatype Mesh = Mesh(files: seq<Files>, inFlight: seq<Packet>, sent: seq<Packet>, taken: seq<Packet>, accepted: seq<Packet>)

  type Topology = seq<seq<nat>>

  datatype Event =
    | Inject(at: nat, envelope: Envelope, admission: Admission)  // a client posts
    | Deliver(k: nat, admission: Admission)                      // the k-th packet under way arrives
    | Lose(k: nat)                                               // or is lost

  predicate Possible(peers: Topology, m: Mesh, ev: Event) {
    && |m.files| == |peers|
    && match ev
       case Inject(at, _, _) => at < |peers|
       case Deliver(k, _) => k < |m.inFlight| && m.inFlight[k].to < |peers|
       case Lose(k) => k < |m.inFlight|
  }

  function Without(ps: seq<Packet>, k: nat): seq<Packet>
    requires k < |ps|
  {
    ps[..k] + ps[k + 1..]
  }

  function Post(peers: Topology, m: Mesh, at: nat, e: Envelope, admission: Admission): Mesh
    requires at < |peers| == |m.files|
  {
    var (status, files, out) := Handled(m.files[at], peers[at], e, admission);
    m.(files := m.files[at := files], inFlight := m.inFlight + out, sent := m.sent + out,
       accepted := if status == ACCEPTED then m.accepted + [Packet(at, e)] else m.accepted)
  }

  function Take(m: Mesh, k: nat): Mesh
    requires k < |m.inFlight|
  {
    m.(inFlight := Without(m.inFlight, k), taken := m.taken + [m.inFlight[k]])
  }

  function Next(peers: Topology, m: Mesh, ev: Event): (m': Mesh)
    requires Possible(peers, m, ev)
    ensures |m'.files| == |peers|
  {
    match ev
    case Inject(at, e, admission) => Post(peers, m, at, e, admission)
    case Deliver(k, admission) => Post(peers, Take(m, k), m.inFlight[k].to, m.inFlight[k].envelope, admission)
    case Lose(k) => Take(m, k)
  }

  function Empty(peers: Topology): Mesh {
    Mesh(seq(|peers|, _ => Files({}, map[], {})), [], [], [], [])
  }

  /** Run events from an empty mesh; None if one of them is impossible. */
  function Run(peers: Topology, events: seq<Event>): (r: Option<Mesh>)
    ensures r.Some? ==> |r.value.files| == |peers|
  {
    if events == [] then Some(Empty(peers))
    else
      var before, ev := Run(peers, events[..|events| - 1]), events[|events| - 1];
      if before.Some? && Possible(peers, before.value, ev) then Some(Next(peers, before.value, ev)) else None
  }

  // ------------------------------------------------------------------ at most once

  /** No gateway accepts a nonce twice. */
  predicate OncePerNonce(accepted: seq<Packet>) {
    forall i, j | 0 <= i < j < |accepted| ::
      accepted[i].to == accepted[j].to ==> accepted[i].envelope.nonce != accepted[j].envelope.nonce
  }

  predicate Remembered(files: seq<Files>, accepted: seq<Packet>) {
    forall i | 0 <= i < |accepted| ::
      accepted[i].to < |files| && accepted[i].envelope.nonce in files[accepted[i].to].nonces
  }

  lemma {:induction false} AcceptedOnce(peers: Topology, events: seq<Event>)
    requires Run(peers, events).Some?
    ensures var m := Run(peers, events).value; OncePerNonce(m.accepted) && Remembered(m.files, m.accepted)
  {
    if events != [] {
      var before, ev := Run(peers, events[..|events| - 1]).value, events[|events| - 1];
      AcceptedOnce(peers, events[..|events| - 1]);
      match ev
      case Inject(at, e, admission) => PostOnce(peers, before, at, e, admission);
      case Deliver(k, admission) =>
        PostOnce(peers, Take(before, k), before.inFlight[k].to, before.inFlight[k].envelope, admission);
      case Lose(k) =>
    }
  }

  lemma PostOnce(peers: Topology, m: Mesh, at: nat, e: Envelope, admission: Admission)
    requires at < |peers| == |m.files| && OncePerNonce(m.accepted) && Remembered(m.files, m.accepted)
    ensures var m' := Post(peers, m, at, e, admission); OncePerNonce(m'.accepted) && Remembered(m'.files, m'.accepted)
  {
  }

  // ------------------------------------------------------------------ traffic is bounded

  function Count(ps: seq<Packet>, id: Id): nat {
    if ps == [] then 0 else Count(ps[..|ps| - 1], id) + if ps[|ps| - 1].envelope.id == id then 1 else 0
  }

  lemma {:induction false} CountConcat(a: seq<Packet>, b: seq<Packet>, id: Id)
    ensures Count(a + b, id) == Count(a, id) + Count(b, id)
  {
    if b == [] {
      assert a + b == a;
    } else {
      assert (a + b)[..|a + b| - 1] == a + b[..|b| - 1];
      CountConcat(a, b[..|b| - 1], id);
    }
  }

  lemma CountWithout(ps: seq<Packet>, k: nat, id: Id)
    requires k < |ps|
    ensures Count(ps, id) == Count(Without(ps, k), id) + Count([ps[k]], id)
  {
    assert ps == ps[..k] + ([ps[k]] + ps[k + 1..]);
    CountConcat(ps[..k], [ps[k]] + ps[k + 1..], id);
    CountConcat([ps[k]], ps[k + 1..], id);
    CountConcat(ps[..k], ps[k + 1..], id);
  }

  lemma {:induction false} CountCopies(peers: seq<nat>, e: Envelope, id: Id)
    ensures Count(Copies(peers, e), id) == if e.id == id then |peers| else 0
  {
    if peers != [] {
      var ps := Copies(peers, e);
      assert ps[..|ps| - 1] == Copies(peers[..|peers| - 1], e);
      CountCopies(peers[..|peers| - 1], e, id);
    }
  }

  /** Links out of the gateways that have forwarded the id. */
  function LinksUsed(peers: Topology, files: seq<Files>, id: Id): nat
    requires |files| == |peers|
  {
    if peers == [] then 0
    else
      var last := |peers| - 1;
      LinksUsed(peers[..last], files[..last], id) + if id in files[last].relayed then |peers[last]| else 0
  }

  function Links(peers: Topology): nat {
    if peers == [] then 0 else Links(peers[..|peers| - 1]) + |peers[|peers| - 1]|
  }

  lemma {:induction false} LinksBound(peers: Topology, files: seq<Files>, id: Id)
    requires |files| == |peers|
    ensures LinksUsed(peers, files, id) <= Links(peers)
  {
    if peers != [] {
      LinksBound(peers[..|peers| - 1], files[..|files| - 1], id);
    }
  }

  lemma {:induction false} LinksUpdate(peers: Topology, files: seq<Files>, at: nat, f: Files, id: Id)
    requires at < |files| == |peers| && files[at].relayed <= f.relayed
    ensures LinksUsed(peers, files[at := f], id) ==
            LinksUsed(peers, files, id) + if id in f.relayed && id !in files[at].relayed then |peers[at]| else 0
  {
    var last := |peers| - 1;
    if at < last {
      assert files[at := f][..last] == files[..last][at := f];
      LinksUpdate(peers[..last], files[..last], at, f, id);
    } else {
      assert files[at := f][..last] == files[..last];
    }
  }

  /** What was sent has been taken off the wire or is under way, and was sent over links of gateways
    that have forwarded the id, each link once. */
  predicate Accounted(peers: Topology, m: Mesh, id: Id)
    requires |m.files| == |peers|
  {
    && Count(m.sent, id) == Count(m.inFlight, id) + Count(m.taken, id)
    && Count(m.sent, id) == LinksUsed(peers, m.files, id)
  }

  lemma PostAccounted(peers: Topology, m: Mesh, at: nat, e: Envelope, admission: Admission, id: Id)
    requires at < |peers| == |m.files| && Accounted(peers, m, id)
    ensures Accounted(peers, Post(peers, m, at, e, admission), id)
  {
    hide Count, LinksUsed, Handled;
    var (status, files, out) := Handled(m.files[at], peers[at], e, admission);
    CountConcat(m.sent, out, id);
    CountConcat(m.inFlight, out, id);
    SentAreNew(m.files[at], peers[at], e, admission, id);
    LinksUpdate(peers, m.files, at, files, id);
  }

  lemma SentAreNew(f: Files, peers: seq<nat>, e: Envelope, admission: Admission, id: Id)
    ensures var (_, f', out) := Handled(f, peers, e, admission);
      f.relayed <= f'.relayed && Count(out, id) == if id in f'.relayed && id !in f.relayed then |peers| else 0
  {
    CountCopies(peers, e, id);
  }

  lemma TakeAccounted(peers: Topology, m: Mesh, k: nat, id: Id)
    requires k < |m.inFlight| && |m.files| == |peers| && Accounted(peers, m, id)
    ensures Accounted(peers, Take(m, k), id)
  {
    CountWithout(m.inFlight, k, id);
    CountConcat(m.taken, [m.inFlight[k]], id);
  }

  lemma {:induction false} EverythingAccounted(peers: Topology, events: seq<Event>, id: Id)
    requires Run(peers, events).Some?
    ensures Accounted(peers, Run(peers, events).value, id)
  {
    if events == [] {
      NothingUsed(peers, id);
    } else {
      hide Count, LinksUsed, Post, Take;
      var before, ev := Run(peers, events[..|events| - 1]).value, events[|events| - 1];
      EverythingAccounted(peers, events[..|events| - 1], id);
      match ev
      case Inject(at, e, admission) => PostAccounted(peers, before, at, e, admission, id);
      case Deliver(k, admission) =>
        TakeAccounted(peers, before, k, id);
        TakeKeepsFiles(before, k);
        PostAccounted(peers, Take(before, k), before.inFlight[k].to, before.inFlight[k].envelope, admission, id);
      case Lose(k) => TakeAccounted(peers, before, k, id);
    }
  }

  lemma TakeKeepsFiles(m: Mesh, k: nat)
    requires k < |m.inFlight|
    ensures Take(m, k).files == m.files
  {
  }

  lemma {:induction false} NothingUsed(peers: Topology, id: Id)
    ensures LinksUsed(peers, Empty(peers).files, id) == 0
  {
    if peers != [] {
      var last := |peers| - 1;
      assert Empty(peers).files[..last] == Empty(peers[..last]).files;
      NothingUsed(peers[..last], id);
    }
  }

  /** Flooding stops: however often an envelope is posted, lost, refused or delivered, an id crosses every
    link at most once, so no more packets with it are ever sent or taken off the wire than there are links. */
  lemma TrafficBounded(peers: Topology, events: seq<Event>, id: Id)
    requires Run(peers, events).Some?
    ensures var m := Run(peers, events).value;
      Count(m.inFlight, id) + Count(m.taken, id) == Count(m.sent, id) <= Links(peers)
  {
    EverythingAccounted(peers, events, id);
    LinksBound(peers, Run(peers, events).value.files, id);
  }

  // ------------------------------------------------------------------ who gets it

  /** No request is refused by a limit and no packet is lost. */
  predicate Lossless(events: seq<Event>) {
    forall i | 0 <= i < |events| ::
      !events[i].Lose? && (events[i].Inject? ==> events[i].admission.Admitted?) && (events[i].Deliver? ==> events[i].admission.Admitted?)
  }

  /** Nobody else posts an envelope with e's id or nonce. */
  predicate Unique(events: seq<Event>, e: Envelope) {
    forall i | 0 <= i < |events| && events[i].Inject? ::
      events[i].envelope == e || (events[i].envelope.id != e.id && events[i].envelope.nonce != e.nonce)
  }

  predicate PostedAt(events: seq<Event>, e: Envelope, at: nat) {
    exists i :: 0 <= i < |events| && events[i].Inject? && events[i].at == at && events[i].envelope == e
  }

  /** Is there a path of peer links from one gateway to another? */
  ghost predicate Reaches(peers: Topology, from: nat, to: nat) {
    exists path :: IsPath(peers, path) && path[0] == from && path[|path| - 1] == to
  }

  predicate IsPath(peers: Topology, path: seq<nat>) {
    && path != [] && (forall i | 0 <= i < |path| :: path[i] < |peers|)
    && forall i | 0 <= i < |path| - 1 :: path[i + 1] in peers[path[i]]
  }

  ghost predicate Supplied(peers: Topology, events: seq<Event>, e: Envelope, at: nat) {
    exists entry :: PostedAt(events, e, entry) && Reaches(peers, entry, at)
  }

  predicate Has(m: Mesh, e: Envelope, at: nat) {
    exists i :: 0 <= i < |m.accepted| && m.accepted[i] == Packet(at, e)
  }

  predicate UnderWay(m: Mesh, e: Envelope, to: nat) {
    exists i :: 0 <= i < |m.inFlight| && m.inFlight[i] == Packet(to, e)
  }

  /** Other envelopes keep off e's markers. */
  predicate KeepsOff(e: Envelope, other: Envelope) {
    other == e || (other.id != e.id && other.nonce != e.nonce)
  }

  predicate AllKeepOff(ps: seq<Packet>, e: Envelope) {
    forall i | 0 <= i < |ps| :: KeepsOff(e, ps[i].envelope)
  }

  /** The markers for the envelope's nonce and id stand only where it has been accepted. */
  predicate Marked(f: Files, has: bool, e: Envelope) {
    (e.nonce in f.nonces <==> has) && (e.id in f.relayed ==> has)
  }

  predicate AllMarked(m: Mesh, e: Envelope) {
    forall at | 0 <= at < |m.files| :: Marked(m.files[at], Has(m, e, at), e)
  }

  /** A gateway that has the envelope has passed it to every peer; it is there or on its way, with one
    exception while a packet is being handled. */
  predicate PassedOn(peers: Topology, m: Mesh, e: Envelope, except: Option<nat>) {
    forall at, p | 0 <= at < |peers| && Has(m, e, at) && p in peers[at] && p < |peers| ::
      Has(m, e, p) || UnderWay(m, e, p) || except == Some(p)
  }

  ghost predicate FromEntries(peers: Topology, events: seq<Event>, m: Mesh, e: Envelope) {
    forall at | 0 <= at < |peers| && (Has(m, e, at) || UnderWay(m, e, at)) :: Supplied(peers, events, e, at)
  }

  predicate EntriesHave(peers: Topology, events: seq<Event>, m: Mesh, e: Envelope) {
    forall at | 0 <= at < |peers| && PostedAt(events, e, at) :: Has(m, e, at)
  }

  ghost predicate Spread(peers: Topology, events: seq<Event>, m: Mesh, e: Envelope, except: Option<nat>) {
    && |m.files| == |peers| && AllKeepOff(m.inFlight, e) && AllMarked(m, e)
    && PassedOn(peers, m, e, except) && FromEntries(peers, events, m, e)
  }

  lemma HasAfter(m: Mesh, m': Mesh, e: Envelope, extra: seq<Packet>, at: nat)
    requires m'.accepted == m.accepted + extra && |extra| <= 1
    ensures Has(m', e, at) <==> Has(m, e, at) || extra == [Packet(at, e)]
  {
    if Has(m, e, at) {
      var i :| 0 <= i < |m.accepted| && m.accepted[i] == Packet(at, e);
      assert m'.accepted[i] == Packet(at, e);
    }
    if extra == [Packet(at, e)] {
      assert m'.accepted[|m.accepted|] == Packet(at, e);
    }
  }

  lemma UnderWayAfter(m: Mesh, m': Mesh, e: Envelope, extra: seq<Packet>, to: nat)
    requires m'.inFlight == m.inFlight + extra
    ensures UnderWay(m', e, to) <==> UnderWay(m, e, to) || Packet(to, e) in extra
  {
    if UnderWay(m, e, to) {
      var i :| 0 <= i < |m.inFlight| && m.inFlight[i] == Packet(to, e);
      assert m'.inFlight[i] == Packet(to, e);
    }
    if Packet(to, e) in extra {
      var i :| 0 <= i < |extra| && extra[i] == Packet(to, e);
      assert m'.inFlight[|m.inFlight| + i] == Packet(to, e);
    }
  }

  lemma {:induction false} Extend(peers: Topology, from: nat, via: nat, to: nat)
    requires Reaches(peers, from, via) && via < |peers| && to in peers[via] && to < |peers|
    ensures Reaches(peers, from, to)
  {
    var path :| IsPath(peers, path) && path[0] == from && path[|path| - 1] == via;
    var longer := path + [to];
    assert IsPath(peers, longer) && longer[0] == from && longer[|longer| - 1] == to;
  }

  /** Handling an unrelated envelope leaves everything about e alone. */
  lemma OtherKeepsSpread(peers: Topology, events: seq<Event>, m: Mesh, e: Envelope, at: nat, other: Envelope, except: Option<nat>)
    requires Spread(peers, events, m, e, except) && at < |peers| && other != e && KeepsOff(e, other)
    ensures Spread(peers, events, Post(peers, m, at, other, Admitted), e, except)
  {
    hide Has, UnderWay, Supplied, KeepsOff;
    var m' := Post(peers, m, at, other, Admitted);
    var (status, files, out) := Handled(m.files[at], peers[at], other, Admitted);
    KeepsOffMeans(e, other);
    forall g: nat ensures Has(m', e, g) == Has(m, e, g) && UnderWay(m', e, g) == UnderWay(m, e, g) {
      HasAfter(m, m', e, if status == ACCEPTED then [Packet(at, other)] else [], g);
      UnderWayAfter(m, m', e, out, g);
    }
  }

  lemma KeepsOffMeans(e: Envelope, other: Envelope)
    requires KeepsOff(e, other) && other != e
    ensures other.id != e.id && other.nonce != e.nonce
  {
  }

  /** Handling e itself: the gateway has it afterwards, and its peers have it or will. */
  lemma OwnKeepsSpread(peers: Topology, events: seq<Event>, m: Mesh, e: Envelope, at: nat, except: Option<nat>)
    requires Spread(peers, events, m, e, except) && at < |peers| && (except.None? || except == Some(at))
    requires e.wellFormed && e.signed && Supplied(peers, events, e, at)
    ensures var m' := Post(peers, m, at, e, Admitted);
      Spread(peers, events, m', e, None) && Has(m', e, at) && forall g | Has(m, e, g) :: Has(m', e, g)
  {
    hide Has, UnderWay, Supplied, KeepsOff;
    var m' := Post(peers, m, at, e, Admitted);
    var (status, files, out) := Handled(m.files[at], peers[at], e, Admitted);
    assert Marked(m.files[at], Has(m, e, at), e);
    forall g: nat
      ensures Has(m', e, g) <==> Has(m, e, g) || g == at
      ensures UnderWay(m', e, g) <==> UnderWay(m, e, g) || Packet(g, e) in out
    {
      HasAfter(m, m', e, if status == ACCEPTED then [Packet(at, e)] else [], g);
      UnderWayAfter(m, m', e, out, g);
    }
    OwnKeepsOff(e);
    PassedOnAfter(peers, m, m', e, at, out, except);
    SuppliedAfter(peers, events, m, m', e, at, out);
  }

  lemma OwnKeepsOff(e: Envelope)
    ensures KeepsOff(e, e)
  {
  }

  lemma PassedOnAfter(peers: Topology, m: Mesh, m': Mesh, e: Envelope, at: nat, out: seq<Packet>, except: Option<nat>)
    requires PassedOn(peers, m, e, except) && at < |peers| && (except.None? || except == Some(at))
    requires forall g: nat :: Has(m', e, g) <==> Has(m, e, g) || g == at
    requires forall g: nat :: UnderWay(m', e, g) <==> UnderWay(m, e, g) || Packet(g, e) in out
    requires Has(m, e, at) || out == Copies(peers[at], e)
    ensures PassedOn(peers, m', e, None)
  {
    hide Has, UnderWay;
    forall g, p | 0 <= g < |peers| && Has(m', e, g) && p in peers[g] && p < |peers|
      ensures Has(m', e, p) || UnderWay(m', e, p)
    {
      if !Has(m, e, g) {
        var i :| 0 <= i < |peers[at]| && peers[at][i] == p;
        assert out[i] == Packet(p, e);
      }
    }
  }

  lemma SuppliedAfter(peers: Topology, events: seq<Event>, m: Mesh, m': Mesh, e: Envelope, at: nat, out: seq<Packet>)
    requires FromEntries(peers, events, m, e) && at < |peers| && Supplied(peers, events, e, at)
    requires forall g: nat :: Has(m', e, g) <==> Has(m, e, g) || g == at
    requires forall g: nat :: UnderWay(m', e, g) <==> UnderWay(m, e, g) || Packet(g, e) in out
    requires out == [] || out == Copies(peers[at], e)
    ensures FromEntries(peers, events, m', e)
  {
    hide Has, UnderWay, PostedAt, Reaches;
    forall g | 0 <= g < |peers| && (Has(m', e, g) || UnderWay(m', e, g)) ensures Supplied(peers, events, e, g) {
      if !Has(m, e, g) && !UnderWay(m, e, g) && g != at {
        var i :| 0 <= i < |out| && out[i] == Packet(g, e);
        var entry :| PostedAt(events, e, entry) && Reaches(peers, entry, at);
        Extend(peers, entry, at, g);
      }
    }
  }

  /** Taking a packet off the wire can only cost its own target. */
  lemma TakeKeepsSpread(peers: Topology, events: seq<Event>, m: Mesh, e: Envelope, k: nat)
    requires Spread(peers, events, m, e, None) && k < |m.inFlight|
    ensures Spread(peers, events, Take(m, k), e, if m.inFlight[k].envelope == e then Some(m.inFlight[k].to) else None)
    ensures forall g | Has(m, e, g) :: Has(Take(m, k), e, g)
  {
    hide Supplied, KeepsOff;
    var m' := Take(m, k);
    forall g: nat
      ensures UnderWay(m', e, g) ==> UnderWay(m, e, g)
      ensures UnderWay(m, e, g) ==> UnderWay(m', e, g) || m.inFlight[k] == Packet(g, e)
    {
      TakenApart(m, k, e, g);
    }
    assert forall g: nat :: Has(m', e, g) == Has(m, e, g);
    KeepsOffWithout(m.inFlight, k, e);
  }

  lemma TakenApart(m: Mesh, k: nat, e: Envelope, g: nat)
    requires k < |m.inFlight|
    ensures UnderWay(Take(m, k), e, g) ==> UnderWay(m, e, g)
    ensures UnderWay(m, e, g) ==> UnderWay(Take(m, k), e, g) || m.inFlight[k] == Packet(g, e)
  {
    var rest := Take(m, k).inFlight;
    if UnderWay(m, e, g) && m.inFlight[k] != Packet(g, e) {
      var i :| 0 <= i < |m.inFlight| && m.inFlight[i] == Packet(g, e);
      assert rest[if i < k then i else i - 1] == Packet(g, e);
    }
    if UnderWay(Take(m, k), e, g) {
      var i :| 0 <= i < |rest| && rest[i] == Packet(g, e);
      assert m.inFlight[if i < k then i else i + 1] == Packet(g, e);
    }
  }

  lemma KeepsOffWithout(ps: seq<Packet>, k: nat, e: Envelope)
    requires k < |ps| && AllKeepOff(ps, e)
    ensures AllKeepOff(Without(ps, k), e)
  {
  }

  lemma SuppliedLater(peers: Topology, init: seq<Event>, ev: Event, m: Mesh, e: Envelope, except: Option<nat>)
    requires Spread(peers, init, m, e, except)
    ensures Spread(peers, init + [ev], m, e, except)
  {
    hide Has, UnderWay, Reaches;
    forall at | 0 <= at < |peers| && (Has(m, e, at) || UnderWay(m, e, at)) ensures Supplied(peers, init + [ev], e, at) {
      var entry :| PostedAt(init, e, entry) && Reaches(peers, entry, at);
      PostedLater(init, ev, e, entry);
    }
  }

  lemma PostedLater(init: seq<Event>, ev: Event, e: Envelope, at: nat)
    ensures PostedAt(init + [ev], e, at) <==> PostedAt(init, e, at) || (ev.Inject? && ev.at == at && ev.envelope == e)
  {
    var events := init + [ev];
    assert events[|init|] == ev && forall i | 0 <= i < |init| :: events[i] == init[i];
    if ev.Inject? && ev.at == at && ev.envelope == e {
      assert events[|init|].Inject?;
    }
    if PostedAt(init, e, at) {
      var i :| 0 <= i < |init| && init[i].Inject? && init[i].at == at && init[i].envelope == e;
      assert events[i].Inject?;
    }
  }

  lemma SpreadAtStart(peers: Topology, e: Envelope)
    ensures Spread(peers, [], Empty(peers), e, None)
  {
  }

  lemma ReachesItself(peers: Topology, at: nat)
    requires at < |peers|
    ensures Reaches(peers, at, at)
  {
    assert IsPath(peers, [at]) && [at][0] == at && [at][|[at]| - 1] == at;
  }

  lemma InjectSpreads(peers: Topology, init: seq<Event>, m: Mesh, e: Envelope, ev: Event)
    requires Spread(peers, init, m, e, None) && EntriesHave(peers, init, m, e) && e.wellFormed && e.signed
    requires ev.Inject? && ev.admission.Admitted? && ev.at < |peers| && KeepsOff(e, ev.envelope)
    ensures var m' := Post(peers, m, ev.at, ev.envelope, Admitted);
      Spread(peers, init + [ev], m', e, None) && EntriesHave(peers, init + [ev], m', e)
  {
    hide Spread, KeepsOff, Post, Has, PostedAt, Reaches;
    SpreadSizes(peers, init, m, e, None);
    var events := init + [ev];
    SuppliedLater(peers, init, ev, m, e, None);
    forall at ensures PostedAt(events, e, at) <==> PostedAt(init, e, at) || (ev.Inject? && ev.at == at && ev.envelope == e) {
      PostedLater(init, ev, e, at);
    }
    if ev.envelope == e {
      ReachesItself(peers, ev.at);
      OwnKeepsSpread(peers, events, m, e, ev.at, None);
    } else {
      OtherKeepsSpread(peers, events, m, e, ev.at, ev.envelope, None);
      OtherKeepsHas(peers, m, ev.at, ev.envelope, e);
    }
  }

  lemma SpreadSizes(peers: Topology, events: seq<Event>, m: Mesh, e: Envelope, except: Option<nat>)
    requires Spread(peers, events, m, e, except)
    ensures |m.files| == |peers|
  {
  }

  lemma OtherKeepsHas(peers: Topology, m: Mesh, at: nat, other: Envelope, e: Envelope)
    requires at < |peers| == |m.files|
    ensures forall g | Has(m, e, g) :: Has(Post(peers, m, at, other, Admitted), e, g)
  {
    var m' := Post(peers, m, at, other, Admitted);
    forall g | Has(m, e, g) ensures Has(m', e, g) {
      var i :| 0 <= i < |m.accepted| && m.accepted[i] == Packet(g, e);
      assert m'.accepted[i] == Packet(g, e);
    }
  }

  lemma DeliverSpreads(peers: Topology, init: seq<Event>, m: Mesh, e: Envelope, ev: Event)
    requires Spread(peers, init, m, e, None) && EntriesHave(peers, init, m, e) && e.wellFormed && e.signed
    requires ev.Deliver? && ev.admission.Admitted? && Possible(peers, m, ev)
    ensures var m' := Next(peers, m, ev); Spread(peers, init + [ev], m', e, None) && EntriesHave(peers, init + [ev], m', e)
  {
    var p := m.inFlight[ev.k];
    var taken := Take(m, ev.k);
    assert KeepsOff(e, p.envelope);
    assert p.envelope == e ==> UnderWay(m, e, p.to);
    hide KeepsOff, Post, Has, PostedAt, Reaches, UnderWay, AllMarked, AllKeepOff, PassedOn;
    assert p.envelope == e ==> Supplied(peers, init, e, p.to);
    hide Spread, Take, FromEntries, Supplied;
    var events := init + [ev];
    TakeKeepsSpread(peers, init, m, e, ev.k);
    SpreadSizes(peers, init, taken, e, if p.envelope == e then Some(p.to) else None);
    forall at ensures PostedAt(events, e, at) <==> PostedAt(init, e, at) {
      PostedLater(init, ev, e, at);
    }
    if p.envelope == e {
      OwnKeepsSpread(peers, init, taken, e, p.to, Some(p.to));
    } else {
      OtherKeepsSpread(peers, init, taken, e, p.to, p.envelope, None);
      OtherKeepsHas(peers, taken, p.to, p.envelope, e);
    }
    SuppliedLater(peers, init, ev, Post(peers, taken, p.to, p.envelope, Admitted), e, None);
  }

  lemma {:induction false} LosslessSpread(peers: Topology, events: seq<Event>, e: Envelope)
    requires Run(peers, events).Some? && Lossless(events) && Unique(events, e) && e.wellFormed && e.signed
    ensures Spread(peers, events, Run(peers, events).value, e, None)
    ensures EntriesHave(peers, events, Run(peers, events).value, e)
  {
    if events == [] {
      SpreadAtStart(peers, e);
    } else {
      var init, ev := events[..|events| - 1], events[|events| - 1];
      assert events == init + [ev];
      assert forall i | 0 <= i < |init| :: init[i] == events[i];
      LosslessSpread(peers, init, e);
      var m := Run(peers, init).value;
      hide Spread, EntriesHave, Post, Take;
      match ev
      case Inject(_, _, _) => InjectSpreads(peers, init, m, e, ev);
      case Deliver(_, _) => DeliverSpreads(peers, init, m, e, ev);
      case Lose(_) => assert false;
    }
  }

  lemma {:induction false} AlongPath(peers: Topology, m: Mesh, e: Envelope, path: seq<nat>)
    requires IsPath(peers, path) && PassedOn(peers, m, e, None) && Has(m, e, path[0])
    requires forall p | 0 <= p < |peers| :: !UnderWay(m, e, p)
    ensures Has(m, e, path[|path| - 1])
  {
    hide Has, UnderWay;
    if |path| > 1 {
      var init := path[..|path| - 1];
      assert init[|init| - 1] == path[|path| - 2] && path[|path| - 2 + 1] in peers[path[|path| - 2]];
      AlongPath(peers, m, e, init);
    }
  }

  /** Delivery: in a lossless run, once no copy of a valid envelope with its own id and nonce is under way
    to a gateway, it has been accepted exactly by the gateways that can be reached over peer links from
    where it was posted (and by each of them once). */
  lemma AcceptedIffReachable(peers: Topology, events: seq<Event>, e: Envelope, at: nat)
    requires Run(peers, events).Some? && Lossless(events) && Unique(events, e) && e.wellFormed && e.signed
    requires forall p | 0 <= p < |peers| :: !UnderWay(Run(peers, events).value, e, p)
    requires at < |peers|
    ensures Has(Run(peers, events).value, e, at) <==> Supplied(peers, events, e, at)
  {
    var m := Run(peers, events).value;
    LosslessSpread(peers, events, e);
    if Supplied(peers, events, e, at) {
      var entry :| PostedAt(events, e, entry) && Reaches(peers, entry, at);
      var path :| IsPath(peers, path) && path[0] == entry && path[|path| - 1] == at;
      assert path[0] < |peers|;
      AlongPath(peers, m, e, path);
    }
  }
}
