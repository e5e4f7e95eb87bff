/** What a gateway's files and packets say about the past (vap-transport.mjs: POST /envelopes). */
module MeshHistory {
  import opened Wrappers
  import opened RelayMesh

  predicate Sound(e: Envelope) {
    e.wellFormed && e.signed
  }

  predicate AllSound(ps: seq<Packet>) {
    forall i | 0 <= i < |ps| :: Sound(ps[i].envelope)
  }

  predicate TookNonce(accepted: seq<Packet>, at: nat, nonce: Nonce) {
    exists i :: 0 <= i < |accepted| && accepted[i].to == at && accepted[i].envelope.nonce == nonce
  }

  predicate TookId(accepted: seq<Packet>, at: nat, id: Id) {
    exists i :: 0 <= i < |accepted| && accepted[i].to == at && accepted[i].envelope.id == id
  }

  /** e is the last envelope with its id the gateway took in. */
  predicate TookLast(accepted: seq<Packet>, at: nat, e: Envelope) {
    exists i ::
      && 0 <= i < |accepted| && accepted[i] == Packet(at, e)
      && forall j | i < j < |accepted| :: accepted[j].to == at ==> accepted[j].envelope.id != e.id
  }

  ghost predicate NoncesTell(nonces: set<Nonce>, accepted: seq<Packet>, at: nat) {
    forall nonce :: nonce in nonces <==> TookNonce(accepted, at, nonce)
  }

  ghost predicate InboxTells(inbox: map<Id, Envelope>, accepted: seq<Packet>, at: nat) {
    && (forall id :: id in inbox <==> TookId(accepted, at, id))
    && (forall id | id in inbox :: inbox[id].id == id && TookLast(accepted, at, inbox[id]))
  }

  ghost predicate RelayedTells(relayed: set<Id>, peers: seq<nat>, accepted: seq<Packet>, at: nat) {
    forall id :: id in relayed <==> peers != [] && TookId(accepted, at, id)
  }

  /** The files of a gateway are a record of what it took in. */
  ghost predicate Tells(f: Files, peers: seq<nat>, accepted: seq<Packet>, at: nat) {
    NoncesTell(f.nonces, accepted, at) && InboxTells(f.inbox, accepted, at) && RelayedTells(f.relayed, peers, accepted, at)
  }

  ghost predicate Recorded(peers: Topology, m: Mesh) {
    && |m.files| == |peers|
    && (forall at: nat | at < |peers| :: Tells(m.files[at], peers[at], m.accepted, at))
  }

  /** Whatever is stored, was accepted, was sent or is under way is well formed and signed. */
  predicate OnlySound(m: Mesh) {
    && AllSound(m.accepted) && AllSound(m.sent) && AllSound(m.inFlight)
    && (forall at | 0 <= at < |m.files| :: forall id | id in m.files[at].inbox :: Sound(m.files[at].inbox[id]))
  }

  // ------------------------------------------------------------------ one request

  /** The request is answered 202 if it passes the limits, is well formed and signed and its nonce is new;
    otherwise with the code of the first test it fails. */
  predicate Answered(nonces: set<Nonce>, e: Envelope, admission: Admission, status: nat) {
    && (status == 202 <==> admission == Admitted && e.wellFormed && e.signed && e.nonce !in nonces)
    && (status == 409 <==> admission == Admitted && e.wellFormed && e.signed && e.nonce in nonces)
    && (status == 403 <==> admission == Admitted && e.wellFormed && !e.signed)
    && (status == 400 <==> admission == Admitted && !e.wellFormed)
    && (status == 429 <==> admission == RateLimited)
    && (status == 503 <==> admission == QuotaExceeded)
  }

  /** A refused request changes nothing and sends nothing. An accepted one is stored under its id, its
    nonce is used up, and the first one with its id goes to every peer. */
  predicate Effect(f: Files, peers: seq<nat>, e: Envelope, accepted: bool, f': Files, sent: seq<Packet>) {
    if !accepted then f' == f && sent == []
    else
      && f'.nonces == f.nonces + {e.nonce} && f'.inbox == f.inbox[e.id := e]
      && f'.relayed == (if peers == [] then f.relayed else f.relayed + {e.id})
      && |sent| == (if e.id in f.relayed then 0 else |peers|)
      && forall i | 0 <= i < |sent| :: sent[i] == Packet(peers[i], e)
  }

  lemma RequestDecided(f: Files, peers: seq<nat>, e: Envelope, admission: Admission)
    ensures var (status, f', sent) := Handled(f, peers, e, admission);
      Answered(f.nonces, e, admission, status) && Effect(f, peers, e, status == 202, f', sent)
  {
  }

  // ------------------------------------------------------------------ every run

  lemma TookMore(accepted: seq<Packet>, p: Packet, at: nat)
    ensures forall nonce :: TookNonce(accepted + [p], at, nonce) <==>
        TookNonce(accepted, at, nonce) || (p.to == at && p.envelope.nonce == nonce)
    ensures forall id :: TookId(accepted + [p], at, id) <==> TookId(accepted, at, id) || (p.to == at && p.envelope.id == id)
    ensures forall e :: TookLast(accepted + [p], at, e) <== p == Packet(at, e) || (TookLast(accepted, at, e) && !(p.to == at && p.envelope.id == e.id))
  {
    var more := accepted + [p];
    assert more[|accepted|] == p && forall i | 0 <= i < |accepted| :: more[i] == accepted[i];
    forall e | TookLast(accepted, at, e) && !(p.to == at && p.envelope.id == e.id) ensures TookLast(more, at, e) {
      var i :| 0 <= i < |accepted| && accepted[i] == Packet(at, e) && forall j | i < j < |accepted| ::
          accepted[j].to == at ==> accepted[j].envelope.id != e.id;
      assert more[i] == Packet(at, e);
    }
  }

  lemma AcceptedTells(f: Files, peers: seq<nat>, accepted: seq<Packet>, at: nat, e: Envelope)
    requires Tells(f, peers, accepted, at)
    ensures Tells(Accepted(f, peers, e), peers, accepted + [Packet(at, e)], at)
  {
    hide TookNonce, TookId, TookLast;
    TookMore(accepted, Packet(at, e), at);
  }

  lemma OthersTell(f: Files, peers: seq<nat>, accepted: seq<Packet>, at: nat, p: Packet)
    requires Tells(f, peers, accepted, at) && p.to != at
    ensures Tells(f, peers, accepted + [p], at)
  {
    hide TookNonce, TookId, TookLast;
    TookMore(accepted, p, at);
  }

  lemma PostRecorded(peers: Topology, m: Mesh, at: nat, e: Envelope, admission: Admission)
    requires at < |peers| && Recorded(peers, m)
    ensures Recorded(peers, Post(peers, m, at, e, admission))
  {
    hide Tells, Accepted;
    var m' := Post(peers, m, at, e, admission);
    if StatusOf(m.files[at], e, admission) == ACCEPTED {
      forall g: nat | g < |peers| ensures Tells(m'.files[g], peers[g], m'.accepted, g) {
        if g == at {
          AcceptedTells(m.files[at], peers[at], m.accepted, at, e);
        } else {
          OthersTell(m.files[g], peers[g], m.accepted, g, Packet(at, e));
        }
      }
    }
  }

  lemma PostOnlySound(peers: Topology, m: Mesh, at: nat, e: Envelope, admission: Admission)
    requires at < |peers| == |m.files| && OnlySound(m)
    ensures OnlySound(Post(peers, m, at, e, admission))
  {
  }

  lemma TakeOnlySound(m: Mesh, k: nat)
    requires k < |m.inFlight| && OnlySound(m)
    ensures OnlySound(Take(m, k))
  {
  }

  /** In every run, whatever is posted, lost, refused or delivered, only well-formed signed envelopes are
    stored, accepted, sent and under way. */
  lemma {:induction false} OnlySoundSpreads(peers: Topology, events: seq<Event>)
    requires Run(peers, events).Some?
    ensures OnlySound(Run(peers, events).value)
  {
    if events != [] {
      hide OnlySound, Post, Take;
      var before, ev := Run(peers, events[..|events| - 1]).value, events[|events| - 1];
      OnlySoundSpreads(peers, events[..|events| - 1]);
      match ev
      case Inject(at, e, admission) => PostOnlySound(peers, before, at, e, admission);
      case Deliver(k, admission) =>
        TakeOnlySound(before, k);
        TakeKeepsFiles(before, k);
        PostOnlySound(peers, Take(before, k), before.inFlight[k].to, before.inFlight[k].envelope, admission);
      case Lose(k) => TakeOnlySound(before, k);
    } else {
      EmptyOnlySound(peers);
    }
  }

  lemma EmptyOnlySound(peers: Topology)
    ensures OnlySound(Empty(peers))
  {
  }

  lemma EmptyRecorded(peers: Topology)
    ensures Recorded(peers, Empty(peers))
  {
  }

  lemma TakeKeepsAccepted(m: Mesh, k: nat)
    requires k < |m.inFlight|
    ensures Take(m, k).files == m.files && Take(m, k).accepted == m.accepted && Take(m, k).sent == m.sent
  {
  }

  /** In every run the markers and the inbox of a gateway are exactly those of the envelopes it has
    accepted, the latest one of each id. */
  lemma {:induction false} FilesTellHistory(peers: Topology, events: seq<Event>)
    requires Run(peers, events).Some?
    ensures Recorded(peers, Run(peers, events).value)
  {
    if events != [] {
      hide Recorded, Post, Take;
      var before, ev := Run(peers, events[..|events| - 1]).value, events[|events| - 1];
      FilesTellHistory(peers, events[..|events| - 1]);
      match ev
      case Inject(at, e, admission) => PostRecorded(peers, before, at, e, admission);
      case Deliver(k, admission) =>
        TakenRecorded(peers, before, k);
        PostRecorded(peers, Take(before, k), before.inFlight[k].to, before.inFlight[k].envelope, admission);
      case Lose(k) => TakenRecorded(peers, before, k);
    } else {
      EmptyRecorded(peers);
    }
  }

  lemma TakenRecorded(peers: Topology, m: Mesh, k: nat)
    requires k < |m.inFlight| && Recorded(peers, m)
    ensures Recorded(peers, Take(m, k))
  {
    hide Tells;
  }

  /** The gateway and the envelope of a request. */
  function Target(m: Mesh, ev: Event): Packet
    requires !ev.Lose? && (ev.Deliver? ==> ev.k < |m.inFlight|)
  {
    match ev
    case Inject(at, e, _) => Packet(at, e)
    case Deliver(k, _) => m.inFlight[k]
  }

  /** Every request of every run: it is accepted exactly if it passes the limits, is well formed and signed,
    and the gateway has accepted no envelope with its nonce before; then a copy goes to each peer exactly
    if it has accepted none with its id. A refused request leaves all files alone and sends nothing. */
  lemma RequestInRun(peers: Topology, events: seq<Event>, ev: Event)
    requires Run(peers, events + [ev]).Some? && !ev.Lose? && Run(peers, events).Some?
    requires ev.Deliver? ==> ev.k < |Run(peers, events).value.inFlight|
    ensures var m, m' := Run(peers, events).value, Run(peers, events + [ev]).value;
      var p := Target(m, ev);
      && p.to < |peers| == |m.files| == |m'.files|
      && m'.accepted == (if ev.admission == Admitted && Sound(p.envelope) && !TookNonce(m.accepted, p.to, p.envelope.nonce)
                         then m.accepted + [p] else m.accepted)
      && m'.sent == m.sent + (if m'.accepted != m.accepted && !TookId(m.accepted, p.to, p.envelope.id)
                              then Copies(peers[p.to], p.envelope) else [])
      && (m'.accepted == m.accepted ==> m'.files == m.files)
  {
    hide TookNonce, TookId, TookLast, InboxTells, Accepted;
    assert (events + [ev])[..|events|] == events;
    FilesTellHistory(peers, events);
    var m := Run(peers, events).value;
    var p := Target(m, ev);
    assert Tells(m.files[p.to], peers[p.to], m.accepted, p.to);
    RequestDecided(m.files[p.to], peers[p.to], p.envelope, ev.admission);
    if ev.Deliver? {
      TakeKeepsAccepted(m, ev.k);
    }
  }
}
