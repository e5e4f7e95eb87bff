/** What the relay's token buckets let through (phase4/relay-server.mjs: takeBytes), told by windows of time. */
module RelayLimits {
  import opened Wrappers
  import opened RelayServer
  import opened RelayHistory

  /** Bytes taken from a bucket at some time: none if the frame was refused. */
  datatype Charge = Charge(n: nat, now: int)

  function Flow(cap: real, ms: int): real {
    ms as real / 1000.0 * cap
  }

  /** Bytes taken from the k-th charge on. */
  function Spent(h: seq<Charge>, k: nat): nat
    requires k <= |h|
  {
    if |h| == k then 0 else Spent(h[..|h| - 1], k) + h[|h| - 1].n
  }

  /** The window of time from the k-th charge to now has room for x more bytes. */
  predicate Room(cap: real, h: seq<Charge>, k: nat, x: real, now: int)
    requires k < |h|
  {
    x + Spent(h, k) as real <= cap + Flow(cap, now - h[k].now)
  }

  predicate Windows(cap: real, first: Bucket, h: seq<Charge>, x: real, now: int) {
    && x + Spent(h, 0) as real <= first.tokens + Flow(cap, now - first.last)
    && forall k | 0 <= k < |h| :: Room(cap, h, k, x, now)
  }

  /** n more bytes fit into a burst and into every window that ends now. */
  predicate Fits(cap: real, first: Bucket, h: seq<Charge>, n: nat, now: int) {
    n as real <= cap && Windows(cap, first, h, n as real, now)
  }

  /** The bucket has room for exactly what the windows have room for. */
  ghost predicate Behaves(b: Bucket, cap: real, first: Bucket, h: seq<Charge>) {
    forall x: real, now: int :: Windows(cap, first, h, x, now) <==> x <= Budget(b, cap, now)
  }

  lemma FlowAdds(cap: real, a: int, b: int)
    ensures Flow(cap, a + b) == Flow(cap, a) + Flow(cap, b)
  {
    assert (a + b) as real / 1000.0 == a as real / 1000.0 + b as real / 1000.0;
    Distribute(a as real / 1000.0, b as real / 1000.0, cap);
  }

  lemma SpentMore(h: seq<Charge>, c: Charge, k: nat)
    requires k <= |h|
    ensures Spent(h + [c], k) == Spent(h, k) + c.n
  {
    assert (h + [c])[..|h|] == h;
  }

  lemma RoomMore(cap: real, h: seq<Charge>, c: Charge, k: nat, x: real, now: int)
    requires k < |h|
    ensures Room(cap, h + [c], k, x, now) <==> Room(cap, h, k, x + c.n as real - Flow(cap, now - c.now), c.now)
  {
    hide Flow, Spent;
    SpentMore(h, c, k);
    FlowAdds(cap, now - c.now, c.now - h[k].now);
    assert (now - c.now) + (c.now - h[k].now) == now - h[k].now;
  }

  lemma WindowsMore(cap: real, first: Bucket, h: seq<Charge>, c: Charge, x: real, now: int)
    ensures Windows(cap, first, h + [c], x, now) <==>
            var y := x + c.n as real - Flow(cap, now - c.now);
            y <= cap && Windows(cap, first, h, y, c.now)
  {
    hide Flow, Room;
    var more, y := h + [c], x + c.n as real - Flow(cap, now - c.now);
    SpentMore(h, c, 0);
    FlowAdds(cap, now - c.now, c.now - first.last);
    assert (now - c.now) + (c.now - first.last) == now - first.last;
    forall k | 0 <= k < |h| ensures Room(cap, more, k, x, now) <==> Room(cap, h, k, y, c.now) {
      RoomMore(cap, h, c, k, x, now);
    }
    LastRoom(cap, h, c, x, now);
    if Windows(cap, first, more, x, now) {
      assert Room(cap, more, |h|, x, now);
      forall k | 0 <= k < |h| ensures Room(cap, h, k, y, c.now) {
        assert Room(cap, more, k, x, now);
      }
    }
  }

  lemma LastRoom(cap: real, h: seq<Charge>, c: Charge, x: real, now: int)
    ensures Room(cap, h + [c], |h|, x, now) <==> x + c.n as real - Flow(cap, now - c.now) <= cap
  {
    SpentMore(h, c, |h|);
  }

  /** A bucket lets a frame through exactly if it fits into every window, and goes on behaving so. */
  lemma TakenIff(b: Bucket, cap: real, first: Bucket, h: seq<Charge>, n: nat, now: int)
    requires Behaves(b, cap, first, h)
    ensures var (b', granted) := Taken(b, cap, n, now);
      && (granted <==> Fits(cap, first, h, n, now))
      && Behaves(b', cap, first, h + [Charge(if granted then n else 0, now)])
  {
    var (b', granted) := Taken(b, cap, n, now);
    TakenLeaves(b, cap, n, now);
    hide Windows, Flow, Budget, Taken;
    assert Windows(cap, first, h, n as real, now) <==> n as real <= Budget(b, cap, now);
    var c := Charge(if granted then n else 0, now);
    forall x: real, t: int ensures Windows(cap, first, h + [c], x, t) <==> x <= Budget(b', cap, t) {
      WindowsMore(cap, first, h, c, x, t);
      BudgetLater(b', cap, now, t);
      var y := x + c.n as real - Flow(cap, t - now);
      assert Windows(cap, first, h, y, now) <==> y <= Budget(b, cap, now);
    }
  }

  lemma TakenLeaves(b: Bucket, cap: real, n: nat, now: int)
    ensures var (b', granted) := Taken(b, cap, n, now);
      && (granted <==> n as real <= cap && n as real <= Budget(b, cap, now))
      && b'.last == now && b'.tokens == Min(cap, Budget(b, cap, now)) - (if granted then n as real else 0.0)
  {
  }

  lemma BudgetLater(b: Bucket, cap: real, now: int, t: int)
    requires b.last == now
    ensures Budget(b, cap, t) == b.tokens + Flow(cap, t - now)
  {
  }

  lemma NewBehaves(first: Bucket, cap: real)
    ensures Behaves(first, cap, first, [])
  {
    forall x: real, now: int ensures Windows(cap, first, [], x, now) <==> x <= Budget(first, cap, now) {
    }
  }

  // ------------------------------------------------------------------ charges told by events

  predicate Asks(ev: Event) {
    ev.Frame? && ev.message.Relay?
  }

  ghost predicate Routed(l: Limits, before: seq<Event>, ev: Event) {
    Asks(ev) && Routable(l, before, ev.socket, ev.message.from, ev.message.to)
  }

  ghost predicate FitsGlobal(l: Limits, start: int, h: seq<Charge>, ev: Event)
    requires ev.Frame?
  {
    Fits(l.global, Bucket(l.global, start), h, ev.bytes, ev.now)
  }

  /** A destination's bucket starts full with the first frame that reaches it. */
  function FirstOf(l: Limits, h: seq<Charge>, now: int): Bucket {
    Bucket(l.perDest, if h == [] then now else h[0].now)
  }

  ghost predicate FitsDest(l: Limits, h: seq<Charge>, ev: Event)
    requires ev.Frame?
  {
    Fits(l.perDest, FirstOf(l, h, ev.now), h, ev.bytes, ev.now)
  }

  /** What frames have taken from the global bucket: each routable one its bytes, or none if they did
    not fit. */
  ghost function GlobalCharges(l: Limits, start: int, events: seq<Event>): seq<Charge> {
    if events == [] then []
    else
      var init, ev := events[..|events| - 1], events[|events| - 1];
      var h := GlobalCharges(l, start, init);
      if Routed(l, init, ev) then h + [Charge(if FitsGlobal(l, start, h, ev) then ev.bytes else 0, ev.now)] else h
  }

  ghost predicate ReachesDest(l: Limits, start: int, before: seq<Event>, ev: Event, to: NodeId) {
    Routed(l, before, ev) && ev.message.to == to && FitsGlobal(l, start, GlobalCharges(l, start, before), ev)
  }

  /** The same for a destination's bucket, which is forgotten when the destination goes offline. */
  ghost function DestCharges(l: Limits, start: int, events: seq<Event>, to: NodeId): seq<Charge> {
    if events == [] then []
    else
      var init, ev := events[..|events| - 1], events[|events| - 1];
      var h := DestCharges(l, start, init, to);
      if ev.Close? && Online(l, init, to, ev.socket) then []
      else if ReachesDest(l, start, init, ev, to) then h + [Charge(if FitsDest(l, h, ev) then ev.bytes else 0, ev.now)]
      else h
  }

  /** The frame is passed on: sender and target are right, and it fits both buckets. */
  ghost predicate Delivered(l: Limits, start: int, before: seq<Event>, ev: Event) {
    && Routed(l, before, ev)
    && FitsGlobal(l, start, GlobalCharges(l, start, before), ev)
    && FitsDest(l, DestCharges(l, start, before, ev.message.to), ev)
  }

  ghost predicate GlobalTells(l: Limits, start: int, events: seq<Event>, s: State) {
    Behaves(s.globalBucket, l.global, Bucket(l.global, start), GlobalCharges(l, start, events))
  }

  ghost predicate DestTells(l: Limits, start: int, events: seq<Event>, s: State, to: NodeId) {
    var h := DestCharges(l, start, events, to);
    if to in s.destBuckets then h != [] && Behaves(s.destBuckets[to], l.perDest, FirstOf(l, h, 0), h) else h == []
  }

  lemma BucketsStart(l: Limits, start: int)
    ensures GlobalTells(l, start, [], Fresh(l, start))
    ensures forall to :: DestTells(l, start, [], Fresh(l, start), to)
  {
    NewBehaves(Bucket(l.global, start), l.global);
  }

  /** What a relay frame does, in terms of what fits. */
  lemma FrameOutcome(l: Limits, start: int, before: seq<Event>, s: State, ev: Event)
    requires s == Run(l, Fresh(l, start), before) && Asks(ev)
    requires GlobalTells(l, start, before, s) && DestTells(l, start, before, s, ev.message.to)
    ensures var s' := After(l, s, ev);
      && GlobalTells(l, start, before + [ev], s') && DestTells(l, start, before + [ev], s', ev.message.to)
      && s'.forwarded == s.forwarded + (if Delivered(l, start, before, ev) then 1 else 0)
      && s'.forwardedBytes == s.forwardedBytes + (if Delivered(l, start, before, ev) then ev.bytes else 0)
      && forall other | other != ev.message.to :: (other in s'.destBuckets <==> other in s.destBuckets)
           && (other in s.destBuckets ==> s'.destBuckets[other] == s.destBuckets[other])
  {
    hide Run, Routable, Taken, Fits, Behaves;
    var more, to := before + [ev], ev.message.to;
    assert more[..|before|] == before;
    RoutableIff(l, start, before, ev.socket, ev.message.from, to);
    var hg, hd := GlobalCharges(l, start, before), DestCharges(l, start, before, to);
    TakenIff(s.globalBucket, l.global, Bucket(l.global, start), hg, ev.bytes, ev.now);
    if to in s.destBuckets {
      FirstStays(l, hd, ev.now);
      TakenIff(s.destBuckets[to], l.perDest, FirstOf(l, hd, 0), hd, ev.bytes, ev.now);
    } else {
      NewBehaves(Bucket(l.perDest, ev.now), l.perDest);
      TakenIff(Bucket(l.perDest, ev.now), l.perDest, Bucket(l.perDest, ev.now), [], ev.bytes, ev.now);
    }
  }

  lemma FirstStays(l: Limits, h: seq<Charge>, now: int)
    requires h != []
    ensures FirstOf(l, h, now) == FirstOf(l, h, 0) && forall c :: FirstOf(l, h + [c], 0) == FirstOf(l, h, 0)
  {
  }

  /** Any other event leaves the buckets alone, but for a closing socket, which forgets its names'. */
  lemma OtherOutcome(l: Limits, start: int, before: seq<Event>, s: State, ev: Event)
    requires s == Run(l, Fresh(l, start), before) && !Asks(ev)
    requires GlobalTells(l, start, before, s) && forall to :: DestTells(l, start, before, s, to)
    ensures var s' := After(l, s, ev);
      && GlobalTells(l, start, before + [ev], s') && (forall to :: DestTells(l, start, before + [ev], s', to))
      && s'.forwarded == s.forwarded && s'.forwardedBytes == s.forwardedBytes
  {
    hide Run, Online, Behaves, Fits;
    var more, s' := before + [ev], After(l, s, ev);
    assert more[..|before|] == before;
    TablesTell(l, start, before);
    hide KeysTell, KeysAgree, NamesTell, DestroyedTell;
    forall to ensures DestTells(l, start, more, s', to) {
      assert DestTells(l, start, before, s, to);
      if ev.Close? {
        assert Online(l, before, to, ev.socket) <==> to in s.clients && s.clients[to].socket == ev.socket;
      }
    }
  }

  lemma OtherDest(l: Limits, start: int, before: seq<Event>, s: State, s': State, ev: Event, to: NodeId)
    requires Asks(ev) && ev.message.to != to && DestTells(l, start, before, s, to)
    requires (to in s'.destBuckets <==>
        to in s.destBuckets) && (to in s.destBuckets ==> s'.destBuckets[to] == s.destBuckets[to])
    ensures DestTells(l, start, before + [ev], s', to)
  {
    hide Behaves, Routed, FitsGlobal;
    assert (before + [ev])[..|before|] == before;
  }

  /** The frames passed on, and their bytes. */
  ghost function DeliveredBytes(l: Limits, start: int, events: seq<Event>): (nat, nat) {
    if events == [] then (0, 0)
    else
      var init, ev := events[..|events| - 1], events[|events| - 1];
      var (frames, bytes) := DeliveredBytes(l, start, init);
      if Delivered(l, start, init, ev) then (frames + 1, bytes + ev.bytes) else (frames, bytes)
  }

  lemma NothingDelivered(l: Limits, start: int)
    ensures DeliveredBytes(l, start, []) == (0, 0) && Run(l, Fresh(l, start), []) == Fresh(l, start)
  {
  }

  lemma RunStep(l: Limits, start: int, events: seq<Event>)
    requires events != []
    ensures var init, ev := events[..|events| - 1], events[|events| - 1];
      Run(l, Fresh(l, start), events) == After(l, Run(l, Fresh(l, start), init), ev)
  {
    hide After;
  }

  lemma DeliveredStep(l: Limits, start: int, events: seq<Event>)
    requires events != []
    ensures var init, ev := events[..|events| - 1], events[|events| - 1];
      var (frames, bytes) := DeliveredBytes(l, start, init);
      DeliveredBytes(l, start, events) == if Delivered(l, start, init, ev) then (frames + 1, bytes + ev.bytes) else (frames, bytes)
  {
    hide Delivered;
  }

  /** In every run from an empty relay the buckets have room for what the windows have room for, and the
    relay has passed on exactly the frames that are delivered in the sense of the events. */
  lemma {:induction false} RelayTells(l: Limits, start: int, events: seq<Event>)
    ensures var s := Run(l, Fresh(l, start), events);
      && GlobalTells(l, start, events, s) && (forall to :: DestTells(l, start, events, s, to))
      && (s.forwarded, s.forwardedBytes) == DeliveredBytes(l, start, events)
  {
    if events == [] {
      BucketsStart(l, start);
      NothingDelivered(l, start);
    } else {
      hide GlobalTells, DestTells, After, Delivered, DeliveredBytes, Run;
      RunStep(l, start, events);
      DeliveredStep(l, start, events);
      var init, ev := events[..|events| - 1], events[|events| - 1];
      assert events == init + [ev];
      RelayTells(l, start, init);
      var s := Run(l, Fresh(l, start), init);
      if Asks(ev) {
        FrameOutcome(l, start, init, s, ev);
        forall to ensures DestTells(l, start, events, After(l, s, ev), to) {
          if to != ev.message.to {
            OtherDest(l, start, init, s, After(l, s, ev), ev, to);
          }
        }
      } else {
        OtherOutcome(l, start, init, s, ev);
        DeliveredAsks(l, start, init, ev);
      }
    }
  }

  lemma DeliveredAsks(l: Limits, start: int, before: seq<Event>, ev: Event)
    ensures Delivered(l, start, before, ev) ==> Asks(ev)
  {
  }

  /** A frame raises the count of forwarded frames if and only if the last registration accepted on its
    socket was for the name it gives, its target is online on a socket not destroyed, and it fits into
    what the target and all targets together may receive in every stretch of time that ends with it. */
  lemma ForwardedIff(l: Limits, start: int, events: seq<Event>, ev: Event)
    ensures var before, after := Run(l, Fresh(l, start), events), Run(l, Fresh(l, start), events + [ev]);
      && before.forwarded <= after.forwarded <= before.forwarded + 1
      && (after.forwarded == before.forwarded + 1 <==>
           && ev.Frame? && ev.message.Relay?
           && SpeaksFor(l, events, ev.socket, ev.message.from)
           && ev.message.to != "" && (exists k :: Online(l, events, ev.message.to, k) && !Destroyed(l, events, k))
           && Fits(l.global, Bucket(l.global, start), GlobalCharges(l, start, events), ev.bytes, ev.now)
           && FitsDest(l, DestCharges(l, start, events, ev.message.to), ev))
  {
    hide Run, SpeaksFor, Online, Destroyed, Fits, GlobalCharges, DestCharges, GlobalTells, DestTells;
    assert (events + [ev])[..|events|] == events;
    RelayTells(l, start, events);
    RelayTells(l, start, events + [ev]);
  }

  // ------------------------------------------------------------------ what one destination receives

  /** Bytes passed on to the destination by the j-th event and later ones. */
  ghost function BytesTo(l: Limits, start: int, events: seq<Event>, j: nat, to: NodeId): nat
    requires j <= |events|
  {
    if |events| == j then 0
    else
      var init, ev := events[..|events| - 1], events[|events| - 1];
      BytesTo(l, start, init, j, to) + if Delivered(l, start, init, ev) && ev.message.to == to then ev.bytes else 0
  }

  /** The destination does not go offline from the j-th event on. */
  ghost predicate Stays(l: Limits, events: seq<Event>, j: nat, to: NodeId)
    requires j <= |events|
  {
    forall i | j <= i < |events| && events[i].Close? :: !Online(l, events[..i], to, events[i].socket)
  }

  /** Every charge fits: what has been taken since the k-th is within a burst and the flow since. */
  predicate Paid(cap: real, h: seq<Charge>, now: int) {
    && (forall k | 0 <= k < |h| :: Spent(h, k) as real <= cap + Flow(cap, now - h[k].now))
    && (h != [] ==> Spent(h, 0) as real <= cap + Flow(cap, now - h[0].now))
  }

  lemma PaidMore(cap: real, h: seq<Charge>, n: nat, now: int, earlier: int)
    requires cap >= 0.0 && Paid(cap, h, earlier) && earlier <= now
    requires (n > 0 ==> Fits(cap, Bucket(cap, if h == [] then now else h[0].now), h, n, now))
    ensures Paid(cap, h + [Charge(n, now)], now)
  {
    hide Flow, Spent;
    var c := Charge(n, now);
    var more := h + [c];
    FlowGrows(cap, now - earlier);
    forall k | 0 <= k < |more| ensures Spent(more, k) as real <= cap + Flow(cap, now - more[k].now) {
      if k < |h| {
        SpentMore(h, c, k);
        FlowAdds(cap, earlier - h[k].now, now - earlier);
        assert (earlier - h[k].now) + (now - earlier) == now - h[k].now;
        if n > 0 {
          assert Room(cap, h, k, n as real, now);
        }
      } else {
        SpentMore(h, c, k);
        NothingSpent(h);
        FlowGrows(cap, 0);
      }
    }
  }

  lemma NothingSpent(h: seq<Charge>)
    ensures Spent(h, |h|) == 0
  {
  }

  lemma FlowGrows(cap: real, ms: int)
    requires cap >= 0.0 && ms >= 0
    ensures Flow(cap, ms) >= 0.0
  {
    NonNegativeProduct(ms as real / 1000.0, cap);
  }

  lemma PaidLater(cap: real, h: seq<Charge>, now: int, later: int)
    requires cap >= 0.0 && Paid(cap, h, now) && now <= later
    ensures Paid(cap, h, later)
  {
    hide Flow, Spent;
    FlowGrows(cap, later - now);
    forall k | 0 <= k < |h| ensures Spent(h, k) as real <= cap + Flow(cap, later - h[k].now) {
      FlowAdds(cap, now - h[k].now, later - now);
      assert (now - h[k].now) + (later - now) == later - h[k].now;
    }
  }

  lemma {:induction false} DestPaid(l: Limits, start: int, events: seq<Event>, to: NodeId, from: int, until: int)
    requires l.perDest >= 0.0 && Clocked(events, from, until)
    ensures Paid(l.perDest, DestCharges(l, start, events, to), until)
  {
    if events != [] {
      hide Paid, Online, ReachesDest, Fits;
      var init, ev := events[..|events| - 1], events[|events| - 1];
      var h := DestCharges(l, start, init, to);
      var now := if ev.Frame? then ev.now else until;
      DestPaid(l, start, init, to, from, now);
      PaidLater(l.perDest, h, now, until);
      NothingPaid(l.perDest, until);
      if ReachesDest(l, start, init, ev, to) {
        ReachingIsFrame(l, start, init, ev, to);
        var n := if FitsDest(l, h, ev) then ev.bytes else 0;
        PaidMore(l.perDest, h, n, ev.now, now);
        PaidLater(l.perDest, h + [Charge(n, ev.now)], ev.now, until);
      }
    }
  }

  lemma NothingPaid(cap: real, now: int)
    ensures Paid(cap, [], now)
  {
  }

  lemma ReachingIsFrame(l: Limits, start: int, before: seq<Event>, ev: Event, to: NodeId)
    ensures ReachesDest(l, start, before, ev, to) ==> ev.Frame?
    ensures ReachesDest(l, start, before, ev, to) && FitsDest(l, DestCharges(l, start, before, to), ev) <==>
            Delivered(l, start, before, ev) && ev.message.to == to
  {
  }

  /** The charges have only grown since, by so many bytes, at or after some time. */
  predicate GrownBy(h: seq<Charge>, h': seq<Charge>, n: nat, since: int) {
    && h <= h' && n == Spent(h', |h|)
    && forall k | |h| <= k < |h'| :: since <= h'[k].now
  }

  lemma GrownMore(h: seq<Charge>, h': seq<Charge>, n: nat, since: int, c: Charge)
    requires GrownBy(h, h', n, since) && since <= c.now
    ensures GrownBy(h, h' + [c], n + c.n, since)
  {
    SpentMore(h', c, |h|);
  }

  lemma NothingGrown(h: seq<Charge>, since: int)
    ensures GrownBy(h, h, 0, since)
  {
    NothingSpent(h);
  }

  lemma StaysSplit(l: Limits, events: seq<Event>, j: nat, to: NodeId)
    requires j < |events| && Stays(l, events, j, to)
    ensures var init, ev := events[..|events| - 1], events[|events| - 1];
      && Stays(l, init, j, to) && init[..j] == events[..j] && (ev.Close? ==> !Online(l, init, to, ev.socket))
  {
    hide Online;
    var init := events[..|events| - 1];
    assert forall i | j <= i < |init| :: init[i] == events[i] && init[..i] == events[..i];
  }

  lemma NothingSince(l: Limits, start: int, events: seq<Event>, to: NodeId)
    ensures BytesTo(l, start, events, |events|, to) == 0
  {
  }

  /** One event of a stay: a charge if it reaches the destination, with the bytes passed on. */
  lemma ChargeStep(l: Limits, start: int, events: seq<Event>, j: nat, to: NodeId)
    requires j < |events|
    requires var ev := events[|events| - 1]; ev.Close? ==> !Online(l, events[..|events| - 1], to, ev.socket)
    ensures var init, ev := events[..|events| - 1], events[|events| - 1];
      var h := DestCharges(l, start, init, to);
      if ReachesDest(l, start, init, ev, to) then
        && ev.Frame?
        && var n := if FitsDest(l, h, ev) then ev.bytes else 0;
           && DestCharges(l, start, events, to) == h + [Charge(n, ev.now)]
           && BytesTo(l, start, events, j, to) == BytesTo(l, start, init, j, to) + n
      else
        && DestCharges(l, start, events, to) == h
        && BytesTo(l, start, events, j, to) == BytesTo(l, start, init, j, to)
  {
    hide Online, Delivered, ReachesDest, FitsDest;
    ReachingIsFrame(l, start, events[..|events| - 1], events[|events| - 1], to);
  }

  /** While a destination stays online its charges only grow, by the bytes passed on to it. */
  lemma {:induction false} ChargesSince(l: Limits, start: int, events: seq<Event>, j: nat, to: NodeId, since: int)
    requires j <= |events| && Stays(l, events, j, to)
    requires forall i | j <= i < |events| && events[i].Frame? :: since <= events[i].now
    ensures var h, h' := DestCharges(l, start, events[..j], to), DestCharges(l, start, events, to);
      GrownBy(h, h', BytesTo(l, start, events, j, to), since)
  {
    hide GrownBy, DestCharges, BytesTo, ReachesDest, FitsDest, Stays, Clocked;
    if |events| == j {
      assert events[..j] == events;
      NothingSince(l, start, events, to);
      NothingGrown(DestCharges(l, start, events, to), since);
    } else {
      var init, ev := events[..|events| - 1], events[|events| - 1];
      StaysSplit(l, events, j, to);
      assert forall i | j <= i < |init| :: init[i] == events[i];
      ChargesSince(l, start, init, j, to, since);
      ChargeStep(l, start, events, j, to);
      ReachingIsFrame(l, start, init, ev, to);
      var h, before := DestCharges(l, start, events[..j], to), DestCharges(l, start, init, to);
      if ReachesDest(l, start, init, ev, to) {
        var charge := Charge(if FitsDest(l, before, ev) then ev.bytes else 0, ev.now);
        GrownMore(h, before, BytesTo(l, start, init, j, to), since, charge);
      }
    }
  }

  /** So while it stays online, one destination receives in any stretch of time no more than one burst
    plus the rate times the length of the stretch. */
  lemma DestinationBandwidth(l: Limits, start: int, events: seq<Event>, j: nat, to: NodeId, since: int, until: int)
    requires l.perDest >= 0.0 && j <= |events| && Stays(l, events, j, to)
    requires exists from :: Clocked(events, from, until)
    requires since <= until && forall i | j <= i < |events| && events[i].Frame? :: since <= events[i].now
    ensures BytesTo(l, start, events, j, to) as real <= l.perDest + Flow(l.perDest, until - since)
  {
    hide DestCharges, Flow, BytesTo, Spent, Clocked, Stays;
    var from :| Clocked(events, from, until);
    DestPaid(l, start, events, to, from, until);
    ChargesSince(l, start, events, j, to, since);
    var h, h' := DestCharges(l, start, events[..j], to), DestCharges(l, start, events, to);
    FlowGrows(l.perDest, until - since);
    if |h| < |h'| {
      var t := h'[|h|].now;
      FlowGrows(l.perDest, t - since);
      FlowAdds(l.perDest, until - t, t - since);
      assert (until - t) + (t - since) == until - since;
    } else {
      NothingSpent(h');
    }
  }
}
