/**
 The LISTEN/NOTIFY bus: notifications reach only sessions that listen, a lost
 connection loses what it had not handed over, and every (re)connect listens
 first and hands over a Resync before anything else.
 */
module Bus {

  type NodeId = string

  datatype Link = Down | Listening | Live

  /** What a node's subscribers saw: committed notification `i`, or a Resync after `after` commits. */
  datatype Seen = Event(i: nat) | ResyncAfter(after: nat)

  /** `inbox` holds the positions of notifications received but not yet handed over. */
  datatype Peer = Peer(link: Link, inbox: seq<nat>, seen: seq<Seen>)

  /** `log` is the origin of every committed notification, in commit order. */
  datatype State = State(log: seq<NodeId>, peers: map<NodeId, Peer>)

  datatype Step =
    | Publish(origin: NodeId)
    | Disconnect(n: NodeId)
    | Connect(n: NodeId)
    | HandResync(n: NodeId)
    | Deliver(n: NodeId)

  predicate Enabled(s: State, step: Step) {
    match step
    case Publish(_) => true
    case Disconnect(n) => n in s.peers && s.peers[n].link != Down
    case Connect(n) => n in s.peers && s.peers[n].link == Down
    case HandResync(n) => n in s.peers && s.peers[n].link == Listening
    case Deliver(n) => n in s.peers && s.peers[n].link == Live && s.peers[n].inbox != []
  }

  function Received(p: Peer, i: nat): Peer {
    if p.link == Down then p else p.(inbox := p.inbox + [i])
  }

  /** The listener hands over its oldest notification; a node's own is dropped. */
  function HandedOver(log: seq<NodeId>, n: NodeId, p: Peer): Peer
    requires p.inbox != []
  {
    var i := p.inbox[0];
    Peer(p.link, p.inbox[1..], if i < |log| && log[i] == n then p.seen else p.seen + [Event(i)])
  }

  function Next(s: State, step: Step): State
    requires Enabled(s, step)
  {
    match step
    case Publish(origin) => State(s.log + [origin], map n | n in s.peers :: Received(s.peers[n], |s.log|))
    case Disconnect(n) => s.(peers := s.peers[n := s.peers[n].(link := Down, inbox := [])])
    case Connect(n) => s.(peers := s.peers[n := s.peers[n].(link := Listening)])
    case HandResync(n) =>
      s.(peers := s.peers[n := s.peers[n].(link := Live, seen := s.peers[n].seen + [ResyncAfter(|s.log|)])])
    case Deliver(n) => s.(peers := s.peers[n := HandedOver(s.log, n, s.peers[n])])
  }

  /** Subscribers were told to reload everything after notification `i` was committed. */
  ghost predicate Resynced(p: Peer, i: nat) {
    exists k :: 0 <= k < |p.seen| && p.seen[k].ResyncAfter? && i < p.seen[k].after
  }

  /** Notification `i` is not lost on `p`: seen, about to be seen, or made good by a Resync. */
  ghost predicate Accounted(p: Peer, i: nat) {
    Event(i) in p.seen || i in p.inbox || Resynced(p, i)
  }

  ghost predicate PeerOk(log: seq<NodeId>, n: NodeId, p: Peer) {
    && (p.link == Live ==> forall i :: 0 <= i < |log| && log[i] != n ==> Accounted(p, i))
    && (p.link == Down ==> p.inbox == [])
    && (forall k :: 0 <= k < |p.inbox| ==> p.inbox[k] < |log|)
    && (forall j, k :: 0 <= j < k < |p.inbox| ==> p.inbox[j] < p.inbox[k])
    && (forall k :: 0 <= k < |p.seen| && p.seen[k].Event? ==>
          p.seen[k].i < |log| && log[p.seen[k].i] != n && forall m :: 0 <= m < |p.inbox| ==> p.seen[k].i < p.inbox[m])
    && (forall j, k :: 0 <= j < k < |p.seen| && p.seen[j].Event? && p.seen[k].Event? ==> p.seen[j].i < p.seen[k].i)
  }

  ghost predicate Inv(s: State) { forall n :: n in s.peers ==> PeerOk(s.log, n, s.peers[n]) }

  lemma AccountedLater(p: Peer, q: Peer, i: nat)
    requires p.seen <= q.seen && Accounted(p, i) && (i in p.inbox ==> i in q.inbox || Event(i) in q.seen)
    ensures Accounted(q, i)
  {
    if Resynced(p, i) {
      var k :| 0 <= k < |p.seen| && p.seen[k].ResyncAfter? && i < p.seen[k].after;
      assert q.seen[k] == p.seen[k];
    }
  }

  lemma PublishOk(log: seq<NodeId>, n: NodeId, p: Peer, origin: NodeId)
    requires PeerOk(log, n, p)
    ensures PeerOk(log + [origin], n, Received(p, |log|))
  {
    var q := Received(p, |log|);
    if p.link == Live {
      forall i | 0 <= i < |log| + 1 && (log + [origin])[i] != n ensures Accounted(q, i) {
        if i < |log| {
          AccountedLater(p, q, i);
        } else {
          assert q.inbox[|p.inbox|] == i;
        }
      }
    }
  }

  lemma HandResyncOk(log: seq<NodeId>, n: NodeId, p: Peer)
    requires PeerOk(log, n, p)
    ensures PeerOk(log, n, p.(link := Live, seen := p.seen + [ResyncAfter(|log|)]))
  {
    var q := p.(link := Live, seen := p.seen + [ResyncAfter(|log|)]);
    forall i | 0 <= i < |log| ensures Resynced(q, i) {
      assert q.seen[|p.seen|].after == |log|;
    }
  }

  lemma DeliverOk(log: seq<NodeId>, n: NodeId, p: Peer)
    requires PeerOk(log, n, p) && p.link == Live && p.inbox != []
    ensures PeerOk(log, n, HandedOver(log, n, p))
  {
    var q := HandedOver(log, n, p);
    forall i | 0 <= i < |log| && log[i] != n ensures Accounted(q, i) {
      if i in p.inbox {
        var k :| 0 <= k < |p.inbox| && p.inbox[k] == i;
        if k > 0 {
          assert q.inbox[k - 1] == i;
        } else {
          assert q.seen[|p.seen|] == Event(i);
        }
      }
      AccountedLater(p, q, i);
    }
  }

  lemma StepKeepsInv(s: State, step: Step)
    requires Inv(s) && Enabled(s, step)
    ensures Inv(Next(s, step))
  {
    match step
    case Publish(origin) =>
      forall n | n in s.peers ensures PeerOk(s.log + [origin], n, Received(s.peers[n], |s.log|)) {
        PublishOk(s.log, n, s.peers[n], origin);
      }
    case HandResync(n) => HandResyncOk(s.log, n, s.peers[n]);
    case Deliver(n) => DeliverOk(s.log, n, s.peers[n]);
    case _ =>
  }

  ghost predicate ValidRun(s: State, steps: seq<Step>)
    decreases |steps|
  {
    steps == [] || (Enabled(s, steps[0]) && ValidRun(Next(s, steps[0]), steps[1..]))
  }

  ghost function Run(s: State, steps: seq<Step>): State
    requires ValidRun(s, steps)
    decreases |steps|
  {
    if steps == [] then s else Run(Next(s, steps[0]), steps[1..])
  }

  /** Nodes that have not connected yet, over any history of notifications. */
  ghost predicate Unconnected(s: State) { forall n :: n in s.peers ==> s.peers[n] == Peer(Down, [], []) }

  lemma {:induction false} RunsKeepInv(s: State, steps: seq<Step>)
    requires Inv(s) && ValidRun(s, steps)
    ensures Inv(Run(s, steps)) && Run(s, steps).peers.Keys == s.peers.Keys
    decreases |steps|
  {
    if steps != [] {
      StepKeepsInv(s, steps[0]);
      RunsKeepInv(Next(s, steps[0]), steps[1..]);
    }
  }

  /**
   No silent loss: in every run with any number of disconnects, on every node
   whose listener delivers, each notification committed by another node has been
   handed over, waits in the listener, or was followed by a Resync.
   */
  lemma NothingIsSilentlyLost(s: State, steps: seq<Step>, n: NodeId, i: nat)
    requires Unconnected(s) && ValidRun(s, steps) && n in s.peers
    requires i < |Run(s, steps).log| && Run(s, steps).log[i] != n
    ensures var t := Run(s, steps);
            n in t.peers &&
            var p := t.peers[n];
            p.link == Live ==>
              || Event(i) in p.seen
              || i in p.inbox
              || exists k :: 0 <= k < |p.seen| && p.seen[k].ResyncAfter? && i < p.seen[k].after
  {
    RunsKeepInv(s, steps);
    assert PeerOk(Run(s, steps).log, n, Run(s, steps).peers[n]);
  }

  /** With nothing left in the listener, each foreign notification was seen or followed by a Resync. */
  lemma DrainedListenerMissedNothing(s: State, steps: seq<Step>, n: NodeId, i: nat)
    requires Unconnected(s) && ValidRun(s, steps)
    requires var t := Run(s, steps); n in t.peers && t.peers[n].link == Live && t.peers[n].inbox == []
    requires i < |Run(s, steps).log| && Run(s, steps).log[i] != n
    ensures var p := Run(s, steps).peers[n]; Event(i) in p.seen || Resynced(p, i)
  {
    RunsKeepInv(s, steps);
    assert PeerOk(Run(s, steps).log, n, Run(s, steps).peers[n]);
  }

  /** Notifications are handed over in commit order, never twice, and never to their own publisher. */
  lemma DeliveredInCommitOrder(s: State, steps: seq<Step>, n: NodeId, j: nat, k: nat)
    requires Unconnected(s) && ValidRun(s, steps) && n in Run(s, steps).peers
    requires var p := Run(s, steps).peers[n]; j < k < |p.seen| && p.seen[j].Event? && p.seen[k].Event?
    ensures var p := Run(s, steps).peers[n];
            p.seen[j].i < p.seen[k].i < |Run(s, steps).log| && Run(s, steps).log[p.seen[k].i] != n
  {
    RunsKeepInv(s, steps);
    assert PeerOk(Run(s, steps).log, n, Run(s, steps).peers[n]);
  }

  // ---------------------------------------------------------------------------
  // Notifications arrive
  // ---------------------------------------------------------------------------

  lemma First(s: State, step: Step, rest: seq<Step>)
    requires Enabled(s, step) && ValidRun(Next(s, step), rest)
    ensures ValidRun(s, [step] + rest) && Run(s, [step] + rest) == Run(Next(s, step), rest)
  {
    assert ([step] + rest)[1..] == rest;
  }

  /** A live listener hands over everything it has received from other nodes, and only that. */
  lemma {:induction false} HandOverAll(s: State, n: NodeId) returns (steps: seq<Step>)
    requires n in s.peers && s.peers[n].link == Live
    ensures ValidRun(s, steps) && forall i :: 0 <= i < |steps| ==> steps[i] == Deliver(n)
    ensures var t := Run(s, steps);
            && t.log == s.log && n in t.peers && t.peers[n].link == Live && t.peers[n].inbox == []
            && s.peers[n].seen <= t.peers[n].seen
            && forall i :: i in s.peers[n].inbox && i < |s.log| ==> (s.log[i] != n ==> Event(i) in t.peers[n].seen)
    decreases |s.peers[n].inbox|
  {
    if s.peers[n].inbox == [] {
      steps := [];
    } else {
      var t := Next(s, Deliver(n));
      var rest := HandOverAll(t, n);
      First(s, Deliver(n), rest);
      steps := [Deliver(n)] + rest;
      var first, inbox := s.peers[n].inbox[0], s.peers[n].inbox;
      if first < |s.log| && s.log[first] != n {
        assert t.peers[n].seen[|s.peers[n].seen|] == Event(first);
      }
      forall i | i in inbox ensures i == first || i in t.peers[n].inbox {
        var k :| 0 <= k < |inbox| && inbox[k] == i;
        assert k > 0 ==> inbox[1..][k - 1] == i;
      }
    }
  }

  /** A session receives every notification published from the moment it listens, also before its Resync. */
  lemma ListeningReceives(s: State, origin: NodeId, n: NodeId)
    requires n in s.peers
    ensures s.peers[n].link != Down <==> Next(s, Publish(origin)).peers[n].inbox == s.peers[n].inbox + [|s.log|]
  {
  }

  /** A notification that is published while a node's listener is live reaches the node's subscribers. */
  lemma PublishedIsDelivered(s: State, origin: NodeId, n: NodeId) returns (steps: seq<Step>)
    requires n in s.peers && s.peers[n].link == Live && n != origin
    ensures Next(s, Publish(origin)).log == s.log + [origin]
    ensures ValidRun(Next(s, Publish(origin)), steps) && forall i :: 0 <= i < |steps| ==> steps[i] == Deliver(n)
    ensures n in Run(Next(s, Publish(origin)), steps).peers
    ensures Event(|s.log|) in Run(Next(s, Publish(origin)), steps).peers[n].seen
  {
    var t := Next(s, Publish(origin));
    assert t.peers[n].inbox[|s.peers[n].inbox|] == |s.log|;
    steps := HandOverAll(t, n);
  }

  /** A node that is cut off can come back, and its subscribers then see a Resync that covers all that was committed. */
  lemma ReconnectResyncs(s: State, n: NodeId)
    requires n in s.peers && s.peers[n].link == Down
    ensures ValidRun(s, [Connect(n), HandResync(n)])
    ensures n in Run(s, [Connect(n), HandResync(n)]).peers
    ensures var p := Run(s, [Connect(n), HandResync(n)]).peers[n];
            p.link == Live && p.seen == s.peers[n].seen + [ResyncAfter(|s.log|)]
  {
    var t := Next(s, Connect(n));
    First(t, HandResync(n), []);
    First(s, Connect(n), [HandResync(n)]);
    assert [Connect(n)] + [HandResync(n)] == [Connect(n), HandResync(n)];
  }
}
