/**
The datapath broker in its own form: the peer list that the worker appends to and
splices, the worker's batch loop, and the retrying RPC loop over the peers.
*/
module Broker {
  import opened Common
  import opened PeerQueue

  datatype DpPeer = DpPeer(addr: Addr, connected: bool)

  datatype Ret = Done | CreateErr | UnknownErr

  function Addrs(peers: seq<DpPeer>): seq<Addr> { seq(|peers|, i requires 0 <= i < |peers| => peers[i].addr) }

  lemma {:induction false} RemoveAt(peers: seq<Addr>, a: Addr, at: nat)
    requires at < |peers| && peers[at] == a && a !in peers[..at]
    ensures Remove(peers, a) == peers[..at] + peers[at + 1..]
  {
    if at > 0 {
      assert peers[0] == peers[..at][0];
      assert peers[1..][..at - 1] == peers[..at][1..] && peers[1..][at - 1] == a;
      RemoveAt(peers[1..], a, at - 1);
      assert peers[1..][at - 1 + 1..] == peers[at + 1..];
      assert [peers[0]] + peers[1..][..at - 1] == peers[..at];
    }
  }

  lemma {:induction false} RemoveAbsent(peers: seq<Addr>, a: Addr)
    requires a !in peers
    ensures Remove(peers, a) == peers
  {
    if peers != [] {
      RemoveAbsent(peers[1..], a);
    }
  }

  /** The barrier tokens closed by processing a list of items. */
  function Closed(works: seq<Work>): set<nat> {
    if works == [] then {}
    else (if works[0].Barrier? then {works[0].id} else {}) + Closed(works[1..])
  }

  lemma {:induction false} ReplaySnoc(peers: seq<Addr>, works: seq<Work>, w: Work)
    ensures Replay(peers, works + [w]) == Apply(Replay(peers, works), w)
    decreases |works|
  {
    if works == [] {
      assert [w][1..] == [];
    } else {
      assert (works + [w])[0] == works[0] && (works + [w])[1..] == works[1..] + [w];
      ReplaySnoc(Apply(peers, works[0]), works[1..], w);
    }
  }

  lemma {:induction false} ClosedSnoc(works: seq<Work>, w: Work)
    ensures Closed(works + [w]) == Closed(works) + if w.Barrier? then {w.id} else {}
  {
    if works == [] {
      assert [w][1..] == [];
    } else {
      assert (works + [w])[0] == works[0] && (works + [w])[1..] == works[1..] + [w];
      ClosedSnoc(works[1..], w);
    }
  }

  lemma QueueMore(taken: seq<Work>, queue: seq<Work>, first: seq<Work>, arrived: seq<Work>, more: seq<Work>)
    requires taken + queue == first + arrived
    ensures taken + (queue + more) == first + (arrived + more)
  {
    assert taken + (queue + more) == (taken + queue) + more;
    assert first + (arrived + more) == (first + arrived) + more;
  }

  /** `after` is `before` without its first entry for `addr`, which was at position `at`. */
  predicate SplicedAt(before: seq<DpPeer>, after: seq<DpPeer>, addr: Addr, at: int) {
    && 0 <= at < |before|
    && before[at].addr == addr
    && addr !in Addrs(before)[..at]
    && after == before[..at] + before[at + 1..]
  }

  // ------------------------------------------------------------ connection sync

  datatype SyncOp = SyncAdd | SyncDelete | SyncGet | SyncBcast | UnknownOp

  /** One connection, a block of them, or an argument of another type. */
  datatype SyncArg = OneCt | BlockCt(count: nat) | NoCt

  datatype Reply = Reply(ok: bool, code: int)

  /**
  One visit to a peer: the outcome of the connect if there was no client, then
  the reading of the cluster state if the call needs one, then the send.
  */
  datatype Visit = Visit(peer: nat, connect: Option<bool>, master: Option<bool>, send: Option<Reply>)

  predicate Failed(v: Visit) { v.send.Some? && !v.send.value.ok }

  /** The visit delivered the update and the peer answered 0. */
  predicate Delivered(v: Visit) { v.connect != Some(false) && v.send == Some(Reply(true, 0)) }

  predicate AllDelivered(t: seq<Visit>) { forall j :: 0 <= j < |t| ==> Delivered(t[j]) }

  predicate SawBackup(v: Visit) { v.master == Some(false) }

  /**
  What a visit with a client does, operation by operation: broadcasts and requests
  are sent at once; additions and deletions, if there is a connection to send, look
  at the cluster state and are sent exactly if it is master; without a connection,
  and for an unknown operation, nothing is done.
  */
  predicate DoneByOperation(v: Visit, op: SyncOp, arg: SyncArg) {
    match op
    case SyncBcast => v.master.None? && v.send.Some?
    case SyncGet => v.master.None? && v.send.Some?
    case UnknownOp => v.master.None? && v.send.None?
    case _ =>
      if arg.OneCt? || (arg.BlockCt? && arg.count > 0) then v.master.Some? && (v.send.Some? <==> v.master.value)
      else v.master.None? && v.send.None?
  }

  /** Without a client a visit does nothing; with one it does what the operation asks for. */
  predicate ByTheBook(v: Visit, op: SyncOp, arg: SyncArg) {
    if v.connect == Some(false) then v.master.None? && v.send.None? else DoneByOperation(v, op, arg)
  }

  /** Delivered is a send without error that the peer answered with 0; any other send is a failure or a refusal. */
  lemma DeliveredMeans(v: Visit)
    ensures Delivered(v) <==> v.connect != Some(false) && v.send.Some? && v.send.value.ok && v.send.value.code == 0
    ensures Failed(v) <==> v.send.Some? && !v.send.value.ok
    ensures SawBackup(v) <==> v.master.Some? && !v.master.value
  {
    if v.send.Some? {
      assert v.send == Some(Reply(v.send.value.ok, v.send.value.code));
    }
    if v.master.Some? {
      assert v.master == if v.master.value then Some(true) else Some(false);
    }
  }

  /** Additions and deletions are sent by a master only and only with a connection; the others never look. */
  lemma OnlyMasterSendsChanges(v: Visit, op: SyncOp, arg: SyncArg)
    requires ByTheBook(v, op, arg)
    ensures v.send.Some? ==> v.connect != Some(false) && op != UnknownOp
    ensures v.send.Some? && (op == SyncAdd || op == SyncDelete) ==>
              v.master == Some(true) && (arg == OneCt || (arg.BlockCt? && arg.count > 0))
    ensures v.master == Some(true) ==> v.send.Some?
    ensures (op == SyncBcast || op == SyncGet) && v.connect != Some(false) ==> v.send.Some? && v.master.None?
    ensures (op == SyncAdd || op == SyncDelete) && v.connect != Some(false) && arg == OneCt ==> v.master.Some?
  {
    if v.master.Some? {
      assert v.master == if v.master.value then Some(true) else Some(false);
    }
  }

  /** Peers are visited in order; only the first failed send, visit `r`, is repeated. */
  predicate InOrder(t: seq<Visit>, r: nat) {
    && (forall j :: 0 <= j < |t| ==> t[j].peer == if j <= r then j else j - 1)
    && (forall j :: 0 <= j < |t| && j < r ==> !Failed(t[j]))
    && (r + 1 < |t| ==> Failed(t[r]) && t[r + 1].connect.Some?)
  }

  /** If all of `n` visits delivered, each of `n` peers was visited once. */
  lemma {:induction false} CleanRunVisitsEachOnce(t: seq<Visit>, r: nat, n: nat)
    requires InOrder(t, r) && |t| == n && AllDelivered(t)
    ensures forall p :: 0 <= p < n ==> t[p].peer == p && Delivered(t[p])
  {
    assert forall j :: 0 <= j < n ==> !Failed(t[j]);
  }

  /** A visit leaves a client unless the connect or the send failed. */
  predicate LeavesClient(v: Visit) { v.connect != Some(false) && !Failed(v) }

  /** Every visited peer has the client that its last visit left. */
  predicate ClientsFit(peers: seq<DpPeer>, t: seq<Visit>) {
    forall j :: 0 <= j < |t| && LastVisit(t, j) && t[j].peer < |peers| ==> peers[t[j].peer].connected == LeavesClient(t[j])
  }

  predicate LastVisit(t: seq<Visit>, j: nat)
    requires j < |t|
  {
    j + 1 < |t| ==> t[j + 1].peer != t[j].peer
  }

  /** Visit `j` made the last send to its peer, and it failed. */
  predicate LastSendFailed(t: seq<Visit>, j: nat)
    requires j < |t|
  {
    Failed(t[j]) && forall k :: j < k < |t| && t[k].peer == t[j].peer ==> t[k].send.None?
  }

  /**
  A peer whose last send failed ends without a client, except exactly if the send
  was restarted, the restart reconnected and then saw that this node is no longer
  master.
  */
  lemma ClientAfterFailedSendIff(peers: seq<DpPeer>, t: seq<Visit>, r: nat, op: SyncOp, arg: SyncArg, j: nat)
    requires InOrder(t, r) && ClientsFit(peers, t) && forall k :: 0 <= k < |t| ==> ByTheBook(t[k], op, arg)
    requires j < |t| && t[j].peer < |peers| && LastSendFailed(t, j)
    ensures peers[t[j].peer].connected <==>
            j == r && r + 1 < |t| && t[r + 1].connect == Some(true) && SawBackup(t[r + 1])
  {
    if j == r && r + 1 < |t| {
      var v := t[r + 1];
      assert v.peer == t[r].peer && LastVisit(t, r + 1);
      assert v.send.None? && v.connect.Some? && v.connect == Some(v.connect.value);
      assert ByTheBook(t[r], op, arg) && ByTheBook(v, op, arg);
      assert peers[v.peer].connected == LeavesClient(v);
      assert v.connect == if v.connect.value then Some(true) else Some(false);
    } else {
      assert LastVisit(t, j);
    }
  }

  /** The visits so far, with peer `idx` next. */
  predicate Visited(t: seq<Visit>, r: nat, retries: nat, idx: nat, op: SyncOp, arg: SyncArg) {
    && |t| == idx + One(retries > 0)
    && InOrder(t, r)
    && (if retries > 0 then r < |t| && Failed(t[r]) else r + 1 >= |t| && forall j :: 0 <= j < |t| ==> !Failed(t[j]))
    && (forall j :: 0 <= j < |t| ==> ByTheBook(t[j], op, arg) && !SawBackup(t[j]))
  }

  lemma VisitedSnoc(t: seq<Visit>, r: nat, retries: nat, idx: nat, op: SyncOp, arg: SyncArg, v: Visit)
    requires Visited(t, r, retries, idx, op, arg) && v.peer == idx && ByTheBook(v, op, arg)
    requires retries > 0 && r + 1 == |t| ==> v.connect.Some?
    ensures InOrder(t + [v], if retries == 0 then |t| else r)
    ensures forall j :: 0 <= j < |t + [v]| ==> ByTheBook((t + [v])[j], op, arg)
    ensures !SawBackup(v) ==>
              Visited(t + [v], if retries == 0 then |t| else r, retries + One(Failed(v)),
                      if retries == 0 && Failed(v) then idx else idx + 1, op, arg)
    ensures forall j :: 0 <= j < |t| ==> t[j].peer < v.peer || (j + 1 == |t| && t[j].peer == v.peer)
  {
    var u := t + [v];
    assert u[|t|] == v && forall j :: 0 <= j < |t| ==> u[j] == t[j];
  }

  lemma FitSnoc(before: seq<DpPeer>, t: seq<Visit>, v: Visit, after: seq<DpPeer>)
    requires ClientsFit(before, t) && v.peer < |before|
    requires forall j :: 0 <= j < |t| ==> t[j].peer < v.peer || (j + 1 == |t| && t[j].peer == v.peer)
    requires after == before[v.peer := before[v.peer].(connected := LeavesClient(v))]
    ensures ClientsFit(after, t + [v])
  {
    var u := t + [v];
    forall j | 0 <= j < |u| && LastVisit(u, j) && u[j].peer < |after|
      ensures after[u[j].peer].connected == LeavesClient(u[j])
    {
      if j == |t| {
        assert u[j] == v;
      } else {
        assert u[j] == t[j] && u[j + 1] == if j + 1 < |t| then t[j + 1] else v;
        assert t[j].peer < v.peer && LastVisit(t, j);
      }
    }
  }

  lemma DeliveredSnoc(t: seq<Visit>, v: Visit)
    ensures AllDelivered(t + [v]) <==> AllDelivered(t) && Delivered(v)
  {
    assert (t + [v])[|t|] == v;
    assert forall j :: 0 <= j < |t| ==> (t + [v])[j] == t[j];
  }

  /** The last visit saw a non-master, or every one of `n` peers got one delivered send. */
  predicate Succeeds(t: seq<Visit>, n: nat) {
    (t != [] && SawBackup(t[|t| - 1])) || (|t| == n && AllDelivered(t))
  }

  /** What a call has done when it returns `ret`, before the comparison with the node map. */
  predicate Outcome(peers: seq<DpPeer>, t: seq<Visit>, r: nat, ret: int, op: SyncOp, arg: SyncArg) {
    && |t| <= |peers| + 1 && InOrder(t, r) && ClientsFit(peers, t)
    && (forall j :: 0 <= j < |t| ==> ByTheBook(t[j], op, arg))
    && (EndsEarly(t) || |t| == |peers| + One(AnyFailed(t)))
    && ret == if Succeeds(t, |peers|) then 0 else -1
  }

  predicate AnyFailed(t: seq<Visit>) { exists j :: 0 <= j < |t| && Failed(t[j]) }

  /** The last visit had a client and saw a non-master or had nothing to send; nothing else stops a call. */
  predicate EndsEarly(t: seq<Visit>) {
    t != [] && var v := t[|t| - 1]; v.connect != Some(false) && v.send.None?
  }

  /** A turn that ends the call early. */
  lemma StopIsOutcome(peers: seq<DpPeer>, n: SyncState, ret: int, op: SyncOp, arg: SyncArg)
    requires 0 < |n.t| <= |peers| + 1 && InOrder(n.t, n.r) && ClientsFit(peers, n.t)
    requires forall j :: 0 <= j < |n.t| ==> ByTheBook(n.t[j], op, arg)
    requires EndsEarly(n.t) && ret == if SawBackup(n.t[|n.t| - 1]) then 0 else -1
    ensures Outcome(peers, n.t, n.r, ret, op, arg)
  {
    assert !Delivered(n.t[|n.t| - 1]) && !AllDelivered(n.t);
  }

  /** The call after the last peer. */
  lemma EndIsOutcome(peers: seq<DpPeer>, c: SyncState, op: SyncOp, arg: SyncArg)
    requires c.idx == |peers| && Syncing(peers, c, op, arg)
    ensures Outcome(peers, c.t, c.r, if c.rpcErr then -1 else 0, op, arg)
  {
    assert c.retries > 0 ==> !Delivered(c.t[c.r]) && Failed(c.t[c.r]);
    assert AnyFailed(c.t) <==> c.retries > 0;
  }

  datatype SyncState = SyncState(t: seq<Visit>, r: nat, retries: nat, idx: nat, rpcErr: bool)

  /** The loop's own state: what has been visited, and whether a problem was met. */
  predicate Syncing(peers: seq<DpPeer>, c: SyncState, op: SyncOp, arg: SyncArg) {
    && c.idx <= |peers|
    && Visited(c.t, c.r, c.retries, c.idx, op, arg)
    && (c.retries > 0 && c.r + 1 == |c.t| ==> c.idx < |peers| && !peers[c.idx].connected)
    && c.rpcErr == !AllDelivered(c.t)
    && ClientsFit(peers, c.t)
  }

  /** The visit may be the next of the loop, and leaves the peers as given. */
  predicate NextVisit(before: seq<DpPeer>, after: seq<DpPeer>, c: SyncState, v: Visit, op: SyncOp, arg: SyncArg) {
    && Syncing(before, c, op, arg) && c.idx < |before|
    && v.peer == c.idx && ByTheBook(v, op, arg) && (v.connect.Some? <==> !before[c.idx].connected)
    && after == before[c.idx := before[c.idx].(connected := LeavesClient(v))]
  }

  /** The loop's state after a visit that does not end the call. */
  function Turned(c: SyncState, v: Visit): SyncState {
    SyncState(c.t + [v], if c.retries == 0 then |c.t| else c.r, c.retries + One(Failed(v)),
              if c.retries == 0 && Failed(v) then c.idx else c.idx + 1, c.rpcErr || !Delivered(v))
  }

  lemma TurnGoesOn(before: seq<DpPeer>, after: seq<DpPeer>, c: SyncState, v: Visit, op: SyncOp, arg: SyncArg)
    requires NextVisit(before, after, c, v, op, arg) && !SawBackup(v)
    ensures Syncing(after, Turned(c, v), op, arg)
  {
    VisitedSnoc(c.t, c.r, c.retries, c.idx, op, arg, v);
    FitSnoc(before, c.t, v, after);
    DeliveredSnoc(c.t, v);
  }

  /** A visit that saw a non-master, or had nothing to send, ends the call. */
  lemma TurnStops(before: seq<DpPeer>, after: seq<DpPeer>, c: SyncState, v: Visit, op: SyncOp, arg: SyncArg)
    requires NextVisit(before, after, c, v, op, arg) && v.send.None? && v.connect != Some(false)
    ensures Outcome(after, c.t + [v], if c.retries == 0 then |c.t| else c.r, if SawBackup(v) then 0 else -1, op, arg)
  {
    VisitedSnoc(c.t, c.r, c.retries, c.idx, op, arg, v);
    FitSnoc(before, c.t, v, after);
    assert (c.t + [v])[|c.t|] == v;
    StopIsOutcome(after, c.(t := c.t + [v], r := if c.retries == 0 then |c.t| else c.r), if SawBackup(v) then 0 else -1, op, arg);
  }

  /**
  The exception happens. The loop over one connected peer sends as master and
  fails, restarts, reconnects, finds this node no longer master and returns 0: the
  peer has a client although its last send failed.
  */
  lemma ClientCanOutliveFailedSend(a: Addr)
    ensures var sent, again := Visit(0, None, Some(true), Some(Reply(false, 0))), Visit(0, Some(true), Some(false), None);
            var start := SyncState([], 0, 0, 0, false);
            && NextVisit([DpPeer(a, true)], [DpPeer(a, false)], start, sent, SyncAdd, OneCt)
            && NextVisit([DpPeer(a, false)], [DpPeer(a, true)], Turned(start, sent), again, SyncAdd, OneCt)
            && Outcome([DpPeer(a, true)], [sent, again], 0, 0, SyncAdd, OneCt)
            && LastSendFailed([sent, again], 0)
  {
    var sent, again := Visit(0, None, Some(true), Some(Reply(false, 0))), Visit(0, Some(true), Some(false), None);
    var start := SyncState([], 0, 0, 0, false);
    TurnGoesOn([DpPeer(a, true)], [DpPeer(a, false)], start, sent, SyncAdd, OneCt);
    assert [] + [sent] == [sent] && [sent] + [again] == [sent, again];
    TurnStops([DpPeer(a, false)], [DpPeer(a, true)], Turned(start, sent), again, SyncAdd, OneCt);
  }

  lemma LooksOfOutcome(peers: seq<DpPeer>, t: seq<Visit>, r: nat, ret: int, op: SyncOp, arg: SyncArg)
    requires Outcome(peers, t, r, ret, op, arg)
    ensures forall j :: 0 <= j < |t| && t[j].send.Some? && op != SyncBcast && op != SyncGet ==> t[j].master == Some(true)
    ensures forall j :: 0 <= j < |t| && (op == SyncBcast || op == SyncGet) ==> t[j].master.None?
  {
    forall j | 0 <= j < |t|
      ensures t[j].send.Some? && op != SyncBcast && op != SyncGet ==> t[j].master == Some(true)
      ensures op == SyncBcast || op == SyncGet ==> t[j].master.None?
    {
      OnlyMasterSendsChanges(t[j], op, arg);
    }
  }

  lemma VisitsMore(a: seq<Visit>, b: seq<Visit>, v: Visit)
    ensures a + b + [v] == a + (b + [v])
  {
  }

  /** What the loop makes of a visit: stop with a result, restart once, or go on to the next peer. */
  method AfterVisit(c: SyncState, v: Visit) returns (n: SyncState, stop: Option<int>)
    ensures n.t == c.t + [v] && n.r == if c.retries == 0 then |c.t| else c.r
    ensures stop.None? <==> v.connect == Some(false) || (!SawBackup(v) && v.send.Some?)
    ensures stop.None? && (v.send.None? <==> v.connect == Some(false)) ==> n == Turned(c, v)
    ensures stop.Some? ==> stop.value == if SawBackup(v) then 0 else -1
  {
    n := c.(t := c.t + [v], r := if c.retries == 0 then |c.t| else c.r);
    if v.connect == Some(false) {
      n := n.(rpcErr := true, idx := c.idx + 1);
      return n, None;
    }
    if SawBackup(v) {
      return n, Some(0);
    }
    if v.send.None? {
      return n, Some(-1);
    }
    if !v.send.value.ok {
      n := n.(rpcErr := true, retries := c.retries + 1);
      if n.retries < 2 {
        return n, None;
      }
    }
    if v.send.value.code != 0 {
      n := n.(rpcErr := true);
    }
    n := n.(idx := c.idx + 1);
    return n, None;
  }

  class DpH {
    var peers: seq<DpPeer>
    var toDpCh: seq<Work>
    var barriers: set<nat>
    /** All visits made so far. */
    ghost var visits: seq<Visit>

    constructor ()
      ensures peers == [] && toDpCh == [] && barriers == {} && visits == []
    {
      peers, toDpCh, barriers, visits := [], [], {}, [];
    }

    /** Add a peer unless it is there, or splice it out, closing its client. */
    method DpWorkOnPeerOp(create: bool, addr: Addr) returns (ret: Ret, closed: bool)
      modifies this`peers
      ensures Addrs(peers) == Apply(Addrs(old(peers)), Peer(create, addr))
      ensures create ==> ret == if addr in Addrs(old(peers)) then CreateErr else Done
      ensures !create ==> ret == if addr in Addrs(old(peers)) then Done else UnknownErr
      ensures create && ret == Done ==> peers == old(peers) + [DpPeer(addr, false)] && !closed
      ensures !create && ret == Done ==>
                exists at :: SplicedAt(old(peers), peers, addr, at) && closed == old(peers)[at].connected
      ensures ret != Done ==> peers == old(peers) && !closed
    {
      closed := false;
      if create {
        var k := 0;
        while k < |peers|
          invariant 0 <= k <= |peers| && peers == old(peers) && addr !in Addrs(peers)[..k]
        {
          if peers[k].addr == addr {
            assert Addrs(peers)[k] == addr;
            return CreateErr, false;
          }
          k := k + 1;
        }
        assert Addrs(peers)[..|peers|] == Addrs(peers);
        assert Addrs(peers + [DpPeer(addr, false)]) == Addrs(peers) + [addr];
        peers := peers + [DpPeer(addr, false)];
        return Done, false;
      }
      var idx := 0;
      while idx < |peers|
        invariant 0 <= idx <= |peers| && peers == old(peers) && addr !in Addrs(peers)[..idx]
      {
        if peers[idx].addr == addr {
          closed := peers[idx].connected;
          RemoveAt(Addrs(peers), addr, idx);
          assert Addrs(peers[..idx] + peers[idx + 1..]) == Addrs(peers)[..idx] + Addrs(peers)[idx + 1..];
          peers := peers[..idx] + peers[idx + 1..];
          return Done, closed;
        }
        idx := idx + 1;
      }
      assert Addrs(peers)[..|peers|] == Addrs(peers);
      RemoveAbsent(Addrs(peers), addr);
      return UnknownErr, false;
    }

    method DpWorkSingle(w: Work)
      modifies this`peers, this`barriers
      ensures Addrs(peers) == Apply(Addrs(old(peers)), w)
      ensures barriers == old(barriers) + if w.Barrier? then {w.id} else {}
    {
      match w
      case Barrier(id) => barriers := barriers + {id};
      case Peer(create, addr) => var _, _ := DpWorkOnPeerOp(create, addr);
      case OtherWork =>
    }

    /**
    One batch of the worker: up to a queue length of items, in the order they
    were queued. Others go on queueing; `arrived` is what they add meanwhile.
    */
    method DpWorkerBatch() returns (taken: seq<Work>, arrived: seq<Work>)
      modifies this
      ensures taken + toDpCh == old(toDpCh) + arrived
      ensures |taken| <= 1024 && (|taken| < 1024 ==> |taken| >= |old(toDpCh)|)
      ensures Addrs(peers) == Replay(Addrs(old(peers)), taken)
      ensures barriers == old(barriers) + Closed(taken)
    {
      taken, arrived := [], [];
      for n := 0 to QUEUE_LEN
        invariant taken + toDpCh == old(toDpCh) + arrived
        invariant |taken| <= n && (|taken| < n ==> |taken| >= |old(toDpCh)|)
        invariant Addrs(peers) == Replay(Addrs(old(peers)), taken)
        invariant barriers == old(barriers) + Closed(taken)
      {
        var more: seq<Work> := *;
        QueueMore(taken, toDpCh, old(toDpCh), arrived, more);
        toDpCh, arrived := toDpCh + more, arrived + more;
        if toDpCh != [] {
          var m := toDpCh[0];
          ReplaySnoc(Addrs(old(peers)), taken, m);
          ClosedSnoc(taken, m);
          assert taken + [m] + toDpCh[1..] == taken + toDpCh;
          toDpCh := toDpCh[1..];
          DpWorkSingle(m);
          taken := taken + [m];
        }
      }
    }

    /** One visit: connect if needed, look, send. */
    method VisitPeer(idx: nat, op: SyncOp, arg: SyncArg) returns (v: Visit)
      requires idx < |peers|
      modifies this`peers, this`visits
      ensures v.peer == idx && ByTheBook(v, op, arg) && visits == old(visits) + [v]
      ensures v.connect.Some? <==> !old(peers)[idx].connected
      ensures Addrs(peers) == Addrs(old(peers))
      ensures peers == old(peers)[idx := old(peers)[idx].(connected := LeavesClient(v))]
    {
      v := Visit(idx, None, None, None);
      if !peers[idx].connected {
        var ok: bool := *;
        v := v.(connect := Some(ok));
        peers := peers[idx := peers[idx].(connected := ok)];
        if !ok {
          visits := visits + [v];
          return;
        }
      }
      if op == UnknownOp {
        visits := visits + [v];
        return;
      }
      if op == SyncAdd || op == SyncDelete {
        if !arg.OneCt? && !(arg.BlockCt? && arg.count > 0) {
          visits := visits + [v];
          return;
        }
        var master: bool := *;
        v := v.(master := Some(master));
        if !master {
          visits := visits + [v];
          return;
        }
      }
      var ok: bool, code: int := *, *;
      v := v.(send := Some(Reply(ok, code)));
      visits := visits + [v];
      if !ok {
        peers := peers[idx := peers[idx].(connected := false)];
      }
    }

    /** One turn of the loop: visit the next peer, then stop, restart or go on. */
    method SyncNext(c: SyncState, op: SyncOp, arg: SyncArg) returns (n: SyncState, stop: Option<int>, v: Visit)
      requires Syncing(peers, c, op, arg) && c.idx < |peers|
      modifies this`peers, this`visits
      ensures Addrs(peers) == Addrs(old(peers)) && |peers| == |old(peers)|
      ensures stop.None? ==> Syncing(peers, n, op, arg)
      ensures stop.None? ==> n.idx == c.idx + 1 || (n.idx == c.idx && c.retries == 0 && n.retries == 1)
      ensures stop.None? ==> n.retries >= c.retries
      ensures n.t == c.t + [v] && visits == old(visits) + [v]
      ensures stop.Some? ==> Outcome(peers, n.t, n.r, stop.value, op, arg)
    {
      ghost var before := peers;
      v := VisitPeer(c.idx, op, arg);
      n, stop := AfterVisit(c, v);
      if stop.Some? {
        TurnStops(before, peers, c, v, op, arg);
      } else {
        TurnGoesOn(before, peers, c, v, op, arg);
      }
    }

    /**
    Send a connection update to every peer, in order, restarting once in all
    after a failed send. `nodeCount` is the size of the node map, `r` the visit
    that was restarted, if any.
    */
    method DpXsyncRPC(op: SyncOp, arg: SyncArg, nodeCount: nat) returns (ret: int, t: seq<Visit>, r: nat)
      modifies this`peers, this`visits
      ensures Addrs(peers) == Addrs(old(peers)) && |peers| == |old(peers)|
      ensures |peers| != nodeCount ==> ret == -1 && t == [] && peers == old(peers)
      ensures |peers| == nodeCount ==> Outcome(peers, t, r, ret, op, arg)
      ensures visits == old(visits) + t
      ensures forall j :: 0 <= j < |t| && t[j].send.Some? && op != SyncBcast && op != SyncGet ==> t[j].master == Some(true)
      ensures forall j :: 0 <= j < |t| && (op == SyncBcast || op == SyncGet) ==> t[j].master.None?
    {
      if nodeCount != |peers| {
        return -1, [], 0;
      }
      var c := SyncState([], 0, 0, 0, false);
      while c.idx < |peers|
        invariant |peers| == |old(peers)| && Addrs(peers) == Addrs(old(peers))
        invariant Syncing(peers, c, op, arg) && visits == old(visits) + c.t
        decreases |peers| - c.idx + One(c.retries == 0)
      {
        var n, stop, v := SyncNext(c, op, arg);
        VisitsMore(old(visits), c.t, v);
        if stop.Some? {
          LooksOfOutcome(peers, n.t, n.r, stop.value, op, arg);
          return stop.value, n.t, n.r;
        }
        c := n;
      }
      EndIsOutcome(peers, c, op, arg);
      LooksOfOutcome(peers, c.t, c.r, if c.rpcErr then -1 else 0, op, arg);
      return if c.rpcErr then -1 else 0, c.t, c.r;
    }
  }
}
