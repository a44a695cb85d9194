/**
The peer list of the datapath broker, which follows the node map of the cluster
through the broker's work queue, and the barrier that waits for that queue.

Node operations are serialised by the global lock; the worker may run between
the change of the node map and the send on the queue, which blocks while the
queue is full.
*/
module PeerQueue {
  import opened Common

  type Addr = string

  const QUEUE_LEN: nat := 1024

  datatype Work = Peer(create: bool, addr: Addr) | Barrier(id: nat) | OtherWork

  /** `nodes` maps every node to its egress flag; `pending` is the node work waiting for room in the queue. */
  datatype System = System(
    nodes: map<Addr, bool>,
    pending: Option<Work>,
    queue: seq<Work>,
    peers: seq<Addr>,
    done: set<nat>)

  datatype Event =
    | NodeAdd(addr: Addr, egress: bool)
    | NodeDelete(addr: Addr, hostAddr: bool)
    | Send
    | Enqueue(work: Work)
    | Process

  // -------------------------------------------------------------- peer work

  function Remove(peers: seq<Addr>, a: Addr): seq<Addr> {
    if peers == [] then []
    else if peers[0] == a then peers[1..]
    else [peers[0]] + Remove(peers[1..], a)
  }

  /** What one item of the queue does to the peer list. */
  function Apply(peers: seq<Addr>, w: Work): seq<Addr> {
    if !w.Peer? then peers
    else if w.create then (if w.addr in peers then peers else peers + [w.addr])
    else Remove(peers, w.addr)
  }

  function Replay(peers: seq<Addr>, works: seq<Work>): seq<Addr>
    decreases |works|
  {
    if works == [] then peers else Replay(Apply(peers, works[0]), works[1..])
  }

  /** The worker returns the duplicate error on this item. */
  predicate Duplicate(peers: seq<Addr>, w: Work) { w.Peer? && w.create && w.addr in peers }

  ghost predicate NoDuplicates(s: seq<Addr>) {
    forall i, j :: 0 <= i < j < |s| ==> s[i] != s[j]
  }

  ghost function Members(s: seq<Addr>): set<Addr> { set a | a in s }

  ghost function NonEgress(nodes: map<Addr, bool>): set<Addr> { set a | a in nodes && !nodes[a] }

  lemma MembersCons(a: Addr, s: seq<Addr>)
    ensures Members([a] + s) == {a} + Members(s)
  {
  }

  lemma {:induction false} RemoveDropsOne(s: seq<Addr>, a: Addr)
    requires NoDuplicates(s)
    ensures NoDuplicates(Remove(s, a)) && Members(Remove(s, a)) == Members(s) - {a}
  {
    if s != [] {
      var rest := s[1..];
      assert s == [s[0]] + rest && s[0] !in rest;
      MembersCons(s[0], rest);
      if s[0] != a {
        RemoveDropsOne(rest, a);
        var r := Remove(rest, a);
        MembersCons(s[0], r);
        assert s[0] !in Members(r);
        assert forall i :: 0 <= i < |r| ==> r[i] in Members(r);
      }
    }
  }

  /** Over duplicate-free lists the work is set insertion and deletion. */
  ghost function ApplySet(p: set<Addr>, w: Work): set<Addr> {
    if !w.Peer? then p else if w.create then p + {w.addr} else p - {w.addr}
  }

  lemma ApplyIsSetWork(peers: seq<Addr>, w: Work)
    requires NoDuplicates(peers)
    ensures NoDuplicates(Apply(peers, w)) && Members(Apply(peers, w)) == ApplySet(Members(peers), w)
  {
    if w.Peer? && !w.create {
      RemoveDropsOne(peers, w.addr);
    }
  }

  ghost function ReplaySet(p: set<Addr>, works: seq<Work>): set<Addr>
    decreases |works|
  {
    if works == [] then p else ReplaySet(ApplySet(p, works[0]), works[1..])
  }

  /** No create of the list meets its own address. */
  ghost predicate Clean(p: set<Addr>, works: seq<Work>)
    decreases |works|
  {
    works == [] || (!(works[0].Peer? && works[0].create && works[0].addr in p) && Clean(ApplySet(p, works[0]), works[1..]))
  }

  lemma {:induction false} ReplayAppend(p: set<Addr>, works: seq<Work>, w: Work)
    ensures ReplaySet(p, works + [w]) == ApplySet(ReplaySet(p, works), w)
    ensures Clean(p, works + [w]) <==>
            Clean(p, works) && !(w.Peer? && w.create && w.addr in ReplaySet(p, works))
    decreases |works|
  {
    if works == [] {
      assert [w][1..] == [];
    } else {
      assert (works + [w])[0] == works[0] && (works + [w])[1..] == works[1..] + [w];
      ReplayAppend(ApplySet(p, works[0]), works[1..], w);
    }
  }

  lemma {:induction false} ReplayIsSetReplay(peers: seq<Addr>, works: seq<Work>)
    requires NoDuplicates(peers)
    ensures NoDuplicates(Replay(peers, works)) && Members(Replay(peers, works)) == ReplaySet(Members(peers), works)
    decreases |works|
  {
    if works != [] {
      ApplyIsSetWork(peers, works[0]);
      ReplayIsSetReplay(Apply(peers, works[0]), works[1..]);
    }
  }

  // ------------------------------------------------------------ state machine

  predicate Enabled(s: System, e: Event) {
    match e
    case NodeAdd(_, _) => s.pending.None?
    case NodeDelete(_, _) => s.pending.None?
    case Send => s.pending.Some? && |s.queue| < QUEUE_LEN
    case Enqueue(w) => !w.Peer? && |s.queue| < QUEUE_LEN && (w.Barrier? ==> w !in s.queue && w.id !in s.done)
    case Process => s.queue != []
  }

  /** The work a new node queues: none for an egress node. */
  function AddWork(a: Addr, egress: bool): Option<Work> {
    if egress then None else Some(Peer(true, a))
  }

  /** The work of a removed node: none for an egress node, unless its address is one of this host's. */
  function DeleteWork(a: Addr, egress: bool, hostAddr: bool): Option<Work> {
    if egress && !hostAddr then None else Some(Peer(false, a))
  }

  function Step(s: System, e: Event): System
    requires Enabled(s, e)
  {
    match e
    case NodeAdd(a, egress) =>
      if a in s.nodes then s
      else s.(nodes := s.nodes[a := egress], pending := AddWork(a, egress))
    case NodeDelete(a, hostAddr) =>
      if a !in s.nodes then s
      else s.(nodes := s.nodes - {a}, pending := DeleteWork(a, s.nodes[a], hostAddr))
    case Send => s.(queue := s.queue + [s.pending.value], pending := None)
    case Enqueue(w) => s.(queue := s.queue + [w])
    case Process =>
      s.(queue := s.queue[1..],
         peers := Apply(s.peers, s.queue[0]),
         done := s.done + if s.queue[0].Barrier? then {s.queue[0].id} else {})
  }

  const INIT := System(map[], None, [], [], {})

  ghost predicate Execution(states: seq<System>, events: seq<Event>) {
    && |states| == |events| + 1 && states[0] == INIT
    && forall k :: 0 <= k < |events| ==> Enabled(states[k], events[k]) && states[k + 1] == Step(states[k], events[k])
  }

  function Outstanding(s: System): seq<Work> {
    s.queue + if s.pending.Some? then [s.pending.value] else []
  }

  /** Replaying what is outstanding over the peers gives the non-egress nodes, without a duplicate. */
  ghost predicate Inv(s: System) {
    && NoDuplicates(s.peers)
    && ReplaySet(Members(s.peers), Outstanding(s)) == NonEgress(s.nodes)
    && Clean(Members(s.peers), Outstanding(s))
  }

  lemma AddKeeps(s: System, a: Addr, egress: bool)
    requires Inv(s) && Enabled(s, NodeAdd(a, egress))
    ensures Inv(Step(s, NodeAdd(a, egress)))
  {
    var t := Step(s, NodeAdd(a, egress));
    if a !in s.nodes {
      assert NonEgress(t.nodes) == NonEgress(s.nodes) + if egress then {} else {a};
      if egress {
        assert Outstanding(t) == Outstanding(s);
      } else {
        assert Outstanding(t) == Outstanding(s) + [Peer(true, a)];
        ReplayAppend(Members(s.peers), Outstanding(s), Peer(true, a));
      }
    }
  }

  lemma DeleteKeeps(s: System, a: Addr, hostAddr: bool)
    requires Inv(s) && Enabled(s, NodeDelete(a, hostAddr))
    ensures Inv(Step(s, NodeDelete(a, hostAddr)))
  {
    var t := Step(s, NodeDelete(a, hostAddr));
    if a in s.nodes {
      assert NonEgress(t.nodes) == NonEgress(s.nodes) - {a};
      if s.nodes[a] && !hostAddr {
        assert Outstanding(t) == Outstanding(s);
      } else {
        assert Outstanding(t) == Outstanding(s) + [Peer(false, a)];
        ReplayAppend(Members(s.peers), Outstanding(s), Peer(false, a));
      }
    }
  }

  /** Work that is not about peers may be put anywhere in the list. */
  lemma {:induction false} NeutralWork(p: set<Addr>, q: seq<Work>, w: Work, r: seq<Work>)
    requires !w.Peer?
    ensures ReplaySet(p, q + [w] + r) == ReplaySet(p, q + r)
    ensures Clean(p, q + [w] + r) == Clean(p, q + r)
    decreases |q|
  {
    if q == [] {
      assert q + [w] + r == [w] + r && ([w] + r)[1..] == r && q + r == r;
    } else {
      assert (q + [w] + r)[0] == q[0] && (q + [w] + r)[1..] == q[1..] + [w] + r;
      assert (q + r)[0] == q[0] && (q + r)[1..] == q[1..] + r;
      NeutralWork(ApplySet(p, q[0]), q[1..], w, r);
    }
  }

  lemma EnqueueKeeps(s: System, w: Work)
    requires Inv(s) && Enabled(s, Enqueue(w))
    ensures Inv(Step(s, Enqueue(w)))
  {
    var t := Step(s, Enqueue(w));
    var tail := if s.pending.Some? then [s.pending.value] else [];
    assert Outstanding(s) == s.queue + tail && Outstanding(t) == s.queue + [w] + tail;
    NeutralWork(Members(s.peers), s.queue, w, tail);
  }

  lemma ProcessKeeps(s: System)
    requires Inv(s) && Enabled(s, Process)
    ensures Inv(Step(s, Process))
    ensures !Duplicate(s.peers, s.queue[0])
  {
    var t := Step(s, Process);
    assert Outstanding(s)[0] == s.queue[0] && Outstanding(t) == Outstanding(s)[1..];
    ApplyIsSetWork(s.peers, s.queue[0]);
    assert Clean(Members(s.peers), Outstanding(s));
  }

  lemma StepKeepsInv(s: System, e: Event)
    requires Inv(s) && Enabled(s, e)
    ensures Inv(Step(s, e))
  {
    match e
    case NodeAdd(a, egress) => AddKeeps(s, a, egress);
    case NodeDelete(a, hostAddr) => DeleteKeeps(s, a, hostAddr);
    case Send =>
      assert Outstanding(Step(s, Send)) == Outstanding(s);
    case Enqueue(w) => EnqueueKeeps(s, w);
    case Process => ProcessKeeps(s);
  }

  lemma {:induction false} ReachableInv(states: seq<System>, events: seq<Event>, k: nat)
    requires Execution(states, events) && k < |states|
    ensures Inv(states[k])
  {
    if k > 0 {
      ReachableInv(states, events, k - 1);
      StepKeepsInv(states[k - 1], events[k - 1]);
    }
  }

  // ----------------------------------------------------------------- theorems

  /** Replaying the outstanding work over the peers always yields exactly the non-egress nodes, each once. */
  lemma PeersFollowNodes(states: seq<System>, events: seq<Event>, k: nat)
    requires Execution(states, events) && k < |states|
    ensures var r := Replay(states[k].peers, Outstanding(states[k]));
            NoDuplicates(r) && Members(r) == NonEgress(states[k].nodes)
  {
    ReachableInv(states, events, k);
    ReplayIsSetReplay(states[k].peers, Outstanding(states[k]));
  }

  /** The worker never meets the duplicate error. */
  lemma CreateNeverFails(states: seq<System>, events: seq<Event>, k: nat)
    requires Execution(states, events) && k < |events| && events[k] == Process
    ensures !Duplicate(states[k].peers, states[k].queue[0])
  {
    ReachableInv(states, events, k);
    ProcessKeeps(states[k]);
  }

  /** The node map follows the operations: an add of an unknown node and a delete of a known one, and nothing else. */
  lemma NodesFollowOperations(s: System, e: Event)
    requires Enabled(s, e)
    ensures var t := Step(s, e);
            forall a :: Look(t.nodes, a) ==
              match e
              case NodeAdd(b, egress) => if a == b && a !in s.nodes then Some(egress) else Look(s.nodes, a)
              case NodeDelete(b, _) => if a == b then None else Look(s.nodes, a)
              case _ => Look(s.nodes, a)
  {
  }

  function Look(nodes: map<Addr, bool>, a: Addr): Option<bool> { if a in nodes then Some(nodes[a]) else None }

  predicate NoPeerWork(works: seq<Work>) {
    forall k :: 0 <= k < |works| ==> !works[k].Peer?
  }

  /** All peer work in the queue is ahead of the barrier. */
  ghost predicate Settling(s: System, b: nat) {
    && s.pending.None?
    && (b in s.done || Barrier(b) in s.queue)
    && forall k :: 0 <= k < |s.queue| && s.queue[k].Peer? ==> Barrier(b) in s.queue[k..]
  }

  lemma SettlingStays(s: System, e: Event, b: nat)
    requires Enabled(s, e) && Settling(s, b) && !e.NodeAdd? && !e.NodeDelete?
    ensures Settling(Step(s, e), b)
  {
    var q, t := s.queue, Step(s, e);
    match e
    case Enqueue(w) =>
      forall k | 0 <= k < |t.queue| && t.queue[k].Peer? ensures Barrier(b) in t.queue[k..] {
        assert t.queue[k..] == q[k..] + [w];
      }
      assert Barrier(b) in q ==> Barrier(b) in t.queue;
    case Process =>
      assert q == [q[0]] + t.queue;
      forall k | 0 <= k < |t.queue| && t.queue[k].Peer? ensures Barrier(b) in t.queue[k..] {
        assert q[k + 1] == t.queue[k] && q[k + 1..] == t.queue[k..];
      }
  }

  /** Barrier tokens are fresh: one that is done is not queued, and none is queued twice. */
  ghost predicate FreshTokens(s: System) {
    && (forall k :: 0 <= k < |s.queue| && s.queue[k].Barrier? ==> s.queue[k].id !in s.done)
    && (forall k, l :: 0 <= k < l < |s.queue| && s.queue[k].Barrier? ==> s.queue[k] != s.queue[l])
    && (s.pending.Some? ==> s.pending.value.Peer?)
  }

  lemma {:induction false} TokensStayFresh(states: seq<System>, events: seq<Event>, k: nat)
    requires Execution(states, events) && k < |states|
    ensures FreshTokens(states[k])
  {
    if k > 0 {
      TokensStayFresh(states, events, k - 1);
    }
  }

  lemma {:induction false} SettlingLasts(states: seq<System>, events: seq<Event>, from: nat, k: nat, b: nat)
    requires Execution(states, events) && from <= k < |states| && Settling(states[from], b)
    requires forall m :: from <= m < k ==> !events[m].NodeAdd? && !events[m].NodeDelete?
    ensures Settling(states[k], b)
  {
    if from < k {
      SettlingLasts(states, events, from, k - 1, b);
      SettlingStays(states[k - 1], events[k - 1], b);
    }
  }

  lemma {:induction false} NoPeerWorkIsNeutral(p: set<Addr>, works: seq<Work>)
    requires NoPeerWork(works)
    ensures ReplaySet(p, works) == p
  {
    if works != [] {
      NoPeerWorkIsNeutral(p, works[1..]);
    }
  }

  /** Once a barrier has returned, with no node operation since it was queued, the peers are the non-egress nodes. */
  lemma BarrierSyncsPeers(states: seq<System>, events: seq<Event>, from: nat, k: nat, b: nat)
    requires Execution(states, events) && from < k < |states|
    requires events[from] == Enqueue(Barrier(b)) && states[from].pending.None? && b in states[k].done
    requires forall m :: from < m < k ==> !events[m].NodeAdd? && !events[m].NodeDelete?
    ensures NoDuplicates(states[k].peers) && Members(states[k].peers) == NonEgress(states[k].nodes)
  {
    var q, s := states[from + 1].queue, states[k];
    assert q == states[from].queue + [Barrier(b)];
    forall m | 0 <= m < |q| && q[m].Peer? ensures Barrier(b) in q[m..] {
      assert q[m..][|q| - 1 - m] == Barrier(b);
    }
    assert q[|q| - 1] == Barrier(b);
    SettlingLasts(states, events, from + 1, k, b);
    TokensStayFresh(states, events, k);
    ReachableInv(states, events, k);
    assert Barrier(b) !in s.queue;
    assert forall m :: 0 <= m < |s.queue| ==> Barrier(b) !in s.queue[m..];
    assert Outstanding(s) == s.queue;
    NoPeerWorkIsNeutral(Members(s.peers), s.queue);
  }

  lemma {:induction false} MembersCount(s: seq<Addr>)
    requires NoDuplicates(s)
    ensures |Members(s)| == |s|
  {
    if s == [] {
      assert Members(s) == {};
    } else {
      assert s == [s[0]] + s[1..] && s[0] !in s[1..];
      MembersCons(s[0], s[1..]);
      MembersCount(s[1..]);
    }
  }

  /**
  Connection sync compares the number of nodes, egress ones included, with the
  number of peers: with nothing outstanding it refuses to run exactly while
  there is an egress node.
  */
  lemma SyncIsRefusedIffEgress(states: seq<System>, events: seq<Event>, k: nat)
    requires Execution(states, events) && k < |states| && Outstanding(states[k]) == []
    ensures var s := states[k]; |s.nodes| != |s.peers| <==> exists a :: a in s.nodes && s.nodes[a]
  {
    ReachableInv(states, events, k);
    var s := states[k];
    MembersCount(s.peers);
    var egress := set a | a in s.nodes && s.nodes[a];
    assert s.nodes.Keys == NonEgress(s.nodes) + egress;
    assert |s.nodes| == |NonEgress(s.nodes)| + |egress|;
    if egress == {} {
      assert forall a :: a in s.nodes && s.nodes[a] ==> a in egress;
    } else {
      var a :| a in egress;
    }
  }
}
