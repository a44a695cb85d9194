/**
Counting connections: each sweep compares the connection table with the keys of
the previous sweep and counts arrivals, departures and errors.
*/
module FlowCount {
  import opened Common
  import opened FlowKeys
  import opened Sums

  predicate IsErrorState(c: CtInfo) {
    c.state == "h/e" || c.state == "closed-wait" || c.act == "err" || c.act == "abort"
  }

  datatype Proto = Tcp | Udp | Sctp | Other

  function ProtoOf(name: string): Proto {
    if name == "tcp" then Tcp else if name == "udp" then Udp else if name == "sctp" then Sctp else Other
  }

  /** What a sweep reads off a table entry. */
  datatype Flow = Flow(key: string, proto: Proto, service: string, closed: bool, failed: bool)

  function FlowOf(c: CtInfo): Flow {
    Flow(MakeConntrackKey(c), ProtoOf(c.proto), c.service, c.state == "closed", IsErrorState(c))
  }

  function Flows(info: seq<CtInfo>): seq<Flow> { seq(|info|, i requires 0 <= i < |info| => FlowOf(info[i])) }

  /** What a counter counts; `New` is relative to the keys of the previous sweep. */
  datatype Kind =
    | Closed
    | Live
    | LiveOf(proto: Proto)
    | New
    | NewOf(service: string)
    | Failed
    | FailedOf(service: string)

  predicate Is(f: Flow, prev: set<string>, kind: Kind) {
    match kind
    case Closed => f.closed
    case Live => !f.closed
    case LiveOf(p) => !f.closed && f.proto == p
    case New => !f.closed && f.key !in prev
    case NewOf(s) => !f.closed && f.key !in prev && f.service == s
    case Failed => !f.closed && f.failed
    case FailedOf(s) => !f.closed && f.failed && f.service == s
  }

  function Count(fs: seq<Flow>, prev: set<string>, kind: Kind): nat {
    if fs == [] then 0
    else Count(fs[..|fs| - 1], prev, kind) + One(Is(fs[|fs| - 1], prev, kind))
  }

  function LiveKeys(fs: seq<Flow>): set<string> { set f | f in fs && !f.closed :: f.key }

  function Get<T>(m: map<T, nat>, s: T): nat { if s in m then m[s] else 0 }

  function Bump<T>(m: map<T, nat>, s: T): map<T, nat> { m[s := Get(m, s) + 1] }

  /** The counts of one sweep. */
  datatype Tally = Tally(closed: nat, live: nat, liveOf: map<Proto, nat>, new_: nat, newOf: map<string, nat>,
                         failed: nat, failedOf: map<string, nat>)
  {
    function Value(kind: Kind): nat {
      match kind
      case Closed => closed
      case Live => live
      case LiveOf(p) => Get(liveOf, p)
      case New => new_
      case NewOf(s) => Get(newOf, s)
      case Failed => failed
      case FailedOf(s) => Get(failedOf, s)
    }
  }

  const BLANK := Tally(0, 0, map[], 0, map[], 0, map[])

  ghost predicate Tallies(t: Tally, fs: seq<Flow>, prev: set<string>) {
    forall kind :: t.Value(kind) == Count(fs, prev, kind)
  }

  lemma CountSnoc(fs: seq<Flow>, f: Flow, prev: set<string>)
    ensures forall kind :: Count(fs + [f], prev, kind) == Count(fs, prev, kind) + One(Is(f, prev, kind))
    ensures LiveKeys(fs + [f]) == LiveKeys(fs) + if f.closed then {} else {f.key}
  {
    assert (fs + [f])[..|fs|] == fs;
  }

  method CountFlow(t: Tally, f: Flow, prev: set<string>) returns (r: Tally)
    ensures forall kind :: r.Value(kind) == t.Value(kind) + One(Is(f, prev, kind))
  {
    if f.closed {
      return t.(closed := t.closed + 1);
    }
    var isNew := f.key !in prev;
    r := Tally(t.closed, t.live + 1, Bump(t.liveOf, f.proto),
               t.new_ + One(isNew), if isNew then Bump(t.newOf, f.service) else t.newOf,
               t.failed + One(f.failed), if f.failed then Bump(t.failedOf, f.service) else t.failedOf);
  }

  method CountFlows(fs: seq<Flow>, prev: set<string>) returns (t: Tally, current: set<string>)
    ensures Tallies(t, fs, prev) && current == LiveKeys(fs)
  {
    t, current := BLANK, {};
    for i := 0 to |fs|
      invariant Tallies(t, fs[..i], prev)
      invariant current == LiveKeys(fs[..i])
    {
      CountSnoc(fs[..i], fs[i], prev);
      assert fs[..i + 1] == fs[..i] + [fs[i]];
      t := CountFlow(t, fs[i], prev);
      if !fs[i].closed {
        current := current + {fs[i].key};
      }
    }
    assert fs[..|fs|] == fs;
  }

  method AddAll(m: map<string, nat>, d: map<string, nat>) returns (r: map<string, nat>)
    ensures forall s :: Get(r, s) == Get(m, s) + Get(d, s)
  {
    r := m;
    var todo := d.Keys;
    while todo != {}
      invariant todo <= d.Keys
      invariant forall s :: s in todo ==> Get(r, s) == Get(m, s)
      invariant forall s :: s !in todo ==> Get(r, s) == Get(m, s) + Get(d, s)
    {
      var s :| s in todo;
      todo := todo - {s};
      r := r[s := Get(r, s) + d[s]];
    }
  }

  method CountDeparted(prev: set<string>, current: set<string>) returns (n: nat)
    ensures n == |prev - current|
  {
    n := 0;
    var todo := prev;
    ghost var gone: set<string> := {};
    while todo != {}
      invariant todo <= prev && n == |gone|
      invariant forall k :: k in gone <==> k in prev && k !in todo && k !in current
    {
      var k :| k in todo;
      todo := todo - {k};
      if k !in current {
        n, gone := n + 1, gone + {k};
      }
    }
    assert gone == prev - current;
  }

  class Counter {
    var prev: set<string>
    // gauges; `activeOf` also counts the other protocols, which have no gauge of their own
    var active: nat
    var activeOf: map<Proto, nat>
    var inactive: nat
    var arrived: nat
    // counters
    var requests: nat
    var errors: nat
    var departures: nat
    var requestsOf: map<string, nat>
    var errorsOf: map<string, nat>

    constructor ()
      ensures prev == {} && requests == errors == departures == 0 && requestsOf == errorsOf == map[]
    {
      prev, active, activeOf, inactive, arrived := {}, 0, map[], 0, 0;
      requests, errors, departures, requestsOf, errorsOf := 0, 0, 0, map[], map[];
    }

    /** One sweep over the flows of the connection table. */
    method ActiveConntrackCount(fs: seq<Flow>)
      modifies this
      ensures prev == LiveKeys(fs)
      ensures active == Count(fs, old(prev), Live)
      ensures forall p :: Get(activeOf, p) == Count(fs, old(prev), LiveOf(p))
      ensures inactive == Count(fs, old(prev), Closed) + |old(prev) - prev|
      ensures arrived == Count(fs, old(prev), New)
      ensures requests == old(requests) + Count(fs, old(prev), New)
      ensures errors == old(errors) + Count(fs, old(prev), Failed)
      ensures departures == old(departures) + |old(prev) - prev|
      ensures forall s :: Get(requestsOf, s) == old(Get(requestsOf, s)) + Count(fs, old(prev), NewOf(s))
      ensures forall s :: Get(errorsOf, s) == old(Get(errorsOf, s)) + Count(fs, old(prev), FailedOf(s))
    {
      var t, current := CountFlows(fs, prev);
      TallyFields(t, fs, prev);
      var gone := CountDeparted(prev, current);
      active, activeOf, inactive, arrived := t.live, t.liveOf, t.closed + gone, t.new_;
      requests, errors, departures := requests + t.new_, errors + t.failed, departures + gone;
      requestsOf := AddAll(requestsOf, t.newOf);
      errorsOf := AddAll(errorsOf, t.failedOf);
      prev := current;
    }
  }

  lemma TallyFields(t: Tally, fs: seq<Flow>, prev: set<string>)
    requires Tallies(t, fs, prev)
    ensures t.closed == Count(fs, prev, Closed) && t.live == Count(fs, prev, Live)
    ensures t.new_ == Count(fs, prev, New) && t.failed == Count(fs, prev, Failed)
    ensures forall p :: Get(t.liveOf, p) == Count(fs, prev, LiveOf(p))
    ensures forall s :: Get(t.newOf, s) == Count(fs, prev, NewOf(s))
    ensures forall s :: Get(t.failedOf, s) == Count(fs, prev, FailedOf(s))
  {
    assert t.Value(Live) == t.live && t.Value(Closed) == t.closed;
    assert t.Value(New) == t.new_ && t.Value(Failed) == t.failed;
    assert forall p :: t.Value(LiveOf(p)) == Get(t.liveOf, p);
    assert forall s :: t.Value(NewOf(s)) == Get(t.newOf, s);
    assert forall s :: t.Value(FailedOf(s)) == Get(t.failedOf, s);
  }

  // --------------------------------------------------------- what is counted

  /** Which entries are of a kind. */
  function Marks(fs: seq<Flow>, prev: set<string>, kind: Kind): seq<bool> {
    seq(|fs|, i requires 0 <= i < |fs| => Is(fs[i], prev, kind))
  }

  function Hits(bs: seq<bool>): set<nat> { set i: nat | i < |bs| && bs[i] }

  lemma HitsSnoc(bs: seq<bool>, b: bool)
    ensures |Hits(bs + [b])| == |Hits(bs)| + One(b)
  {
    assert Hits(bs + [b]) == Hits(bs) + if b then {|bs|} else {};
  }

  /** A count is the number of entries of its kind. */
  lemma {:induction false} CountIsSize(fs: seq<Flow>, prev: set<string>, kind: Kind)
    ensures Count(fs, prev, kind) == |Hits(Marks(fs, prev, kind))|
    decreases |fs|
  {
    if fs == [] {
      assert Hits(Marks(fs, prev, kind)) == {};
    } else {
      var n := |fs| - 1;
      CountIsSize(fs[..n], prev, kind);
      HitsSnoc(Marks(fs[..n], prev, kind), Is(fs[n], prev, kind));
      assert Marks(fs, prev, kind) == Marks(fs[..n], prev, kind) + [Is(fs[n], prev, kind)];
    }
  }

  /** The entry's own text decides: which entries count as closed, live, new, failed, and to which protocol and service. */
  lemma KindsOfEntry(c: CtInfo, prev: set<string>, s: string)
    ensures var f := FlowOf(c);
            && (Is(f, prev, Closed) <==> c.state == "closed")
            && (Is(f, prev, Live) <==> c.state != "closed")
            && (Is(f, prev, LiveOf(Tcp)) <==> c.state != "closed" && c.proto == "tcp")
            && (Is(f, prev, LiveOf(Udp)) <==> c.state != "closed" && c.proto == "udp")
            && (Is(f, prev, LiveOf(Sctp)) <==> c.state != "closed" && c.proto == "sctp")
            && (Is(f, prev, New) <==> c.state != "closed" && MakeConntrackKey(c) !in prev)
            && (Is(f, prev, NewOf(s)) <==> Is(f, prev, New) && c.service == s)
            && (Is(f, prev, Failed) <==> c.state != "closed" && (c.state == "h/e" || c.state == "closed-wait" ||
                                                                 c.act == "err" || c.act == "abort"))
            && (Is(f, prev, FailedOf(s)) <==> Is(f, prev, Failed) && c.service == s)
  {
  }

  // ----------------------------------------------------------------- one sweep

  /** The keys of the new flows, in the order of the table. */
  function NewKeys(fs: seq<Flow>, prev: set<string>): seq<string> {
    if fs == [] then []
    else
      var init, f := fs[..|fs| - 1], fs[|fs| - 1];
      if Is(f, prev, New) then NewKeys(init, prev) + [f.key] else NewKeys(init, prev)
  }

  ghost predicate Distinct(s: seq<string>) { forall i, j :: 0 <= i < j < |s| ==> s[i] != s[j] }

  /** No key of a new flow is listed twice. */
  ghost predicate NoRepeats(fs: seq<Flow>, prev: set<string>) { Distinct(NewKeys(fs, prev)) }

  ghost function Elements(s: seq<string>): set<string> { set x | x in s }

  lemma {:induction false} DistinctIff(s: seq<string>)
    ensures |Elements(s)| <= |s|
    ensures |Elements(s)| == |s| <==> Distinct(s)
  {
    if s == [] {
      assert Elements(s) == {};
    } else {
      var init, x := s[..|s| - 1], s[|s| - 1];
      DistinctIff(init);
      assert s == init + [x];
      assert Elements(s) == Elements(init) + {x};
      DistinctSnoc(init, x);
    }
  }

  lemma DistinctSnoc(s: seq<string>, x: string)
    ensures Distinct(s + [x]) <==> Distinct(s) && x !in s
  {
    var t := s + [x];
    assert forall i :: 0 <= i < |s| ==> t[i] == s[i];
    if x in s {
      var i :| 0 <= i < |s| && s[i] == x;
      assert t[i] == t[|s|];
    }
  }

  lemma {:induction false} NewKeysAreNew(fs: seq<Flow>, prev: set<string>)
    ensures Count(fs, prev, New) == |NewKeys(fs, prev)|
    ensures Elements(NewKeys(fs, prev)) == LiveKeys(fs) - prev
  {
    if fs != [] {
      var init, f := fs[..|fs| - 1], fs[|fs| - 1];
      NewKeysAreNew(init, prev);
      CountSnoc(init, f, prev);
      assert fs == init + [f];
      assert Elements(NewKeys(init, prev) + [f.key]) == Elements(NewKeys(init, prev)) + {f.key};
      assert LiveKeys(fs) - prev == (LiveKeys(init) - prev) + if Is(f, prev, New) then {f.key} else {};
    }
  }

  /** The arrivals counted are at least the keys that arrived, and exactly these unless a key repeats. */
  lemma NewFlowsAreNewKeys(fs: seq<Flow>, prev: set<string>)
    ensures Count(fs, prev, New) >= |LiveKeys(fs) - prev|
    ensures Count(fs, prev, New) == |LiveKeys(fs) - prev| <==> NoRepeats(fs, prev)
  {
    NewKeysAreNew(fs, prev);
    DistinctIff(NewKeys(fs, prev));
  }

  lemma {:induction false} LiveIsNewToNobody(fs: seq<Flow>, prev: set<string>)
    ensures Count(fs, prev, Live) == Count(fs, {}, New)
  {
    if fs != [] {
      LiveIsNewToNobody(fs[..|fs| - 1], prev);
    }
  }

  /** The active gauge is the number of live keys exactly if no live key repeats. */
  lemma ActiveIsLiveKeys(fs: seq<Flow>, prev: set<string>)
    ensures Count(fs, prev, Live) == |LiveKeys(fs)| <==> NoRepeats(fs, {})
  {
    LiveIsNewToNobody(fs, prev);
    NewFlowsAreNewKeys(fs, {});
    assert LiveKeys(fs) - {} == LiveKeys(fs);
  }

  lemma {:induction false} DistinctKeysDoNotRepeat(fs: seq<Flow>, prev: set<string>)
    requires forall i, j :: 0 <= i < j < |fs| ==> fs[i].key != fs[j].key
    ensures NoRepeats(fs, prev)
    ensures forall k :: k in NewKeys(fs, prev) ==> exists i :: 0 <= i < |fs| && fs[i].key == k
  {
    if fs != [] {
      var init, f := fs[..|fs| - 1], fs[|fs| - 1];
      DistinctKeysDoNotRepeat(init, prev);
      DistinctSnoc(NewKeys(init, prev), f.key);
      forall k | k in NewKeys(init, prev) ensures exists i :: 0 <= i < |fs| && fs[i].key == k && k != f.key {
        var i :| 0 <= i < |init| && init[i].key == k;
        assert fs[i].key == k;
      }
    }
  }

  /** The flows of a table list each key once if its separable connections differ in more than their state. */
  lemma DistinctConnectionsDoNotRepeat(info: seq<CtInfo>, prev: set<string>)
    requires forall i :: 0 <= i < |info| ==> Separable(info[i])
    requires forall i, j :: 0 <= i < j < |info| ==> info[i].(state := info[j].state, act := info[j].act) != info[j]
    ensures NoRepeats(Flows(info), prev)
  {
    forall i, j | 0 <= i < j < |info| ensures Flows(info)[i].key != Flows(info)[j].key {
      if MakeConntrackKey(info[i]) == MakeConntrackKey(info[j]) {
        KeyIdentifiesConnection(info[i], info[j]);
      }
    }
    DistinctKeysDoNotRepeat(Flows(info), prev);
  }

  ghost function PerService(fs: seq<Flow>, prev: set<string>, failed: bool): string -> nat {
    s => Count(fs, prev, if failed then FailedOf(s) else NewOf(s))
  }

  /** The counts per service add up to the count of all services. */
  lemma {:induction false} ServicesAddUp(fs: seq<Flow>, prev: set<string>, failed: bool, services: set<string>)
    requires forall f :: f in fs ==> f.service in services
    ensures Sum(services, PerService(fs, prev, failed)) == Count(fs, prev, if failed then Failed else New)
    decreases |fs|
  {
    if fs == [] {
      SumOnes(services, {}, PerService(fs, prev, failed));
    } else {
      var init, f := fs[..|fs| - 1], fs[|fs| - 1];
      ServicesAddUp(init, prev, failed, services);
      assert f in fs;
      var d := One(Is(f, prev, if failed then Failed else New));
      SumChange(services, PerService(init, prev, failed), PerService(fs, prev, failed), f.service, d);
    }
  }

  // ----------------------------------------------------------------- every run

  function Remembered(sweeps: seq<seq<Flow>>): set<string> {
    if sweeps == [] then {} else LiveKeys(sweeps[|sweeps| - 1])
  }

  function Requests(sweeps: seq<seq<Flow>>): nat {
    if sweeps == [] then 0
    else
      var init := sweeps[..|sweeps| - 1];
      Requests(init) + Count(sweeps[|sweeps| - 1], Remembered(init), New)
  }

  /** A service's requests or errors over a run. */
  function ServiceTotal(sweeps: seq<seq<Flow>>, failed: bool, s: string): nat {
    if sweeps == [] then 0
    else
      var init := sweeps[..|sweeps| - 1];
      ServiceTotal(init, failed, s) +
      Count(sweeps[|sweeps| - 1], Remembered(init), if failed then FailedOf(s) else NewOf(s))
  }

  function Errors(sweeps: seq<seq<Flow>>): nat {
    if sweeps == [] then 0
    else
      var init := sweeps[..|sweeps| - 1];
      Errors(init) + Count(sweeps[|sweeps| - 1], Remembered(init), Failed)
  }

  ghost function ServiceTotals(sweeps: seq<seq<Flow>>, failed: bool): string -> nat { s => ServiceTotal(sweeps, failed, s) }

  /** Over every run the services' request and error counters add up to the totals. */
  lemma {:induction false} ServicesAddUpOverRun(sweeps: seq<seq<Flow>>, failed: bool, services: set<string>)
    requires forall i, f :: 0 <= i < |sweeps| && f in sweeps[i] ==> f.service in services
    ensures Sum(services, ServiceTotals(sweeps, failed)) == if failed then Errors(sweeps) else Requests(sweeps)
    decreases |sweeps|
  {
    if sweeps == [] {
      SumOnes(services, {}, ServiceTotals(sweeps, failed));
    } else {
      var init, fs := sweeps[..|sweeps| - 1], sweeps[|sweeps| - 1];
      ServicesAddUpOverRun(init, failed, services);
      ServicesAddUp(fs, Remembered(init), failed, services);
      SumAdds(services, ServiceTotals(init, failed), PerService(fs, Remembered(init), failed), ServiceTotals(sweeps, failed));
    }
  }

  function Departures(sweeps: seq<seq<Flow>>): nat {
    if sweeps == [] then 0
    else
      var init := sweeps[..|sweeps| - 1];
      Departures(init) + |Remembered(init) - Remembered(sweeps)|
  }

  ghost predicate NeverRepeats(sweeps: seq<seq<Flow>>)
    decreases |sweeps|
  {
    sweeps != [] ==>
      var init := sweeps[..|sweeps| - 1];
      NeverRepeats(init) && NoRepeats(sweeps[|sweeps| - 1], Remembered(init))
  }

  lemma Exchange(a: set<string>, b: set<string>)
    ensures |a - b| + |b| == |b - a| + |a|
  {
    assert a == (a - b) + (a * b) && b == (b - a) + (a * b);
  }

  /**
  After every run the requests counted are at least the departures and the flows
  still there, and exactly these unless some sweep listed a new key twice.
  */
  lemma {:induction false} FlowsBalance(sweeps: seq<seq<Flow>>)
    ensures Requests(sweeps) >= Departures(sweeps) + |Remembered(sweeps)|
    ensures Requests(sweeps) == Departures(sweeps) + |Remembered(sweeps)| <==> NeverRepeats(sweeps)
  {
    if sweeps != [] {
      var init, fs := sweeps[..|sweeps| - 1], sweeps[|sweeps| - 1];
      FlowsBalance(init);
      NewFlowsAreNewKeys(fs, Remembered(init));
      Exchange(LiveKeys(fs), Remembered(init));
    }
  }

  function Arrivals(sweeps: seq<seq<Flow>>, k: string): nat {
    if sweeps == [] then 0
    else
      var init := sweeps[..|sweeps| - 1];
      Arrivals(init, k) + One(k in Remembered(sweeps) - Remembered(init))
  }

  function Leaves(sweeps: seq<seq<Flow>>, k: string): nat {
    if sweeps == [] then 0
    else
      var init := sweeps[..|sweeps| - 1];
      Leaves(init, k) + One(k in Remembered(init) - Remembered(sweeps))
  }

  /** Every key leaves once for every arrival, except while it is there. */
  lemma {:induction false} ArrivalsAndLeavesAlternate(sweeps: seq<seq<Flow>>, k: string)
    ensures Arrivals(sweeps, k) == Leaves(sweeps, k) + One(k in Remembered(sweeps))
  {
    if sweeps != [] {
      ArrivalsAndLeavesAlternate(sweeps[..|sweeps| - 1], k);
    }
  }

  ghost function LeavesOf(sweeps: seq<seq<Flow>>): string -> nat { k => Leaves(sweeps, k) }

  /** The departures counted are the leaves of all keys, each counted once. */
  lemma {:induction false} DeparturesAreLeaves(sweeps: seq<seq<Flow>>, keys: set<string>)
    requires forall i :: 0 <= i < |sweeps| ==> LiveKeys(sweeps[i]) <= keys
    ensures Departures(sweeps) == Sum(keys, LeavesOf(sweeps))
    decreases |sweeps|
  {
    if sweeps == [] {
      SumOnes(keys, {}, LeavesOf(sweeps));
    } else {
      var init := sweeps[..|sweeps| - 1];
      DeparturesAreLeaves(init, keys);
      var gone := Remembered(init) - Remembered(sweeps);
      var ones := k => One(k in gone);
      SumOnes(keys, gone, ones);
      SumAdds(keys, LeavesOf(init), ones, LeavesOf(sweeps));
    }
  }
}
