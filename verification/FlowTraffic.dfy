/**
Traffic per client, end point and service from the connection table: each sweep
adds the increase of every connection's counters to the interaction counters and
to the end-point and client counters, which are their marginals.
*/
module FlowTraffic {
  import opened Common
  import opened FlowKeys
  import opened Sums

  datatype Stats = Stats(bytes: nat, packets: nat)

  type Table = map<string, Stats>

  /** Between whom a connection's traffic is counted. */
  datatype Pair = Pair(service: string, sip: string, dip: string)

  function PairOf(key: string): Pair {
    var f := ParseConntrackKey(key);
    Pair(f.service, f.sip, f.dip)
  }

  function Look(t: Table, k: string): Stats { if k in t then t[k] else Stats(0, 0) }

  /** The increase; all of the counter if it went backwards. */
  function Diff(prev: nat, cur: nat): nat { if prev > cur then cur else cur - prev }

  /** What one connection adds. */
  datatype Increase = Increase(at: Pair, bytes: nat, packets: nat)

  function IncreaseOf(prev: Table, cur: Table, k: string): Increase
    requires k in cur
  {
    Increase(PairOf(k), Diff(Look(prev, k).bytes, cur[k].bytes), Diff(Look(prev, k).packets, cur[k].packets))
  }

  predicate Moved(i: Increase) { i.bytes > 0 || i.packets > 0 }

  function Visit(prev: Table, cur: Table, k: string): seq<Increase>
    requires k in cur
  {
    if Moved(IncreaseOf(prev, cur, k)) then [IncreaseOf(prev, cur, k)] else []
  }

  /** The increases of a sweep that visits the connections in the given order. */
  function Increases(prev: Table, cur: Table, order: seq<string>): seq<Increase>
    requires forall k :: k in order ==> k in cur
  {
    if order == [] then []
    else
      var init, k := order[..|order| - 1], order[|order| - 1];
      Increases(prev, cur, init) + Visit(prev, cur, k)
  }

  predicate Backwards(prev: Table, cur: Table, k: string)
    requires k in cur
  {
    Look(prev, k).bytes > cur[k].bytes || Look(prev, k).packets > cur[k].packets
  }

  // ------------------------------------------------------------------- counters

  /** What a counter adds up: one pair's traffic, or all traffic to an end point or from a client. */
  datatype Series =
    | PairBytes(at: Pair)
    | PairPackets(at: Pair)
    | EndpointBytes(service: string, dip: string)
    | ClientPackets(service: string, sip: string)

  function Part(i: Increase, s: Series): nat {
    match s
    case PairBytes(p) => if i.at == p then i.bytes else 0
    case PairPackets(p) => if i.at == p then i.packets else 0
    case EndpointBytes(n, d) => if i.at.service == n && i.at.dip == d then i.bytes else 0
    case ClientPackets(n, c) => if i.at.service == n && i.at.sip == c then i.packets else 0
  }

  function Total(log: seq<Increase>, s: Series): nat {
    if log == [] then 0 else Total(log[..|log| - 1], s) + Part(log[|log| - 1], s)
  }

  function Get(m: map<Series, nat>, s: Series): nat { if s in m then m[s] else 0 }

  function Add(m: map<Series, nat>, s: Series, n: nat): map<Series, nat> { m[s := Get(m, s) + n] }

  /** Every counter shows the total of its series. */
  ghost predicate Shows(m: map<Series, nat>, log: seq<Increase>) { forall s :: Get(m, s) == Total(log, s) }

  class Collector {
    var prev: Table
    var counters: map<Series, nat>
    var resets: nat
    ghost var log: seq<Increase>

    constructor ()
      ensures prev == map[] && resets == 0 && log == [] && Shows(counters, log)
    {
      prev, counters, resets, log := map[], map[], 0, [];
    }

    /** Enter one increase into its four series. */
    method Enter(i: Increase)
      requires Shows(counters, log)
      modifies this`counters, this`log
      ensures Shows(counters, log) && log == old(log) + [i]
    {
      ghost var before := counters;
      counters := Add(counters, PairBytes(i.at), i.bytes);
      counters := Add(counters, PairPackets(i.at), i.packets);
      counters := Add(counters, EndpointBytes(i.at.service, i.at.dip), i.bytes);
      counters := Add(counters, ClientPackets(i.at.service, i.at.sip), i.packets);
      assert (log + [i])[..|log|] == log;
      log := log + [i];
    }

    /** Count what one connection adds, and whether its counters went backwards. */
    method VisitFlow(cur: Table, k: string)
      requires Shows(counters, log) && k in cur
      modifies this`counters, this`log, this`resets
      ensures Shows(counters, log) && log == old(log) + Visit(prev, cur, k)
      ensures resets == old(resets) + if Backwards(prev, cur, k) then 1 else 0
    {
      var was := if k in prev then prev[k] else Stats(0, 0);
      var ct := cur[k];
      if was.bytes > ct.bytes || was.packets > ct.packets {
        resets := resets + 1;
      }
      var diffBytes := if was.bytes > ct.bytes then ct.bytes else ct.bytes - was.bytes;
      var diffPackets := if was.packets > ct.packets then ct.packets else ct.packets - was.packets;
      if diffBytes > 0 || diffPackets > 0 {
        Enter(Increase(PairOf(k), diffBytes, diffPackets));
      }
    }

    /** One sweep over a copy of the connection statistics. */
    method ProcessedStatistic(cur: Table) returns (order: seq<string>)
      requires Shows(counters, log)
      modifies this
      ensures Shows(counters, log) && prev == cur
      ensures Enumerates(order, cur.Keys)
      ensures log == old(log) + Increases(old(prev), cur, order)
      ensures resets == old(resets) + |Back(old(prev), cur, cur.Keys)|
    {
      order := [];
      var todo := cur.Keys;
      assert Back(prev, cur, {}) == {} && cur.Keys - todo == {};
      while todo != {}
        invariant todo <= cur.Keys && prev == old(prev)
        invariant Enumerates(order, cur.Keys - todo)
        invariant Shows(counters, log)
        invariant log == old(log) + Increases(prev, cur, order)
        invariant resets == old(resets) + |Back(prev, cur, cur.Keys - todo)|
      {
        var k :| k in todo;
        VisitMore(prev, cur, order, cur.Keys - todo, k);
        BackMore(prev, cur, cur.Keys - todo, k);
        assert cur.Keys - (todo - {k}) == (cur.Keys - todo) + {k};
        LogMore(old(log), Increases(prev, cur, order), Visit(prev, cur, k));
        VisitFlow(cur, k);
        todo := todo - {k};
        order := order + [k];
      }
      assert cur.Keys - {} == cur.Keys;
      prev := cur;
    }
  }

  /** The connections whose counters went backwards. */
  ghost function Back(prev: Table, cur: Table, keys: set<string>): set<string>
    requires keys <= cur.Keys
  {
    set k | k in keys && Backwards(prev, cur, k)
  }

  lemma VisitMore(prev: Table, cur: Table, order: seq<string>, done: set<string>, k: string)
    requires done <= cur.Keys && k in cur && k !in done && Enumerates(order, done)
    ensures Enumerates(order + [k], done + {k})
    ensures Increases(prev, cur, order + [k]) == Increases(prev, cur, order) + Visit(prev, cur, k)
  {
    assert (order + [k])[..|order|] == order;
  }

  lemma LogMore(a: seq<Increase>, b: seq<Increase>, c: seq<Increase>)
    ensures a + b + c == a + (b + c)
  {
  }

  lemma BackMore(prev: Table, cur: Table, done: set<string>, k: string)
    requires done <= cur.Keys && k in cur && k !in done
    ensures |Back(prev, cur, done + {k})| == |Back(prev, cur, done)| + if Backwards(prev, cur, k) then 1 else 0
  {
    assert Back(prev, cur, done + {k}) == Back(prev, cur, done) + if Backwards(prev, cur, k) then {k} else {};
  }

  /** The pair of a connection is its service, its client and its end point. */
  lemma PairOfConnection(c: CtInfo)
    requires Separable(c)
    ensures PairOf(MakeConntrackKey(c)) == Pair(c.service, c.sip, c.dip)
  {
    ParseInvertsMake(c);
  }

  /** A connection counts as reset exactly if one of its counters is below the one of the last sweep. */
  lemma BackwardsIff(prev: Table, cur: Table, k: string)
    requires k in cur
    ensures Backwards(prev, cur, k) <==> k in prev && (prev[k].bytes > cur[k].bytes || prev[k].packets > cur[k].packets)
  {
  }

  lemma OneIncrease(k: string, s: Stats)
    ensures Increases(map[], map[k := s], [k]) ==
            if s.bytes > 0 || s.packets > 0 then [Increase(PairOf(k), s.bytes, s.packets)] else []
  {
    assert [k][..0] == [];
  }

  lemma TotalOfOne(i: Increase, s: Series)
    ensures Total([i], s) == Part(i, s)
  {
    assert [i][..0] == [];
  }

  /** A new connection alone in the table raises its four series by its bytes and packets. */
  lemma NewConnectionIsCounted(c: CtInfo, s: Stats)
    requires Separable(c)
    ensures var log := Increases(map[], map[MakeConntrackKey(c) := s], [MakeConntrackKey(c)]);
            && Total(log, PairBytes(Pair(c.service, c.sip, c.dip))) == s.bytes
            && Total(log, PairPackets(Pair(c.service, c.sip, c.dip))) == s.packets
            && Total(log, EndpointBytes(c.service, c.dip)) == s.bytes
            && Total(log, ClientPackets(c.service, c.sip)) == s.packets
  {
    var i := Increase(Pair(c.service, c.sip, c.dip), s.bytes, s.packets);
    PairOfConnection(c);
    OneIncrease(MakeConntrackKey(c), s);
    TotalOfOne(i, PairBytes(i.at));
    TotalOfOne(i, PairPackets(i.at));
    TotalOfOne(i, EndpointBytes(c.service, c.dip));
    TotalOfOne(i, ClientPackets(c.service, c.sip));
  }

  // ------------------------------------------------------------------ marginals

  ghost function ByClient(log: seq<Increase>, service: string, dip: string): string -> nat {
    c => Total(log, PairBytes(Pair(service, c, dip)))
  }

  ghost function ByEndpoint(log: seq<Increase>, service: string, sip: string): string -> nat {
    d => Total(log, PairPackets(Pair(service, sip, d)))
  }

  /** The bytes to an end point are the sum of its interactions over all clients. */
  lemma {:induction false} EndpointIsMarginal(log: seq<Increase>, service: string, dip: string, clients: set<string>)
    requires forall i :: i in log ==> i.at.sip in clients
    ensures Total(log, EndpointBytes(service, dip)) == Sum(clients, ByClient(log, service, dip))
    decreases |log|
  {
    if log == [] {
      SumOnes(clients, {}, ByClient(log, service, dip));
    } else {
      var init, i := log[..|log| - 1], log[|log| - 1];
      EndpointIsMarginal(init, service, dip, clients);
      assert i in log;
      SumChange(clients, ByClient(init, service, dip), ByClient(log, service, dip), i.at.sip,
                Part(i, EndpointBytes(service, dip)));
    }
  }

  /** The packets of a client are the sum of its interactions over all end points. */
  lemma {:induction false} ClientIsMarginal(log: seq<Increase>, service: string, sip: string, dips: set<string>)
    requires forall i :: i in log ==> i.at.dip in dips
    ensures Total(log, ClientPackets(service, sip)) == Sum(dips, ByEndpoint(log, service, sip))
    decreases |log|
  {
    if log == [] {
      SumOnes(dips, {}, ByEndpoint(log, service, sip));
    } else {
      var init, i := log[..|log| - 1], log[|log| - 1];
      ClientIsMarginal(init, service, sip, dips);
      assert i in log;
      SumChange(dips, ByEndpoint(init, service, sip), ByEndpoint(log, service, sip), i.at.dip,
                Part(i, ClientPackets(service, sip)));
    }
  }

  // ------------------------------------------------------- one connection's life

  datatype Unit = Bytes | Packets

  function Reading(s: Stats, u: Unit): nat { if u == Bytes then s.bytes else s.packets }

  function Amount(i: Increase, u: Unit): nat { if u == Bytes then i.bytes else i.packets }

  function PairSeries(p: Pair, u: Unit): Series { if u == Bytes then PairBytes(p) else PairPackets(p) }

  /** The table that the last sweep left. */
  function Latest(run: seq<Table>): Table { if run == [] then map[] else run[|run| - 1] }

  /** What the sweeps of a run add for one connection key. */
  function Exported(run: seq<Table>, k: string, u: Unit): nat {
    if run == [] then 0
    else
      var init, cur := run[..|run| - 1], run[|run| - 1];
      Exported(init, k, u) + if k in cur then Amount(IncreaseOf(Latest(init), cur, k), u) else 0
  }

  /** The last readings before the counter went backwards or its connection was gone. */
  function FinalReadings(run: seq<Table>, k: string, u: Unit): nat {
    if run == [] then 0
    else
      var init, cur := run[..|run| - 1], run[|run| - 1];
      var last := Reading(Look(Latest(init), k), u);
      FinalReadings(init, k, u) + if k !in cur || Reading(cur[k], u) < last then last else 0
  }

  /** Over every run, what is exported for a key is the final reading of every life of its counter and the present one. */
  lemma {:induction false} ExportsFinalReadings(run: seq<Table>, k: string, u: Unit)
    ensures Exported(run, k, u) == FinalReadings(run, k, u) + Reading(Look(Latest(run), k), u)
  {
    if run != [] {
      ExportsFinalReadings(run[..|run| - 1], k, u);
    }
  }

  // -------------------------------------------------- counters and connections

  lemma {:induction false} TotalConcat(a: seq<Increase>, b: seq<Increase>, s: Series)
    ensures Total(a + b, s) == Total(a, s) + Total(b, s)
    decreases |b|
  {
    if b == [] {
      assert a + b == a;
    } else {
      TotalConcat(a, b[..|b| - 1], s);
      assert (a + b)[..|a + b| - 1] == a + b[..|b| - 1];
    }
  }

  /** What each connection adds to one pair in a sweep. */
  ghost function Gains(prev: Table, cur: Table, p: Pair, u: Unit): string -> nat {
    k => if k in cur && PairOf(k) == p then Amount(IncreaseOf(prev, cur, k), u) else 0
  }

  lemma VisitGains(prev: Table, cur: Table, k: string, p: Pair, u: Unit)
    requires k in cur
    ensures Total(Visit(prev, cur, k), PairSeries(p, u)) == Gains(prev, cur, p, u)(k)
  {
    var v := Visit(prev, cur, k);
    if v != [] {
      assert v[..0] == [];
    }
  }

  /** A sweep adds the gains of all connections, in whatever order it visits them. */
  lemma {:induction false} SweepAddsGains(prev: Table, cur: Table, order: seq<string>, keys: set<string>, p: Pair, u: Unit)
    requires keys <= cur.Keys && Enumerates(order, keys)
    ensures Total(Increases(prev, cur, order), PairSeries(p, u)) == Sum(keys, Gains(prev, cur, p, u))
    decreases |order|
  {
    if order == [] {
      assert keys == {} by { assert forall k :: k in keys <==> k in order; }
    } else {
      var init, k := order[..|order| - 1], order[|order| - 1];
      assert order == init + [k];
      EnumeratesInit(init, k, keys);
      SweepAddsGains(prev, cur, init, keys - {k}, p, u);
      TotalConcat(Increases(prev, cur, init), Visit(prev, cur, k), PairSeries(p, u));
      VisitGains(prev, cur, k, p, u);
      SumRemove(keys, Gains(prev, cur, p, u), k);
    }
  }

  lemma EnumeratesInit(init: seq<string>, k: string, keys: set<string>)
    requires Enumerates(init + [k], keys)
    ensures k in keys && Enumerates(init, keys - {k})
  {
    var order := init + [k];
    assert order[|init|] == k && forall i :: 0 <= i < |init| ==> order[i] == init[i];
    forall x ensures x in init <==> x in keys - {k} {
      assert x in order <==> x in init || x == k;
      if x in init {
        var i :| 0 <= i < |init| && init[i] == x;
        assert order[i] != order[|init|];
      }
    }
  }

  /** One sweep of a run: the table it saw and the order in which it went through it. */
  datatype Swept = Swept(cur: Table, order: seq<string>)

  function Tables(run: seq<Swept>): seq<Table> { seq(|run|, i requires 0 <= i < |run| => run[i].cur) }

  ghost predicate Ordered(run: seq<Swept>) { forall i :: 0 <= i < |run| ==> Enumerates(run[i].order, run[i].cur.Keys) }

  ghost function Log(run: seq<Swept>): seq<Increase>
    requires Ordered(run)
  {
    if run == [] then []
    else
      var init, s := run[..|run| - 1], run[|run| - 1];
      Log(init) + Increases(Latest(Tables(init)), s.cur, s.order)
  }

  function ExportedFor(tables: seq<Table>, p: Pair, k: string, u: Unit): nat {
    if PairOf(k) == p then Exported(tables, k, u) else 0
  }

  ghost function ExportedTo(tables: seq<Table>, p: Pair, u: Unit): string -> nat { k => ExportedFor(tables, p, k, u) }

  lemma ExportedMore(tables: seq<Table>, cur: Table, p: Pair, k: string, u: Unit)
    ensures ExportedFor(tables + [cur], p, k, u) == ExportedFor(tables, p, k, u) + Gains(Latest(tables), cur, p, u)(k)
  {
    assert (tables + [cur])[..|tables|] == tables;
  }

  /** After every run the counter of a pair is what its connections exported: their final readings. */
  lemma {:induction false} PairIsSumOfConnections(run: seq<Swept>, p: Pair, u: Unit, keys: set<string>)
    requires Ordered(run) && forall i :: 0 <= i < |run| ==> run[i].cur.Keys <= keys
    ensures Total(Log(run), PairSeries(p, u)) == Sum(keys, ExportedTo(Tables(run), p, u))
    decreases |run|
  {
    if run == [] {
      SumOnes(keys, {}, ExportedTo(Tables(run), p, u));
    } else {
      var init, s := run[..|run| - 1], run[|run| - 1];
      PairIsSumOfConnections(init, p, u, keys);
      var before := Latest(Tables(init));
      assert Tables(run) == Tables(init) + [s.cur];
      TotalConcat(Log(init), Increases(before, s.cur, s.order), PairSeries(p, u));
      SweepAddsGains(before, s.cur, s.order, s.cur.Keys, p, u);
      SumWiden(s.cur.Keys, keys, Gains(before, s.cur, p, u));
      forall k | k in keys
        ensures ExportedTo(Tables(run), p, u)(k) == ExportedTo(Tables(init), p, u)(k) + Gains(before, s.cur, p, u)(k)
      {
        ExportedMore(Tables(init), s.cur, p, k, u);
      }
      SumAdds(keys, ExportedTo(Tables(init), p, u), Gains(before, s.cur, p, u), ExportedTo(Tables(run), p, u));
    }
  }
}
