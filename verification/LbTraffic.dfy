/**
One sweep over the cumulative data-plane counters of the load-balancer rules:
the increase of every end point's counters is added to the exported totals, per
protocol and per service. Counters are unbounded here.
*/
module LbTraffic {
  import opened Common

  datatype Stats = Stats(packets: nat, bytes: nat)

  const ZERO := Stats(0, 0)

  predicate Zero(s: Stats) { s.packets <= 0 && s.bytes <= 0 }

  function Plus(a: Stats, b: Stats): Stats { Stats(a.packets + b.packets, a.bytes + b.bytes) }

  predicate AtMost(a: Stats, b: Stats) { a.packets <= b.packets && a.bytes <= b.bytes }

  function Minus(a: Stats, b: Stats): Stats
    requires AtMost(b, a)
  {
    Stats(a.packets - b.packets, a.bytes - b.bytes)
  }

  /** Protocols by their lower-case names. */
  datatype Proto = Tcp | Udp | Sctp | Other(name: string)

  datatype Key = Key(servIP: string, servPort: nat, block: nat, proto: Proto, epIP: string, epPort: nat)

  /** An end point as listed; its counters are absent if they could not be parsed. */
  datatype Ep = Ep(ip: string, port: nat, counters: Option<Stats>)

  /** A rule; its path and the end of its port range tell rules apart but are no part of an end point's key. */
  datatype Rule = Rule(servIP: string, servPort: nat, servPortMax: nat, hostUrl: string, block: nat, proto: string,
                       name: string, eps: seq<Ep>)

  datatype Service = Unnamed | Named(name: string)

  /** A readable counter of a sweep. */
  datatype Sample = Sample(key: Key, service: Service, cur: Stats)

  function LowerChar(c: char): char { if 'A' <= c <= 'Z' then ((c as int) + 32) as char else c }

  function Lower(s: string): string { seq(|s|, i requires 0 <= i < |s| => LowerChar(s[i])) }

  function ProtoOf(name: string): Proto {
    if Lower(name) == "tcp" then Tcp
    else if Lower(name) == "udp" then Udp
    else if Lower(name) == "sctp" then Sctp
    else Other(Lower(name))
  }

  /** Rules without a name may show "-" instead. */
  function ServiceOf(name: string): Service { if name == "-" || name == "" then Unnamed else Named(name) }

  function KeyOf(r: Rule, e: Ep): Key { Key(r.servIP, r.servPort, r.block, ProtoOf(r.proto), e.ip, e.port) }

  function RuleSamples(r: Rule, eps: seq<Ep>): seq<Sample> {
    if eps == [] then []
    else
      var init, e := eps[..|eps| - 1], eps[|eps| - 1];
      if e.counters.None? then RuleSamples(r, init)
      else RuleSamples(r, init) + [Sample(KeyOf(r, e), ServiceOf(r.name), e.counters.value)]
  }

  function Samples(info: seq<Rule>): seq<Sample> {
    if info == [] then []
    else Samples(info[..|info| - 1]) + RuleSamples(info[|info| - 1], info[|info| - 1].eps)
  }

  /** The listing shows the sample: a readable end point of a rule, under the rule's name. */
  ghost predicate Lists(info: seq<Rule>, s: Sample) {
    exists r, e :: r in info && e in r.eps && Shows(r, e, s)
  }

  ghost predicate Shows(r: Rule, e: Ep, s: Sample) {
    && e.counters.Some? && s.cur.packets == e.counters.value.packets && s.cur.bytes == e.counters.value.bytes
    && s.key.servIP == r.servIP && s.key.servPort == r.servPort && s.key.block == r.block
    && s.key.proto == ProtoOf(r.proto) && s.key.epIP == e.ip && s.key.epPort == e.port
    && s.service == if r.name == "-" || r.name == "" then Unnamed else Named(r.name)
  }

  lemma {:induction false} RuleSamplesAreShown(r: Rule, eps: seq<Ep>, s: Sample)
    ensures s in RuleSamples(r, eps) <==> exists e :: e in eps && Shows(r, e, s)
  {
    if eps != [] {
      var init, e := eps[..|eps| - 1], eps[|eps| - 1];
      RuleSamplesAreShown(r, init, s);
      assert eps == init + [e];
      if e.counters.Some? {
        assert Shows(r, e, Sample(KeyOf(r, e), ServiceOf(r.name), e.counters.value));
      }
    }
  }

  /** The samples of a sweep are exactly the readable counters of the listing. */
  lemma {:induction false} SamplesAreListed(info: seq<Rule>, s: Sample)
    ensures s in Samples(info) <==> Lists(info, s)
  {
    if info != [] {
      var init, r := info[..|info| - 1], info[|info| - 1];
      SamplesAreListed(init, s);
      RuleSamplesAreShown(r, r.eps, s);
      assert info == init + [r];
      if Lists(init, s) {
        var q, e :| q in init && e in q.eps && Shows(q, e, s);
        assert q in info;
      }
      if e :| e in r.eps && Shows(r, e, s) {
        assert r in info;
      }
    }
  }

  /** Every readable end point of the listing is sampled once. */
  function Readable(eps: seq<Ep>): nat {
    if eps == [] then 0 else Readable(eps[1..]) + if eps[0].counters.Some? then 1 else 0
  }

  lemma {:induction false} ReadableSnoc(eps: seq<Ep>, e: Ep)
    ensures Readable(eps + [e]) == Readable(eps) + if e.counters.Some? then 1 else 0
  {
    if eps != [] {
      ReadableSnoc(eps[1..], e);
      assert (eps + [e])[1..] == eps[1..] + [e];
    } else {
      assert (eps + [e])[1..] == [];
    }
  }

  lemma {:induction false} RuleSamplesCount(r: Rule, eps: seq<Ep>)
    ensures |RuleSamples(r, eps)| == Readable(eps)
  {
    if eps != [] {
      var init, e := eps[..|eps| - 1], eps[|eps| - 1];
      RuleSamplesCount(r, init);
      ReadableSnoc(init, e);
      assert eps == init + [e];
    }
  }

  /** The texts are equal but for capitals in the first. */
  predicate Spells(name: string, lower: string) {
    |name| == |lower| && forall i :: 0 <= i < |name| ==>
      if 'A' <= name[i] <= 'Z' then name[i] as int + 32 == lower[i] as int else name[i] == lower[i]
  }

  lemma LowerIsSpelling(name: string, lower: string)
    ensures Lower(name) == lower <==> Spells(name, lower)
  {
    if Spells(name, lower) {
      assert forall i :: 0 <= i < |name| ==> Lower(name)[i] == lower[i];
    }
    if Lower(name) == lower {
      assert forall i :: 0 <= i < |name| ==> lower[i] == LowerChar(name[i]);
    }
  }

  /** The protocols with counters of their own, by name in any capitals. */
  lemma ProtoByName(name: string)
    ensures ProtoOf(name) == Tcp <==> Spells(name, "tcp")
    ensures ProtoOf(name) == Udp <==> Spells(name, "udp")
    ensures ProtoOf(name) == Sctp <==> Spells(name, "sctp")
  {
    LowerIsSpelling(name, "tcp");
    LowerIsSpelling(name, "udp");
    LowerIsSpelling(name, "sctp");
  }

  type Baselines = map<Key, Stats>

  function Look(prev: Baselines, k: Key): Option<Stats> { if k in prev then Some(prev[k]) else None }

  /** The increase since the baseline; all of the counter if there is none or it went backwards. */
  function Delta(prev: Option<Stats>, cur: Stats): Stats {
    if prev.Some? && AtMost(prev.value, cur) then Minus(cur, prev.value) else cur
  }

  function Baseline(prev: Baselines, ss: seq<Sample>): Baselines
    decreases |ss|
  {
    if ss == [] then prev
    else Baseline(prev, ss[..|ss| - 1])[ss[|ss| - 1].key := ss[|ss| - 1].cur]
  }

  /** Which samples an exported counter adds up. */
  datatype Group = All | OfProto(proto: Proto) | OfService(service: Service)

  predicate In(s: Sample, g: Group) {
    match g
    case All => true
    case OfProto(p) => s.key.proto == p
    case OfService(n) => s.service == n
  }

  /** The two counters of an end point are exported separately. */
  datatype Unit = Packets | Bytes

  function Amount(s: Stats, u: Unit): nat { if u == Packets then s.packets else s.bytes }

  /** What the samples of a group add up to. */
  function Increase(prev: Baselines, ss: seq<Sample>, g: Group, u: Unit): nat
    decreases |ss|
  {
    if ss == [] then 0
    else
      var init, s := ss[..|ss| - 1], ss[|ss| - 1];
      Increase(prev, init, g, u) + if In(s, g) then Amount(Delta(Look(Baseline(prev, init), s.key), s.cur), u) else 0
  }

  function Keys(ss: seq<Sample>): set<Key> { set s | s in ss :: s.key }

  /** Baselines of end points that were not sampled are dropped. */
  function Remembered(prev: Baselines, ss: seq<Sample>): Baselines {
    map k | k in Baseline(prev, ss) && k in Keys(ss) :: Baseline(prev, ss)[k]
  }

  /** The first sweep exports nothing. */
  function Raised(first: bool, value: nat, increase: nat): nat { if first then value else value + increase }

  function Get<T>(m: map<T, nat>, x: T): nat { if x in m then m[x] else 0 }

  function AddTo<T>(m: map<T, nat>, x: T, n: nat): map<T, nat> { m[x := Get(m, x) + n] }

  /** The sums of a sweep in one unit. */
  datatype Sheet = Sheet(total: nat, protos: map<Proto, nat>, services: map<Service, nat>)

  const BLANK := Sheet(0, map[], map[])

  /** The exported counters of one unit. */
  datatype Counters = Counters(processed: nat, tcp: nat, udp: nat, sctp: nat, services: map<Service, nat>) {
    function Value(g: Group): nat {
      match g
      case All => processed
      case OfProto(p) => (match p case Tcp => tcp case Udp => udp case Sctp => sctp case Other(_) => 0)
      case OfService(n) => Get(services, n)
    }
  }

  /** The groups for which a counter is exported. */
  predicate ExportedGroup(g: Group) {
    match g
    case All => true
    case OfProto(p) => !p.Other?
    case OfService(n) => n.Named?
  }

  class Collector {
    var prev: Baselines
    var first: bool
    var packets: Counters
    var bytes: Counters

    constructor ()
      ensures prev == map[] && first
      ensures packets == bytes == Counters(0, 0, 0, 0, map[])
    {
      prev, first := map[], true;
      packets, bytes := Counters(0, 0, 0, 0, map[]), Counters(0, 0, 0, 0, map[]);
    }

    function Exported(u: Unit): Counters
      reads this
    {
      if u == Packets then packets else bytes
    }

    /** Sample the end points of one rule. */
    method CollectRule(rule: Rule, seed: bool, prev0: Baselines, current0: set<Key>, packets0: Sheet, bytes0: Sheet,
                       ghost was: Baselines, ghost ss: seq<Sample>)
      returns (prev: Baselines, current: set<Key>, packets: Sheet, bytes: Sheet)
      requires Sampled(was, ss, seed, prev0, current0, packets0, bytes0)
      ensures Sampled(was, ss + RuleSamples(rule, rule.eps), seed, prev, current, packets, bytes)
    {
      prev, current, packets, bytes := prev0, current0, packets0, bytes0;
      assert ss + [] == ss;
      for j := 0 to |rule.eps|
        invariant Sampled(was, ss + RuleSamples(rule, rule.eps[..j]), seed, prev, current, packets, bytes)
      {
        var ep := rule.eps[j];
        assert rule.eps[..j + 1][..j] == rule.eps[..j];
        if ep.counters.None? {
          continue;
        }
        var cur := ep.counters.value;
        var key := Key(rule.servIP, rule.servPort, rule.block, ProtoOf(rule.proto), ep.ip, ep.port);
        var svc := ServiceOf(rule.name);
        SampleOne(was, ss, RuleSamples(rule, rule.eps[..j]), Sample(key, svc, cur), seed, prev, current, packets, bytes);
        var delta := cur;
        if key in prev && AtMost(prev[key], cur) {
          delta := Minus(cur, prev[key]);
        }
        prev, current := prev[key := cur], current + {key};
        if seed {
          continue;
        }
        packets := Enter(packets, key.proto, svc, delta.packets);
        bytes := Enter(bytes, key.proto, svc, delta.bytes);
      }
      assert rule.eps[..|rule.eps|] == rule.eps;
    }

    method AddAll(m: map<Service, nat>, d: map<Service, nat>) returns (r: map<Service, nat>)
      ensures forall n :: Get(r, n) == Get(m, n) + Get(d, n)
    {
      r := m;
      var todo := d.Keys;
      while todo != {}
        invariant todo <= d.Keys
        invariant forall n :: n in todo ==> Get(r, n) == Get(m, n)
        invariant forall n :: n !in todo ==> Get(r, n) == Get(m, n) + Get(d, n)
      {
        var n :| n in todo;
        todo := todo - {n};
        r := AddTo(r, n, d[n]);
      }
    }

    method Publish(c: Counters, sheet: Sheet) returns (r: Counters)
      ensures forall g :: ExportedGroup(g) ==> r.Value(g) == c.Value(g) + SheetValue(sheet, g)
    {
      var services := AddAll(c.services, sheet.services);
      r := Counters(c.processed + sheet.total,
                    c.tcp + Get(sheet.protos, Tcp),
                    c.udp + Get(sheet.protos, Udp),
                    c.sctp + Get(sheet.protos, Sctp),
                    services);
    }

    /**
    The first sweep only takes baselines; later sweeps add the increase of every
    sampled counter to its groups: all traffic, the three exported protocols and
    every named service.
    */
    method CollectLbRuleTraffic(info: seq<Rule>)
      modifies this
      ensures prev == Remembered(old(prev), Samples(info))
      ensures !first
      ensures packets.processed == Raised(old(first), old(packets.processed), Increase(old(prev), Samples(info), All, Packets))
      ensures bytes.processed == Raised(old(first), old(bytes.processed), Increase(old(prev), Samples(info), All, Bytes))
      ensures forall g, u :: ExportedGroup(g) ==>
        Exported(u).Value(g) == Raised(old(first), old(Exported(u)).Value(g), Increase(old(prev), Samples(info), g, u))
    {
      var seed := first;
      var baselines, current, packetSheet, byteSheet := prev, {}, BLANK, BLANK;
      for i := 0 to |info|
        invariant unchanged(this)
        invariant Sampled(old(prev), Samples(info[..i]), seed, baselines, current, packetSheet, byteSheet)
      {
        baselines, current, packetSheet, byteSheet :=
          CollectRule(info[i], seed, baselines, current, packetSheet, byteSheet, old(prev), Samples(info[..i]));
        assert info[..i + 1][..i] == info[..i];
      }
      assert info[..|info|] == info;
      prev := map k | k in baselines && k in current :: baselines[k];
      first := false;
      if seed {
        return;
      }
      packets := Publish(packets, packetSheet);
      bytes := Publish(bytes, byteSheet);
      assert packets.Value(All) == packets.processed && bytes.Value(All) == bytes.processed;
    }
  }

  /** Which counter shows which group. */
  lemma CountersByName(c: Counters, n: Service)
    ensures c.Value(All) == c.processed && c.Value(OfProto(Tcp)) == c.tcp && c.Value(OfProto(Udp)) == c.udp
    ensures c.Value(OfProto(Sctp)) == c.sctp && c.Value(OfService(n)) == if n in c.services then c.services[n] else 0
  {
  }

  lemma OneSample(r: Rule, e: Ep)
    requires r.eps == [e] && e.counters.Some?
    ensures Samples([r]) == [Sample(KeyOf(r, e), ServiceOf(r.name), e.counters.value)]
  {
    assert [r][..0] == [] && r.eps[..0] == [];
    assert RuleSamples(r, []) == [] && Samples([]) == [];
  }

  lemma IncreaseOfOne(s: Sample, g: Group, u: Unit)
    requires In(s, g)
    ensures Increase(map[], [s], g, u) == Amount(s.cur, u)
  {
    assert [s][..0] == [];
    assert Increase(map[], [], g, u) == 0;
  }

  /** A sweep that meets one new end point adds its packets and its bytes to its groups. */
  lemma NewEndPointIsExported(r: Rule, e: Ep, g: Group)
    requires r.eps == [e] && e.counters.Some?
    requires g == All || g == OfProto(ProtoOf(r.proto)) || g == OfService(ServiceOf(r.name))
    ensures Increase(map[], Samples([r]), g, Packets) == e.counters.value.packets
    ensures Increase(map[], Samples([r]), g, Bytes) == e.counters.value.bytes
  {
    var s := Sample(KeyOf(r, e), ServiceOf(r.name), e.counters.value);
    OneSample(r, e);
    IncreaseOfOne(s, g, Packets);
    IncreaseOfOne(s, g, Bytes);
  }

  function SheetValue(sheet: Sheet, g: Group): nat {
    match g
    case All => sheet.total
    case OfProto(p) => Get(sheet.protos, p)
    case OfService(n) => Get(sheet.services, n)
  }

  /** Enter an increase on the sheet. */
  function Enter(sheet: Sheet, p: Proto, n: Service, d: nat): Sheet {
    Sheet(sheet.total + d,
          AddTo(sheet.protos, p, d),
          if n.Unnamed? then sheet.services else AddTo(sheet.services, n, d))
  }

  ghost predicate Sampled(was: Baselines, ss: seq<Sample>, seed: bool,
                          prev: Baselines, current: set<Key>, packets: Sheet, bytes: Sheet)
  {
    && prev == Baseline(was, ss)
    && current == Keys(ss)
    && (!seed ==> Summed(was, ss, packets, Packets) && Summed(was, ss, bytes, Bytes))
  }

  ghost predicate Summed(was: Baselines, ss: seq<Sample>, sheet: Sheet, u: Unit) {
    forall g :: ExportedGroup(g) ==> SheetValue(sheet, g) == Increase(was, ss, g, u)
  }

  lemma SampleOne(was: Baselines, ss: seq<Sample>, more: seq<Sample>, s: Sample, seed: bool,
                  prev: Baselines, current: set<Key>, packets: Sheet, bytes: Sheet)
    requires Sampled(was, ss + more, seed, prev, current, packets, bytes)
    ensures var d := Delta(Look(prev, s.key), s.cur);
            Sampled(was, ss + (more + [s]), seed, prev[s.key := s.cur], current + {s.key},
                    if seed then packets else Enter(packets, s.key.proto, s.service, d.packets),
                    if seed then bytes else Enter(bytes, s.key.proto, s.service, d.bytes))
  {
    var all := ss + more;
    assert ss + (more + [s]) == all + [s];
    assert (all + [s])[..|all|] == all;
    if !seed {
      EnterOne(was, all, s, packets, Packets);
      EnterOne(was, all, s, bytes, Bytes);
    }
  }

  lemma EnterOne(was: Baselines, ss: seq<Sample>, s: Sample, sheet: Sheet, u: Unit)
    requires Summed(was, ss, sheet, u)
    ensures var d := Delta(Look(Baseline(was, ss), s.key), s.cur);
            Summed(was, ss + [s], Enter(sheet, s.key.proto, s.service, Amount(d, u)), u)
  {
    assert (ss + [s])[..|ss|] == ss;
  }
}
