/**
The distributions of traffic over the end points of each service and over the
services, read from the store of labelled metrics. Ratios are exact; dividing by
a total of zero gives no number.
*/
module TrafficDist {
  import opened Common
  import opened LabelKeys
  import opened SharedMetrics
  import opened Sums

  datatype Ratio = Finite(r: real) | NotFinite

  datatype Share = Share(value: nat, ratio: Ratio)

  function RatioOf(part: nat, total: nat): Ratio {
    if total == 0 then NotFinite else Finite(part as real / total as real)
  }

  /** A ratio is the part of the total that its value is. */
  lemma RatioIsPart(part: nat, total: nat)
    ensures total > 0 ==> RatioOf(part, total).Finite? && RatioOf(part, total).r * (total as real) == part as real
    ensures total == 0 ==> RatioOf(part, total).NotFinite?
  {
  }

  function Get(m: map<string, nat>, s: string): nat { if s in m then m[s] else 0 }

  function Put(m: map<string, nat>, s: string, n: nat): map<string, nat> { m[s := Get(m, s) + n] }

  type Nested = map<string, map<string, nat>>

  function GetDip(m: Nested, s: string, d: string): nat { if s in m then Get(m[s], d) else 0 }

  /** The readers select by the stored text, not by the name. */
  function BucketAt(data: Data, k: string): Bucket
    requires k in data
  {
    if HasPrefix(k, PREFIX) then At(ServiceOf(data[k].labels), DipOf(data[k].labels)) else Ignored
  }

  function PartAt(data: Data, q: Query, k: string): nat {
    if k in data then Part(BucketAt(data, k), q, data[k].value) else 0
  }

  ghost function Parts(data: Data, q: Query): string -> nat { k => PartAt(data, q, k) }

  /** The answer that the given entries give to a query. */
  ghost function TotalIn(data: Data, done: set<string>, q: Query): nat { Sum(done, Parts(data, q)) }

  /** Selecting by text is selecting by name. */
  lemma PartsAreStored(data: Data, q: Query)
    requires Keyed(data)
    ensures TotalIn(data, data.Keys, q) == Sum(data.Keys, Stored(data, q))
  {
    forall k | k in data ensures Parts(data, q)(k) == Stored(data, q)(k) {
      assert HasPrefix(k, PREFIX) <==> Relevant(data[k].name);
    }
    SumCongruent(data.Keys, Parts(data, q), Stored(data, q));
  }

  // ----------------------------------------------------------- adding up entries

  function Answer(service: map<string, nat>, dips: Nested, q: Query): nat {
    match q
    case OfService(s) => Get(service, s)
    case OfDip(s, d) => GetDip(dips, s, d)
  }

  /** The sums over the entries done so far. */
  ghost predicate Collected(data: Data, done: set<string>, service: map<string, nat>, dips: Nested) {
    forall q :: Answer(service, dips, q) == TotalIn(data, done, q)
  }

  /** The end points listed are those of some entry. */
  ghost predicate Listed(data: Data, done: set<string>, service: map<string, nat>, dips: Nested)
    requires done <= data.Keys
  {
    && service.Keys == dips.Keys
    && (forall k :: k in done && BucketAt(data, k).At? ==> Lists(dips, BucketAt(data, k).service, BucketAt(data, k).dip))
    && (forall s, d :: Lists(dips, s, d) ==> exists k :: k in done && BucketAt(data, k) == At(s, d))
    && (forall s :: s in dips ==> dips[s] != map[])
  }

  predicate Lists(dips: Nested, s: string, d: string) { s in dips && d in dips[s] }

  /** Add one entry to the tables. */
  method AddEntry(service: map<string, nat>, dips: Nested, s: string, d: string, n: nat)
    returns (service': map<string, nat>, dips': Nested)
    requires service.Keys == dips.Keys
    ensures forall q :: Answer(service', dips', q) == Answer(service, dips, q) + Part(At(s, d), q, n)
    ensures service'.Keys == dips'.Keys
    ensures forall x, y :: Lists(dips', x, y) <==> Lists(dips, x, y) || (x == s && y == d)
    ensures forall x :: x in dips' ==> (x in dips && dips'[x] == dips[x]) || (x == s && d in dips'[x])
  {
    service', dips' := service, dips;
    if s !in service' {
      service' := service'[s := 0];
      dips' := dips'[s := map[]];
    }
    service' := service'[s := service'[s] + n];
    dips' := dips'[s := Put(dips'[s], d, n)];
  }

  method Collect(data: Data) returns (service: map<string, nat>, dips: Nested)
    ensures Collected(data, data.Keys, service, dips) && Listed(data, data.Keys, service, dips)
  {
    service, dips := map[], map[];
    var todo := data.Keys;
    while todo != {}
      invariant todo <= data.Keys
      invariant Collected(data, data.Keys - todo, service, dips)
      invariant Listed(data, data.Keys - todo, service, dips)
    {
      var k :| k in todo;
      ghost var done := data.Keys - todo;
      todo := todo - {k};
      assert data.Keys - todo == done + {k};
      if HasPrefix(k, PREFIX) {
        var s, d := ServiceOf(data[k].labels), DipOf(data[k].labels);
        ghost var service0, dips0 := service, dips;
        service, dips := AddEntry(service, dips, s, d, data[k].value);
        CollectOne(data, done, k, service0, dips0, service, dips);
        ListOne(data, done, k, service0, dips0, service, dips);
      } else {
        CollectOne(data, done, k, service, dips, service, dips);
      }
    }
    assert data.Keys - {} == data.Keys;
  }

  lemma CollectOne(data: Data, done: set<string>, k: string, service: map<string, nat>, dips: Nested,
                   service': map<string, nat>, dips': Nested)
    requires k in data && k !in done && Collected(data, done, service, dips)
    requires forall q :: Answer(service', dips', q) == Answer(service, dips, q) + Part(BucketAt(data, k), q, data[k].value)
    ensures Collected(data, done + {k}, service', dips')
  {
    forall q ensures Answer(service', dips', q) == Sum(done + {k}, Parts(data, q)) {
      SumInsert(done, Parts(data, q), k);
    }
  }

  lemma ListOne(data: Data, done: set<string>, k: string, service: map<string, nat>, dips: Nested,
                service': map<string, nat>, dips': Nested)
    requires done <= data.Keys && k in data && BucketAt(data, k).At? && Listed(data, done, service, dips)
    requires service'.Keys == dips'.Keys
    requires var b := BucketAt(data, k);
             && (forall x, y :: Lists(dips', x, y) <==> Lists(dips, x, y) || (x == b.service && y == b.dip))
             && (forall x :: x in dips' ==> (x in dips && dips'[x] == dips[x]) || (x == b.service && b.dip in dips'[x]))
    ensures Listed(data, done + {k}, service', dips')
  {
    forall s, d | Lists(dips', s, d) ensures exists j :: j in done + {k} && BucketAt(data, j) == At(s, d) {
      if Lists(dips, s, d) {
        var j :| j in done && BucketAt(data, j) == At(s, d);
        assert j in done + {k};
      } else {
        assert k in done + {k} && BucketAt(data, k) == At(s, d);
      }
    }
  }

  // -------------------------------------------------------------------- readers

  /** The share of an end point of a service. */
  ghost function DipShare(data: Data, s: string, d: string): Share {
    var part := TotalIn(data, data.Keys, OfDip(s, d));
    Share(part, RatioOf(part, TotalIn(data, data.Keys, OfService(s))))
  }

  /** Exactly the end points that occur, each with its value and its share of the service's total. */
  ghost predicate EpDist(data: Data, metrics: map<string, map<string, Share>>) {
    && (forall s, d :: s in metrics && d in metrics[s] ==> metrics[s][d] == DipShare(data, s, d))
    && (forall k :: k in data && BucketAt(data, k).At? ==>
          BucketAt(data, k).service in metrics && BucketAt(data, k).dip in metrics[BucketAt(data, k).service])
    && (forall s, d :: s in metrics && d in metrics[s] ==> exists k :: k in data && BucketAt(data, k) == At(s, d))
    && (forall s :: s in metrics ==> metrics[s] != map[])
  }

  method GetEpDistTrafficVecSM(data: Data) returns (metrics: map<string, map<string, Share>>)
    ensures EpDist(data, metrics)
  {
    var service, dips := Collect(data);
    metrics := map s | s in service :: map d | d in dips[s] :: Share(dips[s][d], RatioOf(dips[s][d], service[s]));
    forall s | s in metrics ensures metrics[s] != map[] {
      assert metrics[s].Keys == dips[s].Keys && dips[s].Keys != {};
    }
    forall s, d | s in metrics && d in metrics[s]
      ensures metrics[s][d] == DipShare(data, s, d)
      ensures exists k :: k in data && BucketAt(data, k) == At(s, d)
    {
      assert Answer(service, dips, OfDip(s, d)) == dips[s][d] && Answer(service, dips, OfService(s)) == service[s];
      assert Lists(dips, s, d);
    }
    forall k | k in data && BucketAt(data, k).At?
      ensures BucketAt(data, k).service in metrics && BucketAt(data, k).dip in metrics[BucketAt(data, k).service]
    {
      assert Lists(dips, BucketAt(data, k).service, BucketAt(data, k).dip);
    }
  }

  ghost function Gets(service: map<string, nat>): string -> nat { s => Get(service, s) }

  /** The traffic of all services. */
  method SumAll(service: map<string, nat>) returns (total: nat)
    ensures total == Sum(service.Keys, Gets(service))
  {
    total := 0;
    var todo := service.Keys;
    ghost var f := Gets(service);
    while todo != {}
      invariant todo <= service.Keys && total + Sum(todo, f) == Sum(service.Keys, f)
    {
      var s :| s in todo;
      SumRemove(todo, f, s);
      todo := todo - {s};
      total := total + service[s];
    }
  }

  /** The services some entry counts for. */
  ghost function Services(data: Data): set<string> {
    set k | k in data && BucketAt(data, k).At? :: BucketAt(data, k).service
  }

  ghost function ServiceTotals(data: Data): string -> nat { s => TotalIn(data, data.Keys, OfService(s)) }

  ghost function AllTraffic(data: Data): nat { Sum(Services(data), ServiceTotals(data)) }

  /** Exactly the services that occur, each with its value and its share of the traffic of all services. */
  ghost predicate ServiceDist(data: Data, metrics: map<string, Share>) {
    && metrics.Keys == Services(data)
    && forall s :: s in metrics ==>
         metrics[s] == Share(ServiceTotals(data)(s), RatioOf(ServiceTotals(data)(s), AllTraffic(data)))
  }

  method GetServiceDistTrafficVecSM(data: Data) returns (metrics: map<string, Share>)
    ensures ServiceDist(data, metrics)
  {
    var service, dips := Collect(data);
    ServicesCollected(data, service, dips);
    var total := SumAll(service);
    metrics := Divide(service, total);
  }

  method Divide(service: map<string, nat>, total: nat) returns (metrics: map<string, Share>)
    ensures metrics.Keys == service.Keys
    ensures forall s :: s in metrics ==> metrics[s] == Share(service[s], RatioOf(service[s], total))
  {
    metrics := map s | s in service :: Share(service[s], RatioOf(service[s], total));
  }

  lemma ServiceKeys(data: Data, service: map<string, nat>, dips: Nested)
    requires Listed(data, data.Keys, service, dips)
    ensures service.Keys == Services(data)
  {
    forall s | s in service ensures s in Services(data) {
      assert dips[s].Keys != {};
      var d :| d in dips[s].Keys;
      assert Lists(dips, s, d);
      var k :| k in data.Keys && BucketAt(data, k) == At(s, d);
    }
  }

  lemma ServicesCollected(data: Data, service: map<string, nat>, dips: Nested)
    requires Collected(data, data.Keys, service, dips) && Listed(data, data.Keys, service, dips)
    ensures service.Keys == Services(data)
    ensures forall s :: s in service ==> service[s] == ServiceTotals(data)(s)
    ensures Sum(service.Keys, Gets(service)) == AllTraffic(data)
  {
    ServiceKeys(data, service, dips);
    forall s ensures Get(service, s) == ServiceTotals(data)(s) {
      assert Answer(service, dips, OfService(s)) == Get(service, s);
    }
    SumCongruent(service.Keys, Gets(service), ServiceTotals(data));
  }

  // ---------------------------------------------------------------- conservation

  ghost function DipTotals(data: Data, done: set<string>, s: string): string -> nat {
    d => TotalIn(data, done, OfDip(s, d))
  }

  /** The values of a service's end points add up to the value of the service. */
  lemma {:induction false} DipsAddUp(data: Data, done: set<string>, s: string, dips: set<string>)
    requires done <= data.Keys
    requires forall k :: k in done && BucketAt(data, k).At? && BucketAt(data, k).service == s ==> BucketAt(data, k).dip in dips
    ensures Sum(dips, DipTotals(data, done, s)) == TotalIn(data, done, OfService(s))
    decreases done
  {
    if done == {} {
      SumOnes(dips, {}, DipTotals(data, done, s));
    } else {
      var k :| k in done;
      var rest := done - {k};
      DipsAddUp(data, rest, s, dips);
      SumRemove(done, Parts(data, OfService(s)), k);
      forall d ensures DipTotals(data, done, s)(d) == DipTotals(data, rest, s)(d) + PartAt(data, OfDip(s, d), k) {
        SumRemove(done, Parts(data, OfDip(s, d)), k);
      }
      DipsOne(data, k, s, dips, DipTotals(data, rest, s), DipTotals(data, done, s));
    }
  }

  lemma DipsOne(data: Data, k: string, s: string, dips: set<string>, f: string -> nat, g: string -> nat)
    requires k in data
    requires forall d :: g(d) == f(d) + PartAt(data, OfDip(s, d), k)
    requires BucketAt(data, k).At? && BucketAt(data, k).service == s ==> BucketAt(data, k).dip in dips
    ensures Sum(dips, g) == Sum(dips, f) + PartAt(data, OfService(s), k)
  {
    var b := BucketAt(data, k);
    if b.At? && b.service == s {
      SumChange(dips, f, g, b.dip, data[k].value);
    } else {
      SumCongruent(dips, f, g);
    }
  }

  ghost function SumReal(s: set<string>, f: string -> real): real {
    if s == {} then 0.0 else var x :| x in s; f(x) + SumReal(s - {x}, f)
  }

  ghost function Shares(f: string -> nat, total: nat): string -> real
    requires total > 0
  {
    x => f(x) as real / total as real
  }

  lemma DivAdds(a: real, b: real, t: real)
    requires t > 0.0
    ensures a / t + b / t == (a + b) / t
  {
  }

  /** Shares of a positive total add up to the parts' share of it. */
  lemma {:induction false} SharesAddUp(s: set<string>, f: string -> nat, total: nat)
    requires total > 0
    ensures SumReal(s, Shares(f, total)) == Sum(s, f) as real / total as real
    decreases s
  {
    if s != {} {
      var x :| x in s && SumReal(s, Shares(f, total)) == Shares(f, total)(x) + SumReal(s - {x}, Shares(f, total));
      SharesAddUp(s - {x}, f, total);
      SumRemove(s, f, x);
      DivAdds(f(x) as real, Sum(s - {x}, f) as real, total as real);
    }
  }

  lemma WholeIsOne(s: set<string>, f: string -> nat, total: nat)
    requires total > 0 && total == Sum(s, f)
    ensures SumReal(s, Shares(f, total)) == 1.0
  {
    SharesAddUp(s, f, total);
    DivSelf(total as real);
  }

  lemma DivSelf(t: real)
    requires t > 0.0
    ensures t / t == 1.0
  {
  }

  /** The ratios of a result, none counting as nothing. */
  ghost function Ratios(m: map<string, Share>): string -> real {
    x => if x in m && m[x].ratio.Finite? then m[x].ratio.r else 0.0
  }

  lemma {:induction false} SumRealCongruent(s: set<string>, f: string -> real, g: string -> real)
    requires forall x :: x in s ==> f(x) == g(x)
    ensures SumReal(s, f) == SumReal(s, g)
    decreases s
  {
    if s != {} {
      var x :| x in s && SumReal(s, f) == f(x) + SumReal(s - {x}, f);
      SumRealCongruent(s - {x}, f, g);
      SumRealRemove(s, g, x);
    }
  }

  lemma {:induction false} SumRealRemove(s: set<string>, f: string -> real, x: string)
    requires x in s
    ensures SumReal(s, f) == f(x) + SumReal(s - {x}, f)
    decreases s
  {
    var y :| y in s && SumReal(s, f) == f(y) + SumReal(s - {y}, f);
    if y != x {
      SumRealRemove(s - {y}, f, x);
      SumRealRemove(s - {x}, f, y);
      assert s - {x} - {y} == s - {y} - {x};
    }
  }

  /** If the values of a result are the parts of a positive total, its ratios add up to 1. */
  lemma RatiosAddUp(m: map<string, Share>, f: string -> nat, total: nat)
    requires total > 0 && total == Sum(m.Keys, f)
    requires forall x :: x in m ==> m[x].ratio == RatioOf(f(x), total)
    ensures SumReal(m.Keys, Ratios(m)) == 1.0
  {
    WholeIsOne(m.Keys, f, total);
    SumRealCongruent(m.Keys, Ratios(m), Shares(f, total));
  }

  /** The ratios of a service's end points add up to 1 if the service had traffic, and are no numbers otherwise. */
  lemma EndpointRatiosAddUp(data: Data, metrics: map<string, map<string, Share>>, s: string)
    requires EpDist(data, metrics) && s in metrics
    ensures TotalIn(data, data.Keys, OfService(s)) > 0 ==> SumReal(metrics[s].Keys, Ratios(metrics[s])) == 1.0
    ensures TotalIn(data, data.Keys, OfService(s)) == 0 ==> forall d :: d in metrics[s] ==> metrics[s][d].ratio.NotFinite?
  {
    var total := TotalIn(data, data.Keys, OfService(s));
    DipsAddUp(data, data.Keys, s, metrics[s].Keys);
    if total > 0 {
      RatiosAddUp(metrics[s], DipTotals(data, data.Keys, s), total);
    }
  }

  /** The ratios of the services add up to 1 if there was traffic, and are no numbers otherwise. */
  lemma ServiceRatiosAddUp(data: Data, metrics: map<string, Share>)
    requires ServiceDist(data, metrics)
    ensures AllTraffic(data) > 0 ==> SumReal(metrics.Keys, Ratios(metrics)) == 1.0
    ensures AllTraffic(data) == 0 ==> forall s :: s in metrics ==> metrics[s].ratio.NotFinite?
  {
    if AllTraffic(data) > 0 {
      RatiosAddUp(metrics, ServiceTotals(data), AllTraffic(data));
    }
  }

  /** After every run of proper calls the readers' sums are the sums of the increments. */
  lemma ReadersSumIncrements(calls: seq<Call>, q: Query)
    requires Proper(calls)
    ensures TotalIn(Run(calls), Run(calls).Keys, q) == Total(Increments(calls), q)
  {
    RunShows(calls);
    PartsAreStored(Run(calls), q);
  }

  /** After every run of the program's calls, with any labels anywhere, the readers' sums are those of the increments. */
  lemma ProgramReadersSumIncrements(calls: seq<Call>, q: Query)
    requires forall j :: 0 <= j < |calls| ==> FromProgram(calls[j])
    ensures Proper(calls) && TotalIn(Run(calls), Run(calls).Keys, q) == Total(Increments(calls), q)
  {
    ProgramCallsAreProper(calls);
    ReadersSumIncrements(calls, q);
  }
}
