/**
The store of labelled metrics and the traffic distributions read from it. The
text of a metric depends on the order in which its labels are yielded, so one
set of labels may be stored under several texts; the distributions add them up.
*/
module SharedMetrics {
  import opened Common
  import opened LabelKeys
  import opened Sums
  import opened FlowKeys
  import Text

  datatype Metric = Metric(name: string, value: nat, labels: Labels)

  type Data = map<string, Metric>

  const PREFIX := "lb_rule_interaction_bytes"

  /** The service a metric counts for; unnamed ones share the name "default". */
  function ServiceOf(labels: Labels): string {
    if "service" !in labels || labels["service"] == "" || labels["service"] == "-" then "default" else labels["service"]
  }

  function DipOf(labels: Labels): string { if "dip" in labels then labels["dip"] else "" }

  /** Where the distributions count an amount. */
  datatype Bucket = Ignored | At(service: string, dip: string)

  function BucketOf(name: string, labels: Labels): Bucket {
    if HasPrefix(name, PREFIX) then At(ServiceOf(labels), DipOf(labels)) else Ignored
  }

  /** What is asked for: all traffic of a service, or that to one of its end points. */
  datatype Query = OfService(service: string) | OfDip(service: string, dip: string)

  predicate Answers(b: Bucket, q: Query) {
    b.At? && b.service == q.service && (q.OfDip? ==> b.dip == q.dip)
  }

  // ------------------------------------------------------------------ the store

  datatype Increment = Increment(name: string, labels: Labels, amount: nat)

  /** One call, with the order in which it yields the labels. */
  function Added(data: Data, i: Increment, order: seq<string>): Data
    requires Covers(order, i.labels)
  {
    var key := LabelsKey(i.name, i.labels, order);
    data[key := if key in data then data[key].(value := data[key].value + i.amount) else Metric(i.name, i.amount, i.labels)]
  }

  class Store {
    var data: Data

    constructor ()
      ensures data == map[]
    {
      data := map[];
    }

    method AddLabeledMetric(name: string, labels: Labels, order: seq<string>, increment: nat)
      requires Enumerates(order, labels.Keys)
      modifies this
      ensures data == Added(old(data), Increment(name, labels, increment), order)
    {
      var key := GenerateLabelsKey(name, labels, order);
      if key in data {
        data := data[key := data[key].(value := data[key].value + increment)];
      } else {
        data := data[key := Metric(name, increment, labels)];
      }
    }

    method GenerateLabelsKey(name: string, labels: Labels, order: seq<string>) returns (key: string)
      requires Enumerates(order, labels.Keys)
      ensures key == LabelsKey(name, labels, order)
    {
      key := name;
      for i := 0 to |order|
        invariant key == LabelsKey(name, labels, order[..i])
      {
        assert order[..i + 1][..i] == order[..i];
        key := key + ['|'] + (order[i] + ['='] + labels[order[i]]);
      }
      assert order[..|order|] == order;
    }
  }

  // ---------------------------------------------------------------- what it says

  function Part(b: Bucket, q: Query, n: nat): nat { if Answers(b, q) then n else 0 }

  function StoredAt(data: Data, q: Query, k: string): nat {
    if k in data then Part(BucketOf(data[k].name, data[k].labels), q, data[k].value) else 0
  }

  ghost function Stored(data: Data, q: Query): string -> nat { k => StoredAt(data, q, k) }

  function Total(log: seq<Increment>, q: Query): nat {
    if log == [] then 0
    else var i := log[|log| - 1];
         Total(log[..|log| - 1], q) + Part(BucketOf(i.name, i.labels), q, i.amount)
  }

  /** The stored values answer every query as the increments do. */
  ghost predicate Shows(data: Data, log: seq<Increment>) {
    forall q :: Sum(data.Keys, Stored(data, q)) == Total(log, q)
  }

  /** The metric under which a call counts its amount. */
  function Target(data: Data, i: Increment, order: seq<string>): Bucket
    requires Covers(order, i.labels)
  {
    var key := LabelsKey(i.name, i.labels, order);
    if key in data then BucketOf(data[key].name, data[key].labels) else BucketOf(i.name, i.labels)
  }

  /** A call raises the answers of the bucket it finds under its text. */
  lemma AddRaises(data: Data, i: Increment, order: seq<string>, q: Query)
    requires Covers(order, i.labels)
    ensures var d := Added(data, i, order);
            Sum(d.Keys, Stored(d, q)) == Sum(data.Keys, Stored(data, q)) + Part(Target(data, i, order), q, i.amount)
  {
    var key, d := LabelsKey(i.name, i.labels, order), Added(data, i, order);
    assert d.Keys == data.Keys + {key};
    SumWiden(data.Keys, d.Keys, Stored(data, q));
    SumChange(d.Keys, Stored(data, q), Stored(d, q), key, Part(Target(data, i, order), q, i.amount));
  }

  /**
  A call keeps the store true to the increments exactly if it adds nothing or the
  metric it finds under its text counts for the same service and end point.
  */
  lemma AddKeepsShowsIff(data: Data, log: seq<Increment>, i: Increment, order: seq<string>)
    requires Covers(order, i.labels) && Shows(data, log)
    ensures Shows(Added(data, i, order), log + [i]) <==>
            i.amount == 0 || Target(data, i, order) == BucketOf(i.name, i.labels)
  {
    var d, b, t := Added(data, i, order), BucketOf(i.name, i.labels), Target(data, i, order);
    assert (log + [i])[..|log|] == log;
    forall q ensures Sum(d.Keys, Stored(d, q)) == Total(log + [i], q) <==> Part(t, q, i.amount) == Part(b, q, i.amount) {
      AddRaises(data, i, order, q);
    }
    if Shows(d, log + [i]) && i.amount != 0 {
      SameParts(t, b, i.amount);
    }
  }

  lemma SameParts(t: Bucket, b: Bucket, n: nat)
    requires n != 0 && forall q :: Part(t, q, n) == Part(b, q, n)
    ensures t == b
  {
    if t.At? {
      assert Part(t, OfDip(t.service, t.dip), n) == n;
    }
    if b.At? {
      assert Part(b, OfDip(b.service, b.dip), n) == n;
    }
  }

  // ------------------------------------------------------------------ every run

  /** A metric is stored under one of its own texts. */
  ghost predicate Renders(key: string, m: Metric) {
    Clean(m.name, m.labels) && exists order :: Enumerates(order, m.labels.Keys) && LabelsKey(m.name, m.labels, order) == key
  }

  /** The metric is one the distributions look at. */
  predicate Relevant(name: string) { HasPrefix(name, PREFIX) }

  /** Relevant metrics, and only these, have texts with the prefix, and these are their own. */
  ghost predicate Keyed(data: Data) {
    forall k :: k in data ==>
      (HasPrefix(k, PREFIX) <==> Relevant(data[k].name)) && (Relevant(data[k].name) ==> Renders(k, data[k]))
  }

  lemma AddKeepsKeyed(data: Data, i: Increment, order: seq<string>)
    requires Keyed(data) && (Relevant(i.name) ==> Clean(i.name, i.labels)) && Enumerates(order, i.labels.Keys)
    ensures Keyed(Added(data, i, order))
    ensures Target(data, i, order) == BucketOf(i.name, i.labels)
  {
    var key := LabelsKey(i.name, i.labels, order);
    PrefixIsOfName(i.name, i.labels, order, PREFIX);
    if key in data && Relevant(i.name) {
      var m := data[key];
      var o :| Enumerates(o, m.labels.Keys) && LabelsKey(m.name, m.labels, o) == key;
      KeyDeterminesLabels(m.name, m.labels, o, i.name, i.labels, order);
    }
    var d := Added(data, i, order);
    forall k | k in d
      ensures (HasPrefix(k, PREFIX) <==> Relevant(d[k].name)) && (Relevant(d[k].name) ==> Renders(k, d[k]))
    {
      if k == key && Relevant(i.name) {
        assert d[k].name == i.name && d[k].labels == i.labels;
      }
    }
  }

  datatype Call = Call(increment: Increment, order: seq<string>)

  /** Labels are yielded in some order, and those of relevant metrics are clean. */
  ghost predicate ProperCall(c: Call) {
    && Enumerates(c.order, c.increment.labels.Keys)
    && (Relevant(c.increment.name) ==> Clean(c.increment.name, c.increment.labels))
  }

  ghost predicate Proper(calls: seq<Call>) { forall j :: 0 <= j < |calls| ==> ProperCall(calls[j]) }

  ghost function Run(calls: seq<Call>): Data
    requires Proper(calls)
  {
    if calls == [] then map[]
    else Added(Run(calls[..|calls| - 1]), calls[|calls| - 1].increment, calls[|calls| - 1].order)
  }

  function Increments(calls: seq<Call>): seq<Increment> {
    if calls == [] then [] else Increments(calls[..|calls| - 1]) + [calls[|calls| - 1].increment]
  }

  /**
  After every run of calls, in whatever orders they yield labels and whatever other
  metrics hold, the store answers as the increments do.
  */
  lemma {:induction false} RunShows(calls: seq<Call>)
    requires Proper(calls)
    ensures Keyed(Run(calls)) && Shows(Run(calls), Increments(calls))
  {
    if calls != [] {
      var init, c := calls[..|calls| - 1], calls[|calls| - 1];
      RunShows(init);
      AddKeepsKeyed(Run(init), c.increment, c.order);
      AddKeepsShowsIff(Run(init), Increments(init), c.increment, c.order);
    }
  }

  // -------------------------------------------------- the calls the program makes

  /** The labels of an interaction: fields of a connection key. */
  function InteractionLabels(key: string): Labels {
    var f := ParseConntrackKey(key);
    map["service" := f.service, "sip" := f.sip, "dip" := f.dip]
  }

  /** Fields come from splitting at the separator, so they are free of it. */
  lemma InteractionLabelsAreClean(key: string)
    ensures Clean(PREFIX, InteractionLabels(key))
  {
    Text.SplitPartsFree(key, '|');
    var f := ParseConntrackKey(key);
    assert Text.Free(f.service, '|') && Text.Free(f.sip, '|') && Text.Free(f.dip, '|');
  }

  /** A call by the sweep over connections for one key, or for a metric the distributions do not look at. */
  ghost predicate FromProgram(c: Call) {
    && Enumerates(c.order, c.increment.labels.Keys)
    && (Relevant(c.increment.name) ==>
          c.increment.name == PREFIX && exists key :: c.increment.labels == InteractionLabels(key))
  }

  /**
  Every call the program makes is proper: no separator of a service or an address
  can disturb the distributions. Calls for other metrics may add ratios, which are
  not natural numbers; no distribution reads what they add.
  */
  lemma ProgramCallsAreProper(calls: seq<Call>)
    requires forall j :: 0 <= j < |calls| ==> FromProgram(calls[j])
    ensures Proper(calls)
  {
    forall j | 0 <= j < |calls| ensures ProperCall(calls[j]) {
      var i := calls[j].increment;
      assert FromProgram(calls[j]);
      if Relevant(i.name) {
        var key :| i.labels == InteractionLabels(key);
        InteractionLabelsAreClean(key);
      }
    }
  }

  /** An interaction counts for the connection's service, by default "default", and its end point. */
  lemma InteractionBucket(c: CtInfo)
    requires Separable(c)
    ensures BucketOf("lb_rule_interaction_bytes", InteractionLabels(MakeConntrackKey(c))) ==
            At(if c.service == "" || c.service == "-" then "default" else c.service, c.dip)
    ensures BucketOf("lb_rule_interaction_packets", InteractionLabels(MakeConntrackKey(c))) == Ignored
  {
    ParseInvertsMake(c);
    var p := "lb_rule_interaction_packets";
    assert p[20] == 'p' && PREFIX[20] == 'b';
  }

  /** An amount answers for its own service and end point and for no other. */
  lemma AmountAnswers(i: Increment, q: Query)
    ensures Total([i], q) ==
            match BucketOf(i.name, i.labels)
            case Ignored => 0
            case At(s, d) => if q == OfService(s) || q == OfDip(s, d) then i.amount else 0
  {
    assert [i][..0] == [];
  }
}
