/**
Mirroring the kernel's IPVS services into load-balancer rules: each tick marks
all mirrored entries, confirms those that the snapshot still has with the same
end points, deletes the rest and adds what is missing. The outcomes of the rule
hooks are inputs of a tick.
*/
module Ipvs {
  import opened Common

  datatype Proto = Icmp | Tcp | Udp | Sctp
  datatype Select = RoundRobin | RoundRobinPersist
  datatype Mode = Default | FullNat

  datatype Key = Key(address: string, proto: Proto, port: nat)
  datatype EndPoint = EndPoint(ip: string, port: nat, weight: nat)
  datatype Entry = Entry(key: Key, sel: Select, mode: Mode, timeout: nat, invalid: bool, endPoints: seq<EndPoint>)

  /** A kernel service; `dests` is absent if its destinations could not be read. */
  datatype Dest = Dest(ip: string, port: nat, weight: int)
  datatype Service = Service(address: string, protocol: nat, port: nat, sched: string, flags: nat, timeout: nat,
                             dests: Option<seq<Dest>>)

  /** A load-balancer rule as the hook receives it; every end point weighs 1. */
  datatype Rule = Rule(sel: Select, mode: Mode, timeout: nat, eps: seq<EndPoint>)

  const NODE_PORT_MIN := 30000
  const NODE_PORT_MAX := 32768

  // ------------------------------------------------------------- what is wanted

  function ProtoOf(n: nat): Option<Proto> {
    if n == 1 then Some(Icmp)
    else if n == 6 then Some(Tcp)
    else if n == 17 then Some(Udp)
    else if n == 132 then Some(Sctp)
    else None
  }

  function EndPointOf(d: Dest): EndPoint { EndPoint(d.ip, d.port, d.weight % 256) }

  function EndPoints(ds: seq<Dest>): seq<EndPoint> { seq(|ds|, i requires 0 <= i < |ds| => EndPointOf(ds[i])) }

  /** Round-robin services of a known protocol with at least one destination are mirrored. */
  predicate Eligible(s: Service) {
    s.dests.Some? && s.sched == "rr" && ProtoOf(s.protocol).Some? && |s.dests.value| > 0
  }

  function Mirror(s: Service): Entry
    requires Eligible(s)
  {
    Entry(Key(s.address, ProtoOf(s.protocol).value, s.port),
          if s.flags % 2 == 1 then RoundRobinPersist else RoundRobin,
          if NODE_PORT_MIN <= s.port <= NODE_PORT_MAX then FullNat else Default,
          s.timeout, false, EndPoints(s.dests.value))
  }

  /** The entries a snapshot asks for, in order. */
  function Wanted(svcs: seq<Service>): seq<Entry> {
    if svcs == [] then []
    else
      var init, s := svcs[..|svcs| - 1], svcs[|svcs| - 1];
      if Eligible(s) then Wanted(init) + [Mirror(s)] else Wanted(init)
  }

  /** Protocol numbers that are mirrored. */
  lemma ProtocolsByNumber(n: nat)
    ensures ProtoOf(n) == Some(Icmp) <==> n == 1
    ensures ProtoOf(n) == Some(Tcp) <==> n == 6
    ensures ProtoOf(n) == Some(Udp) <==> n == 17
    ensures ProtoOf(n) == Some(Sctp) <==> n == 132
    ensures ProtoOf(n) == None <==> n !in {1, 6, 17, 132}
  {
  }

  /** Which services are mirrored: round-robin ones of these protocols whose destinations were read and are not empty. */
  lemma EligibleIff(s: Service)
    ensures Eligible(s) <==>
            s.sched == "rr" && s.protocol in {1, 6, 17, 132} && s.dests.Some? && s.dests.value != []
  {
    ProtocolsByNumber(s.protocol);
  }

  /** What is mirrored of a service, field by field. */
  lemma MirrorByField(s: Service)
    requires Eligible(s)
    ensures var e := Mirror(s);
            && e.key.address == s.address && e.key.port == s.port && Some(e.key.proto) == ProtoOf(s.protocol)
            && (e.sel == RoundRobinPersist <==> s.flags % 2 == 1)
            && (e.mode == FullNat <==> 30000 <= s.port <= 32768)
            && e.timeout == s.timeout && !e.invalid && |e.endPoints| == |s.dests.value|
            && forall i :: 0 <= i < |e.endPoints| ==>
                 && e.endPoints[i].ip == s.dests.value[i].ip && e.endPoints[i].port == s.dests.value[i].port
                 && e.endPoints[i].weight == s.dests.value[i].weight % 256
  {
  }

  function WantedOf(snapshot: Option<seq<Service>>): seq<Entry> {
    if snapshot.Some? then Wanted(snapshot.value) else []
  }

  /** Exactly the eligible services are wanted, each by a valid entry. */
  lemma {:induction false} WantedIsEligible(svcs: seq<Service>)
    ensures forall e :: e in Wanted(svcs) <==> exists s :: s in svcs && Eligible(s) && e == Mirror(s)
    ensures forall e :: e in Wanted(svcs) ==> !e.invalid
  {
    if svcs != [] {
      var init, s := svcs[..|svcs| - 1], svcs[|svcs| - 1];
      WantedIsEligible(init);
      assert svcs == init + [s];
    }
  }

  type Mirrored = map<Key, Entry>

  /** The entry is mirrored with the same end points already. */
  predicate Same(m: Mirrored, e: Entry) { e.key in m && m[e.key].endPoints == e.endPoints }

  ghost predicate Confirmed(m: Mirrored, k: Key, ws: seq<Entry>) {
    exists i :: 0 <= i < |ws| && ws[i].key == k && Same(m, ws[i])
  }

  function Missing(m: Mirrored, ws: seq<Entry>): seq<Entry> {
    if ws == [] then []
    else
      var init, e := ws[..|ws| - 1], ws[|ws| - 1];
      if Same(m, e) then Missing(m, init) else Missing(m, init) + [e]
  }

  // ------------------------------------------------------ the state after a tick

  /** The hook calls that fail: deletions by key, additions by position. */
  datatype Faults = Faults(deletes: set<Key>, adds: set<nat>)

  function Unweighted(s: seq<EndPoint>): seq<EndPoint> {
    seq(|s|, i requires 0 <= i < |s| => s[i].(weight := 1))
  }

  function RuleOf(e: Entry): Rule { Rule(e.sel, e.mode, e.timeout, Unweighted(e.endPoints)) }

  /** What is installed for an entry: its attributes and all its end points, in order, each with weight 1. */
  lemma RuleByField(e: Entry)
    ensures RuleOf(e).sel == e.sel && RuleOf(e).mode == e.mode && RuleOf(e).timeout == e.timeout
    ensures |RuleOf(e).eps| == |e.endPoints|
    ensures forall i :: 0 <= i < |e.endPoints| ==> RuleOf(e).eps[i] == EndPoint(e.endPoints[i].ip, e.endPoints[i].port, 1)
  {
  }

  ghost function Confirm(m: Mirrored, ws: seq<Entry>): Mirrored {
    map k | k in m :: m[k].(invalid := m[k].invalid && !Confirmed(m, k, ws))
  }

  ghost function Kept(m: Mirrored, ws: seq<Entry>): Mirrored {
    map k | k in m && Confirmed(m, k, ws) :: m[k].(invalid := false)
  }

  function Extended(m: Mirrored, list: seq<Entry>, fails: set<nat>): Mirrored
    decreases |list|
  {
    if list == [] then m
    else
      var n := |list| - 1;
      var r := Extended(m, list[..n], fails);
      if n in fails then r else r[list[n].key := list[n]]
  }

  type Rules = map<Key, Rule>

  function Installed(rules: Rules, list: seq<Entry>, fails: set<nat>): Rules
    decreases |list|
  {
    if list == [] then rules
    else
      var n := |list| - 1;
      var r := Installed(rules, list[..n], fails);
      if n in fails then r else r[list[n].key := RuleOf(list[n])]
  }

  /** What remains mirrored after a tick. */
  ghost function After(m: Mirrored, ws: seq<Entry>, f: Faults): Mirrored {
    Extended(Kept(m, ws), Missing(m, ws), f.adds)
  }

  ghost function Stale(m: Mirrored, ws: seq<Entry>): set<Key> { set k | k in m && !Confirmed(m, k, ws) }

  /** The rules the hooks have installed after a tick. */
  ghost function RulesAfter(m: Mirrored, rules: Rules, ws: seq<Entry>, f: Faults): Rules {
    Installed(rules - (Stale(m, ws) - f.deletes), Missing(m, ws), f.adds)
  }

  // ------------------------------------------------------------------ the handler

  class IPVSH {
    var rmap: Mirrored
    var rules: Rules
    var calls: nat

    constructor ()
      ensures rmap == map[] && rules == map[] && calls == 0
    {
      rmap, rules, calls := map[], map[], 0;
    }

    method NetLbRuleDel(k: Key, ok: bool)
      modifies this`rules, this`calls
      ensures rules == if ok then old(rules) - {k} else old(rules)
      ensures calls == old(calls) + 1
    {
      if ok {
        rules := rules - {k};
      }
      calls := calls + 1;
    }

    method NetLbRuleAdd(k: Key, rule: Rule, ok: bool)
      modifies this`rules, this`calls
      ensures rules == if ok then old(rules)[k := rule] else old(rules)
      ensures calls == old(calls) + 1
    {
      if ok {
        rules := rules[k := rule];
      }
      calls := calls + 1;
    }

    method BuildIPVSDB(snapshot: Option<seq<Service>>) returns (list: seq<Entry>)
      modifies this`rmap
      ensures rmap == Confirm(old(rmap), WantedOf(snapshot))
      ensures list == Missing(old(rmap), WantedOf(snapshot))
    {
      list := [];
      if snapshot.None? {
        assert Confirm(rmap, []) == rmap;
        return;
      }
      var svcs := snapshot.value;
      ghost var was := rmap;
      assert Confirm(was, []) == was;
      for i := 0 to |svcs|
        invariant rmap == Confirm(was, Wanted(svcs[..i]))
        invariant list == Missing(was, Wanted(svcs[..i]))
      {
        var svc := svcs[i];
        assert svcs[..i + 1][..i] == svcs[..i];
        if svc.dests.None? || svc.sched != "rr" || ProtoOf(svc.protocol).None? {
          continue;
        }
        var eps := CopyEndPoints(svc.dests.value);
        if |eps| != 0 {
          var e := Entry(Key(svc.address, ProtoOf(svc.protocol).value, svc.port),
                         if svc.flags % 2 == 1 then RoundRobinPersist else RoundRobin,
                         if NODE_PORT_MIN <= svc.port <= NODE_PORT_MAX then FullNat else Default,
                         svc.timeout, false, eps);
          ConfirmSnoc(was, Wanted(svcs[..i]), e);
          if e.key in rmap && rmap[e.key].endPoints == e.endPoints {
            rmap := rmap[e.key := rmap[e.key].(invalid := false)];
            continue;
          }
          list := list + [e];
        }
      }
      assert svcs[..|svcs|] == svcs;
    }

    method CopyEndPoints(ds: seq<Dest>) returns (eps: seq<EndPoint>)
      ensures eps == EndPoints(ds)
    {
      eps := [];
      for i := 0 to |ds|
        invariant |eps| == i && forall k :: 0 <= k < i ==> eps[k] == EndPointOf(ds[k])
      {
        eps := eps + [EndPoint(ds[i].ip, ds[i].port, ds[i].weight % 256)];
      }
    }

    method MarkAll()
      modifies this`rmap
      ensures rmap == map k | k in old(rmap) :: old(rmap)[k].(invalid := true)
    {
      var todo := rmap.Keys;
      ghost var was := rmap;
      while todo != {}
        invariant todo <= was.Keys
        invariant rmap == map k | k in was :: if k in todo then was[k] else was[k].(invalid := true)
      {
        var k :| k in todo;
        todo := todo - {k};
        rmap := rmap[k := rmap[k].(invalid := true)];
      }
    }

    method Sweep(fails: set<Key>)
      modifies this
      ensures rmap == map k | k in old(rmap) && !old(rmap)[k].invalid :: old(rmap)[k]
      ensures rules == old(rules) - (Invalid(old(rmap)) - fails)
      ensures calls == old(calls) + |Invalid(old(rmap))|
    {
      ghost var was, had := rmap, rules;
      var todo := rmap.Keys;
      ghost var gone: set<Key> := {};
      while todo != {}
        invariant todo <= was.Keys && gone <= was.Keys && gone !! todo
        invariant forall k :: k in gone <==> k in was && k !in todo && was[k].invalid
        invariant rmap == map k | k in was && k !in gone :: was[k]
        invariant rules == had - (gone - fails)
        invariant calls == old(calls) + |gone|
      {
        var k :| k in todo;
        todo := todo - {k};
        if rmap[k].invalid {
          NetLbRuleDel(k, k !in fails);
          gone := gone + {k};
          rmap := rmap - {k};
        }
      }
      assert gone == Invalid(was);
    }

    method AddAll(list: seq<Entry>, fails: set<nat>)
      modifies this
      ensures rmap == Extended(old(rmap), list, fails)
      ensures rules == Installed(old(rules), list, fails)
      ensures calls == old(calls) + |list|
    {
      for i := 0 to |list|
        invariant rmap == Extended(old(rmap), list[..i], fails)
        invariant rules == Installed(old(rules), list[..i], fails)
        invariant calls == old(calls) + i
      {
        assert list[..i + 1][..i] == list[..i];
        var eps := RuleEndPoints(list[i].endPoints);
        NetLbRuleAdd(list[i].key, Rule(list[i].sel, list[i].mode, list[i].timeout, eps), i !in fails);
        if i in fails {
          continue;
        }
        rmap := rmap[list[i].key := list[i]];
      }
      assert list[..|list|] == list;
    }

    method RuleEndPoints(s: seq<EndPoint>) returns (eps: seq<EndPoint>)
      ensures eps == Unweighted(s)
    {
      eps := [];
      for i := 0 to |s|
        invariant |eps| == i && forall k :: 0 <= k < i ==> eps[k] == s[k].(weight := 1)
      {
        eps := eps + [EndPoint(s[i].ip, s[i].port, 1)];
      }
    }

    /** One tick of the synchronisation. */
    method Tick(snapshot: Option<seq<Service>>, f: Faults)
      modifies this
      ensures rmap == After(old(rmap), WantedOf(snapshot), f)
      ensures rules == RulesAfter(old(rmap), old(rules), WantedOf(snapshot), f)
      ensures calls == old(calls) + |Stale(old(rmap), WantedOf(snapshot))| + |Missing(old(rmap), WantedOf(snapshot))|
    {
      ghost var was, ws := rmap, WantedOf(snapshot);
      MarkAll();
      ghost var marked := rmap;
      MarkIsInvisible(was, marked, ws);
      var list := BuildIPVSDB(snapshot);
      ConfirmedSurvive(was, marked, ws);
      Sweep(f.deletes);
      AddAll(list, f.adds);
    }
  }

  ghost function Invalid(m: Mirrored): set<Key> { set k | k in m && m[k].invalid }

  lemma ConfirmSnoc(m: Mirrored, ws: seq<Entry>, e: Entry)
    ensures Confirm(m, ws + [e]) ==
            if Same(m, e) then Confirm(m, ws)[e.key := Confirm(m, ws)[e.key].(invalid := false)] else Confirm(m, ws)
    ensures Missing(m, ws + [e]) == if Same(m, e) then Missing(m, ws) else Missing(m, ws) + [e]
  {
    var all := ws + [e];
    assert all[..|all| - 1] == ws;
    forall k | k in m ensures Confirmed(m, k, all) <==> Confirmed(m, k, ws) || (e.key == k && Same(m, e)) {
      if Confirmed(m, k, ws) {
        var i :| 0 <= i < |ws| && ws[i].key == k && Same(m, ws[i]);
        assert all[i] == ws[i];
      }
      if e.key == k && Same(m, e) {
        assert all[|ws|] == e;
      }
    }
  }

  /** Marking entries changes neither what is confirmed nor what is missing. */
  lemma {:induction false} MarkIsInvisible(m: Mirrored, marked: Mirrored, ws: seq<Entry>)
    requires marked == map k | k in m :: m[k].(invalid := true)
    ensures Missing(marked, ws) == Missing(m, ws)
  {
    if ws != [] {
      MarkIsInvisible(m, marked, ws[..|ws| - 1]);
    }
  }

  lemma ConfirmedSurvive(m: Mirrored, marked: Mirrored, ws: seq<Entry>)
    requires marked == map k | k in m :: m[k].(invalid := true)
    ensures (map k | k in Confirm(marked, ws) && !Confirm(marked, ws)[k].invalid :: Confirm(marked, ws)[k]) == Kept(m, ws)
    ensures Invalid(Confirm(marked, ws)) == Stale(m, ws)
  {
    forall k | k in m ensures Confirmed(marked, k, ws) <==> Confirmed(m, k, ws) {
      if Confirmed(m, k, ws) {
        var i :| 0 <= i < |ws| && ws[i].key == k && Same(m, ws[i]);
        assert Same(marked, ws[i]);
      }
      if Confirmed(marked, k, ws) {
        var i :| 0 <= i < |ws| && ws[i].key == k && Same(marked, ws[i]);
        assert Same(m, ws[i]);
      }
    }
  }

  // ------------------------------------------------------- what a tick achieves

  ghost predicate DistinctKeys(ws: seq<Entry>) { forall i, j :: 0 <= i < j < |ws| ==> ws[i].key != ws[j].key }

  lemma {:induction false} MissingIsFiltered(m: Mirrored, ws: seq<Entry>)
    ensures forall e :: e in Missing(m, ws) <==> e in ws && !Same(m, e)
    ensures DistinctKeys(ws) ==> DistinctKeys(Missing(m, ws))
  {
    if ws != [] {
      var init, e := ws[..|ws| - 1], ws[|ws| - 1];
      MissingIsFiltered(m, init);
      assert ws == init + [e];
      if DistinctKeys(ws) && !Same(m, e) {
        forall i | 0 <= i < |Missing(m, init)| ensures Missing(m, init)[i].key != e.key {
          assert Missing(m, init)[i] in init;
        }
      }
    }
  }

  lemma {:induction false} ExtendedByAll(m: Mirrored, list: seq<Entry>, k: Key)
    requires DistinctKeys(list)
    ensures forall i :: 0 <= i < |list| && list[i].key == k ==>
      k in Extended(m, list, {}) && Extended(m, list, {})[k] == list[i]
    ensures (forall i :: 0 <= i < |list| ==> list[i].key != k) ==>
      (k in Extended(m, list, {}) <==> k in m) && (k in m ==> Extended(m, list, {})[k] == m[k])
  {
    if list != [] {
      ExtendedByAll(m, list[..|list| - 1], k);
    }
  }

  const NO_FAULTS := Faults({}, {})

  lemma SnapshotEntry(m: Mirrored, ws: seq<Entry>, e: Entry)
    requires DistinctKeys(ws) && e in ws
    ensures e.key in After(m, ws, NO_FAULTS)
    ensures After(m, ws, NO_FAULTS)[e.key] == if Same(m, e) then m[e.key].(invalid := false) else e
  {
    var list := Missing(m, ws);
    MissingIsFiltered(m, ws);
    ExtendedByAll(Kept(m, ws), list, e.key);
    if Same(m, e) {
      assert Confirmed(m, e.key, ws);
      forall j | 0 <= j < |list| ensures list[j].key != e.key {
        assert list[j] in ws && !Same(m, list[j]);
      }
    } else {
      assert e in list;
    }
  }

  lemma NotInSnapshot(m: Mirrored, ws: seq<Entry>, k: Key)
    requires DistinctKeys(ws) && forall e :: e in ws ==> e.key != k
    ensures k !in After(m, ws, NO_FAULTS)
  {
    var list := Missing(m, ws);
    MissingIsFiltered(m, ws);
    ExtendedByAll(Kept(m, ws), list, k);
    forall j | 0 <= j < |list| ensures list[j].key != k {
      assert list[j] in ws;
    }
  }

  /**
  A tick whose hooks all succeed mirrors the snapshot: the mirrored keys are the
  snapshot's, with the snapshot's end points; entries with the same end points
  stay as they were and all others are the snapshot's.
  */
  lemma TickMirrorsSnapshot(m: Mirrored, ws: seq<Entry>, k: Key)
    requires DistinctKeys(ws)
    ensures k in After(m, ws, NO_FAULTS) <==> exists e :: e in ws && e.key == k
    ensures forall e :: e in ws && e.key == k ==>
      After(m, ws, NO_FAULTS)[k] == if Same(m, e) then m[k].(invalid := false) else e
  {
    forall e | e in ws && e.key == k
      ensures k in After(m, ws, NO_FAULTS)
      ensures After(m, ws, NO_FAULTS)[k] == if Same(m, e) then m[k].(invalid := false) else e
    {
      SnapshotEntry(m, ws, e);
    }
    if forall e :: e in ws ==> e.key != k {
      NotInSnapshot(m, ws, k);
    }
  }

  /** The kernel lists no two services with one address, protocol and port. */
  ghost predicate DistinctServices(svcs: seq<Service>) {
    forall i, j :: 0 <= i < j < |svcs| && Eligible(svcs[i]) && Eligible(svcs[j]) ==> Mirror(svcs[i]).key != Mirror(svcs[j]).key
  }

  lemma {:induction false} DistinctServicesHaveDistinctKeys(svcs: seq<Service>)
    requires DistinctServices(svcs)
    ensures DistinctKeys(Wanted(svcs))
  {
    if svcs != [] {
      var init, s := svcs[..|svcs| - 1], svcs[|svcs| - 1];
      DistinctServicesHaveDistinctKeys(init);
      WantedIsEligible(init);
      if Eligible(s) {
        forall i | 0 <= i < |Wanted(init)| ensures Wanted(init)[i].key != Mirror(s).key {
          assert Wanted(init)[i] in Wanted(init);
          var t :| t in init && Eligible(t) && Wanted(init)[i] == Mirror(t);
          var j :| 0 <= j < |init| && init[j] == t;
          assert svcs[j] == t;
        }
      }
    }
  }

  /** After a tick whose hooks all succeed exactly the eligible services are mirrored, with their end points. */
  lemma TickMirrorsServices(m: Mirrored, svcs: seq<Service>)
    requires DistinctServices(svcs)
    ensures var n := After(m, WantedOf(Some(svcs)), NO_FAULTS);
            && (forall k :: k in n <==> exists s :: s in svcs && Eligible(s) && Mirror(s).key == k)
            && (forall s :: s in svcs && Eligible(s) ==> n[Mirror(s).key].endPoints == EndPoints(s.dests.value))
  {
    var ws := Wanted(svcs);
    var n := After(m, ws, NO_FAULTS);
    DistinctServicesHaveDistinctKeys(svcs);
    WantedIsEligible(svcs);
    forall k ensures k in n <==> exists s :: s in svcs && Eligible(s) && Mirror(s).key == k {
      TickMirrorsSnapshot(m, ws, k);
      if k in n {
        var e :| e in ws && e.key == k;
        var s :| s in svcs && Eligible(s) && e == Mirror(s);
        assert Mirror(s).key == k;
      }
      if s :| s in svcs && Eligible(s) && Mirror(s).key == k {
        assert Mirror(s) in ws;
      }
    }
    forall s | s in svcs && Eligible(s) ensures n[Mirror(s).key].endPoints == EndPoints(s.dests.value) {
      TickMirrorsSnapshot(m, ws, Mirror(s).key);
      assert Mirror(s) in ws;
    }
  }

  /**
  The mirrored entry is the snapshot's in every respect exactly if the end points
  changed or its selection, mode and timeout did not: a change of these alone is
  not noticed.
  */
  lemma AttributesFollowIff(m: Mirrored, ws: seq<Entry>, e: Entry)
    requires DistinctKeys(ws) && e in ws && !e.invalid && (e.key in m ==> m[e.key].key == e.key)
    ensures e.key in After(m, ws, NO_FAULTS)
    ensures After(m, ws, NO_FAULTS)[e.key] == e <==>
            !Same(m, e) || (m[e.key].sel == e.sel && m[e.key].mode == e.mode && m[e.key].timeout == e.timeout)
  {
    TickMirrorsSnapshot(m, ws, e.key);
  }

  lemma {:induction false} NothingMissing(m: Mirrored, ws: seq<Entry>)
    requires forall e :: e in ws ==> Same(m, e)
    ensures Missing(m, ws) == []
  {
    if ws != [] {
      NothingMissing(m, ws[..|ws| - 1]);
    }
  }

  /** Once the snapshot is mirrored, a tick over the same snapshot calls no hook and changes nothing. */
  lemma RepeatedTickIsSilent(m: Mirrored, ws: seq<Entry>)
    requires DistinctKeys(ws) && forall e :: e in ws ==> !e.invalid
    ensures var n := After(m, ws, NO_FAULTS);
            Missing(n, ws) == [] && Stale(n, ws) == {} && forall f: Faults :: After(n, ws, f) == n
  {
    var n := After(m, ws, NO_FAULTS);
    forall e | e in ws ensures Same(n, e) && Confirmed(n, e.key, ws) {
      TickMirrorsSnapshot(m, ws, e.key);
      var i :| 0 <= i < |ws| && ws[i] == e;
      assert Same(n, ws[i]);
    }
    NothingMissing(n, ws);
    forall k | k in n ensures Confirmed(n, k, ws) && !n[k].invalid {
      TickMirrorsSnapshot(m, ws, k);
      var e :| e in ws && e.key == k;
    }
    assert Kept(n, ws) == n;
  }

  /** A tick that could not read the services deletes every mirrored entry. */
  lemma FailedSnapshotEmptiesMirror(m: Mirrored, rules: Rules, f: Faults)
    ensures After(m, WantedOf(None), f) == map[] && Stale(m, WantedOf(None)) == m.Keys
    ensures RulesAfter(m, rules, WantedOf(None), f) == rules - (m.Keys - f.deletes)
  {
  }

  // ------------------------------------------------------------------ every run

  datatype Step = Step(snapshot: Option<seq<Service>>, faults: Faults)

  ghost function Run(steps: seq<Step>): (Mirrored, Rules)
    decreases |steps|
  {
    if steps == [] then (map[], map[])
    else
      var s := steps[|steps| - 1];
      var r := Run(steps[..|steps| - 1]);
      (After(r.0, WantedOf(s.snapshot), s.faults), RulesAfter(r.0, r.1, WantedOf(s.snapshot), s.faults))
  }

  /** What is mirrored is installed, with the mirrored end points. */
  ghost predicate Backed(m: Mirrored, rules: Rules) { forall k :: k in m ==> k in rules && rules[k] == RuleOf(m[k]) }

  lemma {:induction false} AddingKeepsBacked(m: Mirrored, rules: Rules, list: seq<Entry>, fails: set<nat>)
    requires Backed(m, rules)
    ensures Backed(Extended(m, list, fails), Installed(rules, list, fails))
    ensures rules.Keys == m.Keys ==> Installed(rules, list, fails).Keys == Extended(m, list, fails).Keys
  {
    if list != [] {
      AddingKeepsBacked(m, rules, list[..|list| - 1], fails);
    }
  }

  lemma TickKeepsBacked(m: Mirrored, rules: Rules, ws: seq<Entry>, f: Faults)
    requires Backed(m, rules)
    ensures Backed(After(m, ws, f), RulesAfter(m, rules, ws, f))
    ensures rules.Keys == m.Keys && f.deletes !! Stale(m, ws) ==> RulesAfter(m, rules, ws, f).Keys == After(m, ws, f).Keys
  {
    var left := rules - (Stale(m, ws) - f.deletes);
    assert Backed(Kept(m, ws), left);
    if rules.Keys == m.Keys && f.deletes !! Stale(m, ws) {
      assert left.Keys == Kept(m, ws).Keys;
    }
    AddingKeepsBacked(Kept(m, ws), left, Missing(m, ws), f.adds);
  }

  ghost predicate NoDeleteFailed(steps: seq<Step>) { forall i :: 0 <= i < |steps| ==> steps[i].faults.deletes == {} }

  /**
  After every run, whatever hooks failed, every mirrored entry has its rule
  installed; if no deletion failed, nothing else is installed.
  */
  lemma {:induction false} MirrorIsInstalled(steps: seq<Step>)
    ensures Backed(Run(steps).0, Run(steps).1)
    ensures NoDeleteFailed(steps) ==> Run(steps).1.Keys == Run(steps).0.Keys
    decreases |steps|
  {
    if steps != [] {
      var init, s := steps[..|steps| - 1], steps[|steps| - 1];
      MirrorIsInstalled(init);
      TickKeepsBacked(Run(init).0, Run(init).1, WantedOf(s.snapshot), s.faults);
    }
  }

  /** The rule lists exactly the destinations, in order, each with weight 1. */
  predicate Serves(rule: Rule, dests: seq<Dest>) {
    |rule.eps| == |dests| && forall i :: 0 <= i < |dests| ==> rule.eps[i] == EndPoint(dests[i].ip, dests[i].port, 1)
  }

  /**
  After a tick whose hooks all succeed every eligible service has a rule installed
  that lists its destinations, and a service that was not mirrored with the same
  end points has the selection, mode and timeout it asks for.
  */
  lemma TickInstallsServices(m: Mirrored, rules: Rules, svcs: seq<Service>, s: Service)
    requires Backed(m, rules) && DistinctServices(svcs) && s in svcs && Eligible(s)
    ensures var k, r := Key(s.address, ProtoOf(s.protocol).value, s.port), RulesAfter(m, rules, WantedOf(Some(svcs)), NO_FAULTS);
            && k in r && Serves(r[k], s.dests.value)
            && (!Same(m, Mirror(s)) ==>
                  && (r[k].sel == RoundRobinPersist <==> s.flags % 2 == 1)
                  && (r[k].mode == FullNat <==> 30000 <= s.port <= 32768) && r[k].timeout == s.timeout)
  {
    var ws, e := Wanted(svcs), Mirror(s);
    var n, r := After(m, ws, NO_FAULTS), RulesAfter(m, rules, ws, NO_FAULTS);
    MirrorByField(s);
    WantedIsEligible(svcs);
    assert e in ws;
    DistinctServicesHaveDistinctKeys(svcs);
    TickMirrorsSnapshot(m, ws, e.key);
    TickKeepsBacked(m, rules, ws, NO_FAULTS);
    assert r[e.key] == RuleOf(n[e.key]);
    RuleByField(n[e.key]);
  }

  /** And with no deletion failing nothing but the eligible services has a rule. */
  lemma TickInstallsNothingElse(m: Mirrored, rules: Rules, svcs: seq<Service>, k: Key)
    requires Backed(m, rules) && rules.Keys == m.Keys && DistinctServices(svcs)
    ensures k in RulesAfter(m, rules, WantedOf(Some(svcs)), NO_FAULTS) <==>
            exists s :: s in svcs && Eligible(s) && k == Key(s.address, ProtoOf(s.protocol).value, s.port)
  {
    TickKeepsBacked(m, rules, Wanted(svcs), NO_FAULTS);
    TickMirrorsServices(m, svcs);
    var n := After(m, Wanted(svcs), NO_FAULTS);
    assert k in RulesAfter(m, rules, Wanted(svcs), NO_FAULTS) <==> k in n;
    if s :| s in svcs && Eligible(s) && k == Key(s.address, ProtoOf(s.protocol).value, s.port) {
      MirrorByField(s);
      assert Mirror(s).key == k;
    }
    if k in n {
      var s :| s in svcs && Eligible(s) && Mirror(s).key == k;
      MirrorByField(s);
    }
  }

  lemma {:induction false} OnlyListedAreAdded(m: Mirrored, rules: Rules, list: seq<Entry>, fails: set<nat>, k: Key)
    requires forall i :: 0 <= i < |list| && i !in fails ==> list[i].key != k
    ensures k in Extended(m, list, fails) <==> k in m
    ensures k in Installed(rules, list, fails) <==> k in rules
  {
    if list != [] {
      OnlyListedAreAdded(m, rules, list[..|list| - 1], fails, k);
    }
  }

  /**
  Failing hooks: an entry whose additions all failed is mirrored and installed only
  if it was confirmed or its rule could not be deleted before.
  */
  lemma FailedHooksLeaveNothing(m: Mirrored, rules: Rules, ws: seq<Entry>, f: Faults, k: Key)
    requires forall i :: 0 <= i < |Missing(m, ws)| && i !in f.adds ==> Missing(m, ws)[i].key != k
    ensures k in After(m, ws, f) <==> k in m && Confirmed(m, k, ws)
    ensures k in RulesAfter(m, rules, ws, f) <==> k in rules && (k in m && !Confirmed(m, k, ws) ==> k in f.deletes)
  {
    OnlyListedAreAdded(Kept(m, ws), rules - (Stale(m, ws) - f.deletes), Missing(m, ws), f.adds, k);
  }
}
