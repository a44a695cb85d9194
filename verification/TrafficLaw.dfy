/**
What the exported traffic says about the traffic there was: rules and end points
come and go, counters restart, some sweep may fail to read a counter, and the
sweep of `LbTraffic` sees only counters. Every end point's history is followed on
its own and the totals are sums over end points.
*/
module TrafficLaw {
  import opened Common
  import opened LbTraffic
  import opened Sums

  /** One step of the world; a sweep cannot read the counters in `unreadable`. */
  datatype Event =
    | Restart(key: Key)
    | Remove(key: Key)
    | Traffic(key: Key, d: Stats)
    | Sweep(unreadable: set<Key>)

  /**
  An end point: its counter is the part already accounted for (`counted`) and the
  part not yet sampled (`waiting`); `lost` is unsampled traffic of counters that
  ended since the last sweep. The other fields keep the account since the first
  sweep: what was exported, what there was, what the sweeps missed and what they
  counted again.
  */
  datatype Cell = Cell(
    alive: bool, counted: Stats, waiting: Stats, lost: Stats,
    prev: Option<Stats>, seeded: bool,
    exported: Stats, actual: Stats, missed: Stats, recounted: Stats)

  const UNBORN := Cell(false, ZERO, ZERO, ZERO, None, false, ZERO, ZERO, ZERO, ZERO)

  function Cur(c: Cell): Stats { Plus(c.counted, c.waiting) }

  /** A restarted counter that has overtaken the baseline of its predecessor hides that much. */
  function Masked(c: Cell): Stats {
    if c.prev.Some? && AtMost(c.prev.value, Cur(c)) && Zero(c.counted) then c.prev.value else ZERO
  }

  /** Without a baseline the part already accounted for is counted again. */
  function Recount(c: Cell): Stats { if c.prev.None? then c.counted else ZERO }

  function Ended(c: Cell, alive: bool): Cell {
    c.(alive := alive, counted := ZERO, waiting := ZERO, lost := Plus(c.lost, c.waiting))
  }

  function Carried(c: Cell, d: Stats): Cell {
    if c.alive then c.(waiting := Plus(c.waiting, d), actual := if c.seeded then Plus(c.actual, d) else ZERO) else c
  }

  function Sampled(c: Cell): Cell {
    if c.seeded then
      Cell(c.alive, Cur(c), ZERO, ZERO, Some(Cur(c)), true,
           Plus(c.exported, Delta(c.prev, Cur(c))), c.actual,
           Plus(c.missed, Plus(c.lost, Masked(c))), Plus(c.recounted, Recount(c)))
    else
      Cell(c.alive, Cur(c), ZERO, ZERO, Some(Cur(c)), true, c.exported, c.actual, c.missed, c.recounted)
  }

  function Skipped(c: Cell): Cell {
    if c.seeded then
      Cell(c.alive, c.counted, c.waiting, ZERO, None, true, c.exported, c.actual, Plus(c.missed, c.lost), c.recounted)
    else
      Cell(c.alive, Cur(c), ZERO, ZERO, None, true, c.exported, c.actual, c.missed, c.recounted)
  }

  function Step(c: Cell, e: Event, k: Key): Cell {
    match e
    case Restart(key) => if key == k then Ended(c, true) else c
    case Remove(key) => if key == k then Ended(c, false) else c
    case Traffic(key, d) => if key == k then Carried(c, d) else c
    case Sweep(unreadable) => if c.alive && k !in unreadable then Sampled(c) else Skipped(c)
  }

  function History(events: seq<Event>, k: Key): Cell {
    if events == [] then UNBORN
    else Step(History(events[..|events| - 1], k), events[|events| - 1], k)
  }

  // -------------------------------------------------------------- one end point

  predicate Sound(c: Cell) {
    && (!c.alive ==> Zero(c.counted) && Zero(c.waiting))
    && (c.prev.Some? ==> c.prev.value == c.counted || Zero(c.counted))
    && (!c.seeded ==> c.prev.None? && Zero(c.exported) && Zero(c.actual) && Zero(c.missed) && Zero(c.recounted))
  }

  /** The account of one unit balances. */
  predicate Balanced(c: Cell, u: Unit) {
    c.seeded ==> Amount(c.exported, u) + Amount(c.missed, u) + Amount(c.waiting, u) + Amount(c.lost, u)
                 == Amount(c.actual, u) + Amount(c.recounted, u)
  }

  lemma StepKeepsSound(c: Cell, e: Event, k: Key)
    requires Sound(c)
    ensures Sound(Step(c, e, k))
  {
  }

  lemma EndKeepsBalance(c: Cell, alive: bool, u: Unit)
    requires Balanced(c, u)
    ensures Balanced(Ended(c, alive), u)
  {
  }

  lemma CarryKeepsBalance(c: Cell, d: Stats, u: Unit)
    requires Balanced(c, u)
    ensures Balanced(Carried(c, d), u)
  {
  }

  lemma SkipKeepsBalance(c: Cell, u: Unit)
    requires Sound(c) && Balanced(c, u)
    ensures Balanced(Skipped(c), u)
  {
  }

  lemma AmountOfPlus(a: Stats, b: Stats, u: Unit)
    ensures Amount(Plus(a, b), u) == Amount(a, u) + Amount(b, u)
  {
  }

  lemma AmountOfMinus(a: Stats, b: Stats, u: Unit)
    requires AtMost(b, a)
    ensures Amount(Minus(a, b), u) + Amount(b, u) == Amount(a, u)
  {
  }

  predicate Accounted(c: Cell, u: Unit) {
    Amount(Delta(c.prev, Cur(c)), u) + Amount(Masked(c), u) == Amount(c.waiting, u) + Amount(Recount(c), u)
  }

  lemma AccountedNew(c: Cell, u: Unit)
    requires c.prev.None?
    ensures Accounted(c, u)
  {
    AmountOfPlus(c.counted, c.waiting, u);
  }

  lemma AccountedOn(c: Cell, u: Unit)
    requires c.prev == Some(c.counted) && !Zero(c.counted)
    ensures Accounted(c, u)
  {
    AmountOfPlus(c.counted, c.waiting, u);
    AmountOfMinus(Cur(c), c.counted, u);
  }

  lemma AccountedRestarted(c: Cell, u: Unit)
    requires c.prev.Some? && Zero(c.counted)
    ensures Accounted(c, u)
  {
    assert Cur(c) == c.waiting;
    if AtMost(c.prev.value, c.waiting) {
      AmountOfMinus(c.waiting, c.prev.value, u);
    }
  }

  /** What a sample exports and misses is what was waiting and what it counts again. */
  lemma SampleIsAccounted(c: Cell, u: Unit)
    requires Sound(c)
    ensures Accounted(c, u)
  {
    if c.prev.None? {
      AccountedNew(c, u);
    } else if Zero(c.counted) {
      AccountedRestarted(c, u);
    } else {
      AccountedOn(c, u);
    }
  }

  lemma SampleKeepsBalance(c: Cell, u: Unit)
    requires Sound(c) && Balanced(c, u)
    ensures Balanced(Sampled(c), u)
  {
    SampleIsAccounted(c, u);
  }

  lemma StepKeepsBalance(c: Cell, e: Event, k: Key, u: Unit)
    requires Sound(c) && Balanced(c, u)
    ensures Balanced(Step(c, e, k), u)
  {
    match e
    case Restart(_) => EndKeepsBalance(c, true, u);
    case Remove(_) => EndKeepsBalance(c, false, u);
    case Traffic(_, d) => CarryKeepsBalance(c, d, u);
    case Sweep(_) =>
      SampleKeepsBalance(c, u);
      SkipKeepsBalance(c, u);
  }

  /**
  For every history of an end point since the first sweep: what was exported and
  missed and is not yet sampled is what there was and what was counted again.
  */
  lemma {:induction false} AccountBalances(events: seq<Event>, k: Key, u: Unit)
    ensures Sound(History(events, k)) && Balanced(History(events, k), u)
  {
    if events != [] {
      var init, e := events[..|events| - 1], events[|events| - 1];
      AccountBalances(init, k, u);
      StepKeepsSound(History(init, k), e, k);
      StepKeepsBalance(History(init, k), e, k, u);
    }
  }

  lemma HistorySnoc(events: seq<Event>, e: Event, k: Key)
    ensures History(events + [e], k) == Step(History(events, k), e, k)
  {
    assert (events + [e])[..|events|] == events;
  }

  /**
  An event counts traffic again: after the first sweep, a sweep reads a living
  counter that has no baseline although some of it was accounted for.
  */
  predicate Recounts(c: Cell, e: Event, k: Key) {
    c.seeded && e.Sweep? && c.alive && k !in e.unreadable && c.prev.None? && !Zero(c.counted)
  }

  ghost predicate NothingRecounted(events: seq<Event>, k: Key) {
    forall i :: 0 <= i < |events| ==> !Recounts(History(events[..i], k), events[i], k)
  }

  lemma NothingRecountedSnoc(events: seq<Event>, e: Event, k: Key)
    ensures NothingRecounted(events + [e], k) <==> NothingRecounted(events, k) && !Recounts(History(events, k), e, k)
  {
    var all := events + [e];
    assert all[..|events|] == events;
    assert forall i :: 0 <= i < |events| ==> all[..i] == events[..i] && all[i] == events[i];
  }

  lemma PlusIsZero(a: Stats, b: Stats)
    ensures Zero(Plus(a, b)) <==> Zero(a) && Zero(b)
  {
  }

  lemma StepRecounts(c: Cell, e: Event, k: Key)
    requires Sound(c)
    ensures Zero(Step(c, e, k).recounted) <==> Zero(c.recounted) && !Recounts(c, e, k)
  {
    PlusIsZero(c.recounted, Recount(c));
  }

  /** An end point's account shows nothing counted again exactly if no event counted again. */
  lemma {:induction false} RecountedIff(events: seq<Event>, k: Key)
    ensures Zero(History(events, k).recounted) <==> NothingRecounted(events, k)
  {
    if events != [] {
      var init, e := events[..|events| - 1], events[|events| - 1];
      RecountedIff(init, k);
      AccountBalances(init, k, Packets);
      assert events == init + [e];
      NothingRecountedSnoc(init, e, k);
      StepRecounts(History(init, k), e, k);
    }
  }

  ghost predicate AlwaysReadable(events: seq<Event>, k: Key) {
    forall i :: 0 <= i < |events| && events[i].Sweep? ==> k !in events[i].unreadable
  }

  /** A living counter without a baseline has nothing that was accounted for. */
  predicate FreshWithoutBaseline(c: Cell) { c.prev.None? && (c.seeded || !c.alive) ==> Zero(c.counted) }

  lemma StepStaysFresh(c: Cell, e: Event, k: Key)
    requires Sound(c) && FreshWithoutBaseline(c) && (e.Sweep? ==> k !in e.unreadable)
    ensures FreshWithoutBaseline(Step(c, e, k))
  {
  }

  /** Nothing is counted again while every sweep can read the counter. */
  lemma {:induction false} ReadableIsNotRecounted(events: seq<Event>, k: Key)
    requires AlwaysReadable(events, k)
    ensures FreshWithoutBaseline(History(events, k)) && NothingRecounted(events, k)
  {
    if events != [] {
      var init, e := events[..|events| - 1], events[|events| - 1];
      assert forall i :: 0 <= i < |init| ==> init[i] == events[i];
      ReadableIsNotRecounted(init, k);
      AccountBalances(init, k, Packets);
      assert events == init + [e];
      NothingRecountedSnoc(init, e, k);
      StepStaysFresh(History(init, k), e, k);
    }
  }

  /** A counter that is unreadable once and readable again is exported a second time. */
  lemma {:induction false} UnreadableCounterIsRecounted(events: seq<Event>, k: Key)
    requires var h := History(events, k); h.alive && h.seeded && h.prev.Some? && h.prev.value == h.counted
    ensures var h := History(events, k);
            var g := History(events + [Sweep({k})] + [Sweep({})], k);
            g.actual == h.actual && g.exported == Plus(h.exported, Cur(h))
  {
    HistorySnoc(events, Sweep({k}), k);
    HistorySnoc(events + [Sweep({k})], Sweep({}), k);
  }

  /** An absent end point is created, carries `d` and is swept. */
  function Flicker(k: Key, d: Stats, events: seq<Event>): seq<Event> {
    events + [Restart(k)] + [Traffic(k, d)] + [Sweep({})]
  }

  predicate Absent(c: Cell) { !c.alive && c.seeded && c.prev.None? }

  /** The first sweep leaves every end point that does not exist yet absent. */
  lemma {:induction false} FirstSweepLeavesAbsent(k: Key, unreadable: set<Key>)
    ensures Absent(History([Sweep(unreadable)], k)) && Zero(History([Sweep(unreadable)], k).exported)
  {
    var es := [Sweep(unreadable)];
    assert es[..|es| - 1] == [];
  }

  lemma FlickerCell(c: Cell, d: Stats)
    requires Absent(c)
    ensures var g := Sampled(Carried(Ended(c, true), d));
            && g.alive && g.seeded && g.prev == Some(g.counted) && Cur(g) == d
            && g.actual == Plus(c.actual, d) && g.exported == Plus(c.exported, d)
  {
    var b := Carried(Ended(c, true), d);
    assert Plus(ZERO, d) == d && Plus(d, ZERO) == d;
    assert b.waiting == d && Cur(b) == d;
  }

  lemma FlickerHistory(k: Key, d: Stats, events: seq<Event>)
    requires Absent(History(events, k))
    ensures History(Flicker(k, d, events), k) == Sampled(Carried(Ended(History(events, k), true), d))
  {
    HistorySnoc(events, Restart(k), k);
    HistorySnoc(events + [Restart(k)], Traffic(k, d), k);
    HistorySnoc(events + [Restart(k)] + [Traffic(k, d)], Sweep({}), k);
  }

  /** Any history of an absent end point can go on so: `d` more traffic, twice `d` more exported. */
  lemma ExportCanExceed(k: Key, d: Stats, events: seq<Event>)
    requires Absent(History(events, k))
    ensures var h, g := History(events, k), History(Flicker(k, d, events) + [Sweep({k})] + [Sweep({})], k);
            g.actual == Plus(h.actual, d) && g.exported == Plus(Plus(h.exported, d), d)
  {
    FlickerHistory(k, d, events);
    FlickerCell(History(events, k), d);
    UnreadableCounterIsRecounted(Flicker(k, d, events), k);
  }

  // --------------------------------------------------------------------- totals

  ghost function Exports(events: seq<Event>, u: Unit): Key -> nat { k => Amount(History(events, k).exported, u) }

  ghost function Actuals(events: seq<Event>, u: Unit): Key -> nat { k => Amount(History(events, k).actual, u) }

  /** While nothing is counted again, no selection of end points is exported more traffic than it had. */
  lemma ExportNeverExceeds(events: seq<Event>, keys: set<Key>, u: Unit)
    requires forall k :: k in keys ==> NothingRecounted(events, k)
    ensures Sum(keys, Exports(events, u)) <= Sum(keys, Actuals(events, u))
  {
    forall k | k in keys ensures Exports(events, u)(k) <= Actuals(events, u)(k) {
      AccountBalances(events, k, u);
      RecountedIff(events, k);
    }
    SumMonotone(keys, Exports(events, u), Actuals(events, u));
  }

  /**
  An event hides traffic of the end point for good: after the first sweep, its
  counter ends with traffic that was not sampled, or a sweep reads a restarted
  counter that has reached its predecessor's baseline.
  */
  predicate Hides(c: Cell, e: Event, k: Key) {
    c.seeded &&
    match e
    case Restart(key) => key == k && !Zero(c.waiting)
    case Remove(key) => key == k && !Zero(c.waiting)
    case Traffic(_, _) => false
    case Sweep(unreadable) =>
      && c.alive && k !in unreadable
      && Zero(c.counted) && c.prev.Some? && !Zero(c.prev.value) && AtMost(c.prev.value, c.waiting)
  }

  ghost predicate NothingHidden(events: seq<Event>, k: Key) {
    forall i :: 0 <= i < |events| ==> !Hides(History(events[..i], k), events[i], k)
  }

  predicate NoDeficit(c: Cell) { c.seeded ==> Zero(c.missed) && Zero(c.lost) }

  lemma EndDeficit(c: Cell, alive: bool)
    requires c.seeded
    ensures NoDeficit(Ended(c, alive)) <==> NoDeficit(c) && Zero(c.waiting)
  {
    PlusIsZero(c.lost, c.waiting);
  }

  lemma SampleDeficit(c: Cell)
    requires c.seeded
    ensures NoDeficit(Sampled(c)) <==> NoDeficit(c) && Zero(Masked(c))
  {
    PlusIsZero(c.lost, Masked(c));
    PlusIsZero(c.missed, Plus(c.lost, Masked(c)));
  }

  lemma SkipDeficit(c: Cell)
    requires c.seeded
    ensures NoDeficit(Skipped(c)) <==> NoDeficit(c)
  {
    PlusIsZero(c.missed, c.lost);
  }

  lemma MaskedIff(c: Cell)
    ensures !Zero(Masked(c)) <==>
            Zero(c.counted) && c.prev.Some? && !Zero(c.prev.value) && AtMost(c.prev.value, c.waiting)
  {
    if Zero(c.counted) {
      assert Cur(c) == c.waiting;
    }
  }

  lemma SweepDeficit(c: Cell, unreadable: set<Key>, k: Key)
    requires c.seeded
    ensures NoDeficit(Step(c, Sweep(unreadable), k)) <==> NoDeficit(c) && !Hides(c, Sweep(unreadable), k)
  {
    if c.alive && k !in unreadable {
      calc {
        NoDeficit(Step(c, Sweep(unreadable), k));
        NoDeficit(Sampled(c));
      <==>  { SampleDeficit(c); }
        NoDeficit(c) && Zero(Masked(c));
      <==>  { MaskedIff(c); }
        NoDeficit(c) && !Hides(c, Sweep(unreadable), k);
      }
    } else {
      SkipDeficit(c);
    }
  }

  lemma TrafficDeficit(c: Cell, d: Stats)
    ensures NoDeficit(Carried(c, d)) <==> NoDeficit(c)
  {
  }

  lemma StepDeficit(c: Cell, e: Event, k: Key)
    requires c.seeded
    ensures NoDeficit(Step(c, e, k)) <==> NoDeficit(c) && !Hides(c, e, k)
  {
    match e
    case Restart(_) => EndDeficit(c, true);
    case Remove(_) => EndDeficit(c, false);
    case Traffic(_, d) => TrafficDeficit(c, d);
    case Sweep(unreadable) => SweepDeficit(c, unreadable, k);
  }

  lemma NothingHiddenSnoc(events: seq<Event>, e: Event, k: Key)
    ensures NothingHidden(events + [e], k) <==> NothingHidden(events, k) && !Hides(History(events, k), e, k)
  {
    var all := events + [e];
    assert all[..|events|] == events;
    assert forall i :: 0 <= i < |events| ==> all[..i] == events[..i] && all[i] == events[i];
  }

  /** A history has no deficit exactly if none of its events hid traffic. */
  lemma {:induction false} DeficitIff(events: seq<Event>, k: Key)
    ensures History(events, k).seeded ==> (NoDeficit(History(events, k)) <==> NothingHidden(events, k))
    ensures !History(events, k).seeded ==> NothingHidden(events, k)
  {
    if events != [] {
      var init, e := events[..|events| - 1], events[|events| - 1];
      DeficitIff(init, k);
      AccountBalances(init, k, Packets);
      assert events == init + [e];
      NothingHiddenSnoc(init, e, k);
      if History(init, k).seeded {
        StepDeficit(History(init, k), e, k);
      }
    }
  }

  /**
  While nothing is counted again, the export of an end point is exact exactly if no
  event hid traffic of it and nothing waits for the next sweep.
  */
  lemma ExportIsExactIff(events: seq<Event>, k: Key)
    requires NothingRecounted(events, k) && History(events, k).seeded
    ensures History(events, k).exported == History(events, k).actual <==>
            NothingHidden(events, k) && Zero(History(events, k).waiting)
  {
    AccountBalances(events, k, Packets);
    AccountBalances(events, k, Bytes);
    RecountedIff(events, k);
    DeficitIff(events, k);
  }

  // ------------------------------------------------- the collector in the world

  /** The collector's baselines are those of the histories. */
  ghost predicate Agrees(prev: Baselines, first: bool, events: seq<Event>) {
    forall k :: Look(prev, k) == History(events, k).prev && (first <==> !History(events, k).seeded)
  }

  /**
  The samples are the living, readable counters. A key may be listed more than
  once, but every listing shows the one counter of the key.
  */
  ghost predicate Faithful(ss: seq<Sample>, events: seq<Event>, unreadable: set<Key>) {
    && (forall i :: 0 <= i < |ss| ==> ss[i].cur == Cur(History(events, ss[i].key)))
    && (forall k :: k in Keys(ss) <==> History(events, k).alive && k !in unreadable)
  }

  lemma {:induction false} BaselineAt(prev: Baselines, ss: seq<Sample>, k: Key, v: Stats)
    requires forall i :: 0 <= i < |ss| && ss[i].key == k ==> ss[i].cur == v
    ensures Look(Baseline(prev, ss), k) == if k in Keys(ss) then Some(v) else Look(prev, k)
  {
    if ss != [] {
      var init, s := ss[..|ss| - 1], ss[|ss| - 1];
      BaselineAt(prev, init, k, v);
      assert ss == init + [s];
      assert Keys(ss) == Keys(init) + {s.key};
    }
  }

  /** After a sweep the collector still agrees with the world. */
  lemma SweepAgrees(prev: Baselines, first: bool, events: seq<Event>, ss: seq<Sample>, unreadable: set<Key>)
    requires Agrees(prev, first, events) && Faithful(ss, events, unreadable)
    ensures Agrees(Remembered(prev, ss), false, events + [Sweep(unreadable)])
  {
    forall k ensures var h := History(events + [Sweep(unreadable)], k);
                     Look(Remembered(prev, ss), k) == h.prev && h.seeded
    {
      HistorySnoc(events, Sweep(unreadable), k);
      BaselineAt(prev, ss, k, Cur(History(events, k)));
    }
  }

  /** The values `e1` for the keys done and `e0` for the others. */
  ghost function Mix(e0: Key -> nat, e1: Key -> nat, done: set<Key>): Key -> nat {
    k => if k in done then e1(k) else e0(k)
  }

  lemma MixOne(e0: Key -> nat, e1: Key -> nat, done: set<Key>, keys: set<Key>, x: Key, d: nat)
    requires x !in done && e1(x) == e0(x) + d
    ensures Sum(keys, Mix(e0, e1, done + {x})) == Sum(keys, Mix(e0, e1, done)) + if x in keys then d else 0
  {
    if x in keys {
      SumChange(keys, Mix(e0, e1, done), Mix(e0, e1, done + {x}), x, d);
    } else {
      SumCongruent(keys, Mix(e0, e1, done), Mix(e0, e1, done + {x}));
    }
  }

  /**
  The first sample of a key raises it from `e0` to `e1` by what it increases, and a
  further one increases nothing.
  */
  ghost predicate Raises(prev: Baselines, ss: seq<Sample>, i: nat, e0: Key -> nat, e1: Key -> nat, u: Unit)
    requires i < |ss|
  {
    var d := Amount(Delta(Look(Baseline(prev, ss[..i]), ss[i].key), ss[i].cur), u);
    if ss[i].key in Keys(ss[..i]) then d == 0 else e1(ss[i].key) == e0(ss[i].key) + d
  }

  lemma SampleExports(prev: Baselines, events: seq<Event>, ss: seq<Sample>, unreadable: set<Key>, n: nat, u: Unit)
    requires n < |ss| && Agrees(prev, false, events) && Faithful(ss, events, unreadable)
    ensures Raises(prev, ss, n, Exports(events, u), Exports(events + [Sweep(unreadable)], u), u)
  {
    var k := ss[n].key;
    assert ss[n] in ss;
    HistorySnoc(events, Sweep(unreadable), k);
    BaselineAt(prev, ss[..n], k, Cur(History(events, k)));
  }

  lemma {:induction false} DeltasAddUp(prev: Baselines, ss: seq<Sample>, g: Group, u: Unit, e0: Key -> nat, e1: Key -> nat,
                                       keys: set<Key>)
    requires forall i :: 0 <= i < |ss| ==> Raises(prev, ss, i, e0, e1, u)
    requires forall s :: s in ss ==> (In(s, g) <==> s.key in keys)
    ensures Sum(keys, Mix(e0, e1, Keys(ss))) == Sum(keys, e0) + Increase(prev, ss, g, u)
    decreases |ss|
  {
    if ss == [] {
      SumCongruent(keys, Mix(e0, e1, Keys(ss)), e0);
    } else {
      var n := |ss| - 1;
      var init := ss[..n];
      forall i | 0 <= i < n ensures Raises(prev, init, i, e0, e1, u) {
        assert Raises(prev, ss, i, e0, e1, u) && init[..i] == ss[..i];
      }
      DeltasAddUp(prev, init, g, u, e0, e1, keys);
      assert Raises(prev, ss, n, e0, e1, u) && ss == init + [ss[n]];
      SampleStep(prev, init, ss[n], g, u, e0, e1, keys);
    }
  }

  lemma SampleStep(prev: Baselines, ss: seq<Sample>, s: Sample, g: Group, u: Unit, e0: Key -> nat, e1: Key -> nat,
                   keys: set<Key>)
    requires In(s, g) <==> s.key in keys
    requires var d := Amount(Delta(Look(Baseline(prev, ss), s.key), s.cur), u);
             if s.key in Keys(ss) then d == 0 else e1(s.key) == e0(s.key) + d
    requires Sum(keys, Mix(e0, e1, Keys(ss))) == Sum(keys, e0) + Increase(prev, ss, g, u)
    ensures Sum(keys, Mix(e0, e1, Keys(ss + [s]))) == Sum(keys, e0) + Increase(prev, ss + [s], g, u)
  {
    IncreaseSnoc(prev, ss, s, g, u);
    if s.key in Keys(ss) {
      assert Keys(ss) + {s.key} == Keys(ss);
    } else {
      MixOne(e0, e1, Keys(ss), keys, s.key, Amount(Delta(Look(Baseline(prev, ss), s.key), s.cur), u));
    }
  }

  lemma IncreaseSnoc(prev: Baselines, ss: seq<Sample>, s: Sample, g: Group, u: Unit)
    ensures Keys(ss + [s]) == Keys(ss) + {s.key}
    ensures Increase(prev, ss + [s], g, u) ==
            Increase(prev, ss, g, u) + if In(s, g) then Amount(Delta(Look(Baseline(prev, ss), s.key), s.cur), u) else 0
  {
    assert (ss + [s])[..|ss|] == ss;
  }

  /** The exported value of a group goes on being the sum of its histories' exports. */
  lemma SweepKeepsTotals(prev: Baselines, events: seq<Event>, ss: seq<Sample>, unreadable: set<Key>,
                         g: Group, u: Unit, keys: set<Key>)
    requires Agrees(prev, false, events) && Faithful(ss, events, unreadable)
    requires forall s :: s in ss ==> (In(s, g) <==> s.key in keys)
    ensures Sum(keys, Exports(events + [Sweep(unreadable)], u)) ==
            Sum(keys, Exports(events, u)) + Increase(prev, ss, g, u)
  {
    var e0, e1 := Exports(events, u), Exports(events + [Sweep(unreadable)], u);
    forall i | 0 <= i < |ss| ensures Raises(prev, ss, i, e0, e1, u) {
      SampleExports(prev, events, ss, unreadable, i, u);
    }
    DeltasAddUp(prev, ss, g, u, e0, e1, keys);
    forall k | k in keys ensures e1(k) == Mix(e0, e1, Keys(ss))(k) {
      HistorySnoc(events, Sweep(unreadable), k);
    }
    SumCongruent(keys, e1, Mix(e0, e1, Keys(ss)));
  }

  // ----------------------------------------------------- the collector over a run

  /** The world's events and, for each sweep, the samples it took. */
  datatype Moment = Moment(event: Event, samples: seq<Sample>)

  /** What the collector holds of one group and unit. */
  datatype Holding = Holding(prev: Baselines, first: bool, value: nat)

  /** The collector after a run: every sweep acts as CollectLbRuleTraffic does. */
  function Collected(run: seq<Moment>, g: Group, u: Unit): Holding {
    if run == [] then Holding(map[], true, 0)
    else
      var h, m := Collected(run[..|run| - 1], g, u), run[|run| - 1];
      if m.event.Sweep? then
        Holding(Remembered(h.prev, m.samples), false, Raised(h.first, h.value, Increase(h.prev, m.samples, g, u)))
      else h
  }

  function Events(run: seq<Moment>): seq<Event> { seq(|run|, i requires 0 <= i < |run| => run[i].event) }

  lemma EventsSnoc(run: seq<Moment>)
    requires run != []
    ensures Events(run) == Events(run[..|run| - 1]) + [run[|run| - 1].event]
  {
  }

  /** Every sweep sampled the living, readable counters, and the group's samples are those of `keys`. */
  ghost predicate Observed(run: seq<Moment>, g: Group, keys: set<Key>)
    decreases |run|
  {
    run != [] ==>
      var init, m := run[..|run| - 1], run[|run| - 1];
      && Observed(init, g, keys)
      && (m.event.Sweep? ==> Faithful(m.samples, Events(init), m.event.unreadable))
      && (m.event.Sweep? ==> forall s :: s in m.samples ==> (In(s, g) <==> s.key in keys))
  }

  /** Events other than sweeps touch neither baselines nor exports. */
  lemma OtherStepAgrees(prev: Baselines, first: bool, events: seq<Event>, e: Event, u: Unit)
    requires Agrees(prev, first, events) && !e.Sweep?
    ensures Agrees(prev, first, events + [e])
    ensures forall k :: Exports(events + [e], u)(k) == Exports(events, u)(k)
  {
    forall k ensures Look(prev, k) == History(events + [e], k).prev && (first <==> !History(events + [e], k).seeded)
      ensures Exports(events + [e], u)(k) == Exports(events, u)(k)
    {
      HistorySnoc(events, e, k);
    }
  }

  /** The first sweep exports nothing for any end point. */
  lemma FirstSweepExports(prev: Baselines, events: seq<Event>, unreadable: set<Key>, u: Unit, k: Key)
    requires Agrees(prev, true, events)
    ensures Exports(events + [Sweep(unreadable)], u)(k) == Exports(events, u)(k)
  {
    HistorySnoc(events, Sweep(unreadable), k);
  }

  lemma {:induction false} CollectorFollowsHistories(run: seq<Moment>, g: Group, u: Unit, keys: set<Key>)
    requires Observed(run, g, keys)
    ensures Agrees(Collected(run, g, u).prev, Collected(run, g, u).first, Events(run))
    ensures Collected(run, g, u).value == Sum(keys, Exports(Events(run), u))
    decreases |run|
  {
    if run == [] {
      SumOnes(keys, {}, Exports(Events(run), u));
    } else {
      var init, m := run[..|run| - 1], run[|run| - 1];
      CollectorFollowsHistories(init, g, u, keys);
      EventsSnoc(run);
      var h, es := Collected(init, g, u), Events(init);
      if !m.event.Sweep? {
        OtherStepAgrees(h.prev, h.first, es, m.event, u);
        SumCongruent(keys, Exports(es + [m.event], u), Exports(es, u));
      } else {
        SweepAgrees(h.prev, h.first, es, m.samples, m.event.unreadable);
        if h.first {
          forall k | k in keys ensures Exports(es + [m.event], u)(k) == Exports(es, u)(k) {
            FirstSweepExports(h.prev, es, m.event.unreadable, u, k);
          }
          SumCongruent(keys, Exports(es + [m.event], u), Exports(es, u));
        } else {
          SweepKeepsTotals(h.prev, es, m.samples, m.event.unreadable, g, u, keys);
        }
      }
    }
  }

  /**
  After every run, with restarts, removals, unreadable counters and any traffic, in
  which no event counted again: what the collector exports for a group is at most
  the traffic its end points carried since the first sweep.
  */
  lemma ExportedNeverExceedsTraffic(run: seq<Moment>, g: Group, u: Unit, keys: set<Key>)
    requires Observed(run, g, keys) && forall k :: k in keys ==> NothingRecounted(Events(run), k)
    ensures Collected(run, g, u).value <= Sum(keys, Actuals(Events(run), u))
  {
    CollectorFollowsHistories(run, g, u, keys);
    ExportNeverExceeds(Events(run), keys, u);
  }

  /** The end points of a group, when rules keep their names. */
  function Members(all: set<Key>, name: Key -> Service, g: Group): set<Key> {
    set k | k in all && (match g case All => true case OfProto(p) => k.proto == p case OfService(n) => name(k) == n)
  }

  /** Every sweep sampled the living, readable counters of known end points under their names. */
  ghost predicate Sampling(run: seq<Moment>, all: set<Key>, name: Key -> Service)
    decreases |run|
  {
    run != [] ==>
      var init, m := run[..|run| - 1], run[|run| - 1];
      && Sampling(init, all, name)
      && (m.event.Sweep? ==> Faithful(m.samples, Events(init), m.event.unreadable))
      && (m.event.Sweep? ==> forall s :: s in m.samples ==> s.key in all && s.service == name(s.key))
  }

  lemma {:induction false} SamplingIsObserved(run: seq<Moment>, all: set<Key>, name: Key -> Service, g: Group)
    requires Sampling(run, all, name)
    ensures Observed(run, g, Members(all, name, g))
    decreases |run|
  {
    if run != [] {
      SamplingIsObserved(run[..|run| - 1], all, name, g);
    }
  }

  /** For all traffic, every protocol and every service: no exported total exceeds the traffic. */
  lemma NoTotalExceedsTraffic(run: seq<Moment>, all: set<Key>, name: Key -> Service, g: Group, u: Unit)
    requires Sampling(run, all, name) && forall k :: k in Members(all, name, g) ==> NothingRecounted(Events(run), k)
    ensures Collected(run, g, u).value <= Sum(Members(all, name, g), Actuals(Events(run), u))
  {
    SamplingIsObserved(run, all, name, g);
    ExportedNeverExceedsTraffic(run, g, u, Members(all, name, g));
  }

  lemma {:induction false} AllSeededTogether(run: seq<Moment>, g: Group, u: Unit, keys: set<Key>, k: Key)
    requires Observed(run, g, keys)
    ensures Collected(run, g, u).first <==> !History(Events(run), k).seeded
  {
    CollectorFollowsHistories(run, g, u, keys);
  }

  ghost predicate Exact(run: seq<Moment>, g: Group, keys: set<Key>, u: Unit) {
    Collected(run, g, u).value == Sum(keys, Actuals(Events(run), u))
  }

  lemma BothUnits(run: seq<Moment>, g: Group, keys: set<Key>)
    ensures (forall u :: Exact(run, g, keys, u)) <==> Exact(run, g, keys, Packets) && Exact(run, g, keys, Bytes)
  {
    if Exact(run, g, keys, Packets) && Exact(run, g, keys, Bytes) {
      forall u ensures Exact(run, g, keys, u) {
        assert u == Packets || u == Bytes;
      }
    }
  }

  /** After the first sweep a group's totals are exact exactly if no event hid traffic of its end points and none waits. */
  lemma TotalsAreExactIff(run: seq<Moment>, all: set<Key>, name: Key -> Service, g: Group)
    requires Sampling(run, all, name) && forall k :: k in Members(all, name, g) ==> NothingRecounted(Events(run), k)
    requires !Collected(run, g, Packets).first
    ensures (forall u :: Exact(run, g, Members(all, name, g), u)) <==>
            forall k :: k in Members(all, name, g) ==> NothingHidden(Events(run), k) && Zero(History(Events(run), k).waiting)
  {
    var keys, es := Members(all, name, g), Events(run);
    SamplingIsObserved(run, all, name, g);
    forall u ensures Exact(run, g, keys, u) <==>
                     forall k :: k in keys ==> Exports(es, u)(k) == Actuals(es, u)(k)
    {
      CollectorFollowsHistories(run, g, u, keys);
      forall k | k in keys ensures Exports(es, u)(k) <= Actuals(es, u)(k) {
        AccountBalances(es, k, u);
        RecountedIff(es, k);
      }
      SumEqualIff(keys, Exports(es, u), Actuals(es, u));
    }
    forall k | k in keys
      ensures (Exports(es, Packets)(k) == Actuals(es, Packets)(k) && Exports(es, Bytes)(k) == Actuals(es, Bytes)(k)) <==>
              NothingHidden(es, k) && Zero(History(es, k).waiting)
    {
      AllSeededTogether(run, g, Packets, keys, k);
      ExportIsExactIff(es, k);
    }
    BothUnits(run, g, keys);
  }

  // ----------------------------------------------------------- listings of rules

  /** The world's events and, for each sweep, the rules it was given. */
  datatype Seen = Seen(event: Event, info: seq<Rule>)

  function Moments(run: seq<Seen>): seq<Moment> {
    seq(|run|, i requires 0 <= i < |run| => Moment(run[i].event, Samples(run[i].info)))
  }

  /** A listing shows the living, readable counters with their present values, and each of them. */
  ghost predicate ShowsCounters(info: seq<Rule>, events: seq<Event>, unreadable: set<Key>) {
    && (forall s :: Lists(info, s) ==> s.cur == Cur(History(events, s.key)))
    && (forall s :: Lists(info, s) ==> History(events, s.key).alive && s.key !in unreadable)
    && (forall k :: History(events, k).alive && k !in unreadable ==> exists s :: Lists(info, s) && s.key == k)
  }

  lemma ListingIsFaithful(info: seq<Rule>, events: seq<Event>, unreadable: set<Key>)
    requires ShowsCounters(info, events, unreadable)
    ensures Faithful(Samples(info), events, unreadable)
  {
    var ss := Samples(info);
    forall i | 0 <= i < |ss| ensures ss[i].cur == Cur(History(events, ss[i].key)) {
      SamplesAreListed(info, ss[i]);
    }
    forall k ensures k in Keys(ss) <==> History(events, k).alive && k !in unreadable {
      if k in Keys(ss) {
        var s :| s in ss && s.key == k;
        SamplesAreListed(info, s);
      }
      if History(events, k).alive && k !in unreadable {
        var s :| Lists(info, s) && s.key == k;
        SamplesAreListed(info, s);
      }
    }
  }

  /** Every sweep was given a listing of the counters there were, under the rules' names. */
  ghost predicate Listed(run: seq<Seen>, all: set<Key>, name: Key -> Service)
    decreases |run|
  {
    run != [] ==>
      var init, m := run[..|run| - 1], run[|run| - 1];
      && Listed(init, all, name)
      && (m.event.Sweep? ==> ShowsCounters(m.info, Events(Moments(init)), m.event.unreadable))
      && (m.event.Sweep? ==> forall s :: Lists(m.info, s) ==> s.key in all && s.service == name(s.key))
  }

  lemma MomentsSnoc(run: seq<Seen>)
    requires run != []
    ensures var n := |run| - 1;
            Moments(run)[..n] == Moments(run[..n]) && Moments(run)[n] == Moment(run[n].event, Samples(run[n].info))
  {
  }

  lemma {:induction false} ListedIsSampling(run: seq<Seen>, all: set<Key>, name: Key -> Service)
    requires Listed(run, all, name)
    ensures Sampling(Moments(run), all, name)
    decreases |run|
  {
    if run != [] {
      var init, m := run[..|run| - 1], run[|run| - 1];
      ListedIsSampling(init, all, name);
      MomentsSnoc(run);
      if m.event.Sweep? {
        ListingIsFaithful(m.info, Events(Moments(init)), m.event.unreadable);
        forall s | s in Samples(m.info) ensures s.key in all && s.service == name(s.key) {
          SamplesAreListed(m.info, s);
        }
      }
    }
  }

  /** The collector itself, given the listings of a run. */
  method CollectRun(run: seq<Seen>) returns (c: Collector)
    ensures forall g, u :: ExportedGroup(g) ==> c.Exported(u).Value(g) == Collected(Moments(run), g, u).value
    ensures forall g, u :: c.prev == Collected(Moments(run), g, u).prev && c.first == Collected(Moments(run), g, u).first
    ensures fresh(c)
  {
    c := new Collector();
    for i := 0 to |run|
      invariant fresh(c)
      invariant forall g, u :: ExportedGroup(g) ==> c.Exported(u).Value(g) == Collected(Moments(run[..i]), g, u).value
      invariant forall g, u :: c.prev == Collected(Moments(run[..i]), g, u).prev && c.first == Collected(Moments(run[..i]), g, u).first
    {
      assert run[..i + 1][..i] == run[..i];
      MomentsSnoc(run[..i + 1]);
      if run[i].event.Sweep? {
        c.CollectLbRuleTraffic(run[i].info);
      }
    }
    assert run[..|run|] == run;
  }

  /**
  After every run of the collector over listings of the rules, in which no event
  counted again, no counter of all traffic, of a protocol or of a service exceeds
  the traffic that its end points carried since the first sweep.
  */
  lemma ListedTotalsNeverExceed(run: seq<Seen>, all: set<Key>, name: Key -> Service, g: Group, u: Unit)
    requires Listed(run, all, name)
    requires forall k :: k in Members(all, name, g) ==> NothingRecounted(Events(Moments(run)), k)
    ensures Collected(Moments(run), g, u).value <= Sum(Members(all, name, g), Actuals(Events(Moments(run)), u))
  {
    ListedIsSampling(run, all, name);
    NoTotalExceedsTraffic(Moments(run), all, name, g, u);
  }
}
