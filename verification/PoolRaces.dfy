/**
Concurrent use of the IPv4 pool. The first draw of an assignment is taken before
the lock and the later ones under it, so other goroutines can draw in between.
*/
module PoolRaces {
  import opened Common
  import opened Bits
  import opened IpPool

  type Tid = nat

  /** A goroutine that made its first draw, draw number `at`, and waits for the lock, or searches under it. */
  datatype Phase = Drawn(at: nat) | Searching(at: nat)

  /**
  `draws` remembers who made each draw. `outstanding` lists the assigned addresses
  not retrieved since, `retrieved` every key ever handed back.
  */
  datatype Pool = Pool(
    base: nat,
    h: nat,
    counter: nat,
    keys: set<Key>,
    lock: Option<Tid>,
    phases: map<Tid, Phase>,
    draws: seq<Tid>,
    outstanding: seq<nat>,
    retrieved: set<Key>)

  datatype Event =
    | FirstDraw(t: Tid)
    | Lock(t: Tid)
    | NextDraw(t: Tid)
    | Retrieve(key: Key)
    | Allocate(key: Key)

  function Init(base: nat, h: nat): Pool {
    Pool(base, h, 0, {Address(base), Address(base + Pow2(h) - 1)}, None, map[], [], [], {})
  }

  /** The machine starts with what a new pool for an IPv4 network holds. */
  lemma InitIsNewPool(base: nat, h: nat)
    ensures Init(base, h).keys == IpPool.Reserved(base, Pow2(h)) && Init(base, h).counter == 0
  {
  }

  /** The address the counter stands at. */
  function Here(s: Pool): nat { Nth(s.base, Pow2(s.h), s.counter, 0) }

  /** The value of draw number `k`, counting from the first. */
  function DrawValue(s: Pool, k: nat): nat { Nth(s.base, Pow2(s.h), k, 0) }

  predicate Enabled(s: Pool, e: Event) {
    match e
    case FirstDraw(t) => t !in s.phases
    case Lock(t) => s.lock.None? && t in s.phases && s.phases[t].Drawn?
    case NextDraw(t) => s.lock == Some(t) && t in s.phases && s.phases[t].Searching?
    case Retrieve(_) => s.lock.None?
    case Allocate(_) => s.lock.None?
  }

  function Drawing(s: Pool, t: Tid): Pool { s.(counter := Next(s.counter), draws := s.draws + [t]) }

  /** Add a free address to the pool and end the call. */
  function Assign(s: Pool, t: Tid, v: nat): Pool {
    s.(keys := s.keys + {Address(v)}, outstanding := s.outstanding + [v], phases := s.phases - {t}, lock := None)
  }

  function Without(s: seq<nat>, key: Key): seq<nat> {
    if s == [] then [] else (if Address(s[0]) == key then [] else [s[0]]) + Without(s[1..], key)
  }

  /** The search of `t` has come round to its start without a free address. */
  predicate GivesUp(s: Pool, e: Event)
    requires Enabled(s, e)
  {
    e.NextDraw? && Address(Here(s)) in s.keys && Here(s) == DrawValue(s, s.phases[e.t].at)
  }

  function Step(s: Pool, e: Event): Pool
    requires Enabled(s, e)
  {
    match e
    case FirstDraw(t) => Drawing(s, t).(phases := s.phases[t := Drawn(|s.draws|)])
    case Lock(t) =>
      var v := DrawValue(s, s.phases[t].at);
      if Address(v) !in s.keys then Assign(s, t, v)
      else s.(lock := Some(t), phases := s.phases[t := Searching(s.phases[t].at)])
    case NextDraw(t) =>
      if Address(Here(s)) !in s.keys then Assign(Drawing(s, t), t, Here(s))
      else if GivesUp(s, e) then Drawing(s, t).(phases := s.phases - {t}, lock := None)
      else Drawing(s, t)
    case Retrieve(key) =>
      s.(keys := s.keys - {key}, outstanding := Without(s.outstanding, key), retrieved := s.retrieved + {key})
    case Allocate(key) => s.(keys := s.keys + {key})
  }

  ghost predicate Execution(states: seq<Pool>, events: seq<Event>) {
    && |states| == |events| + 1 && states[0] == Init(states[0].base, states[0].h) && states[0].h <= 32
    && forall k :: 0 <= k < |events| ==> Enabled(states[k], events[k]) && states[k + 1] == Step(states[k], events[k])
  }

  /** The address a call looks at under the lock. */
  function LookedAt(s: Pool, e: Event): nat
    requires Enabled(s, e) && (e.Lock? || e.NextDraw?)
  {
    if e.Lock? then DrawValue(s, s.phases[e.t].at) else Here(s)
  }

  /** A free address is taken, handed out and ends the call; a taken one changes neither pool nor assignments. */
  lemma FreeAddressIsHandedOut(s: Pool, e: Event)
    requires Enabled(s, e) && (e.Lock? || e.NextDraw?)
    ensures var v, t := LookedAt(s, e), Step(s, e);
            if Address(v) !in s.keys then
              && t.keys == s.keys + {Address(v)} && t.outstanding == s.outstanding + [v]
              && e.t !in t.phases && t.lock.None?
            else
              && t.keys == s.keys && t.outstanding == s.outstanding
              && (e.t !in t.phases <==> e.NextDraw? && v == DrawValue(s, s.phases[e.t].at))
  {
  }

  /** Handing back frees the text and ends its assignment; allocating takes it; drawing leaves both. */
  lemma OtherCalls(s: Pool, e: Event)
    requires Enabled(s, e)
    ensures e.Retrieve? ==> Step(s, e).keys == s.keys - {e.key} && forall v :: v in Step(s, e).outstanding <==> v in s.outstanding && Address(v) != e.key
    ensures e.Allocate? ==> Step(s, e).keys == s.keys + {e.key} && Step(s, e).outstanding == s.outstanding
    ensures e.FirstDraw? ==> Step(s, e).keys == s.keys && Step(s, e).outstanding == s.outstanding
  {
    if e.Retrieve? {
      WithoutIsRemoval(s.outstanding, e.key);
    }
  }

  lemma {:induction false} WithoutIsRemoval(s: seq<nat>, key: Key)
    ensures forall v :: v in Without(s, key) <==> v in s && Address(v) != key
  {
    if s != [] {
      WithoutIsRemoval(s[1..], key);
      assert s == [s[0]] + s[1..];
    }
  }

  // ---------------------------------------------------------------- uniqueness

  predicate Reserved(s: Pool, v: nat) { v == s.base || v == s.base + Pow2(s.h) - 1 }

  ghost predicate Distinct(s: seq<nat>) { forall i, j :: 0 <= i < j < |s| ==> s[i] != s[j] }

  /** Whatever is assigned is in the pool, once, and the reserved addresses are until they are handed back. */
  ghost predicate UseInv(s: Pool) {
    && Distinct(s.outstanding)
    && (forall v :: v in s.outstanding ==> Address(v) in s.keys)
    && (forall v :: v in s.outstanding && Reserved(s, v) ==> Address(v) in s.retrieved)
    && (forall v :: Reserved(s, v) && Address(v) !in s.keys ==> Address(v) in s.retrieved)
  }

  lemma {:induction false} WithoutKeeps(s: seq<nat>, key: Key)
    requires Distinct(s)
    ensures Distinct(Without(s, key))
    ensures forall v :: v in Without(s, key) <==> v in s && Address(v) != key
  {
    if s != [] {
      WithoutKeeps(s[1..], key);
      assert s == [s[0]] + s[1..] && s[0] !in s[1..];
    }
  }

  lemma AssignKeeps(s: Pool, t: Tid, v: nat)
    requires UseInv(s) && Address(v) !in s.keys
    ensures UseInv(Assign(s, t, v))
  {
  }

  lemma StepKeepsUse(s: Pool, e: Event)
    requires Enabled(s, e) && UseInv(s)
    ensures UseInv(Step(s, e))
  {
    match e
    case FirstDraw(t) =>
    case Lock(t) =>
      var v := DrawValue(s, s.phases[t].at);
      if Address(v) !in s.keys {
        AssignKeeps(s, t, v);
      }
    case NextDraw(t) =>
      if Address(Here(s)) !in s.keys {
        AssignKeeps(Drawing(s, t), t, Here(s));
      }
    case Retrieve(key) =>
      WithoutKeeps(s.outstanding, key);
    case Allocate(key) =>
  }

  lemma {:induction false} ReachableUse(states: seq<Pool>, events: seq<Event>, k: nat)
    requires Execution(states, events) && k < |states|
    ensures UseInv(states[k])
  {
    if k > 0 {
      ReachableUse(states, events, k - 1);
      StepKeepsUse(states[k - 1], events[k - 1]);
    }
  }

  /** In every interleaving no two outstanding assignments are equal. */
  lemma AssignmentsAreUnique(states: seq<Pool>, events: seq<Event>, k: nat, i: nat, j: nat)
    requires Execution(states, events) && k < |states| && i < j < |states[k].outstanding|
    ensures states[k].outstanding[i] != states[k].outstanding[j]
  {
    ReachableUse(states, events, k);
  }

  /** The network and broadcast addresses are never handed out unless they were handed back before. */
  lemma ReservedStaysReserved(states: seq<Pool>, events: seq<Event>, k: nat, v: nat)
    requires Execution(states, events) && k < |states| && v in states[k].outstanding && Reserved(states[k], v)
    ensures Address(v) in states[k].retrieved
  {
    ReachableUse(states, events, k);
  }

  // ------------------------------------------------------------- empty results

  /** `t` found every draw it made since draw `at` in the pool. */
  predicate Searched(s: Pool, t: Tid, at: nat) {
    forall k :: at <= k < |s.draws| && s.draws[k] == t ==> Address(DrawValue(s, k)) in s.keys
  }

  /** A waiting goroutine has made one draw; a searching one holds the lock. */
  predicate ThreadInv(s: Pool, t: Tid) {
    t in s.phases ==>
      var p := s.phases[t];
      && p.at < |s.draws| && s.draws[p.at] == t
      && (p.Drawn? ==> forall k :: p.at < k < |s.draws| ==> s.draws[k] != t)
      && (p.Searching? ==> s.lock == Some(t) && Searched(s, t, p.at))
  }

  predicate CounterInv(s: Pool) {
    s.h <= 32 && s.counter == Rem(|s.draws|, TWO32)
  }

  lemma HereIsNextDraw(s: Pool)
    requires CounterInv(s)
    ensures Here(s) == DrawValue(s, |s.draws|) && Next(s.counter) == Rem(|s.draws| + 1, TWO32)
  {
    WrapIsInvisible(|s.draws|, s.h);
    RemSucc(|s.draws|, TWO32);
  }

  lemma FirstDrawKeeps(s: Pool, t: Tid, u: Tid)
    requires Enabled(s, FirstDraw(t)) && ThreadInv(s, u)
    ensures ThreadInv(Step(s, FirstDraw(t)), u)
  {
  }

  lemma LockKeeps(s: Pool, t: Tid, u: Tid)
    requires Enabled(s, Lock(t)) && ThreadInv(s, u)
    ensures ThreadInv(Step(s, Lock(t)), u)
  {
  }

  lemma NextDrawKeeps(s: Pool, t: Tid, u: Tid)
    requires Enabled(s, NextDraw(t)) && ThreadInv(s, u) && CounterInv(s)
    ensures ThreadInv(Step(s, NextDraw(t)), u)
  {
    HereIsNextDraw(s);
  }

  lemma StepKeepsThread(s: Pool, e: Event, u: Tid)
    requires Enabled(s, e) && ThreadInv(s, u) && CounterInv(s)
    ensures ThreadInv(Step(s, e), u)
  {
    match e
    case FirstDraw(t) => FirstDrawKeeps(s, t, u);
    case Lock(t) => LockKeeps(s, t, u);
    case NextDraw(t) => NextDrawKeeps(s, t, u);
    case Retrieve(key) =>
    case Allocate(key) =>
  }

  lemma StepKeepsCounter(s: Pool, e: Event)
    requires Enabled(s, e) && CounterInv(s)
    ensures CounterInv(Step(s, e))
  {
    HereIsNextDraw(s);
  }

  lemma {:induction false} ReachableSearch(states: seq<Pool>, events: seq<Event>, k: nat, u: Tid)
    requires Execution(states, events) && k < |states|
    ensures ThreadInv(states[k], u) && CounterInv(states[k])
  {
    if k > 0 {
      ReachableSearch(states, events, k - 1, u);
      StepKeepsThread(states[k - 1], events[k - 1], u);
      StepKeepsCounter(states[k - 1], events[k - 1]);
    }
  }

  /** Draw `k` was made by another goroutine than `t`, since draw `at`. */
  predicate DrawnByAnother(s: Pool, t: Tid, at: nat, v: nat, k: nat) {
    at < k < |s.draws| && s.draws[k] != t && DrawValue(s, k) == v
  }

  /** Coming round to the start takes at least one cycle of draws. */
  lemma RoundTakesACycle(base: nat, n: nat, at: nat, m: nat)
    requires n > 0 && at < m && Nth(base, n, at, 0) == Nth(base, n, m, 0)
    ensures m >= at + n
  {
    if m < at + n {
      StartReturns(base, n, at, m - at);
    }
  }

  /**
  A call that returns without an address has missed only addresses that another
  goroutine drew in the meantime; if nobody else drew, the subnet is full.
  */
  lemma EmptyResultMissesOnlyForeignDraws(states: seq<Pool>, events: seq<Event>, k: nat, v: nat)
    requires Execution(states, events) && k < |events| && GivesUp(states[k], events[k])
    requires states[k].base <= v < states[k].base + Pow2(states[k].h)
    ensures var s, t := states[k], events[k].t;
            Address(v) in s.keys || exists j :: DrawnByAnother(s, t, s.phases[t].at, v, j)
  {
    var s, t := states[k], events[k].t;
    ReachableSearch(states, events, k, t);
    HereIsNextDraw(s);
    var at, n := s.phases[t].at, Pow2(s.h);
    RoundTakesACycle(s.base, n, at, |s.draws|);
    var j := CycleReaches(at, n, v - s.base);
    assert DrawValue(s, at + j) == v;
    if s.draws[at + j] == t {
      assert Address(DrawValue(s, at + j)) in s.keys;
    } else {
      assert DrawnByAnother(s, t, at, v, at + j);
    }
  }

  /** The pool holds every address another goroutine drew since draw `at`. */
  predicate ForeignDrawsTaken(s: Pool, t: Tid, at: nat) {
    forall j :: at < j < |s.draws| && s.draws[j] != t ==> Address(DrawValue(s, j)) in s.keys
  }

  /** A call that gives up has found a full subnet exactly if what others drew meanwhile is in the pool. */
  lemma EmptyResultMeansFullIff(states: seq<Pool>, events: seq<Event>, k: nat)
    requires Execution(states, events) && k < |events| && GivesUp(states[k], events[k])
    ensures var s, t := states[k], events[k].t;
            Full(s.base, Pow2(s.h), s.keys) <==> ForeignDrawsTaken(s, t, s.phases[t].at)
  {
    var s, t := states[k], events[k].t;
    var at := s.phases[t].at;
    if ForeignDrawsTaken(s, t, at) {
      forall v | s.base <= v < s.base + Pow2(s.h) ensures Address(v) in s.keys {
        EmptyResultMissesOnlyForeignDraws(states, events, k, v);
      }
    }
    if Full(s.base, Pow2(s.h), s.keys) {
      forall j | at < j < |s.draws| && s.draws[j] != t ensures Address(DrawValue(s, j)) in s.keys {
        assert s.base <= DrawValue(s, j) < s.base + Pow2(s.h);
      }
    }
  }

  /** An empty result does not mean a full subnet: two other goroutines drew the free addresses 1 and 2. */
  lemma EmptyResultWithFreeAddresses() returns (states: seq<Pool>, events: seq<Event>)
    ensures Execution(states, events) && |events| > 0 && GivesUp(states[|events| - 1], events[|events| - 1])
    ensures states[0].base == 0 && states[0].h == 2
    ensures Address(1) !in states[|events|].keys && Address(2) !in states[|events|].keys
  {
    assert Pow2(2) == 4 && Rem(0, 4) == 0 && Rem(3, 4) == 3 && Rem(4, 4) == 0;
    var s0 := Init(0, 2);
    var s1 := Step(s0, FirstDraw(0));
    var s2 := Step(s1, Lock(0));
    var s3 := Step(s2, FirstDraw(1));
    var s4 := Step(s3, FirstDraw(2));
    var s5 := Step(s4, NextDraw(0));
    var s6 := Step(s5, NextDraw(0));
    states := [s0, s1, s2, s3, s4, s5, s6];
    events := [FirstDraw(0), Lock(0), FirstDraw(1), FirstDraw(2), NextDraw(0), NextDraw(0)];
  }
}
