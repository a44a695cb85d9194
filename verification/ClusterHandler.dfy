/**
The code of the mailbox in its own form: the handler whose maps are updated in
place, the restart loop that applies one instance, and one pass of the worker.

Other goroutines may run wherever this code holds no lock. Interfere stands for
everything they can do there; EnvironmentObeysRely ties it to the events of
the state machine.
*/
module ClusterHandler {
  import opened Common
  import opened ClusterSync

  /** What updaters may do to the shared part: move an instance only by marking it. */
  ghost predicate Rely(m: map<Inst, ClusterInstance>, d: set<Inst>, m': map<Inst, ClusterInstance>, d': set<Inst>) {
    && d <= d'
    && m.Keys <= m'.Keys
    && (forall i :: i in m && i !in d' ==> m'[i] == m[i])
  }

  /** A moment: a time on the clock and the dirty set then. */
  datatype Moment = Moment(clock: nat, dirty: set<Inst>)

  /** Since that moment the dirty set has grown by exactly the instances marked. */
  ghost predicate MarkedSince(since: Moment, marks: map<Inst, nat>, clock: nat, dirty: set<Inst>) {
    && since.clock <= clock
    && (forall i :: i in marks ==> marks[i] <= clock)
    && (forall i :: i in dirty <==> i in since.dirty || MarkedAfter(since.clock, marks, i))
  }

  predicate MarkedAfter(t: nat, marks: map<Inst, nat>, i: Inst) { i in marks && marks[i] > t }

  lemma MarkOne(since: Moment, marks: map<Inst, nat>, clock: nat, dirty: set<Inst>, inst: Inst)
    requires MarkedSince(since, marks, clock, dirty)
    ensures MarkedSince(since, marks[inst := clock + 1], clock + 1, dirty + {inst})
  {
    var after := marks[inst := clock + 1];
    forall i ensures i in dirty + {inst} <==> i in since.dirty || MarkedAfter(since.clock, after, i) {
      assert i != inst ==> (MarkedAfter(since.clock, after, i) <==> MarkedAfter(since.clock, marks, i));
    }
  }

  lemma EnvironmentObeysRely(s: System, e: Event)
    requires e.Update? || e.Signal? || e.Destroy?
    requires Enabled(s, e)
    ensures var t := Step(s, e);
            Rely(s.instances, s.dirty, t.instances, t.dirty) && t.worker == s.worker && t.lastHooked == s.lastHooked
  {
  }

  datatype HookCall = HookCall(inst: Inst, state: StateName, vip: Vip)

  /** The call is about an instance of the pass, is news, and is what the worker now remembers. */
  ghost predicate Reported(c: HookCall, dirty: set<Inst>, before: map<Inst, StateName>, after: map<Inst, StateName>) {
    c.inst in dirty && Get(before, c.inst, UNSET) != c.state && c.inst in after && after[c.inst] == c.state
  }

  class CIStateH {
    var clusterMap: map<Inst, ClusterInstance>
    var syncDirty: set<Inst>
    var syncSig: bool
    var lastHooked: map<Inst, StateName>
    var cloudPrepared: bool
    const cloud: bool
    /** The calls the hook has received. */
    var told: seq<HookCall>
    /** When each instance was last marked, by a clock that counts the marks. */
    ghost var marks: map<Inst, nat>
    ghost var clock: nat

    constructor (cloud: bool)
      ensures this.cloud == cloud && lastHooked == map[] && !cloudPrepared
      ensures clusterMap == Init(cloud).instances == map[Default := ClusterInstance(4, NotDefined, "0.0.0.0")]
      ensures syncDirty == {} && !syncSig && told == [] && marks == map[] && clock == 0
    {
      this.cloud := cloud;
      clusterMap := map[Default := FRESH_INSTANCE];
      syncDirty := {};
      syncSig := false;
      lastHooked := map[];
      cloudPrepared := false;
      told := [];
      marks, clock := map[], 0;
    }

    method CIStateGetInst(inst: Inst) returns (state: StateName, found: bool)
      ensures found == (inst in clusterMap)
      ensures state == if found then clusterMap[inst].state else NotDefined
    {
      if inst in clusterMap {
        return clusterMap[inst].state, true;
      }
      return NotDefined, false;
    }

    /** Record, mark and signal: the Update event, and the Signal event after a change. */
    method CIStateUpdate(inst: Inst, state: StateName, vip: Vip) returns (code: int, ok: bool)
      modifies this`clusterMap, this`syncDirty, this`syncSig, this`marks, this`clock
      ensures clusterMap == Updated(old(clusterMap), inst, state, vip)
      ensures syncDirty == old(syncDirty) + if Changes(old(clusterMap), inst, state) then {inst} else {}
      ensures clock == old(clock) + One(Changes(old(clusterMap), inst, state))
      ensures marks == if Changes(old(clusterMap), inst, state) then old(marks)[inst := clock] else old(marks)
      ensures syncSig == (old(syncSig) || Changes(old(clusterMap), inst, state))
      ensures inst in clusterMap && code == clusterMap[inst].code && (ok <==> clusterMap[inst].state == state)
      ensures !state.Other? && Get(old(clusterMap), inst, FRESH_INSTANCE).state != state ==>
                && ok && clusterMap[inst] == ClusterInstance(code, state, vip) && inst in syncDirty && syncSig
                && code == match state { case Master => 1 case Backup => 2 case Fault => 3 case _ => 4 }
      ensures state.Other? || Get(old(clusterMap), inst, FRESH_INSTANCE).state == state ==>
                syncDirty == old(syncDirty) && clusterMap[inst] == Get(old(clusterMap), inst, FRESH_INSTANCE)
    {
      if inst !in clusterMap {
        clusterMap := clusterMap[inst := FRESH_INSTANCE];
      }
      var ci := clusterMap[inst];
      assert clusterMap[inst := ci] == clusterMap;
      if ci.state == state {
        return ci.code, true;
      }
      var newState := StateCode(state);
      if newState == 0 {
        return ci.code, false;
      }
      clusterMap := clusterMap[inst := ClusterInstance(newState, state, vip)];
      syncDirty := syncDirty + {inst};
      clock := clock + 1;
      marks := marks[inst := clock];
      if !syncSig {
        syncSig := true;
      }
      return newState, true;
    }

    /** Any number of updates by other goroutines, while this one holds no lock. */
    method Interfere(ghost since: Moment)
      requires MarkedSince(since, marks, clock, syncDirty)
      modifies this`clusterMap, this`syncDirty, this`syncSig, this`marks, this`clock
      ensures Rely(old(clusterMap), old(syncDirty), clusterMap, syncDirty)
      ensures MarkedSince(since, marks, clock, syncDirty)
    {
      var updates: nat := *;
      while updates > 0
        invariant Rely(old(clusterMap), old(syncDirty), clusterMap, syncDirty)
        invariant MarkedSince(since, marks, clock, syncDirty)
      {
        var inst: Inst, state: StateName, vip: Vip := *, *, *;
        MarkOne(since, marks, clock, syncDirty, inst);
        var _, _ := CIStateUpdate(inst, state, vip);
        updates := updates - 1;
      }
    }

    /**
    The locked section: apply the state recorded now, unless it is a promotion since
    the first read and there is no cloud network to bind to.
    */
    method ApplyLocked(inst: Inst, first: StateName) returns (applied: Change, blocked: bool)
      requires inst in clusterMap
      ensures applied == Change(clusterMap[inst].state, clusterMap[inst].vip)
      ensures blocked <==> cloud && inst.Default? && clusterMap[inst].state == Master && first != Master && !cloudPrepared
    {
      var ci := clusterMap[inst];
      applied := Change(ci.state, ci.vip);
      blocked := cloud && inst.Default? && ci.state == Master && first != Master && !cloudPrepared;
    }

    /** Read the state, and on a promotion prepare the cloud network if it is not. */
    method ReadAndPrepare(inst: Inst, prepareOk: bool, ghost since: Moment) returns (first: StateName, done: bool)
      requires inst in clusterMap && MarkedSince(since, marks, clock, syncDirty)
      modifies this`clusterMap, this`syncDirty, this`syncSig, this`marks, this`clock, this`cloudPrepared
      ensures Rely(old(clusterMap), old(syncDirty), clusterMap, syncDirty)
      ensures MarkedSince(since, marks, clock, syncDirty)
      ensures done <==> cloud && inst.Default? && first == Master && !old(cloudPrepared) && prepareOk
      ensures cloudPrepared == (old(cloudPrepared) || done)
      ensures inst !in syncDirty ==> first == clusterMap[inst].state
    {
      Interfere(since);
      first := clusterMap[inst].state;
      Interfere(since);
      done := cloud && inst.Default? && first == Master && !cloudPrepared && prepareOk;
      if done {
        cloudPrepared := true;
      }
      Interfere(since);
    }

    /**
    Bring one instance in line with its current state. `prepareOk` are the
    outcomes of the prepare hook, attempt by attempt, and `attempt` is the last one
    made. Whatever changes after the state was applied marks the instance.
    */
    method RulesApplyClusterState(inst: Inst, prepareOk: seq<bool>, ghost since: Moment)
      returns (applied: Change, ok: bool, prepares: nat, unprepares: nat, attempt: nat)
      requires |prepareOk| == MAX_RESTARTS + 1 && inst in clusterMap && MarkedSince(since, marks, clock, syncDirty)
      modifies this`clusterMap, this`syncDirty, this`syncSig, this`marks, this`clock, this`cloudPrepared
      ensures Rely(old(clusterMap), old(syncDirty), clusterMap, syncDirty)
      ensures MarkedSince(since, marks, clock, syncDirty)
      ensures !ok ==> inst in syncDirty
      ensures ok && inst !in syncDirty ==> applied == Change(clusterMap[inst].state, clusterMap[inst].vip)
      ensures One(old(cloudPrepared)) + prepares == One(cloudPrepared) + unprepares
      ensures attempt <= 3 && (!ok ==> attempt == 3)
      ensures ok && cloud && inst.Default? && applied.state == Master && !cloudPrepared ==> !prepareOk[attempt]
      ensures ok && cloud && inst.Default? && applied.state == Backup ==> !cloudPrepared
      ensures !(cloud && inst.Default?) ==> ok && attempt == 0 && prepares == unprepares == 0
    {
      var onCloud := cloud && inst.Default?;
      prepares, unprepares, attempt := 0, 0, 0;
      applied := Change(NotDefined, ZERO_VIP);
      while true
        invariant 0 <= attempt <= MAX_RESTARTS
        invariant Rely(old(clusterMap), old(syncDirty), clusterMap, syncDirty)
        invariant MarkedSince(since, marks, clock, syncDirty)
        invariant One(old(cloudPrepared)) + prepares == One(cloudPrepared) && unprepares == 0
        invariant !onCloud ==> attempt == 0 && prepares == 0
        decreases MAX_RESTARTS - attempt
      {
        var first, done := ReadAndPrepare(inst, prepareOk[attempt], since);
        prepares := prepares + One(done);
        var ci, blocked := ApplyLocked(inst, first);
        if blocked {
          if attempt < MAX_RESTARTS {
            attempt := attempt + 1;
            continue;
          }
          ok := false;
          break;
        }
        applied, ok := ci, true;
        Interfere(since);
        if onCloud && ci.state == Backup && cloudPrepared {
          cloudPrepared := false;
          unprepares := 1;
        }
        break;
      }
    }

    /** Apply one instance, and tell the hook if the state is not the one it was told last. */
    method SyncOne(inst: Inst, ghost since: Moment) returns (call: Option<HookCall>)
      requires inst in clusterMap && MarkedSince(since, marks, clock, syncDirty)
      modifies this
      ensures Rely(old(clusterMap), old(syncDirty), clusterMap, syncDirty)
      ensures MarkedSince(since, marks, clock, syncDirty)
      ensures inst !in syncDirty ==> Get(lastHooked, inst, UNSET) == clusterMap[inst].state
      ensures call.None? ==> lastHooked == old(lastHooked) && told == old(told)
      ensures call.Some? ==>
                && call.value.inst == inst && Get(old(lastHooked), inst, UNSET) != call.value.state
                && lastHooked == old(lastHooked)[inst := call.value.state] && told == old(told) + [call.value]
      ensures call.Some? && inst !in syncDirty ==> call.value.vip == clusterMap[inst].vip
    {
      var p0: bool, p1: bool, p2: bool, p3: bool := *, *, *, *;
      var applied, ok, _, _, _ := RulesApplyClusterState(inst, [p0, p1, p2, p3], since);
      if !ok {
        return None;
      }
      if Get(lastHooked, inst, UNSET) == applied.state {
        return None;
      }
      lastHooked := lastHooked[inst := applied.state];
      told := told + [HookCall(inst, applied.state, applied.vip)];
      return Some(HookCall(inst, applied.state, applied.vip));
    }

    /**
    One pass of the worker: take the dirty set as a whole, apply its instances in
    any order, and tell the hook about each state it was not told last.
    */
    method SyncPass() returns (calls: seq<HookCall>)
      requires syncDirty <= clusterMap.Keys && forall i :: i in marks ==> marks[i] <= clock
      modifies this
      ensures Passed(old(syncDirty), old(lastHooked), clusterMap, syncDirty, lastHooked, calls)
      ensures forall i :: i in syncDirty <==> MarkedAfter(old(clock), marks, i)
      ensures told == old(told) + calls
    {
      var dirty := syncDirty;
      syncDirty := {};
      ghost var since := Moment(clock, {});
      var todo := dirty;
      calls := [];
      while todo != {}
        invariant todo <= dirty <= clusterMap.Keys && MarkedSince(since, marks, clock, syncDirty)
        invariant Passed(dirty - todo, old(lastHooked), clusterMap, syncDirty, lastHooked, calls)
        invariant told == old(told) + calls
      {
        var inst :| inst in todo;
        ghost var m, d, hooked := clusterMap, syncDirty, lastHooked;
        var call := SyncOne(inst, since);
        PassedOne(dirty - todo, old(lastHooked), m, d, hooked, calls, inst, clusterMap, syncDirty, lastHooked, call);
        TellMore(old(told), calls, call);
        assert dirty - (todo - {inst}) == (dirty - todo) + {inst};
        todo := todo - {inst};
        if call.Some? {
          calls := calls + [call.value];
        }
      }
      assert dirty - {} == dirty;
    }
  }

  lemma TellMore(a: seq<HookCall>, b: seq<HookCall>, call: Option<HookCall>)
    ensures call.Some? ==> a + b + [call.value] == a + (b + [call.value])
  {
  }

  // ---------------------------------------------------------------- what a pass does

  /** The instance is remembered as before. */
  predicate Untold(before: map<Inst, StateName>, after: map<Inst, StateName>, i: Inst) {
    (i in after <==> i in before) && (i in after ==> after[i] == before[i])
  }

  ghost predicate ToldAbout(calls: seq<HookCall>, i: Inst) { exists k :: 0 <= k < |calls| && calls[k].inst == i }

  /**
  What a pass over the instances `done` did: each that was not marked since has its
  present state as the last told; the others are remembered as before; each call is
  news, is what is remembered and, unless marked since, carries the present VIP;
  there is at most one per instance; and nothing is remembered that was not told.
  */
  ghost predicate Passed(done: set<Inst>, before: map<Inst, StateName>, m: map<Inst, ClusterInstance>, d: set<Inst>,
                         after: map<Inst, StateName>, calls: seq<HookCall>)
  {
    && PassedInstances(done, before, m, d, after)
    && PassedCalls(done, before, m, d, after, calls)
    && (forall i :: i in after && Get(before, i, UNSET) != after[i] ==> ToldAbout(calls, i))
  }

  ghost predicate PassedInstances(done: set<Inst>, before: map<Inst, StateName>, m: map<Inst, ClusterInstance>, d: set<Inst>,
                                  after: map<Inst, StateName>)
  {
    && (forall i :: i in done && i !in d ==> i in m && Get(after, i, UNSET) == m[i].state)
    && (forall i :: i !in done ==> Untold(before, after, i))
  }

  ghost predicate PassedCalls(done: set<Inst>, before: map<Inst, StateName>, m: map<Inst, ClusterInstance>, d: set<Inst>,
                              after: map<Inst, StateName>, calls: seq<HookCall>)
  {
    && (forall k :: 0 <= k < |calls| ==> Reported(calls[k], done, before, after))
    && (forall k :: 0 <= k < |calls| && calls[k].inst in m && calls[k].inst !in d ==> calls[k].vip == m[calls[k].inst].vip)
    && (forall k, l :: 0 <= k < l < |calls| ==> calls[k].inst != calls[l].inst)
  }

  /** The outcome of applying one instance. */
  ghost predicate OneApplied(inst: Inst, m: map<Inst, ClusterInstance>, d: set<Inst>, hooked: map<Inst, StateName>,
                             hooked': map<Inst, StateName>, call: Option<HookCall>)
  {
    && inst in m && (inst !in d ==> Get(hooked', inst, UNSET) == m[inst].state)
    && (call.None? ==> hooked' == hooked)
    && (call.Some? ==>
          && call.value.inst == inst && Get(hooked, inst, UNSET) != call.value.state
          && hooked' == hooked[inst := call.value.state]
          && (inst !in d ==> call.value.vip == m[inst].vip))
  }

  lemma InstancesOne(done: set<Inst>, before: map<Inst, StateName>, m: map<Inst, ClusterInstance>, d: set<Inst>,
                     hooked: map<Inst, StateName>, inst: Inst, m': map<Inst, ClusterInstance>, d': set<Inst>,
                     hooked': map<Inst, StateName>, call: Option<HookCall>)
    requires PassedInstances(done, before, m, d, hooked) && Rely(m, d, m', d') && OneApplied(inst, m', d', hooked, hooked', call)
    ensures PassedInstances(done + {inst}, before, m', d', hooked')
  {
  }

  lemma ToldMore(calls: seq<HookCall>, call: HookCall, i: Inst)
    ensures ToldAbout(calls, i) ==> ToldAbout(calls + [call], i)
    ensures ToldAbout(calls + [call], call.inst)
  {
    var all := calls + [call];
    if ToldAbout(calls, i) {
      var k :| 0 <= k < |calls| && calls[k].inst == i;
      assert all[k].inst == i;
    }
    assert all[|calls|].inst == call.inst;
  }

  lemma CallsOne(done: set<Inst>, before: map<Inst, StateName>, m: map<Inst, ClusterInstance>, d: set<Inst>,
                 hooked: map<Inst, StateName>, calls: seq<HookCall>, inst: Inst, m': map<Inst, ClusterInstance>,
                 d': set<Inst>, hooked': map<Inst, StateName>, call: HookCall)
    requires PassedCalls(done, before, m, d, hooked, calls) && inst !in done && done <= m.Keys && Rely(m, d, m', d')
    requires OneApplied(inst, m', d', hooked, hooked', Some(call)) && Untold(before, hooked, inst)
    ensures PassedCalls(done + {inst}, before, m', d', hooked', calls + [call])
  {
    var all := calls + [call];
    assert forall k :: 0 <= k < |calls| ==> all[k] == calls[k];
  }

  lemma PassedOne(done: set<Inst>, before: map<Inst, StateName>, m: map<Inst, ClusterInstance>, d: set<Inst>,
                  hooked: map<Inst, StateName>, calls: seq<HookCall>, inst: Inst, m': map<Inst, ClusterInstance>,
                  d': set<Inst>, hooked': map<Inst, StateName>, call: Option<HookCall>)
    requires Passed(done, before, m, d, hooked, calls) && inst !in done && done <= m.Keys && Rely(m, d, m', d')
    requires OneApplied(inst, m', d', hooked, hooked', call)
    ensures Passed(done + {inst}, before, m', d', hooked', calls + if call.Some? then [call.value] else [])
  {
    InstancesOne(done, before, m, d, hooked, inst, m', d', hooked', call);
    assert Untold(before, hooked, inst);
    if call.Some? {
      var all := calls + [call.value];
      CallsOne(done, before, m, d, hooked, calls, inst, m', d', hooked', call.value);
      forall i | i in hooked' && Get(before, i, UNSET) != hooked'[i] ensures ToldAbout(all, i) {
        ToldMore(calls, call.value, i);
      }
    } else {
      assert calls + [] == calls;
    }
  }
}
