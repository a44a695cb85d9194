/**
Applying the stored IP configuration to interfaces as link events arrive: the
full configuration once per interface life, the routes again whenever a
configured interface comes back up.
*/
module IntfConfig {
  import opened Common

  datatype Intf = Intf(state: bool, configApplied: bool, needRouteApply: bool)

  /** A link event; `configOk` says whether applying the full configuration would succeed now. */
  datatype Event = Event(name: string, state: bool, add: bool, dirExists: bool, configOk: bool)

  datatype Work = Nothing | FullConfig | Routes

  class NlH {
    var intfs: map<string, Intf>

    constructor ()
      ensures intfs == map[]
    {
      intfs := map[];
    }

    method ApplyConfigMap(e: Event) returns (work: Work)
      modifies this
      ensures forall n :: n != e.name ==> (n in intfs <==> n in old(intfs)) && (n in intfs ==> intfs[n] == old(intfs)[n])
      ensures Look(intfs, e.name) == Next(Look(old(intfs), e.name), e)
      ensures work == Task(Look(old(intfs), e.name), e)
    {
      work := Nothing;
      if !e.dirExists {
        return;
      }
      if e.add {
        if e.name in intfs {
          var configApplied := intfs[e.name].configApplied;
          if !configApplied {
            work := FullConfig;
            configApplied := e.configOk;
            intfs := intfs[e.name := Intf(e.state, configApplied, false)];
          } else if intfs[e.name].state != e.state {
            var needRouteApply := intfs[e.name].needRouteApply;
            if e.state && needRouteApply {
              work := Routes;
              needRouteApply := false;
            } else if !e.state {
              needRouteApply := true;
            }
            intfs := intfs[e.name := Intf(e.state, configApplied, needRouteApply)];
          }
        } else {
          work := FullConfig;
          intfs := intfs[e.name := Intf(e.state, e.configOk, false)];
        }
      } else {
        intfs := intfs - {e.name};
      }
    }
  }

  // ------------------------------------------------------------- one interface

  function Look(m: map<string, Intf>, name: string): Option<Intf> {
    if name in m then Some(m[name]) else None
  }

  predicate Configured(i: Option<Intf>) { i.Some? && i.value.configApplied }

  predicate Flips(i: Option<Intf>, e: Event) { Configured(i) && i.value.state != e.state }

  /** What one event makes of the interface it names. */
  function Next(i: Option<Intf>, e: Event): Option<Intf> {
    if !e.dirExists then i
    else if !e.add then None
    else if !Configured(i) then Some(Intf(e.state, e.configOk, false))
    else if Flips(i, e) then Some(Intf(e.state, true, !e.state))
    else i
  }

  function Task(i: Option<Intf>, e: Event): Work {
    if !e.dirExists || !e.add then Nothing
    else if !Configured(i) then FullConfig
    else if Flips(i, e) && e.state && i.value.needRouteApply then Routes
    else Nothing
  }

  // ----------------------------------------------------------------- every run

  function Update(m: map<string, Intf>, e: Event): map<string, Intf> {
    match Next(Look(m, e.name), e)
    case None => m - {e.name}
    case Some(i) => m[e.name := i]
  }

  function RunAll(events: seq<Event>): map<string, Intf> {
    if events == [] then map[]
    else Update(RunAll(events[..|events| - 1]), events[|events| - 1])
  }

  /** The events of one interface. */
  function Of(events: seq<Event>, name: string): seq<Event> {
    if events == [] then []
    else
      var init, e := events[..|events| - 1], events[|events| - 1];
      if e.name == name then Of(init, name) + [e] else Of(init, name)
  }

  function Run(events: seq<Event>): Option<Intf> {
    if events == [] then None
    else Next(Run(events[..|events| - 1]), events[|events| - 1])
  }

  /** Interfaces do not disturb each other. */
  lemma {:induction false} InterfacesAreIndependent(events: seq<Event>, name: string)
    ensures Look(RunAll(events), name) == Run(Of(events, name))
  {
    if events != [] {
      var init, e := events[..|events| - 1], events[|events| - 1];
      InterfacesAreIndependent(init, name);
      if e.name == name {
        assert (Of(init, name) + [e])[..|Of(init, name)|] == Of(init, name);
      }
    }
  }

  /** What a run did: configurations that succeeded, routes, losses of the link, and deletions. */
  datatype Tally = Tally(configs: nat, routes: nat, downs: nat, forgotten: nat, abandoned: nat)

  predicate Pending(i: Option<Intf>) { i.Some? && i.value.needRouteApply }

  predicate Deletes(e: Event) { e.dirExists && !e.add }

  function Count(events: seq<Event>): Tally {
    if events == [] then Tally(0, 0, 0, 0, 0)
    else
      var init, e := events[..|events| - 1], events[|events| - 1];
      var i, t := Run(init), Count(init);
      Tally(t.configs + One(Task(i, e) == FullConfig && e.configOk),
            t.routes + One(Task(i, e) == Routes),
            t.downs + One(e.dirExists && e.add && Flips(i, e) && !e.state),
            t.forgotten + One(Deletes(e) && Configured(i)),
            t.abandoned + One(Deletes(e) && Pending(i)))
  }

  /** Routes wait only for a configured interface whose link is down. */
  predicate Sound(i: Option<Intf>) { Pending(i) ==> Configured(i) && !i.value.state }

  /**
  After every run of events: each successful configuration is in force or was
  ended by a deletion, so none is repeated within one life of the interface; and
  each loss of the link after configuration has been answered by reapplying the
  routes, is still waiting, or was given up with the interface.
  */
  lemma {:induction false} RunBalances(events: seq<Event>)
    ensures Sound(Run(events))
    ensures Count(events).configs == Count(events).forgotten + One(Configured(Run(events)))
    ensures Count(events).downs == Count(events).routes + Count(events).abandoned + One(Pending(Run(events)))
  {
    if events != [] {
      RunBalances(events[..|events| - 1]);
    }
  }

  /** The interface has been up while configured, in its present life. */
  predicate HasBeenUp(events: seq<Event>) {
    events != [] && Configured(Run(events)) &&
    (Run(events).value.state || (Configured(Run(events[..|events| - 1])) && HasBeenUp(events[..|events| - 1])))
  }

  lemma {:induction false} PendingIff(events: seq<Event>)
    ensures Pending(Run(events)) <==> HasBeenUp(events) && !Run(events).value.state
  {
    if events != [] {
      RunBalances(events[..|events| - 1]);
      PendingIff(events[..|events| - 1]);
    }
  }

  /** An event reapplies the routes exactly if it brings back up a configured interface that was up before. */
  lemma {:induction false} RoutesFollowReturn(events: seq<Event>, e: Event)
    ensures Task(Run(events), e) == Routes <==>
            e.dirExists && e.add && e.state && HasBeenUp(events) && !Run(events).value.state
  {
    PendingIff(events);
  }

  /** After an event the interface has the state the event names, is gone, or is as it was without a configuration directory. */
  lemma LastEventIsRecorded(i: Option<Intf>, e: Event)
    ensures !e.dirExists ==> Next(i, e) == i
    ensures e.dirExists && !e.add ==> Next(i, e) == None
    ensures e.dirExists && e.add ==> Next(i, e).Some? && Next(i, e).value.state == e.state
  {
  }

  /** In its present life the interface has seen an add event at which the configuration could be applied. */
  ghost predicate HasSucceeded(events: seq<Event>) {
    exists k :: 0 <= k < |events| && SucceedsAt(events, k)
  }

  ghost predicate SucceedsAt(events: seq<Event>, k: nat)
    requires k < |events|
  {
    && events[k].dirExists && events[k].add && events[k].configOk
    && forall j :: k < j < |events| ==> !Deletes(events[j])
  }

  lemma HasSucceededSnoc(events: seq<Event>, e: Event)
    ensures HasSucceeded(events + [e]) <==> (e.dirExists && e.add && e.configOk) || (HasSucceeded(events) && !Deletes(e))
  {
    var all := events + [e];
    assert forall j :: 0 <= j < |events| ==> all[j] == events[j];
    if e.dirExists && e.add && e.configOk {
      assert SucceedsAt(all, |events|);
    }
    if HasSucceeded(events) && !Deletes(e) {
      var k :| 0 <= k < |events| && SucceedsAt(events, k);
      assert SucceedsAt(all, k);
    }
    if HasSucceeded(all) {
      var k :| 0 <= k < |all| && SucceedsAt(all, k);
      if k < |events| {
        assert SucceedsAt(events, k) && !Deletes(all[|events|]);
      }
    }
  }

  lemma {:induction false} ConfiguredIff(events: seq<Event>)
    ensures Configured(Run(events)) <==> HasSucceeded(events)
  {
    if events != [] {
      var init, e := events[..|events| - 1], events[|events| - 1];
      ConfiguredIff(init);
      assert events == init + [e];
      HasSucceededSnoc(init, e);
    }
  }

  /** An add event applies the full configuration exactly if none has succeeded in this life of the interface. */
  lemma {:induction false} FullConfigIff(events: seq<Event>, e: Event)
    ensures Task(Run(events), e) == FullConfig <==> e.dirExists && e.add && !HasSucceeded(events)
  {
    ConfiguredIff(events);
  }
}
