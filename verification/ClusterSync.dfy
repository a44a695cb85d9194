/**
The cluster-state mailbox: updaters that record a state change and wake a worker,
and the worker that applies the recorded state and runs a hook.

The model is a state machine. One event is one critical section, one channel
operation or one call out of the package; updates may land between any two of
them. The history component only remembers what happened: no step reads it.
*/
module ClusterSync {
  import opened Common

  /** The default instance and every other one, by name. */
  datatype Inst = Default | Named(name: string)

  /** The five state strings of the state map, and every other string. */
  datatype StateName = Master | Backup | Fault | Stop | NotDefined | Other(text: string)

  type Vip = string

  const UNSET: StateName := Other("")
  const ZERO_VIP: Vip := "0.0.0.0"
  const MAX_RESTARTS: nat := 3

  /** The code of each known state, 0 for an invalid one. */
  function StateCode(s: StateName): nat {
    match s
    case Master => 1
    case Backup => 2
    case Fault => 3
    case Stop => 4
    case NotDefined => 4
    case Other(_) => 0
  }

  /** A state decided for an instance together with the VIP decided with it. */
  datatype Change = Change(state: StateName, vip: Vip)

  datatype ClusterInstance = ClusterInstance(code: int, state: StateName, vip: Vip)

  const FRESH_INSTANCE := ClusterInstance(4, NotDefined, ZERO_VIP)

  /** How far the pass over one instance has come. */
  datatype Stage =
    | Reading(attempt: nat)
    | Preparing(attempt: nat, first: StateName)
    | Locking(attempt: nat, first: StateName, prepareFailed: bool)
    | Unpreparing(applied: Change)
    | Hooking(applied: Change)

  /** Where the worker is. `todo` is what is left of the dirty set it took. */
  datatype Worker =
    | Waiting
    | Woken
    | Between(todo: set<Inst>)
    | Busy(todo: set<Inst>, inst: Inst, stage: Stage)
    | Stopped

  /**
  What happened so far to one instance: every decided change, how many of them
  the last completed pass covered, how many passes completed, the hook calls and
  the index of the decided change each of them reported.
  */
  datatype Story = Story(
    decided: seq<Change>,
    covered: nat,
    applies: nat,
    hooked: seq<Change>,
    hookedAt: seq<nat>)

  const EMPTY_STORY := Story([], 0, 0, [], [])

  /** `senders` counts the updaters that have marked an instance and not yet signalled. */
  datatype System = System(
    cloud: bool,
    instances: map<Inst, ClusterInstance>,
    dirty: set<Inst>,
    signal: bool,
    senders: nat,
    fin: bool,
    worker: Worker,
    lastHooked: map<Inst, StateName>,
    prepared: bool,
    stories: map<Inst, Story>,
    prepares: nat,
    unprepares: nat)

  datatype Event =
    | Update(inst: Inst, state: StateName, vip: Vip)
    | Signal
    | Destroy
    | Wake
    | Exit
    | Swap
    | Pick(next: Inst)
    | EndPass
    | ReadFirst
    | Prepare(ok: bool)
    | Apply
    | Unprepare
    | Hook

  function Get<T>(m: map<Inst, T>, i: Inst, d: T): T {
    if i in m then m[i] else d
  }

  function StoryOf(s: System, i: Inst): Story { Get(s.stories, i, EMPTY_STORY) }

  /** What a reader of the instance sees. */
  function Recorded(s: System, i: Inst): Change {
    var c := Get(s.instances, i, FRESH_INSTANCE);
    Change(c.state, c.vip)
  }

  function Init(cloud: bool): System {
    System(cloud, map[Default := FRESH_INSTANCE], {}, false, 0, false, Waiting, map[], false, map[], 0, 0)
  }

  predicate Enabled(s: System, e: Event) {
    match e
    case Update(_, _, _) => true
    case Signal => s.senders > 0
    case Destroy => true
    case Wake => s.worker.Waiting? && s.signal
    case Exit => s.worker.Waiting? && s.fin
    case Swap => s.worker.Woken?
    case Pick(i) => s.worker.Between? && i in s.worker.todo
    case EndPass => s.worker.Between? && s.worker.todo == {}
    case ReadFirst => s.worker.Busy? && s.worker.stage.Reading?
    case Prepare(_) => s.worker.Busy? && s.worker.stage.Preparing?
    case Apply => s.worker.Busy? && s.worker.stage.Locking?
    case Unprepare => s.worker.Busy? && s.worker.stage.Unpreparing?
    case Hook => s.worker.Busy? && s.worker.stage.Hooking?
  }

  predicate OnCloud(s: System, i: Inst) { s.cloud && i.Default? }

  /** The update names a valid state other than the recorded one. */
  predicate Changes(m: map<Inst, ClusterInstance>, i: Inst, state: StateName) {
    StateCode(state) != 0 && Get(m, i, FRESH_INSTANCE).state != state
  }

  /** The map after an update: one entry fresh, kept or replaced. */
  function Updated(m: map<Inst, ClusterInstance>, i: Inst, state: StateName, vip: Vip): map<Inst, ClusterInstance> {
    m[i := if Changes(m, i, state) then ClusterInstance(StateCode(state), state, vip) else Get(m, i, FRESH_INSTANCE)]
  }

  /** The locked section of an update: record the change and mark the instance. */
  function UpdateStep(s: System, i: Inst, state: StateName, vip: Vip): System {
    var changes, story := Changes(s.instances, i, state), StoryOf(s, i);
    s.(instances := Updated(s.instances, i, state, vip),
       dirty := s.dirty + if changes then {i} else {},
       senders := s.senders + One(changes),
       stories := s.stories[i := story.(decided := story.decided + if changes then [Change(state, vip)] else [])])
  }

  /** The cloud network has to be prepared in this attempt. */
  predicate MustPrepare(s: System)
    requires s.worker.Busy? && s.worker.stage.Preparing?
  {
    OnCloud(s, s.worker.inst) && s.worker.stage.first == Master && !s.prepared
  }

  function PrepareStep(s: System, ok: bool): System
    requires s.worker.Busy? && s.worker.stage.Preparing?
  {
    var p, must := s.worker.stage, MustPrepare(s);
    s.(worker := s.worker.(stage := Locking(p.attempt, p.first, must && !ok)),
       prepared := s.prepared || (must && ok),
       prepares := s.prepares + One(must && ok))
  }

  /** Promoted since the first read with no cloud network to bind to. */
  predicate MustRestart(s: System)
    requires s.worker.Busy? && s.worker.stage.Locking?
  {
    && OnCloud(s, s.worker.inst)
    && Recorded(s, s.worker.inst).state == Master
    && s.worker.stage.first != Master
    && !s.prepared
  }

  function ApplyStep(s: System): System
    requires s.worker.Busy? && s.worker.stage.Locking?
  {
    var w, story, restart := s.worker, StoryOf(s, s.worker.inst), MustRestart(s);
    s.(worker := if !restart then w.(stage := Unpreparing(Recorded(s, w.inst)))
                 else if w.stage.attempt < MAX_RESTARTS then w.(stage := Reading(w.stage.attempt + 1))
                 else Between(w.todo),
       stories := s.stories[w.inst := if restart then story
                                      else story.(covered := |story.decided|, applies := story.applies + 1)])
  }

  predicate MustUnprepare(s: System)
    requires s.worker.Busy? && s.worker.stage.Unpreparing?
  {
    OnCloud(s, s.worker.inst) && s.worker.stage.applied.state == Backup && s.prepared
  }

  function UnprepareStep(s: System): System
    requires s.worker.Busy? && s.worker.stage.Unpreparing?
  {
    var must := MustUnprepare(s);
    s.(worker := s.worker.(stage := Hooking(s.worker.stage.applied)),
       prepared := s.prepared && !must,
       unprepares := s.unprepares + One(must))
  }

  /** The hook is told about a state other than the one it was told last. */
  predicate MustHook(s: System)
    requires s.worker.Busy? && s.worker.stage.Hooking?
  {
    Get(s.lastHooked, s.worker.inst, UNSET) != s.worker.stage.applied.state
  }

  function HookStep(s: System): System
    requires s.worker.Busy? && s.worker.stage.Hooking?
  {
    var i, change, story := s.worker.inst, s.worker.stage.applied, StoryOf(s, s.worker.inst);
    s.(worker := Between(s.worker.todo),
       lastHooked := if MustHook(s) then s.lastHooked[i := change.state] else s.lastHooked,
       stories := s.stories[i := if MustHook(s) then
                                   story.(hooked := story.hooked + [change],
                                          hookedAt := story.hookedAt + [story.covered - One(story.covered > 0)])
                                 else story])
  }

  function Step(s: System, e: Event): System
    requires Enabled(s, e)
  {
    match e
    case Update(i, state, vip) => UpdateStep(s, i, state, vip)
    case Signal => s.(senders := s.senders - 1, signal := true)
    case Destroy => s.(fin := true)
    case Wake => s.(signal := false, worker := Woken)
    case Exit => s.(worker := Stopped)
    case Swap => s.(dirty := {}, worker := Between(s.dirty))
    case Pick(i) => s.(worker := Busy(s.worker.todo - {i}, i, Reading(0)))
    case EndPass => s.(worker := Waiting)
    case ReadFirst => s.(worker := s.worker.(stage := Preparing(s.worker.stage.attempt, Recorded(s, s.worker.inst).state)))
    case Prepare(ok) => PrepareStep(s, ok)
    case Apply => ApplyStep(s)
    case Unprepare => UnprepareStep(s)
    case Hook => HookStep(s)
  }

  /** Runs: a sequence of states linked by enabled events. */
  ghost predicate Linked(states: seq<System>, events: seq<Event>) {
    && |states| == |events| + 1
    && forall k :: 0 <= k < |events| ==> Enabled(states[k], events[k]) && states[k + 1] == Step(states[k], events[k])
  }

  ghost predicate Execution(states: seq<System>, events: seq<Event>) {
    Linked(states, events) && states[0] == Init(states[0].cloud)
  }

  // ---------------------------------------------- one instance seen on its own

  /** Where one instance is in the worker's pass. */
  datatype Place = Nowhere | Queued | At(stage: Stage)

  /** All the system knows about one instance. */
  datatype Local = Local(
    record: ClusterInstance,
    dirty: bool,
    place: Place,
    hookKnown: bool,
    lastHook: StateName,
    story: Story)

  function PlaceOf(w: Worker, i: Inst): Place {
    if w.Busy? && w.inst == i then At(w.stage)
    else if (w.Between? || w.Busy?) && i in w.todo then Queued
    else Nowhere
  }

  function View(s: System, i: Inst): Local {
    Local(Get(s.instances, i, FRESH_INSTANCE), i in s.dirty, PlaceOf(s.worker, i),
          i in s.lastHooked, Get(s.lastHooked, i, UNSET), StoryOf(s, i))
  }

  /** In the dirty set the worker took, or being applied: not yet read for the last time. */
  predicate Taken(p: Place) {
    p.Queued? || (p.At? && !p.stage.Unpreparing? && !p.stage.Hooking?)
  }

  /** Applied, with the hook still to be decided about. */
  predicate Returning(p: Place) {
    p.At? && (p.stage.Unpreparing? || p.stage.Hooking?)
  }

  /** The recorded state is the last decided one and its code is the code of its name. */
  predicate RecordInv(c: ClusterInstance, d: seq<Change>) {
    && StateCode(c.state) == c.code != 0
    && (|d| > 0 ==> Change(c.state, c.vip) == d[|d| - 1])
    && (|d| == 0 ==> c.state == NotDefined)
    && (forall k :: 0 <= k < |d| ==> StateCode(d[k].state) != 0)
  }

  /** Whatever is not covered is outstanding; marks collapse, so passes never outnumber changes. */
  predicate CoverInv(l: Local) {
    && l.story.covered <= |l.story.decided|
    && (l.dirty || Taken(l.place) || l.story.covered == |l.story.decided|)
    && l.story.applies + One(l.dirty) + One(Taken(l.place)) <= |l.story.decided|
  }

  /** A pass returns a decided change, and a state that moved under it has marked the instance again. */
  predicate PassInv(l: Local) {
    && (Returning(l.place) ==>
          && 0 < l.story.covered <= |l.story.decided|
          && l.place.stage.applied == l.story.decided[l.story.covered - 1])
    && (l.place.At? && (l.place.stage.Preparing? || l.place.stage.Locking?) ==>
          l.place.stage.first == l.record.state || l.dirty)
  }

  /**
  The hook calls are decided changes in order, none repeating the state before
  it, and they end in the state applied last, unless the pass is still returning.
  */
  predicate HookInv(story: Story, known: bool, last: StateName, returning: bool) {
    var Story(d, covered, _, h, at) := story;
    && |at| == |h|
    && covered <= |d|
    && (forall k :: 0 <= k < |h| ==> at[k] < covered && h[k] == d[at[k]])
    && (forall k :: 0 < k < |h| ==> at[k - 1] < at[k] && h[k - 1].state != h[k].state)
    && (if known then |h| > 0 && last == h[|h| - 1].state else |h| == 0 && last == UNSET)
    && (covered > 0 && !returning ==> last == d[covered - 1].state)
  }

  predicate LocalInv(l: Local) {
    && RecordInv(l.record, l.story.decided)
    && CoverInv(l)
    && PassInv(l)
    && HookInv(l.story, l.hookKnown, l.lastHook, Returning(l.place))
  }

  function LocalUpdate(l: Local, state: StateName, vip: Vip): Local
    requires StateCode(state) != 0
  {
    l.(record := ClusterInstance(StateCode(state), state, vip),
       dirty := true,
       story := l.story.(decided := l.story.decided + [Change(state, vip)]))
  }

  function LocalApply(l: Local): Local {
    l.(place := At(Unpreparing(Change(l.record.state, l.record.vip))),
       story := l.story.(covered := |l.story.decided|, applies := l.story.applies + 1))
  }

  function LocalHook(l: Local, change: Change): Local {
    l.(place := Nowhere, hookKnown := true, lastHook := change.state,
       story := l.story.(hooked := l.story.hooked + [change],
                         hookedAt := l.story.hookedAt + [l.story.covered - One(l.story.covered > 0)]))
  }

  lemma LocalUpdateKeeps(l: Local, state: StateName, vip: Vip)
    requires LocalInv(l) && StateCode(state) != 0
    ensures LocalInv(LocalUpdate(l, state, vip))
  {
  }

  lemma LocalApplyKeeps(l: Local)
    requires LocalInv(l) && l.place.At? && l.place.stage.Locking?
    ensures LocalInv(LocalApply(l))
  {
  }

  lemma HookedStory(story: Story, known: bool, last: StateName, change: Change)
    requires HookInv(story, known, last, true) && story.covered > 0
    requires change == story.decided[story.covered - 1] && change.state != last
    ensures HookInv(story.(hooked := story.hooked + [change], hookedAt := story.hookedAt + [story.covered - 1]),
                    true, change.state, false)
  {
    var Story(d, covered, _, h, at) := story;
    if |h| > 0 {
      assert h[|h| - 1] == d[at[|h| - 1]];
    }
  }

  lemma LocalHookKeeps(l: Local)
    requires LocalInv(l) && l.place.At? && l.place.stage.Hooking? && l.lastHook != l.place.stage.applied.state
    ensures LocalInv(LocalHook(l, l.place.stage.applied))
  {
    HookedStory(l.story, l.hookKnown, l.lastHook, l.place.stage.applied);
  }

  lemma LocalSkipKeeps(l: Local)
    requires LocalInv(l) && l.place.At? && l.place.stage.Hooking? && l.lastHook == l.place.stage.applied.state
    ensures LocalInv(l.(place := Nowhere))
  {
  }

  /** Every other move of the worker only changes the place of an instance. */
  predicate QuietMove(l: Local, dirty: bool, place: Place) {
    || (place == l.place && dirty == l.dirty)
    || (l.place.Nowhere? && !dirty && place == (if l.dirty then Queued else Nowhere))
    || (dirty == l.dirty && l.place.Queued? && place == At(Reading(0)))
    || (dirty == l.dirty && l.place.At? && place.At? &&
        match place.stage
        case Reading(_) => l.place.stage.Locking?
        case Preparing(_, first) => l.place.stage.Reading? && first == l.record.state
        case Locking(_, first, _) => l.place.stage.Preparing? && first == l.place.stage.first
        case Hooking(applied) => l.place.stage.Unpreparing? && applied == l.place.stage.applied
        case _ => false)
    || (dirty == l.dirty && l.place.At? && l.place.stage.Locking? && place.Nowhere? && l.place.stage.first != l.record.state)
  }

  lemma QuietMoveKeeps(l: Local, dirty: bool, place: Place)
    requires LocalInv(l) && QuietMove(l, dirty, place)
    ensures LocalInv(l.(dirty := dirty, place := place))
  {
  }

  // ------------------------------------------------------- from one to the system

  predicate WorkerInv(w: Worker) { w.Busy? ==> w.inst !in w.todo }

  lemma UpdateView(s: System, i: Inst, state: StateName, vip: Vip, j: Inst)
    ensures View(UpdateStep(s, i, state, vip), j) ==
            if i == j && Changes(s.instances, i, state) then LocalUpdate(View(s, j), state, vip) else View(s, j)
  {
  }

  lemma ApplyView(s: System, j: Inst)
    requires Enabled(s, Apply) && WorkerInv(s.worker)
    ensures View(ApplyStep(s), j) ==
            if j != s.worker.inst then View(s, j)
            else if !MustRestart(s) then LocalApply(View(s, j))
            else View(s, j).(place := if s.worker.stage.attempt < MAX_RESTARTS
                                      then At(Reading(s.worker.stage.attempt + 1)) else Nowhere)
  {
  }

  lemma HookView(s: System, j: Inst)
    requires Enabled(s, Hook) && WorkerInv(s.worker)
    ensures View(HookStep(s), j) ==
            if j != s.worker.inst then View(s, j)
            else if MustHook(s) then LocalHook(View(s, j), s.worker.stage.applied)
            else View(s, j).(place := Nowhere)
  {
  }

  predicate Control(e: Event) {
    e.Signal? || e.Destroy? || e.Wake? || e.Exit? || e.Swap? || e.Pick? || e.EndPass?
  }

  /** The event leaves everything about `j` alone except whether it is marked and where it is. */
  predicate Quietly(l: Local, m: Local) {
    m == l.(dirty := m.dirty, place := m.place) && QuietMove(l, m.dirty, m.place)
  }

  lemma ControlView(s: System, e: Event, j: Inst)
    requires Enabled(s, e) && WorkerInv(s.worker) && Control(e)
    ensures Quietly(View(s, j), View(Step(s, e), j))
  {
  }

  lemma ReadView(s: System, j: Inst)
    requires Enabled(s, ReadFirst) && WorkerInv(s.worker)
    ensures Quietly(View(s, j), View(Step(s, ReadFirst), j))
  {
  }

  lemma PrepareView(s: System, ok: bool, j: Inst)
    requires Enabled(s, Prepare(ok)) && WorkerInv(s.worker)
    ensures Quietly(View(s, j), View(PrepareStep(s, ok), j))
  {
  }

  lemma UnprepareView(s: System, j: Inst)
    requires Enabled(s, Unprepare) && WorkerInv(s.worker)
    ensures Quietly(View(s, j), View(UnprepareStep(s), j))
  {
  }

  lemma QuietlyKeeps(l: Local, m: Local)
    requires LocalInv(l) && Quietly(l, m)
    ensures LocalInv(m)
  {
    QuietMoveKeeps(l, m.dirty, m.place);
  }

  lemma ApplyKeeps(s: System, j: Inst)
    requires Enabled(s, Apply) && WorkerInv(s.worker) && LocalInv(View(s, j))
    ensures LocalInv(View(ApplyStep(s), j))
  {
    ApplyView(s, j);
    var l := View(s, j);
    if j == s.worker.inst {
      if MustRestart(s) {
        QuietMoveKeeps(l, l.dirty, View(ApplyStep(s), j).place);
      } else {
        LocalApplyKeeps(l);
      }
    }
  }

  lemma HookKeeps(s: System, j: Inst)
    requires Enabled(s, Hook) && WorkerInv(s.worker) && LocalInv(View(s, j))
    ensures LocalInv(View(HookStep(s), j))
  {
    HookView(s, j);
    if j == s.worker.inst {
      if MustHook(s) {
        LocalHookKeeps(View(s, j));
      } else {
        LocalSkipKeeps(View(s, j));
      }
    }
  }

  lemma UpdateKeeps(s: System, i: Inst, state: StateName, vip: Vip, j: Inst)
    requires LocalInv(View(s, j))
    ensures LocalInv(View(UpdateStep(s, i, state, vip), j))
  {
    UpdateView(s, i, state, vip, j);
    if i == j && Changes(s.instances, i, state) {
      LocalUpdateKeeps(View(s, j), state, vip);
    }
  }

  lemma OtherKeeps(s: System, e: Event, j: Inst)
    requires Enabled(s, e) && WorkerInv(s.worker) && LocalInv(View(s, j))
    requires Control(e) || e.ReadFirst? || e.Prepare? || e.Unprepare?
    ensures LocalInv(View(Step(s, e), j))
  {
    match e {
      case ReadFirst => ReadView(s, j);
      case Prepare(ok) => PrepareView(s, ok, j);
      case Unprepare => UnprepareView(s, j);
      case _ => ControlView(s, e, j);
    }
    QuietlyKeeps(View(s, j), View(Step(s, e), j));
  }

  lemma StepKeepsLocal(s: System, e: Event, j: Inst)
    requires Enabled(s, e) && WorkerInv(s.worker) && LocalInv(View(s, j))
    ensures LocalInv(View(Step(s, e), j))
  {
    match e
    case Update(i, state, vip) => UpdateKeeps(s, i, state, vip, j);
    case Apply => ApplyKeeps(s, j);
    case Hook => HookKeeps(s, j);
    case _ => OtherKeeps(s, e, j);
  }

  /** A marked instance means the worker is, or will be, awake. */
  predicate WakeInv(s: System) {
    s.dirty != {} ==> s.signal || s.worker.Woken? || s.senders > 0
  }

  /** The cloud hooks alternate, and an attempt on MASTER has a network or has just failed to get one. */
  predicate CloudInv(s: System) {
    && s.prepares == s.unprepares + One(s.prepared)
    && (s.worker.Busy? && s.worker.stage.Locking? && OnCloud(s, s.worker.inst) && s.worker.stage.first == Master ==>
          s.prepared || s.worker.stage.prepareFailed)
  }

  lemma StepKeepsWorker(s: System, e: Event)
    requires Enabled(s, e) && WorkerInv(s.worker)
    ensures WorkerInv(Step(s, e).worker)
  {
  }

  lemma StepKeepsWake(s: System, e: Event)
    requires Enabled(s, e) && WakeInv(s)
    ensures WakeInv(Step(s, e))
  {
  }

  lemma StepKeepsCloud(s: System, e: Event)
    requires Enabled(s, e) && CloudInv(s)
    ensures CloudInv(Step(s, e))
  {
  }

  ghost predicate Inv(s: System) {
    && (forall i: Inst :: LocalInv(View(s, i)))
    && WorkerInv(s.worker)
    && WakeInv(s)
    && CloudInv(s)
  }

  lemma InitInv(cloud: bool)
    ensures Inv(Init(cloud))
  {
  }

  lemma StepKeepsInv(s: System, e: Event)
    requires Enabled(s, e) && Inv(s)
    ensures Inv(Step(s, e))
  {
    StepKeepsWorker(s, e);
    StepKeepsWake(s, e);
    StepKeepsCloud(s, e);
    forall j: Inst ensures LocalInv(View(Step(s, e), j)) {
      StepKeepsLocal(s, e, j);
    }
  }

  lemma {:induction false} ReachableInv(states: seq<System>, events: seq<Event>, k: nat)
    requires Execution(states, events) && k < |states|
    ensures Inv(states[k])
  {
    if k == 0 {
      InitInv(states[0].cloud);
    } else {
      ReachableInv(states, events, k - 1);
      StepKeepsInv(states[k - 1], events[k - 1]);
    }
  }

  // ---------------------------------------------------------------- theorems

  predicate Quiescent(s: System) {
    s.worker.Waiting? && !s.signal && s.dirty == {} && s.senders == 0
  }

  /** The last completed pass over the instance applied its recorded state. */
  predicate InLine(s: System, i: Inst) {
    var story := StoryOf(s, i);
    0 < story.covered <= |story.decided| && story.decided[story.covered - 1] == Recorded(s, i)
  }

  /** In every reachable state whatever is not in line yet is still queued, taken or being applied. */
  lemma NothingIsForgotten(states: seq<System>, events: seq<Event>, k: nat, i: Inst)
    requires Execution(states, events) && k < |states| && StoryOf(states[k], i).decided != []
    ensures i !in states[k].dirty && !Taken(PlaceOf(states[k].worker, i)) ==> InLine(states[k], i)
  {
    ReachableInv(states, events, k);
    assert LocalInv(View(states[k], i));
  }

  /** The recorded code is the code of the recorded name, and both are the last decided ones. */
  lemma RecordIsLastDecision(states: seq<System>, events: seq<Event>, k: nat, i: Inst)
    requires Execution(states, events) && k < |states| && i in states[k].instances
    ensures states[k].instances[i].code == StateCode(states[k].instances[i].state) != 0
    ensures var d := StoryOf(states[k], i).decided; d != [] ==> Recorded(states[k], i) == d[|d| - 1]
  {
    ReachableInv(states, events, k);
    assert LocalInv(View(states[k], i));
  }

  /** No wake-up is lost. */
  lemma DirtyMeansAwake(states: seq<System>, events: seq<Event>, k: nat)
    requires Execution(states, events) && k < |states| && states[k].dirty != {}
    ensures states[k].signal || states[k].worker.Woken? || states[k].senders > 0
  {
    ReachableInv(states, events, k);
  }

  /** At rest every instance that ever changed has its recorded state applied, and hooked last. */
  lemma RestIsInLine(states: seq<System>, events: seq<Event>, k: nat, i: Inst)
    requires Execution(states, events) && k < |states| && Quiescent(states[k])
    requires StoryOf(states[k], i).decided != []
    ensures InLine(states[k], i)
    ensures var h := StoryOf(states[k], i).hooked; h != [] && h[|h| - 1].state == Recorded(states[k], i).state
  {
    ReachableInv(states, events, k);
    assert LocalInv(View(states[k], i));
  }

  /** `sub` lists entries of `all` at strictly rising positions. */
  predicate SubsequenceAt(sub: seq<Change>, all: seq<Change>, at: seq<nat>) {
    && |at| == |sub|
    && (forall k :: 0 <= k < |sub| ==> at[k] < |all| && sub[k] == all[at[k]])
    && (forall k, l :: 0 <= k < l < |at| ==> at[k] < at[l])
  }

  lemma {:induction false} Rising(at: seq<nat>, k: nat, l: nat)
    requires k < l < |at| && forall m :: 0 < m < |at| ==> at[m - 1] < at[m]
    ensures at[k] < at[l]
  {
    if k + 1 < l {
      Rising(at, k, l - 1);
    }
    assert at[l - 1] < at[l];
  }

  /** The hook sees an in-order subsequence of the decided changes and never the same state twice in a row. */
  lemma HookReportsDecisions(states: seq<System>, events: seq<Event>, k: nat, i: Inst)
    requires Execution(states, events) && k < |states|
    ensures exists at: seq<nat> :: SubsequenceAt(StoryOf(states[k], i).hooked, StoryOf(states[k], i).decided, at)
    ensures var h := StoryOf(states[k], i).hooked; forall n :: 0 < n < |h| ==> h[n - 1].state != h[n].state
  {
    ReachableInv(states, events, k);
    assert LocalInv(View(states[k], i));
    var at := StoryOf(states[k], i).hookedAt;
    forall m, n | 0 <= m < n < |at| ensures at[m] < at[n] {
      Rising(at, m, n);
    }
    assert SubsequenceAt(StoryOf(states[k], i).hooked, StoryOf(states[k], i).decided, at);
  }

  /** Marks collapse: an instance is never applied more often than its state was changed. */
  lemma PassesCollapse(states: seq<System>, events: seq<Event>, k: nat, i: Inst)
    requires Execution(states, events) && k < |states|
    ensures StoryOf(states[k], i).applies + One(i in states[k].dirty) <= |StoryOf(states[k], i).decided|
  {
    ReachableInv(states, events, k);
    assert LocalInv(View(states[k], i));
  }

  /** The worker gives up on an instance only after it was marked again, with a wake-up on its way. */
  lemma AbandonedIsQueuedAgain(states: seq<System>, events: seq<Event>, k: nat)
    requires Execution(states, events) && k < |events| && events[k] == Apply && states[k + 1].worker.Between?
    ensures states[k].worker.inst in states[k + 1].dirty
    ensures states[k].worker.stage.attempt >= MAX_RESTARTS
    ensures states[k + 1].signal || states[k + 1].senders > 0
  {
    ReachableInv(states, events, k);
    ReachableInv(states, events, k + 1);
    assert LocalInv(View(states[k], states[k].worker.inst));
  }

  /**
  MASTER is applied on a cloud only with the network prepared, or right after a
  prepare of the same attempt failed; successful prepares and unprepares alternate.
  */
  lemma CloudIsPreparedFirst(states: seq<System>, events: seq<Event>, k: nat)
    requires Execution(states, events) && k < |events| && events[k] == Apply
    requires OnCloud(states[k], states[k].worker.inst) && Recorded(states[k], states[k].worker.inst).state == Master
    ensures states[k + 1].worker.Busy? && states[k + 1].worker.stage.Unpreparing? ==>
              states[k].prepared || (states[k].worker.stage.first == Master && states[k].worker.stage.prepareFailed)
    ensures states[k].prepares == states[k].unprepares + One(states[k].prepared)
  {
    ReachableInv(states, events, k);
  }

  /** The codes of the five known states. */
  lemma StateCodes()
    ensures StateCode(Master) == 1 && StateCode(Backup) == 2 && StateCode(Fault) == 3
    ensures StateCode(Stop) == StateCode(NotDefined) == 4
    ensures forall text :: StateCode(Other(text)) == 0
  {
  }

  /**
  An update naming a known state other than the recorded one is recorded with its
  VIP, decided, marked and about to be signalled; any other update changes nothing
  but that it makes the instance known.
  */
  lemma UpdateIsDecided(s: System, i: Inst, state: StateName, vip: Vip)
    requires Enabled(s, Update(i, state, vip))
    ensures var t := Step(s, Update(i, state, vip));
            && i in t.instances && t.worker == s.worker && t.signal == s.signal
            && (forall j :: j != i ==> (j in t.instances <==> j in s.instances) && (j in t.dirty <==> j in s.dirty)
                                       && StoryOf(t, j) == StoryOf(s, j))
            && (if !state.Other? && Get(s.instances, i, FRESH_INSTANCE).state != state then
                  && t.instances[i].state == state && t.instances[i].vip == vip && i in t.dirty
                  && t.senders == s.senders + 1
                  && StoryOf(t, i).decided == StoryOf(s, i).decided + [Change(state, vip)]
                else
                  && t.instances[i] == Get(s.instances, i, FRESH_INSTANCE) && t.dirty == s.dirty
                  && t.senders == s.senders && StoryOf(t, i).decided == StoryOf(s, i).decided)
  {
    StateCodes();
  }

  /** After BACKUP was applied on a cloud the network is not prepared; nothing else unprepares it. */
  lemma DemotionUnprepares(s: System)
    requires Enabled(s, Unprepare)
    ensures var t := Step(s, Unprepare);
            && (OnCloud(s, s.worker.inst) && s.worker.stage.applied.state == Backup ==> !t.prepared)
            && (!(s.cloud && s.worker.inst.Default?) || s.worker.stage.applied.state != Backup ==>
                  t.prepared == s.prepared && t.unprepares == s.unprepares)
  {
  }

  /** The network is prepared by nothing but a successful prepare after MASTER was read on a cloud. */
  lemma PromotionPrepares(s: System, ok: bool)
    requires Enabled(s, Prepare(ok))
    ensures var t := Step(s, Prepare(ok));
            t.prepared <==> s.prepared || (s.cloud && s.worker.inst.Default? && s.worker.stage.first == Master && ok)
  {
  }

  // ---------------------------------------------------------------- progress

  const PER_INSTANCE: nat := 20

  /** What is left of the pass over one instance, in steps. */
  function Remaining(stage: Stage): nat {
    match stage
    case Reading(attempt) => (if attempt <= MAX_RESTARTS then 3 * (MAX_RESTARTS - attempt) else 0) + 6
    case Preparing(attempt, _) => (if attempt <= MAX_RESTARTS then 3 * (MAX_RESTARTS - attempt) else 0) + 5
    case Locking(attempt, _, _) => (if attempt <= MAX_RESTARTS then 3 * (MAX_RESTARTS - attempt) else 0) + 4
    case Unpreparing(_) => 2
    case Hooking(_) => 1
  }

  function Effort(w: Worker): nat {
    match w
    case Waiting => 0
    case Woken => 2
    case Between(todo) => 1 + PER_INSTANCE * |todo|
    case Busy(todo, _, stage) => 1 + PER_INSTANCE * |todo| + Remaining(stage)
    case Stopped => 0
  }

  function Measure(s: System): nat {
    4 * s.senders + 3 * One(s.signal) + PER_INSTANCE * |s.dirty| + Effort(s.worker)
  }

  /** Events of the protocol itself, as opposed to its environment. */
  predicate Internal(e: Event) { !e.Update? && !e.Destroy? && !e.Exit? }

  lemma StagesCountDown(s: System, e: Event)
    requires Enabled(s, e) && s.worker.Busy? && !e.Update? && !e.Destroy? && !e.Signal?
    ensures Effort(Step(s, e).worker) < Effort(s.worker)
    ensures var t := Step(s, e); t.senders == s.senders && t.signal == s.signal && t.dirty == s.dirty
  {
  }

  lemma InternalStepsCountDown(s: System, e: Event)
    requires Enabled(s, e) && Internal(e)
    ensures Measure(Step(s, e)) < Measure(s)
  {
    match e
    case Signal =>
    case Wake =>
    case Swap =>
    case Pick(i) =>
      assert |s.worker.todo - {i}| == |s.worker.todo| - 1;
    case EndPass =>
    case _ =>
      StagesCountDown(s, e);
  }

  /** Once updates stop, at most Measure more steps can happen. */
  lemma {:induction false} QuietRunsAreShort(states: seq<System>, events: seq<Event>)
    requires Linked(states, events) && forall k :: 0 <= k < |events| ==> Internal(events[k])
    ensures |events| + Measure(states[|events|]) <= Measure(states[0])
  {
    var n := |events|;
    if n > 0 {
      QuietRunsAreShort(states[..n], events[..n - 1]);
      InternalStepsCountDown(states[n - 1], events[n - 1]);
    }
  }

  /** A system that is not at rest and not shut down can always take a protocol step. */
  lemma NeverStuck(s: System) returns (e: Event)
    requires Inv(s) && !Quiescent(s) && !s.worker.Stopped?
    ensures Internal(e) && Enabled(s, e)
  {
    match s.worker
    case Waiting => e := if s.signal then Wake else Signal;
    case Woken => e := Swap;
    case Between(todo) =>
      if todo == {} {
        e := EndPass;
      } else {
        var i :| i in todo;
        e := Pick(i);
      }
    case Busy(_, _, stage) =>
      match stage
      case Reading(_) => e := ReadFirst;
      case Preparing(_, _) => e := Prepare(true);
      case Locking(_, _, _) => e := Apply;
      case Unpreparing(_) => e := Unprepare;
      case Hooking(_) => e := Hook;
  }

  lemma OnlyExitStops(s: System, e: Event)
    requires Enabled(s, e) && !e.Exit? && !s.worker.Stopped?
    ensures !Step(s, e).worker.Stopped?
  {
  }

  lemma LinkedCons(s: System, e: Event, states: seq<System>, events: seq<Event>)
    requires Linked(states, events) && Enabled(s, e) && states[0] == Step(s, e)
    ensures Linked([s] + states, [e] + events)
  {
    var all, es := [s] + states, [e] + events;
    forall k | 0 <= k < |es| ensures Enabled(all[k], es[k]) && all[k + 1] == Step(all[k], es[k]) {
      if k > 0 {
        assert all[k] == states[k - 1] && es[k] == events[k - 1] && all[k + 1] == states[k];
      }
    }
  }

  lemma {:induction false} Settle(s: System) returns (states: seq<System>, events: seq<Event>)
    requires Inv(s) && !s.worker.Stopped?
    ensures Linked(states, events) && states[0] == s && Quiescent(states[|events|])
    ensures forall k :: 0 <= k < |events| ==> Internal(events[k])
    decreases Measure(s)
  {
    if Quiescent(s) {
      states, events := [s], [];
    } else {
      var e := NeverStuck(s);
      InternalStepsCountDown(s, e);
      StepKeepsInv(s, e);
      OnlyExitStops(s, e);
      var rest, more := Settle(Step(s, e));
      LinkedCons(s, e, rest, more);
      states, events := [s] + rest, [e] + more;
      assert states[|events|] == rest[|more|];
    }
  }

  /** From every reachable state with the worker running, the protocol alone reaches rest, in Measure steps. */
  lemma RestIsReached(states: seq<System>, events: seq<Event>)
    returns (more: seq<System>, quiet: seq<Event>)
    requires Execution(states, events) && !states[|events|].worker.Stopped?
    ensures Linked(more, quiet) && more[0] == states[|events|] && Quiescent(more[|quiet|])
    ensures forall k :: 0 <= k < |quiet| ==> Internal(quiet[k])
    ensures |quiet| <= Measure(states[|events|])
  {
    ReachableInv(states, events, |events|);
    more, quiet := Settle(states[|events|]);
    QuietRunsAreShort(more, quiet);
  }
}
