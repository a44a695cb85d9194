/**
The size-rotating log writer: what happens to the bytes across rotations, failed
renames, failed reopens and short writes. Times are milliseconds; the backup of
a rotation is named after its time, so an earlier backup of the same time is
replaced by the rename.
*/
module LogWriter {
  import opened Common

  type Byte = bv8

  /** The log file, absent between a rename and a successful reopen, and its backups by time. */
  datatype Log = Log(
    present: bool,
    current: seq<Byte>,
    backups: map<nat, seq<Byte>>,
    open: bool,
    size: nat)

  /** How the outside calls of one write turn out; `accepted` bounds a short write. */
  datatype Env = Env(now: nat, closeOk: bool, renameOk: bool, reopenOk: bool, accepted: nat)

  /** The limit in bytes; none disables rotation. */
  function MaxBytes(maxSizeMB: int): int { maxSizeMB * 1024 * 1024 }

  predicate MustRotate(l: Log, len: nat, max: int) { max > 0 && l.size + len > max && l.size > 0 }

  /** The rotation closes the handle, renames the file and opens a new one. */
  predicate Renames(l: Log, env: Env) { l.open && env.closeOk && env.renameOk }

  /** The writer holds a usable handle after the rotation. */
  predicate Reopens(l: Log, env: Env) { l.open && env.closeOk && env.reopenOk }

  function Rotated(l: Log, env: Env): Log {
    Log(l.present && (!Renames(l, env) || env.reopenOk),
        if Renames(l, env) then [] else l.current,
        if Renames(l, env) then l.backups[env.now := l.current] else l.backups,
        Reopens(l, env),
        if Renames(l, env) && env.reopenOk then 0 else l.size)
  }

  function Min(a: nat, b: nat): nat { if a < b then a else b }

  function BeforeWrite(l: Log, p: seq<Byte>, max: int, env: Env): Log {
    if MustRotate(l, |p|, max) then Rotated(l, env) else l
  }

  /** How many bytes of `p` the file takes. */
  function Taken(l: Log, p: seq<Byte>, max: int, env: Env): nat {
    if BeforeWrite(l, p, max, env).open then Min(env.accepted, |p|) else 0
  }

  function Written(l: Log, p: seq<Byte>, max: int, env: Env): Log {
    var r, n := BeforeWrite(l, p, max, env), Taken(l, p, max, env);
    r.(current := r.current + p[..n], size := r.size + n)
  }

  class Writer {
    const max: int
    var present: bool
    var current: seq<Byte>
    var backups: map<nat, seq<Byte>>
    var open: bool
    var size: nat

    ghost function State(): Log
      reads this
    {
      Log(present, current, backups, open, size)
    }

    /** Open an existing or new file for appending. */
    constructor (content: seq<Byte>, backups: map<nat, seq<Byte>>, maxSizeMB: int)
      ensures State() == Log(true, content, backups, true, |content|) && max == MaxBytes(maxSizeMB)
    {
      max := MaxBytes(maxSizeMB);
      present, current, open, size := true, content, true, |content|;
      this.backups := backups;
    }

    method RotateLocked(env: Env) returns (ok: bool)
      requires open ==> present && size == |current|
      modifies this
      ensures State() == Rotated(old(State()), env)
      ensures ok <==> Renames(old(State()), env) && env.reopenOk
    {
      if !open || !env.closeOk {
        open := false;
        return false;
      }
      open := false;
      if !env.renameOk {
        if !env.reopenOk {
          return false;
        }
        open := true;
        size := |current|;
        return false;
      }
      backups := backups[env.now := current];
      present, current := false, [];
      if !env.reopenOk {
        return false;
      }
      present, open, size := true, true, 0;
      return true;
    }

    method Write(p: seq<Byte>, env: Env) returns (n: nat, ok: bool)
      requires open ==> present && size == |current|
      modifies this
      ensures State() == Written(old(State()), p, max, env)
      ensures n == Taken(old(State()), p, max, env) && (ok <==> open && n == |p|)
    {
      if max > 0 && size + |p| > max && size > 0 {
        var _ := RotateLocked(env);
      }
      if !open {
        return 0, false;
      }
      n := Min(env.accepted, |p|);
      current := current + p[..n];
      size := size + n;
      ok := n == |p|;
    }

    method Close()
      modifies this`open
      ensures !open
    {
      open := false;
    }
  }

  /** Open the log file, or report that it could not be opened or examined. */
  method New(content: seq<Byte>, backups: map<nat, seq<Byte>>, maxSizeMB: int, openOk: bool, statOk: bool)
    returns (r: Option<Writer>)
    ensures r.Some? <==> openOk && statOk
    ensures r.Some? ==> fresh(r.value) && r.value.max == MaxBytes(maxSizeMB)
    ensures r.Some? ==> r.value.State() == Log(true, content, backups, true, |content|)
  {
    if !openOk || !statOk {
      return None;
    }
    var w := new Writer(content, backups, maxSizeMB);
    return Some(w);
  }

  // ----------------------------------------------------------------- time order

  /** The backups older than `bound`, oldest first, one after the other. */
  function Flatten(m: map<nat, seq<Byte>>, bound: nat): seq<Byte> {
    if bound == 0 then []
    else Flatten(m, bound - 1) + if bound - 1 in m then m[bound - 1] else []
  }

  ghost predicate AllBefore(m: map<nat, seq<Byte>>, bound: nat) { forall t :: t in m ==> t < bound }

  lemma {:induction false} FlattenPastEnd(m: map<nat, seq<Byte>>, bound: nat, more: nat)
    requires AllBefore(m, bound) && bound <= more
    ensures Flatten(m, more) == Flatten(m, bound)
  {
    if bound < more {
      FlattenPastEnd(m, bound, more - 1);
      assert more - 1 !in m;
    }
  }

  lemma {:induction false} FlattenBelow(m: map<nat, seq<Byte>>, t: nat, v: seq<Byte>, bound: nat)
    requires bound <= t
    ensures Flatten(m[t := v], bound) == Flatten(m, bound)
  {
    if bound > 0 {
      FlattenBelow(m, t, v, bound - 1);
    }
  }

  /** A backup newer than all others comes last. */
  lemma FlattenNewest(m: map<nat, seq<Byte>>, t: nat, v: seq<Byte>, bound: nat)
    requires AllBefore(m, t) && t < bound
    ensures Flatten(m[t := v], bound) == Flatten(m, bound) + v
  {
    FlattenBelow(m, t, v, t);
    assert Flatten(m[t := v], t + 1) == Flatten(m, t) + v;
    FlattenPastEnd(m[t := v], t + 1, bound);
    FlattenPastEnd(m, t, bound);
  }

  /** A backup takes the place of one of the same time, or adds its bytes. */
  lemma {:induction false} FlattenLength(m: map<nat, seq<Byte>>, t: nat, v: seq<Byte>, bound: nat)
    requires t < bound
    ensures |Flatten(m[t := v], bound)| + (if t in m then |m[t]| else 0) == |Flatten(m, bound)| + |v|
  {
    if t == bound - 1 {
      FlattenBelow(m, t, v, bound - 1);
    } else {
      FlattenLength(m, t, v, bound - 1);
    }
  }

  // ------------------------------------------------------------------------ runs

  datatype Call = Call(p: seq<Byte>, env: Env)

  function Run(l: Log, calls: seq<Call>, max: int): Log
    decreases |calls|
  {
    if calls == [] then l
    else var c := calls[|calls| - 1];
         Written(Run(l, calls[..|calls| - 1], max), c.p, max, c.env)
  }

  /** The bytes the writer reported as written, in order. */
  function AllTaken(l: Log, calls: seq<Call>, max: int): seq<Byte>
    decreases |calls|
  {
    if calls == [] then []
    else
      var init, c := calls[..|calls| - 1], calls[|calls| - 1];
      AllTaken(l, init, max) + c.p[..Taken(Run(l, init, max), c.p, max, c.env)]
  }

  /** An open handle has a file of the size the writer remembers; a rotation never backs up an empty file. */
  ghost predicate Sound(l: Log) {
    && (l.open ==> l.present && l.size == |l.current|)
    && (!l.present ==> l.current == [])
    && (forall t :: t in l.backups ==> l.backups[t] != [])
  }

  lemma WriteKeepsSound(l: Log, p: seq<Byte>, max: int, env: Env)
    requires Sound(l)
    ensures Sound(Written(l, p, max, env))
  {
  }

  /** All bytes of the log, oldest first, as seen at time `bound`. */
  function Bytes(l: Log, bound: nat): seq<Byte> { Flatten(l.backups, bound) + l.current }

  /** A call that renames the file to a backup of its time; only such a call looks at the clock. */
  predicate MakesBackup(l: Log, p: seq<Byte>, max: int, env: Env) { MustRotate(l, |p|, max) && Renames(l, env) }

  /** The backup of a write, if it makes one, is later than all others. */
  ghost predicate Later(l: Log, p: seq<Byte>, max: int, env: Env) {
    MakesBackup(l, p, max, env) ==> AllBefore(l.backups, env.now)
  }

  /** One write, whatever its outside calls do, appends exactly what it accepts, if a backup it makes is the latest. */
  lemma WriteConserves(l: Log, p: seq<Byte>, max: int, env: Env, bound: nat)
    requires Sound(l) && Later(l, p, max, env) && AllBefore(Written(l, p, max, env).backups, bound)
    ensures Bytes(Written(l, p, max, env), bound) == Bytes(l, bound) + p[..Taken(l, p, max, env)]
    ensures AllBefore(l.backups, bound)
  {
    var n := Taken(l, p, max, env);
    var r := BeforeWrite(l, p, max, env);
    if MakesBackup(l, p, max, env) {
      assert env.now in Written(l, p, max, env).backups;
      FlattenNewest(l.backups, env.now, l.current, bound);
      assert Flatten(l.backups, bound) + l.current + [] + p[..n] == Flatten(r.backups, bound) + (r.current + p[..n]);
    } else {
      assert Flatten(l.backups, bound) + (l.current + p[..n]) == Flatten(l.backups, bound) + l.current + p[..n];
    }
  }

  /** Every backup a run makes is later than those there were. */
  ghost predicate RotationsRise(l: Log, calls: seq<Call>, max: int)
    decreases |calls|
  {
    calls != [] ==>
      var init, c := calls[..|calls| - 1], calls[|calls| - 1];
      RotationsRise(l, init, max) && Later(Run(l, init, max), c.p, max, c.env)
  }

  /**
  For every run of writes whose rotations come at rising times, whatever fails on
  the way: the backups in time order and the current file are the initial content
  and everything accepted, and an open writer knows the size of its file.
  */
  lemma {:induction false} RunConserves(l: Log, calls: seq<Call>, max: int, bound: nat)
    requires Sound(l) && RotationsRise(l, calls, max) && AllBefore(Run(l, calls, max).backups, bound)
    ensures Bytes(Run(l, calls, max), bound) == Bytes(l, bound) + AllTaken(l, calls, max)
    ensures Sound(Run(l, calls, max))
  {
    if calls != [] {
      var init, c := calls[..|calls| - 1], calls[|calls| - 1];
      var mid := Run(l, init, max);
      RunIsSound(l, init, max);
      WriteConserves(mid, c.p, max, c.env, bound);
      RunConserves(l, init, max, bound);
      WriteKeepsSound(mid, c.p, max, c.env);
      Regroup(Bytes(l, bound), AllTaken(l, init, max), c.p[..Taken(mid, c.p, max, c.env)]);
    }
  }

  lemma {:induction false} RunIsSound(l: Log, calls: seq<Call>, max: int)
    requires Sound(l)
    ensures Sound(Run(l, calls, max))
  {
    if calls != [] {
      var init, c := calls[..|calls| - 1], calls[|calls| - 1];
      RunIsSound(l, init, max);
      WriteKeepsSound(Run(l, init, max), c.p, max, c.env);
    }
  }

  lemma Regroup(a: seq<Byte>, b: seq<Byte>, c: seq<Byte>)
    ensures a + b + c == a + (b + c)
  {
  }

  /** A write that rotates keeps the number of bytes exactly if no backup has its time yet. */
  lemma RotationLosesIffTimeIsTaken(l: Log, p: seq<Byte>, max: int, env: Env, bound: nat)
    requires Sound(l) && MakesBackup(l, p, max, env) && env.now < bound
    ensures |Bytes(Written(l, p, max, env), bound)| == |Bytes(l, bound)| + Taken(l, p, max, env) <==>
            env.now !in l.backups
  {
    FlattenLength(l.backups, env.now, l.current, bound);
  }

  /** One write never gains bytes, and loses some exactly if it makes a backup at a time that has one. */
  lemma WriteLosesIff(l: Log, p: seq<Byte>, max: int, env: Env, bound: nat)
    requires Sound(l) && AllBefore(Written(l, p, max, env).backups, bound)
    ensures |Bytes(Written(l, p, max, env), bound)| <= |Bytes(l, bound)| + Taken(l, p, max, env)
    ensures |Bytes(Written(l, p, max, env), bound)| == |Bytes(l, bound)| + Taken(l, p, max, env) <==>
            (MakesBackup(l, p, max, env) ==> env.now !in l.backups)
    ensures AllBefore(l.backups, bound)
  {
    if MakesBackup(l, p, max, env) {
      assert env.now in Written(l, p, max, env).backups;
      assert forall t :: t in l.backups ==> t in Written(l, p, max, env).backups;
      FlattenLength(l.backups, env.now, l.current, bound);
      RotationLosesIffTimeIsTaken(l, p, max, env, bound);
    }
  }

  /** Every backup a run makes has a time of its own. */
  ghost predicate TimesAreNew(l: Log, calls: seq<Call>, max: int)
    decreases |calls|
  {
    calls != [] ==>
      var init, c := calls[..|calls| - 1], calls[|calls| - 1];
      && TimesAreNew(l, init, max)
      && (MakesBackup(Run(l, init, max), c.p, max, c.env) ==> c.env.now !in Run(l, init, max).backups)
  }

  /** Over every run the number of bytes never exceeds what was there and accepted, and equals it exactly if all times are new. */
  lemma {:induction false} RunLosesIff(l: Log, calls: seq<Call>, max: int, bound: nat)
    requires Sound(l) && AllBefore(Run(l, calls, max).backups, bound)
    ensures |Bytes(Run(l, calls, max), bound)| <= |Bytes(l, bound)| + |AllTaken(l, calls, max)|
    ensures |Bytes(Run(l, calls, max), bound)| == |Bytes(l, bound)| + |AllTaken(l, calls, max)| <==> TimesAreNew(l, calls, max)
  {
    if calls != [] {
      var init, c := calls[..|calls| - 1], calls[|calls| - 1];
      RunIsSound(l, init, max);
      WriteLosesIff(Run(l, init, max), c.p, max, c.env, bound);
      RunLosesIff(l, init, max, bound);
    }
  }

  /** A writer without a handle takes nothing and changes nothing, for ever. */
  lemma {:induction false} DeadWriterStaysDead(l: Log, calls: seq<Call>, max: int)
    requires !l.open
    ensures Run(l, calls, max) == l && AllTaken(l, calls, max) == []
  {
    if calls != [] {
      DeadWriterStaysDead(l, calls[..|calls| - 1], max);
    }
  }

  /**
  A write whose rotation fails still goes to the file, as the writer promises,
  exactly if closing and reopening worked; otherwise no later write ever does.
  */
  lemma FailedRotationKeepsLogging(l: Log, p: seq<Byte>, max: int, env: Env, calls: seq<Call>)
    requires Sound(l) && l.open && MustRotate(l, |p|, max)
    requires !(env.closeOk && env.renameOk && env.reopenOk)
    ensures Written(l, p, max, env).open <==> env.closeOk && env.reopenOk
    ensures env.closeOk && env.reopenOk ==> Written(l, p, max, env).current == l.current + p[..Min(env.accepted, |p|)]
    ensures !(env.closeOk && env.reopenOk) ==> AllTaken(Written(l, p, max, env), calls, max) == []
  {
    if !(env.closeOk && env.reopenOk) {
      DeadWriterStaysDead(Written(l, p, max, env), calls, max);
    }
  }

  // ---------------------------------------------------------------- when it rotates

  /** The limit of the default configuration of 50 MB; no limit is set by 0. */
  lemma Limits()
    ensures MaxBytes(50) == 52428800 && MaxBytes(0) == 0
  {
  }

  /** Without a limit, within it, or at an empty file, a write appends what the file accepts and makes no backup. */
  lemma WriteThatFits(l: Log, p: seq<Byte>, max: int, env: Env)
    requires max <= 0 || l.size + |p| <= max || l.size == 0
    ensures var n := if env.accepted < |p| then env.accepted else |p|;
            && Written(l, p, max, env).backups == l.backups && Written(l, p, max, env).open == l.open
            && (l.open ==> Written(l, p, max, env).current == l.current + p[..n] && Taken(l, p, max, env) == n
                           && Written(l, p, max, env).size == l.size + n)
            && (!l.open ==> Written(l, p, max, env) == l)
  {
    assert !l.open ==> l.current + p[..0] == l.current;
  }

  /** A write that would cross the limit turns the file into the backup of its time and starts a new one. */
  lemma WriteThatCrosses(l: Log, p: seq<Byte>, max: int, env: Env)
    requires max > 0 && l.size + |p| > max && l.size > 0 && l.open && env.closeOk && env.renameOk && env.reopenOk
    ensures var n := if env.accepted < |p| then env.accepted else |p|;
            var w := Written(l, p, max, env);
            && w.backups == l.backups[env.now := l.current] && w.current == p[..n] && w.size == n && w.open
            && Taken(l, p, max, env) == n
  {
    var n := if env.accepted < |p| then env.accepted else |p|;
    assert [] + p[..n] == p[..n];
  }

  // ------------------------------------------------------------------ size bound

  /** The file is within the limit, or holds the bytes of one write alone. */
  predicate Bounded(l: Log, max: int, last: seq<Byte>) { |l.current| <= max || l.current == last }

  lemma WriteKeepsBound(l: Log, p: seq<Byte>, max: int, env: Env, last: seq<Byte>)
    requires Sound(l) && l.open && max > 0 && Bounded(l, max, last)
    requires env.closeOk && env.renameOk && env.reopenOk
    ensures Written(l, p, max, env).open && Bounded(Written(l, p, max, env), max, p[..Taken(l, p, max, env)])
  {
  }

  function LastTaken(l: Log, calls: seq<Call>, max: int): seq<Byte>
    requires calls != []
  {
    var init, c := calls[..|calls| - 1], calls[|calls| - 1];
    c.p[..Taken(Run(l, init, max), c.p, max, c.env)]
  }

  /** From a file within the limit and while rotations succeed, the file stays within it or is one write. */
  lemma {:induction false} RunStaysBounded(l: Log, calls: seq<Call>, max: int)
    requires Sound(l) && l.open && max > 0 && |l.current| <= max
    requires forall k :: 0 <= k < |calls| ==> calls[k].env.closeOk && calls[k].env.renameOk && calls[k].env.reopenOk
    ensures Sound(Run(l, calls, max)) && Run(l, calls, max).open
    ensures Bounded(Run(l, calls, max), max, if calls == [] then [] else LastTaken(l, calls, max))
  {
    if calls != [] {
      var init, c := calls[..|calls| - 1], calls[|calls| - 1];
      RunStaysBounded(l, init, max);
      WriteKeepsSound(Run(l, init, max), c.p, max, c.env);
      WriteKeepsBound(Run(l, init, max), c.p, max, c.env, if init == [] then [] else LastTaken(l, init, max));
    }
  }
}
