/**
Pruning the backups of one log: which directory entries are removed. Entries of
a directory have distinct names, so the rank of a backup is the number of
backups with a greater, that is a newer, name.
*/
module LogPrune {
  import opened Common
  import opened Text
  import LogNames

  /** A directory entry; `info` is absent if it could not be read, else its modification time. */
  datatype Entry = Entry(name: string, isDir: bool, info: Option<int>)

  /** The limits; `cutoff` is the oldest time kept, if ages are limited. */
  datatype Limits = Limits(maxBackups: int, cutoff: Option<int>)

  ghost predicate DistinctNames(s: seq<Entry>) {
    forall i, j :: 0 <= i < j < |s| ==> s[i].name != s[j].name
  }

  /** A readable regular entry whose name is a backup of `orig`. */
  predicate Candidate(orig: string, e: Entry) {
    !e.isDir && LogNames.IsBackupOf(orig, e.name) && e.info.Some?
  }

  predicate TooOld(e: Entry, limits: Limits) {
    limits.cutoff.Some? && e.info.Some? && e.info.value < limits.cutoff.value
  }

  /** The names of the backups newer than `name`. */
  ghost function Newer(orig: string, entries: seq<Entry>, name: string): set<string> {
    set e | e in entries && Candidate(orig, e) && Less(name, e.name) :: e.name
  }

  ghost predicate TooMany(orig: string, entries: seq<Entry>, name: string, limits: Limits) {
    limits.maxBackups > 0 && |Newer(orig, entries, name)| >= limits.maxBackups
  }

  // ---------------------------------------------------------------- newest first

  predicate NewestFirst(s: seq<Entry>) {
    forall i, j :: 0 <= i < j < |s| ==> Less(s[j].name, s[i].name)
  }

  function Insert(s: seq<Entry>, e: Entry): (r: seq<Entry>)
    ensures forall x :: x in r <==> x == e || x in s
  {
    if s == [] then [e]
    else if Less(s[0].name, e.name) then [e] + s
    else [s[0]] + Insert(s[1..], e)
  }

  function Sorted(s: seq<Entry>): (r: seq<Entry>)
    ensures forall x :: x in r <==> x in s
  {
    if s == [] then [] else Insert(Sorted(s[1..]), s[0])
  }

  /** A sequence is in order if its tail is and its head is greater than all the tail. */
  lemma ConsNewestFirst(e: Entry, s: seq<Entry>)
    requires NewestFirst(s) && forall x :: x in s ==> Less(x.name, e.name)
    ensures NewestFirst([e] + s)
  {
    var r := [e] + s;
    forall i, j | 0 <= i < j < |r| ensures Less(r[j].name, r[i].name) {
      assert r[j] == s[j - 1] && s[j - 1] in s;
      if i > 0 {
        assert r[i] == s[i - 1];
      }
    }
  }

  lemma {:induction false} InsertKeepsOrder(s: seq<Entry>, e: Entry)
    requires NewestFirst(s) && forall x :: x in s ==> x.name != e.name
    ensures NewestFirst(Insert(s, e))
  {
    if s != [] {
      LessTotal(s[0].name, e.name);
      if Less(s[0].name, e.name) {
        forall x | x in s ensures Less(x.name, e.name) {
          var k :| 0 <= k < |s| && s[k] == x;
          if k > 0 {
            LessTransitive(x.name, s[0].name, e.name);
          }
        }
        ConsNewestFirst(e, s);
      } else {
        InsertKeepsOrder(s[1..], e);
        ConsNewestFirst(s[0], Insert(s[1..], e));
      }
    }
  }

  lemma {:induction false} SortedIsNewestFirst(s: seq<Entry>)
    requires DistinctNames(s)
    ensures NewestFirst(Sorted(s))
  {
    if s != [] {
      SortedIsNewestFirst(s[1..]);
      InsertKeepsOrder(Sorted(s[1..]), s[0]);
    }
  }

  ghost function Names(s: seq<Entry>): set<string> { set e | e in s :: e.name }

  lemma NamesMore(s: seq<Entry>, i: nat)
    requires i < |s|
    ensures Names(s[..i + 1]) == Names(s[..i]) + {s[i].name}
  {
    assert s[..i + 1] == s[..i] + [s[i]];
  }

  lemma NewName(s: seq<Entry>, i: nat)
    requires NewestFirst(s) && i < |s|
    ensures s[i].name !in Names(s[..i])
  {
    LessTotal(s[i].name, s[i].name);
  }

  lemma {:induction false} PrefixNames(s: seq<Entry>, i: nat)
    requires NewestFirst(s) && i <= |s|
    ensures |Names(s[..i])| == i
  {
    if i > 0 {
      PrefixNames(s, i - 1);
      NamesMore(s, i - 1);
      NewName(s, i - 1);
    } else {
      assert Names(s[..0]) == {};
    }
  }

  /** The index of a backup in the order is the number of newer ones. */
  lemma IndexIsRank(orig: string, entries: seq<Entry>, s: seq<Entry>, i: nat)
    requires NewestFirst(s) && i < |s|
    requires forall e :: e in s <==> e in entries && Candidate(orig, e)
    ensures |Newer(orig, entries, s[i].name)| == i
  {
    PrefixNames(s, i);
    forall n ensures n in Newer(orig, entries, s[i].name) <==> n in Names(s[..i]) {
      if n in Newer(orig, entries, s[i].name) {
        var e :| e in s && e.name == n && Less(s[i].name, n);
        var k :| 0 <= k < |s| && s[k] == e;
        NewerIsEarlier(s, i, k);
        assert s[..i][k] == e;
      }
    }
    assert Newer(orig, entries, s[i].name) == Names(s[..i]);
  }

  lemma NewerIsEarlier(s: seq<Entry>, i: nat, k: nat)
    requires NewestFirst(s) && i < |s| && k < |s| && Less(s[i].name, s[k].name)
    ensures k < i
  {
    LessTotal(s[i].name, s[k].name);
  }

  // --------------------------------------------------------------------- pruning

  method CollectBackups(orig: string, entries: seq<Entry>) returns (backups: seq<Entry>)
    requires DistinctNames(entries)
    ensures DistinctNames(backups)
    ensures forall e :: e in backups <==> e in entries && Candidate(orig, e)
  {
    backups := [];
    for i := 0 to |entries|
      invariant DistinctNames(backups)
      invariant forall e :: e in backups <==> e in entries[..i] && Candidate(orig, e)
    {
      var e := entries[i];
      assert entries[..i + 1] == entries[..i] + [e];
      if e.isDir || !LogNames.IsBackupOf(orig, e.name) {
        continue;
      }
      if e.info.None? {
        continue;
      }
      forall k | 0 <= k < |backups| ensures backups[k].name != e.name {
        assert backups[k] in entries[..i];
      }
      backups := backups + [e];
    }
    assert entries[..|entries|] == entries;
  }

  /** Exactly the backups of `orig` that are too old or have too many newer ones are removed. */
  ghost predicate Removes(orig: string, entries: seq<Entry>, limits: Limits, removed: set<string>) {
    forall n :: n in removed <==>
      exists e :: e in entries && e.name == n && Candidate(orig, e) &&
                  (TooOld(e, limits) || TooMany(orig, entries, n, limits))
  }

  /** Written out: which entries are backups, which are too old, and which have too many newer ones. */
  lemma RemovedByRule(orig: string, entries: seq<Entry>, limits: Limits, removed: set<string>, e: Entry)
    requires DistinctNames(entries) && Removes(orig, entries, limits, removed) && e in entries
    ensures e.name in removed <==>
            && !e.isDir && LogNames.IsBackupOf(orig, e.name) && e.info.Some?
            && ((limits.cutoff.Some? && e.info.value < limits.cutoff.value) ||
                (limits.maxBackups > 0 &&
                 |set x | x in entries && !x.isDir && LogNames.IsBackupOf(orig, x.name) && x.info.Some?
                          && Less(e.name, x.name) :: x.name| >= limits.maxBackups))
  {
    NewerByRule(orig, entries, e.name);
    RemovedIff(orig, entries, limits, removed, e);
  }

  lemma NewerByRule(orig: string, entries: seq<Entry>, n: string)
    ensures Newer(orig, entries, n) ==
            set x | x in entries && !x.isDir && LogNames.IsBackupOf(orig, x.name) && x.info.Some? && Less(n, x.name) :: x.name
  {
  }

  lemma RemovedIff(orig: string, entries: seq<Entry>, limits: Limits, removed: set<string>, e: Entry)
    requires DistinctNames(entries) && Removes(orig, entries, limits, removed) && e in entries
    ensures e.name in removed <==> Candidate(orig, e) && (TooOld(e, limits) || TooMany(orig, entries, e.name, limits))
  {
    if e.name in removed {
      var x :| x in entries && x.name == e.name && Candidate(orig, x) &&
               (TooOld(x, limits) || TooMany(orig, entries, e.name, limits));
      SameName(entries, x, e);
    }
  }

  lemma SameName(entries: seq<Entry>, x: Entry, y: Entry)
    requires DistinctNames(entries) && x in entries && y in entries && x.name == y.name
    ensures x == y
  {
  }

  /** An entry is removed exactly if it is a backup of `orig` that is too old or has too many newer ones. */
  method PruneBackups(orig: string, entries: seq<Entry>, limits: Limits) returns (removed: set<string>)
    requires DistinctNames(entries)
    ensures Removes(orig, entries, limits, removed)
  {
    var backups := CollectBackups(orig, entries);
    SortedIsNewestFirst(backups);
    backups := Sorted(backups);
    forall k | 0 <= k < |backups| ensures backups[k].info.Some? {
      assert backups[k] in backups;
    }
    removed := RemoveExcess(backups, limits);
    forall k | 0 <= k < |backups| ensures Goes(orig, entries, backups[k], limits) <==> Excess(backups, k, limits) {
      IndexIsRank(orig, entries, backups, k);
    }
    RemovedIsExact(orig, entries, backups, limits, removed);
  }

  predicate Excess(s: seq<Entry>, k: nat, limits: Limits)
    requires k < |s|
  {
    (limits.maxBackups > 0 && k >= limits.maxBackups) || TooOld(s[k], limits)
  }

  /** Remove the sorted backups from the limit on and the old ones. */
  method RemoveExcess(backups: seq<Entry>, limits: Limits) returns (removed: set<string>)
    requires forall k :: 0 <= k < |backups| ==> backups[k].info.Some?
    ensures forall n :: n in removed <==> exists k :: 0 <= k < |backups| && backups[k].name == n && Excess(backups, k, limits)
  {
    removed := {};
    for i := 0 to |backups|
      invariant forall n :: n in removed <==> exists k :: 0 <= k < i && backups[k].name == n && Excess(backups, k, limits)
    {
      var tooMany := limits.maxBackups > 0 && i >= limits.maxBackups;
      var tooOld := limits.cutoff.Some? && backups[i].info.value < limits.cutoff.value;
      if tooMany || tooOld {
        removed := removed + {backups[i].name};
      }
    }
  }

  ghost predicate Goes(orig: string, entries: seq<Entry>, e: Entry, limits: Limits) {
    TooOld(e, limits) || TooMany(orig, entries, e.name, limits)
  }

  lemma RemovedIsExact(orig: string, entries: seq<Entry>, s: seq<Entry>, limits: Limits, removed: set<string>)
    requires forall e :: e in s <==> e in entries && Candidate(orig, e)
    requires forall n :: n in removed <==>
      exists k :: 0 <= k < |s| && s[k].name == n && Excess(s, k, limits)
    requires forall k :: 0 <= k < |s| ==> (Goes(orig, entries, s[k], limits) <==> Excess(s, k, limits))
    ensures forall n :: n in removed <==>
      exists e :: e in entries && e.name == n && Candidate(orig, e) &&
                  (TooOld(e, limits) || TooMany(orig, entries, n, limits))
  {
    forall n ensures n in removed <==>
      exists e :: e in entries && e.name == n && Candidate(orig, e) &&
                  (TooOld(e, limits) || TooMany(orig, entries, n, limits))
    {
      if n in removed {
        var k :| 0 <= k < |s| && s[k].name == n && Excess(s, k, limits);
        assert s[k] in entries && Candidate(orig, s[k]);
      }
      if e :| e in entries && e.name == n && Candidate(orig, e) &&
              (TooOld(e, limits) || TooMany(orig, entries, n, limits)) {
        assert e in s;
        var k :| 0 <= k < |s| && s[k] == e;
        assert Goes(orig, entries, s[k], limits);
      }
    }
  }

  /** The newest `maxBackups` backups of acceptable age survive, and so do all backups of every other log. */
  lemma SurvivorsAreKept(orig: string, entries: seq<Entry>, limits: Limits, removed: set<string>, e: Entry)
    requires DistinctNames(entries) && e in entries
    requires forall n :: n in removed <==>
      exists x :: x in entries && x.name == n && Candidate(orig, x) &&
                  (TooOld(x, limits) || TooMany(orig, entries, n, limits))
    ensures !TooOld(e, limits) && !TooMany(orig, entries, e.name, limits) ==> e.name !in removed
    ensures forall other :: other != orig && '/' !in other && '/' !in orig && LogNames.IsBackupOf(other, e.name)
                            ==> e.name !in removed
  {
    if e.name in removed {
      var x :| x in entries && x.name == e.name && Candidate(orig, x) &&
               (TooOld(x, limits) || TooMany(orig, entries, e.name, limits));
      assert x == e;
      forall other | '/' !in other && '/' !in orig && LogNames.IsBackupOf(other, e.name) ensures other == orig {
        LogNames.BackupsBelongToOneLog(orig, other, e.name);
      }
    }
  }
}
