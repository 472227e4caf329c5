/** Incremental backup and restore (pkg/kvstore/badger_backup.go). Badger is a growing log of versioned records, with
    tombstones for deletions; a backup emits records newer than the watermark, among them the newest record of every
    key changed since; loading adds records under their versions. */
module Backup {
  import opened GoStrings

  /** By key and version: a value, or None for a tombstone. */
  type Records = map<(string, nat), Option<string>>

  /** A file that was cut short is Torn. */
  datatype File = Torn | Complete(records: Records)

  datatype Name = Name(stamp: string, version: nat)

  /** version and since are those of latest.version; last is the watermark of the last backup that was written in
      full, whether or not latest.version could be saved after it. */
  datatype State = State(log: Records, clock: nat, version: nat, since: nat, files: map<Name, File>, last: nat)

  datatype Step =
    | Commit(writes: map<string, Option<string>>)
    | Skip
    | Tear(stamp: string)
    | Write(stamp: string, emitted: Records, next: nat, saved: bool)

  const Start := State(map[], 0, 0, 0, map[], 0)

  // ---------- live contents ----------

  ghost predicate IsNewest(recs: Records, k: string, t: nat) {
    (k, t) in recs && forall u: nat :: (k, u) in recs ==> u <= t
  }

  /** What a reader of the store sees under a key. */
  ghost function Live(recs: Records, k: string): Option<string> {
    if t: nat :| IsNewest(recs, k, t) then recs[(k, t)] else None
  }

  ghost function UpTo(recs: Records, w: nat): Records {
    map r | r in recs && r.1 <= w :: recs[r]
  }

  ghost predicate Within(a: Records, b: Records) {
    forall r :: r in a ==> r in b && b[r] == a[r]
  }

  lemma {:induction false} SetMax(s: set<nat>)
    requires s != {}
    ensures exists m :: m in s && forall x :: x in s ==> x <= m
  {
    var x :| x in s;
    if s != {x} {
      SetMax(s - {x});
      var m :| m in s - {x} && forall y :: y in s - {x} ==> y <= m;
      assert s == {x} + (s - {x});
      var top := if x <= m then m else x;
      assert top in s && forall y :: y in s ==> y <= top;
    }
  }

  lemma NewestExists(recs: Records, k: string, t: nat)
    requires (k, t) in recs
    ensures exists u: nat :: IsNewest(recs, k, u)
  {
    var s := set r | r in recs && r.0 == k :: r.1;
    assert (k, t).1 in s;
    SetMax(s);
    var m :| m in s && forall x :: x in s ==> x <= m;
    forall u: nat | (k, u) in recs
      ensures u <= m
    {
      assert (k, u).1 in s;
    }
    assert IsNewest(recs, k, m);
  }

  /** Records that lie within b and include b's newest for every key show what b shows. */
  lemma SameLive(a: Records, b: Records, k: string)
    requires Within(a, b) && forall t: nat :: IsNewest(b, k, t) ==> (k, t) in a
    ensures Live(a, k) == Live(b, k)
  {
    if t: nat :| IsNewest(a, k, t) {
      NewestExists(b, k, t);
    }
    if t: nat :| IsNewest(b, k, t) {
      assert IsNewest(a, k, t);
    }
  }

  // ---------- the executor ----------

  /** The contract of DB.Backup. */
  ghost predicate Emits(log: Records, since: nat, emitted: Records, next: nat) {
    && Within(emitted, log)
    && (forall r :: r in emitted ==> since < r.1 <= next)
    && (exists r :: r in emitted && r.1 == next)
    && forall k: string, t: nat :: IsNewest(log, k, t) && t > since ==> (k, t) in emitted
  }

  /** A backup with nothing to emit is skipped; one that fails after creating its file leaves it torn; otherwise the
      file is whole, and latest.version moves on unless saving it fails. */
  ghost function Apply(s: State, step: Step): Option<State> {
    match step
    case Commit(writes) =>
      var ts := s.clock + 1;
      var added := map r | r in (set k | k in writes :: (k, ts)) :: writes[r.0];
      Some(s.(log := s.log + added, clock := ts))
    case Skip =>
      if forall r :: r in s.log ==> r.1 <= s.since then Some(s) else None
    case Tear(stamp) =>
      Some(s.(files := s.files[Name(stamp, s.version + 1) := Torn]))
    case Write(stamp, emitted, next, saved) =>
      if !Emits(s.log, s.since, emitted, next) then None
      else
        var u := s.(files := s.files[Name(stamp, s.version + 1) := Complete(emitted)], last := next);
        Some(if saved then u.(version := s.version + 1, since := next) else u)
  }

  /** The executor object; what the database emits and how the file system behaves are inputs. */
  class Executor {
    var files: map<Name, File>
    var version: nat
    var since: nat
    ghost var last: nat

    ghost function View(log: Records, clock: nat): State
      reads this
    {
      State(log, clock, version, since, files, last)
    }

    method Execute(ghost log: Records, ghost clock: nat, stamp: string, emitted: Records, next: nat,
                   created: bool, whole: bool, saved: bool) returns (ok: bool)
      requires if emitted == map[] then forall r :: r in log ==> r.1 <= since else Emits(log, since, emitted, next)
      modifies this
      ensures var step := if emitted == map[] then Skip else if whole then Write(stamp, emitted, next, saved) else Tear(stamp);
              View(log, clock) == if emitted != map[] && !created then old(View(log, clock)) else Apply(old(View(log, clock)), step).value
      ensures ok <==> emitted == map[] || (created && whole)
    {
      if emitted == map[] || next == since {
        return true;
      }
      if !created {
        return false;
      }
      var name := Name(stamp, version + 1);
      files := files[name := Torn];
      if !whole {
        return false;
      }
      files := files[name := Complete(emitted)];
      last := next;
      if saved {
        version, since := version + 1, next;
      }
      return true;
    }
  }

  ghost function Run(steps: seq<Step>): Option<State> {
    if steps == [] then Some(Start)
    else
      var before := Run(steps[..|steps| - 1]);
      if before.None? then None else Apply(before.value, steps[|steps| - 1])
  }

  // ---------- restoring ----------

  function LoadAll(files: map<Name, File>, order: seq<Name>): Option<Records> {
    if order == [] then Some(map[])
    else
      var n := order[|order| - 1];
      var before := LoadAll(files, order[..|order| - 1]);
      if before.None? || n !in files || files[n].Torn? then None else Some(before.value + files[n].records)
  }

  /** RestoreAllBackupsEncrypted: loads file after file and gives up at the first one that does not load. */
  method RestoreAll(files: map<Name, File>, order: seq<Name>) returns (r: Option<Records>)
    ensures r == LoadAll(files, order)
  {
    var db: Records := map[];
    for i := 0 to |order|
      invariant LoadAll(files, order[..i]) == Some(db)
    {
      assert order[..i + 1][..i] == order[..i];
      if order[i] !in files || files[order[i]].Torn? {
        FailureStays(files, order, i + 1);
        return None;
      }
      db := db + files[order[i]].records;
    }
    assert order[..|order|] == order;
    return Some(db);
  }

  lemma {:induction false} FailureStays(files: map<Name, File>, order: seq<Name>, i: nat)
    requires i <= |order| && LoadAll(files, order[..i]).None?
    ensures LoadAll(files, order).None?
    decreases |order| - i
  {
    if i < |order| {
      assert order[..i + 1][..i] == order[..i];
      FailureStays(files, order, i + 1);
    } else {
      assert order[..i] == order;
    }
  }

  /** Loading succeeds exactly when every file is complete. */
  lemma {:induction false} LoadsIffComplete(files: map<Name, File>, order: seq<Name>)
    ensures LoadAll(files, order).Some? <==> forall n :: n in order ==> n in files && files[n].Complete?
  {
    if order != [] {
      var rest, n := order[..|order| - 1], order[|order| - 1];
      LoadsIffComplete(files, rest);
      assert forall m :: m in order <==> m in rest || m == n by {
        assert order == rest + [n];
      }
      assert LoadAll(files, order).Some? <==> LoadAll(files, rest).Some? && n in files && files[n].Complete?;
    }
  }

  /** Files from one log agree on common records, so the loaded records are their union whatever the order. */
  lemma {:induction false} LoadedUnion(files: map<Name, File>, order: seq<Name>, log: Records)
    requires LoadAll(files, order).Some?
    requires forall n :: n in order && n in files && files[n].Complete? ==> Within(files[n].records, log)
    ensures var db := LoadAll(files, order).value;
            && Within(db, log)
            && forall r :: r in db <==> exists n :: n in order && n in files && files[n].Complete? && r in files[n].records
  {
    if order != [] {
      var rest, last := order[..|order| - 1], order[|order| - 1];
      assert order == rest + [last];
      LoadedUnion(files, rest, log);
    }
  }

  // ---------- what every step keeps ----------

  ghost predicate Stored(files: map<Name, File>, bound: nat, r: (string, nat)) {
    exists n :: n in files && n.version <= bound && files[n].Complete? && r in files[n].records
  }

  /** The files numbered up to bound hold the newest record of every key as of watermark w. */
  ghost predicate Covers(s: State, w: nat, bound: nat) {
    forall k: string, t: nat :: IsNewest(UpTo(s.log, w), k, t) ==> Stored(s.files, bound, (k, t))
  }

  ghost predicate FileInv(s: State, n: Name) {
    n in s.files ==>
      && n.version <= s.version + 1
      && (s.files[n].Complete? ==>
            && Within(s.files[n].records, s.log)
            && forall r :: r in s.files[n].records ==>
                 r.1 <= s.last && if n.version > s.version then r.1 > s.since else r.1 <= s.since)
  }

  /** The last watermark is the version of some record, or nothing was ever backed up. */
  ghost predicate LastReal(s: State) {
    s.last == 0 || exists r :: r in s.log && r.1 == s.last
  }

  /** File n holds a record of version w. */
  ghost predicate Reaches(s: State, n: Name, w: nat) {
    n in s.files && s.files[n].Complete? && exists r :: r in s.files[n].records && r.1 == w
  }

  /** A file of the version under way that reaches the last watermark holds all that is newer than the saved one. */
  ghost predicate ReachInv(s: State, n: Name) {
    Reaches(s, n, s.last) && n.version > s.version ==>
      forall k: string, t: nat :: IsNewest(UpTo(s.log, s.last), k, t) && t > s.since ==> (k, t) in s.files[n].records
  }

  ghost predicate Inv(s: State) {
    && LastReal(s)
    && (forall n :: ReachInv(s, n))
    && (forall r :: r in s.log ==> r.1 <= s.clock)
    && s.since <= s.last <= s.clock
    && (forall n :: FileInv(s, n))
    && Covers(s, s.since, s.version)
  }

  lemma NewestUpTo(log: Records, w: nat, k: string, t: nat)
    requires t <= w && IsNewest(log, k, t)
    ensures IsNewest(UpTo(log, w), k, t)
  {
  }

  /** A backup reaches the newest record of the log. */
  lemma EmitsAll(log: Records, since: nat, emitted: Records, next: nat)
    requires Emits(log, since, emitted, next)
    ensures forall r :: r in log ==> r.1 <= next
    ensures since < next && exists r :: r in log && r.1 == next
  {
    forall r | r in log
      ensures r.1 <= next
    {
      assert r == (r.0, r.1);
      NewestExists(log, r.0, r.1);
      var t: nat :| IsNewest(log, r.0, t);
      assert t > since ==> (r.0, t) in emitted;
    }
    var r :| r in emitted && r.1 == next;
    assert r in log;
  }

  /** After a whole file, everything up to its watermark is covered. */
  lemma WriteCovers(s: State, stamp: string, emitted: Records, next: nat)
    requires Inv(s) && Emits(s.log, s.since, emitted, next)
    ensures var u := s.(files := s.files[Name(stamp, s.version + 1) := Complete(emitted)]);
            Covers(u, next, s.version + 1)
  {
    var nm := Name(stamp, s.version + 1);
    var files := s.files[nm := Complete(emitted)];
    EmitsAll(s.log, s.since, emitted, next);
    assert UpTo(s.log, next) == s.log;
    forall k: string, t: nat | IsNewest(s.log, k, t)
      ensures Stored(files, s.version + 1, (k, t))
    {
      if t > s.since {
        assert nm in files && (k, t) in files[nm].records;
      } else {
        NewestUpTo(s.log, s.since, k, t);
        assert Stored(s.files, s.version, (k, t));
        var n :| n in s.files && n.version <= s.version && s.files[n].Complete? && (k, t) in s.files[n].records;
        assert n in files && files[n] == s.files[n];
      }
    }
  }

  /** Replacing a file that the saved watermark does not rely on keeps that watermark covered. */
  lemma OverwriteKeepsCover(s: State, stamp: string, f: File, w: nat, bound: nat)
    requires Covers(s, w, bound) && (bound <= s.version || Name(stamp, s.version + 1) !in s.files)
    ensures Covers(s.(files := s.files[Name(stamp, s.version + 1) := f]), w, bound)
  {
    var nm := Name(stamp, s.version + 1);
    var files := s.files[nm := f];
    forall k: string, t: nat | IsNewest(UpTo(s.log, w), k, t)
      ensures Stored(files, bound, (k, t))
    {
      assert Stored(s.files, bound, (k, t));
      var n :| n in s.files && n.version <= bound && s.files[n].Complete? && (k, t) in s.files[n].records;
      assert n in files && files[n] == s.files[n];
    }
  }

  lemma CommitAdds(s: State, writes: map<string, Option<string>>)
    requires forall r :: r in s.log ==> r.1 <= s.clock
    ensures var u := Apply(s, Commit(writes)).value;
            && Within(s.log, u.log)
            && (forall r :: r in u.log ==> r.1 <= u.clock)
            && forall w: nat :: w <= s.clock ==> UpTo(u.log, w) == UpTo(s.log, w)
  {
    var u := Apply(s, Commit(writes)).value;
    assert forall r :: r in s.log ==> r in u.log;
    assert forall r :: r in u.log && r !in s.log ==> r.1 == u.clock;
    forall w: nat | w <= s.clock
      ensures UpTo(u.log, w) == UpTo(s.log, w)
    {
    }
  }

  lemma CommitKeeps(s: State, writes: map<string, Option<string>>)
    requires Inv(s)
    ensures Inv(Apply(s, Commit(writes)).value)
    ensures forall w: nat :: w <= s.clock ==> UpTo(Apply(s, Commit(writes)).value.log, w) == UpTo(s.log, w)
  {
    CommitAdds(s, writes);
    var u := Apply(s, Commit(writes)).value;
    assert u == s.(log := u.log, clock := s.clock + 1);
    hide Apply, UpTo, IsNewest;
    forall n
      ensures FileInv(u, n) && ReachInv(u, n)
    {
      assert FileInv(s, n) && ReachInv(s, n);
    }
  }

  lemma TearKeeps(s: State, stamp: string)
    requires Inv(s)
    ensures Inv(Apply(s, Tear(stamp)).value)
  {
    var u := Apply(s, Tear(stamp)).value;
    OverwriteKeepsCover(s, stamp, Torn, s.since, s.version);
    hide UpTo, IsNewest, Covers, LastReal;
    forall n
      ensures FileInv(u, n) && ReachInv(u, n)
    {
      assert FileInv(s, n) && ReachInv(s, n);
    }
  }

  /** A whole file holds all that is newer than the saved watermark; another of its version can reach as far only if
      nothing was committed in between. */
  lemma WriteKeepsReach(s: State, stamp: string, emitted: Records, next: nat, saved: bool, n: Name)
    requires Inv(s) && Apply(s, Write(stamp, emitted, next, saved)).Some?
    ensures ReachInv(Apply(s, Write(stamp, emitted, next, saved)).value, n)
  {
    EmitsAll(s.log, s.since, emitted, next);
    var u := Apply(s, Write(stamp, emitted, next, saved)).value;
    assert FileInv(s, n) && ReachInv(s, n);
    assert UpTo(s.log, next) == s.log;
    hide Covers, LastReal, IsNewest, UpTo, Inv;
    if Reaches(u, n, next) && n.version > u.version && n != Name(stamp, s.version + 1) {
      var r :| r in s.files[n].records && r.1 == next;
      assert s.last == next by {
        assert r in s.log;
      }
      assert Reaches(s, n, s.last);
    }
  }

  lemma WriteKeepsFile(s: State, stamp: string, emitted: Records, next: nat, saved: bool, n: Name)
    requires Inv(s) && s.last <= next && Apply(s, Write(stamp, emitted, next, saved)).Some?
    ensures FileInv(Apply(s, Write(stamp, emitted, next, saved)).value, n)
  {
    hide Covers, LastReal;
    assert FileInv(s, n);
  }

  lemma WriteKeepsCover(s: State, stamp: string, emitted: Records, next: nat, saved: bool)
    requires Inv(s) && Apply(s, Write(stamp, emitted, next, saved)).Some?
    ensures var u := Apply(s, Write(stamp, emitted, next, saved)).value; Covers(u, u.since, u.version)
  {
    hide LastReal, FileInv, Emits, IsNewest, Stored;
    if saved {
      WriteCovers(s, stamp, emitted, next);
    } else {
      OverwriteKeepsCover(s, stamp, Complete(emitted), s.since, s.version);
    }
  }

  lemma WriteKeeps(s: State, stamp: string, emitted: Records, next: nat, saved: bool)
    requires Inv(s) && Apply(s, Write(stamp, emitted, next, saved)).Some?
    ensures Inv(Apply(s, Write(stamp, emitted, next, saved)).value)
  {
    EmitsAll(s.log, s.since, emitted, next);
    WriteKeepsCover(s, stamp, emitted, next, saved);
    hide FileInv, ReachInv, Covers, Emits;
    var u := Apply(s, Write(stamp, emitted, next, saved)).value;
    assert LastReal(u);
    forall n: Name
      ensures FileInv(u, n)
    {
      WriteKeepsFile(s, stamp, emitted, next, saved, n);
    }
    forall n: Name
      ensures ReachInv(u, n)
    {
      WriteKeepsReach(s, stamp, emitted, next, saved, n);
    }
  }

  lemma StepKeepsInv(s: State, step: Step)
    requires Inv(s) && Apply(s, step).Some?
    ensures Inv(Apply(s, step).value)
  {
    match step
    case Commit(writes) => CommitKeeps(s, writes);
    case Skip =>
    case Tear(stamp) => TearKeeps(s, stamp);
    case Write(stamp, emitted, next, saved) => WriteKeeps(s, stamp, emitted, next, saved);
  }

  lemma {:induction false} RunKeepsInv(steps: seq<Step>)
    requires Run(steps).Some?
    ensures Inv(Run(steps).value)
  {
    if steps != [] {
      RunKeepsInv(steps[..|steps| - 1]);
      hide Inv, Apply;
      StepKeepsInv(Run(steps[..|steps| - 1]).value, steps[|steps| - 1]);
    }
  }

  // ---------- restored contents ----------

  /** At every moment, whatever failed, the complete files hold the newest record of every key as of the saved
      watermark: nothing that a later incremental backup leaves out is missing. */
  lemma SavedWatermarkCovered(steps: seq<Step>, k: string, t: nat)
    requires Run(steps).Some?
    requires IsNewest(UpTo(Run(steps).value.log, Run(steps).value.since), k, t)
    ensures var s := Run(steps).value;
            exists n :: n in s.files && s.files[n].Complete? && (k, t) in s.files[n].records && s.files[n].records[(k, t)] == s.log[(k, t)]
  {
    RunKeepsInv(steps);
    var s := Run(steps).value;
    assert Stored(s.files, s.version, (k, t));
    var n :| n in s.files && n.version <= s.version && s.files[n].Complete? && (k, t) in s.files[n].records;
    assert FileInv(s, n);
  }

  /** Some complete file holds a record of the watermark of the last whole backup. */
  ghost predicate Reached(s: State) {
    s.last == 0 || exists n :: Reaches(s, n, s.last)
  }

  lemma CoverGrows(s: State, w: nat, bound: nat, more: nat)
    requires Covers(s, w, bound) && bound <= more
    ensures Covers(s, w, more)
  {
    forall k: string, t: nat | IsNewest(UpTo(s.log, w), k, t)
      ensures Stored(s.files, more, (k, t))
    {
      assert Stored(s.files, bound, (k, t));
      var n :| n in s.files && n.version <= bound && s.files[n].Complete? && (k, t) in s.files[n].records;
      assert n.version <= more;
    }
  }

  lemma FileWithinLast(s: State, n: Name)
    requires Inv(s) && n in s.files && s.files[n].Complete?
    ensures Within(s.files[n].records, UpTo(s.log, s.last))
  {
    hide Covers, LastReal;
    assert FileInv(s, n);
  }

  /** The complete files hold every newest record as of the last whole backup exactly when one of them reaches it. */
  lemma CoveredIffReached(s: State)
    requires Inv(s)
    ensures Covers(s, s.last, s.version + 1) <==> Reached(s)
  {
    if Covers(s, s.last, s.version + 1) && s.last > 0 {
      var r :| r in s.log && r.1 == s.last;
      assert IsNewest(UpTo(s.log, s.last), r.0, r.1);
      assert Stored(s.files, s.version + 1, (r.0, r.1));
      var n :| n in s.files && n.version <= s.version + 1 && s.files[n].Complete? && (r.0, r.1) in s.files[n].records;
      assert (r.0, r.1).1 == s.last && Reaches(s, n, s.last);
    }
    if Reached(s) {
      hide LastReal;
      if s.last == s.since {
        CoverGrows(s, s.since, s.version, s.version + 1);
      } else {
        var n :| Reaches(s, n, s.last);
        ReachedCovers(s, n);
      }
    }
  }

  lemma ReachedCovers(s: State, n: Name)
    requires Inv(s) && Reaches(s, n, s.last) && s.since < s.last
    ensures Covers(s, s.last, s.version + 1)
  {
    assert FileInv(s, n) && ReachInv(s, n);
    var source := UpTo(s.log, s.last);
    forall k: string, t: nat | IsNewest(source, k, t)
      ensures Stored(s.files, s.version + 1, (k, t))
    {
      if t <= s.since {
        NewestBefore(s.log, s.last, s.since, k, t);
        assert Stored(s.files, s.version, (k, t));
        var m :| m in s.files && m.version <= s.version && s.files[m].Complete? && (k, t) in s.files[m].records;
      }
    }
  }

  lemma NewestBefore(log: Records, w: nat, since: nat, k: string, t: nat)
    requires IsNewest(UpTo(log, w), k, t) && t <= since <= w
    ensures IsNewest(UpTo(log, since), k, t)
  {
    forall u: nat | (k, u) in UpTo(log, since)
      ensures u <= t
    {
      assert (k, u) in UpTo(log, w);
    }
  }

  lemma LoadedHolds(s: State, order: seq<Name>)
    requires Inv(s)
    requires forall n :: n in order <==> n in s.files && s.files[n].Complete?
    ensures LoadAll(s.files, order).Some?
    ensures var db := LoadAll(s.files, order).value;
            && Within(db, UpTo(s.log, s.last))
            && forall r :: r in db <==> Stored(s.files, s.version + 1, r)
  {
    LoadsIffComplete(s.files, order);
    var source := UpTo(s.log, s.last);
    forall n | n in order
      ensures Within(s.files[n].records, source) && n.version <= s.version + 1
    {
      FileWithinLast(s, n);
      assert FileInv(s, n);
    }
    hide Inv, Within, LoadAll, UpTo;
    LoadedUnion(s.files, order, source);
  }

  /** Restore correctness: all complete files load, in any order, and hold every record that was newest when the last
      whole backup was written if and only if a complete file still reaches its watermark; then a reader of the
      restored store sees under every key what the source showed at that time. */
  lemma RestoreCorrect(steps: seq<Step>, order: seq<Name>)
    requires Run(steps).Some?
    requires var files := Run(steps).value.files; forall n :: n in order <==> n in files && files[n].Complete?
    ensures LoadAll(Run(steps).value.files, order).Some?
    ensures var s := Run(steps).value; var db, source := LoadAll(s.files, order).value, UpTo(s.log, s.last);
            && (Reached(s) <==> forall k: string, t: nat :: IsNewest(source, k, t) ==> (k, t) in db)
            && (Reached(s) ==> forall k: string :: Live(db, k) == Live(source, k))
  {
    RunKeepsInv(steps);
    var s := Run(steps).value;
    CoveredIffReached(s);
    LoadedHolds(s, order);
    hide Inv, LoadAll, UpTo, Run, Reached, Live, Stored, IsNewest, Within;
    var db, source := LoadAll(s.files, order).value, UpTo(s.log, s.last);
    if Reached(s) {
      forall k: string
        ensures Live(db, k) == Live(source, k)
      {
        SameLive(db, source, k);
      }
    }
  }

  /** No backup is torn under the name of a file that is already there. */
  ghost predicate FreshTears(steps: seq<Step>) {
    forall i :: 0 <= i < |steps| && steps[i].Tear? && Run(steps[..i]).Some? ==>
      Name(steps[i].stamp, Run(steps[..i]).value.version + 1) !in Run(steps[..i]).value.files
  }

  lemma FreshPrefix(steps: seq<Step>)
    requires steps != [] && FreshTears(steps) && Run(steps[..|steps| - 1]).Some?
    ensures var n := |steps| - 1;
            && FreshTears(steps[..n])
            && (steps[n].Tear? ==> Name(steps[n].stamp, Run(steps[..n]).value.version + 1) !in Run(steps[..n]).value.files)
  {
    hide Run;
    var rest := steps[..|steps| - 1];
    forall i | 0 <= i < |rest|
      ensures rest[..i] == steps[..i] && rest[i] == steps[i]
    {
    }
  }

  function StampOf(step: Step): Option<string> {
    match step
    case Tear(stamp) => Some(stamp)
    case Write(stamp, _, _, _) => Some(stamp)
    case _ => None
  }

  lemma {:induction false} NamesFromSteps(steps: seq<Step>, n: Name)
    requires Run(steps).Some? && n in Run(steps).value.files
    ensures exists i :: 0 <= i < |steps| && StampOf(steps[i]) == Some(n.stamp)
  {
    if steps != [] {
      var rest, step := steps[..|steps| - 1], steps[|steps| - 1];
      assert steps[|steps| - 1] == step;
      if n in Run(rest).value.files {
        NamesFromSteps(rest, n);
        var i :| 0 <= i < |rest| && StampOf(rest[i]) == Some(n.stamp);
        assert steps[i] == rest[i];
      }
    }
  }

  /** Time stamps that never repeat keep every name fresh. */
  lemma DistinctStampsAreFresh(steps: seq<Step>)
    requires forall i, j :: 0 <= i < j < |steps| && StampOf(steps[i]).Some? ==> StampOf(steps[i]) != StampOf(steps[j])
    ensures FreshTears(steps)
  {
    hide Run;
    forall i | 0 <= i < |steps| && steps[i].Tear? && Run(steps[..i]).Some?
      ensures Name(steps[i].stamp, Run(steps[..i]).value.version + 1) !in Run(steps[..i]).value.files
    {
      var n := Name(steps[i].stamp, Run(steps[..i]).value.version + 1);
      if n in Run(steps[..i]).value.files {
        NamesFromSteps(steps[..i], n);
      }
    }
  }

  /** Without such a tear the last watermark stays within reach, whatever failed. */
  lemma {:induction false} FreshTearsReach(steps: seq<Step>)
    requires Run(steps).Some? && FreshTears(steps)
    ensures Reached(Run(steps).value)
  {
    if steps != [] {
      hide FreshTears, Inv;
      var rest := steps[..|steps| - 1];
      FreshPrefix(steps);
      FreshTearsReach(rest);
      RunKeepsInv(rest);
      hide Run;
      StepKeepsReached(Run(rest).value, steps[|steps| - 1]);
    }
  }

  lemma StepKeepsReached(s: State, step: Step)
    requires Inv(s) && Reached(s) && Apply(s, step).Some?
    requires step.Tear? ==> Name(step.stamp, s.version + 1) !in s.files
    ensures Reached(Apply(s, step).value)
  {
    hide Inv, Within, IsNewest;
    var u := Apply(s, step).value;
    if step.Write? {
      assert Reaches(u, Name(step.stamp, s.version + 1), step.next);
    } else if s.last != 0 {
      var n :| Reaches(s, n, s.last);
      assert Reaches(u, n, s.last);
    }
  }

  lemma RunSnoc(steps: seq<Step>, step: Step)
    requires Run(steps).Some?
    ensures Run(steps + [step]) == Apply(Run(steps).value, step)
  {
    assert (steps + [step])[..|steps|] == steps;
  }

  /** A whole file can be lost to a torn one of its own name: the first backup is written but its watermark not
      saved, and the second, in the same second, fails halfway. Nothing is left to restore. */
  lemma TornOverWhole() returns (steps: seq<Step>)
    ensures Run(steps).Some?
    ensures var s := Run(steps).value;
            && s.files == map[Name("t", 1) := Torn] && s.last == 1
            && Live(UpTo(s.log, s.last), "a") == Some("v") && !Reached(s)
  {
    var log: Records := map[("a", 1) := Some("v")];
    var w := map["a" := Some("v")];
    assert Run([]) == Some(Start);
    hide Run;
    var s1 := Start.(log := log, clock := 1);
    CommitFirst();
    steps := Take([], Start, Commit(w), s1);
    assert IsNewest(log, "a", 1) && ("a", 1).1 == 1;
    assert UpTo(log, 1) == log;
    hide IsNewest, UpTo;
    FirstEmits();
    var s2 := s1.(files := s1.files[Name("t", 1) := Complete(log)], last := 1);
    steps := Take(steps, s1, Write("t", log, 1, false), s2);
    var s3 := s2.(files := s2.files[Name("t", 1) := Torn]);
    assert s3.files == map[Name("t", 1) := Torn];
    steps := Take(steps, s2, Tear("t"), s3);
  }

  lemma CommitFirst()
    ensures Apply(Start, Commit(map["a" := Some("v")])) == Some(Start.(log := map[("a", 1) := Some("v")], clock := 1))
  {
    var w := map["a" := Some("v")];
    var log := Apply(Start, Commit(w)).value.log;
    assert "a" in w;
    assert forall r :: r in log <==> r == ("a", 1);
    assert log == map[("a", 1) := Some("v")];
  }

  lemma FirstEmits()
    ensures var log: Records := map[("a", 1) := Some("v")]; Emits(log, 0, log, 1)
  {
    var log: Records := map[("a", 1) := Some("v")];
    assert ("a", 1) in log && ("a", 1).1 == 1;
  }

  lemma Take(steps: seq<Step>, s: State, step: Step, u: State) returns (more: seq<Step>)
    requires Run(steps) == Some(s) && Apply(s, step) == Some(u)
    ensures Run(more) == Some(u)
  {
    RunSnoc(steps, step);
    more := steps + [step];
  }

  // ---------- what the steps do ----------

  /** A commit gives the written keys their new values, deletions included, and leaves the others as they were. */
  lemma CommitLive(s: State, writes: map<string, Option<string>>, k: string)
    requires forall r :: r in s.log ==> r.1 <= s.clock
    ensures var u := Apply(s, Commit(writes)).value;
            Live(u.log, k) == if k in writes then writes[k] else Live(s.log, k)
  {
    var u := Apply(s, Commit(writes)).value;
    CommitAdds(s, writes);
    CommitRecords(s, writes, k);
    hide Apply, UpTo;
    if k in writes {
      assert IsNewest(u.log, k, u.clock);
      if t: nat :| IsNewest(u.log, k, t) {
        assert t == u.clock;
      }
    } else {
      SameNewest(s.log, u.log, k);
    }
  }

  lemma CommitRecords(s: State, writes: map<string, Option<string>>, k: string)
    requires forall r :: r in s.log ==> r.1 <= s.clock
    ensures var u := Apply(s, Commit(writes)).value;
            && u.clock == s.clock + 1
            && (k in writes ==> (k, u.clock) in u.log && u.log[(k, u.clock)] == writes[k])
            && (k !in writes ==> forall t: nat :: (k, t) in u.log <==> (k, t) in s.log)
  {
    var u := Apply(s, Commit(writes)).value;
    if k in writes {
      assert (k, u.clock) in (set j | j in writes :: (j, u.clock));
    }
  }

  lemma SameNewest(a: Records, b: Records, k: string)
    requires Within(a, b) && forall t: nat :: (k, t) in b <==> (k, t) in a
    ensures Live(b, k) == Live(a, k)
  {
    if t: nat :| IsNewest(a, k, t) {
      assert IsNewest(b, k, t);
    }
    if t: nat :| IsNewest(b, k, t) {
      assert IsNewest(a, k, t);
    }
  }

  /** A whole backup writes one file of the next version and touches nothing else; saving latest.version moves version and
      watermark on, so that the next backup is incremental. A torn one leaves an unreadable file. */
  lemma BackupEffect(s: State, stamp: string, emitted: Records, next: nat, saved: bool)
    requires Emits(s.log, s.since, emitted, next)
    ensures Apply(s, Write(stamp, emitted, next, saved)).Some? && Apply(s, Tear(stamp)).Some?
    ensures var u, t := Apply(s, Write(stamp, emitted, next, saved)).value, Apply(s, Tear(stamp)).value;
            && u.log == s.log && u.clock == s.clock && u.last == next
            && u.files == s.files[Name(stamp, s.version + 1) := Complete(emitted)]
            && u.version == (if saved then s.version + 1 else s.version) && u.since == (if saved then next else s.since)
            && t == s.(files := s.files[Name(stamp, s.version + 1) := Torn])
  {
    hide Emits;
  }

  /** With anything newer than the saved watermark there is something to back up: all that is newer. */
  lemma BackupPossible(s: State, r: (string, nat)) returns (emitted: Records, next: nat)
    requires r in s.log && r.1 > s.since
    ensures Emits(s.log, s.since, emitted, next)
    ensures forall x :: x in emitted <==> x in s.log && x.1 > s.since
  {
    emitted := map x | x in s.log && x.1 > s.since :: s.log[x];
    var versions := set x | x in emitted :: x.1;
    assert r in emitted && r.1 in versions;
    SetMax(versions);
    var m :| m in versions && forall v :: v in versions ==> v <= m;
    next := m;
    forall x | x in emitted
      ensures s.since < x.1 <= next
    {
      assert x.1 in versions;
    }
    forall k: string, t: nat | IsNewest(s.log, k, t) && t > s.since
      ensures (k, t) in emitted
    {
      assert (k, t) in s.log && (k, t).1 == t;
    }
  }

  /** A backup is skipped exactly when there is nothing to back up. */
  lemma SkipIff(s: State)
    ensures Apply(s, Skip) == (if exists emitted: Records, next: nat :: Emits(s.log, s.since, emitted, next) then None else Some(s))
  {
    if r :| r in s.log && r.1 > s.since {
      var emitted, next := BackupPossible(s, r);
      assert Emits(s.log, s.since, emitted, next);
    }
    if emitted: Records, next: nat :| Emits(s.log, s.since, emitted, next) {
      EmitsAll(s.log, s.since, emitted, next);
    }
  }

  /** Right after a whole backup, in any run, restoring all complete files in any order gives the current contents of the
      source under every key. */
  lemma BackupThenRestore(steps: seq<Step>, stamp: string, emitted: Records, next: nat, saved: bool, order: seq<Name>, k: string)
    requires Run(steps + [Write(stamp, emitted, next, saved)]).Some?
    requires var files := Run(steps + [Write(stamp, emitted, next, saved)]).value.files;
             forall n :: n in order <==> n in files && files[n].Complete?
    ensures Run(steps).Some?
    ensures var u := Run(steps + [Write(stamp, emitted, next, saved)]).value;
            LoadAll(u.files, order).Some? && Live(LoadAll(u.files, order).value, k) == Live(Run(steps).value.log, k)
  {
    var more := steps + [Write(stamp, emitted, next, saved)];
    assert more[..|more| - 1] == steps;
    var s, u := Run(steps).value, Run(more).value;
    assert Apply(s, Write(stamp, emitted, next, saved)) == Some(u);
    assert Emits(s.log, s.since, emitted, next);
    hide Run;
    BackupEffect(s, stamp, emitted, next, saved);
    EmitsAll(s.log, s.since, emitted, next);
    assert UpTo(u.log, next) == s.log;
    hide Apply, Emits, UpTo, Live, LoadAll, IsNewest;
    assert Reaches(u, Name(stamp, s.version + 1), u.last);
    RestoreCorrect(more, order);
  }
}
