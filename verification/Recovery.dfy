/** The upload swap of a restore and its crash recovery. A crash may fall before or after any
    change to the disk; every state a crash can leave is in the machine's history. */
module Recovery {

  /** The files of an upload tree, by path. */
  type Tree = map<string, string>

  /** A directory: missing, what a cut-off removal left, or whole. */
  datatype Dir = Absent | Partial(left: Tree) | Whole(tree: Tree)

  /** restored: the database holds the archive's rows, not the previous ones. */
  datatype Disk = Disk(restored: bool, live: Dir, aside: Dir, staging: Dir)

  datatype Outcome = Done | Failed

  // ----------------------------------------------------------------- states

  /** Before anything: a complete staged tree, beside whatever live tree there is and whatever
      an earlier restore left set aside. */
  predicate Staged(d: Disk) {
    !d.restored && d.staging.Whole?
  }

  /** The usual case: nothing is set aside. */
  predicate Ready(d: Disk) {
    Staged(d) && d.aside == Absent
  }

  /** The five kinds of state a restore passes through. */
  datatype Phase = BeforeCommit | BeforeSwap | Between | Swapped | Cleaned

  predicate In(p: Phase, s: Disk, d: Disk) {
    match p
    case BeforeCommit => d == s
    case BeforeSwap => d == s.(restored := true, aside := d.aside) && Remains(s.aside, d.aside)
    case Between => s.live != Absent && d == Disk(true, Absent, s.live, s.staging)
    case Swapped => s.live != Absent && d.restored && d.live == s.staging && d.staging == Absent && Remains(s.live, d.aside) && d.aside != Absent
    case Cleaned => d == Disk(true, s.staging, Absent, Absent)
  }

  /** What a removal of a directory leaves on the way: all of it, some of it, or nothing. */
  predicate Remains(before: Dir, now: Dir) {
    now == before || now == Absent || (before != Absent && now.Partial? && now.left.Keys <= Content(before).Keys)
  }

  function Content(d: Dir): Tree {
    match d
    case Absent => map[]
    case Partial(t) => t
    case Whole(t) => t
  }

  ghost predicate Reachable(s: Disk, d: Disk) {
    exists p :: In(p, s, d)
  }

  // --------------------------------------------------------------- recovery

  /** Recovery when no disk operation fails, and whether it reports a fault. */
  function Recovered(d: Disk): (Disk, bool) {
    var d1 := if d.staging != Absent && d.aside == Absent then d.(staging := Absent) else d;
    if d1.aside == Absent then (d1, false)
    else if d1.live != Absent then (d1.(aside := Absent), false)
    else (d1.(live := d1.aside, aside := Absent, staging := Absent), true)
  }

  /** A state recovery from d may be in when it is cut off. */
  predicate Recovering(d: Disk, now: Disk) {
    now.restored == d.restored
    && if d.aside == Absent then now.live == d.live && now.aside == Absent && Remains(d.staging, now.staging)
       else if d.live != Absent then now.live == d.live && Remains(d.aside, now.aside) && now.staging == d.staging
       else now == d || (now.live == d.aside && now.aside == Absent && Remains(d.staging, now.staging))
  }

  /** Wherever the restore was cut off, recovery leaves only a live tree: wholly the restored
      one exactly if the second rename was made, else wholly the previous. It reports a fault
      exactly between the two renames, and running it again changes and reports nothing. */
  lemma RecoveryRepairs(s: Disk, d: Disk)
    requires Ready(s) && Reachable(s, d)
    ensures var (r, fault) := Recovered(d);
      && r == Disk(d.restored, if In(Swapped, s, d) || In(Cleaned, s, d) then s.staging else s.live, Absent, Absent)
      && (fault <==> In(Between, s, d))
      && Recovered(r) == (r, false)
  {
  }

  /** With a leftover already set aside at the start, a crash may leave it there. Recovery then
      deletes it and keeps the staged tree for the next run to delete, if there is a live tree;
      if there is none it takes the leftover for the live tree and reports a fault. In every
      other state it repairs as above. */
  lemma LeftoverRepairs(s: Disk, d: Disk)
    requires Staged(s) && Reachable(s, d)
    ensures var (r, fault) := Recovered(d);
      if (In(BeforeCommit, s, d) || In(BeforeSwap, s, d)) && d.aside != Absent then
        if s.live != Absent then
          !fault && r == d.(aside := Absent) && Recovered(r) == (Disk(d.restored, s.live, Absent, Absent), false)
        else fault && r == Disk(d.restored, d.aside, Absent, Absent)
      else
        && r == Disk(d.restored, if In(Swapped, s, d) || In(Cleaned, s, d) then s.staging else s.live, Absent, Absent)
        && (fault <==> In(Between, s, d))
  {
  }

  /** The live tree goes with the database. */
  predicate Agrees(s: Disk, r: Disk) {
    r.live == if r.restored then s.staging else s.live
  }

  /** Database and uploads agree after recovery exactly when the crash fell before the commit or
      after the second rename. Between the commit and the first rename recovery cannot tell, and
      reports nothing. */
  lemma AgreementIff(s: Disk, d: Disk)
    requires Ready(s) && Reachable(s, d) && s.live != s.staging
    ensures Agrees(s, Recovered(d).0) <==> In(BeforeCommit, s, d) || In(Swapped, s, d) || In(Cleaned, s, d)
    ensures In(BeforeSwap, s, d) ==> !Agrees(s, Recovered(d).0) && !Recovered(d).1
  {
  }

  /** With a tree set aside and a live one there is nothing staged. */
  predicate Tame(d: Disk) {
    d.aside != Absent && d.live != Absent ==> d.staging == Absent
  }

  /** Recoveries that were cut off one after the other. */
  ghost predicate CutOff(ds: seq<Disk>) {
    ds != [] && forall i :: 0 <= i < |ds| - 1 ==> Recovering(ds[i], ds[i + 1])
  }

  lemma RecoverAgain(d: Disk, now: Disk)
    requires Tame(d) && Recovering(d, now)
    ensures Tame(now) && Recovered(now).0 == Recovered(d).0
    ensures Recovered(now).1 ==> now == d
  {
  }

  /** However often recovery itself is cut off, the run that completes leaves the same disk. The
      fault is reported by it exactly if no run before had already moved the tree back. */
  lemma {:induction false} CutOffRecoveries(s: Disk, ds: seq<Disk>)
    requires Ready(s) && CutOff(ds) && Reachable(s, ds[0])
    ensures Recovered(ds[|ds| - 1]).0 == Recovered(ds[0]).0 && Tame(ds[|ds| - 1])
    ensures Recovered(ds[|ds| - 1]).1 <==> In(Between, s, ds[0]) && ds[|ds| - 1] == ds[0]
    decreases |ds|
  {
    RecoveryRepairs(s, ds[0]);
    var n := |ds| - 1;
    if n > 0 {
      var init := ds[..n];
      assert init[n - 1] == ds[n - 1] && Recovering(ds[n - 1], ds[n]);
      CutOffRecoveries(s, init);
      RecoverAgain(ds[n - 1], ds[n]);
    }
  }

  lemma ClearingStates(s: Disk, d: Disk)
    requires In(BeforeSwap, s, d)
    ensures forall x :: Remains(d.aside, x) ==> In(BeforeSwap, s, d.(aside := x)) && Reachable(s, d.(aside := x))
  {
    forall x | Remains(d.aside, x) ensures In(BeforeSwap, s, d.(aside := x)) && Reachable(s, d.(aside := x)) {
      assert In(BeforeSwap, s, d.(aside := x));
    }
  }

  lemma CleanupStates(s: Disk, d: Disk)
    requires Staged(s) && (In(Swapped, s, d) || In(Cleaned, s, d))
    ensures forall x :: Remains(d.aside, x) ==> In(if x == Absent then Cleaned else Swapped, s, d.(aside := x))
    ensures forall x :: Remains(d.aside, x) ==> Reachable(s, d.(aside := x))
  {
    forall x | Remains(d.aside, x) ensures In(if x == Absent then Cleaned else Swapped, s, d.(aside := x)) {}
    forall x | Remains(d.aside, x) ensures Reachable(s, d.(aside := x)) {
      assert In(if x == Absent then Cleaned else Swapped, s, d.(aside := x));
    }
  }

  // ----------------------------------------------------------------- the disk

  class Machine {
    var disk: Disk
    /** On a reliable machine no disk operation fails. */
    const reliable: bool
    /** Every state a crash could have left. */
    ghost var history: seq<Disk>

    constructor (disk: Disk, reliable: bool)
      ensures this.disk == disk && this.reliable == reliable && history == [disk]
    {
      this.disk, this.reliable, history := disk, reliable, [disk];
    }

    method Change(d: Disk)
      modifies this
      ensures disk == d && history == old(history) + [d]
    {
      disk, history := d, history + [d];
    }

    /** What is left of a directory when a removal stops early. */
    method PartOf(d: Dir) returns (left: Dir)
      requires d != Absent
      ensures left.Partial? && Remains(d, left)
    {
      var keep: set<string> := *;
      left := Partial(map k | k in Content(d) && k in keep :: Content(d)[k]);
    }

    method RemoveAside() returns (ok: bool)
      modifies this
      ensures reliable ==> ok
      ensures disk == old(disk).(aside := disk.aside) && Remains(old(disk).aside, disk.aside)
      ensures ok ==> disk.aside == Absent
      ensures |history| >= |old(history)| && history[..|old(history)|] == old(history)
      ensures forall i :: |old(history)| <= i < |history| ==>
        history[i] == old(disk).(aside := history[i].aside) && Remains(old(disk).aside, history[i].aside)
    {
      if disk.aside == Absent {
        return true;
      }
      var left := PartOf(disk.aside);
      Change(disk.(aside := left));
      var stopped: bool := *;
      if stopped && !reliable {
        return false;
      }
      Change(disk.(aside := Absent));
      ok := true;
    }

    method RemoveStaging() returns (ok: bool)
      modifies this
      ensures reliable ==> ok
      ensures disk == old(disk).(staging := disk.staging) && Remains(old(disk).staging, disk.staging)
      ensures ok ==> disk.staging == Absent
      ensures |history| >= |old(history)| && history[..|old(history)|] == old(history)
      ensures forall i :: |old(history)| <= i < |history| ==>
        history[i] == old(disk).(staging := history[i].staging) && Remains(old(disk).staging, history[i].staging)
    {
      if disk.staging == Absent {
        return true;
      }
      var left := PartOf(disk.staging);
      Change(disk.(staging := left));
      var stopped: bool := *;
      if stopped && !reliable {
        return false;
      }
      Change(disk.(staging := Absent));
      ok := true;
    }

    /** A rename is one step, or fails and changes nothing. */
    method Rename(d: Disk) returns (ok: bool)
      modifies this
      ensures reliable ==> ok
      ensures if ok then disk == d && history == old(history) + [d] else disk == old(disk) && history == old(history)
    {
      var fails: bool := *;
      if fails && !reliable {
        return false;
      }
      Change(d);
      ok := true;
    }

    /** Swaps the staged tree in with two renames, undoing the first if the second fails. */
    method SwapUploads(ghost s: Disk) returns (r: Outcome)
      requires Staged(s) && In(BeforeSwap, s, disk)
      modifies this
      ensures |history| >= |old(history)| && history[..|old(history)|] == old(history)
      ensures forall i :: |old(history)| <= i < |history| ==> Reachable(s, history[i])
      ensures if r == Done then In(Cleaned, s, disk) else Reachable(s, disk)
      ensures reliable ==> r == Done
    {
      ClearingStates(s, disk);
      var cleared := RemoveAside();
      if !cleared {
        return Failed;
      }
      var moved := false;
      if disk.live != Absent {
        var aside := Rename(disk.(aside := disk.live, live := Absent));
        if !aside {
          return Failed;
        }
        assert In(Between, s, disk);
        moved := true;
      }
      var swapped := Rename(disk.(live := disk.staging, staging := Absent));
      if !swapped {
        if moved {
          var _ := Rename(disk.(live := disk.aside, aside := Absent));
        }
        assert In(BeforeSwap, s, disk) || In(Between, s, disk);
        return Failed;
      }
      assert if moved then In(Swapped, s, disk) else In(Cleaned, s, disk);
      r := Cleanup(s);
    }

    /** The previous tree is deleted once the restored one is live. */
    method Cleanup(ghost s: Disk) returns (r: Outcome)
      requires Staged(s) && (In(Swapped, s, disk) || In(Cleaned, s, disk))
      modifies this
      ensures |history| >= |old(history)| && history[..|old(history)|] == old(history)
      ensures forall i :: |old(history)| <= i < |history| ==> Reachable(s, history[i])
      ensures if r == Done then In(Cleaned, s, disk) else Reachable(s, disk)
      ensures reliable ==> r == Done
    {
      CleanupStates(s, disk);
      var removed := RemoveAside();
      r := if removed then Done else Failed;
    }

    /** The database commits first, or nothing happens; then the uploads are swapped. */
    method Apply(ghost s: Disk) returns (r: Outcome)
      requires Staged(s) && disk == s
      modifies this
      ensures |history| >= |old(history)| && history[..|old(history)|] == old(history)
      ensures forall i :: |old(history)| <= i < |history| ==> Reachable(s, history[i])
      ensures if r == Done then In(Cleaned, s, disk) else Reachable(s, disk)
    {
      assert In(BeforeCommit, s, disk);
      var rolledBack: bool := *;
      if rolledBack {
        return Failed;
      }
      Change(disk.(restored := true));
      assert In(BeforeSwap, s, disk);
      r := SwapUploads(s);
    }

    /** Runs at every boot; reports whether it found the swap interrupted between its renames. */
    method Recover() returns (r: Outcome, fault: bool)
      modifies this
      ensures |history| >= |old(history)| && history[..|old(history)|] == old(history)
      ensures forall i :: |old(history)| <= i < |history| ==> Recovering(old(disk), history[i])
      ensures Recovering(old(disk), disk)
      ensures r == Done ==> (disk, fault) == Recovered(old(disk))
      ensures reliable ==> r == Done
    {
      var stagingExists, asideExists, liveExists := disk.staging != Absent, disk.aside != Absent, disk.live != Absent;
      if stagingExists && !asideExists {
        var removed := RemoveStaging();
        if !removed {
          return Failed, false;
        }
      }
      if !asideExists {
        return Done, false;
      }
      if liveExists {
        var removed := RemoveAside();
        return if removed then Done else Failed, false;
      }
      var back := Rename(disk.(live := disk.aside, aside := Absent));
      if !back {
        return Failed, true;
      }
      var removed := RemoveStaging();
      return if removed then Done else Failed, true;
    }
  }
}
