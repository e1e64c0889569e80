/** Exactly what `acquire` and `close` answer in every reachable state, stated on the handles that hold locks. */
module LockReplies {
  import opened Wrappers
  import opened Locks
  import opened LockTheorems

  /** `g` holds the same path in the same process as `x`. */
  predicate InProcess(s: State, x: Handle, g: HandleId) {
    Holding(s, g) && s.handles[g].pid == x.pid && s.handles[g].path == x.path
  }

  ghost predicate HeldHere(s: State, x: Handle) {
    exists g :: InProcess(s, x, g)
  }

  /** Some holder of the same file excludes `x`, or is excluded by it. */
  ghost predicate Contended(inode: string -> nat, s: State, x: Handle) {
    exists g :: Holding(s, g) && inode(s.handles[g].path) == inode(x.path) && (x.exclusive || s.handles[g].exclusive)
  }

  /** The process holds the path in the other mode. */
  ghost predicate OtherMode(s: State, x: Handle) {
    exists g :: InProcess(s, x, g) && s.handles[g].exclusive != x.exclusive
  }

  /** The process holds the path exclusively, on behalf of another thread. */
  ghost predicate OtherThread(s: State, x: Handle, t: Thread) {
    x.exclusive && exists g :: InProcess(s, x, g) && s.handles[g].exclusive && s.handles[g].acquirer != Some(t)
  }

  /** The reply to thread `t` asking for an idle handle `x`. */
  ghost predicate Answers(inode: string -> nat, s: State, x: Handle, t: Thread, valid: bool, r: Reply) {
    && (r == Granted <==> || (HeldHere(s, x) && !OtherMode(s, x) && !OtherThread(s, x, t))
                          || (!HeldHere(s, x) && valid && !Contended(inode, s, x)))
    && (r == Refused(ModeMismatch) <==> OtherMode(s, x))
    && (r == Waits <==> OtherThread(s, x, t) && x.blocking)
    && (r == Refused(HeldByOtherThread) <==> OtherThread(s, x, t) && !x.blocking)
    && (r == Refused(BadDescriptor) <==> !HeldHere(s, x) && !valid)
    && (r == Blocked <==> !HeldHere(s, x) && valid && Contended(inode, s, x) && x.blocking)
    && (r == Refused(Contention) <==> !HeldHere(s, x) && valid && Contended(inode, s, x) && !x.blocking)
    && r != Refused(MissingEntry)
  }

  // ---- the table speaks for the handles -------------------------------------

  lemma EntryIsHeld(inode: string -> nat, s: State, x: Handle)
    requires Inv(inode, s)
    ensures KeyOf(x) in s.table <==> HeldHere(s, x)
  {
    hide KernelOk, AllParkedOk;
    if KeyOf(x) in s.table {
      assert EntryOk(s, KeyOf(x));
      var g :| g in Holders(s.handles, KeyOf(x));
      assert HandleOk(s, s.handles[g]);
      assert InProcess(s, x, g);
    }
    if g :| InProcess(s, x, g) {
      assert HandleOk(s, s.handles[g]);
    }
  }

  /** All holders of an entry have its mode, and its owner if it is exclusive. */
  lemma HoldersAgree(inode: string -> nat, s: State, x: Handle, g: HandleId)
    requires Inv(inode, s) && InProcess(s, x, g)
    ensures KeyOf(x) in s.table && s.table[KeyOf(x)].exclusive == s.handles[g].exclusive
    ensures s.handles[g].exclusive ==> s.handles[g].acquirer == s.table[KeyOf(x)].owner
  {
    hide KernelOk, AllParkedOk, EntriesOk;
    assert HandleOk(s, s.handles[g]);
  }

  lemma ModesAndOwners(inode: string -> nat, s: State, x: Handle, t: Thread)
    requires Inv(inode, s) && KeyOf(x) in s.table
    ensures OtherMode(s, x) <==> s.table[KeyOf(x)].exclusive != x.exclusive
    ensures OtherThread(s, x, t) <==> x.exclusive && s.table[KeyOf(x)].exclusive && s.table[KeyOf(x)].owner != Some(t)
  {
    hide Inv;
    EntryIsHeld(inode, s, x);
    var g :| InProcess(s, x, g);
    HoldersAgree(inode, s, x, g);
    forall f | InProcess(s, x, f) {
      HoldersAgree(inode, s, x, f);
    }
  }

  lemma KernelIsHeld(inode: string -> nat, s: State, x: Handle)
    requires Inv(inode, s)
    ensures Available(s.os, inode(x.path), x.exclusive) <==> !Contended(inode, s, x)
  {
    if fd :| fd in s.os && s.os[fd].file == inode(x.path) && (x.exclusive || s.os[fd].exclusive) {
      assert Backs(s.table, fd);
      var k :| k in s.table && s.table[k].descriptor == fd;
      assert EntryOk(s, k);
      var g :| g in Holders(s.handles, k);
      assert HandleOk(s, s.handles[g]);
      assert Holding(s, g) && inode(s.handles[g].path) == inode(x.path);
    }
    if g :| Holding(s, g) && inode(s.handles[g].path) == inode(x.path) && (x.exclusive || s.handles[g].exclusive) {
      assert HandleOk(s, s.handles[g]);
      var fd := s.table[KeyOf(s.handles[g])].descriptor;
      assert fd in s.os && s.os[fd].file == inode(x.path);
    }
  }

  lemma EnterAnswers(inode: string -> nat, s: State, x: Handle, t: Thread, fd: Fd, valid: bool)
    requires Inv(inode, s)
    ensures Answers(inode, s, x, t, valid, Enter(inode, s.table, s.os, x, t, fd, valid).result)
  {
    hide Inv, HeldHere, OtherMode, OtherThread, Contended, Available;
    EntryIsHeld(inode, s, x);
    KernelIsHeld(inode, s, x);
    if KeyOf(x) in s.table {
      ModesAndOwners(inode, s, x, t);
    } else {
      NotHeld(s, x, t);
    }
  }

  lemma NotHeld(s: State, x: Handle, t: Thread)
    requires !HeldHere(s, x)
    ensures !OtherMode(s, x) && !OtherThread(s, x, t)
  {
  }

  // ---- acquire --------------------------------------------------------------

  /** A granted handle is held on behalf of `t`, a waiting thread is parked, and nothing else happens to the
      handles and the waiting threads. */
  ghost predicate Leaves(s: State, s': State, t: Thread, h: HandleId, r: Reply)
    requires h in s.handles
  {
    var x := s.handles[h];
    && s'.handles == (if r == Granted then s.handles[h := x.(key := Some(Key(x.pid, x.path)), acquirer := Some(t))]
                      else s.handles)
    && s'.parked == (if r == Waits then s.parked[t := Parked(h, false)] else s.parked)
  }

  lemma AttemptLeaves(inode: string -> nat, s: State, t: Thread, h: HandleId, fd: Fd, valid: bool)
    requires h in s.handles
    ensures var r := Attempt(inode, s, t, h, fd, valid); Leaves(s, r.state, t, h, r.result)
  {
    hide Available;
    assert s.handles[h := s.handles[h]] == s.handles;
  }

  /** The exact reply to every acquisition in every reachable state; a handle that holds its lock already is
      granted again and nothing changes. */
  lemma AcquireExactly(inode: string -> nat, steps: seq<Step>, t: Thread, h: HandleId, fd: Fd, valid: bool)
    requires MayUse(Run(inode, steps), t, h) && fd !in Run(inode, steps).os
    ensures var s := Run(inode, steps);
            var r := Do(inode, s, Acquire(t, h, fd, valid));
            if Holding(s, h) then r == Outcome(s, Granted)
            else Answers(inode, s, s.handles[h], t, valid, r.result) && Leaves(s, r.state, t, h, r.result)
  {
    hide Run, Enter, Answers, Leaves, Awaited;
    RunInv(inode, steps);
    var s := Run(inode, steps);
    EnterAnswers(inode, s, s.handles[h], t, fd, valid);
    AttemptLeaves(inode, s, t, h, fd, valid);
  }

  /** A woken thread gets the same answer as one that asks anew; it goes on waiting for the kernel, or for the
      thread that was faster, and is no longer parked otherwise. */
  lemma ResumeExactly(inode: string -> nat, steps: seq<Step>, t: Thread, fd: Fd, valid: bool)
    requires var s := Run(inode, steps); t in s.parked && s.parked[t].notified && fd !in s.os
    ensures var s := Run(inode, steps);
            var r := Do(inode, s, Resume(t, fd, valid));
            && s.parked[t].handle in s.handles
            && Answers(inode, s, s.handles[s.parked[t].handle], t, valid, r.result)
            && if r.result == Blocked then r.state == s
               else Leaves(s.(parked := s.parked - {t}), r.state, t, s.parked[t].handle, r.result)
  {
    hide Run, Enter, Answers, Leaves;
    RunInv(inode, steps);
    var s := Run(inode, steps);
    var h, woken := s.parked[t].handle, s.(parked := s.parked - {t});
    assert ParkedOk(s, t);
    EnterAnswers(inode, s, s.handles[h], t, fd, valid);
    AttemptLeaves(inode, woken, t, h, fd, valid);
  }

  /** The exclusive lock is re-entrant: a thread that holds a path exclusively is always granted another exclusive
      handle on it, and the references rise by one. */
  lemma ExclusiveIsReentrant(inode: string -> nat, steps: seq<Step>, t: Thread, g: HandleId, h: HandleId, fd: Fd, valid: bool)
    requires var s := Run(inode, steps);
             && MayUse(s, t, h) && fd !in s.os && !Holding(s, h) && InProcess(s, s.handles[h], g)
             && s.handles[g].exclusive && s.handles[g].acquirer == Some(t) && s.handles[h].exclusive
    ensures var s := Run(inode, steps);
            var r, k := Do(inode, s, Acquire(t, h, fd, valid)), KeyOf(s.handles[h]);
            && r.result == Granted && k in s.table && k in r.state.table
            && r.state.table[k].references == s.table[k].references + 1
  {
    hide Run, Available, Awaited, Inv;
    RunInv(inode, steps);
    var s := Run(inode, steps);
    HoldersAgree(inode, s, s.handles[h], g);
  }

  // ---- close ----------------------------------------------------------------

  /** Closing always succeeds: the handle holds nothing afterwards, other handles are untouched, the entry goes
      with its last holder, and exactly then the waiting threads of the process are notified. */
  lemma CloseExactly(inode: string -> nat, steps: seq<Step>, t: Thread, h: HandleId)
    requires MayUse(Run(inode, steps), t, h)
    ensures var s := Run(inode, steps);
            var r, x := Do(inode, s, Close(t, h)), s.handles[h];
            && r.result == Granted
            && r.state.handles == s.handles[h := x.(key := None)]
            && (Holding(s, h) ==>
                  (KeyOf(x) !in r.state.table <==> forall g :: InProcess(s, x, g) ==> g == h))
            && (r.state.parked == if Holding(s, h) && forall g :: InProcess(s, x, g) ==> g == h
                                  then Notify(s.parked, t.pid) else s.parked)
  {
    hide Run, Awaited, Notify;
    RunInv(inode, steps);
    var s := Run(inode, steps);
    var x := s.handles[h];
    assert HandleOk(s, x);
    if Holding(s, h) {
      LastHolder(inode, s, h);
      assert s.table[KeyOf(x)].references > 0;
    } else {
      assert s.handles[h := x.(key := None)] == s.handles;
    }
  }

  lemma LastHolder(inode: string -> nat, s: State, h: HandleId)
    requires Inv(inode, s) && Holding(s, h)
    ensures KeyOf(s.handles[h]) in s.table && s.handles[h].key == Some(KeyOf(s.handles[h]))
    ensures s.table[KeyOf(s.handles[h])].references >= 1
    ensures s.table[KeyOf(s.handles[h])].references == 1 <==> forall g :: InProcess(s, s.handles[h], g) ==> g == h
  {
    hide KernelOk, AllParkedOk;
    var x := s.handles[h];
    assert HandleOk(s, x) && EntryOk(s, KeyOf(x));
    var holders := Holders(s.handles, KeyOf(x));
    assert h in holders;
    forall g
      ensures g in holders <==> InProcess(s, x, g)
    {
      if Holding(s, g) {
        assert HandleOk(s, s.handles[g]);
      }
    }
    if forall g :: InProcess(s, x, g) ==> g == h {
      assert holders == {h};
    }
    if |holders| == 1 {
      Singleton(holders, h);
    }
  }
}
