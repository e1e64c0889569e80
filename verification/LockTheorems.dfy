/** What every step of the lock keeps, over all interleavings of all processes and threads. */
module LockTheorems {
  import opened Wrappers
  import opened Locks

  // ---- counting holders -----------------------------------------------------

  lemma HoldersAfter(handles: map<HandleId, Handle>, h: HandleId, v: Handle, k: Key)
    requires h in handles
    ensures var before, after := Holders(handles, k), Holders(handles[h := v], k);
            after == (before - {h}) + (if v.key == Some(k) then {h} else {})
    ensures handles[h].key != Some(k) && v.key == Some(k)
            ==> |Holders(handles[h := v], k)| == |Holders(handles, k)| + 1
    ensures handles[h].key == Some(k) && v.key != Some(k)
            ==> |Holders(handles[h := v], k)| == |Holders(handles, k)| - 1
    ensures (handles[h].key == Some(k) <==> v.key == Some(k)) ==> Holders(handles[h := v], k) == Holders(handles, k)
  {
    var before, after := Holders(handles, k), Holders(handles[h := v], k);
    assert after == (before - {h}) + (if v.key == Some(k) then {h} else {});
  }

  // ---- updating one entry and one handle ------------------------------------

  /** Only the entry of `k` and the handle `h` differ, and `h` carried and carries no other key. */
  ghost predicate Touches(s: State, s': State, k: Key, h: HandleId) {
    && h in s.handles && h in s'.handles && s'.handles == s.handles[h := s'.handles[h]]
    && (s.handles[h].key.Some? ==> s.handles[h].key.value == k)
    && (s'.handles[h].key.Some? ==> s'.handles[h].key.value == k)
    && (forall j :: j != k ==> (j in s.table <==> j in s'.table))
    && (forall j :: j != k && j in s.table ==> s'.table[j] == s.table[j])
  }

  /** Taking or dropping one reference keeps the count exact. */
  lemma Recount(s: State, s': State, k: Key, h: HandleId)
    requires k in s.table && EntryOk(s, k) && h in s.handles && h in s'.handles && k in s'.table
    requires s'.handles == s.handles[h := s'.handles[h]]
    requires s'.table[k] == s.table[k].(references := s'.table[k].references) && s'.table[k].references > 0
    requires || (s.handles[h].key != Some(k) && s'.handles[h].key == Some(k)
                 && s'.table[k].references == s.table[k].references + 1)
             || (s.handles[h].key == Some(k) && s'.handles[h].key != Some(k)
                 && s'.table[k].references == s.table[k].references - 1)
    ensures EntryOk(s', k)
  {
    HoldersAfter(s.handles, h, s'.handles[h], k);
    hide Holders;
  }

  lemma EntriesAfter(s: State, s': State, k: Key, h: HandleId)
    requires EntriesOk(s) && Touches(s, s', k, h)
    requires k in s'.table ==> EntryOk(s', k)
    ensures EntriesOk(s')
  {
    forall j | j in s'.table && j != k
      ensures EntryOk(s', j)
    {
      assert EntryOk(s, j);
      HoldersAfter(s.handles, h, s'.handles[h], j);
    }
  }

  lemma HandlesAfter(s: State, s': State, k: Key, h: HandleId)
    requires HandlesOk(s) && Touches(s, s', k, h) && HandleOk(s', s'.handles[h])
    requires Holders(s.handles, k) <= {h}
             || (k in s.table && k in s'.table && s'.table[k].exclusive == s.table[k].exclusive
                 && s'.table[k].owner == s.table[k].owner)
    ensures HandlesOk(s')
  {
    forall x | x in s'.handles && x != h
      ensures HandleOk(s', s'.handles[x])
    {
      assert HandleOk(s, s.handles[x]);
      assert s.handles[x].key == Some(k) ==> x in Holders(s.handles, k);
    }
  }

  /** Parked threads stay in order when the entry of `k` keeps its mode and owner, or they are notified. */
  lemma ParkedAfter(s: State, s': State, k: Key, h: HandleId)
    requires AllParkedOk(s) && Touches(s, s', k, h)
    requires !Awaited(s, h) && KeyOf(s'.handles[h]) == KeyOf(s.handles[h])
    requires s'.parked.Keys == s.parked.Keys
    requires forall t :: t in s.parked ==> s'.parked[t].handle == s.parked[t].handle
                                           && (s.parked[t].notified ==> s'.parked[t].notified)
    requires (k in s.table ==> k in s'.table && s'.table[k].exclusive == s.table[k].exclusive
                               && s'.table[k].owner == s.table[k].owner)
             || forall t :: t in s'.parked && t.pid == k.pid ==> s'.parked[t].notified
    ensures AllParkedOk(s')
  {
    forall t | t in s'.parked
      ensures ParkedOk(s', t)
    {
      assert ParkedOk(s, t);
      assert s.parked[t].handle != h;
    }
  }

  // ---- joining, opening, waiting --------------------------------------------

  lemma KernelKept(inode: string -> nat, s: State, s': State, k: Key, n: nat)
    requires KernelOk(inode, s) && s'.os == s.os && k in s.table
    requires s'.table == s.table[k := s.table[k].(references := n)]
    ensures KernelOk(inode, s')
  {
    forall fd | fd in s'.os
      ensures Backs(s'.table, fd)
    {
      var j :| j in s.table && s.table[j].descriptor == fd;
      assert j in s'.table && s'.table[j].descriptor == fd;
    }
  }

  lemma JoinInv(inode: string -> nat, s: State, t: Thread, h: HandleId, s': State)
    requires Inv(inode, s) && h in s.handles && s.handles[h].key.None? && s.handles[h].pid == t.pid && !Awaited(s, h)
    requires var k := KeyOf(s.handles[h]);
             && k in s.table && s.table[k].exclusive == s.handles[h].exclusive
             && (s.table[k].exclusive ==> s.table[k].owner == Some(t))
             && s' == s.(table := s.table[k := s.table[k].(references := s.table[k].references + 1)],
                         handles := s.handles[h := Taken(s.handles[h], t)])
    ensures Inv(inode, s')
  {
    var k := KeyOf(s.handles[h]);
    assert EntryOk(s, k);
    Recount(s, s', k, h);
    hide EntriesOk, HandlesOk, AllParkedOk, KernelOk, EntryOk, Awaited, Holders;
    EntriesAfter(s, s', k, h);
    HandlesAfter(s, s', k, h);
    ParkedAfter(s, s', k, h);
    KernelKept(inode, s, s', k, s.table[k].references + 1);
  }

  lemma NoHolders(s: State, k: Key)
    requires HandlesOk(s) && k !in s.table
    ensures Holders(s.handles, k) == {}
  {
    forall x | x in s.handles
      ensures s.handles[x].key != Some(k)
    {
      assert HandleOk(s, s.handles[x]);
    }
  }

  lemma OpenInv(inode: string -> nat, s: State, t: Thread, h: HandleId, fd: Fd, s': State)
    requires Inv(inode, s) && h in s.handles && s.handles[h].key.None? && s.handles[h].pid == t.pid && !Awaited(s, h)
    requires fd !in s.os
    requires var v := s.handles[h];
             && KeyOf(v) !in s.table && Available(s.os, inode(v.path), v.exclusive)
             && s' == s.(table := s.table[KeyOf(v) := Held(fd, v.exclusive, 1, if v.exclusive then Some(t) else None)],
                         os := s.os[fd := OsLock(inode(v.path), v.exclusive)],
                         handles := s.handles[h := Taken(v, t)])
    ensures Inv(inode, s')
  {
    var v, k := Taken(s.handles[h], t), KeyOf(s.handles[h]);
    NoHolders(s, k);
    HoldersAfter(s.handles, h, v, k);
    assert EntryOk(s', k);
    hide EntriesOk, HandlesOk, AllParkedOk, KernelOk, EntryOk, Awaited, Holders, Available;
    EntriesAfter(s, s', k, h);
    HandlesAfter(s, s', k, h);
    ParkedAfter(s, s', k, h);
    OpenKernel(inode, s, s', k, fd);
  }

  lemma OpenKernel(inode: string -> nat, s: State, s': State, k: Key, fd: Fd)
    requires KernelOk(inode, s) && fd !in s.os && k !in s.table && k in s'.table
    requires var e := s'.table[k];
             && e.descriptor == fd && s'.table == s.table[k := e]
             && Available(s.os, inode(k.path), e.exclusive)
             && s'.os == s.os[fd := OsLock(inode(k.path), e.exclusive)]
    ensures KernelOk(inode, s')
  {
    hide Backed, Needed, OwnDescriptors, Compatible, Available;
    OpenNeeded(s.table, s.os, k, s'.table[k], s'.os);
    OpenBacked(inode, s.table, s.os, k, s'.table[k], s'.os);
    OpenCompatible(s.os, fd, OsLock(inode(k.path), s'.table[k].exclusive));
  }

  lemma OpenNeeded(table: Table, os: Kernel, k: Key, e: Held, os': Kernel)
    requires Needed(table, os) && k !in table && os'.Keys == os.Keys + {e.descriptor}
    ensures Needed(table[k := e], os')
  {
    var table' := table[k := e];
    forall d | d in os'
      ensures Backs(table', d)
    {
      if d == e.descriptor {
        assert table'[k].descriptor == d;
      } else {
        var j :| j in table && table[j].descriptor == d;
        assert j in table' && table'[j].descriptor == d;
      }
    }
  }

  lemma OpenBacked(inode: string -> nat, table: Table, os: Kernel, k: Key, e: Held, os': Kernel)
    requires Backed(inode, table, os) && OwnDescriptors(table) && k !in table && e.descriptor !in os
    requires os' == os[e.descriptor := OsLock(inode(k.path), e.exclusive)]
    ensures Backed(inode, table[k := e], os') && OwnDescriptors(table[k := e])
  {
  }

  lemma OpenCompatible(os: Kernel, fd: Fd, lock: OsLock)
    requires Compatible(os) && fd !in os && Available(os, lock.file, lock.exclusive)
    ensures Compatible(os[fd := lock])
  {
  }

  lemma WaitInv(inode: string -> nat, s: State, t: Thread, h: HandleId, s': State)
    requires Inv(inode, s) && h in s.handles && s.handles[h].key.None? && s.handles[h].pid == t.pid
    requires !Awaited(s, h) && t !in s.parked
    requires var k := KeyOf(s.handles[h]);
             && k in s.table && s.table[k].exclusive && s.handles[h].exclusive && s.table[k].owner != Some(t)
             && s' == s.(parked := s.parked[t := Parked(h, false)])
    ensures Inv(inode, s')
  {
    SameEntries(inode, s, s');
    forall u | u in s'.parked
      ensures ParkedOk(s', u)
    {
      assert u != t ==> ParkedOk(s, u);
    }
  }

  lemma SameEntries(inode: string -> nat, s: State, s': State)
    requires EntriesOk(s) && HandlesOk(s) && KernelOk(inode, s)
    requires s'.table == s.table && s'.handles == s.handles && s'.os == s.os
    ensures EntriesOk(s') && HandlesOk(s') && KernelOk(inode, s')
  {
    forall k | k in s'.table
      ensures EntryOk(s', k)
    {
      assert EntryOk(s, k);
    }
    forall x | x in s'.handles
      ensures HandleOk(s', s'.handles[x])
    {
      assert HandleOk(s, s.handles[x]);
    }
  }

  lemma AttemptInv(inode: string -> nat, s: State, t: Thread, h: HandleId, fd: Fd, valid: bool)
    requires Inv(inode, s) && h in s.handles && s.handles[h].key.None? && s.handles[h].pid == t.pid
    requires !Awaited(s, h) && t !in s.parked && fd !in s.os
    ensures Inv(inode, Attempt(inode, s, t, h, fd, valid).state)
  {
    hide Inv, Awaited;
    var e := Enter(inode, s.table, s.os, s.handles[h], t, fd, valid);
    var s' := Attempt(inode, s, t, h, fd, valid).state;
    if e.result == Waits {
      assert s'.handles == s.handles;
      WaitInv(inode, s, t, h, s');
    } else if e.result == Granted {
      if KeyOf(s.handles[h]) in s.table {
        JoinInv(inode, s, t, h, s');
      } else {
        OpenInv(inode, s, t, h, fd, s');
      }
    } else {
      assert s'.handles == s.handles;
      assert s' == s;
    }
  }

  // ---- closing --------------------------------------------------------------

  lemma CloseSharedInv(inode: string -> nat, s: State, h: HandleId, k: Key, s': State)
    requires Inv(inode, s) && h in s.handles && s.handles[h].key == Some(k) && k in s.table && s.table[k].references > 1
    requires !Awaited(s, h)
    requires s' == s.(table := s.table[k := s.table[k].(references := s.table[k].references - 1)],
                      handles := s.handles[h := s.handles[h].(key := None)])
    ensures Inv(inode, s')
  {
    assert EntryOk(s, k);
    Recount(s, s', k, h);
    hide EntriesOk, HandlesOk, AllParkedOk, KernelOk, EntryOk, Awaited, Holders;
    EntriesAfter(s, s', k, h);
    HandlesAfter(s, s', k, h);
    ParkedAfter(s, s', k, h);
    KernelKept(inode, s, s', k, s.table[k].references - 1);
  }

  lemma CloseLastInv(inode: string -> nat, s: State, h: HandleId, k: Key, s': State)
    requires Inv(inode, s) && h in s.handles && s.handles[h].key == Some(k) && k in s.table && s.table[k].references == 1
    requires !Awaited(s, h)
    requires s' == State(s.table - {k}, s.os - {s.table[k].descriptor}, s.handles[h := s.handles[h].(key := None)],
                         Notify(s.parked, s.handles[h].pid))
    ensures Inv(inode, s')
  {
    hide EntriesOk, HandlesOk, AllParkedOk, KernelOk, EntryOk, HandleOk, Awaited, Holders;
    OnlyHolder(s, h, k);
    EntriesAfter(s, s', k, h);
    HandlesAfter(s, s', k, h);
    ParkedAfter(s, s', k, h);
    DropKernel(inode, s, s', k);
  }

  /** A count of one leaves one holder, whose process is the key's; without a key it is in order. */
  lemma OnlyHolder(s: State, h: HandleId, k: Key)
    requires EntriesOk(s) && HandlesOk(s)
    requires h in s.handles && s.handles[h].key == Some(k) && k in s.table && s.table[k].references == 1
    ensures Holders(s.handles, k) == {h} && s.handles[h].pid == k.pid
    ensures forall s': State :: HandleOk(s', s.handles[h].(key := None))
  {
    assert EntryOk(s, k) && HandleOk(s, s.handles[h]);
    assert h in Holders(s.handles, k);
    Singleton(Holders(s.handles, k), h);
  }

  lemma Singleton<T>(s: set<T>, x: T)
    requires x in s && |s| == 1
    ensures s == {x}
  {
    var rest := s - {x};
    assert |rest| == 0;
  }

  lemma DropKernel(inode: string -> nat, s: State, s': State, k: Key)
    requires KernelOk(inode, s) && k in s.table
    requires s'.table == s.table - {k} && s'.os == s.os - {s.table[k].descriptor}
    ensures KernelOk(inode, s')
  {
    forall d | d in s'.os
      ensures Backs(s'.table, d)
    {
      var j :| j in s.table && s.table[j].descriptor == d;
      assert j in s'.table && s'.table[j].descriptor == d;
    }
  }

  lemma CloseInv(inode: string -> nat, s: State, t: Thread, h: HandleId)
    requires Inv(inode, s)
    ensures Inv(inode, Do(inode, s, Close(t, h)).state)
    ensures MayUse(s, t, h) ==> Do(inode, s, Close(t, h)).result == Granted
  {
    if MayUse(s, t, h) && s.handles[h].key.Some? {
      var k, s' := s.handles[h].key.value, Do(inode, s, Close(t, h)).state;
      assert HandleOk(s, s.handles[h]) && EntryOk(s, k);
      assert h in Holders(s.handles, k);
      hide Inv;
      if s.table[k].references > 1 {
        assert s'.table.Keys == s.table.Keys;
        CloseSharedInv(inode, s, h, k, s');
      } else {
        assert k in s.table.Keys && k !in s'.table.Keys;
        CloseLastInv(inode, s, h, k, s');
      }
    } else if MayUse(s, t, h) {
      assert s.handles[h := s.handles[h]] == s.handles;
    }
  }

  // ---- every step, every run ------------------------------------------------

  lemma CreateInv(inode: string -> nat, s: State, h: HandleId, v: Handle)
    requires Inv(inode, s) && h !in s.handles && v.key.None?
    ensures Inv(inode, s.(handles := s.handles[h := v]))
  {
    var s' := s.(handles := s.handles[h := v]);
    forall k | k in s'.table
      ensures EntryOk(s', k)
    {
      assert EntryOk(s, k);
      assert Holders(s'.handles, k) == Holders(s.handles, k);
    }
    forall x | x in s'.handles
      ensures HandleOk(s', s'.handles[x])
    {
      assert x != h ==> HandleOk(s, s.handles[x]);
    }
    forall u | u in s'.parked
      ensures ParkedOk(s', u)
    {
      assert ParkedOk(s, u);
    }
  }

  lemma UnparkInv(inode: string -> nat, s: State, t: Thread)
    requires Inv(inode, s) && t in s.parked
    ensures var s' := s.(parked := s.parked - {t});
            Inv(inode, s') && !Awaited(s', s.parked[t].handle)
  {
    var s' := s.(parked := s.parked - {t});
    forall k | k in s'.table
      ensures EntryOk(s', k)
    {
      assert EntryOk(s, k);
    }
    forall x | x in s'.handles
      ensures HandleOk(s', s'.handles[x])
    {
      assert HandleOk(s, s.handles[x]);
    }
    forall u | u in s'.parked
      ensures ParkedOk(s', u)
    {
      assert ParkedOk(s, u);
    }
  }

  lemma StepInv(inode: string -> nat, s: State, step: Step)
    requires Inv(inode, s)
    ensures Inv(inode, Do(inode, s, step).state)
  {
    match step
    case Create(h, pid, path, exclusive, blocking) =>
      if h !in s.handles {
        CreateInv(inode, s, h, Handle(pid, path, exclusive, blocking, None, None));
      }
    case Acquire(t, h, fd, valid) =>
      if MayUse(s, t, h) && fd !in s.os && s.handles[h].key.None? {
        AttemptInv(inode, s, t, h, fd, valid);
      }
    case Resume(t, fd, valid) =>
      if t in s.parked && s.parked[t].notified && s.parked[t].handle in s.handles && fd !in s.os {
        assert ParkedOk(s, t);
        UnparkInv(inode, s, t);
        AttemptInv(inode, s.(parked := s.parked - {t}), t, s.parked[t].handle, fd, valid);
      }
    case Close(t, h) =>
      CloseInv(inode, s, t, h);
  }

  lemma {:induction false} RunInv(inode: string -> nat, steps: seq<Step>)
    ensures Inv(inode, Run(inode, steps))
  {
    if steps != [] {
      RunInv(inode, steps[..|steps| - 1]);
      StepInv(inode, Run(inode, steps[..|steps| - 1]), steps[|steps| - 1]);
    }
  }

  // ---- safety ---------------------------------------------------------------

  predicate Holding(s: State, h: HandleId) {
    h in s.handles && s.handles[h].key.Some?
  }

  /** Whoever holds a file exclusively shares it only with handles acquired by the same thread of the same
      process; only shared holders coexist across threads or processes. */
  lemma MutualExclusion(inode: string -> nat, steps: seq<Step>, a: HandleId, b: HandleId)
    requires var s := Run(inode, steps);
             && Holding(s, a) && Holding(s, b) && s.handles[a].exclusive
             && inode(s.handles[a].path) == inode(s.handles[b].path)
    ensures var s := Run(inode, steps);
            s.handles[a].pid == s.handles[b].pid && s.handles[a].acquirer == s.handles[b].acquirer
            && s.handles[b].exclusive
  {
    RunInv(inode, steps);
    var s := Run(inode, steps);
    var j, k := s.handles[a].key.value, s.handles[b].key.value;
    assert HandleOk(s, s.handles[a]) && HandleOk(s, s.handles[b]);
    OneExclusiveEntry(inode, s, j, k);
  }

  /** An exclusive entry is the only entry for its file, in any process. */
  lemma OneExclusiveEntry(inode: string -> nat, s: State, j: Key, k: Key)
    requires KernelOk(inode, s) && j in s.table && k in s.table
    requires s.table[j].exclusive && inode(j.path) == inode(k.path)
    ensures j == k
  {
    var d, e := s.table[j].descriptor, s.table[k].descriptor;
    assert s.os[d].file == s.os[e].file && s.os[d].exclusive;
  }

  /** References count handles, and the kernel holds each lock in the recorded mode exactly while its entry exists. */
  lemma TableMatchesHandlesAndKernel(inode: string -> nat, steps: seq<Step>)
    ensures var s := Run(inode, steps);
            && (forall k :: k in s.table ==> s.table[k].references == |Holders(s.handles, k)| && s.table[k].references > 0)
            && (forall h :: Holding(s, h) ==> s.handles[h].key == Some(KeyOf(s.handles[h])) && KeyOf(s.handles[h]) in s.table)
            && (forall k :: k in s.table ==>
                              s.table[k].descriptor in s.os
                              && s.os[s.table[k].descriptor] == OsLock(inode(k.path), s.table[k].exclusive))
            && (forall fd :: fd in s.os ==> exists k :: k in s.table && s.table[k].descriptor == fd)
  {
    RunInv(inode, steps);
    var s := Run(inode, steps);
    forall k | k in s.table
      ensures s.table[k].references == |Holders(s.handles, k)| && s.table[k].references > 0
    {
      assert EntryOk(s, k);
    }
    forall h | Holding(s, h)
      ensures s.handles[h].key == Some(KeyOf(s.handles[h])) && KeyOf(s.handles[h]) in s.table
    {
      assert HandleOk(s, s.handles[h]);
    }
  }

  /** No lost wake-up: until it is notified, a parked thread faces an exclusive entry of another thread of
      its process, and some handle still carries that entry's key. */
  lemma NoLostWakeup(inode: string -> nat, steps: seq<Step>, t: Thread)
    requires t in Run(inode, steps).parked && !Run(inode, steps).parked[t].notified
    ensures var s := Run(inode, steps);
            var h := s.parked[t].handle;
            && h in s.handles
            && (var k := KeyOf(s.handles[h]);
                && k in s.table && s.table[k].exclusive
                && s.table[k].owner.Some? && s.table[k].owner.value != t && s.table[k].owner.value.pid == t.pid
                && exists x :: x in Holders(s.handles, k) && s.handles[x].acquirer == s.table[k].owner)
  {
    RunInv(inode, steps);
    var s := Run(inode, steps);
    assert ParkedOk(s, t);
    var k := KeyOf(s.handles[s.parked[t].handle]);
    assert EntryOk(s, k);
    var x :| x in Holders(s.handles, k);
    assert HandleOk(s, s.handles[x]);
  }

  /** When the last holder of a parked thread's lock closes, that thread is notified. */
  lemma LastCloseWakes(inode: string -> nat, steps: seq<Step>, t: Thread, u: Thread, h: HandleId)
    requires var s := Run(inode, steps);
             && t in s.parked && s.parked[t].handle in s.handles && MayUse(s, u, h)
             && Holders(s.handles, KeyOf(s.handles[s.parked[t].handle])) == {h}
    ensures var s' := Do(inode, Run(inode, steps), Close(u, h)).state;
            && t in s'.parked && s'.parked[t].notified
            && KeyOf(s'.handles[s'.parked[t].handle]) !in s'.table
  {
    RunInv(inode, steps);
    var s := Run(inode, steps);
    var k := KeyOf(s.handles[s.parked[t].handle]);
    assert h in Holders(s.handles, k);
    assert ParkedOk(s, t) && HandleOk(s, s.handles[h]) && EntryOk(s, k);
    var s' := Do(inode, s, Close(u, h)).state;
    assert k in s.table.Keys && k !in s'.table.Keys;
  }

  /** A refused acquisition changes neither the table, nor the kernel, nor any handle; a resumed thread
      merely stops being parked. */
  lemma RefusalChangesNothing(inode: string -> nat, s: State, step: Step)
    requires step.Acquire? || step.Resume?
    requires Do(inode, s, step).result.Refused?
    ensures var s' := Do(inode, s, step).state;
            s'.table == s.table && s'.os == s.os && s'.handles == s.handles && s'.parked == s.parked - {step.t}
  {
    hide Available, Awaited;
    if step.Acquire? {
      AttemptRefused(inode, s, step.t, step.h, step.fd, step.valid);
      assert s.parked - {step.t} == s.parked;
    } else {
      AttemptRefused(inode, s.(parked := s.parked - {step.t}), step.t, s.parked[step.t].handle, step.fd, step.valid);
    }
  }

  /** Refused acquisitions leave no trace: dropping one from a run changes nothing that follows. */
  lemma {:induction false} RefusedLeavesNoTrace(inode: string -> nat, before: seq<Step>, step: Step, after: seq<Step>)
    requires step.Acquire? && Do(inode, Run(inode, before), step).result.Refused?
    ensures Run(inode, before + [step] + after) == Run(inode, before + after)
    decreases |after|
  {
    hide Do;
    if after == [] {
      assert before + [step] + after == before + [step] && before + after == before;
      assert (before + [step])[..|before|] == before;
      RefusalChangesNothing(inode, Run(inode, before), step);
      NotParked(inode, Run(inode, before), step);
    } else {
      var n := |after| - 1;
      var full, short := before + [step] + after, before + after;
      assert full[..|full| - 1] == before + [step] + after[..n] && full[|full| - 1] == after[n];
      assert short[..|short| - 1] == before + after[..n] && short[|short| - 1] == after[n];
      RefusedLeavesNoTrace(inode, before, step, after[..n]);
    }
  }

  lemma NotParked(inode: string -> nat, s: State, step: Step)
    requires step.Acquire? && Do(inode, s, step).result.Refused?
    ensures s.parked - {step.t} == s.parked
  {
  }

  lemma AttemptRefused(inode: string -> nat, s: State, t: Thread, h: HandleId, fd: Fd, valid: bool)
    requires h in s.handles && Attempt(inode, s, t, h, fd, valid).result.Refused?
    ensures Attempt(inode, s, t, h, fd, valid).state == s
  {
    hide Available;
    assert s.handles[h := s.handles[h]] == s.handles;
  }

  /** Closing right after a successful acquisition restores the table and the kernel. */
  lemma AcquireThenClose(inode: string -> nat, s: State, t: Thread, h: HandleId, fd: Fd, valid: bool)
    requires Inv(inode, s) && MayUse(s, t, h) && s.handles[h].key.None? && fd !in s.os
    requires Do(inode, s, Acquire(t, h, fd, valid)).result == Granted
    ensures var s1 := Do(inode, s, Acquire(t, h, fd, valid)).state;
            var s' := Do(inode, s1, Close(t, h)).state;
            s'.table == s.table && s'.os == s.os && h in s'.handles && s'.handles[h].key.None?
            && forall x :: x in s.handles && x != h ==> x in s'.handles && s'.handles[x] == s.handles[x]
  {
    var k := KeyOf(s.handles[h]);
    assert k in s.table ==> EntryOk(s, k);
    hide Inv, EntryOk, Enter, Leave, Do;
    var e := Enter(inode, s.table, s.os, s.handles[h], t, fd, valid);
    var s1 := State(e.table, e.os, s.handles[h := e.handle], s.parked);
    AcquireIs(inode, s, t, h, fd, valid);
    EnterThenLeave(inode, s.table, s.os, s.handles[h], t, fd, valid);
    assert MayUse(s1, t, h);
    CloseIs(inode, s1, t, h);
  }

  lemma AcquireIs(inode: string -> nat, s: State, t: Thread, h: HandleId, fd: Fd, valid: bool)
    requires MayUse(s, t, h) && s.handles[h].key.None? && fd !in s.os
    requires Do(inode, s, Acquire(t, h, fd, valid)).result == Granted
    ensures var e := Enter(inode, s.table, s.os, s.handles[h], t, fd, valid);
            && e.result == Granted && e.handle.pid == t.pid
            && Do(inode, s, Acquire(t, h, fd, valid)).state == State(e.table, e.os, s.handles[h := e.handle], s.parked)
  {
    hide Available, Awaited;
  }

  lemma CloseIs(inode: string -> nat, s: State, t: Thread, h: HandleId)
    requires MayUse(s, t, h)
    ensures var e, s' := Leave(s.table, s.os, s.handles[h]), Do(inode, s, Close(t, h)).state;
            s'.table == e.table && s'.os == e.os && s'.handles == s.handles[h := e.handle]
  {
    hide Awaited;
  }

  lemma EnterThenLeave(inode: string -> nat, table: Table, os: Kernel, v: Handle, t: Thread, fd: Fd, valid: bool)
    requires v.key.None? && fd !in os && (KeyOf(v) in table ==> table[KeyOf(v)].references > 0)
    requires Enter(inode, table, os, v, t, fd, valid).result == Granted
    ensures var e := Enter(inode, table, os, v, t, fd, valid);
            var f := Leave(e.table, e.os, e.handle);
            f.table == table && f.os == os && f.handle == v.(acquirer := Some(t)) && f.result == Granted
  {
  }
}
