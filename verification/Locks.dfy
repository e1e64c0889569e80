/** The process-reentrant file lock: a per-process table of held locks shared by threads, a condition
    variable, and the kernel's lock table. Each guarded section is one step. */
module Locks {
  import opened Wrappers

  type Fd = nat

  type HandleId = nat

  datatype Thread = Thread(pid: nat, tid: nat)

  /** Locks are keyed by process and by the spelling of the absolute path. */
  datatype Key = Key(pid: nat, path: string)

  /** An entry of the process table; `owner` is recorded for exclusive locks only. */
  datatype Held = Held(descriptor: Fd, exclusive: bool, references: nat, owner: Option<Thread>)

  /** A lock the kernel grants to one open file description. */
  datatype OsLock = OsLock(file: nat, exclusive: bool)

  /** One `ProcessFileLock` object; `acquirer` is the thread whose `acquire` last succeeded. */
  datatype Handle = Handle(pid: nat, path: string, exclusive: bool, blocking: bool,
                           key: Option<Key>, acquirer: Option<Thread>)

  /** Why `acquire` raises: a held lock of the other mode, an exclusive lock of another thread, a rejected
      descriptor, or another process; `close` raises when the entry is gone. */
  datatype Refusal = ModeMismatch | HeldByOtherThread | BadDescriptor | Contention | MissingEntry

  /** `Blocked` means that the call has not returned: the kernel lock is not available yet. */
  datatype Reply = Granted | Refused(reason: Refusal) | Waits | Blocked

  /** A thread parked in the condition variable on behalf of a handle. */
  datatype Parked = Parked(handle: HandleId, notified: bool)

  type Table = map<Key, Held>

  type Kernel = map<Fd, OsLock>

  /** `flock`: locks of different descriptions on one file coexist only when all are shared. */
  predicate Available(os: Kernel, file: nat, exclusive: bool) {
    forall fd :: fd in os && os[fd].file == file ==> !exclusive && !os[fd].exclusive
  }

  datatype Section = Section(table: Table, os: Kernel, handle: Handle, result: Reply)

  function KeyOf(h: Handle): Key {
    Key(h.pid, h.path)
  }

  function Taken(h: Handle, t: Thread): Handle {
    h.(key := Some(KeyOf(h)), acquirer := Some(t))
  }

  /** One pass of the guarded loop of `acquire` for a handle that holds nothing. `fd` is the descriptor
      `open` would return and `valid` the verdict of the optional descriptor check. */
  function Enter(inode: string -> nat, table: Table, os: Kernel, h: Handle, t: Thread, fd: Fd, valid: bool): Section {
    var key := KeyOf(h);
    if key in table then
      var held := table[key];
      if held.exclusive != h.exclusive then
        Section(table, os, h, Refused(ModeMismatch))
      else if held.exclusive && held.owner != Some(t) then
        Section(table, os, h, if h.blocking then Waits else Refused(HeldByOtherThread))
      else
        Section(table[key := held.(references := held.references + 1)], os, Taken(h, t), Granted)
    else if !valid then Section(table, os, h, Refused(BadDescriptor))
    else if !Available(os, inode(h.path), h.exclusive) then
      Section(table, os, h, if h.blocking then Blocked else Refused(Contention))
    else
      Section(table[key := Held(fd, h.exclusive, 1, if h.exclusive then Some(t) else None)],
              os[fd := OsLock(inode(h.path), h.exclusive)], Taken(h, t), Granted)
  }

  /** `close`: the last reference unlocks, closes the descriptor and drops the entry. */
  function Leave(table: Table, os: Kernel, h: Handle): Section {
    if h.key.None? then Section(table, os, h, Granted)
    else if h.key.value !in table || table[h.key.value].references == 0 then Section(table, os, h, Refused(MissingEntry))
    else
      var key := h.key.value;
      var held := table[key].(references := table[key].references - 1);
      if held.references > 0 then Section(table[key := held], os, h.(key := None), Granted)
      else Section(table - {key}, os - {held.descriptor}, h.(key := None), Granted)
  }

  // ---- the world of all processes -------------------------------------------

  datatype State = State(table: Table, os: Kernel, handles: map<HandleId, Handle>, parked: map<Thread, Parked>)

  datatype Step =
    | Create(h: HandleId, pid: nat, path: string, exclusive: bool, blocking: bool)
    | Acquire(t: Thread, h: HandleId, fd: Fd, valid: bool)
    | Resume(t: Thread, fd: Fd, valid: bool)
    | Close(t: Thread, h: HandleId)

  datatype Outcome = Outcome(state: State, result: Reply)

  const IDLE := State(map[], map[], map[], map[])

  predicate Awaited(s: State, h: HandleId) {
    exists t :: t in s.parked && s.parked[t].handle == h
  }

  /** A running thread of the handle's process, and nobody is inside `acquire` on that handle. */
  predicate MayUse(s: State, t: Thread, h: HandleId) {
    t !in s.parked && h in s.handles && s.handles[h].pid == t.pid && !Awaited(s, h)
  }

  function Attempt(inode: string -> nat, s: State, t: Thread, h: HandleId, fd: Fd, valid: bool): Outcome
    requires h in s.handles
  {
    var e := Enter(inode, s.table, s.os, s.handles[h], t, fd, valid);
    var parked := if e.result == Waits then s.parked[t := Parked(h, false)] else s.parked;
    Outcome(State(e.table, e.os, s.handles[h := e.handle], parked), e.result)
  }

  /** `notify_all` wakes every parked thread of the process. */
  function Notify(parked: map<Thread, Parked>, pid: nat): (r: map<Thread, Parked>)
    ensures r.Keys == parked.Keys
  {
    map t | t in parked :: if t.pid == pid then parked[t].(notified := true) else parked[t]
  }

  /** One step; a step that is not possible in this state leaves it unchanged and is `Blocked`. */
  function Do(inode: string -> nat, s: State, step: Step): Outcome {
    match step
    case Create(h, pid, path, exclusive, blocking) =>
      if h in s.handles then Outcome(s, Blocked)
      else Outcome(s.(handles := s.handles[h := Handle(pid, path, exclusive, blocking, None, None)]), Granted)
    case Acquire(t, h, fd, valid) =>
      if !MayUse(s, t, h) || fd in s.os then Outcome(s, Blocked)
      else if s.handles[h].key.Some? then Outcome(s, Granted)
      else Attempt(inode, s, t, h, fd, valid)
    case Resume(t, fd, valid) =>
      if t !in s.parked || !s.parked[t].notified || s.parked[t].handle !in s.handles || fd in s.os then Outcome(s, Blocked)
      else
        var woken := s.(parked := s.parked - {t});
        var r := Attempt(inode, woken, t, s.parked[t].handle, fd, valid);
        if r.result == Blocked then Outcome(s, Blocked) else r
    case Close(t, h) =>
      if !MayUse(s, t, h) then Outcome(s, Blocked)
      else
        var e := Leave(s.table, s.os, s.handles[h]);
        var last := e.table.Keys != s.table.Keys;
        Outcome(State(e.table, e.os, s.handles[h := e.handle], if last then Notify(s.parked, t.pid) else s.parked), e.result)
  }

  function Run(inode: string -> nat, steps: seq<Step>): State {
    if steps == [] then IDLE else Do(inode, Run(inode, steps[..|steps| - 1]), steps[|steps| - 1]).state
  }

  // ---- the invariant --------------------------------------------------------

  /** The handles that carry a key. */
  function Holders(handles: map<HandleId, Handle>, key: Key): set<HandleId> {
    set h | h in handles && handles[h].key == Some(key)
  }

  /** References count the handles that carry the key; the owner is a thread of the process. */
  ghost predicate EntryOk(s: State, k: Key)
    requires k in s.table
  {
    && s.table[k].references == |Holders(s.handles, k)| && Holders(s.handles, k) != {}
    && (s.table[k].exclusive <==> s.table[k].owner.Some?)
    && (s.table[k].owner.Some? ==> s.table[k].owner.value.pid == k.pid)
  }

  /** A handle's key is its own, has an entry of the handle's mode, and names the owner if exclusive. */
  ghost predicate HandleOk(s: State, h: Handle) {
    h.key.Some? ==>
      && h.key.value == KeyOf(h) && h.key.value in s.table
      && s.table[h.key.value].exclusive == h.exclusive
      && h.acquirer.Some? && h.acquirer.value.pid == h.pid
      && (h.exclusive ==> h.acquirer == s.table[h.key.value].owner)
  }

  /** Each entry is backed by a kernel lock on its own descriptor, in the recorded mode. */
  ghost predicate Backed(inode: string -> nat, table: Table, os: Kernel) {
    forall k :: k in table ==>
                  table[k].descriptor in os && os[table[k].descriptor] == OsLock(inode(k.path), table[k].exclusive)
  }

  predicate Backs(table: Table, fd: Fd) {
    exists k :: k in table && table[k].descriptor == fd
  }

  /** The kernel holds no other lock. */
  ghost predicate Needed(table: Table, os: Kernel) {
    forall fd :: fd in os ==> Backs(table, fd)
  }

  ghost predicate OwnDescriptors(table: Table) {
    forall j, k :: j in table && k in table && j != k ==> table[j].descriptor != table[k].descriptor
  }

  ghost predicate Compatible(os: Kernel) {
    forall d, e :: d in os && e in os && d != e && os[d].file == os[e].file ==> !os[d].exclusive
  }

  ghost predicate KernelOk(inode: string -> nat, s: State) {
    Backed(inode, s.table, s.os) && Needed(s.table, s.os) && OwnDescriptors(s.table) && Compatible(s.os)
  }

  /** A parked thread waits for an idle exclusive handle of its own; until it is notified, the entry it
      waits for exists, is exclusive and belongs to another thread. */
  ghost predicate ParkedOk(s: State, t: Thread)
    requires t in s.parked
  {
    var h := s.parked[t].handle;
    && h in s.handles && s.handles[h].pid == t.pid && s.handles[h].key.None? && s.handles[h].exclusive
    && (!s.parked[t].notified ==>
          var k := KeyOf(s.handles[h]);
          k in s.table && s.table[k].exclusive && s.table[k].owner != Some(t))
  }

  ghost predicate EntriesOk(s: State) {
    forall k :: k in s.table ==> EntryOk(s, k)
  }

  ghost predicate HandlesOk(s: State) {
    forall h :: h in s.handles ==> HandleOk(s, s.handles[h])
  }

  ghost predicate AllParkedOk(s: State) {
    && (forall t :: t in s.parked ==> ParkedOk(s, t))
    && (forall t, u :: t in s.parked && u in s.parked && t != u ==> s.parked[t].handle != s.parked[u].handle)
  }

  ghost predicate Inv(inode: string -> nat, s: State) {
    EntriesOk(s) && HandlesOk(s) && KernelOk(inode, s) && AllParkedOk(s)
  }
}
