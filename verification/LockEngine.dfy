/** The lock as the objects that are updated in place: handles, held entries and the shared table.
    A method is one guarded section; `Waits` stands for parking in the condition variable. */
module LockEngine {
  import opened Wrappers
  import opened Locks

  /** Closing one of several references, and closing the last. */
  lemma LeaveCases(table: Table, os: Kernel, h: Handle)
    requires h.key.Some? && h.key.value in table && table[h.key.value].references > 0
    ensures var k, held := h.key.value, table[h.key.value];
            Leave(table, os, h)
            == if held.references > 1
               then Section(table[k := held.(references := held.references - 1)], os, h.(key := None), Granted)
               else Section(table - {k}, os - {held.descriptor}, h.(key := None), Granted)
  {
  }

  class HeldLock {
    const descriptor: Fd
    const exclusive: bool
    const owner: Option<Thread>
    var references: nat

    constructor (descriptor: Fd, exclusive: bool, owner: Option<Thread>)
      ensures View() == Held(descriptor, exclusive, 1, owner)
    {
      this.descriptor, this.exclusive, this.owner, references := descriptor, exclusive, owner, 1;
    }

    ghost function View(): Held
      reads this
    {
      Held(descriptor, exclusive, references, owner)
    }
  }

  /** The table of held locks, the kernel's locks and the parked threads. */
  class LockTable {
    var entries: map<Key, HeldLock>
    var os: Kernel
    var parked: map<Thread, Parked>

    ghost predicate Valid()
      reads this`entries
    {
      forall j, k :: j in entries && k in entries && j != k ==> entries[j] != entries[k]
    }

    ghost function View(): (r: Table)
      reads this`entries, entries.Values
      ensures r.Keys == entries.Keys
    {
      map k | k in entries :: entries[k].View()
    }

    constructor ()
      ensures Valid() && View() == map[] && os == map[] && parked == map[]
    {
      entries, os, parked := map[], map[], map[];
    }

    /** A new entry with one reference, and the kernel lock behind it. */
    method Enter(k: Key, held: Held, file: nat)
      requires Valid() && k !in entries && held.references == 1
      modifies this`entries, this`os
      ensures Valid() && View() == old(View())[k := held]
      ensures os == old(os)[held.descriptor := OsLock(file, held.exclusive)]
    {
      os := os[held.descriptor := OsLock(file, held.exclusive)];
      var entry := new HeldLock(held.descriptor, held.exclusive, held.owner);
      entries := entries[k := entry];
    }

    /** `references += 1` on an existing entry. */
    method Join(k: Key)
      requires Valid() && k in entries
      modifies entries[k]
      ensures Valid() && View() == old(View())[k := old(View())[k].(references := old(View())[k].references + 1)]
    {
      entries[k].references := entries[k].references + 1;
    }

    /** `references -= 1` on an entry that stays. */
    method Release(k: Key)
      requires Valid() && k in entries && entries[k].references > 1
      modifies entries[k]
      ensures Valid() && View() == old(View())[k := old(View())[k].(references := old(View())[k].references - 1)]
    {
      entries[k].references := entries[k].references - 1;
    }

    /** The last reference is gone: unlock, close and drop the entry. */
    method Remove(k: Key)
      requires Valid() && k in entries
      modifies this`entries, this`os
      ensures Valid() && View() == old(View()) - {k} && os == old(os) - {old(View())[k].descriptor}
    {
      os := os - {entries[k].descriptor};
      entries := entries - {k};
    }

    /** `notify_all`. */
    method NotifyAll(pid: nat)
      modifies this`parked
      ensures parked == Notify(old(parked), pid)
    {
      parked := Notify(parked, pid);
    }
  }

  class ProcessFileLock {
    const pid: nat
    const path: string
    const exclusive: bool
    const blocking: bool
    var key: Option<Key>
    var acquirer: Option<Thread>

    constructor (pid: nat, path: string, exclusive: bool, blocking: bool)
      ensures View() == Handle(pid, path, exclusive, blocking, None, None)
    {
      this.pid, this.path, this.exclusive, this.blocking := pid, path, exclusive, blocking;
      key, acquirer := None, None;
    }

    ghost function View(): Handle
      reads this
    {
      Handle(pid, path, exclusive, blocking, key, acquirer)
    }

    /** One pass of `acquire`; a handle that already holds its key returns at once. */
    method Acquire(g: LockTable, inode: string -> nat, t: Thread, fd: Fd, valid: bool) returns (r: Reply)
      requires g.Valid()
      modifies this, g`entries, g`os, g.entries.Values
      ensures g.Valid()
      ensures old(key.Some?) ==> r == Granted && g.View() == old(g.View()) && g.os == old(g.os) && View() == old(View())
      ensures old(key.None?) ==> Section(g.View(), g.os, View(), r)
                                 == Enter(inode, old(g.View()), old(g.os), old(View()), t, fd, valid)
    {
      if key.Some? {
        return Granted;
      }
      if Key(pid, path) in g.entries {
        r := JoinHeld(g, inode, t, fd, valid);
      } else {
        r := OpenNew(g, inode, t, fd, valid);
      }
    }

    /** The path is held by this process: join it, wait for it, or be refused. */
    method JoinHeld(g: LockTable, ghost inode: string -> nat, t: Thread, ghost fd: Fd, ghost valid: bool) returns (r: Reply)
      requires g.Valid() && key.None? && Key(pid, path) in g.entries
      modifies this, g.entries[Key(pid, path)]
      ensures g.Valid()
      ensures Section(g.View(), g.os, View(), r) == Enter(inode, old(g.View()), old(g.os), old(View()), t, fd, valid)
    {
      hide Available;
      var k := Key(pid, path);
      var held := g.entries[k];
      if held.exclusive != exclusive {
        return Refused(ModeMismatch);
      }
      if held.exclusive && held.owner != Some(t) {
        return if blocking then Waits else Refused(HeldByOtherThread);
      }
      g.Join(k);
      key, acquirer := Some(k), Some(t);
      return Granted;
    }

    /** The path is not held by this process: open, check and lock the file. */
    method OpenNew(g: LockTable, inode: string -> nat, t: Thread, fd: Fd, valid: bool) returns (r: Reply)
      requires g.Valid() && key.None? && Key(pid, path) !in g.entries
      modifies this, g`entries, g`os
      ensures g.Valid()
      ensures Section(g.View(), g.os, View(), r) == Enter(inode, old(g.View()), old(g.os), old(View()), t, fd, valid)
    {
      if !valid {
        return Refused(BadDescriptor);
      }
      if !Available(g.os, inode(path), exclusive) {
        return if blocking then Blocked else Refused(Contention);
      }
      g.Enter(Key(pid, path), Held(fd, exclusive, 1, if exclusive then Some(t) else None), inode(path));
      key, acquirer := Some(Key(pid, path)), Some(t);
      return Granted;
    }

    /** `close`: the last reference releases the kernel lock and wakes the process. */
    method Close(g: LockTable) returns (r: Reply)
      requires g.Valid()
      modifies this, g, g.entries.Values
      ensures g.Valid()
      ensures Section(g.View(), g.os, View(), r) == Leave(old(g.View()), old(g.os), old(View()))
      ensures g.parked == if g.entries.Keys != old(g.entries.Keys) then Notify(old(g.parked), pid) else old(g.parked)
    {
      if key.None? {
        return Granted;
      }
      if key.value !in g.entries || g.entries[key.value].references == 0 {
        return Refused(MissingEntry);
      }
      if g.entries[key.value].references > 1 {
        DropReference(g);
      } else {
        DropLast(g);
      }
      return Granted;
    }

    method DropReference(g: LockTable)
      requires g.Valid() && key.Some? && key.value in g.entries && g.entries[key.value].references > 1
      modifies this`key, g.entries[key.value]
      ensures g.Valid()
      ensures Section(g.View(), g.os, View(), Granted) == Leave(old(g.View()), old(g.os), old(View()))
    {
      LeaveCases(g.View(), g.os, View());
      hide Leave;
      g.Release(key.value);
      key := None;
    }

    method DropLast(g: LockTable)
      requires g.Valid() && key.Some? && key.value in g.entries && g.entries[key.value].references == 1
      modifies this`key, g
      ensures g.Valid() && g.entries.Keys == old(g.entries.Keys) - {old(key.value)}
      ensures Section(g.View(), g.os, View(), Granted) == Leave(old(g.View()), old(g.os), old(View()))
      ensures g.parked == Notify(old(g.parked), pid)
    {
      LeaveCases(g.View(), g.os, View());
      hide Leave;
      g.Remove(key.value);
      key := None;
      g.NotifyAll(pid);
    }
  }
}
