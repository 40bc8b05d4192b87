/**
 The daemon's methods on one session key, updating the session's fields in the order the
 program does.  Each is proved to do exactly what `SessionSpec` says, instant by instant.
 */
module Daemon {
  import opened Common
  import opened SessionModel
  import SessionSpec
  import SessionInvariant
  import SessionOps

  class DaemonSession {
    const k: Setup
    const oracle: Oracle

    // The registry entry and the fields of the session object.
    var open: bool
    var root: RootId
    var busy: bool
    var lease: Lease
    var owner: Proc
    var exec: Proc
    var dirty: bool
    var generation: nat
    var lastDurable: nat
    var viewGen: nat
    var checksum: int
    var masks: set<string>
    var closed: bool

    // Everything outside the daemon's memory, and the instants passed so far.
    var world: World
    var tick: nat
    var log: seq<Snap>

    function Memory(): Mem
      reads this
    {
      Mem(root, busy, lease, owner, exec, dirty, generation, lastDurable, viewGen, checksum, masks, closed)
    }

    function Registered(): Option<Mem>
      reads this
    {
      if open then Some(Memory()) else None
    }

    function Now(): State
      reads this
    {
      State(world, Registered(), tick, log)
    }

    /** A daemon that has just started over what is on disk. */
    constructor (k: Setup, oracle: Oracle, world: World)
      ensures this.k == k && this.oracle == oracle
      ensures Now() == SessionSpec.Begin(State(world, None, 0, []))
    {
      this.k, this.oracle, this.world := k, oracle, world;
      open, tick, log := false, 0, [Snap(world, None)];
      root, busy, lease, owner, exec, dirty := 0, false, NO_LEASE, NOBODY, NOBODY, false;
      generation, lastDurable, viewGen, checksum, masks, closed := 0, 0, 0, 0, {}, false;
    }

    // -------------------------------------------------------------- effects

    method Sync()
      modifies this`world, this`tick, this`log
      ensures Now() == old(SessionModel.Sync(k, Now(), oracle))
    {
      world := Env(k, world, Loaded(Registered()), At(oracle, tick).env);
      tick := tick + 1;
      log := log + [Snap(world, Registered())];
    }

    method Commit(w: World)
      modifies this`world, this`log
      ensures Now() == old(SessionModel.Commit(Now(), w))
    {
      world := w;
      log := log + [Snap(world, Registered())];
    }

    method Persist() returns (ok: bool)
      requires open
      modifies this`world, this`tick, this`log
      ensures Res(Now(), ok) == old(SessionModel.Persist(k, Now(), oracle))
    {
      var fate := At(oracle, tick).fate;
      Sync();
      var meta := Snapshot(Memory());
      if !ValidMeta(meta) || fate == Failed {
        return false;
      }
      Commit(world.(meta := Some(meta), torn := world.torn && fate != Done));
      return fate == Done;
    }

    method WriteSessionPatch() returns (ok: bool)
      requires open
      modifies this`world, this`tick, this`log, this`checksum
      ensures Res(Now(), ok) == old(SessionModel.WritePatch(k, Now(), oracle))
    {
      var fate := At(oracle, tick).fate;
      Sync();
      if fate == Failed || !Usable(world, root) {
        return false;
      }
      var text := Diff(k, Content(k, world.roots[root]));
      Commit(world.(patch := text));
      if fate != Done {
        return false;
      }
      checksum := Sum(k, text);
      return true;
    }

    method Unmask(r: RootId, targets: set<string>) returns (ok: bool)
      modifies this`world, this`tick, this`log
      ensures Res(Now(), ok) == old(SessionModel.Unmask(k, Now(), r, targets, oracle))
    {
      var errors := At(oracle, tick).unmaskErrors * targets;
      Sync();
      Commit(WithMasks(world, r, MasksOf(world, r) - (targets - errors)));
      return errors == {};
    }

    method MaskIgnored() returns (made: set<string>, ok: bool)
      requires open
      modifies this`world, this`tick, this`log
      ensures Res(Now(), ok) == old(SessionModel.Mask(k, Now(), oracle))
      ensures made == old(At(oracle, tick)).maskMade
    {
      var c := At(oracle, tick);
      Sync();
      made := c.maskMade;
      Commit(WithMasks(world, root, MasksOf(world, root) + made));
      return made, c.ok;
    }

    method RemoveRoot(r: RootId, goesOn: bool) returns (ok: bool)
      modifies this`world, this`tick, this`log
      ensures Res(Now(), ok) == old(SessionModel.RemoveRoot(k, Now(), r, goesOn, oracle))
    {
      var c := At(oracle, tick);
      Sync();
      if c.extent.Untouched? || MasksOf(world, r) != {} || (WorktreeStays(k, c) && !goesOn) {
        return false;
      }
      Commit(if c.keepsBase then world else WithoutBase(world, r));
      if c.extent.BaseOnly? {
        return false;
      }
      Commit(Gutted(k, world, r, c.remains));
      if c.extent.Partly? {
        return false;
      }
      Commit(world.(roots := world.roots - {r}));
      return c.fate == Done && !WorktreeStays(k, c);
    }

    method RemoveMeta() returns (ok: bool)
      modifies this`world, this`tick, this`log
      ensures Res(Now(), ok) == old(SessionModel.RemoveMeta(k, Now(), oracle))
    {
      var fate := At(oracle, tick).fate;
      Sync();
      if fate == Failed {
        return false;
      }
      Commit(Forgotten(world));
      return fate == Done;
    }

    // -------------------------------------------------------------- finishing and flushing

    method FinishBusy() returns (ok: bool)
      requires open
      modifies this
      ensures Res(Now(), ok) == old(SessionSpec.FinishBusy(k, Now(), oracle)) && open
    {
      var exported := WriteSessionPatch();
      var unmasked := Unmask(root, masks);
      if unmasked {
        ok := EndLease(exported);
      } else {
        dirty := true;
        var _ := Persist();
        ok := false;
      }
    }

    /** Give the session back: idle, and clean exactly when its patch was written and recorded. */
    method EndLease(exported: bool) returns (ok: bool)
      requires open
      modifies this
      ensures Res(Now(), ok) == old(SessionSpec.EndLease(k, Now(), exported, oracle)) && open
    {
      GoIdle(exported);
      var saved := Persist();
      if !saved {
        dirty := true;
      }
      return saved && exported;
    }

    method GoIdle(exported: bool)
      modifies this`masks, this`busy, this`owner, this`exec, this`lease, this`dirty, this`lastDurable
      ensures Memory() == old(SessionSpec.Idle(Memory(), exported))
    {
      masks, busy, owner, exec, lease := {}, false, NOBODY, NOBODY, NO_LEASE;
      if exported {
        dirty := false;
        lastDurable := generation;
      } else {
        dirty := true;
      }
    }

    method RecoverBusy() returns (ok: bool)
      requires open
      modifies this
      ensures Res(Now(), ok) == old(SessionSpec.RecoverBusy(k, Now(), oracle)) && open
    {
      if !busy {
        return true;
      }
      var c := At(oracle, tick);
      Sync();
      if Alive(world, c, owner, exec) {
        return true;
      }
      ok := FinishBusy();
    }

    method FlushLocked(recent: bool) returns (ok: bool)
      requires open
      modifies this
      ensures Res(Now(), ok) == old(SessionSpec.FlushLocked(k, Now(), recent, oracle)) && open
    {
      if closed {
        return false;
      }
      var recovered := RecoverBusy();
      if !recovered || busy {
        return false;
      }
      if recent {
        ok := Persist();
      } else {
        ok := FlushNow();
      }
    }

    method FlushNow() returns (ok: bool)
      requires open
      modifies this
      ensures Res(Now(), ok) == old(SessionSpec.FlushNow(k, Now(), oracle)) && open
    {
      // A crash after the patch is replaced must find the session marked dirty.
      dirty := true;
      var marked := Persist();
      if !marked {
        return false;
      }
      var written := WriteSessionPatch();
      if written {
        ok := PublishClean();
      } else {
        dirty := true;
        var _ := Persist();
        ok := false;
      }
    }

    method PublishClean() returns (ok: bool)
      requires open
      modifies this
      ensures Res(Now(), ok) == old(SessionSpec.PublishClean(k, Now(), oracle)) && open
    {
      dirty := false;
      lastDurable := generation;
      ok := Persist();
      if !ok {
        dirty := true;
      }
    }

    // -------------------------------------------------------------- opening

    method OpenFresh() returns (r: RootId, ok: bool)
      requires !open
      modifies this`world, this`tick, this`log
      ensures SessionSpec.Opened(Now(), r, ok) == old(SessionSpec.OpenFresh(k, Now(), oracle))
    {
      var fate := At(oracle, tick).fate;
      Sync();
      r := world.nextRoot;
      Commit(SessionSpec.AddRoot(k, world));
      if fate == Failed {
        Commit(Discarded(k, world, r));
      }
      return r, fate == Done;
    }

    /** Fill in the session object and put it into the registry. */
    method Open(r: RootId, d: bool, g: nat, durable: nat, v: nat, sum: int)
      requires !open
      modifies this
      ensures Now() == old(SessionSpec.Opening(Now(), r, d, g, durable, v, sum)) && open
    {
      Fill(Mem(r, false, NO_LEASE, NOBODY, NOBODY, d, g, durable, v, sum, {}, false));
      open := true;
      world := world.(incarnation := world.incarnation + 1);
    }

    method Fill(m: Mem)
      modifies this`root, this`busy, this`lease, this`owner, this`exec, this`dirty, this`generation
      modifies this`lastDurable, this`viewGen, this`checksum, this`masks, this`closed
      ensures Memory() == m
    {
      root, busy, lease, owner, exec, dirty := m.root, m.busy, m.lease, m.owner, m.exec, m.dirty;
      generation, lastDurable, viewGen := m.generation, m.lastDurable, m.viewGen;
      checksum, masks, closed := m.checksum, m.masks, m.closed;
    }

    method Register(meta: Meta, r: RootId) returns (ok: bool)
      requires !open
      modifies this
      ensures Res(Now(), ok) == old(SessionSpec.Register(k, Now(), meta, r, oracle))
    {
      Open(r, meta.dirty, meta.generation, meta.lastDurable, meta.viewGen + 1, Sum(k, world.patch));
      ok := Persist();
    }

    method Restore() returns (ok: bool)
      requires !open && world.meta.Some?
      modifies this
      ensures Res(Now(), ok) == old(SessionSpec.Restore(k, Now(), oracle))
    {
      var meta := world.meta.value;
      var c := At(oracle, tick);
      Sync();
      if !c.ok || (meta.dirty && Alive(world, c, meta.owner, meta.exec)) {
        return false;
      }
      if !meta.dirty {
        if meta.root in world.roots || meta.checksum != Sum(k, world.patch) {
          return false;
        }
        var r, made := OpenFresh();
        if !made {
          return false;
        }
        ok := Register(meta, r);
      } else {
        if || meta.root !in world.roots || MasksOf(world, meta.root) != {} || k.repoMode
           || world.roots[meta.root].base != Some(k.base) {
          return false;
        }
        world := SessionSpec.Reused(k, world, meta.root);
        ok := Register(meta, meta.root);
      }
    }

    method Create() returns (ok: bool)
      requires !open
      modifies this
      ensures Res(Now(), ok) == old(SessionSpec.Create(k, Now(), oracle))
    {
      var r, made := OpenFresh();
      if !made {
        return false;
      }
      Open(r, false, 0, 0, 1, Sum(k, world.patch));
      ok := PublishNew();
    }

    method PublishNew() returns (ok: bool)
      requires open
      modifies this
      ensures Res(Now(), ok) == old(SessionSpec.PublishNew(k, Now(), oracle))
    {
      ok := Persist();
      if !ok {
        open := false;
        var _ := RemoveRoot(root, true);
      }
    }

    /** Find the session in the registry or reopen it from its metadata. */
    method Lookup() returns (ok: bool)
      modifies this
      ensures Res(Now(), ok) == old(SessionSpec.Lookup(k, Now(), oracle))
    {
      if open {
        return true;
      }
      var c := At(oracle, tick);
      Sync();
      if world.meta.None? {
        return true;
      }
      if !c.ok {
        return false;
      }
      ok := Restore();
    }

    method Ensure(sameConfig: bool) returns (ok: bool)
      modifies this
      ensures Res(Now(), ok) == old(SessionSpec.EnsureLocked(k, Now(), sameConfig, oracle))
      ensures ok ==> open
    {
      if open {
        if closed || !sameConfig {
          return false;
        }
        ok := Persist();
        return;
      }
      var c := At(oracle, tick);
      Sync();
      if world.meta.None? {
        ok := Create();
      } else if !c.ok || !sameConfig {
        ok := false;
      } else {
        ok := Restore();
      }
    }

    // -------------------------------------------------------------- leases

    method Grant()
      requires open
      modifies this`world, this`log
      ensures Now() == old(SessionSpec.Granted(Now()))
    {
      var g := SessionSpec.CurrentGrant(world, Memory());
      Commit(world.(leases := if g.owner in world.dead then world.leases else world.leases + {g},
                    issued := if g in world.issued then world.issued else world.issued + [g]));
    }

    method AbortAcquire(made: set<string>)
      requires open
      modifies this
      ensures Now() == old(SessionSpec.AbortAcquire(k, Now(), made, oracle))
    {
      var unmasked := Unmask(root, made);
      if !unmasked {
        StayBusy(made);
      }
    }

    method StayBusy(made: set<string>)
      requires open
      modifies this
      ensures Now() == old(SessionSpec.StayBusy(k, Now(), made, oracle))
    {
      Orphan(made);
      var saved := Persist();
      if !saved {
        world := SessionSpec.NoteTorn(world);
      }
    }

    /** Busy with nobody as owner, so that the masks are taken off later. */
    method Orphan(made: set<string>)
      modifies this`masks, this`busy, this`owner, this`dirty
      ensures Memory() == old(Memory().(masks := made, busy := true, owner := NOBODY, dirty := true))
    {
      masks, busy, owner, dirty := made, true, NOBODY, true;
    }

    method Acquire(sameConfig: bool, requested: Lease, pid: Proc) returns (ok: bool)
      modifies this
      ensures Res(Now(), ok) == old(SessionSpec.Acquire(k, Now(), sameConfig, requested, pid, oracle))
    {
      var ensured := Ensure(sameConfig);
      if !ensured {
        return false;
      }
      var recovered := RecoverBusy();
      if !recovered {
        return false;
      }
      if busy {
        if requested != NO_LEASE && lease == requested && owner == pid {
          Grant();
          return true;
        }
        return false;
      }
      ok := AcquireIdle(requested, pid);
    }

    method AcquireIdle(requested: Lease, pid: Proc) returns (ok: bool)
      requires open
      modifies this
      ensures Res(Now(), ok) == old(SessionSpec.AcquireIdle(k, Now(), requested, pid, oracle))
    {
      var nonce := At(oracle, tick).nonce;
      var made, masked := MaskIgnored();
      if !masked {
        AbortAcquire(made);
        return false;
      }
      ok := TakeLease(made, SessionSpec.LeaseId(requested, nonce), pid);
    }

    method TakeLease(made: set<string>, id: Lease, pid: Proc) returns (ok: bool)
      requires open
      modifies this
      ensures Res(Now(), ok) == old(SessionSpec.TakeLease(k, Now(), made, id, pid, oracle))
    {
      var wasDirty, wasGeneration := dirty, generation;
      Take(made, id, pid);
      var saved := Persist();
      if saved {
        Grant();
      } else {
        RefuseLease(wasDirty, wasGeneration);
      }
      return saved;
    }

    method Take(made: set<string>, id: Lease, pid: Proc)
      requires open
      modifies this`masks, this`busy, this`owner, this`lease, this`generation, this`dirty
      ensures Now() == old(SessionSpec.Taken(Now(), made, id, pid))
    {
      masks, busy, owner, lease, generation, dirty := made, true, pid, id, generation + 1, true;
    }

    /** Put back what the fields said before the lease. */
    method Rollback(wasDirty: bool, wasGeneration: nat)
      modifies this`masks, this`busy, this`owner, this`lease, this`dirty, this`generation
      ensures Memory() == old(Memory().(masks := {}, busy := false, owner := NOBODY, lease := NO_LEASE,
                                        dirty := wasDirty, generation := wasGeneration))
    {
      masks, busy, owner, lease := {}, false, NOBODY, NO_LEASE;
      dirty, generation := wasDirty, wasGeneration;
    }

    method RefuseLease(wasDirty: bool, wasGeneration: nat)
      requires open
      modifies this
      ensures Now() == old(SessionSpec.RefuseLease(k, Now(), wasDirty, wasGeneration, oracle))
    {
      var unmasked := Unmask(root, masks);
      if unmasked {
        Rollback(wasDirty, wasGeneration);
      } else {
        world := SessionSpec.NoteTorn(world);
      }
    }

    method Attach(id: Lease, view: nat, proc: Proc) returns (ok: bool)
      modifies this
      ensures Res(Now(), ok) == old(SessionSpec.Attach(k, Now(), id, view, proc, oracle))
    {
      if !open {
        return false;
      }
      var c := At(oracle, tick);
      Sync();
      if closed || !busy || lease != id || id == NO_LEASE {
        return false;
      }
      if view == 0 || view != viewGen {
        return false;
      }
      if proc == NOBODY || !c.ok || owner == NOBODY || owner in world.dead {
        return false;
      }
      if exec != NOBODY && exec != proc {
        return false;
      }
      exec := proc;
      ok := Persist();
      if ok && proc !in world.dead {
        Commit(world.(groups := world.groups + {Group(proc, root)}));
      }
    }

    method Release(id: Lease, view: nat) returns (ok: bool)
      modifies this
      ensures Res(Now(), ok) == old(SessionSpec.Release(k, Now(), id, view, oracle))
    {
      if !open {
        return false;
      }
      var c := At(oracle, tick);
      Sync();
      if closed || (view != 0 && view != viewGen) || !busy || lease != id {
        return false;
      }
      if Alive(world, c, NOBODY, exec) {
        return false;
      }
      Commit(SessionSpec.Relinquish(world, id));
      ok := FinishBusy();
    }

    // -------------------------------------------------------------- the other requests

    method MarkDirty() returns (ok: bool)
      modifies this
      ensures Res(Now(), ok) == old(SessionSpec.MarkDirty(k, Now(), oracle))
    {
      var found := Lookup();
      if !found || !open || closed || busy {
        return false;
      }
      dirty := true;
      generation := generation + 1;
      ok := Persist();
    }

    method Flush(recent: bool) returns (ok: bool)
      modifies this
      ensures Res(Now(), ok) == old(SessionSpec.Flush(k, Now(), recent, oracle))
    {
      ok := Lookup();
      if ok && open {
        ok := FlushLocked(recent);
      }
    }

    method EndLocked() returns (ok: bool)
      requires open
      modifies this
      ensures Res(Now(), ok) == old(SessionSpec.EndLocked(k, Now(), oracle))
    {
      if !closed {
        var flushed := FlushLocked(false);
        if !flushed {
          return false;
        }
        closed := true;
      }
      ok := EndCleanup();
    }

    method EndCleanup() returns (ok: bool)
      requires open
      modifies this
      ensures Res(Now(), ok) == old(SessionSpec.EndCleanup(k, Now(), oracle))
    {
      var removed := RemoveRoot(root, true);
      if !removed {
        var _ := Persist();
        return false;
      }
      ok := RemoveMeta();
      if ok {
        open := false;
      }
    }

    method End() returns (ok: bool)
      modifies this
      ensures Res(Now(), ok) == old(SessionSpec.End(k, Now(), oracle))
    {
      ok := Lookup();
      if ok && open {
        ok := EndLocked();
      }
    }

    method Prune(idle: bool) returns (ok: bool)
      modifies this
      ensures Res(Now(), ok) == old(SessionSpec.Prune(k, Now(), idle, oracle))
    {
      ok := Lookup();
      if ok && open {
        ok := PruneLocked(idle);
      }
    }

    method PruneLocked(idle: bool) returns (ok: bool)
      requires open
      modifies this
      ensures Res(Now(), ok) == old(SessionSpec.PruneLocked(k, Now(), idle, oracle))
    {
      ok := RecoverBusy();
      if ok && !busy && idle {
        ok := EndLocked();
      }
    }

    method List() returns (ok: bool)
      modifies this
      ensures Res(Now(), ok) == old(SessionSpec.List(k, Now(), oracle))
    {
      ok := Lookup();
      if ok && open {
        ok := RecoverBusy();
      }
    }

    method Recover(dryRun: bool) returns (ok: bool)
      modifies this
      ensures Res(Now(), ok) == old(SessionSpec.Recover(k, Now(), dryRun, oracle))
    {
      if open {
        return true;
      }
      var c := At(oracle, tick);
      Sync();
      if world.meta.None? || !c.ok {
        return false;
      }
      if dryRun {
        return true;
      }
      var meta := world.meta.value;
      if Alive(world, c, meta.owner, meta.exec) {
        return false;
      }
      if !meta.dirty && meta.checksum != Sum(k, world.patch) {
        return false;
      }
      if meta.root in world.roots {
        if !Usable(world, meta.root) {
          return false;
        }
        ok := RecoverRoot(meta);
      } else if meta.dirty {
        ok := false;
      } else {
        ok := Restore();
      }
    }

    method RecoverRoot(meta: Meta) returns (ok: bool)
      requires !open && world.meta == Some(meta)
      modifies this
      ensures Res(Now(), ok) == old(SessionSpec.RecoverRoot(k, Now(), meta, oracle))
    {
      var unmounted := Unmask(meta.root, MasksOf(world, meta.root));
      if !unmounted {
        return false;
      }
      if !meta.dirty {
        var removed := RemoveRoot(meta.root, false);
        if !removed {
          return false;
        }
      }
      ok := Restore();
    }

    method Close() returns (ok: bool)
      modifies this
      ensures Res(Now(), ok) == old(SessionSpec.Close(k, Now(), oracle))
    {
      if !open {
        return true;
      }
      var c := At(oracle, tick);
      Sync();
      var safe := true;
      if closed {
      } else if busy {
        if Alive(world, c, owner, exec) {
          safe := false;
        } else {
          safe := FinishBusy();
        }
      } else if dirty {
        safe := FlushLocked(false);
      }
      if safe {
        ok := CloseCleanup();
      } else {
        Preserve();
        ok := false;
      }
    }

    method CloseCleanup() returns (ok: bool)
      requires open
      modifies this
      ensures Res(Now(), ok) == old(SessionSpec.CloseCleanup(k, Now(), oracle))
    {
      ok := RemoveRoot(root, true);
      if ok {
        open := false;
      } else {
        Preserve();
      }
    }

    method Preserve()
      requires open
      modifies this
      ensures Res(Now(), false) == old(SessionSpec.Preserve(k, Now(), oracle))
    {
      var _ := Persist();
      open := false;
    }

    // -------------------------------------------------------------- one request

    method Handle(op: SessionSpec.Op) returns (ok: bool)
      modifies this
      ensures Res(Now(), ok) == old(SessionSpec.Do(k, Now(), op, oracle))
      ensures Lawful(k) && old(SessionInvariant.Between(k, Now())) ==> SessionInvariant.Between(k, Now())
    {
      ghost var before := Now();
      ok := Dispatch(op);
      if Lawful(k) && SessionInvariant.Between(k, before) {
        SessionOps.DoKeeps(k, before, op, oracle);
      }
    }

    method Dispatch(op: SessionSpec.Op) returns (ok: bool)
      modifies this
      ensures Res(Now(), ok) == old(SessionSpec.Do(k, Now(), op, oracle))
    {
      match op
      case OpEnsure(same) => ok := Ensure(same);
      case OpAcquire(same, id, pid) =>
        if pid == NOBODY { ok := false; } else { ok := Acquire(same, id, pid); }
      case OpAttach(id, view, proc) => ok := Attach(id, view, proc);
      case OpRelease(id, view) => ok := Release(id, view);
      case OpMarkDirty => ok := MarkDirty();
      case OpFlush(recent) => ok := Flush(recent);
      case OpEnd => ok := End();
      case OpPrune(idle) => ok := Prune(idle);
      case OpList => ok := List();
      case OpRecover(dryRun) => ok := Recover(dryRun);
      case OpClose => ok := Close();
    }
  }
}
