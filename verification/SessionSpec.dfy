/**
 What each daemon operation does to one session, effect by effect.  The imperative daemon is
 proved equal to these functions; what they guarantee over whole runs is proved about them.
 */
module SessionSpec {
  import opened Common
  import opened SessionModel

  // ---------------------------------------------------------------- finishing and flushing

  function FinishBusy(k: Setup, s: State, o: Oracle): (r: Res)
    requires s.mem.Some?
    ensures r.st.mem.Some?
  {
    var a := WritePatch(k, s, o);
    FinishUnmask(k, a.st, a.ok, o)
  }

  /** With the view exported or not, the lease ends once its masks are off. */
  function FinishUnmask(k: Setup, s: State, exported: bool, o: Oracle): (r: Res)
    requires s.mem.Some?
    ensures r.st.mem.Some?
  {
    var m := s.mem.value;
    var b := Unmask(k, s, m.root, m.masks, o);
    if !b.ok then Res(Persist(k, With(b.st, m.(dirty := true)), o).st, false)
    else EndLease(k, b.st, exported, o)
  }

  /** The session after a lease; `exported` says whether its patch was written. */
  function Idle(m: Mem, exported: bool): Mem {
    var idle := m.(masks := {}, busy := false, owner := NOBODY, exec := NOBODY, lease := NO_LEASE);
    if exported then idle.(dirty := false, lastDurable := idle.generation) else idle.(dirty := true)
  }

  function EndLease(k: Setup, s: State, exported: bool, o: Oracle): (r: Res)
    requires s.mem.Some?
    ensures r.st.mem.Some?
  {
    var idle := Idle(s.mem.value, exported);
    var c := Persist(k, With(s, idle), o);
    if !c.ok then Res(With(c.st, idle.(dirty := true)), false) else Res(c.st, exported)
  }

  /** Finish a lease whose owner and command group are gone; anything else is left alone. */
  function RecoverBusy(k: Setup, s: State, o: Oracle): (r: Res)
    requires s.mem.Some?
    ensures r.st.mem.Some?
  {
    if !s.mem.value.busy then Res(s, true)
    else
      var c := At(o, s.tick);
      var s1 := Sync(k, s, o);
      if Alive(s1.w, c, s1.mem.value.owner, s1.mem.value.exec) then Res(s1, true)
      else FinishBusy(k, s1, o)
  }

  /** `recent`: the last flush is younger than the requested minimum age. */
  function FlushLocked(k: Setup, s: State, recent: bool, o: Oracle): (r: Res)
    requires s.mem.Some?
    ensures r.st.mem.Some?
  {
    if s.mem.value.closed then Res(s, false)
    else
      var a := RecoverBusy(k, s, o);
      if !a.ok || a.st.mem.value.busy then Res(a.st, false)
      else if recent then Persist(k, a.st, o)
      else FlushNow(k, a.st, o)
  }

  /** Mark the session dirty durably, then save. */
  function FlushNow(k: Setup, s: State, o: Oracle): (r: Res)
    requires s.mem.Some?
    ensures r.st.mem.Some?
  {
    var a := Persist(k, With(s, s.mem.value.(dirty := true)), o);
    if !a.ok then a else SaveMarked(k, a.st, o)
  }

  function SaveMarked(k: Setup, s: State, o: Oracle): (r: Res)
    requires s.mem.Some?
    ensures r.st.mem.Some?
  {
    var b := WritePatch(k, s, o);
    if b.ok then PublishClean(k, b.st, o)
    else Res(Persist(k, With(b.st, b.st.mem.value.(dirty := true)), o).st, false)
  }

  function PublishClean(k: Setup, s: State, o: Oracle): (r: Res)
    requires s.mem.Some?
    ensures r.st.mem.Some?
  {
    var saved := s.mem.value.(dirty := false, lastDurable := s.mem.value.generation);
    var c := Persist(k, With(s, saved), o);
    if !c.ok then Res(With(c.st, saved.(dirty := true)), false) else c
  }

  // ---------------------------------------------------------------- opening

  /** Add an overlay over the base with the patch applied, or fail, perhaps leaving the root. */
  datatype Opened = Opened(st: State, root: RootId, ok: bool)

  function AddRoot(k: Setup, w: World): World {
    var upper := Capture(k, Replay(k, w.patch));
    w.(nextRoot := w.nextRoot + 1, roots := w.roots[w.nextRoot := Root(Some(k.base), upper, true, {})])
  }

  function OpenFresh(k: Setup, s: State, o: Oracle): (f: Opened)
    ensures f.st.mem == s.mem
  {
    var fate := At(o, s.tick).fate;
    var s1 := Sync(k, s, o);
    var r := s1.w.nextRoot;
    var s2 := Commit(s1, AddRoot(k, s1.w));
    if fate == Failed then Opened(Commit(s2, Discarded(k, s2.w, r)), r, false)
    else Opened(s2, r, fate == Done)
  }

  /** A session over `root` enters the registry, idle. */
  function Opening(s: State, root: RootId, dirty: bool, generation: nat, lastDurable: nat, viewGen: nat,
                   checksum: int): (t: State)
    ensures t.mem.Some?
  {
    With(s, Mem(root, false, NO_LEASE, NOBODY, NOBODY, dirty, generation, lastDurable, viewGen,
                checksum, {}, false)).(w := s.w.(incarnation := s.w.incarnation + 1))
  }

  /** Put a session read from metadata into the registry, under the next view generation. */
  function Register(k: Setup, s: State, meta: Meta, root: RootId, o: Oracle): Res {
    Persist(k, Opening(s, root, meta.dirty, meta.generation, meta.lastDurable, meta.viewGen + 1,
                       Sum(k, s.w.patch)), o)
  }

  /** Reopen from metadata: a clean session by replaying the patch, a dirty one in place. */
  function Restore(k: Setup, s: State, o: Oracle): Res
    requires s.mem.None? && s.w.meta.Some?
  {
    var meta := s.w.meta.value;
    var c := At(o, s.tick);
    var s1 := Sync(k, s, o);
    if !c.ok || (meta.dirty && Alive(s1.w, c, meta.owner, meta.exec)) then Res(s1, false)
    else if !meta.dirty then
      if meta.root in s1.w.roots || meta.checksum != Sum(k, s1.w.patch) then Res(s1, false)
      else
        var f := OpenFresh(k, s1, o);
        if !f.ok then Res(f.st, false) else Register(k, f.st, meta, f.root, o)
    else if || meta.root !in s1.w.roots || MasksOf(s1.w, meta.root) != {} || k.repoMode
            || s1.w.roots[meta.root].base != Some(k.base) then Res(s1, false)
    else Register(k, s1.(w := Reused(k, s1.w, meta.root)), meta, meta.root, o)
  }

  /** Reopening a root in place takes its upper layer as it is; note if that shows something else. */
  function Reused(k: Setup, w: World, r: RootId): World {
    if r !in w.roots || w.roots[r].whole then w
    else
      w.(roots := w.roots[r := w.roots[r].(whole := true)],
         written := if Overlay(k, w.roots[r].upper) == Want(w) then w.written
                    else w.written + [Damaged(Overlay(k, w.roots[r].upper))])
  }

  function Create(k: Setup, s: State, o: Oracle): Res
    requires s.mem.None?
  {
    var f := OpenFresh(k, s, o);
    if !f.ok then Res(f.st, false)
    else
      PublishNew(k, Opening(f.st, f.root, false, 0, 0, 1, Sum(k, f.st.w.patch)), o)
  }

  /** A new session exists once its metadata is written; until then its root is removed again. */
  function PublishNew(k: Setup, s: State, o: Oracle): Res
    requires s.mem.Some?
  {
    var a := Persist(k, s, o);
    if a.ok then a
    else Res(RemoveRoot(k, a.st.(mem := None), s.mem.value.root, true, o).st, false)
  }

  /** Find the session in the registry or reopen it; `st.mem` stays None when there is none. */
  function Lookup(k: Setup, s: State, o: Oracle): Res {
    if s.mem.Some? then Res(s, true)
    else
      var c := At(o, s.tick);
      var s1 := Sync(k, s, o);
      if s1.w.meta.None? then Res(s1, true)
      else if !c.ok then Res(s1, false)
      else Restore(k, s1, o)
  }

  function EnsureLocked(k: Setup, s: State, sameConfig: bool, o: Oracle): (r: Res)
    ensures r.ok ==> r.st.mem.Some?
  {
    if s.mem.Some? then
      if s.mem.value.closed || !sameConfig then Res(s, false) else Persist(k, s, o)
    else
      var c := At(o, s.tick);
      var s1 := Sync(k, s, o);
      if s1.w.meta.None? then Create(k, s1, o)
      else if !c.ok || !sameConfig then Res(s1, false)
      else Restore(k, s1, o)
  }

  // ---------------------------------------------------------------- leases

  function CurrentGrant(w: World, m: Mem): Grant {
    Grant(m.lease, m.owner, m.generation, m.viewGen, m.root, w.life, w.incarnation)
  }

  /** Answer an acquire: from now on the owner, if it still lives, may write. */
  function Granted(s: State): State
    requires s.mem.Some?
  {
    var g := CurrentGrant(s.w, s.mem.value);
    var w := s.w.(leases := if g.owner in s.w.dead then s.w.leases else s.w.leases + {g},
                  issued := if g in s.w.issued then s.w.issued else s.w.issued + [g]);
    Commit(s, w)
  }

  /** The session is busy in memory; note whether the metadata says so. */
  function NoteTorn(w: World): World {
    w.(torn := w.torn || w.meta.None? || !w.meta.value.dirty)
  }

  /** Give up an acquire: unmount, or stay busy with nobody as owner. */
  function AbortAcquire(k: Setup, s: State, masks: set<string>, o: Oracle): State
    requires s.mem.Some?
  {
    var a := Unmask(k, s, s.mem.value.root, masks, o);
    if a.ok then a.st else StayBusy(k, a.st, masks, o)
  }

  function StayBusy(k: Setup, s: State, masks: set<string>, o: Oracle): State
    requires s.mem.Some?
  {
    var m := s.mem.value.(masks := masks, busy := true, owner := NOBODY, dirty := true);
    var b := Persist(k, With(s, m), o);
    if b.ok then b.st else b.st.(w := NoteTorn(b.st.w))
  }

  function Acquire(k: Setup, s: State, sameConfig: bool, lease: Lease, owner: Proc, o: Oracle): Res {
    var a := EnsureLocked(k, s, sameConfig, o);
    if !a.ok then a else AcquireOpen(k, a.st, lease, owner, o)
  }

  /** Once the session is there: recover a dead lease, then answer a retry, refuse, or take the lease. */
  function AcquireOpen(k: Setup, s: State, lease: Lease, owner: Proc, o: Oracle): Res
    requires s.mem.Some?
  {
    var b := RecoverBusy(k, s, o);
    if !b.ok then b
    else
      var m := b.st.mem.value;
      if m.busy then
        if lease != NO_LEASE && m.lease == lease && m.owner == owner
        then Res(Granted(b.st), true) else Res(b.st, false)
      else AcquireIdle(k, b.st, lease, owner, o)
  }

  function LeaseId(requested: Lease, nonce: nat): Lease {
    if requested == NO_LEASE then nonce + 1 else requested
  }

  /** Mask ignored files, choose the lease identifier if the caller did not, and take it. */
  function AcquireIdle(k: Setup, s: State, lease: Lease, owner: Proc, o: Oracle): Res
    requires s.mem.Some?
  {
    var c := At(o, s.tick);
    var d := Mask(k, s, o);
    if !d.ok then Res(AbortAcquire(k, d.st, c.maskMade, o), false)
    else TakeLease(k, d.st, c.maskMade, LeaseId(lease, c.nonce), owner, o)
  }

  /** Mark the session busy and dirty, durably, before anyone may write; otherwise roll back. */
  function TakeLease(k: Setup, s: State, masks: set<string>, lease: Lease, owner: Proc, o: Oracle): Res
    requires s.mem.Some?
  {
    var a := Persist(k, Taken(s, masks, lease, owner), o);
    if a.ok then Res(Granted(a.st), true)
    else Res(RefuseLease(k, a.st, s.mem.value.dirty, s.mem.value.generation, o), false)
  }

  function Taken(s: State, masks: set<string>, lease: Lease, owner: Proc): (t: State)
    requires s.mem.Some?
    ensures t.mem.Some?
  {
    var m := s.mem.value;
    With(s, m.(masks := masks, busy := true, owner := owner, lease := lease,
               generation := m.generation + 1, dirty := true))
  }

  function RefuseLease(k: Setup, s: State, dirty: bool, generation: nat, o: Oracle): State
    requires s.mem.Some?
  {
    var m := s.mem.value;
    var b := Unmask(k, s, m.root, m.masks, o);
    if b.ok then
      With(b.st, m.(masks := {}, busy := false, owner := NOBODY, lease := NO_LEASE,
                    dirty := dirty, generation := generation))
    else b.st.(w := NoteTorn(b.st.w))
  }

  /** Record the command's process group before it may run. */
  function Attach(k: Setup, s: State, lease: Lease, viewGen: nat, proc: Proc, o: Oracle): Res {
    if s.mem.None? then Res(s, false)
    else
      var c := At(o, s.tick);
      var s1 := Sync(k, s, o);
      var m := s1.mem.value;
      if m.closed || !m.busy || m.lease != lease || lease == NO_LEASE then Res(s1, false)
      else if viewGen == 0 || viewGen != m.viewGen then Res(s1, false)
      else if proc == NOBODY || !c.ok || m.owner == NOBODY || m.owner in s1.w.dead then Res(s1, false)
      else if m.exec != NOBODY && m.exec != proc then Res(s1, false)
      else Record(k, s1, m, proc, o)
  }

  /** Record the group; once that is on disk it may write. */
  function Record(k: Setup, s: State, m: Mem, proc: Proc, o: Oracle): Res {
    var a := Persist(k, With(s, m.(exec := proc)), o);
    if !a.ok || proc in a.st.w.dead then a
    else Res(Commit(a.st, a.st.w.(groups := a.st.w.groups + {Group(proc, m.root)})), true)
  }

  /** A holder that asks for release stops writing when the request is accepted. */
  function Relinquish(w: World, lease: Lease): World {
    w.(leases := (set g | g in w.leases && g.lease != lease))
  }

  function Release(k: Setup, s: State, lease: Lease, viewGen: nat, o: Oracle): Res {
    if s.mem.None? then Res(s, false)
    else
      var c := At(o, s.tick);
      var s1 := Sync(k, s, o);
      var m := s1.mem.value;
      if m.closed || (viewGen != 0 && viewGen != m.viewGen) || !m.busy || m.lease != lease
      then Res(s1, false)
      else if Alive(s1.w, c, NOBODY, m.exec) then Res(s1, false)
      else FinishBusy(k, Commit(s1, Relinquish(s1.w, lease)), o)
  }

  // ---------------------------------------------------------------- the other requests

  function MarkDirty(k: Setup, s: State, o: Oracle): Res {
    var a := Lookup(k, s, o);
    if !a.ok || a.st.mem.None? then Res(a.st, false)
    else
      var m := a.st.mem.value;
      if m.closed || m.busy then Res(a.st, false)
      else Persist(k, Changed(a.st), o)
  }

  function Changed(s: State): (t: State)
    requires s.mem.Some?
    ensures t.mem.Some?
  {
    With(s, s.mem.value.(dirty := true, generation := s.mem.value.generation + 1))
  }

  function Flush(k: Setup, s: State, recent: bool, o: Oracle): Res {
    var a := Lookup(k, s, o);
    if !a.ok || a.st.mem.None? then a else FlushLocked(k, a.st, recent, o)
  }

  /** Save, remove the root, remove the metadata; a failed step can be retried. */
  function EndLocked(k: Setup, s: State, o: Oracle): Res
    requires s.mem.Some?
  {
    var a := if s.mem.value.closed then Res(s, true) else FlushLocked(k, s, false, o);
    if !a.ok then a
    else
      EndCleanup(k, With(a.st, a.st.mem.value.(closed := true)), o)
  }

  function EndCleanup(k: Setup, s: State, o: Oracle): Res
    requires s.mem.Some?
  {
    var b := RemoveRoot(k, s, s.mem.value.root, true, o);
    if !b.ok then Res(Persist(k, b.st, o).st, false)
    else
      var c := RemoveMeta(k, b.st, o);
      if !c.ok then c else Res(c.st.(mem := None), true)
  }

  function End(k: Setup, s: State, o: Oracle): Res {
    var a := Lookup(k, s, o);
    if !a.ok || a.st.mem.None? then a else EndLocked(k, a.st, o)
  }

  function Prune(k: Setup, s: State, idle: bool, o: Oracle): Res {
    var a := Lookup(k, s, o);
    if !a.ok || a.st.mem.None? then a else PruneLocked(k, a.st, idle, o)
  }

  function PruneLocked(k: Setup, s: State, idle: bool, o: Oracle): Res
    requires s.mem.Some?
  {
    var b := RecoverBusy(k, s, o);
    if b.ok && !b.st.mem.value.busy && idle then EndLocked(k, b.st, o) else b
  }

  function List(k: Setup, s: State, o: Oracle): Res {
    var a := Lookup(k, s, o);
    if !a.ok || a.st.mem.None? then a else RecoverBusy(k, a.st, o)
  }

  /** Explicit recovery: unmount what was left, drop a clean stale root, then reopen. */
  function Recover(k: Setup, s: State, dryRun: bool, o: Oracle): Res {
    if s.mem.Some? then Res(s, true)
    else
      var c := At(o, s.tick);
      var s1 := Sync(k, s, o);
      if s1.w.meta.None? || !c.ok then Res(s1, false)
      else if dryRun then Res(s1, true)
      else
        var meta := s1.w.meta.value;
        if Alive(s1.w, c, meta.owner, meta.exec) then Res(s1, false)
        else if !meta.dirty && meta.checksum != Sum(k, s1.w.patch) then Res(s1, false)
        else if meta.root !in s1.w.roots then
          if meta.dirty then Res(s1, false) else Restore(k, s1, o)
        else if !Usable(s1.w, meta.root) then Res(s1, false)
        else RecoverRoot(k, s1, meta, o)
  }

  function RecoverRoot(k: Setup, s: State, meta: Meta, o: Oracle): Res
    requires s.mem.None? && s.w.meta == Some(meta)
  {
    var b := Unmask(k, s, meta.root, MasksOf(s.w, meta.root), o);
    if !b.ok then Res(b.st, false)
    else if meta.dirty then Restore(k, b.st, o)
    else
      var d := RemoveRoot(k, b.st, meta.root, false, o);
      if !d.ok then Res(d.st, false) else Restore(k, d.st, o)
  }

  /** Shutdown: save what is idle, preserve what is not, forget the session either way. */
  function Close(k: Setup, s: State, o: Oracle): Res {
    if s.mem.None? then Res(s, true)
    else
      var c := At(o, s.tick);
      var s1 := Sync(k, s, o);
      var m := s1.mem.value;
      if m.closed then CloseCleanup(k, s1, o)
      else if m.busy then
        if Alive(s1.w, c, m.owner, m.exec) then Preserve(k, s1, o)
        else
          var a := FinishBusy(k, s1, o);
          if a.ok then CloseCleanup(k, a.st, o) else Preserve(k, a.st, o)
      else if m.dirty then
        var a := FlushLocked(k, s1, false, o);
        if a.ok then CloseCleanup(k, a.st, o) else Preserve(k, a.st, o)
      else CloseCleanup(k, s1, o)
  }

  function CloseCleanup(k: Setup, s: State, o: Oracle): Res
    requires s.mem.Some?
  {
    var b := RemoveRoot(k, s, s.mem.value.root, true, o);
    if b.ok then Res(b.st.(mem := None), true) else Preserve(k, b.st, o)
  }

  /** Keep everything, try once more to record it, and forget the session. */
  function Preserve(k: Setup, s: State, o: Oracle): Res
    requires s.mem.Some?
  {
    Res(Persist(k, s, o).st.(mem := None), false)
  }

  // ---------------------------------------------------------------- requests and runs

  datatype Op =
    | OpEnsure(sameConfig: bool)
    | OpAcquire(sameConfig: bool, lease: Lease, owner: Proc)
    | OpAttach(lease: Lease, viewGen: nat, proc: Proc)
    | OpRelease(lease: Lease, viewGen: nat)
    | OpMarkDirty
    | OpFlush(recent: bool)
    | OpEnd
    | OpPrune(idle: bool)
    | OpList
    | OpRecover(dryRun: bool)
    | OpClose

  function Do(k: Setup, s: State, op: Op, o: Oracle): Res {
    match op
    case OpEnsure(same) => EnsureLocked(k, s, same, o)
    case OpAcquire(same, lease, owner) =>
      if owner == NOBODY then Res(s, false) else Acquire(k, s, same, lease, owner, o)
    case OpAttach(lease, viewGen, proc) => Attach(k, s, lease, viewGen, proc, o)
    case OpRelease(lease, viewGen) => Release(k, s, lease, viewGen, o)
    case OpMarkDirty => MarkDirty(k, s, o)
    case OpFlush(recent) => Flush(k, s, recent, o)
    case OpEnd => End(k, s, o)
    case OpPrune(idle) => Prune(k, s, idle, o)
    case OpList => List(k, s, o)
    case OpRecover(dryRun) => Recover(k, s, dryRun, o)
    case OpClose => Close(k, s, o)
  }

  /** One request, which either completes or is cut short by a kill at one of its instants. */
  datatype Move = Move(op: Op, oracle: Oracle, kill: Option<nat>)

  /** Start a request: its own instants begin with the present one. */
  function Begin(s: State): State {
    State(s.w, s.mem, 0, [Snap(s.w, s.mem)])
  }

  function Step(k: Setup, s: State, move: Move): State {
    var r := Do(k, Begin(s), move.op, move.oracle).st;
    if move.kill.Some? && move.kill.value < |r.log|
    then State(r.log[move.kill.value].w, None, 0, [])
    else r
  }

  function Run(k: Setup, s: State, moves: seq<Move>): State
    decreases |moves|
  {
    if moves == [] then s else Run(k, Step(k, s, moves[0]), moves[1..])
  }

  /** Nothing has been opened yet; only the first patch is there. */
  function Initial(k: Setup): State {
    State(World(None, k.first, map[], 0, {}, {}, {}, [Wrote(Replay(k, k.first))], [], [], 0, 0, false, false),
          None, 0, [])
  }
}
