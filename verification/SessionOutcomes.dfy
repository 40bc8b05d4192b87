/**
 What a caller may conclude from an answer, and exactly when a session can be reopened.
 */
module SessionOutcomes {
  import opened Common
  import opened SessionModel
  import opened SessionSpec
  import opened SessionInvariant
  import opened SessionOps

  // ---------------------------------------------------------------- success means saved

  /** The patch gives the content last written, and clean metadata with its checksum says so. */
  ghost predicate DurablySaved(k: Setup, w: World) {
    && Saved(k, w) && w.meta.Some? && !w.meta.value.dirty
    && w.meta.value.checksum == Sum(k, w.patch) && w.meta.value.lastDurable == w.meta.value.generation
  }

  lemma ReleaseSaves(k: Setup, s: State, lease: Lease, viewGen: nat, o: Oracle)
    requires Lawful(k) && Between(k, s)
    ensures var r := Release(k, s, lease, viewGen, o);
      r.ok ==> DurablySaved(k, r.st.w) && Quiet(r.st.w) && r.st.mem.Some? && !r.st.mem.value.busy
  {
    if s.mem.None? { return; }
    var c := At(o, s.tick);
    var s1 := Sync(k, s, o);
    var m := s1.mem.value;
    if m.closed || (viewGen != 0 && viewGen != m.viewGen) || !m.busy || m.lease != lease { return; }
    if Alive(s1.w, c, NOBODY, m.exec) { return; }
    var t := Commit(s1, Relinquish(s1.w, lease));
    assert Release(k, s, lease, viewGen, o) == FinishBusy(k, t, o);
    SyncKeeps(k, s, o);
    RelinquishKeeps(k, s1);
    FinishBusyKeeps(k, t, o);
    CleanIsSaved(k, FinishBusy(k, t, o));
  }

  lemma CleanIsSaved(k: Setup, r: Res)
    requires Between(k, r.st) && r.st.mem.Some? && (r.ok ==> SavedClean(r.st))
    ensures r.ok ==> DurablySaved(k, r.st.w)
  {
  }

  lemma FlushSaves(k: Setup, s: State, o: Oracle)
    requires Lawful(k) && Between(k, s)
    ensures var r := Flush(k, s, false, o);
      r.ok && r.st.mem.Some? ==> DurablySaved(k, r.st.w) && Quiet(r.st.w)
  {
    LookupKeeps(k, s, o);
    var a := Lookup(k, s, o);
    if a.ok && a.st.mem.Some? {
      FlushedIsSaved(k, a.st, o);
    }
  }

  lemma FlushedIsSaved(k: Setup, s: State, o: Oracle)
    requires Lawful(k) && Between(k, s) && s.mem.Some?
    ensures var r := FlushLocked(k, s, false, o);
      r.st.mem.Some? && (r.ok ==> DurablySaved(k, r.st.w) && Quiet(r.st.w))
  {
    FlushLockedKeeps(k, s, false, o);
    CleanIsSaved(k, FlushLocked(k, s, false, o));
  }

  /** A session that was ended has left nothing but its patch, and the patch is the content. */
  lemma EndSaves(k: Setup, s: State, o: Oracle)
    requires Lawful(k) && Between(k, s)
    ensures var r := End(k, s, o);
      r.ok ==> r.st.mem.None? && r.st.w.meta.None? && Saved(k, r.st.w) && Quiet(r.st.w)
  {
    LookupThenEndKeeps(k, s, o);
    var r := End(k, s, o);
    var a := Lookup(k, s, o);
    if a.ok && a.st.mem.Some? && r.ok {
      EndForgets(k, a.st, o);
    }
  }

  lemma EndForgets(k: Setup, s: State, o: Oracle)
    requires s.mem.Some?
    ensures var r := EndLocked(k, s, o); r.ok ==> r.st.mem.None? && r.st.w.meta.None?
  {
  }

  // ---------------------------------------------------------------- refusals change nothing

  lemma RefusedLease(k: Setup, s: State, masks: set<string>, lease: Lease, owner: Proc, o: Oracle)
    requires Good(k, s) && s.mem.Some? && !s.mem.value.busy && !s.mem.value.closed
    requires Intact(k, s.w, s.mem.value.root) && s.mem.value.masks == {}
    requires MasksOf(s.w, s.mem.value.root) <= masks && owner != NOBODY
    ensures var r := TakeLease(k, s, masks, lease, owner, o);
      !r.ok ==>
        && Quiet(r.st.w) && r.st.mem.Some?
        && (|| (r.st.mem == s.mem && MasksOf(r.st.w, s.mem.value.root) == {})
            || (r.st.mem.value.busy && r.st.mem.value.dirty && r.st.mem.value.root == s.mem.value.root
                && MasksOf(r.st.w, s.mem.value.root) <= r.st.mem.value.masks))
  {
    var t := Taken(s, masks, lease, owner);
    BusyKeeps(k, s, t.mem.value);
    PersistKeeps(k, t, o);
    var a := Persist(k, t, o);
    if !a.ok {
      UnmaskKeeps(k, a.st, s.mem.value.root, masks, o);
      assert InMemory(k, s.w, s.mem.value);
      var b := Unmask(k, a.st, s.mem.value.root, masks, o);
      assert b.ok ==> RefuseLease(k, a.st, s.mem.value.dirty, s.mem.value.generation, o).mem == s.mem;
    }
  }

  lemma RefusedIdle(k: Setup, s: State, lease: Lease, owner: Proc, o: Oracle)
    requires Between(k, s) && s.mem.Some? && !s.mem.value.busy && !s.mem.value.closed && owner != NOBODY
    ensures var r := AcquireIdle(k, s, lease, owner, o);
      !r.ok ==>
        && Quiet(r.st.w) && r.st.mem.Some?
        && (|| (r.st.mem == s.mem && MasksOf(r.st.w, s.mem.value.root) == {})
            || (r.st.mem.value.busy && r.st.mem.value.dirty && r.st.mem.value.root == s.mem.value.root
                && MasksOf(r.st.w, s.mem.value.root) <= r.st.mem.value.masks))
  {
    var c := At(o, s.tick);
    var d := Mask(k, s, o);
    MaskKeeps(k, s, o);
    var masks := c.maskMade;
    var r := s.mem.value.root;
    if d.ok {
      RefusedLease(k, d.st, masks, LeaseId(lease, c.nonce), owner, o);
    } else {
      AbortAcquireKeeps(k, d.st, masks, o);
      UnmaskKeeps(k, d.st, r, masks, o);
      var a := Unmask(k, d.st, r, masks, o);
      if !a.ok {
        var m := a.st.mem.value.(masks := masks, busy := true, owner := NOBODY, dirty := true);
        BusyKeeps(k, a.st, m);
        PersistKeeps(k, With(a.st, m), o);
      }
    }
  }

  /**
   Either the session is idle with nothing mounted over its view, or it is busy and dirty with
   every mask that is still mounted recorded for a later attempt.
   */
  ghost predicate UndoneOrRecorded(s: State)
    requires s.mem.Some?
  {
    var m := s.mem.value;
    || (!m.busy && MasksOf(s.w, m.root) == {})
    || (m.busy && m.dirty && MasksOf(s.w, m.root) <= m.masks)
  }

  lemma BetweenIsRecorded(k: Setup, s: State)
    requires Between(k, s) && s.mem.Some?
    ensures UndoneOrRecorded(s) && (!s.mem.value.busy ==> Quiet(s.w))
  {
  }

  lemma EnsuredIsSame(k: Setup, s: State, sameConfig: bool, o: Oracle)
    requires Between(k, s) && s.mem.Some?
    ensures EnsureLocked(k, s, sameConfig, o).st.mem == s.mem
  {
  }

  lemma RefusedEnsure(k: Setup, s: State, sameConfig: bool, o: Oracle)
    requires Lawful(k) && Between(k, s)
    ensures var a := EnsureLocked(k, s, sameConfig, o);
      && (a.st.mem.Some? ==> UndoneOrRecorded(a.st))
      && (s.mem.Some? ==> a.st.mem == s.mem && (!s.mem.value.busy ==> Quiet(a.st.w)))
  {
    EnsureKeeps(k, s, sameConfig, o);
    if s.mem.Some? { EnsuredIsSame(k, s, sameConfig, o); }
    var a := EnsureLocked(k, s, sameConfig, o);
    if a.st.mem.Some? { BetweenIsRecorded(k, a.st); }
  }

  lemma RefusedAfterEnsure(k: Setup, s: State, lease: Lease, owner: Proc, o: Oracle)
    requires Lawful(k) && Between(k, s) && s.mem.Some? && !s.mem.value.closed && owner != NOBODY
    ensures var r := AcquireOpen(k, s, lease, owner, o);
      !r.ok ==>
        && r.st.mem.Some? && UndoneOrRecorded(r.st)
        && (!s.mem.value.busy ==> Quiet(r.st.w) && (r.st.mem == s.mem || r.st.mem.value.busy))
  {
    var b := RecoverBusy(k, s, o);
    RecoverBusyKeeps(k, s, o);
    BetweenIsRecorded(k, b.st);
    if b.ok && !b.st.mem.value.busy { RefusedIdle(k, b.st, lease, owner, o); }
  }

  /**
   A refused acquire.  A session that was not open is idle or not open.  An idle one is as it was in
   memory, with no masks, or busy with its masks recorded; either way nobody may write.  A busy one is
   left alone, or its dead owner's lease was finished.
   */
  lemma RefusedAcquire(k: Setup, s: State, sameConfig: bool, lease: Lease, owner: Proc, o: Oracle)
    requires Lawful(k) && Between(k, s) && owner != NOBODY
    ensures var r := Acquire(k, s, sameConfig, lease, owner, o);
      !r.ok ==>
        && (r.st.mem.Some? ==> UndoneOrRecorded(r.st))
        && (s.mem.Some? ==> r.st.mem.Some?)
        && (s.mem.Some? && !s.mem.value.busy ==> Quiet(r.st.w) && (r.st.mem == s.mem || r.st.mem.value.busy))
  {
    var a := EnsureLocked(k, s, sameConfig, o);
    RefusedEnsure(k, s, sameConfig, o);
    if a.ok {
      EnsureKeeps(k, s, sameConfig, o);
      RefusedAfterEnsure(k, a.st, lease, owner, o);
    }
  }

  // ---------------------------------------------------------------- when a session can be reopened

  /** No other process runs meanwhile. */
  ghost predicate Still(o: Oracle) {
    forall n: nat :: At(o, n).env == []
  }

  predicate GoneForGood(w: World, p: Proc) {
    p == NOBODY || p in w.dead
  }

  /** What must be on disk for an explicit recovery to be able to succeed. */
  predicate Recoverable(k: Setup, w: World)
    requires w.meta.Some?
  {
    var meta := w.meta.value;
    && GoneForGood(w, meta.owner) && GoneForGood(w, meta.exec)
    && (if meta.dirty then meta.root in w.roots && !k.repoMode && w.roots[meta.root].base == Some(k.base)
        else meta.checksum == Sum(k, w.patch) && (meta.root in w.roots ==> w.roots[meta.root].base.Some?))
  }

  function Smooth(): Choice {
    Choice([], Done, true, false, {}, {}, 0, Gone, false, map[])
  }

  function SmoothAt(n: nat): Choice {
    Smooth()
  }

  /** Every effect works, and nobody dead is taken for living. */
  predicate Works(c: Choice) {
    c.ok && c.fate == Done && !c.spurious && c.unmaskErrors == {} && c.extent.Gone? && !c.keepsBase
  }

  ghost predicate NothingFails(o: Oracle) {
    forall n: nat :: Works(At(o, n))
  }

  lemma StillSync(k: Setup, s: State, o: Oracle)
    requires Still(o)
    ensures Sync(k, s, o).w == s.w
  {
  }

  lemma RecoverOnlyIf(k: Setup, s: State, o: Oracle)
    requires s.mem.None? && s.w.meta.Some? && Still(o) && Recover(k, s, false, o).ok
    ensures Recoverable(k, s.w)
  {
  }

  lemma RecoverIf(k: Setup, s: State, o: Oracle)
    requires Good(k, s) && s.mem.None? && s.w.meta.Some? && Recoverable(k, s.w) && Still(o) && NothingFails(o)
    ensures Recover(k, s, false, o).ok
  {
    var meta := s.w.meta.value;
    StillSync(k, s, o);
    if meta.root in s.w.roots {
      RecoverRootIf(k, Sync(k, s, o), meta, o);
    } else {
      RestoreIf(k, Sync(k, s, o), o);
    }
  }

  lemma UnmaskIf(k: Setup, s: State, r: RootId, o: Oracle)
    requires Still(o) && Works(At(o, s.tick))
    ensures var b := Unmask(k, s, r, MasksOf(s.w, r), o);
      b.ok && b.st.mem == s.mem && b.st.w == WithMasks(s.w, r, {})
  {
    StillSync(k, s, o);
    assert MasksOf(s.w, r) - (MasksOf(s.w, r) - {}) == {};
  }

  lemma RemoveIf(k: Setup, s: State, r: RootId, o: Oracle)
    requires Still(o) && Works(At(o, s.tick)) && MasksOf(s.w, r) == {}
    ensures var d := RemoveRoot(k, s, r, false, o);
      d.ok && d.st.mem == s.mem && d.st.w.meta == s.w.meta && d.st.w.patch == s.w.patch
      && d.st.w.dead == s.w.dead && r !in d.st.w.roots
  {
    StillSync(k, s, o);
  }

  lemma RecoverRootIf(k: Setup, s: State, meta: Meta, o: Oracle)
    requires s.mem.None? && s.w.meta == Some(meta) && Recoverable(k, s.w) && ValidMeta(meta)
    requires meta.root in s.w.roots && Still(o) && NothingFails(o)
    ensures RecoverRoot(k, s, meta, o).ok
  {
    UnmaskIf(k, s, meta.root, o);
    var b := Unmask(k, s, meta.root, MasksOf(s.w, meta.root), o);
    if meta.dirty {
      RestoreIf(k, b.st, o);
    } else {
      RemoveIf(k, b.st, meta.root, o);
      RestoreIf(k, RemoveRoot(k, b.st, meta.root, false, o).st, o);
    }
  }

  lemma RestoreIf(k: Setup, s: State, o: Oracle)
    requires s.mem.None? && s.w.meta.Some? && Recoverable(k, s.w) && ValidMeta(s.w.meta.value)
    requires Still(o) && NothingFails(o)
    requires if s.w.meta.value.dirty then MasksOf(s.w, s.w.meta.value.root) == {}
             else s.w.meta.value.root !in s.w.roots
    ensures Restore(k, s, o).ok
  {
  }

  /**
   Explicit recovery can succeed exactly when the recorded writers are gone and the data is there, and then
   it does whenever nothing fails.
   */
  lemma RecoverExactly(k: Setup, s: State)
    requires Good(k, s) && s.mem.None? && s.w.meta.Some?
    ensures (exists o: Oracle :: Still(o) && Recover(k, s, false, o).ok) <==> Recoverable(k, s.w)
    ensures forall o: Oracle :: Still(o) && NothingFails(o) ==> (Recover(k, s, false, o).ok <==> Recoverable(k, s.w))
  {
    forall o: Oracle | Still(o) && Recover(k, s, false, o).ok ensures Recoverable(k, s.w) {
      RecoverOnlyIf(k, s, o);
    }
    forall o: Oracle | Still(o) && NothingFails(o) && Recoverable(k, s.w) ensures Recover(k, s, false, o).ok {
      RecoverIf(k, s, o);
    }
    assert Still(SmoothAt) && NothingFails(SmoothAt);
  }

  // ---------------------------------------------------------------- two ways to lock a session out

  /** Metadata that names a root without its base worktree, or dirty metadata without its root. */
  ghost predicate Stranded(s: State) {
    && s.mem.None? && s.w.meta.Some?
    && var r := s.w.meta.value.root; if r in s.w.roots then s.w.roots[r].base.None? else s.w.meta.value.dirty
  }

  /** Every instant since `s` shows the session stranded, with the same patch. */
  ghost predicate StillStranded(s: State, t: State) {
    && Stranded(t) && t.w.patch == s.w.patch
    && forall i :: 0 <= i < |t.log| ==>
         Stranded(State(t.log[i].w, None, 0, [])) && t.log[i].w.patch == s.w.patch
  }

  lemma StrandedSync(k: Setup, s: State, t: State, o: Oracle)
    requires StillStranded(s, t)
    ensures StillStranded(s, Sync(k, t, o)) && Sync(k, t, o).w.meta == t.w.meta
  {
  }

  lemma StrandedOpen(k: Setup, s: State, t: State, same: bool, dryRun: bool, o: Oracle)
    requires StillStranded(s, t)
    ensures !EnsureLocked(k, t, same, o).ok && StillStranded(s, EnsureLocked(k, t, same, o).st)
    ensures !Lookup(k, t, o).ok && StillStranded(s, Lookup(k, t, o).st)
    ensures StillStranded(s, Recover(k, t, dryRun, o).st)
  {
    var t1 := Sync(k, t, o);
    StrandedSync(k, s, t, o);
    var t2 := Sync(k, t1, o);
    StrandedSync(k, s, t1, o);
    assert Restore(k, t1, o) == Res(t2, false);
  }

  lemma StrandedTake(k: Setup, s: State, t: State, op: Op, o: Oracle)
    requires StillStranded(s, t) && (op.OpEnsure? || op.OpAcquire?)
    ensures StillStranded(s, Do(k, t, op, o).st)
  {
    StrandedOpen(k, s, t, op.sameConfig, true, o);
  }

  lemma StrandedSave(k: Setup, s: State, t: State, op: Op, o: Oracle)
    requires StillStranded(s, t) && (op.OpMarkDirty? || op.OpFlush? || op.OpEnd? || op.OpPrune? || op.OpList?)
    ensures StillStranded(s, Do(k, t, op, o).st)
  {
    StrandedOpen(k, s, t, true, true, o);
  }

  lemma StrandedStays(k: Setup, s: State, move: Move)
    requires Stranded(s)
    ensures Stranded(Step(k, s, move)) && Step(k, s, move).w.patch == s.w.patch
  {
    var t, o := Begin(s), move.oracle;
    assert StillStranded(s, t);
    assert StillStranded(s, Do(k, t, move.op, o).st) by {
      match move.op
      case OpEnsure(_) => StrandedTake(k, s, t, move.op, o);
      case OpAcquire(_, _, _) => StrandedTake(k, s, t, move.op, o);
      case OpRecover(dryRun) => StrandedOpen(k, s, t, true, dryRun, o);
      case OpAttach(_, _, _) =>
      case OpRelease(_, _) =>
      case OpClose =>
      case _ => StrandedSave(k, s, t, move.op, o);
    }
  }

  /** Such a session is never opened again, although its patch still gives the last content. */
  lemma {:induction false} StrandedForever(k: Setup, s: State, moves: seq<Move>)
    requires Stranded(s)
    ensures Stranded(Run(k, s, moves)) && Run(k, s, moves).w.patch == s.w.patch
    decreases |moves|
  {
    if moves != [] {
      StrandedStays(k, s, moves[0]);
      StrandedForever(k, Step(k, s, moves[0]), moves[1..]);
    }
  }

  /** Clean and idle, as it is when a shutdown removes it right away. */
  ghost predicate IdleClean(k: Setup, s: State) {
    && Between(k, s) && s.mem.Some?
    && !s.mem.value.busy && !s.mem.value.closed && !s.mem.value.dirty
  }

  /** Shutting down a clean idle session removes it right away. */
  lemma CloseIdle(k: Setup, s: State, o: Oracle)
    requires s.mem.Some? && !s.mem.value.busy && !s.mem.value.closed && !s.mem.value.dirty
    ensures Close(k, s, o) == CloseCleanup(k, Sync(k, s, o), o)
  {
  }

  lemma DoClose(k: Setup, s: State, o: Oracle)
    ensures Do(k, s, OpClose, o) == Close(k, s, o)
  {
  }

  lemma CloseBegins(k: Setup, s: State, o: Oracle)
    requires s.mem.Some? && !s.mem.value.busy && !s.mem.value.closed && !s.mem.value.dirty && At(o, 0).env == []
    ensures var s1 := State(s.w, s.mem, 1, [Snap(s.w, s.mem), Snap(s.w, s.mem)]);
      Do(k, Begin(s), OpClose, o) == CloseCleanup(k, s1, o)
  {
    DoClose(k, Begin(s), o);
    CloseIdle(k, Begin(s), o);
    assert Sync(k, Begin(s), o) == State(s.w, s.mem, 1, [Snap(s.w, s.mem), Snap(s.w, s.mem)]);
  }

  /** What a removal finds once its base worktree was its turn. */
  function AfterBase(w: World, r: RootId, c: Choice): World {
    if c.keepsBase then w else WithoutBase(w, r)
  }

  lemma RemovalBegins(k: Setup, s: State, r: RootId, o: Oracle)
    requires At(o, s.tick).env == [] && !At(o, s.tick).extent.Untouched? && MasksOf(s.w, r) == {}
    ensures var c := At(o, s.tick); var w := AfterBase(s.w, r, c);
      RemoveRoot(k, s, r, true, o)
      == RemoveFrom(k, State(w, s.mem, s.tick + 1, s.log + [Snap(s.w, s.mem)] + [Snap(w, s.mem)]), r, c)
  {
  }

  lemma RemovalLog(k: Setup, s: State, r: RootId, c: Choice)
    ensures var log := RemoveFrom(k, s, r, c).st.log;
      s.log <= log && (!c.extent.BaseOnly? ==>
        |log| > |s.log| && log[|s.log|] == Snap(Gutted(k, s.w, r, c.remains), s.mem))
  {
  }

  lemma CleanupLog(k: Setup, s: State, o: Oracle)
    requires s.mem.Some?
    ensures RemoveRoot(k, s, s.mem.value.root, true, o).st.log <= CloseCleanup(k, s, o).st.log
  {
    var b := RemoveRoot(k, s, s.mem.value.root, true, o);
    if !b.ok { assert b.st.log <= Persist(k, b.st, o).st.log; }
  }

  /** The instants of a shutdown at which the worktree had its turn, and then the upper layer. */
  lemma ShutdownInstants(k: Setup, s: State, o: Oracle)
    requires IdleClean(k, s) && At(o, 0).env == [] && At(o, 1).env == [] && !At(o, 1).extent.Untouched?
    ensures var log := Do(k, Begin(s), OpClose, o).st.log; var c := At(o, 1); var r := s.mem.value.root;
      var w := AfterBase(s.w, r, c);
      && |log| > 3 && log[3] == Snap(w, s.mem)
      && (!c.extent.BaseOnly? ==> |log| > 4 && log[4] == Snap(Gutted(k, w, r, c.remains), s.mem))
  {
    var r, c := s.mem.value.root, At(o, 1);
    var s1 := State(s.w, s.mem, 1, [Snap(s.w, s.mem), Snap(s.w, s.mem)]);
    InMemoryValidates(k, s);
    CloseBegins(k, s, o);
    RemovalBegins(k, s1, r, o);
    var s2 := State(AfterBase(s.w, r, c), s.mem, 2, s1.log + [Snap(s.w, s.mem)] + [Snap(AfterBase(s.w, r, c), s.mem)]);
    RemovalLog(k, s2, r, c);
    CleanupLog(k, s1, o);
  }

  /**
   Kill an ordinary shutdown of a clean session after its base worktree was removed and before its
   root is gone: the session is stranded, whatever the upper layer still holds.
   */
  lemma KilledRemovalStrands(k: Setup, s: State)
    requires Between(k, s) && !k.repoMode && s.mem.Some? && s.w.meta.Some?
    requires !s.mem.value.busy && !s.mem.value.closed && !s.mem.value.dirty
    requires s.w.meta.value.root == s.mem.value.root
    ensures Stranded(Step(k, s, Move(OpClose, SmoothAt, Some(3))))
  {
    assert At(SmoothAt, 0) == Smooth() && At(SmoothAt, 1) == Smooth();
    ShutdownInstants(k, s, SmoothAt);
    InMemoryValidates(k, s);
  }

  /**
   A shutdown that reports success leaves a recoverable session, except in exactly one case: the
   session was clean in memory while the metadata still said dirty (or recorded another checksum),
   because a clean session is not written again before its root is removed.
   */
  lemma ShutdownRecoverable(k: Setup, s: State, o: Oracle)
    requires Lawful(k) && Between(k, s) && s.mem.Some? && !s.mem.value.closed && s.w.meta.Some?
    ensures var r := Close(k, s, o);
      r.ok ==>
        && r.st.w.meta.Some?
        && (Recoverable(k, r.st.w) <==>
              || s.mem.value.dirty
              || (!s.w.meta.value.dirty && s.w.meta.value.checksum == Sum(k, s.w.patch)))
  {
    if s.mem.value.busy {
      BusyShutdown(k, s, o);
    } else if s.mem.value.dirty {
      DirtyShutdown(k, s, o);
    } else {
      IdleShutdown(k, s, o);
    }
  }

  /** One that need not save leaves the metadata as it was. */
  lemma IdleShutdown(k: Setup, s: State, o: Oracle)
    requires IdleClean(k, s) && s.w.meta.Some?
    ensures var r := Close(k, s, o);
      r.ok ==>
        && r.st.w.meta.Some?
        && (Recoverable(k, r.st.w) <==> !s.w.meta.value.dirty && s.w.meta.value.checksum == Sum(k, s.w.patch))
  {
    SyncKeeps(k, s, o);
    CloseIdle(k, s, o);
    CloseCleanupRemoves(k, Sync(k, s, o), o);
  }

  /** A shutdown that saves before it removes leaves a recoverable session. */
  lemma BusyShutdown(k: Setup, s: State, o: Oracle)
    requires Lawful(k) && Between(k, s) && s.mem.Some? && !s.mem.value.closed && s.mem.value.busy
    ensures s.mem.value.dirty
    ensures var r := Close(k, s, o); r.ok ==> r.st.w.meta.Some? && Recoverable(k, r.st.w)
  {
    var c, m := At(o, s.tick), s.mem.value;
    var s1 := Sync(k, s, o);
    SyncKeeps(k, s, o);
    assert InMemory(k, s.w, m);
    if !Alive(s1.w, c, m.owner, m.exec) {
      DeadIsQuiet(k, s1.w, m, c);
      FinishBusyKeeps(k, s1, o);
      CleanupRecoverable(k, FinishBusy(k, s1, o), o);
    }
  }

  lemma DirtyShutdown(k: Setup, s: State, o: Oracle)
    requires Lawful(k) && Between(k, s) && s.mem.Some? && !s.mem.value.closed
    requires !s.mem.value.busy && s.mem.value.dirty
    ensures var r := Close(k, s, o); r.ok ==> r.st.w.meta.Some? && Recoverable(k, r.st.w)
  {
    var s1 := Sync(k, s, o);
    SyncKeeps(k, s, o);
    FlushLockedKeeps(k, s1, false, o);
    CleanupRecoverable(k, FlushLocked(k, s1, false, o), o);
  }

  lemma CleanupRecoverable(k: Setup, a: Res, o: Oracle)
    requires Between(k, a.st) && a.st.mem.Some? && (a.ok ==> SavedClean(a.st))
    ensures a.ok && CloseCleanup(k, a.st, o).ok ==>
      var w := CloseCleanup(k, a.st, o).st.w; w.meta.Some? && Recoverable(k, w)
  {
    if a.ok {
      CloseCleanupRemoves(k, a.st, o);
      CleanIsSaved(k, a);
    }
  }

  lemma CloseCleanupRemoves(k: Setup, s: State, o: Oracle)
    requires Good(k, s) && s.mem.Some? && !s.mem.value.dirty
    ensures var r := CloseCleanup(k, s, o);
      r.ok ==>
        && r.st.w.meta == s.w.meta && r.st.w.patch == s.w.patch && s.mem.value.root !in r.st.w.roots
        && (s.w.meta.Some? && !s.w.meta.value.dirty ==>
              s.w.meta.value.owner == NOBODY && s.w.meta.value.exec == NOBODY)
        && (s.w.meta.Some? && s.w.meta.value.dirty ==> s.w.meta.value.root == s.mem.value.root)
  {
  }

  /** The second write of the acquire lands, but its directory sync reports an error. */
  function LandsLate(n: nat): Choice {
    if n == 2 then Smooth().(fate := FailedAfterRename) else Smooth()
  }

  /** An acquire of an idle session persists first, and then goes on to mask. */
  lemma AcquireBegins(k: Setup, s: State, o: Oracle)
    requires s.mem.Some? && !s.mem.value.busy && !s.mem.value.closed && ValidMeta(Snapshot(s.mem.value))
    requires At(o, 0) == Smooth()
    ensures var a := Persist(k, Begin(s), o);
      && a.st.w == s.w.(meta := Some(Snapshot(s.mem.value)), torn := false) && a.st.mem == s.mem && a.st.tick == 1
      && Step(k, s, Move(OpAcquire(true, NO_LEASE, 1), o, None)) == AcquireIdle(k, a.st, NO_LEASE, 1, o).st
  {
    assert Sync(k, Begin(s), o).w == s.w;
  }

  /** Masking what it is told to mask, and then taking the lease. */
  lemma AcquireMasks(k: Setup, s: State, o: Oracle)
    requires s.mem.Some? && MasksOf(s.w, s.mem.value.root) == {} && At(o, s.tick).env == [] && At(o, s.tick).ok
    ensures var d := Mask(k, s, o); var c := At(o, s.tick);
      && d.st.w == WithMasks(s.w, s.mem.value.root, c.maskMade) && d.st.mem == s.mem && d.st.tick == s.tick + 1
      && AcquireIdle(k, s, NO_LEASE, 1, o) == TakeLease(k, d.st, c.maskMade, LeaseId(NO_LEASE, c.nonce), 1, o)
  {
    assert {} + At(o, s.tick).maskMade == At(o, s.tick).maskMade;
  }

  lemma LateTake(k: Setup, s: State, o: Oracle)
    requires s.mem.Some? && s.tick == 2 && ValidMeta(Snapshot(s.mem.value)) && !s.mem.value.dirty
    requires s.mem.value.masks == {} && s.mem.value.owner == NOBODY && s.mem.value.lease == NO_LEASE
    requires s.mem.value.exec == NOBODY && !s.mem.value.busy && MasksOf(s.w, s.mem.value.root) == {}
    requires forall n: nat :: At(o, n) == LandsLate(n)
    ensures var t := TakeLease(k, s, {}, 1, 1, o).st; var m := s.mem.value;
      && t.mem == s.mem && MarkedDirty(t.w) && t.w.meta.value.root == m.root
      && t.w.meta.value.owner == 1 && t.w.meta.value.exec == NOBODY && t.w.written == s.w.written
      && MasksOf(t.w, m.root) == {} && t.w.roots.Keys == s.w.roots.Keys
      && (m.root in s.w.roots ==> t.w.roots[m.root].base == s.w.roots[m.root].base)
  {
    var u := Taken(s, {}, 1, 1);
    var b := Persist(k, u, o);
    assert Sync(k, u, o).w == s.w;
    assert !b.ok && b.st.tick == 3 && b.st.mem == u.mem && b.st.w.meta == Some(Snapshot(u.mem.value));
    assert Sync(k, b.st, o).w == b.st.w;
  }

  lemma LateAcquire(k: Setup, s: State)
    requires Between(k, s) && s.mem.Some?
    requires !s.mem.value.busy && !s.mem.value.closed && !s.mem.value.dirty
    ensures var t := Step(k, s, Move(OpAcquire(true, NO_LEASE, 1), LandsLate, None));
      t.mem == s.mem && MarkedDirty(t.w) && t.w.meta.value.root == s.mem.value.root
      && MasksOf(t.w, s.mem.value.root) == {} && t.w.meta.value.owner == 1 && t.w.meta.value.exec == NOBODY
      && t.w.written == s.w.written && Usable(t.w, s.mem.value.root)
      && t.w.roots[s.mem.value.root].base == s.w.roots[s.mem.value.root].base
  {
    var o: Oracle := LandsLate;
    assert forall n: nat :: At(o, n) == LandsLate(n);
    InMemoryValidates(k, s);
    AcquireBegins(k, s, o);
    var a := Persist(k, Begin(s), o).st;
    AcquireMasks(k, a, o);
    LateTake(k, Mask(k, a, o).st, o);
  }

  lemma InMemoryValidates(k: Setup, s: State)
    requires Between(k, s) && s.mem.Some?
    ensures ValidMeta(Snapshot(s.mem.value))
    ensures !s.mem.value.busy ==> MasksOf(s.w, s.mem.value.root) == {} && s.mem.value.masks == {}
    ensures !s.mem.value.busy ==>
      s.mem.value.owner == NOBODY && s.mem.value.exec == NOBODY && s.mem.value.lease == NO_LEASE
    ensures !s.mem.value.dirty ==> s.mem.value.lastDurable == s.mem.value.generation
  {
  }

  lemma CleanClose(k: Setup, s: State)
    requires s.mem.Some? && !s.mem.value.busy && !s.mem.value.closed && !s.mem.value.dirty
    requires MarkedDirty(s.w) && s.w.meta.value.root == s.mem.value.root
    requires MasksOf(s.w, s.mem.value.root) == {}
    ensures Stranded(Step(k, s, Move(OpClose, SmoothAt, None)))
  {
  }

  /** One late error and a shutdown are enough to get there from any clean open session. */
  lemma ShutdownCanStrand(k: Setup, s: State)
    requires Between(k, s) && s.mem.Some?
    requires !s.mem.value.busy && !s.mem.value.closed && !s.mem.value.dirty
    ensures Stranded(Run(k, s, [
      Move(OpAcquire(true, NO_LEASE, 1), LandsLate, None), Move(OpClose, SmoothAt, None)]))
  {
    var first := Move(OpAcquire(true, NO_LEASE, 1), LandsLate, None);
    var second := Move(OpClose, SmoothAt, None);
    LateAcquire(k, s);
    CleanClose(k, Step(k, s, first));
    RunTwo(k, s, first, second);
  }

  lemma RunTwo(k: Setup, s: State, first: Move, second: Move)
    ensures Run(k, s, [first, second]) == Step(k, Step(k, s, first), second)
  {
    var t := Step(k, s, first);
    assert [first, second][1..] == [second];
    assert [second][1..] == [];
    assert Run(k, t, [second]) == Run(k, Step(k, t, second), []);
  }

  // ---------------------------------------------------------------- the double fault

  /** An acquire whose metadata write fails, and whose mask then cannot be taken off again. */
  function LosesBoth(n: nat): Choice {
    if n == 1 then Smooth().(maskMade := {"m"})
    else if n == 2 then Smooth().(fate := Failed)
    else if n == 3 then Smooth().(unmaskErrors := {"m"})
    else Smooth()
  }

  /** Its owner dies; recovering the lease saves the patch, but the metadata write fails once more. */
  function DiesThenLoses(n: nat): Choice {
    if n == 0 then Smooth().(env := [Die(1)])
    else if n == 3 then Smooth().(fate := Failed)
    else Smooth()
  }

  lemma TornTake(k: Setup, s: State, o: Oracle)
    requires s.mem.Some? && s.tick == 2 && s.w.meta.Some? && !s.w.meta.value.dirty
    requires MasksOf(s.w, s.mem.value.root) == {"m"} && forall n: nat :: At(o, n) == LosesBoth(n)
    ensures var t := TakeLease(k, s, {"m"}, 1, 1, o).st; var r := s.mem.value.root;
      && t.mem == Taken(s, {"m"}, 1, 1).mem && t.w.meta == s.w.meta && t.w.torn && t.w.patch == s.w.patch
      && t.w.roots.Keys == s.w.roots.Keys
      && (r in s.w.roots ==>
            t.w.roots[r].base == s.w.roots[r].base && t.w.roots[r].upper == s.w.roots[r].upper)
  {
    var u := Taken(s, {"m"}, 1, 1);
    var b := Persist(k, u, o);
    assert Sync(k, u, o).w == s.w;
    assert !b.ok && b.st.tick == 3 && b.st.w == s.w && b.st.mem == u.mem;
    var e := Unmask(k, b.st, s.mem.value.root, {"m"}, o);
    assert Sync(k, b.st, o).w == s.w;
    assert "m" in At(o, 3).unmaskErrors * {"m"};
    assert !e.ok && e.st.mem == u.mem;
  }

  lemma TornIdle(k: Setup, s: State, o: Oracle)
    requires s.mem.Some? && s.tick == 1 && s.w.meta.Some? && !s.w.meta.value.dirty
    requires MasksOf(s.w, s.mem.value.root) == {} && s.mem.value.root in s.w.roots
    requires forall n: nat :: At(o, n) == LosesBoth(n)
    ensures var t := AcquireIdle(k, s, NO_LEASE, 1, o).st; var r := s.mem.value.root;
      && t.mem == Taken(s, {"m"}, 1, 1).mem && t.w.meta == s.w.meta && t.w.torn && t.w.patch == s.w.patch
      && r in t.w.roots && t.w.roots[r].base == s.w.roots[r].base && t.w.roots[r].upper == s.w.roots[r].upper
  {
    AcquireMasks(k, s, o);
    TornTake(k, Mask(k, s, o).st, o);
  }

  lemma TornMoves(k: Setup, s: State, o: Oracle)
    requires s.mem.Some? && !s.mem.value.busy && !s.mem.value.closed && !s.mem.value.dirty
    requires ValidMeta(Snapshot(s.mem.value)) && s.mem.value.root in s.w.roots
    requires MasksOf(s.w, s.mem.value.root) == {} && forall n: nat :: At(o, n) == LosesBoth(n)
    ensures var t := Step(k, s, Move(OpAcquire(true, NO_LEASE, 1), o, None)); var m := s.mem.value;
      && t.mem == Some(m.(masks := {"m"}, busy := true, owner := 1, lease := 1,
                          generation := m.generation + 1, dirty := true))
      && t.w.meta == Some(Snapshot(m)) && t.w.torn && t.w.patch == s.w.patch
      && m.root in t.w.roots && t.w.roots[m.root].upper == s.w.roots[m.root].upper
      && t.w.roots[m.root].base == s.w.roots[m.root].base
  {
    AcquireBegins(k, s, o);
    TornIdle(k, Persist(k, Begin(s), o).st, o);
  }

  lemma TornAcquire(k: Setup, s: State)
    requires Between(k, s) && s.mem.Some?
    requires !s.mem.value.busy && !s.mem.value.closed && !s.mem.value.dirty && 1 !in s.w.dead
    ensures var t := Step(k, s, Move(OpAcquire(true, NO_LEASE, 1), LosesBoth, None)); var m := s.mem.value;
      && t.mem == Some(m.(masks := {"m"}, busy := true, owner := 1, lease := 1,
                          generation := m.generation + 1, dirty := true))
      && t.w.meta == Some(Snapshot(m)) && t.w.torn && t.w.patch == s.w.patch
      && m.root in t.w.roots && t.w.roots[m.root].upper == s.w.roots[m.root].upper
      && t.w.roots[m.root].base == s.w.roots[m.root].base
  {
    assert forall n: nat :: At(LosesBoth, n) == LosesBoth(n);
    InMemoryValidates(k, s);
    OpenHasRoot(k, s);
    TornMoves(k, s, LosesBoth);
  }

  lemma OpenHasRoot(k: Setup, s: State)
    requires Between(k, s) && s.mem.Some? && !s.mem.value.closed
    ensures s.mem.value.root in s.w.roots
  {
  }

  /** Finishing the lease with only the last metadata write failing. */
  lemma TornFinish(k: Setup, s: State, o: Oracle)
    requires s.mem.Some? && Usable(s.w, s.mem.value.root) && s.mem.value.masks == {"m"} && s.tick == 1
    requires forall n: nat :: At(o, n) == DiesThenLoses(n)
    ensures var t := FinishBusy(k, s, o).st;
      t.w.meta == s.w.meta && t.w.patch == Diff(k, Content(k, s.w.roots[s.mem.value.root]))
  {
    var a := WritePatch(k, s, o);
    assert a.ok && a.st.tick == 2 && a.st.w.meta == s.w.meta;
    var b := Unmask(k, a.st, s.mem.value.root, {"m"}, o);
    assert b.ok && b.st.tick == 3 && b.st.w.meta == s.w.meta && b.st.w.patch == a.st.w.patch;
    EndLeaseLoses(k, b.st, true, o);
  }

  lemma EndLeaseLoses(k: Setup, s: State, exported: bool, o: Oracle)
    requires s.mem.Some? && At(o, s.tick).env == [] && At(o, s.tick).fate == Failed
    ensures EndLease(k, s, exported, o).st.w == s.w
  {
  }

  /** Listing a session whose owner dies just then finishes its lease. */
  lemma ListFinishes(k: Setup, s: State)
    requires s.mem.Some? && s.mem.value.busy && s.mem.value.owner == 1 && s.mem.value.exec == NOBODY
    ensures var s1 := Sync(k, Begin(s), DiesThenLoses);
      && s1.mem == s.mem && s1.tick == 1 && s1.w.roots == s.w.roots && s1.w.meta == s.w.meta
      && Do(k, Begin(s), OpList, DiesThenLoses) == FinishBusy(k, s1, DiesThenLoses)
  {
    assert At(DiesThenLoses, 0) == DiesThenLoses(0);
    DiesInSync(k, Begin(s), DiesThenLoses);
  }

  lemma TornRecover(k: Setup, s: State)
    requires s.mem.Some? && s.mem.value.busy && s.mem.value.owner == 1 && s.mem.value.exec == NOBODY
    requires Usable(s.w, s.mem.value.root) && s.mem.value.masks == {"m"}
    ensures var t := Step(k, s, Move(OpList, DiesThenLoses, None));
      t.w.meta == s.w.meta && t.w.patch == Diff(k, Content(k, s.w.roots[s.mem.value.root]))
  {
    var o: Oracle := DiesThenLoses;
    assert forall n: nat :: At(o, n) == DiesThenLoses(n);
    ListFinishes(k, s);
    TornFinish(k, Sync(k, Begin(s), o), o);
  }

  lemma DiesInSync(k: Setup, s: State, o: Oracle)
    requires At(o, s.tick).env == [Die(1)]
    ensures var t := Sync(k, s, o);
      t.w == Happen(k, s.w, Loaded(s.mem), Die(1)) && 1 in t.w.dead && t.w.roots == s.w.roots
  {
    assert [Die(1)][1..] == [];
    var w := Happen(k, s.w, Loaded(s.mem), Die(1));
    assert Env(k, w, Loaded(s.mem), []) == w;
  }

  /**
   Why `ChecksumsMatch` leaves torn sessions out: after both faults, clean metadata keeps the
   checksum of the patch before the last save.  If saving again gives another text, a restart
   cannot recover the session, although the patch on disk is good.
   */
  lemma DoubleFaultMismatch(k: Setup, s: State)
    requires Lawful(k) && Between(k, s) && s.mem.Some?
    requires !s.mem.value.busy && !s.mem.value.closed && !s.mem.value.dirty && 1 !in s.w.dead
    requires Sum(k, Diff(k, Want(s.w))) != Sum(k, s.w.patch)
    ensures var t := Run(k, s, [
        Move(OpAcquire(true, NO_LEASE, 1), LosesBoth, None), Move(OpList, DiesThenLoses, None)]);
      && t.w.meta.Some? && !t.w.meta.value.dirty && t.w.meta.value.checksum != Sum(k, t.w.patch)
      && Replay(k, t.w.patch) == Want(s.w) && !Recoverable(k, t.w)
  {
    var first := Move(OpAcquire(true, NO_LEASE, 1), LosesBoth, None);
    var second := Move(OpList, DiesThenLoses, None);
    InMemoryValidates(k, s);
    assert InMemory(k, s.w, s.mem.value);
    TornAcquire(k, s);
    var t := Step(k, s, first);
    TornRecover(k, t);
    assert Content(k, t.w.roots[s.mem.value.root]) == Want(s.w);
    RunTwo(k, s, first, second);
  }
}
