/** When a session can be opened that is not in the registry, exactly, and what it is opened as. */
module SessionOpening {
  import opened Common
  import opened SessionModel
  import opened SessionSpec
  import opened SessionInvariant
  import opened SessionOps
  import opened SessionOutcomes
  import opened SessionProgress

  /** The session is open and idle over `root` with these numbers, in memory and on disk. */
  predicate OpenedAs(k: Setup, t: State, root: RootId, dirty: bool, generation: nat, lastDurable: nat,
                     viewGen: nat)
  {
    var sum := Sum(k, t.w.patch);
    && t.mem == Some(Mem(root, false, NO_LEASE, NOBODY, NOBODY, dirty, generation, lastDurable, viewGen, sum,
                         {}, false))
    && t.w.meta == Some(Meta(root, dirty, generation, lastDurable, viewGen, NOBODY, NOBODY, sum))
  }

  /** One more session was opened; what was granted before stays on record. */
  predicate OneMore(w: World, v: World) {
    v.incarnation == w.incarnation + 1 && v.life == w.life && v.issued == w.issued && v.patch == w.patch
  }

  lemma RegisterExactly(k: Setup, s: State, meta: Meta, root: RootId, o: Oracle)
    requires ValidMeta(meta)
    ensures var r := Register(k, s, meta, root, o);
      && (r.ok <==> Lands(o, s.tick)) && OneMore(s.w, r.st.w) && r.st.mem.Some?
      && (r.ok ==> OpenedAs(k, r.st, root, meta.dirty, meta.generation, meta.lastDurable, meta.viewGen + 1))
  {
    PersistExactly(k, Opening(s, root, meta.dirty, meta.generation, meta.lastDurable, meta.viewGen + 1,
                              Sum(k, s.w.patch)), o);
  }

  lemma OpenFreshExactly(k: Setup, s: State, o: Oracle)
    requires s.mem.None?
    ensures var f := OpenFresh(k, s, o);
      && (f.ok <==> Lands(o, s.tick)) && f.st.tick == s.tick + 1 && f.st.mem.None? && f.root == s.w.nextRoot
      && f.st.w.meta == s.w.meta && f.st.w.patch == s.w.patch
      && (At(o, s.tick).fate == Failed ==> f.root !in f.st.w.roots) && MasksOf(f.st.w, f.root) == {}
      && f.st.w.incarnation == s.w.incarnation && f.st.w.life == s.w.life && f.st.w.issued == s.w.issued
  {
  }

  // ---------------------------------------------------------------- reopening

  /**
   What a reopening needs to find: the content of a clean session in a patch with the recorded checksum, and
   its old root removed; that of a dirty one in its root over the pinned base, without masks or writers.
   */
  predicate CanReopen(k: Setup, w: World, meta: Meta, c: Choice) {
    && c.ok
    && if meta.dirty then
         && Departed(w, c, meta.owner) && Departed(w, c, meta.exec)
         && meta.root in w.roots && MasksOf(w, meta.root) == {} && w.roots[meta.root].base == Some(k.base)
         && !k.repoMode
       else meta.root !in w.roots && meta.checksum == Sum(k, w.patch)
  }

  /** A clean session is opened afresh and then recorded, a dirty one only recorded. */
  predicate ReopenWorks(k: Setup, w: World, meta: Meta, o: Oracle, n: nat) {
    CanReopen(k, w, meta, At(o, n)) && Lands(o, n + 1) && (meta.dirty || Lands(o, n + 2))
  }

  /** The answer to a reopening; `s1` is the moment everything is looked at. */
  ghost predicate Restores(k: Setup, s: State, meta: Meta, s1: State, o: Oracle, r: Res) {
    (&& (r.ok <==> ReopenWorks(k, s1.w, meta, o, s.tick))
     && (!CanReopen(k, s1.w, meta, At(o, s.tick)) ==> r.st == s1)
     && (r.st.mem.Some? <==> CanReopen(k, s1.w, meta, At(o, s.tick)) && (meta.dirty || Lands(o, s.tick + 1)))
     && (r.ok ==>
           && OpenedAs(k, r.st, if meta.dirty then meta.root else s.w.nextRoot, meta.dirty, meta.generation,
                       meta.lastDurable, meta.viewGen + 1)
           && OneMore(s.w, r.st.w))) == true
  }

  lemma RestoreExactly(k: Setup, s: State, o: Oracle)
    requires s.mem.None? && s.w.meta.Some? && ValidMeta(s.w.meta.value)
    ensures Restores(k, s, s.w.meta.value, Sync(k, s, o), o, Restore(k, s, o))
  {
    var meta, s1, c := s.w.meta.value, Sync(k, s, o), At(o, s.tick);
    if !CanReopen(k, s1.w, meta, c) {
      assert Restore(k, s, o) == Res(s1, false);
    } else if meta.dirty {
      RestoreDirtyExactly(k, s, o);
    } else {
      RestoreCleanExactly(k, s, o);
    }
  }

  lemma RestoreDirtyExactly(k: Setup, s: State, o: Oracle)
    requires s.mem.None? && s.w.meta.Some? && ValidMeta(s.w.meta.value) && s.w.meta.value.dirty
    requires CanReopen(k, Sync(k, s, o).w, s.w.meta.value, At(o, s.tick))
    ensures Restores(k, s, s.w.meta.value, Sync(k, s, o), o, Restore(k, s, o))
  {
    var meta, s1 := s.w.meta.value, Sync(k, s, o);
    var t := s1.(w := Reused(k, s1.w, meta.root));
    RegisterExactly(k, t, meta, meta.root, o);
    assert Restore(k, s, o) == Register(k, t, meta, meta.root, o);
  }

  lemma RestoreCleanExactly(k: Setup, s: State, o: Oracle)
    requires s.mem.None? && s.w.meta.Some? && ValidMeta(s.w.meta.value) && !s.w.meta.value.dirty
    requires CanReopen(k, Sync(k, s, o).w, s.w.meta.value, At(o, s.tick))
    ensures Restores(k, s, s.w.meta.value, Sync(k, s, o), o, Restore(k, s, o))
  {
    var meta, s1 := s.w.meta.value, Sync(k, s, o);
    var f := OpenFresh(k, s1, o);
    OpenFreshExactly(k, s1, o);
    RegisterExactly(k, f.st, meta, f.root, o);
    assert Restore(k, s, o) == if f.ok then Register(k, f.st, meta, f.root, o) else Res(f.st, false);
  }

  /** What the invariant says of metadata on disk. */
  lemma MetaFacts(k: Setup, s: State)
    requires Between(k, s) && s.w.meta.Some?
    ensures ValidMeta(s.w.meta.value)
  {
  }

  /** A session that is not open is looked up on disk; without metadata there is none. */
  lemma LookupExactly(k: Setup, s: State, o: Oracle)
    requires Between(k, s) && s.mem.None?
    ensures var r, s1 := Lookup(k, s, o), Sync(k, s, o);
      if s.w.meta.None? then r == Res(s1, true)
      else if !At(o, s.tick).ok then r == Res(s1, false)
      else Restores(k, s1, s.w.meta.value, Sync(k, s1, o), o, r)
  {
    if s.w.meta.Some? {
      MetaFacts(k, s);
      RestoreExactly(k, Sync(k, s, o), o);
    }
  }

  /** The session of the metadata is open, under the next view generation. */
  predicate ReopenedAs(k: Setup, meta: Meta, t: State) {
    && t.mem.Some? && (meta.dirty ==> t.mem.value.root == meta.root)
    && OpenedAs(k, t, t.mem.value.root, meta.dirty, meta.generation, meta.lastDurable, meta.viewGen + 1)
  }

  lemma RestoreOpens(k: Setup, s: State, o: Oracle)
    requires s.mem.None? && s.w.meta.Some? && ValidMeta(s.w.meta.value)
    ensures var r := Restore(k, s, o); r.ok ==> ReopenedAs(k, s.w.meta.value, r.st)
  {
    RestoreExactly(k, s, o);
  }

  lemma RecoverRootOpens(k: Setup, s: State, meta: Meta, o: Oracle)
    requires s.mem.None? && s.w.meta == Some(meta) && ValidMeta(meta)
    ensures var r := RecoverRoot(k, s, meta, o); r.ok ==> ReopenedAs(k, meta, r.st)
  {
    var b := Unmask(k, s, meta.root, MasksOf(s.w, meta.root), o);
    assert b.st.mem.None? && b.st.w.meta == Some(meta);
    if b.ok && meta.dirty {
      RestoreOpens(k, b.st, o);
    } else if b.ok {
      var d := RemoveRoot(k, b.st, meta.root, false, o);
      assert d.st.mem.None? && d.st.w.meta == Some(meta);
      RestoreOpens(k, d.st, o);
    }
  }

  /** An open session is left alone; otherwise there must be metadata, a dry run only looks, and success opens. */
  lemma RecoverOpens(k: Setup, s: State, dryRun: bool, o: Oracle)
    requires Between(k, s)
    ensures var r, s1 := Recover(k, s, dryRun, o), Sync(k, s, o);
      if s.mem.Some? then r == Res(s, true)
      else
      && (s.w.meta.None? || !At(o, s.tick).ok ==> r == Res(s1, false))
      && (s.w.meta.Some? && At(o, s.tick).ok && dryRun ==> r == Res(s1, true))
      && (r.ok && !dryRun ==> ReopenedAs(k, s.w.meta.value, r.st))
  {
    if s.mem.None? && s.w.meta.Some? && At(o, s.tick).ok && !dryRun {
      MetaFacts(k, s);
      RecoverLooks(k, s, Sync(k, s, o), o);
      RestoreOpens(k, Sync(k, s, o), o);
      RecoverRootOpens(k, Sync(k, s, o), s.w.meta.value, o);
    }
  }

  /** A recovery that is not refused reopens the session, or clears its root first. */
  lemma RecoverLooks(k: Setup, s: State, s1: State, o: Oracle)
    requires s.mem.None? && s.w.meta.Some? && At(o, s.tick).ok && s1 == Sync(k, s, o)
    ensures s1.mem.None? && s1.w.meta == s.w.meta
    ensures var r := Recover(k, s, false, o);
      r == Res(s1, false) || r == Restore(k, s1, o) || r == RecoverRoot(k, s1, s.w.meta.value, o)
  {
  }

  // ---------------------------------------------------------------- creating

  /** The answer to a creation: a first root, and then the metadata that makes it a session. */
  ghost predicate Creates(k: Setup, s: State, o: Oracle, r: Res) {
    (&& (r.ok <==> Lands(o, s.tick) && Lands(o, s.tick + 1))
     && (r.ok ==> OpenedAs(k, r.st, s.w.nextRoot, false, 0, 0, 1) && OneMore(s.w, r.st.w))
     && (!r.ok ==> r.st.mem.None?)
     && (!r.ok && (At(o, s.tick).fate == Failed || (Lands(o, s.tick) && RemovalWorks(k, At(o, s.tick + 2)))) ==>
           s.w.nextRoot !in r.st.w.roots)) == true
  }

  lemma CreateExactly(k: Setup, s: State, o: Oracle)
    requires s.mem.None?
    ensures Creates(k, s, o, Create(k, s, o))
  {
    var f := OpenFresh(k, s, o);
    OpenFreshExactly(k, s, o);
    if f.ok {
      var t := Opening(f.st, f.root, false, 0, 0, 1, Sum(k, f.st.w.patch));
      var a := Persist(k, t, o);
      PersistExactly(k, t, o);
      RemoveExactly(k, a.st.(mem := None), f.root, o);
      assert Create(k, s, o) == PublishNew(k, t, o);
    }
  }

  /**
   An open session is kept for a caller with the same options once its metadata is written again; one that
   is not open is reopened from its metadata, for the same options only, or created.
   */
  lemma EnsureExactly(k: Setup, s: State, same: bool, o: Oracle)
    requires Between(k, s)
    ensures var r, s1 := EnsureLocked(k, s, same, o), Sync(k, s, o);
      if s.mem.Some? then
        if s.mem.value.closed || !same then r == Res(s, false)
        else (r.ok <==> Lands(o, s.tick)) && r.st.mem == s.mem
             && (r.ok ==> r.st.w.meta == Some(Snapshot(s.mem.value)))
      else if s.w.meta.None? then Creates(k, s1, o, r)
      else if !At(o, s.tick).ok || !same then r == Res(s1, false)
      else Restores(k, s1, s.w.meta.value, Sync(k, s1, o), o, r)
  {
    if s.mem.Some? {
      OpenFacts(k, s);
      PersistExactly(k, s, o);
    } else if s.w.meta.None? {
      CreateExactly(k, Sync(k, s, o), o);
    } else {
      MetaFacts(k, s);
      RestoreExactly(k, Sync(k, s, o), o);
    }
  }

  // ---------------------------------------------------------------- requests that find the session closed

  /** An acquire opens the session first; what it opens is idle, so masking and one write give the lease. */
  lemma AcquireOpens(k: Setup, s: State, same: bool, lease: Lease, owner: Proc, o: Oracle)
    requires Lawful(k) && Between(k, s) && s.mem.None?
    ensures var r, a := Acquire(k, s, same, lease, owner, o), EnsureLocked(k, s, same, o);
      && (!a.ok ==> r == a)
      && (a.ok ==> a.st.mem.Some? && (r.ok <==> LeaseWorks(o, a.st.tick)))
      && (r.ok ==> HoldsLease(a.st.w, a.st.mem.value, r.st, lease, owner, At(o, a.st.tick).maskMade))
  {
    var a := EnsureLocked(k, s, same, o);
    EnsureExactly(k, s, same, o);
    EnsureKeeps(k, s, same, o);
    if a.ok {
      assert !a.st.mem.value.busy;
      OpenFacts(k, a.st);
      AcquireIdleExactly(k, a.st, lease, owner, o);
      assert AcquireOpen(k, a.st, lease, owner, o) == AcquireIdle(k, a.st, lease, owner, o);
    }
  }

  /** The requests that look a session up before they do anything else. */
  predicate LooksUp(op: Op) {
    op.OpMarkDirty? || op.OpFlush? || op.OpEnd? || op.OpPrune? || op.OpList?
  }

  /**
   On a session that is not open these requests do what they do on the session as it is looked up, and only
   a change needs there to be one; leases and shutdown know open sessions only.
   */
  lemma OpensFirst(k: Setup, s: State, op: Op, o: Oracle)
    requires s.mem.None?
    ensures var r, a := Do(k, s, op, o), Lookup(k, s, o);
      && (LooksUp(op) && a.ok && a.st.mem.Some? ==> r == Do(k, a.st, op, o))
      && (LooksUp(op) && !(a.ok && a.st.mem.Some?) ==> r == Res(a.st, a.ok && !op.OpMarkDirty?))
      && (op.OpAttach? || op.OpRelease? ==> r == Res(s, false)) && (op.OpClose? ==> r == Res(s, true))
  {
  }
}
