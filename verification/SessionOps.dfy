/** Every operation keeps the session invariant, whatever fails and whoever writes meanwhile. */
module SessionOps {
  import opened Common
  import opened SessionModel
  import opened SessionSpec
  import opened SessionInvariant

  /** What an operation leaves when it started with a registered session. */
  ghost predicate Kept(k: Setup, s: State, r: Res) {
    && Between(k, r.st) && r.st.mem.Some? && s.mem.Some?
    && r.st.mem.value.root == s.mem.value.root && r.st.mem.value.closed == s.mem.value.closed
    && r.st.mem.value.viewGen == s.mem.value.viewGen && r.st.w.life == s.w.life
  }

  /** The session is clean, and the metadata on disk says so. */
  ghost predicate SavedClean(s: State)
    requires s.mem.Some?
  {
    !s.mem.value.dirty && s.w.meta == Some(Snapshot(s.mem.value))
  }

  /** Writing the metadata of a settled session leaves it settled. */
  lemma PersistBetween(k: Setup, s: State, o: Oracle)
    requires Between(k, s) && s.mem.Some?
    ensures var r := Persist(k, s, o);
      && Between(k, r.st) && r.st.mem == s.mem && r.st.w.life == s.w.life
      && (Quiet(s.w) ==> Quiet(r.st.w)) && r.st.w.incarnation == s.w.incarnation
      && (r.ok ==> r.st.w.meta == Some(Snapshot(s.mem.value)))
  {
    PersistKeeps(k, s, o);
  }

  lemma IdleKeeps(k: Setup, s: State, saved: bool)
    requires Good(k, s) && s.mem.Some? && s.mem.value.dirty && Quiet(s.w)
    requires saved ==> Saved(k, s.w) && s.mem.value.checksum == Sum(k, s.w.patch)
    ensures Good(k, With(s, Idle(s.mem.value, saved)))
  {
  }

  /** The same with the lease fields left alone: a flush that ends clean. */
  lemma CleanKeeps(k: Setup, s: State)
    requires Good(k, s) && s.mem.Some? && !s.mem.value.busy && Quiet(s.w)
    requires Saved(k, s.w) && s.mem.value.checksum == Sum(k, s.w.patch)
    ensures Good(k, With(s, s.mem.value.(dirty := false, lastDurable := s.mem.value.generation)))
  {
  }

  lemma DirtyKeeps(k: Setup, s: State, generation: nat)
    requires Good(k, s) && s.mem.Some? && !s.mem.value.closed && Intact(k, s.w, s.mem.value.root)
    requires !s.mem.value.busy && generation >= s.mem.value.generation
    ensures Good(k, With(s, s.mem.value.(dirty := true, generation := generation)))
  {
  }

  lemma EndLeaseKeeps(k: Setup, s: State, exported: bool, o: Oracle)
    requires Good(k, s) && s.mem.Some? && s.mem.value.dirty && Quiet(s.w)
    requires exported ==> Saved(k, s.w) && s.mem.value.checksum == Sum(k, s.w.patch)
    requires MasksOf(s.w, s.mem.value.root) == {}
    ensures var r := EndLease(k, s, exported, o);
      && Kept(k, s, r) && Quiet(r.st.w)
      && (r.ok ==> !r.st.mem.value.busy && SavedClean(r.st))
  {
    IdleKeeps(k, s, exported);
    var t := With(s, Idle(s.mem.value, exported));
    PersistKeeps(k, t, o);
    var c := Persist(k, t, o);
    if !c.ok && exported { DirtyKeeps(k, c.st, c.st.mem.value.generation); }
  }

  lemma FinishBusyKeeps(k: Setup, s: State, o: Oracle)
    requires Lawful(k) && Between(k, s) && s.mem.Some? && s.mem.value.busy && Quiet(s.w)
    ensures var r := FinishBusy(k, s, o);
      && Kept(k, s, r) && Quiet(r.st.w)
      && (r.ok ==> !r.st.mem.value.busy && SavedClean(r.st))
  {
    var a := WritePatch(k, s, o);
    WritePatchKeeps(k, s, o);
    assert Kept(k, s, a) && Quiet(a.st.w);
    FinishUnmaskKeeps(k, a.st, a.ok, o);
  }

  /** The lease ends once its masks are off; otherwise it stays, to be finished later. */
  lemma FinishUnmaskKeeps(k: Setup, s: State, exported: bool, o: Oracle)
    requires Between(k, s) && s.mem.Some? && s.mem.value.busy && Quiet(s.w)
    requires exported ==> Saved(k, s.w) && s.mem.value.checksum == Sum(k, s.w.patch)
    ensures var r := FinishUnmask(k, s, exported, o);
      && Kept(k, s, r) && Quiet(r.st.w)
      && (r.ok ==> !r.st.mem.value.busy && SavedClean(r.st))
  {
    var m := s.mem.value;
    var b := Unmask(k, s, m.root, m.masks, o);
    UnmaskKeeps(k, s, m.root, m.masks, o);
    if !b.ok {
      assert With(b.st, m.(dirty := true)) == b.st;
      PersistBetween(k, b.st, o);
    } else {
      EndLeaseKeeps(k, b.st, exported, o);
    }
  }

  lemma RecoverBusyKeeps(k: Setup, s: State, o: Oracle)
    requires Lawful(k) && Between(k, s) && s.mem.Some?
    ensures var r := RecoverBusy(k, s, o);
      && Kept(k, s, r)
      && (r.ok && r.st.mem.value.busy ==> r.st.mem == s.mem && SameFiles(s, r.st))
      && (!s.mem.value.busy ==> r == Res(s, true))
  {
    if s.mem.value.busy {
      SyncKeeps(k, s, o);
      var s1 := Sync(k, s, o);
      var m := s.mem.value;
      if !Alive(s1.w, At(o, s.tick), m.owner, m.exec) {
        DeadIsQuiet(k, s1.w, m, At(o, s.tick));
        FinishBusyKeeps(k, s1, o);
      }
    }
  }

  lemma PublishCleanKeeps(k: Setup, s: State, o: Oracle)
    requires Good(k, s) && s.mem.Some? && !s.mem.value.busy && !s.mem.value.closed
    requires Intact(k, s.w, s.mem.value.root) && Settled(s.w, s.mem.value)
    requires Saved(k, s.w) && s.mem.value.checksum == Sum(k, s.w.patch)
    ensures var r := PublishClean(k, s, o);
      && Kept(k, s, r) && !r.st.mem.value.busy && (r.ok ==> SavedClean(r.st))
  {
    assert Quiet(s.w);
    var saved := s.mem.value.(dirty := false, lastDurable := s.mem.value.generation);
    CleanKeeps(k, s);
    PersistKeeps(k, With(s, saved), o);
    var c := Persist(k, With(s, saved), o);
    if !c.ok { DirtyKeeps(k, c.st, c.st.mem.value.generation); }
  }

  lemma FlushNowKeeps(k: Setup, s: State, o: Oracle)
    requires Lawful(k) && Between(k, s) && s.mem.Some? && !s.mem.value.busy && !s.mem.value.closed
    ensures var r := FlushNow(k, s, o);
      && Kept(k, s, r) && !r.st.mem.value.busy && (r.ok ==> SavedClean(r.st))
  {
    var marked := With(s, s.mem.value.(dirty := true));
    DirtyKeeps(k, s, s.mem.value.generation);
    var a := Persist(k, marked, o);
    PersistKeeps(k, marked, o);
    if a.ok { SaveMarkedKeeps(k, a.st, o); }
  }

  lemma SaveMarkedKeeps(k: Setup, s: State, o: Oracle)
    requires Lawful(k) && Between(k, s) && s.mem.Some? && !s.mem.value.busy && !s.mem.value.closed
    requires s.mem.value.dirty && MarkedDirty(s.w)
    ensures var r := SaveMarked(k, s, o);
      && Kept(k, s, r) && !r.st.mem.value.busy && (r.ok ==> SavedClean(r.st))
  {
    var b := WritePatch(k, s, o);
    WritePatchKeeps(k, s, o);
    if !b.ok {
      assert With(b.st, b.st.mem.value.(dirty := true)) == b.st;
      PersistBetween(k, b.st, o);
    } else {
      PublishCleanKeeps(k, b.st, o);
    }
  }

  lemma FlushLockedKeeps(k: Setup, s: State, recent: bool, o: Oracle)
    requires Lawful(k) && Between(k, s) && s.mem.Some?
    ensures var r := FlushLocked(k, s, recent, o);
      && Kept(k, s, r)
      && (r.ok ==> !r.st.mem.value.busy && !r.st.mem.value.closed)
      && (r.ok && !recent ==> SavedClean(r.st))
  {
    if !s.mem.value.closed {
      var a := RecoverBusy(k, s, o);
      RecoverBusyKeeps(k, s, o);
      if a.ok && !a.st.mem.value.busy {
        if recent { PersistBetween(k, a.st, o); } else { FlushNowKeeps(k, a.st, o); }
      }
    }
  }

  // ---------------------------------------------------------------- opening

  lemma OpeningKeeps(k: Setup, s: State, root: RootId, dirty: bool, generation: nat, lastDurable: nat,
                     viewGen: nat, checksum: int)
    requires Good(k, s) && s.mem.None? && Quiet(s.w)
    requires Holds(k, s.w, root) && Intact(k, s.w, root) && root < s.w.nextRoot
    requires lastDurable <= generation && viewGen > 0
    requires !dirty ==> Saved(k, s.w) && generation == lastDurable && checksum == Sum(k, s.w.patch)
    requires s.w.meta.Some? ==> generation >= s.w.meta.value.generation && viewGen > s.w.meta.value.viewGen
    requires s.w.meta.Some? && (s.w.meta.value.dirty || s.w.meta.value.root in s.w.roots) ==>
      s.w.meta.value.root == root
    ensures Good(k, Opening(s, root, dirty, generation, lastDurable, viewGen, checksum))
  {
  }

  /** A fresh entry of the registry, once its metadata write was attempted. */
  lemma FirstPersistKeeps(k: Setup, s: State, o: Oracle)
    requires Good(k, s) && s.mem.Some? && !s.mem.value.busy && !s.mem.value.closed
    requires Intact(k, s.w, s.mem.value.root) && MasksOf(s.w, s.mem.value.root) == {}
    requires s.mem.value.masks == {}
    ensures Between(k, Persist(k, s, o).st)
  {
    PersistKeeps(k, s, o);
  }

  lemma RegisterKeeps(k: Setup, s: State, meta: Meta, root: RootId, o: Oracle)
    requires Good(k, s) && s.mem.None? && Quiet(s.w) && s.w.meta == Some(meta)
    requires Holds(k, s.w, root) && Intact(k, s.w, root) && MasksOf(s.w, root) == {}
    requires root < s.w.nextRoot && (meta.dirty || meta.root in s.w.roots ==> root == meta.root)
    ensures var r := Register(k, s, meta, root, o);
      && Between(k, r.st) && r.st.mem.Some? && !r.st.mem.value.closed && !r.st.mem.value.busy
  {
    assert meta.lastDurable <= meta.generation && (!meta.dirty ==> meta.generation == meta.lastDurable);
    assert !meta.dirty ==> Saved(k, s.w);
    OpeningKeeps(k, s, root, meta.dirty, meta.generation, meta.lastDurable, meta.viewGen + 1,
                 Sum(k, s.w.patch));
    FirstPersistKeeps(k, Opening(s, root, meta.dirty, meta.generation, meta.lastDurable,
                                 meta.viewGen + 1, Sum(k, s.w.patch)), o);
  }

  /** Taking a root as it is makes its content the present one; finding damage means it was exposed. */
  lemma ReusedKeeps(k: Setup, s: State, r: RootId)
    requires Good(k, s) && s.mem.None? && Quiet(s.w) && Reopens(k, s.w, r)
    requires s.w.roots[r].base == Some(k.base)
    ensures var w := Reused(k, s.w, r);
      && Good(k, s.(w := w)) && Quiet(w) && Holds(k, w, r) && Intact(k, w, r)
      && MasksOf(w, r) == MasksOf(s.w, r) && w.meta == s.w.meta && w.nextRoot == s.w.nextRoot
  {
  }

  lemma RestoreKeeps(k: Setup, s: State, o: Oracle)
    requires Lawful(k) && Good(k, s) && s.mem.None? && s.w.meta.Some?
    ensures var r := Restore(k, s, o);
      && Between(k, r.st) && (r.ok ==> r.st.mem.Some?)
      && (r.st.mem.Some? ==> !r.st.mem.value.closed && !r.st.mem.value.busy)
  {
    var meta := s.w.meta.value;
    var c := At(o, s.tick);
    SyncKeeps(k, s, o);
    var s1 := Sync(k, s, o);
    if !c.ok || (meta.dirty && Alive(s1.w, c, meta.owner, meta.exec)) {
    } else if !meta.dirty {
      if !(meta.root in s1.w.roots || meta.checksum != Sum(k, s1.w.patch)) {
        OpenFreshKeeps(k, s1, o);
        var f := OpenFresh(k, s1, o);
        if f.ok { RegisterKeeps(k, f.st, meta, f.root, o); }
      }
    } else {
      DeadOnDiskIsQuiet(k, s1.w, c);
      if !(|| meta.root !in s1.w.roots || MasksOf(s1.w, meta.root) != {} || k.repoMode
           || s1.w.roots[meta.root].base != Some(k.base)) {
        ReusedKeeps(k, s1, meta.root);
        RegisterKeeps(k, s1.(w := Reused(k, s1.w, meta.root)), meta, meta.root, o);
      }
    }
  }

  lemma PublishNewKeeps(k: Setup, s: State, o: Oracle)
    requires Lawful(k) && Good(k, s) && s.mem.Some?
    requires !s.mem.value.busy && !s.mem.value.closed && !s.mem.value.dirty
    requires Intact(k, s.w, s.mem.value.root) && MasksOf(s.w, s.mem.value.root) == {}
    requires s.mem.value.masks == {}
    ensures var r := PublishNew(k, s, o);
      && Between(k, r.st) && (r.ok <==> r.st.mem.Some?)
      && (r.ok ==> !r.st.mem.value.closed && !r.st.mem.value.busy)
  {
    FirstPersistKeeps(k, s, o);
    var a := Persist(k, s, o);
    if !a.ok {
      assert Quiet(a.st.w) && Saved(k, a.st.w);
      RemoveRootKeeps(k, a.st.(mem := None), s.mem.value.root, true, o);
    }
  }

  lemma CreateKeeps(k: Setup, s: State, o: Oracle)
    requires Lawful(k) && Good(k, s) && s.mem.None? && s.w.meta.None?
    ensures var r := Create(k, s, o);
      && Between(k, r.st) && (r.ok ==> r.st.mem.Some?)
      && (r.ok ==> !r.st.mem.value.closed && !r.st.mem.value.busy)
  {
    assert Quiet(s.w) && Saved(k, s.w);
    OpenFreshKeeps(k, s, o);
    var f := OpenFresh(k, s, o);
    if f.ok {
      OpeningKeeps(k, f.st, f.root, false, 0, 0, 1, Sum(k, f.st.w.patch));
      PublishNewKeeps(k, Opening(f.st, f.root, false, 0, 0, 1, Sum(k, f.st.w.patch)), o);
    }
  }

  lemma LookupKeeps(k: Setup, s: State, o: Oracle)
    requires Lawful(k) && Between(k, s)
    ensures var r := Lookup(k, s, o);
      && Between(k, r.st)
      && (s.mem.Some? ==> r == Res(s, true))
  {
    if s.mem.None? {
      SyncKeeps(k, s, o);
      var s1 := Sync(k, s, o);
      if s1.w.meta.Some? && At(o, s.tick).ok { RestoreKeeps(k, s1, o); }
    }
  }

  lemma EnsureKeeps(k: Setup, s: State, sameConfig: bool, o: Oracle)
    requires Lawful(k) && Between(k, s)
    ensures var r := EnsureLocked(k, s, sameConfig, o);
      && Between(k, r.st)
      && (r.ok ==> r.st.mem.Some? && !r.st.mem.value.closed)
      && (r.ok && r.st.mem.value.busy ==> r.st.w.meta == Some(Snapshot(r.st.mem.value)))
  {
    if s.mem.Some? {
      if !(s.mem.value.closed || !sameConfig) { PersistBetween(k, s, o); }
    } else {
      SyncKeeps(k, s, o);
      var s1 := Sync(k, s, o);
      if s1.w.meta.None? { CreateKeeps(k, s1, o); }
      else if !(!At(o, s.tick).ok || !sameConfig) { RestoreKeeps(k, s1, o); }
    }
  }

  // ---------------------------------------------------------------- leases

  lemma AbortAcquireKeeps(k: Setup, s: State, masks: set<string>, o: Oracle)
    requires Good(k, s) && s.mem.Some? && !s.mem.value.busy && !s.mem.value.closed
    requires Intact(k, s.w, s.mem.value.root) && s.mem.value.masks == {}
    requires MasksOf(s.w, s.mem.value.root) <= masks
    ensures Between(k, AbortAcquire(k, s, masks, o))
  {
    var r := s.mem.value.root;
    UnmaskKeeps(k, s, r, masks, o);
    var a := Unmask(k, s, r, masks, o);
    if a.ok {
      assert MasksOf(a.st.w, r) == {};
    } else {
      var m := s.mem.value.(masks := masks, busy := true, owner := NOBODY, dirty := true);
      BusyKeeps(k, a.st, m);
      PersistKeeps(k, With(a.st, m), o);
      var b := Persist(k, With(a.st, m), o);
      TornKeeps(k, b.st);
    }
  }

  /** An idle session may be taken: with the same or a higher generation, by anybody. */
  lemma BusyKeeps(k: Setup, s: State, m: Mem)
    requires Good(k, s) && s.mem.Some? && !s.mem.value.busy && !s.mem.value.closed
    requires Intact(k, s.w, s.mem.value.root)
    requires m == s.mem.value.(masks := m.masks, busy := true, owner := m.owner, lease := m.lease,
                               generation := m.generation, dirty := true)
    requires m.generation > s.mem.value.generation
             || (m.generation == s.mem.value.generation && m.owner == NOBODY)
    ensures Good(k, With(s, m))
  {
  }

  lemma TornKeeps(k: Setup, s: State)
    requires Good(k, s)
    ensures Good(k, s.(w := NoteTorn(s.w)))
  {
  }

  lemma TakeLeaseKeeps(k: Setup, s: State, masks: set<string>, lease: Lease, owner: Proc, o: Oracle)
    requires Good(k, s) && s.mem.Some? && !s.mem.value.busy && !s.mem.value.closed
    requires Intact(k, s.w, s.mem.value.root) && s.mem.value.masks == {}
    requires MasksOf(s.w, s.mem.value.root) <= masks && owner != NOBODY
    ensures Between(k, TakeLease(k, s, masks, lease, owner, o).st)
  {
    var t := Taken(s, masks, lease, owner);
    BusyKeeps(k, s, t.mem.value);
    PersistKeeps(k, t, o);
    var a := Persist(k, t, o);
    if a.ok { GrantedBetween(k, a.st); } else { RefuseLeaseKeeps(k, s, a.st, o); }
  }

  lemma GrantedBetween(k: Setup, s: State)
    requires Good(k, s) && s.mem.Some? && s.mem.value.busy && s.mem.value.owner != NOBODY
    requires s.w.meta == Some(Snapshot(s.mem.value))
    requires MasksOf(s.w, s.mem.value.root) <= s.mem.value.masks
    ensures Between(k, Granted(s))
  {
    assert s.mem.value.dirty;
    GrantKeeps(k, s);
  }

  lemma RefuseLeaseKeeps(k: Setup, s: State, t: State, o: Oracle)
    requires Good(k, s) && s.mem.Some? && !s.mem.value.busy && !s.mem.value.closed
    requires s.mem.value.masks == {} && Quiet(s.w)
    requires Good(k, t) && t.mem.Some? && Follows(s, t) && t.w.patch == s.w.patch
    requires var m := t.mem.value;
      && m == s.mem.value.(masks := m.masks, busy := true, owner := m.owner, lease := m.lease,
                           generation := m.generation, dirty := true)
      && MasksOf(t.w, m.root) <= m.masks
    ensures Between(k, RefuseLease(k, t, s.mem.value.dirty, s.mem.value.generation, o))
  {
    var m := t.mem.value;
    UnmaskKeeps(k, t, m.root, m.masks, o);
    var b := Unmask(k, t, m.root, m.masks, o);
    if b.ok { RollbackKeeps(k, s, b.st, m); } else { TornKeeps(k, b.st); }
  }

  /** A refused lease leaves the session as it was, whatever reached the disk. */
  lemma RollbackKeeps(k: Setup, s: State, t: State, m: Mem)
    requires Good(k, s) && s.mem.Some? && !s.mem.value.busy && !s.mem.value.closed
    requires Good(k, t) && t.mem == Some(m) && t.w.patch == s.w.patch
    requires Quiet(t.w) && t.w.written == s.w.written && t.w.issued == s.w.issued
    requires t.w.life == s.w.life && t.w.incarnation == s.w.incarnation
    requires Intact(k, t.w, m.root) && MasksOf(t.w, m.root) == {} && s.mem.value.masks == {}
    requires m == s.mem.value.(masks := m.masks, busy := true, owner := m.owner, lease := m.lease,
                               generation := m.generation, dirty := true)
    ensures var prior := s.mem.value;
      var u := With(t, m.(masks := {}, busy := false, owner := NOBODY, lease := NO_LEASE,
                          dirty := prior.dirty, generation := prior.generation));
      Between(k, u) && u.mem == Some(prior)
  {
  }

  lemma AcquireKeeps(k: Setup, s: State, sameConfig: bool, lease: Lease, owner: Proc, o: Oracle)
    requires Lawful(k) && Between(k, s) && owner != NOBODY
    ensures Between(k, Acquire(k, s, sameConfig, lease, owner, o).st)
  {
    var a := EnsureLocked(k, s, sameConfig, o);
    EnsureKeeps(k, s, sameConfig, o);
    if a.ok {
      var b := RecoverBusy(k, a.st, o);
      RecoverBusyKeeps(k, a.st, o);
      if b.ok {
        if b.st.mem.value.busy {
          if lease != NO_LEASE && b.st.mem.value.lease == lease && b.st.mem.value.owner == owner {
            GrantedBetween(k, b.st);
          }
        } else {
          AcquireIdleKeeps(k, b.st, lease, owner, o);
        }
      }
    }
  }

  lemma AcquireIdleKeeps(k: Setup, s: State, lease: Lease, owner: Proc, o: Oracle)
    requires Between(k, s) && s.mem.Some? && !s.mem.value.busy && !s.mem.value.closed && owner != NOBODY
    ensures Between(k, AcquireIdle(k, s, lease, owner, o).st)
  {
    var c := At(o, s.tick);
    var d := Mask(k, s, o);
    MaskKeeps(k, s, o);
    if d.ok { TakeLeaseKeeps(k, d.st, c.maskMade, LeaseId(lease, c.nonce), owner, o); }
    else { AbortAcquireKeeps(k, d.st, c.maskMade, o); }
  }

  lemma AttachOpKeeps(k: Setup, s: State, lease: Lease, viewGen: nat, proc: Proc, o: Oracle)
    requires Between(k, s)
    ensures Between(k, Attach(k, s, lease, viewGen, proc, o).st)
  {
    if s.mem.None? { return; }
    var c := At(o, s.tick);
    SyncKeeps(k, s, o);
    var s1 := Sync(k, s, o);
    var m := s1.mem.value;
    if m.closed || !m.busy || m.lease != lease || lease == NO_LEASE { return; }
    if viewGen == 0 || viewGen != m.viewGen { return; }
    if proc == NOBODY || !c.ok || m.owner == NOBODY || m.owner in s1.w.dead { return; }
    if m.exec != NOBODY && m.exec != proc { return; }
    NameGroupKeeps(k, s1, proc);
    var t := With(s1, m.(exec := proc));
    PersistBetween(k, t, o);
    var a := Persist(k, t, o);
    if a.ok && proc !in a.st.w.dead { AttachKeeps(k, a.st, proc); }
  }

  lemma NameGroupKeeps(k: Setup, s: State, proc: Proc)
    requires Between(k, s) && s.mem.Some? && s.mem.value.busy
    requires s.mem.value.exec == NOBODY || s.mem.value.exec == proc
    ensures Between(k, With(s, s.mem.value.(exec := proc)))
  {
  }

  lemma ReleaseKeeps(k: Setup, s: State, lease: Lease, viewGen: nat, o: Oracle)
    requires Lawful(k) && Between(k, s)
    ensures Between(k, Release(k, s, lease, viewGen, o).st)
  {
    if s.mem.None? { return; }
    var c := At(o, s.tick);
    SyncKeeps(k, s, o);
    var s1 := Sync(k, s, o);
    var m := s1.mem.value;
    if m.closed || (viewGen != 0 && viewGen != m.viewGen) || !m.busy || m.lease != lease { return; }
    if Alive(s1.w, c, NOBODY, m.exec) { return; }
    RelinquishKeeps(k, s1);
    FinishBusyKeeps(k, Commit(s1, Relinquish(s1.w, lease)), o);
  }

  // ---------------------------------------------------------------- the other requests

  lemma MarkDirtyKeeps(k: Setup, s: State, o: Oracle)
    requires Lawful(k) && Between(k, s)
    ensures Between(k, MarkDirty(k, s, o).st)
  {
    var a := Lookup(k, s, o);
    LookupKeeps(k, s, o);
    if a.ok && a.st.mem.Some? && !a.st.mem.value.closed && !a.st.mem.value.busy {
      ChangedKeeps(k, a.st);
      PersistBetween(k, Changed(a.st), o);
    }
  }

  lemma ChangedKeeps(k: Setup, s: State)
    requires Between(k, s) && s.mem.Some? && !s.mem.value.closed && !s.mem.value.busy
    ensures Between(k, Changed(s))
  {
    DirtyKeeps(k, s, s.mem.value.generation + 1);
  }

  /** A saved session is marked closed before its root goes. */
  lemma CloseKeeps(k: Setup, s: State)
    requires Between(k, s) && s.mem.Some? && !s.mem.value.dirty
    ensures var t := With(s, s.mem.value.(closed := true));
      Between(k, t) && Quiet(t.w) && Saved(k, t.w)
      && (Whole(t.w, s.mem.value.root) ==> Holds(k, t.w, s.mem.value.root))
  {
  }

  lemma EndLockedKeeps(k: Setup, s: State, o: Oracle)
    requires Lawful(k) && Between(k, s) && s.mem.Some?
    ensures Between(k, EndLocked(k, s, o).st)
  {
    var a := if s.mem.value.closed then Res(s, true) else FlushLocked(k, s, false, o);
    if !s.mem.value.closed { FlushLockedKeeps(k, s, false, o); }
    if a.ok {
      CloseKeeps(k, a.st);
      EndCleanupKeeps(k, With(a.st, a.st.mem.value.(closed := true)), o);
    }
  }

  lemma EndCleanupKeeps(k: Setup, s: State, o: Oracle)
    requires Lawful(k) && Between(k, s) && s.mem.Some? && s.mem.value.closed && !s.mem.value.dirty
    ensures Between(k, EndCleanup(k, s, o).st)
  {
    assert InMemory(k, s.w, s.mem.value);
    var m := s.mem.value;
    RemoveRootKeeps(k, s, m.root, true, o);
    var b := RemoveRoot(k, s, m.root, true, o);
    assert Between(k, b.st);
    if !b.ok { PersistBetween(k, b.st, o); } else { RemoveMetaKeeps(k, b.st, o); }
  }

  lemma RecoverRootKeeps(k: Setup, s: State, meta: Meta, o: Oracle)
    requires Lawful(k) && Good(k, s) && s.mem.None? && s.w.meta == Some(meta) && Quiet(s.w)
    ensures Between(k, RecoverRoot(k, s, meta, o).st)
  {
    var b := Unmask(k, s, meta.root, MasksOf(s.w, meta.root), o);
    UnmaskKeeps(k, s, meta.root, MasksOf(s.w, meta.root), o);
    if b.ok {
      if meta.dirty { RestoreKeeps(k, b.st, o); }
      else {
        RemoveRootKeeps(k, b.st, meta.root, false, o);
        var d := RemoveRoot(k, b.st, meta.root, false, o);
        if d.ok { RestoreKeeps(k, d.st, o); }
      }
    }
  }

  lemma RecoverKeeps(k: Setup, s: State, dryRun: bool, o: Oracle)
    requires Lawful(k) && Between(k, s)
    ensures Between(k, Recover(k, s, dryRun, o).st)
  {
    if s.mem.Some? { return; }
    var c := At(o, s.tick);
    var s1 := Sync(k, s, o);
    SyncKeeps(k, s, o);
    if s1.w.meta.None? || !c.ok || dryRun { return; }
    var meta := s1.w.meta.value;
    if Alive(s1.w, c, meta.owner, meta.exec) { return; }
    DeadOnDiskIsQuiet(k, s1.w, c);
    if !meta.dirty && meta.checksum != Sum(k, s1.w.patch) { return; }
    if meta.root !in s1.w.roots {
      if !meta.dirty { RestoreKeeps(k, s1, o); }
    } else if Usable(s1.w, meta.root) {
      RecoverRootKeeps(k, s1, meta, o);
    }
  }

  lemma PreserveKeeps(k: Setup, s: State, o: Oracle)
    requires Good(k, s) && s.mem.Some?
    ensures Between(k, Preserve(k, s, o).st)
  {
    PersistKeeps(k, s, o);
  }

  lemma CloseCleanupKeeps(k: Setup, s: State, o: Oracle)
    requires Lawful(k) && Good(k, s) && s.mem.Some? && !s.mem.value.dirty
    ensures Between(k, CloseCleanup(k, s, o).st)
  {
    assert InMemory(k, s.w, s.mem.value);
    RemoveRootKeeps(k, s, s.mem.value.root, true, o);
    var b := RemoveRoot(k, s, s.mem.value.root, true, o);
    if !b.ok { PreserveKeeps(k, b.st, o); }
  }

  lemma CloseOpKeeps(k: Setup, s: State, o: Oracle)
    requires Lawful(k) && Between(k, s)
    ensures Between(k, Close(k, s, o).st)
  {
    if s.mem.None? { return; }
    var c := At(o, s.tick);
    var s1 := Sync(k, s, o);
    SyncKeeps(k, s, o);
    var m := s1.mem.value;
    if m.closed { CloseCleanupKeeps(k, s1, o); }
    else if m.busy {
      if Alive(s1.w, c, m.owner, m.exec) { PreserveKeeps(k, s1, o); }
      else {
        DeadIsQuiet(k, s1.w, m, c);
        FinishBusyKeeps(k, s1, o);
        var a := FinishBusy(k, s1, o);
        if a.ok { CloseCleanupKeeps(k, a.st, o); } else { PreserveKeeps(k, a.st, o); }
      }
    } else if m.dirty {
      FlushLockedKeeps(k, s1, false, o);
      var a := FlushLocked(k, s1, false, o);
      if a.ok { CloseCleanupKeeps(k, a.st, o); } else { PreserveKeeps(k, a.st, o); }
    } else { CloseCleanupKeeps(k, s1, o); }
  }

  // ---------------------------------------------------------------- any request

  lemma DoKeeps(k: Setup, s: State, op: Op, o: Oracle)
    requires Lawful(k) && Between(k, s)
    ensures Between(k, Do(k, s, op, o).st)
  {
    match op
    case OpEnsure(same) => EnsureKeeps(k, s, same, o);
    case OpAcquire(same, lease, owner) => if owner != NOBODY { AcquireKeeps(k, s, same, lease, owner, o); }
    case OpAttach(lease, viewGen, proc) => AttachOpKeeps(k, s, lease, viewGen, proc, o);
    case OpRelease(lease, viewGen) => ReleaseKeeps(k, s, lease, viewGen, o);
    case OpMarkDirty => MarkDirtyKeeps(k, s, o);
    case OpFlush(recent) => LookupThenFlushKeeps(k, s, recent, o);
    case OpEnd => LookupThenEndKeeps(k, s, o);
    case OpPrune(idle) => LookupThenPruneKeeps(k, s, idle, o);
    case OpList => LookupThenListKeeps(k, s, o);
    case OpRecover(dryRun) => RecoverKeeps(k, s, dryRun, o);
    case OpClose => CloseOpKeeps(k, s, o);
  }

  lemma LookupThenFlushKeeps(k: Setup, s: State, recent: bool, o: Oracle)
    requires Lawful(k) && Between(k, s)
    ensures Between(k, Flush(k, s, recent, o).st)
  {
    LookupKeeps(k, s, o);
    var a := Lookup(k, s, o);
    if a.ok && a.st.mem.Some? { FlushLockedKeeps(k, a.st, recent, o); }
  }

  lemma LookupThenEndKeeps(k: Setup, s: State, o: Oracle)
    requires Lawful(k) && Between(k, s)
    ensures Between(k, End(k, s, o).st)
  {
    LookupKeeps(k, s, o);
    var a := Lookup(k, s, o);
    if a.ok && a.st.mem.Some? { EndLockedKeeps(k, a.st, o); }
  }

  lemma PruneLockedKeeps(k: Setup, s: State, idle: bool, o: Oracle)
    requires Lawful(k) && Between(k, s) && s.mem.Some?
    ensures Between(k, PruneLocked(k, s, idle, o).st)
  {
    RecoverBusyKeeps(k, s, o);
    var b := RecoverBusy(k, s, o);
    if b.ok && !b.st.mem.value.busy && idle { EndLockedKeeps(k, b.st, o); }
  }

  lemma LookupThenPruneKeeps(k: Setup, s: State, idle: bool, o: Oracle)
    requires Lawful(k) && Between(k, s)
    ensures Between(k, Prune(k, s, idle, o).st)
  {
    LookupKeeps(k, s, o);
    var a := Lookup(k, s, o);
    if a.ok && a.st.mem.Some? { PruneLockedKeeps(k, a.st, idle, o); }
  }

  lemma LookupThenListKeeps(k: Setup, s: State, o: Oracle)
    requires Lawful(k) && Between(k, s)
    ensures Between(k, List(k, s, o).st)
  {
    LookupKeeps(k, s, o);
    var a := Lookup(k, s, o);
    if a.ok && a.st.mem.Some? { RecoverBusyKeeps(k, a.st, o); }
  }
}
