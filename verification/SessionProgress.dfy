/**
 When the requests about a lease succeed, exactly, and what they then have done.  Each effect of
 the daemon uses up one choice of the oracle, so the n-th effect fails as `At(o, s.tick + n)` says.
 */
module SessionProgress {
  import opened Common
  import opened SessionModel
  import opened SessionSpec
  import opened SessionInvariant
  import opened SessionOps

  /** The file or root the effect replaces, creates or removes is in place, without an error. */
  predicate Lands(o: Oracle, n: nat) {
    At(o, n).fate == Done
  }

  /** The process is recorded as gone: there is none, or it is dead and is found to be. */
  predicate Departed(w: World, c: Choice, p: Proc) {
    p == NOBODY || (p in w.dead && !c.spurious)
  }

  // ---------------------------------------------------------------- single effects

  /** The daemon has changed nothing but metadata, patch and masks; others may have died or written. */
  ghost predicate Beside(w: World, v: World, r: RootId) {
    (&& v.life == w.life && v.incarnation == w.incarnation && v.issued == w.issued && v.nextRoot == w.nextRoot
     && w.dead <= v.dead && v.leases <= w.leases && v.groups <= w.groups && v.roots.Keys == w.roots.Keys
     && (r in w.roots ==> v.roots[r].base == w.roots[r].base)) == true
  }

  lemma BesideThen(w: World, u: World, v: World, r: RootId)
    requires Beside(w, u, r) && Beside(u, v, r)
    ensures Beside(w, v, r)
  {
  }

  lemma SyncExactly(k: Setup, s: State, o: Oracle)
    requires s.mem.Some?
    ensures var t := Sync(k, s, o); var r := s.mem.value.root;
      && t.tick == s.tick + 1 && t.mem == s.mem && Beside(s.w, t.w, r)
      && t.w.meta == s.w.meta && t.w.patch == s.w.patch && MasksOf(t.w, r) == MasksOf(s.w, r)
  {
  }

  lemma PersistExactly(k: Setup, s: State, o: Oracle)
    requires s.mem.Some? && ValidMeta(Snapshot(s.mem.value))
    ensures var r := Persist(k, s, o); var x := s.mem.value.root;
      && (r.ok <==> Lands(o, s.tick))
      && r.st.tick == s.tick + 1 && r.st.mem == s.mem && Beside(s.w, r.st.w, x)
      && r.st.w.patch == s.w.patch && MasksOf(r.st.w, x) == MasksOf(s.w, x)
      && (r.ok ==> r.st.w.meta == Some(Snapshot(s.mem.value)))
  {
    SyncExactly(k, s, o);
  }

  lemma WritePatchExactly(k: Setup, s: State, o: Oracle)
    requires s.mem.Some? && Usable(s.w, s.mem.value.root)
    ensures var r := WritePatch(k, s, o); var m := s.mem.value;
      && (r.ok <==> Lands(o, s.tick))
      && r.st.tick == s.tick + 1 && Beside(s.w, r.st.w, m.root)
      && r.st.w.meta == s.w.meta && MasksOf(r.st.w, m.root) == MasksOf(s.w, m.root)
      && r.st.mem == Some(m.(checksum := if r.ok then Sum(k, r.st.w.patch) else m.checksum))
  {
    SyncExactly(k, s, o);
  }

  lemma UnmaskExactly(k: Setup, s: State, masks: set<string>, o: Oracle)
    requires s.mem.Some?
    ensures var x := s.mem.value.root; var u := Unmask(k, s, x, masks, o);
      && (u.ok <==> At(o, s.tick).unmaskErrors * masks == {})
      && u.st.tick == s.tick + 1 && u.st.mem == s.mem && Beside(s.w, u.st.w, x)
      && u.st.w.meta == s.w.meta && u.st.w.patch == s.w.patch
  {
    SyncExactly(k, s, o);
  }

  lemma MaskExactly(k: Setup, s: State, o: Oracle)
    requires s.mem.Some? && s.mem.value.root in s.w.roots && MasksOf(s.w, s.mem.value.root) == {}
    ensures var x := s.mem.value.root; var c := At(o, s.tick); var u := Mask(k, s, o);
      && (u.ok <==> c.ok)
      && u.st.tick == s.tick + 1 && u.st.mem == s.mem && Beside(s.w, u.st.w, x)
      && u.st.w.meta == s.w.meta && u.st.w.patch == s.w.patch && MasksOf(u.st.w, x) == c.maskMade
  {
    SyncExactly(k, s, o);
    assert {} + At(o, s.tick).maskMade == At(o, s.tick).maskMade;
  }

  /** The root goes, base worktree and all, without an error; in repository mode there is no worktree. */
  predicate RemovalWorks(k: Setup, c: Choice) {
    c.extent.Gone? && c.fate == Done && (c.keepsBase ==> k.repoMode)
  }

  lemma RemoveExactly(k: Setup, s: State, r: RootId, o: Oracle)
    requires MasksOf(s.w, r) == {}
    ensures var d := RemoveRoot(k, s, r, true, o);
      && (d.ok <==> RemovalWorks(k, At(o, s.tick)))
      && d.st.tick == s.tick + 1 && d.st.mem == s.mem && d.st.w.meta == s.w.meta && d.st.w.patch == s.w.patch
      && (d.ok ==> r !in d.st.w.roots)
  {
  }

  // ---------------------------------------------------------------- finishing a lease

  /** The idle session that finishing a lease leaves: nobody holds it, and it is saved. */
  function Freed(m: Mem, checksum: int): Mem {
    m.(masks := {}, busy := false, owner := NOBODY, exec := NOBODY, lease := NO_LEASE,
       dirty := false, lastDurable := m.generation, checksum := checksum)
  }

  /** A lease is finished exactly when export, unmounting and the metadata write all work. */
  predicate FinishWorks(o: Oracle, n: nat, masks: set<string>) {
    Lands(o, n) && At(o, n + 1).unmaskErrors * masks == {} && Lands(o, n + 2)
  }

  /** Where a finish that fails stops: still busy with its masks, or idle and dirty. */
  predicate Unfinished(m: Mem, n: Mem, unmounted: bool) {
    && n.dirty && n.generation == m.generation && n.viewGen == m.viewGen && n.root == m.root
    && (!unmounted ==> n == m.(dirty := true, checksum := n.checksum))
    && (unmounted ==> !n.busy && n.owner == NOBODY && n.exec == NOBODY && n.lease == NO_LEASE && n.masks == {})
  }

  /** What finishing the lease of `m` must amount to. */
  ghost predicate Finishes(k: Setup, s: State, m: Mem, r: Res, o: Oracle) {
    (&& r.st.mem.Some? && r.st.tick == s.tick + 3 && Beside(s.w, r.st.w, m.root)
     && (r.ok <==> FinishWorks(o, s.tick, m.masks))
     && (r.ok ==> FinishedAs(k, m, r.st))
     && (!r.ok ==> Unfinished(m, r.st.mem.value, At(o, s.tick + 1).unmaskErrors * m.masks == {}))) == true
  }

  /** The session is released, and metadata with the checksum of the patch says so. */
  predicate FinishedAs(k: Setup, m: Mem, t: State) {
    t.mem == Some(Freed(m, Sum(k, t.w.patch))) && t.w.meta == Some(Snapshot(t.mem.value))
  }

  lemma FinishBusyExactly(k: Setup, s: State, o: Oracle)
    requires s.mem.Some? && Usable(s.w, s.mem.value.root) && s.mem.value.lastDurable <= s.mem.value.generation
    ensures Finishes(k, s, s.mem.value, FinishBusy(k, s, o), o)
  {
    var a := WritePatch(k, s, o);
    WritePatchExactly(k, s, o);
    FinishUnmaskExactly(k, a.st, a.ok, o);
    FinishExported(k, s, s.mem.value, a, FinishUnmask(k, a.st, a.ok, o), o);
    assert FinishBusy(k, s, o) == FinishUnmask(k, a.st, a.ok, o);
  }

  lemma FinishExported(k: Setup, s: State, m: Mem, a: Res, r: Res, o: Oracle)
    requires a.st.tick == s.tick + 1 && Beside(s.w, a.st.w, m.root) && (a.ok <==> Lands(o, s.tick))
    requires a.st.mem == Some(m.(checksum := if a.ok then Sum(k, a.st.w.patch) else m.checksum))
    requires UnmaskFinishes(a.st, a.st.mem.value, a.ok, r, o)
    ensures Finishes(k, s, m, r, o)
  {
    BesideThen(s.w, a.st.w, r.st.w, m.root);
  }

  /** The same from the moment the view was exported, or not. */
  ghost predicate UnmaskFinishes(s: State, m: Mem, exported: bool, r: Res, o: Oracle) {
    var unmounted := At(o, s.tick).unmaskErrors * m.masks == {};
    (&& (r.ok <==> exported && unmounted && Lands(o, s.tick + 1))
     && r.st.tick == s.tick + 2 && Beside(s.w, r.st.w, m.root) && r.st.w.patch == s.w.patch && r.st.mem.Some?
     && (r.ok ==> r.st.w.meta == Some(Snapshot(r.st.mem.value)))
     && r.st.mem.value == (if unmounted then Idle(m, exported).(dirty := !r.ok) else m.(dirty := true))) == true
  }

  lemma FinishUnmaskExactly(k: Setup, s: State, exported: bool, o: Oracle)
    requires s.mem.Some? && s.mem.value.lastDurable <= s.mem.value.generation
    ensures UnmaskFinishes(s, s.mem.value, exported, FinishUnmask(k, s, exported, o), o)
  {
    var m := s.mem.value;
    var b := Unmask(k, s, m.root, m.masks, o);
    UnmaskExactly(k, s, m.masks, o);
    if b.ok {
      EndLeaseExactly(k, b.st, exported, o);
      BesideThen(s.w, b.st.w, EndLease(k, b.st, exported, o).st.w, m.root);
    } else {
      PersistExactly(k, With(b.st, m.(dirty := true)), o);
      BesideThen(s.w, b.st.w, Persist(k, With(b.st, m.(dirty := true)), o).st.w, m.root);
    }
  }

  lemma EndLeaseExactly(k: Setup, s: State, exported: bool, o: Oracle)
    requires s.mem.Some? && s.mem.value.lastDurable <= s.mem.value.generation
    ensures var r := EndLease(k, s, exported, o); var m, n := s.mem.value, r.st.mem.value;
      && (r.ok <==> exported && Lands(o, s.tick))
      && r.st.tick == s.tick + 1 && Beside(s.w, r.st.w, m.root) && r.st.w.patch == s.w.patch
      && n == Idle(m, exported).(dirty := !r.ok)
      && (r.ok ==> r.st.w.meta == Some(Snapshot(n)))
  {
    PersistExactly(k, With(s, Idle(s.mem.value, exported)), o);
  }

  // ---------------------------------------------------------------- release

  /** The request names the lease of an open session, and its view if it names one. */
  predicate ReleaseFits(m: Mem, lease: Lease, viewGen: nat) {
    !m.closed && m.busy && m.lease == lease && (viewGen == 0 || viewGen == m.viewGen)
  }

  /**
   A release succeeds exactly when it fits, the recorded command group is gone, and the lease can be
   finished; whether the owner lives plays no part.  When it does not fit, or the group is still
   there, nothing is changed.
   */
  lemma ReleaseExactly(k: Setup, s: State, lease: Lease, viewGen: nat, o: Oracle)
    requires Between(k, s) && s.mem.Some?
    ensures var r := Release(k, s, lease, viewGen, o); var m := s.mem.value; var s1 := Sync(k, s, o);
      var may := ReleaseFits(m, lease, viewGen) && Departed(s1.w, At(o, s.tick), m.exec);
      && (r.ok <==> may && FinishWorks(o, s.tick + 1, m.masks))
      && (!may ==> r.st == s1)
      && (r.ok ==> FinishedAs(k, m, r.st) && r.st.w.issued == s.w.issued)
      && (may && !r.ok ==>
            r.st.mem.Some? && Unfinished(m, r.st.mem.value, At(o, s.tick + 2).unmaskErrors * m.masks == {}))
  {
    var m, c, s1 := s.mem.value, At(o, s.tick), Sync(k, s, o);
    SyncExactly(k, s, o);
    OpenFacts(k, s);
    if ReleaseFits(m, lease, viewGen) && Departed(s1.w, c, m.exec) {
      var t := Commit(s1, Relinquish(s1.w, lease));
      assert Release(k, s, lease, viewGen, o) == FinishBusy(k, t, o);
      FinishBusyExactly(k, t, o);
    }
  }

  /** What the invariant says of a session that is open. */
  lemma OpenFacts(k: Setup, s: State)
    requires Between(k, s) && s.mem.Some?
    ensures var m := s.mem.value;
      && ValidMeta(Snapshot(m)) && m.viewGen > 0
      && (m.closed ==> !m.busy) && (!m.closed ==> Usable(s.w, m.root) && m.root in s.w.roots)
      && (!m.busy ==> IdleFacts(s.w, m))
      && (forall g :: g in s.w.issued && g.life == s.w.life ==> g.generation <= m.generation)
  {
  }

  /** An idle session has no writer, no masks and no recorded process. */
  ghost predicate IdleFacts(w: World, m: Mem) {
    && w.leases == {} && w.groups == {} && MasksOf(w, m.root) == {} && m.masks == {}
    && m.owner == NOBODY && m.exec == NOBODY && m.lease == NO_LEASE
  }

  // ---------------------------------------------------------------- acquire

  /**
   `owner` holds the lease it asked for, or a fresh one, of the session that was idle as `m`: the
   generation is the next one, the metadata on disk says so, and exactly its grant is outstanding.
   */
  ghost predicate HoldsLease(before: World, m: Mem, t: State, lease: Lease, owner: Proc, masks: set<string>) {
    (&& t.mem.Some?
    && var n := t.mem.value;
    && n == m.(busy := true, owner := owner, lease := n.lease, dirty := true,
               generation := m.generation + 1, masks := masks)
    && n.lease != NO_LEASE && (lease != NO_LEASE ==> n.lease == lease)
    && MasksOf(t.w, m.root) == masks
    && t.w.meta == Some(Meta(m.root, true, m.generation + 1, m.lastDurable, m.viewGen, owner, NOBODY, m.checksum))
    && var g := Grant(n.lease, owner, m.generation + 1, m.viewGen, m.root, before.life, before.incarnation);
    && t.w.issued == before.issued + [g]
    && t.w.leases == (if owner in t.w.dead then {} else {g}) && t.w.groups == {}) == true
  }

  /** Masking, and then the metadata write, decide whether an idle session is leased. */
  predicate LeaseWorks(o: Oracle, n: nat) {
    At(o, n).ok && Lands(o, n + 1)
  }

  /** An idle session that can be leased: nobody writes, and its generation is the highest issued. */
  ghost predicate Leasable(w: World, m: Mem) {
    && !m.busy && m.root in w.roots && IdleFacts(w, m) && m.lastDurable <= m.generation
    && forall g :: g in w.issued && g.life == w.life ==> g.generation <= m.generation
  }

  lemma AcquireIdleExactly(k: Setup, s: State, lease: Lease, owner: Proc, o: Oracle)
    requires s.mem.Some? && Leasable(s.w, s.mem.value)
    ensures var r := AcquireIdle(k, s, lease, owner, o);
      && (r.ok <==> LeaseWorks(o, s.tick))
      && (r.ok ==> HoldsLease(s.w, s.mem.value, r.st, lease, owner, At(o, s.tick).maskMade)
                   && r.st.w.patch == s.w.patch)
  {
    MaskExactly(k, s, o);
    var c, d := At(o, s.tick), Mask(k, s, o);
    assert d.ok ==> AcquireIdle(k, s, lease, owner, o)
                    == TakeLease(k, d.st, c.maskMade, LeaseId(lease, c.nonce), owner, o);
    if d.ok { TakeLeaseExactly(k, s.w, d.st, c.maskMade, LeaseId(lease, c.nonce), lease, owner, o); }
  }

  lemma TakeLeaseExactly(k: Setup, w: World, s: State, masks: set<string>, lease: Lease, asked: Lease, owner: Proc,
                         o: Oracle)
    requires s.mem.Some? && s.w.leases == {} && s.w.groups == {} && MasksOf(s.w, s.mem.value.root) == masks
    requires s.mem.value.exec == NOBODY && s.mem.value.lastDurable <= s.mem.value.generation
    requires forall g :: g in s.w.issued && g.life == s.w.life ==> g.generation <= s.mem.value.generation
    requires w.issued == s.w.issued && w.life == s.w.life && w.incarnation == s.w.incarnation
    requires lease != NO_LEASE && (asked != NO_LEASE ==> lease == asked)
    ensures var r := TakeLease(k, s, masks, lease, owner, o);
      && (r.ok <==> Lands(o, s.tick))
      && (r.ok ==> HoldsLease(w, s.mem.value, r.st, asked, owner, masks) && r.st.w.patch == s.w.patch)
  {
    PersistExactly(k, Taken(s, masks, lease, owner), o);
  }

  /** Neither the owner of the lease nor its command group is left. */
  predicate WritersGone(w: World, m: Mem, c: Choice) {
    Departed(w, c, m.owner) && Departed(w, c, m.exec)
  }

  /** When an open session is given to who asks, as the processes stand when a busy one is looked at. */
  predicate GivesLease(w: World, m: Mem, lease: Lease, owner: Proc, o: Oracle, n: nat) {
    if !m.busy then LeaseWorks(o, n)
    else if WritersGone(w, m, At(o, n)) then FinishWorks(o, n + 1, m.masks) && LeaseWorks(o, n + 4)
    else lease != NO_LEASE && lease == m.lease && owner == m.owner
  }

  /** What then holds: the session is leased as it was idle, or as the dead lease left it; or nothing changed. */
  ghost predicate LeaseGiven(k: Setup, before: World, m: Mem, w: World, t: State, lease: Lease, owner: Proc,
                             o: Oracle, n: nat)
  {
    if !m.busy then HoldsLease(before, m, t, lease, owner, At(o, n).maskMade)
    else if WritersGone(w, m, At(o, n)) then
      HoldsLease(before, Freed(m, Sum(k, t.w.patch)), t, lease, owner, At(o, n + 4).maskMade)
    else ToldAgain(w, m, t)
  }

  /** The holder learns of its lease once more: the session is as it was. */
  ghost predicate ToldAgain(w: World, m: Mem, t: State) {
    (var g := CurrentGrant(w, m);
     && t.mem == Some(m) && t.w.meta == w.meta && t.w.patch == w.patch && t.w.roots == w.roots
     && g in t.w.issued && w.issued <= t.w.issued && t.w.groups == w.groups
     && t.w.leases == (if m.owner in w.dead then w.leases else w.leases + {g})) == true
  }

  /**
   The answer `r` to an acquire of the open session `m`: exactly when it is given, and what then holds.
   `s1` is the moment the writers of a busy session are looked for.
   */
  ghost predicate Answers(k: Setup, s: State, m: Mem, s1: State, lease: Lease, owner: Proc, o: Oracle, r: Res) {
    (&& (r.ok <==> GivesLease(s1.w, m, lease, owner, o, s.tick))
     && (r.ok ==> LeaseGiven(k, s.w, m, s1.w, r.st, lease, owner, o, s.tick))
     && (!r.ok && m.busy && !WritersGone(s1.w, m, At(o, s.tick)) ==> r.st == s1)) == true
  }

  lemma AcquireOpenExactly(k: Setup, s: State, lease: Lease, owner: Proc, o: Oracle)
    requires Lawful(k) && Between(k, s) && s.mem.Some? && !s.mem.value.closed
    ensures Answers(k, s, s.mem.value, Sync(k, s, o), lease, owner, o, AcquireOpen(k, s, lease, owner, o))
  {
    OpenFacts(k, s);
    if !s.mem.value.busy {
      AcquireIdleExactly(k, s, lease, owner, o);
      assert AcquireOpen(k, s, lease, owner, o) == AcquireIdle(k, s, lease, owner, o);
      IdleAnswers(k, s, Sync(k, s, o), lease, owner, o, AcquireIdle(k, s, lease, owner, o));
    } else if WritersGone(Sync(k, s, o).w, s.mem.value, At(o, s.tick)) {
      AcquireDeadExactly(k, s, lease, owner, o);
    } else {
      AcquireHeldExactly(k, s, lease, owner, o);
    }
  }

  lemma IdleAnswers(k: Setup, s: State, s1: State, lease: Lease, owner: Proc, o: Oracle, r: Res)
    requires s.mem.Some? && !s.mem.value.busy && (r.ok <==> LeaseWorks(o, s.tick))
    requires r.ok ==> HoldsLease(s.w, s.mem.value, r.st, lease, owner, At(o, s.tick).maskMade)
    ensures Answers(k, s, s.mem.value, s1, lease, owner, o, r)
  {
  }

  /** Of a lease with a living writer only its holder is told again; for everybody else nothing happens. */
  lemma AcquireHeldExactly(k: Setup, s: State, lease: Lease, owner: Proc, o: Oracle)
    requires s.mem.Some? && s.mem.value.busy && !WritersGone(Sync(k, s, o).w, s.mem.value, At(o, s.tick))
    ensures Answers(k, s, s.mem.value, Sync(k, s, o), lease, owner, o, AcquireOpen(k, s, lease, owner, o))
  {
    var m, s1 := s.mem.value, Sync(k, s, o);
    assert RecoverBusy(k, s, o) == Res(s1, true);
    var held := lease != NO_LEASE && lease == m.lease && owner == m.owner;
    assert AcquireOpen(k, s, lease, owner, o) == if held then Res(Granted(s1), true) else Res(s1, false);
    GrantedTellsAgain(s1, m);
    HeldAnswers(k, s, s1, lease, owner, o, if held then Res(Granted(s1), true) else Res(s1, false));
  }

  lemma HeldAnswers(k: Setup, s: State, s1: State, lease: Lease, owner: Proc, o: Oracle, r: Res)
    requires s.mem.Some? && s.mem.value.busy && !WritersGone(s1.w, s.mem.value, At(o, s.tick))
    requires r.ok <==> lease != NO_LEASE && lease == s.mem.value.lease && owner == s.mem.value.owner
    requires if r.ok then ToldAgain(s1.w, s.mem.value, r.st) else r.st == s1
    ensures Answers(k, s, s.mem.value, s1, lease, owner, o, r)
  {
  }

  lemma GrantedTellsAgain(s: State, m: Mem)
    requires s.mem == Some(m)
    ensures ToldAgain(s.w, m, Granted(s))
  {
  }

  /** A dead lease is finished and the session leased anew. */
  lemma AcquireDeadExactly(k: Setup, s: State, lease: Lease, owner: Proc, o: Oracle)
    requires Lawful(k) && Between(k, s) && s.mem.Some? && !s.mem.value.closed && s.mem.value.busy
    requires WritersGone(Sync(k, s, o).w, s.mem.value, At(o, s.tick))
    ensures Answers(k, s, s.mem.value, Sync(k, s, o), lease, owner, o, AcquireOpen(k, s, lease, owner, o))
  {
    var f := RecoverBusy(k, s, o);
    RecoverDeadExactly(k, s, o);
    if f.ok {
      RecoverBusyKeeps(k, s, o);
      OpenFacts(k, f.st);
      AcquireIdleExactly(k, f.st, lease, owner, o);
      assert AcquireOpen(k, s, lease, owner, o) == AcquireIdle(k, f.st, lease, owner, o);
    }
    DeadAnswers(k, s, Sync(k, s, o), f, lease, owner, o, AcquireOpen(k, s, lease, owner, o));
  }

  lemma DeadAnswers(k: Setup, s: State, s1: State, f: Res, lease: Lease, owner: Proc, o: Oracle, r: Res)
    requires s.mem.Some? && s.mem.value.busy && WritersGone(s1.w, s.mem.value, At(o, s.tick))
    requires f.ok <==> FinishWorks(o, s.tick + 1, s.mem.value.masks)
    requires r.ok <==> f.ok && LeaseWorks(o, s.tick + 4)
    requires f.ok ==> FinishedAs(k, s.mem.value, f.st) && Beside(s.w, f.st.w, s.mem.value.root)
    requires r.ok ==> r.st.w.patch == f.st.w.patch
    requires r.ok ==> HoldsLease(f.st.w, f.st.mem.value, r.st, lease, owner, At(o, s.tick + 4).maskMade)
    ensures Answers(k, s, s.mem.value, s1, lease, owner, o, r)
  {
    if r.ok {
      var idle := Freed(s.mem.value, Sum(k, r.st.w.patch));
      assert HoldsLease(s.w, idle, r.st, lease, owner, At(o, s.tick + 4).maskMade);
    }
  }

  /** A lease without living writers is finished when the session is next looked at. */
  lemma RecoverDeadExactly(k: Setup, s: State, o: Oracle)
    requires Between(k, s) && s.mem.Some? && s.mem.value.busy
    requires WritersGone(Sync(k, s, o).w, s.mem.value, At(o, s.tick))
    ensures var r := RecoverBusy(k, s, o); var m := s.mem.value;
      && (r.ok <==> FinishWorks(o, s.tick + 1, m.masks)) && r.st.tick == s.tick + 4
      && (r.ok ==> FinishedAs(k, m, r.st)) && Beside(s.w, r.st.w, m.root)
  {
    SyncExactly(k, s, o);
    OpenFacts(k, s);
    var s1 := Sync(k, s, o);
    FinishBusyExactly(k, s1, o);
    assert RecoverBusy(k, s, o) == FinishBusy(k, s1, o);
    BesideThen(s.w, s1.w, FinishBusy(k, s1, o).st.w, s.mem.value.root);
  }

  /** A lease that could not be taken: undone exactly when its masks came off, else kept as busy with them. */
  predicate Undone(m: Mem, t: State, masks: set<string>, unmounted: bool) {
    && t.mem.Some?
    && if unmounted then t.mem.value == m && MasksOf(t.w, m.root) == {}
       else t.mem.value.busy && t.mem.value.dirty && t.mem.value.masks == masks
  }

  lemma RefusedIdleExactly(k: Setup, s: State, lease: Lease, owner: Proc, o: Oracle)
    requires s.mem.Some? && Leasable(s.w, s.mem.value)
    ensures var r := AcquireIdle(k, s, lease, owner, o); var masks := At(o, s.tick).maskMade;
      var n := if At(o, s.tick).ok then s.tick + 2 else s.tick + 1;
      !r.ok ==> Undone(s.mem.value, r.st, masks, At(o, n).unmaskErrors * masks == {})
  {
    MaskExactly(k, s, o);
    var c, d := At(o, s.tick), Mask(k, s, o);
    if c.ok {
      RefuseExactly(k, d.st, c.maskMade, LeaseId(lease, c.nonce), owner, o);
      assert AcquireIdle(k, s, lease, owner, o)
             == TakeLease(k, d.st, c.maskMade, LeaseId(lease, c.nonce), owner, o);
    } else {
      AbortExactly(k, d.st, c.maskMade, o);
      assert AcquireIdle(k, s, lease, owner, o) == Res(AbortAcquire(k, d.st, c.maskMade, o), false);
    }
  }

  lemma AbortExactly(k: Setup, s: State, masks: set<string>, o: Oracle)
    requires s.mem.Some? && MasksOf(s.w, s.mem.value.root) == masks
    ensures Undone(s.mem.value, AbortAcquire(k, s, masks, o), masks, At(o, s.tick).unmaskErrors * masks == {})
  {
    UnmaskExactly(k, s, masks, o);
    UnmaskLeaves(k, s, masks, o);
  }

  lemma RefuseExactly(k: Setup, s: State, masks: set<string>, lease: Lease, owner: Proc, o: Oracle)
    requires s.mem.Some? && MasksOf(s.w, s.mem.value.root) == masks && IdleMem(s.mem.value)
    requires s.mem.value.lastDurable <= s.mem.value.generation
    ensures var r := TakeLease(k, s, masks, lease, owner, o);
      !r.ok ==> Undone(s.mem.value, r.st, masks, At(o, s.tick + 1).unmaskErrors * masks == {})
  {
    var t := Taken(s, masks, lease, owner);
    var a := Persist(k, t, o);
    PersistExactly(k, t, o);
    UnmaskExactly(k, a.st, masks, o);
    UnmaskLeaves(k, a.st, masks, o);
  }

  predicate IdleMem(m: Mem) {
    !m.busy && m.masks == {} && m.owner == NOBODY && m.exec == NOBODY && m.lease == NO_LEASE
  }

  lemma UnmaskLeaves(k: Setup, s: State, masks: set<string>, o: Oracle)
    requires s.mem.Some? && MasksOf(s.w, s.mem.value.root) == masks
    ensures var x := s.mem.value.root; MasksOf(Unmask(k, s, x, masks, o).st.w, x) == At(o, s.tick).unmaskErrors * masks
  {
    SyncExactly(k, s, o);
    var errors := At(o, s.tick).unmaskErrors * masks;
    assert masks - (masks - errors) == errors;
  }

  /**
   An acquire of a session in the registry: refused outright with other options or once the session is
   closed, without effect when its metadata cannot be written, and otherwise answered as `Answers` says.
   */
  lemma AcquireExactly(k: Setup, s: State, same: bool, lease: Lease, owner: Proc, o: Oracle)
    requires Lawful(k) && Between(k, s) && s.mem.Some?
    ensures var r := Acquire(k, s, same, lease, owner, o); var m, a := s.mem.value, Persist(k, s, o).st;
      if m.closed || !same then r == Res(s, false)
      else if !Lands(o, s.tick) then r == Res(a, false) && a.mem == s.mem
      else a.mem == s.mem && a.tick == s.tick + 1 && Beside(s.w, a.w, m.root)
           && Answers(k, a, m, Sync(k, a, o), lease, owner, o, r)
  {
    if !s.mem.value.closed && same {
      OpenFacts(k, s);
      PersistExactly(k, s, o);
      PersistBetween(k, s, o);
      if Lands(o, s.tick) { AcquireOpenExactly(k, Persist(k, s, o).st, lease, owner, o); }
    }
  }

  /**
   Of an idle session: given exactly when the options are the same, it is not closed, both metadata writes
   land and masking works; whoever asked then holds it.  When masking or the second write failed, it is
   undone exactly when the masks come off again.
   */
  lemma IdleAcquire(k: Setup, s: State, same: bool, lease: Lease, owner: Proc, o: Oracle)
    requires Lawful(k) && Between(k, s) && s.mem.Some? && !s.mem.value.busy
    ensures var r := Acquire(k, s, same, lease, owner, o); var m := s.mem.value;
      && (r.ok <==> !m.closed && same && Lands(o, s.tick) && At(o, s.tick + 1).ok && Lands(o, s.tick + 2))
      && (r.ok ==> HoldsLease(s.w, m, r.st, lease, owner, At(o, s.tick + 1).maskMade))
      && (!r.ok && !m.closed && same && Lands(o, s.tick) ==>
            var masks := At(o, s.tick + 1).maskMade;
            var n := s.tick + if At(o, s.tick + 1).ok then 3 else 2;
            Undone(m, r.st, masks, At(o, n).unmaskErrors * masks == {}))
  {
    AcquireExactly(k, s, same, lease, owner, o);
    var r, a := Acquire(k, s, same, lease, owner, o), Persist(k, s, o).st;
    if r.ok { HoldsFrom(s.w, a.w, s.mem.value, r.st, lease, owner, At(o, s.tick + 1).maskMade); }
    if !s.mem.value.closed && same && Lands(o, s.tick) { IdleRefused(k, s, lease, owner, o); }
  }

  lemma IdleRefused(k: Setup, s: State, lease: Lease, owner: Proc, o: Oracle)
    requires Between(k, s) && s.mem.Some? && !s.mem.value.busy && !s.mem.value.closed && Lands(o, s.tick)
    ensures var r := Acquire(k, s, true, lease, owner, o); var masks := At(o, s.tick + 1).maskMade;
      var n := s.tick + if At(o, s.tick + 1).ok then 3 else 2;
      !r.ok ==> Undone(s.mem.value, r.st, masks, At(o, n).unmaskErrors * masks == {})
  {
    OpenFacts(k, s);
    PersistExactly(k, s, o);
    PersistBetween(k, s, o);
    var a := Persist(k, s, o).st;
    OpenFacts(k, a);
    RefusedIdleExactly(k, a, lease, owner, o);
    assert Acquire(k, s, true, lease, owner, o) == AcquireIdle(k, a, lease, owner, o);
  }

  lemma HoldsFrom(w: World, v: World, m: Mem, t: State, lease: Lease, owner: Proc, masks: set<string>)
    requires Beside(w, v, m.root) && HoldsLease(v, m, t, lease, owner, masks)
    ensures HoldsLease(w, m, t, lease, owner, masks)
  {
  }

  /** Of a busy session: its holder is told again, a dead lease is finished and replaced, others are refused. */
  lemma BusyAcquire(k: Setup, s: State, lease: Lease, owner: Proc, o: Oracle)
    requires Lawful(k) && Between(k, s) && s.mem.Some? && s.mem.value.busy && Lands(o, s.tick)
    ensures var r := Acquire(k, s, true, lease, owner, o); var m := s.mem.value;
      var s1 := Sync(k, Persist(k, s, o).st, o);
      if WritersGone(s1.w, m, At(o, s.tick + 1)) then
        && (r.ok <==> FinishWorks(o, s.tick + 2, m.masks) && LeaseWorks(o, s.tick + 5))
        && (r.ok ==> HoldsLease(s.w, Freed(m, Sum(k, r.st.w.patch)), r.st, lease, owner, At(o, s.tick + 5).maskMade))
      else
        && (r.ok <==> lease != NO_LEASE && lease == m.lease && owner == m.owner)
        && (if r.ok then ToldAgain(s1.w, m, r.st) else r.st == s1)
  {
    AcquireExactly(k, s, true, lease, owner, o);
    OpenFacts(k, s);
    var r, a := Acquire(k, s, true, lease, owner, o), Persist(k, s, o).st;
    if r.ok && WritersGone(Sync(k, a, o).w, s.mem.value, At(o, s.tick + 1)) {
      HoldsFrom(s.w, a.w, Freed(s.mem.value, Sum(k, r.st.w.patch)), r.st, lease, owner, At(o, s.tick + 5).maskMade);
    }
  }

  /** Whoever holds a lease and lives can write, and what is written is the content of the session. */
  lemma HolderWrites(k: Setup, w: World, m: Mem, t: State, lease: Lease, owner: Proc, masks: set<string>, upper: View)
    requires HoldsLease(w, m, t, lease, owner, masks) && owner !in t.w.dead && m.root in t.w.roots
    ensures t.w.leases != {}
    ensures forall g :: g in t.w.leases ==> g.owner == owner && Writes(k, t.w, m.root, LeaseWrite(g, upper), upper)
  {
    assert Grant(t.mem.value.lease, owner, m.generation + 1, m.viewGen, m.root, w.life, w.incarnation) in t.w.leases;
  }

  /** The write takes effect, and the view shows it from then on. */
  ghost predicate Writes(k: Setup, w: World, r: RootId, e: Event, upper: View) {
    var v := Happen(k, w, Some(r), e);
    r in v.roots && v.roots[r].upper == upper && Want(v) == Overlay(k, upper)
  }

  // ---------------------------------------------------------------- attach

  /** The request names the lease and the view of an open session, and no other group is recorded. */
  predicate AttachFits(m: Mem, lease: Lease, viewGen: nat, proc: Proc) {
    && !m.closed && m.busy && lease != NO_LEASE && m.lease == lease && viewGen == m.viewGen
    && proc != NOBODY && (m.exec == NOBODY || m.exec == proc)
  }

  /**
   A command group is accepted exactly when the request fits, the group can be inspected, the owner lives
   and the metadata write lands; then it is on disk and the group may write.  Otherwise nothing is changed,
   unless it was the write that failed.
   */
  lemma AttachExactly(k: Setup, s: State, lease: Lease, viewGen: nat, proc: Proc, o: Oracle)
    requires Between(k, s) && s.mem.Some?
    ensures var r := Attach(k, s, lease, viewGen, proc, o); var m, s1 := s.mem.value, Sync(k, s, o);
      var may := && AttachFits(m, lease, viewGen, proc) && At(o, s.tick).ok
                 && m.owner != NOBODY && m.owner !in s1.w.dead;
      && (r.ok <==> may && Lands(o, s.tick + 1))
      && (!may ==> r.st == s1)
      && (r.ok ==> AttachedAs(m, proc, r.st))
  {
    SyncExactly(k, s, o);
    OpenFacts(k, s);
    var s1, m := Sync(k, s, o), s.mem.value;
    if m.busy {
      BusyIsDirty(k, s);
      RecordExactly(k, s1, m, proc, o);
    }
  }

  lemma RecordExactly(k: Setup, s: State, m: Mem, proc: Proc, o: Oracle)
    requires m.dirty && m.lastDurable <= m.generation
    ensures var r := Record(k, s, m, proc, o); (r.ok <==> Lands(o, s.tick)) && (r.ok ==> AttachedAs(m, proc, r.st))
  {
    PersistExactly(k, With(s, m.(exec := proc)), o);
  }

  lemma BusyIsDirty(k: Setup, s: State)
    requires Between(k, s) && s.mem.Some? && s.mem.value.busy
    ensures s.mem.value.dirty
  {
  }

  ghost predicate AttachedAs(m: Mem, proc: Proc, t: State) {
    && t.mem == Some(m.(exec := proc))
    && t.w.meta == Some(Meta(m.root, true, m.generation, m.lastDurable, m.viewGen, m.owner, proc, m.checksum))
    && (proc !in t.w.dead ==> Group(proc, m.root) in t.w.groups)
  }

  lemma GroupWrites(k: Setup, m: Mem, proc: Proc, t: State, upper: View)
    requires AttachedAs(m, proc, t) && proc !in t.w.dead && m.root in t.w.roots
    ensures Writes(k, t.w, m.root, GroupWrite(Group(proc, m.root), upper), upper)
  {
  }

  // ---------------------------------------------------------------- direct changes

  /** Marking an open session dirty: refused while it is closed or busy, and durable once answered. */
  lemma MarkDirtyExactly(k: Setup, s: State, o: Oracle)
    requires Between(k, s) && s.mem.Some?
    ensures var r := MarkDirty(k, s, o); var m := s.mem.value;
      && (r.ok <==> !m.closed && !m.busy && Lands(o, s.tick))
      && r.st.mem == (if m.closed || m.busy then s.mem else Some(m.(dirty := true, generation := m.generation + 1)))
      && (m.closed || m.busy ==> r.st == s)
      && (r.ok ==> r.st.w.meta == Some(Meta(m.root, true, m.generation + 1, m.lastDurable, m.viewGen,
                                            NOBODY, NOBODY, m.checksum)))
  {
    OpenFacts(k, s);
    if !s.mem.value.closed && !s.mem.value.busy { PersistExactly(k, Changed(s), o); }
  }
}
