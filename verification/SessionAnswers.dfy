/**
 When the other requests succeed, exactly, and what they then have done: reopening, flushing, ending,
 pruning, listing and shutting down.
 */
module SessionAnswers {
  import opened Common
  import opened SessionModel
  import opened SessionSpec
  import opened SessionInvariant
  import opened SessionOps
  import opened SessionOutcomes
  import opened SessionProgress

  // ---------------------------------------------------------------- flush

  /** Saving an open session: marked dirty on disk, exported, and recorded as clean. */
  predicate SaveWorks(o: Oracle, n: nat) {
    Lands(o, n) && Lands(o, n + 1) && Lands(o, n + 2)
  }

  /** An idle session whose root is there can be saved. */
  ghost predicate Savable(w: World, m: Mem) {
    !m.busy && Usable(w, m.root) && IdleFacts(w, m) && m.lastDurable <= m.generation
  }

  ghost predicate Saves(k: Setup, s: State, m: Mem, n: nat, o: Oracle, r: Res) {
    (&& (r.ok <==> SaveWorks(o, n))
     && (r.ok ==> FinishedAs(k, m, r.st) && r.st.tick == n + 3 && Beside(s.w, r.st.w, m.root)
                  && MasksOf(r.st.w, m.root) == {})) == true
  }

  lemma FlushNowExactly(k: Setup, s: State, o: Oracle)
    requires s.mem.Some? && Savable(s.w, s.mem.value)
    ensures Saves(k, s, s.mem.value, s.tick, o, FlushNow(k, s, o))
  {
    var t := With(s, s.mem.value.(dirty := true));
    var a := Persist(k, t, o);
    PersistExactly(k, t, o);
    if a.ok { SaveMarkedExactly(k, a.st, o); }
    var r := if a.ok then SaveMarked(k, a.st, o) else a;
    assert FlushNow(k, s, o) == r;
    MarkedSaves(k, s, s.mem.value, a, r, o);
  }

  lemma MarkedSaves(k: Setup, s: State, m: Mem, a: Res, r: Res, o: Oracle)
    requires IdleFacts(s.w, m) && !m.busy && (a.ok <==> Lands(o, s.tick))
    requires r.ok <==> a.ok && Lands(o, s.tick + 1) && Lands(o, s.tick + 2)
    requires a.st.mem == Some(m.(dirty := true)) && Beside(s.w, a.st.w, m.root)
    requires r.ok ==> MarkedAs(k, a.st.w, a.st.mem.value, r.st) && r.st.tick == s.tick + 3
    ensures Saves(k, s, m, s.tick, o, r)
  {
    if r.ok {
      BesideThen(s.w, a.st.w, r.st.w, m.root);
      var c := Sum(k, r.st.w.patch);
      assert m.(dirty := true).(dirty := false, lastDurable := m.generation, checksum := c) == Freed(m, c);
    }
  }

  /** Saved from the moment the metadata said dirty. */
  ghost predicate MarkedAs(k: Setup, w: World, m: Mem, t: State) {
    (&& t.mem == Some(m.(dirty := false, lastDurable := m.generation, checksum := Sum(k, t.w.patch)))
     && t.w.meta == Some(Snapshot(t.mem.value)) && Beside(w, t.w, m.root) && MasksOf(t.w, m.root) == {}) == true
  }

  lemma SaveMarkedExactly(k: Setup, s: State, o: Oracle)
    requires s.mem.Some? && Usable(s.w, s.mem.value.root) && MasksOf(s.w, s.mem.value.root) == {}
    requires s.mem.value.lastDurable <= s.mem.value.generation && s.mem.value.exec == NOBODY
    ensures var r := SaveMarked(k, s, o); var m := s.mem.value;
      && (r.ok <==> Lands(o, s.tick) && Lands(o, s.tick + 1))
      && (r.ok ==> MarkedAs(k, s.w, m, r.st) && r.st.tick == s.tick + 2)
  {
    WritePatchExactly(k, s, o);
    var b := WritePatch(k, s, o);
    if b.ok {
      var n := b.st.mem.value;
      var t := With(b.st, n.(dirty := false, lastDurable := n.generation));
      PersistExactly(k, t, o);
      BesideThen(s.w, b.st.w, Persist(k, t, o).st.w, n.root);
    }
  }

  // ---------------------------------------------------------------- looking at a lease

  /** The session is leased, and the owner or its command group may still be there. */
  predicate Held(w: World, m: Mem, o: Oracle, n: nat) {
    m.busy && !WritersGone(w, m, At(o, n))
  }

  /** A dead lease can be finished; an idle session needs nothing. */
  predicate Settles(m: Mem, o: Oracle, n: nat) {
    m.busy ==> FinishWorks(o, n + 1, m.masks)
  }

  /** The effect that follows once a dead lease was finished. */
  function AfterLook(m: Mem, n: nat): nat {
    if m.busy then n + 4 else n
  }

  /** Looking at a session leaves a held one alone and finishes a dead lease. */
  ghost predicate Looks(k: Setup, s: State, m: Mem, s1: State, o: Oracle, r: Res) {
    (if Held(s1.w, m, o, s.tick) then r == Res(s1, true)
     else
       && (r.ok <==> Settles(m, o, s.tick))
       && (!m.busy ==> r == Res(s, true))
       && (r.ok ==> r.st.mem.Some? && r.st.tick == AfterLook(m, s.tick) && !r.st.mem.value.busy)
       && (r.ok && m.busy ==> FinishedAs(k, m, r.st))) == true
  }

  lemma LookExactly(k: Setup, s: State, o: Oracle)
    requires Between(k, s) && s.mem.Some?
    ensures Looks(k, s, s.mem.value, Sync(k, s, o), o, RecoverBusy(k, s, o))
  {
    var m, s1 := s.mem.value, Sync(k, s, o);
    if !m.busy {
      assert RecoverBusy(k, s, o) == Res(s, true);
    } else if Held(s1.w, m, o, s.tick) {
      assert RecoverBusy(k, s, o) == Res(s1, true);
    } else {
      RecoverDeadExactly(k, s, o);
      DeadLooks(k, s, m, s1, o, RecoverBusy(k, s, o));
    }
  }

  lemma DeadLooks(k: Setup, s: State, m: Mem, s1: State, o: Oracle, r: Res)
    requires m.busy && !Held(s1.w, m, o, s.tick)
    requires (r.ok <==> FinishWorks(o, s.tick + 1, m.masks)) && r.st.tick == s.tick + 4
    requires r.ok ==> FinishedAs(k, m, r.st)
    ensures Looks(k, s, m, s1, o, r)
  {
  }

  lemma ListExactly(k: Setup, s: State, o: Oracle)
    requires Between(k, s) && s.mem.Some?
    ensures Looks(k, s, s.mem.value, Sync(k, s, o), o, List(k, s, o))
  {
    LookExactly(k, s, o);
  }

  /** What a flush of an open session that nobody holds needs once its lease is finished. */
  predicate FlushWorks(m: Mem, recent: bool, o: Oracle, n: nat) {
    if recent then Lands(o, n) else SaveWorks(o, n)
  }

  /** What the answer to a flush must be. */
  ghost predicate FlushAnswers(k: Setup, s: State, m: Mem, s1: State, recent: bool, o: Oracle, r: Res) {
    (if m.closed then r == Res(s, false)
     else if Held(s1.w, m, o, s.tick) then r == Res(s1, false)
     else Flushes(k, m, recent, o, s.tick, r)) == true
  }

  /**
   A flush is refused while the session is closed or held.  Otherwise it succeeds exactly when a dead
   lease can be finished and the save works, and the session is then saved; within the minimum age an
   idle session stays as it is and only its metadata is written again.
   */
  lemma FlushExactly(k: Setup, s: State, recent: bool, o: Oracle)
    requires Lawful(k) && Between(k, s) && s.mem.Some?
    ensures FlushAnswers(k, s, s.mem.value, Sync(k, s, o), recent, o, Flush(k, s, recent, o))
  {
    FlushLockedExactly(k, s, recent, o);
  }

  ghost predicate Flushes(k: Setup, m: Mem, recent: bool, o: Oracle, n: nat, r: Res) {
    (&& (r.ok <==> Settles(m, o, n) && FlushWorks(m, recent, o, AfterLook(m, n)))
     && (r.ok && (m.busy || !recent) ==> FinishedAs(k, m, r.st))
     && (r.ok && !m.busy && recent ==> r.st.mem == Some(m) && r.st.w.meta == Some(Snapshot(m)))
     && (r.ok && !recent ==> r.st.tick == AfterLook(m, n) + 3 && MasksOf(r.st.w, m.root) == {})) == true
  }

  lemma FlushLockedExactly(k: Setup, s: State, recent: bool, o: Oracle)
    requires Lawful(k) && Between(k, s) && s.mem.Some?
    ensures FlushAnswers(k, s, s.mem.value, Sync(k, s, o), recent, o, FlushLocked(k, s, recent, o))
  {
    var m, a, s1 := s.mem.value, RecoverBusy(k, s, o), Sync(k, s, o);
    LookExactly(k, s, o);
    if m.closed {
      assert FlushLocked(k, s, recent, o) == Res(s, false);
    } else if a.ok && !a.st.mem.value.busy {
      RecoverBusyKeeps(k, s, o);
      FlushSettledExactly(k, a.st, recent, o);
      var r := if recent then Persist(k, a.st, o) else FlushNow(k, a.st, o);
      assert FlushLocked(k, s, recent, o) == r;
      SettledFlushes(k, s, m, s1, a, recent, o, r);
    } else {
      assert FlushLocked(k, s, recent, o) == Res(a.st, false);
      UnsettledFlushes(k, s, m, s1, a, recent, o);
    }
  }

  lemma UnsettledFlushes(k: Setup, s: State, m: Mem, s1: State, a: Res, recent: bool, o: Oracle)
    requires Looks(k, s, m, s1, o, a) && !m.closed && (a.ok ==> a.st.mem.Some? && a.st.mem.value.busy)
    ensures FlushAnswers(k, s, m, s1, recent, o, Res(a.st, false))
  {
  }

  /** The save itself, of a session known to be idle. */
  lemma FlushSettledExactly(k: Setup, s: State, recent: bool, o: Oracle)
    requires Between(k, s) && s.mem.Some? && !s.mem.value.busy && !s.mem.value.closed
    ensures var r := if recent then Persist(k, s, o) else FlushNow(k, s, o);
      SettledSaves(k, s, s.mem.value, recent, o, r)
  {
    OpenFacts(k, s);
    if recent { PersistExactly(k, s, o); } else { FlushNowExactly(k, s, o); }
  }

  ghost predicate SettledSaves(k: Setup, s: State, m: Mem, recent: bool, o: Oracle, r: Res) {
    (&& (r.ok <==> FlushWorks(m, recent, o, s.tick))
     && (r.ok && recent ==> r.st.mem == Some(m) && r.st.w.patch == s.w.patch && r.st.w.meta == Some(Snapshot(m)))
     && (r.ok && !recent ==> FinishedAs(k, m, r.st) && r.st.tick == s.tick + 3
                             && MasksOf(r.st.w, m.root) == {})) == true
  }

  lemma SettledFlushes(k: Setup, s: State, m: Mem, s1: State, a: Res, recent: bool, o: Oracle, r: Res)
    requires Looks(k, s, m, s1, o, a) && s.mem == Some(m) && !m.closed && a.ok
    requires a.st.mem.Some? && !a.st.mem.value.busy && (Held(s1.w, m, o, s.tick) ==> s1.mem == s.mem)
    requires SettledSaves(k, a.st, a.st.mem.value, recent, o, r)
    ensures FlushAnswers(k, s, m, s1, recent, o, r)
  {
    if m.busy {
      assert forall c, d :: Freed(Freed(m, c), d) == Freed(m, d);
    }
  }

  // ---------------------------------------------------------------- removing a session

  /** Ending a session that needs no saving: its root goes, and then its metadata. */
  predicate RemovalsWork(k: Setup, o: Oracle, n: nat) {
    RemovalWorks(k, At(o, n)) && Lands(o, n + 1)
  }

  /** Of the session nothing is left but its patch. */
  predicate Ended(m: Mem, t: State) {
    t.mem.None? && t.w.meta.None? && m.root !in t.w.roots
  }

  lemma EndCleanupExactly(k: Setup, s: State, o: Oracle)
    requires s.mem.Some? && MasksOf(s.w, s.mem.value.root) == {}
    ensures var r := EndCleanup(k, s, o);
      (r.ok <==> RemovalsWork(k, o, s.tick)) && (r.ok ==> Ended(s.mem.value, r.st))
  {
    RemoveExactly(k, s, s.mem.value.root, o);
  }

  /** Ending an open session that nobody holds: finish a dead lease, save, and remove. */
  predicate EndWorks(k: Setup, m: Mem, o: Oracle, n: nat) {
    if m.closed then RemovalsWork(k, o, n)
    else Settles(m, o, n) && SaveWorks(o, AfterLook(m, n)) && RemovalsWork(k, o, AfterLook(m, n) + 3)
  }

  /** What the answer to an end must be. */
  ghost predicate Ends(k: Setup, s: State, m: Mem, s1: State, o: Oracle, r: Res) {
    (if Held(s1.w, m, o, s.tick) then r == Res(s1, false)
     else (r.ok <==> EndWorks(k, m, o, s.tick)) && (r.ok ==> Ended(m, r.st))) == true
  }

  /**
   Ending is refused while the session is held; otherwise it succeeds exactly when everything in it
   works, and then only the patch is left.  A session closed before is not saved again.
   */
  lemma EndExactly(k: Setup, s: State, o: Oracle)
    requires Lawful(k) && Between(k, s) && s.mem.Some?
    ensures Ends(k, s, s.mem.value, Sync(k, s, o), o, End(k, s, o))
  {
    OpenFacts(k, s);
    var m := s.mem.value;
    if m.closed {
      assert m.(closed := true) == m && With(s, m) == s;
      EndCleanupExactly(k, s, o);
      assert End(k, s, o) == EndCleanup(k, s, o);
    } else {
      EndOpenExactly(k, s, o);
    }
  }

  lemma EndOpenExactly(k: Setup, s: State, o: Oracle)
    requires Lawful(k) && Between(k, s) && s.mem.Some? && !s.mem.value.closed
    ensures Ends(k, s, s.mem.value, Sync(k, s, o), o, End(k, s, o))
  {
    var m, s1, a := s.mem.value, Sync(k, s, o), FlushLocked(k, s, false, o);
    FlushLockedExactly(k, s, false, o);
    if a.ok {
      var t := With(a.st, a.st.mem.value.(closed := true));
      FlushedFacts(k, s, m, s1, o, a);
      EndCleanupExactly(k, t, o);
      assert End(k, s, o) == EndCleanup(k, t, o);
      FlushedEnds(k, s, m, s1, a, o, EndCleanup(k, t, o));
    } else {
      assert End(k, s, o) == a;
      UnflushedEnds(k, s, m, s1, a, o);
    }
  }

  lemma FlushedFacts(k: Setup, s: State, m: Mem, s1: State, o: Oracle, a: Res)
    requires a.ok && FlushAnswers(k, s, m, s1, false, o, a)
    ensures a.st.mem.Some? && a.st.mem.value.root == m.root && MasksOf(a.st.w, m.root) == {}
    ensures a.st.tick == AfterLook(m, s.tick) + 3
  {
  }

  lemma FlushedEnds(k: Setup, s: State, m: Mem, s1: State, a: Res, o: Oracle, r: Res)
    requires !m.closed && FlushAnswers(k, s, m, s1, false, o, a) && a.ok
    requires (r.ok <==> RemovalsWork(k, o, AfterLook(m, s.tick) + 3)) && (r.ok ==> Ended(m, r.st))
    ensures Ends(k, s, m, s1, o, r)
  {
  }

  lemma UnflushedEnds(k: Setup, s: State, m: Mem, s1: State, a: Res, o: Oracle)
    requires !m.closed && FlushAnswers(k, s, m, s1, false, o, a) && !a.ok
    ensures Ends(k, s, m, s1, o, a)
  {
  }

  /** What the answer to a prune must be: held sessions are kept, and those in use; the rest are ended. */
  ghost predicate Prunes(k: Setup, s: State, m: Mem, s1: State, idle: bool, o: Oracle, r: Res) {
    (if Held(s1.w, m, o, s.tick) then r == Res(s1, true)
     else if !idle then Looks(k, s, m, s1, o, r)
     else Ends(k, s, m, s1, o, r)) == true
  }

  lemma PruneExactly(k: Setup, s: State, idle: bool, o: Oracle)
    requires Lawful(k) && Between(k, s) && s.mem.Some?
    ensures Prunes(k, s, s.mem.value, Sync(k, s, o), idle, o, Prune(k, s, idle, o))
  {
    var m, b, s1 := s.mem.value, RecoverBusy(k, s, o), Sync(k, s, o);
    LookExactly(k, s, o);
    OpenFacts(k, s);
    if b.ok && !b.st.mem.value.busy && idle {
      RecoverBusyKeeps(k, s, o);
      EndExactly(k, b.st, o);
      assert Prune(k, s, idle, o) == End(k, b.st, o);
      SettledEnds(k, s, m, s1, b.st, b.st.mem.value, Sync(k, b.st, o), o, End(k, b.st, o));
    } else {
      assert Prune(k, s, idle, o) == b;
      KeptPrunes(k, s, m, s1, idle, o, b);
    }
  }

  lemma KeptPrunes(k: Setup, s: State, m: Mem, s1: State, idle: bool, o: Oracle, b: Res)
    requires Looks(k, s, m, s1, o, b) && (m.busy ==> !m.closed)
    requires idle && b.ok ==> b.st.mem.Some? && b.st.mem.value.busy
    ensures Prunes(k, s, m, s1, idle, o, b)
  {
  }

  lemma SettledEnds(k: Setup, s: State, m: Mem, s1: State, t: State, n: Mem, t1: State, o: Oracle, r: Res)
    requires !Held(s1.w, m, o, s.tick) && Settles(m, o, s.tick) && t.tick == AfterLook(m, s.tick)
    requires (if m.busy then n == Freed(m, n.checksum) else n == m) && (m.busy ==> !m.closed)
    requires Ends(k, t, n, t1, o, r)
    ensures Ends(k, s, m, s1, o, r)
  {
  }

  // ---------------------------------------------------------------- shutdown

  /** Shutting down what nobody holds: finish or save what is not saved, then remove the root. */
  predicate CloseWorks(k: Setup, m: Mem, o: Oracle, n: nat) {
    if m.busy then FinishWorks(o, n + 1, m.masks) && RemovalWorks(k, At(o, n + 4))
    else if m.dirty then SaveWorks(o, n + 1) && RemovalWorks(k, At(o, n + 4))
    else RemovalWorks(k, At(o, n + 1))
  }

  /** What a shutdown must do: a held session keeps all it has, and one with unsaved work is saved first. */
  ghost predicate Closes(k: Setup, s: State, m: Mem, s1: State, o: Oracle, r: Res) {
    (&& r.st.mem.None?
     && (if Held(s1.w, m, o, s.tick) then
           !r.ok && r.st.w.roots.Keys == s.w.roots.Keys && r.st.w.patch == s.w.patch
           && (Lands(o, s.tick + 1) ==> r.st.w.meta == Some(Snapshot(m)))
         else
           && (r.ok <==> CloseWorks(k, m, o, s.tick))
           && (r.ok ==> m.root !in r.st.w.roots)
           && (r.ok && m.dirty ==> r.st.w.meta == Some(Snapshot(Freed(m, Sum(k, r.st.w.patch))))))) == true
  }

  lemma PreserveExactly(k: Setup, s: State, o: Oracle)
    requires s.mem.Some? && ValidMeta(Snapshot(s.mem.value))
    ensures var r := Preserve(k, s, o);
      && !r.ok && r.st.mem.None? && r.st.w.roots.Keys == s.w.roots.Keys && r.st.w.patch == s.w.patch
      && (Lands(o, s.tick) ==> r.st.w.meta == Some(Snapshot(s.mem.value)))
  {
    PersistExactly(k, s, o);
  }

  lemma CloseCleanupExactly(k: Setup, s: State, o: Oracle)
    requires s.mem.Some? && MasksOf(s.w, s.mem.value.root) == {}
    ensures var r := CloseCleanup(k, s, o);
      && r.st.mem.None? && (r.ok <==> RemovalWorks(k, At(o, s.tick)))
      && (r.ok ==> s.mem.value.root !in r.st.w.roots && r.st.w.meta == s.w.meta && r.st.w.patch == s.w.patch)
  {
    RemoveExactly(k, s, s.mem.value.root, o);
  }

  lemma CloseExactly(k: Setup, s: State, o: Oracle)
    requires Lawful(k) && Between(k, s) && s.mem.Some?
    ensures Closes(k, s, s.mem.value, Sync(k, s, o), o, Close(k, s, o))
  {
    var m, s1 := s.mem.value, Sync(k, s, o);
    SyncExactly(k, s, o);
    SyncKeeps(k, s, o);
    OpenFacts(k, s1);
    if Held(s1.w, m, o, s.tick) { CloseHeldExactly(k, s, s1, o); }
    else if m.busy { CloseDeadExactly(k, s, s1, o); }
    else if m.dirty { CloseDirtyExactly(k, s, s1, o); }
    else { CloseCleanExactly(k, s, s1, o); }
  }

  lemma CloseHeldExactly(k: Setup, s: State, s1: State, o: Oracle)
    requires s.mem.Some? && s1 == Sync(k, s, o) && ValidMeta(Snapshot(s.mem.value)) && !s.mem.value.closed
    requires Held(s1.w, s.mem.value, o, s.tick)
    ensures Closes(k, s, s.mem.value, s1, o, Close(k, s, o))
  {
    SyncExactly(k, s, o);
    PreserveExactly(k, s1, o);
    assert Close(k, s, o) == Preserve(k, s1, o);
  }

  lemma CloseCleanExactly(k: Setup, s: State, s1: State, o: Oracle)
    requires s.mem.Some? && s1 == Sync(k, s, o) && IdleFacts(s1.w, s.mem.value)
    requires !s.mem.value.busy && !s.mem.value.dirty
    ensures Closes(k, s, s.mem.value, s1, o, Close(k, s, o))
  {
    SyncExactly(k, s, o);
    CloseCleanupExactly(k, s1, o);
    assert Close(k, s, o) == CloseCleanup(k, s1, o);
  }

  lemma CloseDeadExactly(k: Setup, s: State, s1: State, o: Oracle)
    requires Lawful(k) && Between(k, s) && s.mem.Some? && s1 == Sync(k, s, o) && Between(k, s1)
    requires s.mem.value.busy && WritersGone(s1.w, s.mem.value, At(o, s.tick))
    ensures Closes(k, s, s.mem.value, s1, o, Close(k, s, o))
  {
    var m, f := s.mem.value, FinishBusy(k, s1, o);
    SyncExactly(k, s, o);
    OpenFacts(k, s1);
    DeadIsQuiet(k, s1.w, m, At(o, s.tick));
    FinishBusyExactly(k, s1, o);
    FinishBusyKeeps(k, s1, o);
    SavedCloses(k, s, s1, f, o);
  }

  lemma CloseDirtyExactly(k: Setup, s: State, s1: State, o: Oracle)
    requires Lawful(k) && Between(k, s) && s.mem.Some? && s1 == Sync(k, s, o) && Between(k, s1)
    requires !s.mem.value.busy && s.mem.value.dirty
    ensures Closes(k, s, s.mem.value, s1, o, Close(k, s, o))
  {
    FlushLockedExactly(k, s1, false, o);
    FlushLockedKeeps(k, s1, false, o);
    SavedCloses(k, s, s1, FlushLocked(k, s1, false, o), o);
  }

  /** Once the work is saved, or not, the root goes, or stays. */
  lemma SavedCloses(k: Setup, s: State, s1: State, a: Res, o: Oracle)
    requires s.mem.Some? && s1.tick == s.tick + 1 && !Held(s1.w, s.mem.value, o, s.tick) && s.mem.value.dirty
    requires Between(k, a.st) && a.st.mem.Some?
    requires a.ok <==> if s.mem.value.busy then FinishWorks(o, s1.tick, s.mem.value.masks) else SaveWorks(o, s1.tick)
    requires a.ok ==> FinishedAs(k, s.mem.value, a.st) && a.st.tick == s.tick + 4
    ensures Closes(k, s, s.mem.value, s1, o, if a.ok then CloseCleanup(k, a.st, o) else Preserve(k, a.st, o))
  {
    OpenFacts(k, a.st);
    if a.ok { CloseCleanupExactly(k, a.st, o); } else { PreserveExactly(k, a.st, o); }
  }

  /** A shutdown of a session with unsaved work that succeeds has saved it durably before the root went. */
  lemma CloseSaves(k: Setup, s: State, o: Oracle)
    requires Lawful(k) && Between(k, s) && s.mem.Some? && s.mem.value.dirty
    ensures var r := Close(k, s, o); r.ok ==> DurablySaved(k, r.st.w) && s.mem.value.root !in r.st.w.roots
  {
    CloseExactly(k, s, o);
    CloseOpKeeps(k, s, o);
  }
}
