/**
 A removal that is cut short: exactly when a restart serves what is left of the upper layer.
 */
module SessionDamage {
  import opened Common
  import opened SessionModel
  import opened SessionSpec
  import opened SessionInvariant
  import opened SessionOps
  import opened SessionRuns
  import opened SessionOutcomes

  /** The removal gets as far as part of the upper layer, with the base worktree gone or not. */
  function StopsHalfway(keepsBase: bool, remains: View): Oracle {
    n => if n == 1 then Smooth().(extent := Partly, keepsBase := keepsBase, remains := remains) else Smooth()
  }

  /** The shutdown in which that happens, killed at that moment. */
  function CutShutdown(keepsBase: bool, remains: View): Move {
    Move(OpClose, StopsHalfway(keepsBase, remains), Some(4))
  }

  function CutWorld(k: Setup, w: World, r: RootId, keepsBase: bool, remains: View): World {
    Gutted(k, if keepsBase then w else WithoutBase(w, r), r, remains)
  }

  lemma CutIs(k: Setup, s: State, keepsBase: bool, remains: View)
    requires IdleClean(k, s)
    ensures Step(k, s, CutShutdown(keepsBase, remains))
            == State(CutWorld(k, s.w, s.mem.value.root, keepsBase, remains), None, 0, [])
  {
    var o := StopsHalfway(keepsBase, remains);
    assert At(o, 0) == Smooth() && At(o, 1) == Smooth().(extent := Partly, keepsBase := keepsBase, remains := remains);
    ShutdownInstants(k, s, o);
  }

  // ---------------------------------------------------------------- the restart

  /** The base is as it was pinned, and the recorded writers are dead. */
  function FindsDead(root: RootId, base: View, owner: Proc, exec: Proc): Oracle {
    n => if n == 0 then Smooth().(env := [TamperBase(root, base), Die(owner), Die(exec)]) else Smooth()
  }

  function Rebased(w: World, r: RootId, base: View): map<RootId, Root>
    requires r in w.roots
  {
    w.roots[r := w.roots[r].(base := Some(base))]
  }

  lemma EnvThree(k: Setup, w: World, loaded: Option<RootId>, a: Event, b: Event, c: Event)
    ensures Env(k, w, loaded, [a, b, c])
            == Happen(k, Happen(k, Happen(k, w, loaded, a), loaded, b), loaded, c)
  {
    var v := Happen(k, w, loaded, a);
    var u := Happen(k, v, loaded, b);
    assert [a, b, c][1..] == [b, c] && [b, c][1..] == [c] && [c][1..] == [];
    assert Env(k, u, loaded, [c]) == Env(k, Happen(k, u, loaded, c), loaded, []);
    assert Env(k, v, loaded, [b, c]) == Env(k, u, loaded, [c]);
  }

  lemma DeadAfter(k: Setup, s: State, r: RootId, owner: Proc, exec: Proc)
    requires s.tick == 0 && s.mem.None? && Usable(s.w, r)
    ensures var t := Sync(k, s, FindsDead(r, k.base, owner, exec));
      && owner in t.w.dead && exec in t.w.dead && t.w.roots == Rebased(s.w, r, k.base) && t.w.meta == s.w.meta
      && t.w.written == s.w.written && t.w.exposed == s.w.exposed
  {
    assert At(FindsDead(r, k.base, owner, exec), 0).env == [TamperBase(r, k.base), Die(owner), Die(exec)];
    EnvThree(k, s.w, None, TamperBase(r, k.base), Die(owner), Die(exec));
  }

  /** An explicit recovery at such a moment. */
  function Reopening(k: Setup, w: World): Move
    requires w.meta.Some?
  {
    var m := w.meta.value;
    Move(OpRecover(false), FindsDead(m.root, k.base, m.owner, m.exec), None)
  }

  lemma RegisterServes(k: Setup, s: State, meta: Meta, r: RootId, o: Oracle)
    requires At(o, s.tick).env == [] && s.w.meta == Some(meta)
    ensures var e := Register(k, s, meta, r, o).st;
      InUse(e) && e.mem.value.root == r && e.w.roots == s.w.roots
      && e.w.exposed == s.w.exposed && e.w.written == s.w.written
  {
  }

  /** Reopening in place takes the root that dirty metadata names as it is. */
  lemma RestoreServes(k: Setup, s: State, r: RootId, o: Oracle)
    requires s.mem.None? && s.w.meta.Some? && s.w.meta.value.dirty && s.w.meta.value.root == r && !k.repoMode
    requires At(o, s.tick) == Smooth() && At(o, s.tick + 1) == Smooth()
    requires GoneForGood(s.w, s.w.meta.value.owner) && GoneForGood(s.w, s.w.meta.value.exec)
    requires r in s.w.roots && s.w.roots[r].base == Some(k.base) && s.w.roots[r].masks == {}
    ensures var e := Restore(k, s, o).st; var w := Reused(k, s.w, r);
      InUse(e) && e.mem.value.root == r && e.w.roots == w.roots && e.w.exposed == w.exposed && e.w.written == w.written
  {
    var s1 := Sync(k, s, o);
    assert s1.w == s.w;
    var s2 := s1.(w := Reused(k, s1.w, r));
    assert Restore(k, s, o) == Register(k, s2, s.w.meta.value, r, o);
    RegisterServes(k, s2, s.w.meta.value, r, o);
  }

  lemma WritesSnoc(changes: seq<Change>, v: View)
    ensures Writes(changes + [Damaged(v)]) == Writes(changes)
    decreases |changes|
  {
    if changes != [] {
      assert (changes + [Damaged(v)])[1..] == changes[1..] + [Damaged(v)];
      WritesSnoc(changes[1..], v);
    }
  }

  lemma RecoverIsRoot(k: Setup, s: State, o: Oracle)
    requires s.mem.None? && s.w.meta.Some? && At(o, s.tick).ok && !At(o, s.tick).spurious
    requires var s1 := Sync(k, s, o); var m := s.w.meta.value;
      && s1.w.meta == s.w.meta && m.dirty && Usable(s1.w, m.root)
      && GoneForGood(s1.w, m.owner) && GoneForGood(s1.w, m.exec)
    ensures Recover(k, s, false, o) == RecoverRoot(k, Sync(k, s, o), s.w.meta.value, o)
  {
  }

  lemma RecoverServes(k: Setup, s: State, r: RootId, o: Oracle)
    requires s.mem.None? && s.w.meta.Some? && s.w.meta.value.dirty && s.w.meta.value.root == r && !k.repoMode
    requires s.tick == 1 && At(o, 1) == Smooth() && At(o, 2) == Smooth() && At(o, 3) == Smooth()
    requires GoneForGood(s.w, s.w.meta.value.owner) && GoneForGood(s.w, s.w.meta.value.exec)
    requires r in s.w.roots && s.w.roots[r].base == Some(k.base)
    ensures var e := RecoverRoot(k, s, s.w.meta.value, o).st;
      && InUse(e) && e.mem.value.root == r && r in e.w.roots && e.w.roots[r].whole
      && e.w.roots[r].base == Some(k.base) && e.w.roots[r].upper == s.w.roots[r].upper
      && e.w.exposed == s.w.exposed && Writes(e.w.written) == Writes(s.w.written)
  {
    var b := Unmask(k, s, r, MasksOf(s.w, r), o);
    assert Sync(k, s, o).w == s.w;
    assert MasksOf(s.w, r) - (MasksOf(s.w, r) - {}) == {};
    assert b.ok && b.st.tick == 2 && b.st.w == WithMasks(s.w, r, {});
    RestoreServes(k, b.st, r, o);
    WritesSnoc(s.w.written, Overlay(k, s.w.roots[r].upper));
  }

  lemma ReopeningIs(k: Setup, s: State)
    requires s.mem.None? && s.w.meta.Some? && Reopens(k, s.w, s.w.meta.value.root)
    ensures var m := s.w.meta.value; var o := Reopening(k, s.w).oracle;
      Step(k, s, Reopening(k, s.w)) == RecoverRoot(k, Sync(k, Begin(s), o), m, o).st
  {
    var m, o := s.w.meta.value, Reopening(k, s.w).oracle;
    assert At(o, 0) == Smooth().(env := [TamperBase(m.root, k.base), Die(m.owner), Die(m.exec)]);
    DeadAfter(k, Begin(s), m.root, m.owner, m.exec);
    RecoverIsRoot(k, Begin(s), o);
  }

  ghost predicate Serves(k: Setup, s: State, e: State, upper: View) {
    && InUse(e) && Shows(k, Snap(e.w, e.mem), Overlay(k, upper))
    && e.w.exposed == s.w.exposed && Writes(e.w.written) == Writes(s.w.written)
  }

  lemma RecoveredServes(k: Setup, s: State)
    requires s.mem.None? && s.w.meta.Some? && Reopens(k, s.w, s.w.meta.value.root)
    ensures var m := s.w.meta.value; var o := Reopening(k, s.w).oracle;
      Serves(k, s, RecoverRoot(k, Sync(k, Begin(s), o), m, o).st, s.w.roots[m.root].upper)
  {
    var m, o := s.w.meta.value, Reopening(k, s.w).oracle;
    assert At(o, 1) == Smooth() && At(o, 2) == Smooth() && At(o, 3) == Smooth();
    DeadAfter(k, Begin(s), m.root, m.owner, m.exec);
    RecoverServes(k, Sync(k, Begin(s), o), m.root, o);
  }

  /** Over a root that dirty metadata names and that has its base, a recovery serves what is there. */
  lemma ReopeningServes(k: Setup, s: State)
    requires s.mem.None? && s.w.meta.Some? && Reopens(k, s.w, s.w.meta.value.root)
    ensures Serves(k, s, Step(k, s, Reopening(k, s.w)), s.w.roots[s.w.meta.value.root].upper)
  {
    ReopeningIs(k, s);
    RecoveredServes(k, s);
  }

  lemma RunOne(k: Setup, s: State, move: Move)
    ensures Run(k, s, [move]) == Step(k, s, move)
  {
    assert [move][1..] == [];
  }

  // ---------------------------------------------------------------- exactly when it is harmless

  /** Whatever reopens the session next, and before another such removal, serves the content as it was. */
  ghost predicate AlwaysServes(k: Setup, w: World) {
    forall after: seq<Move> :: var e := Run(k, Killed(w), after);
      JustReopened(w, e) ==> Shows(k, Snap(e.w, e.mem), Want(w))
  }

  lemma HarmlessExactly(k: Setup, w: World)
    requires Lawful(k) && Durable(k, w)
    ensures AlwaysServes(k, w) <==> !Harmful(k, w)
  {
    if Harmful(k, w) {
      HarmIsServed(k, w);
    } else {
      forall after: seq<Move> | JustReopened(w, Run(k, Killed(w), after))
        ensures var e := Run(k, Killed(w), after); Shows(k, Snap(e.w, e.mem), Want(w))
      {
        ReopenedShows(k, w, after);
      }
    }
  }

  /**
   Kill the daemon at any instant of any run, whatever removals were cut short before.  Every
   reopening before a write serves the content as it was, if and only if dirty metadata does not
   name a root that has its base and shows something else.
   */
  lemma CutRemovalExactly(k: Setup, before: seq<Move>, op: Op, o: Oracle, i: nat)
    requires Lawful(k)
    ensures i < |Instants(k, before, op, o)| ==>
      var w := Instants(k, before, op, o)[i].w; AlwaysServes(k, w) <==> !Harmful(k, w)
  {
    if i < |Instants(k, before, op, o)| {
      InstantsAreGood(k, before, op, o, i);
      HarmlessExactly(k, Instants(k, before, op, o)[i].w);
    }
  }

  lemma HarmIsServed(k: Setup, w: World)
    requires Harmful(k, w)
    ensures !AlwaysServes(k, w)
  {
    var move := Reopening(k, Killed(w).w);
    ReopeningServes(k, Killed(w));
    RunOne(k, Killed(w), move);
    ServedIsNotWanted(k, w, Run(k, Killed(w), [move]), w.roots[w.meta.value.root].upper);
  }

  lemma ServedIsNotWanted(k: Setup, w: World, e: State, upper: View)
    requires Serves(k, Killed(w), e, upper) && Overlay(k, upper) != Want(w)
    ensures JustReopened(w, e) && !Shows(k, Snap(e.w, e.mem), Want(w))
  {
    OneWrite(Want(w));
  }

  lemma OneWrite(v: View)
    ensures Writes([Wrote(v)]) == [v]
  {
    assert [Wrote(v)][1..] == [];
  }

  /** A shutdown cut short with its worktree still there does it, if metadata is dirty. */
  lemma CutServes(k: Setup, s: State, remains: View)
    requires IdleClean(k, s) && MarkedDirty(s.w) && !k.repoMode
    ensures var t := Step(k, s, CutShutdown(true, remains));
      t.mem.None? && t.w.meta.Some? && Reopens(k, t.w, t.w.meta.value.root) && t.w.written == s.w.written
      && t.w.roots[t.w.meta.value.root].upper == remains
  {
    CutIs(k, s, true, remains);
    assert InMemory(k, s.w, s.mem.value);
  }

  /**
   And one such removal is enough: from any clean open session, one late error of an acquire, a
   shutdown cut short with the worktree still in place, and a recovery serve the damaged layer.
   */
  lemma HalfRemovalShown(k: Setup, s: State, remains: View)
    requires Lawful(k) && IdleClean(k, s) && !k.repoMode
    ensures var late := Move(OpAcquire(true, NO_LEASE, 1), LandsLate, None);
      var t := Run(k, s, [late, CutShutdown(true, remains)]);
      t.w.meta.Some? && var e := Run(k, t, [Reopening(k, t.w)]);
      && InUse(e) && Shows(k, Snap(e.w, e.mem), Overlay(k, remains)) && Writes(e.w.written) == Writes(s.w.written)
  {
    var late := Move(OpAcquire(true, NO_LEASE, 1), LandsLate, None);
    LateAcquire(k, s);
    StepKeeps(k, s, late);
    var a := Step(k, s, late);
    CutServes(k, a, remains);
    RunTwo(k, s, late, CutShutdown(true, remains));
    var t := Step(k, a, CutShutdown(true, remains));
    ReopeningServes(k, t);
    RunOne(k, t, Reopening(k, t.w));
  }
}
