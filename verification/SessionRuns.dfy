/**
 What holds over every run: any number of requests, each of which may be cut short by a kill at
 any instant, under any failures and any interleaving with the writers.
 */
module SessionRuns {
  import opened Common
  import opened SessionModel
  import opened SessionSpec
  import opened SessionInvariant
  import opened SessionOps

  // ---------------------------------------------------------------- runs keep the invariant

  lemma InitialIsGood(k: Setup)
    ensures Between(k, Initial(k))
  {
  }

  lemma BeginKeeps(k: Setup, s: State)
    requires Between(k, s)
    ensures Between(k, Begin(s))
  {
  }

  lemma StepKeeps(k: Setup, s: State, move: Move)
    requires Lawful(k) && Between(k, s)
    ensures Between(k, Step(k, s, move))
  {
    BeginKeeps(k, s);
    DoKeeps(k, Begin(s), move.op, move.oracle);
    var r := Do(k, Begin(s), move.op, move.oracle).st;
    if move.kill.Some? && move.kill.value < |r.log| {
      assert SnapGood(k, r.log[move.kill.value]);
    }
  }

  lemma {:induction false} RunKeeps(k: Setup, s: State, moves: seq<Move>)
    requires Lawful(k) && Between(k, s)
    ensures Between(k, Run(k, s, moves))
    decreases |moves|
  {
    if moves != [] {
      StepKeeps(k, s, moves[0]);
      RunKeeps(k, Step(k, s, moves[0]), moves[1..]);
    }
  }

  /** The instants of one request at the end of a run. */
  function Instants(k: Setup, before: seq<Move>, op: Op, o: Oracle): seq<Snap> {
    Do(k, Begin(Run(k, Initial(k), before)), op, o).st.log
  }

  lemma InstantsAreGood(k: Setup, before: seq<Move>, op: Op, o: Oracle, i: nat)
    requires Lawful(k)
    ensures i < |Instants(k, before, op, o)| ==> SnapGood(k, Instants(k, before, op, o)[i])
  {
    InitialIsGood(k);
    RunKeeps(k, Initial(k), before);
    var s := Run(k, Initial(k), before);
    BeginKeeps(k, s);
    DoKeeps(k, Begin(s), op, o);
  }

  // ---------------------------------------------------------------- crash recovery

  /** A session is open and its view shows `v`; a view is gone before its upper layer is touched. */
  ghost predicate Shows(k: Setup, x: Snap, v: View) {
    && x.mem.Some? && !x.mem.value.closed && Usable(x.w, x.mem.value.root) && Whole(x.w, x.mem.value.root)
    && Content(k, x.w.roots[x.mem.value.root]) == v
  }

  lemma GoodShows(k: Setup, x: Snap, v: View)
    requires SnapGood(k, x)
    ensures Shows(k, x, v) ==> v == Want(x.w)
  {
  }

  lemma OpenShows(k: Setup, s: State)
    requires Between(k, s) && s.mem.Some? && !s.mem.value.closed
    ensures Shows(k, Snap(s.w, s.mem), Want(s.w))
  {
    assert InMemory(k, s.w, s.mem.value);
  }

  /** The view of an open session always shows the present content. */
  lemma ViewIsLastWrite(k: Setup, before: seq<Move>, op: Op, o: Oracle, i: nat, v: View)
    requires Lawful(k)
    ensures i < |Instants(k, before, op, o)| ==>
      var x := Instants(k, before, op, o)[i]; Shows(k, x, v) ==> v == Want(x.w)
  {
    if i >= |Instants(k, before, op, o)| { return; }
    InstantsAreGood(k, before, op, o, i);
    GoodShows(k, Instants(k, before, op, o)[i], v);
  }

  /** The content changes only by authorised writes, unless a removal exposed an upper layer. */
  lemma OnlyWritesChange(k: Setup, before: seq<Move>, op: Op, o: Oracle, i: nat)
    requires Lawful(k)
    ensures i < |Instants(k, before, op, o)| ==>
      var w := Instants(k, before, op, o)[i].w;
      !w.exposed ==> forall c :: c in w.written ==> c.Wrote?
  {
    InstantsAreGood(k, before, op, o, i);
  }

  predicate InUse(s: State) {
    s.mem.Some? && !s.mem.value.closed
  }

  /** What authorised writes left, in order. */
  function Writes(changes: seq<Change>): seq<View> {
    if changes == [] then []
    else (if changes[0].Wrote? then [changes[0].view] else []) + Writes(changes[1..])
  }

  lemma {:induction false} OnlyWrites(a: seq<Change>, b: seq<Change>)
    requires (forall c :: c in a ==> c.Wrote?) && (forall c :: c in b ==> c.Wrote?) && Writes(a) == Writes(b)
    ensures a == b
    decreases |a|
  {
    assert a != [] ==> a[0].Wrote? && Writes(a) != [];
    assert b != [] ==> b[0].Wrote? && Writes(b) != [];
    if a != [] {
      assert Writes(a)[1..] == Writes(a[1..]) && Writes(b)[1..] == Writes(b[1..]);
      OnlyWrites(a[1..], b[1..]);
      assert a == [a[0]] + a[1..] && b == [b[0]] + b[1..];
    }
  }

  /** The same world, with the record of changes and of exposing removals begun anew. */
  function Fresh(w: World): World {
    w.(written := [Wrote(Want(w))], exposed := false)
  }

  /** A daemon killed in this world, as the next one finds it. */
  function Killed(w: World): State { State(Fresh(w), None, 0, []) }

  lemma FreshIsDurable(k: Setup, w: World)
    requires Durable(k, w) && !Harmful(k, w)
    ensures Durable(k, Fresh(w)) && Want(Fresh(w)) == Want(w)
  {
  }

  /** The session is open again, nobody with authority wrote and no removal exposed an upper layer since. */
  predicate JustReopened(w: World, e: State) {
    InUse(e) && Writes(e.w.written) == [Want(w)] && !e.w.exposed
  }

  /** A kill after which no restart would serve something else: every reopening shows the content. */
  lemma ReopenedShows(k: Setup, w: World, after: seq<Move>)
    requires Lawful(k) && Durable(k, w) && !Harmful(k, w)
    ensures var e := Run(k, Killed(w), after); JustReopened(w, e) ==> Shows(k, Snap(e.w, e.mem), Want(w))
  {
    FreshIsDurable(k, w);
    assert Between(k, Killed(w));
    RunKeeps(k, Killed(w), after);
    var e := Run(k, Killed(w), after);
    if JustReopened(w, e) {
      OnlyWrites(e.w.written, [Wrote(Want(w))]);
      OpenShows(k, e);
    }
  }

  /**
   Kill the daemon at any instant of any request of any run.  If some later run reopens the session
   before anybody with authority wrote, its view is the one at the kill.  The only later runs not
   covered are those with a removal that leaves dirty metadata naming a root which still has its
   base and shows something else.
   */
  lemma CrashRecovery(k: Setup, before: seq<Move>, op: Op, o: Oracle, i: nat,
                      after: seq<Move>, v: View)
    requires Lawful(k)
    ensures i < |Instants(k, before, op, o)| ==>
      var x := Instants(k, before, op, o)[i];
      var e := Run(k, Killed(x.w), after);
      Shows(k, x, v) && JustReopened(x.w, e) ==> Shows(k, Snap(e.w, e.mem), v)
  {
    if i >= |Instants(k, before, op, o)| { return; }
    var x := Instants(k, before, op, o)[i];
    InstantsAreGood(k, before, op, o, i);
    if Shows(k, x, v) {
      ShownIsHarmless(k, x, v);
      ReopenedShows(k, x.w, after);
    }
  }

  /** While a view is there, the root that metadata names holds the content. */
  lemma ShownIsHarmless(k: Setup, x: Snap, v: View)
    requires SnapGood(k, x) && Shows(k, x, v)
    ensures v == Want(x.w) && !Harmful(k, x.w)
  {
    GoodShows(k, x, v);
  }

  /** With nothing open and no metadata left, the patch alone gives the last content. */
  lemma EndedIsSaved(k: Setup, before: seq<Move>, op: Op, o: Oracle, i: nat)
    requires Lawful(k)
    ensures i < |Instants(k, before, op, o)| ==>
      var w := Instants(k, before, op, o)[i].w;
      w.meta.None? || !w.meta.value.dirty ==> Replay(k, w.patch) == Want(w)
  {
    InstantsAreGood(k, before, op, o, i);
  }

  // ---------------------------------------------------------------- authority and discarding

  /** Whoever may write, at any instant, is named by dirty metadata on disk. */
  lemma AuthorityIsMarked(k: Setup, before: seq<Move>, op: Op, o: Oracle, i: nat)
    requires Lawful(k)
    ensures i < |Instants(k, before, op, o)| ==>
      var w := Instants(k, before, op, o)[i].w;
      && (forall g :: g in w.leases ==>
            w.meta.Some? && w.meta.value.dirty && w.meta.value.owner == g.owner
            && w.meta.value.root == g.root && g.root in w.roots)
      && (forall g :: g in w.groups ==>
            w.meta.Some? && w.meta.value.dirty && w.meta.value.exec == g.proc
            && w.meta.value.root == g.root && g.root in w.roots)
  {
    InstantsAreGood(k, before, op, o, i);
  }

  /** No root is ever removed unless replaying the patch of that moment gives what it held. */
  lemma DiscardedWereSaved(k: Setup, before: seq<Move>, op: Op, o: Oracle, i: nat)
    requires Lawful(k)
    ensures i < |Instants(k, before, op, o)| ==>
      forall d :: d in Instants(k, before, op, o)[i].w.discarded ==> Replay(k, d.patch) == d.view
  {
    InstantsAreGood(k, before, op, o, i);
  }

  // ---------------------------------------------------------------- leases

  lemma OneLease(k: Setup, before: seq<Move>, op: Op, o: Oracle, i: nat, g: Grant, h: Grant)
    requires Lawful(k)
    ensures i < |Instants(k, before, op, o)| ==>
      var w := Instants(k, before, op, o)[i].w; g in w.leases && h in w.leases ==> g == h
  {
    InstantsAreGood(k, before, op, o, i);
  }

  /** Successive grants under one metadata file carry strictly increasing generations. */
  lemma GenerationsIncrease(k: Setup, before: seq<Move>, op: Op, o: Oracle, i: nat,
                            a: nat, b: nat)
    requires Lawful(k)
    ensures i < |Instants(k, before, op, o)| ==>
      var issued := Instants(k, before, op, o)[i].w.issued;
      a < b < |issued| && issued[a].life == issued[b].life ==> issued[a].generation < issued[b].generation
  {
    InstantsAreGood(k, before, op, o, i);
  }

  /** A lease of an earlier incarnation is refused by its view generation, on release and on attach. */
  lemma StaleLeaseRefused(k: Setup, before: seq<Move>, g: Grant, proc: Proc, o: Oracle)
    requires Lawful(k)
    ensures var s := Begin(Run(k, Initial(k), before));
      var a := Release(k, s, g.lease, g.viewGen, o);
      var b := Attach(k, s, g.lease, g.viewGen, proc, o);
      g in s.w.issued && g.life == s.w.life && g.incarnation < s.w.incarnation ==>
      && !a.ok && a.st.mem == s.mem && a.st.w.meta == s.w.meta && a.st.w.patch == s.w.patch
      && !b.ok && b.st.mem == s.mem && b.st.w.meta == s.w.meta && b.st.w.groups <= s.w.groups
  {
    InitialIsGood(k);
    RunKeeps(k, Initial(k), before);
    var s := Begin(Run(k, Initial(k), before));
    if s.mem.Some? && g in s.w.issued && g.life == s.w.life && g.incarnation < s.w.incarnation {
      assert InMemory(k, s.w, s.mem.value);
      assert 0 < g.viewGen < s.mem.value.viewGen;
    }
  }

  /** The process is not killed while the request runs. */
  ghost predicate Spares(o: Oracle, p: Proc) {
    forall n: nat, j :: 0 <= j < |At(o, n).env| ==> At(o, n).env[j] != Die(p)
  }

  lemma {:induction false} EnvSpares(k: Setup, w: World, loaded: Option<RootId>, events: seq<Event>, p: Proc)
    requires p !in w.dead && forall j :: 0 <= j < |events| ==> events[j] != Die(p)
    ensures p !in Env(k, w, loaded, events).dead
    decreases |events|
  {
    if events != [] {
      assert events[0] != Die(p);
      EnvSpares(k, Happen(k, w, loaded, events[0]), loaded, events[1..], p);
    }
  }

  lemma SyncSpares(k: Setup, s: State, o: Oracle, p: Proc)
    requires p !in s.w.dead && Spares(o, p)
    ensures p !in Sync(k, s, o).w.dead
  {
    EnvSpares(k, s.w, Loaded(s.mem), At(o, s.tick).env, p);
  }

  /**
   Asking again for the lease one holds, with the same identifier and owner, changes neither the
   lease nor its generation, and it succeeds exactly when the metadata can be written.
   */
  lemma RetryKeepsLease(k: Setup, s: State, o: Oracle)
    requires s.mem.Some? && s.mem.value.busy && !s.mem.value.closed
    requires s.mem.value.lease != NO_LEASE && s.mem.value.owner != NOBODY
    requires s.mem.value.owner !in s.w.dead && Spares(o, s.mem.value.owner)
    ensures var m := s.mem.value;
      var r := Acquire(k, s, true, m.lease, m.owner, o);
      && r.st.mem == s.mem
      && (r.ok <==> Persist(k, s, o).ok)
      && (r.ok ==> CurrentGrant(r.st.w, m) in r.st.w.leases && CurrentGrant(r.st.w, m) in r.st.w.issued)
  {
    var m := s.mem.value;
    SyncSpares(k, s, o, m.owner);
    var a := Persist(k, s, o);
    assert EnsureLocked(k, s, true, o) == a;
    if a.ok {
      SyncSpares(k, a.st, o, m.owner);
      var s1 := Sync(k, a.st, o);
      assert RecoverBusy(k, a.st, o) == Res(s1, true);
      assert Acquire(k, s, true, m.lease, m.owner, o) == Res(Granted(s1), true);
    }
  }

  // ---------------------------------------------------------------- checkpoints

  /** Every snapshot handed to the metadata writer passes its validation. */
  lemma SnapshotsValidate(k: Setup, before: seq<Move>, op: Op, o: Oracle, i: nat)
    requires Lawful(k)
    ensures i < |Instants(k, before, op, o)| ==>
      var x := Instants(k, before, op, o)[i];
      x.mem.Some? ==> ValidMeta(Snapshot(x.mem.value))
  {
    InstantsAreGood(k, before, op, o, i);
  }

  /** Clean metadata records the checksum of the patch on disk, unless the session is torn. */
  lemma ChecksumsMatch(k: Setup, before: seq<Move>, op: Op, o: Oracle, i: nat)
    requires Lawful(k)
    ensures i < |Instants(k, before, op, o)| ==>
      var w := Instants(k, before, op, o)[i].w;
      w.meta.Some? && !w.meta.value.dirty && !w.torn ==> w.meta.value.checksum == Sum(k, w.patch)
  {
    InstantsAreGood(k, before, op, o, i);
  }
}
