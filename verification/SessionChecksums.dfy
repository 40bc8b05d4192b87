/**
 When clean metadata always records the checksum of the patch on disk: exactly when the first patch
 has the checksum of what the exporter writes for it.
 */
module SessionChecksums {
  import opened Common
  import opened SessionModel
  import opened SessionSpec
  import opened SessionInvariant
  import opened SessionOps
  import opened SessionRuns
  import opened SessionOutcomes

  ghost predicate ChecksumHolds(k: Setup, w: World) {
    w.meta.Some? && !w.meta.value.dirty ==> w.meta.value.checksum == Sum(k, w.patch)
  }

  /** At every instant of every request of every run. */
  ghost predicate ChecksumsAlwaysHold(k: Setup) {
    forall before: seq<Move>, op: Op, o: Oracle, i: nat :: i < |Instants(k, before, op, o)| ==>
      ChecksumHolds(k, Instants(k, before, op, o)[i].w)
  }

  lemma ExportFormHolds(k: Setup)
    requires Lawful(k) && InExportForm(k)
    ensures ChecksumsAlwaysHold(k)
  {
    forall before: seq<Move>, op: Op, o: Oracle, i: nat | i < |Instants(k, before, op, o)|
      ensures ChecksumHolds(k, Instants(k, before, op, o)[i].w)
    {
      InstantsAreGood(k, before, op, o, i);
    }
  }

  // ---------------------------------------------------------------- a first patch in another form

  function FirstRequest(): Move { Move(OpEnsure(true), SmoothAt, None) }

  function LostAcquire(): Move { Move(OpAcquire(true, NO_LEASE, 1), LosesBoth, None) }

  /** Opening the session for the first time, with nothing going wrong. */
  lemma FirstOpen(k: Setup)
    requires Lawful(k)
    ensures var s := Step(k, Initial(k), FirstRequest());
      && Between(k, s) && s.mem.Some? && !s.mem.value.busy && !s.mem.value.closed && !s.mem.value.dirty
      && s.w.patch == k.first && s.w.dead == {} && Want(s.w) == Replay(k, k.first)
  {
    var o: Oracle := SmoothAt;
    assert forall n: nat :: At(o, n) == Smooth();
    InitialIsGood(k);
    StepKeeps(k, Initial(k), Move(OpEnsure(true), o, None));
    var t := Begin(Initial(k));
    StillSync(k, t, o);
    var s1 := Sync(k, t, o);
    StillSync(k, s1, o);
    var f := OpenFresh(k, s1, o);
    assert f.ok && f.st.w.patch == k.first && f.st.w.dead == {};
    var s2 := Opening(f.st, f.root, false, 0, 0, 1, Sum(k, f.st.w.patch));
    StillSync(k, s2, o);
    assert Persist(k, s2, o).ok;
    assert EnsureLocked(k, t, true, o) == PublishNew(k, s2, o);
  }

  /** The world a request leaves is that of its last instant. */
  ghost predicate EndsInLog(s: State) {
    s.log != [] && s.log[|s.log| - 1].w == s.w
  }

  lemma RecoveredEndsInLog(k: Setup, s: State, o: Oracle)
    requires s.mem.Some?
    ensures EndsInLog(FinishBusy(k, s, o).st)
  {
  }

  lemma ListIs(k: Setup, s: State)
    requires s.mem.Some? && s.mem.value.busy && s.mem.value.owner == 1 && s.mem.value.exec == NOBODY
    ensures EndsInLog(Do(k, Begin(s), OpList, DiesThenLoses).st)
  {
    ListFinishes(k, s);
    RecoveredEndsInLog(k, Sync(k, Begin(s), DiesThenLoses), DiesThenLoses);
  }

  /** The last instant of recovering a lost acquire shows the mismatch. */
  lemma MismatchShows(k: Setup, s: State)
    requires Lawful(k) && Between(k, s) && s.mem.Some? && 1 !in s.w.dead
    requires !s.mem.value.busy && !s.mem.value.closed && !s.mem.value.dirty
    requires Sum(k, Diff(k, Want(s.w))) != Sum(k, s.w.patch)
    ensures var log := Do(k, Begin(Step(k, s, LostAcquire())), OpList, DiesThenLoses).st.log;
      log != [] && !ChecksumHolds(k, log[|log| - 1].w)
  {
    var t := Step(k, s, LostAcquire());
    InMemoryValidates(k, s);
    TornAcquire(k, s);
    ListIs(k, t);
    DoubleFaultMismatch(k, s);
    RunTwo(k, s, LostAcquire(), Move(OpList, DiesThenLoses, None));
  }

  lemma InstantsAfter(k: Setup, first: Move, second: Move, op: Op, o: Oracle)
    ensures var t := Step(k, Step(k, Initial(k), first), second);
      Instants(k, [first, second], op, o) == Do(k, Begin(t), op, o).st.log
  {
    RunTwo(k, Initial(k), first, second);
  }

  lemma OneInstantFails(k: Setup, before: seq<Move>, op: Op, o: Oracle, log: seq<Snap>)
    requires log == Instants(k, before, op, o) && log != [] && !ChecksumHolds(k, log[|log| - 1].w)
    ensures !ChecksumsAlwaysHold(k)
  {
    assert !ChecksumHolds(k, Instants(k, before, op, o)[|log| - 1].w);
  }

  /** A first patch in another form: open, lose both writes of an acquire, recover it. */
  lemma OtherFormFails(k: Setup)
    requires Lawful(k) && !InExportForm(k)
    ensures !ChecksumsAlwaysHold(k)
  {
    FirstOpen(k);
    var s := Step(k, Initial(k), FirstRequest());
    MismatchShows(k, s);
    InstantsAfter(k, FirstRequest(), LostAcquire(), OpList, DiesThenLoses);
    var log := Do(k, Begin(Step(k, s, LostAcquire())), OpList, DiesThenLoses).st.log;
    OneInstantFails(k, [FirstRequest(), LostAcquire()], OpList, DiesThenLoses, log);
  }

  /** Whatever fails and whenever the daemon is killed, the checksums match if and only if it is so. */
  lemma ChecksumsExactly(k: Setup)
    requires Lawful(k)
    ensures ChecksumsAlwaysHold(k) <==> InExportForm(k)
  {
    if InExportForm(k) {
      ExportFormHolds(k);
    } else {
      OtherFormFails(k);
    }
  }
}
