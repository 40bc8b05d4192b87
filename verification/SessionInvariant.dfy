/**
 The invariant of a session, and its preservation by the other processes and by every single
 effect of the daemon.  `Durable` is what must hold at any instant the daemon may be killed;
 `InMemory` ties the running session to it; `Settled` is what also holds between requests.
 */
module SessionInvariant {
  import opened Common
  import opened SessionModel
  import opened SessionSpec

  // ---------------------------------------------------------------- the invariant

  ghost predicate Quiet(w: World) {
    w.leases == {} && w.groups == {}
  }

  /** Replaying the patch gives the present content; exporting that would record the patch's checksum. */
  ghost predicate Saved(k: Setup, w: World) {
    && Replay(k, w.patch) == Want(w)
    && (InExportForm(k) ==> Sum(k, w.patch) == Sum(k, Diff(k, Want(w))))
  }

  ghost predicate Whole(w: World, r: RootId) {
    r in w.roots && w.roots[r].whole
  }

  /** The upper layer of `r`, over the pinned base, is the content last written. */
  ghost predicate Holds(k: Setup, w: World, r: RootId) {
    Whole(w, r) && Overlay(k, w.roots[r].upper) == Want(w)
  }

  ghost predicate Intact(k: Setup, w: World, r: RootId) {
    Whole(w, r) && w.roots[r].base == Some(k.base)
  }

  ghost predicate MarkedDirty(w: World) {
    w.meta.Some? && w.meta.value.dirty
  }

  /** What is on disk is enough to reopen the session with the content last written. */
  ghost predicate ContentOnDisk(k: Setup, w: World) {
    && (w.meta.Some? && Whole(w, w.meta.value.root) ==> Holds(k, w, w.meta.value.root))
    && (!(MarkedDirty(w) && Whole(w, w.meta.value.root)) ==> Quiet(w) && Saved(k, w))
    && (w.meta.Some? ==> ValidMeta(w.meta.value) && w.meta.value.root < w.nextRoot)
    && (forall r :: r in w.roots ==> r < w.nextRoot)
  }

  /** A restart would serve something else than the present content. */
  predicate Harmful(k: Setup, w: World) {
    && w.meta.Some? && Reopens(k, w, w.meta.value.root)
    && Overlay(k, w.roots[w.meta.value.root].upper) != Want(w)
  }

  /** Damage can only be found, and was only ever found, after a removal that exposed an upper layer. */
  ghost predicate DamageIsExposed(k: Setup, w: World) {
    && (Harmful(k, w) ==> w.exposed)
    && (forall c :: c in w.written && c.Damaged? ==> w.exposed)
  }

  /** Whoever may write is named by dirty metadata. */
  ghost predicate AuthorityOnDisk(w: World) {
    && (forall g :: g in w.leases ==>
          && MarkedDirty(w) && w.meta.value.owner == g.owner && w.meta.value.root == g.root
          && g.root in w.roots && g.owner != NOBODY && g.owner !in w.dead
          && g in w.issued && g.life == w.life)
    && (forall g :: g in w.groups ==>
          && MarkedDirty(w) && w.meta.value.exec == g.proc && w.meta.value.root == g.root
          && g.root in w.roots && g.proc != NOBODY && g.proc !in w.dead)
    && (w.meta.Some? && !w.meta.value.dirty ==> w.meta.value.owner == NOBODY)
    && (forall g, h :: g in w.leases && h in w.leases ==> g == h)
    && (forall g, h :: g in w.groups && h in w.groups ==> g == h)
  }

  /** Grants of one metadata file are numbered upwards, and the file has seen every number. */
  ghost predicate Numbered(w: World) {
    && (forall i, j :: 0 <= i < j < |w.issued| && w.issued[i].life == w.issued[j].life ==>
          w.issued[i].generation < w.issued[j].generation)
    && (forall g :: g in w.issued ==>
          g.life <= w.life && g.incarnation <= w.incarnation && g.viewGen > 0)
    && (forall g :: g in w.issued && g.life == w.life ==>
          w.meta.Some? && g.generation <= w.meta.value.generation && g.viewGen <= w.meta.value.viewGen)
  }

  ghost predicate DiscardsSaved(k: Setup, w: World) {
    forall d :: d in w.discarded ==> Replay(k, d.patch) == d.view
  }

  ghost predicate ChecksumRecorded(k: Setup, w: World) {
    w.meta.Some? && !w.meta.value.dirty && (InExportForm(k) || !w.torn) ==> w.meta.value.checksum == Sum(k, w.patch)
  }

  ghost predicate Durable(k: Setup, w: World) {
    && ContentOnDisk(k, w) && AuthorityOnDisk(w) && Numbered(w)
    && DiscardsSaved(k, w) && ChecksumRecorded(k, w) && DamageIsExposed(k, w)
  }

  ghost predicate InMemory(k: Setup, w: World, m: Mem) {
    && m.root < w.nextRoot
    && (Whole(w, m.root) ==> Holds(k, w, m.root))
    && (Usable(w, m.root) ==> w.roots[m.root].base == Some(k.base))
    && (m.dirty ==> Intact(k, w, m.root))
    && (MarkedDirty(w) ==> w.meta.value.root == m.root)
    && (w.meta.Some? && w.meta.value.root in w.roots ==> w.meta.value.root == m.root)
    && (m.closed ==> !m.dirty)
    && m.lastDurable <= m.generation && m.viewGen > 0
    && (!m.dirty ==> Saved(k, w) && m.generation == m.lastDurable && m.checksum == Sum(k, w.patch)
                     && !m.busy)
    && (!m.busy ==> Quiet(w) && m.owner == NOBODY && m.exec == NOBODY && m.lease == NO_LEASE)
    && (forall g :: g in w.leases ==> g == CurrentGrant(w, m))
    && (forall g :: g in w.groups ==> g.proc == m.exec && g.root == m.root)
    && (forall g :: g in w.issued && g.life == w.life ==>
          && g.generation <= m.generation && g.viewGen <= m.viewGen
          && (g.incarnation < w.incarnation ==> g.viewGen < m.viewGen)
          && (m.owner != NOBODY && g.generation == m.generation ==> g == CurrentGrant(w, m)))
  }

  ghost predicate Settled(w: World, m: Mem) {
    && (!m.closed ==> Usable(w, m.root) && Whole(w, m.root))
    && MasksOf(w, m.root) <= m.masks
    && (!m.busy ==> m.masks == {})
    && (m.busy ==> w.torn || MarkedDirty(w))
  }

  // `== true` keeps these predicates whole where they are to be proved.
  ghost predicate SnapGood(k: Setup, x: Snap) {
    (Durable(k, x.w) && (x.mem.Some? ==> InMemory(k, x.w, x.mem.value))) == true
  }

  ghost predicate LogGood(k: Setup, log: seq<Snap>) {
    forall i :: 0 <= i < |log| ==> SnapGood(k, log[i])
  }

  /** Holds throughout a request. */
  ghost predicate Good(k: Setup, s: State) {
    (SnapGood(k, Snap(s.w, s.mem)) && LogGood(k, s.log)) == true
  }

  /** Holds between requests. */
  ghost predicate Between(k: Setup, s: State) {
    Good(k, s) && (s.mem.Some? ==> Settled(s.w, s.mem.value))
  }

  // ---------------------------------------------------------------- the other processes

  lemma WriteKeeps(k: Setup, w: World, mem: Option<Mem>, r: RootId, upper: View)
    requires SnapGood(k, Snap(w, mem)) && !Quiet(w)
    requires MarkedDirty(w) && w.meta.value.root == r && r in w.roots
    requires mem.Some? ==> mem.value.root == r
    ensures SnapGood(k, Snap(WriteUpper(k, w, r, upper), mem))
  {
  }

  lemma DieOnDisk(k: Setup, w: World, loaded: Option<RootId>, p: Proc)
    requires Durable(k, w)
    ensures Durable(k, Died(w, loaded, p))
  {
    var v := Died(w, loaded, p);
    assert ContentOnDisk(k, v);
    assert AuthorityOnDisk(v);
  }

  lemma DieInMemory(k: Setup, w: World, m: Mem, p: Proc)
    requires InMemory(k, w, m)
    ensures InMemory(k, Died(w, Some(m.root), p), m)
  {
  }

  lemma DieKeeps(k: Setup, w: World, mem: Option<Mem>, p: Proc)
    requires SnapGood(k, Snap(w, mem))
    ensures SnapGood(k, Snap(Died(w, Loaded(mem), p), mem))
  {
    DieOnDisk(k, w, Loaded(mem), p);
    if mem.Some? { DieInMemory(k, w, mem.value, p); }
  }

  lemma TamperOnDisk(k: Setup, w: World, loaded: Option<RootId>, r: RootId, b: View)
    requires Durable(k, w) && loaded != Some(r)
    ensures Durable(k, Tampered(w, loaded, r, b))
  {
    var v := Tampered(w, loaded, r, b);
    assert ContentOnDisk(k, v);
    assert AuthorityOnDisk(v);
  }

  lemma TamperInMemory(k: Setup, w: World, m: Mem, r: RootId, b: View)
    requires InMemory(k, w, m) && m.root != r
    ensures InMemory(k, Tampered(w, Some(m.root), r, b), m)
  {
  }

  lemma TamperKeeps(k: Setup, w: World, mem: Option<Mem>, r: RootId, b: View)
    requires SnapGood(k, Snap(w, mem)) && Loaded(mem) != Some(r)
    ensures SnapGood(k, Snap(Tampered(w, Loaded(mem), r, b), mem))
  {
    TamperOnDisk(k, w, Loaded(mem), r, b);
    if mem.Some? { TamperInMemory(k, w, mem.value, r, b); }
  }

  ghost predicate SameUppers(w: World, v: World) {
    v.written == w.written && forall x :: x in w.roots && x in v.roots ==> v.roots[x].upper == w.roots[x].upper
  }

  lemma HappenKeeps(k: Setup, w: World, mem: Option<Mem>, e: Event)
    requires SnapGood(k, Snap(w, mem))
    ensures SnapGood(k, Snap(Happen(k, w, Loaded(mem), e), mem))
  {
    match e
    case LeaseWrite(g, u) => if g in w.leases && g.root in w.roots { WriteKeeps(k, w, mem, g.root, u); }
    case GroupWrite(g, u) => if g in w.groups && g.root in w.roots { WriteKeeps(k, w, mem, g.root, u); }
    case Die(p) => DieKeeps(k, w, mem, p);
    case TamperBase(r, b) => if Loaded(mem) != Some(r) { TamperKeeps(k, w, mem, r, b); }
  }

  /** Where nobody may write, no event changes any content. */
  lemma QuietHappens(k: Setup, w: World, loaded: Option<RootId>, e: Event)
    requires Quiet(w)
    ensures SameUppers(w, Happen(k, w, loaded, e))
  {
  }

  lemma {:induction false} EnvKeeps(k: Setup, w: World, mem: Option<Mem>, events: seq<Event>)
    requires SnapGood(k, Snap(w, mem))
    ensures SnapGood(k, Snap(Env(k, w, Loaded(mem), events), mem))
    ensures Quiet(w) ==> SameUppers(w, Env(k, w, Loaded(mem), events))
    decreases |events|
  {
    if events != [] {
      HappenKeeps(k, w, mem, events[0]);
      if Quiet(w) { QuietHappens(k, w, Loaded(mem), events[0]); }
      EnvKeeps(k, Happen(k, w, Loaded(mem), events[0]), mem, events[1..]);
    }
  }

  // ---------------------------------------------------------------- single effects

  /** What effects have in common: who is quiet stays quiet, and then the content is settled. */
  ghost predicate Follows(s: State, t: State) {
    && t.w.life == s.w.life && t.w.incarnation == s.w.incarnation
    && t.w.issued == s.w.issued && s.w.dead <= t.w.dead
    && (Quiet(s.w) ==> Quiet(t.w) && t.w.written == s.w.written)
    && (s.mem.Some? ==> t.mem.Some?)
  }

  /** The root of the session is where it was, with the masks it had. */
  ghost predicate SameRoots(s: State, t: State) {
    && t.w.roots.Keys == s.w.roots.Keys
    && (forall r :: r in s.w.roots ==>
          t.w.roots[r].masks == s.w.roots[r].masks && t.w.roots[r].whole == s.w.roots[r].whole)
    && (s.mem.Some? && s.mem.value.root in s.w.roots ==>
          t.w.roots[s.mem.value.root].base == s.w.roots[s.mem.value.root].base)
  }

  ghost predicate SameFiles(s: State, t: State) {
    t.w.meta == s.w.meta && t.w.patch == s.w.patch && t.w.torn == s.w.torn
  }

  lemma SyncKeeps(k: Setup, s: State, o: Oracle)
    requires Good(k, s)
    ensures var t := Sync(k, s, o);
      && Good(k, t) && Follows(s, t) && SameRoots(s, t) && SameFiles(s, t) && t.mem == s.mem
      && (Quiet(s.w) ==> SameUppers(s.w, t.w))
  {
    EnvKeeps(k, s.w, s.mem, At(o, s.tick).env);
  }

  lemma PublishKeeps(k: Setup, w: World, m: Mem, torn: bool)
    requires SnapGood(k, Snap(w, Some(m)))
    ensures ValidMeta(Snapshot(m))
    ensures SnapGood(k, Snap(w.(meta := Some(Snapshot(m)), torn := torn), Some(m)))
  {
  }

  lemma CommitKeeps(k: Setup, s: State, w: World)
    requires Good(k, s) && SnapGood(k, Snap(w, s.mem))
    ensures Good(k, Commit(s, w))
  {
  }

  lemma PersistKeeps(k: Setup, s: State, o: Oracle)
    requires Good(k, s) && s.mem.Some?
    ensures var r := Persist(k, s, o); var t := r.st;
      && Good(k, t) && Follows(s, t) && SameRoots(s, t) && t.mem == s.mem && t.w.patch == s.w.patch
      && (r.ok ==> t.w.meta == Some(Snapshot(s.mem.value)) && !t.w.torn)
      && (t.w.meta == s.w.meta || t.w.meta == Some(Snapshot(s.mem.value)))
      && (!r.ok ==> t.w.torn == s.w.torn)
  {
    SyncKeeps(k, s, o);
    var fate := At(o, s.tick).fate;
    var s1 := Sync(k, s, o);
    if fate != Failed {
      var torn := s1.w.torn && fate != Done;
      PublishKeeps(k, s1.w, s.mem.value, torn);
      CommitKeeps(k, s1, s1.w.(meta := Some(Snapshot(s.mem.value)), torn := torn));
    }
  }

  lemma NewPatchKeeps(k: Setup, w: World, m: Mem)
    requires Lawful(k) && SnapGood(k, Snap(w, Some(m))) && m.dirty && (w.torn || MarkedDirty(w))
    ensures var text := Diff(k, Content(k, w.roots[m.root])); var v := w.(patch := text);
      && Saved(k, v) && SnapGood(k, Snap(v, Some(m)))
      && SnapGood(k, Snap(v, Some(m.(checksum := Sum(k, text)))))
  {
  }

  lemma WritePatchKeeps(k: Setup, s: State, o: Oracle)
    requires Lawful(k) && Good(k, s) && s.mem.Some? && s.mem.value.dirty
    requires s.w.torn || MarkedDirty(s.w)
    ensures var r := WritePatch(k, s, o); var t := r.st;
      && Good(k, t) && Follows(s, t) && SameRoots(s, t)
      && t.w.meta == s.w.meta && t.w.torn == s.w.torn
      && t.mem == Some(s.mem.value.(checksum := t.mem.value.checksum))
      && (r.ok ==> Saved(k, t.w) && t.mem.value.checksum == Sum(k, t.w.patch))
  {
    SyncKeeps(k, s, o);
    var fate := At(o, s.tick).fate;
    var s1 := Sync(k, s, o);
    var m := s.mem.value;
    if fate != Failed { ExportKeeps(k, s1); }
  }

  /** Exporting the view, with the checksum recorded or not. */
  lemma ExportKeeps(k: Setup, s: State)
    requires Lawful(k) && Good(k, s) && s.mem.Some? && s.mem.value.dirty && (s.w.torn || MarkedDirty(s.w))
    ensures Usable(s.w, s.mem.value.root)
    ensures var m := s.mem.value; var text := Diff(k, Content(k, s.w.roots[m.root]));
      var t := Commit(s, s.w.(patch := text));
      Saved(k, t.w) && Good(k, t) && Good(k, With(t, m.(checksum := Sum(k, text))))
  {
    var m := s.mem.value;
    NewPatchKeeps(k, s.w, m);
    CommitKeeps(k, s, s.w.(patch := Diff(k, Content(k, s.w.roots[m.root]))));
  }

  lemma MasksOnDisk(k: Setup, w: World, r: RootId, masks: set<string>)
    requires Durable(k, w)
    ensures Durable(k, WithMasks(w, r, masks))
  {
    var v := WithMasks(w, r, masks);
    assert ContentOnDisk(k, v);
    assert AuthorityOnDisk(v);
  }

  lemma MasksInMemory(k: Setup, w: World, m: Mem, r: RootId, masks: set<string>)
    requires InMemory(k, w, m)
    ensures InMemory(k, WithMasks(w, r, masks), m)
  {
  }

  lemma NewMasksKeep(k: Setup, w: World, mem: Option<Mem>, r: RootId, masks: set<string>)
    requires SnapGood(k, Snap(w, mem))
    ensures SnapGood(k, Snap(WithMasks(w, r, masks), mem))
  {
    MasksOnDisk(k, w, r, masks);
    if mem.Some? { MasksInMemory(k, w, mem.value, r, masks); }
  }

  /** Setting the masks of a root touches nothing else. */
  lemma MasksSet(k: Setup, s: State, t: State, r: RootId, masks: set<string>)
    requires t == Commit(s, WithMasks(s.w, r, masks))
    ensures Follows(s, t) && SameFiles(s, t) && t.mem == s.mem && t.w.roots.Keys == s.w.roots.Keys
    ensures forall x :: Intact(k, s.w, x) ==> Intact(k, t.w, x)
    ensures MasksOf(t.w, r) == if r in s.w.roots then masks else {}
  {
  }

  lemma MasksKeep(k: Setup, s: State, r: RootId, masks: set<string>)
    requires Good(k, s)
    ensures Good(k, Commit(s, WithMasks(s.w, r, masks)))
  {
    NewMasksKeep(k, s.w, s.mem, r, masks);
    CommitKeeps(k, s, WithMasks(s.w, r, masks));
  }

  lemma UnmaskKeeps(k: Setup, s: State, r: RootId, masks: set<string>, o: Oracle)
    requires Good(k, s)
    ensures var u := Unmask(k, s, r, masks, o); var t := u.st;
      && Good(k, t) && Follows(s, t) && SameFiles(s, t) && t.mem == s.mem
      && t.w.roots.Keys == s.w.roots.Keys
      && (s.mem.Some? && Intact(k, s.w, s.mem.value.root) ==> Intact(k, t.w, s.mem.value.root))
      && MasksOf(t.w, r) <= MasksOf(s.w, r)
      && (u.ok ==> MasksOf(t.w, r) == MasksOf(s.w, r) - masks)
  {
    var s1 := Sync(k, s, o);
    var left := MasksOf(s1.w, r) - (masks - At(o, s.tick).unmaskErrors * masks);
    assert Unmask(k, s, r, masks, o).st == Commit(s1, WithMasks(s1.w, r, left));
    SyncKeeps(k, s, o);
    MasksKeep(k, s1, r, left);
    MasksSet(k, s1, Commit(s1, WithMasks(s1.w, r, left)), r, left);
  }

  lemma MaskKeeps(k: Setup, s: State, o: Oracle)
    requires Good(k, s) && s.mem.Some?
    ensures var u := Mask(k, s, o); var t := u.st; var r := s.mem.value.root;
      && Good(k, t) && Follows(s, t) && SameFiles(s, t) && t.mem == s.mem
      && t.w.roots.Keys == s.w.roots.Keys
      && (Intact(k, s.w, r) ==> Intact(k, t.w, r))
      && MasksOf(t.w, r) <= MasksOf(s.w, r) + At(o, s.tick).maskMade
  {
    SyncKeeps(k, s, o);
    var s1, r := Sync(k, s, o), s.mem.value.root;
    var masks := MasksOf(s1.w, r) + At(o, s.tick).maskMade;
    MasksKeep(k, s1, r, masks);
    MasksSet(k, s1, Commit(s1, WithMasks(s1.w, r, masks)), r, masks);
  }

  /** A root may go when the patch gives what it holds and nobody can write. */
  lemma DiscardKeeps(k: Setup, w: World, mem: Option<Mem>, r: RootId)
    requires SnapGood(k, Snap(w, mem)) && Quiet(w) && Saved(k, w)
    requires r in w.roots ==> Holds(k, w, r)
    requires mem.Some? && mem.value.root == r ==> !mem.value.dirty
    ensures SnapGood(k, Snap(Discarded(k, w, r), mem))
  {
  }

  /** Nobody needs the root any more: what it holds is saved, and the session is clean. */
  ghost predicate Spent(k: Setup, w: World, mem: Option<Mem>, r: RootId) {
    && Quiet(w) && Saved(k, w) && (Whole(w, r) ==> Holds(k, w, r))
    && (mem.Some? && mem.value.root == r ==> !mem.value.dirty)
  }

  lemma WithoutBaseKeeps(k: Setup, w: World, mem: Option<Mem>, r: RootId)
    requires SnapGood(k, Snap(w, mem)) && Spent(k, w, mem, r)
    ensures var v := WithoutBase(w, r); SnapGood(k, Snap(v, mem)) && Spent(k, v, mem, r)
  {
    WithoutBaseOnDisk(k, w, r);
    if mem.Some? { WithoutBaseInMemory(k, w, mem.value, r); }
  }

  lemma WithoutBaseOnDisk(k: Setup, w: World, r: RootId)
    requires Durable(k, w) && Spent(k, w, None, r)
    ensures var v := WithoutBase(w, r); Durable(k, v) && Spent(k, v, None, r)
  {
    assert ContentOnDisk(k, WithoutBase(w, r));
  }

  lemma WithoutBaseInMemory(k: Setup, w: World, m: Mem, r: RootId)
    requires InMemory(k, w, m) && (m.root == r ==> !m.dirty)
    ensures InMemory(k, WithoutBase(w, r), m)
  {
  }

  lemma GuttedOnDisk(k: Setup, w: World, r: RootId, remains: View)
    requires Durable(k, w) && Spent(k, w, None, r)
    ensures var v := Gutted(k, w, r, remains); Durable(k, v) && Spent(k, v, None, r)
  {
    var v := Gutted(k, w, r, remains);
    assert ContentOnDisk(k, v);
    assert DiscardsSaved(k, v);
  }

  lemma GuttedKeeps(k: Setup, w: World, mem: Option<Mem>, r: RootId, remains: View)
    requires SnapGood(k, Snap(w, mem)) && Spent(k, w, mem, r)
    ensures var v := Gutted(k, w, r, remains);
      SnapGood(k, Snap(v, mem)) && Spent(k, v, mem, r) && !Whole(v, r)
  {
    GuttedOnDisk(k, w, r, remains);
    if mem.Some? { GuttedInMemory(k, w, mem.value, r, remains); }
  }

  lemma GuttedInMemory(k: Setup, w: World, m: Mem, r: RootId, remains: View)
    requires InMemory(k, w, m) && (m.root == r ==> !m.dirty)
    ensures InMemory(k, Gutted(k, w, r, remains), m)
  {
  }

  lemma DropKeeps(k: Setup, w: World, mem: Option<Mem>, r: RootId)
    requires SnapGood(k, Snap(w, mem)) && Spent(k, w, mem, r) && !Whole(w, r)
    ensures var v := w.(roots := w.roots - {r}); SnapGood(k, Snap(v, mem)) && Spent(k, v, mem, r)
  {
  }

  lemma RemoveFromKeeps(k: Setup, s: State, r: RootId, c: Choice)
    requires Good(k, s) && Spent(k, s.w, s.mem, r)
    ensures var u := RemoveFrom(k, s, r, c); var t := u.st;
      && Good(k, t) && Follows(s, t) && SameFiles(s, t) && t.mem == s.mem && Saved(k, t.w)
      && t.w.roots.Keys <= s.w.roots.Keys && MasksOf(t.w, r) <= MasksOf(s.w, r)
      && (u.ok ==> r !in t.w.roots)
  {
    if c.extent.BaseOnly? { return; }
    var w := Gutted(k, s.w, r, c.remains);
    GuttedKeeps(k, s.w, s.mem, r, c.remains);
    CommitKeeps(k, s, w);
    if c.extent.Partly? { return; }
    DropKeeps(k, w, s.mem, r);
    CommitKeeps(k, Commit(s, w), w.(roots := w.roots - {r}));
  }

  lemma RemoveRootKeeps(k: Setup, s: State, r: RootId, goesOn: bool, o: Oracle)
    requires Good(k, s) && Spent(k, s.w, s.mem, r)
    ensures var u := RemoveRoot(k, s, r, goesOn, o); var t := u.st;
      && Good(k, t) && Follows(s, t) && SameFiles(s, t) && t.mem == s.mem && Saved(k, t.w)
      && t.w.roots.Keys <= s.w.roots.Keys
      && MasksOf(t.w, r) <= MasksOf(s.w, r)
      && (u.ok ==> r !in t.w.roots)
  {
    SyncKeeps(k, s, o);
    var s1 := Sync(k, s, o);
    var c := At(o, s.tick);
    if c.extent.Untouched? || MasksOf(s1.w, r) != {} || (WorktreeStays(k, c) && !goesOn) { return; }
    assert Whole(s1.w, r) <==> Whole(s.w, r);
    assert Spent(k, s1.w, s.mem, r);
    WithoutBaseKeeps(k, s1.w, s.mem, r);
    var w := if c.keepsBase then s1.w else WithoutBase(s1.w, r);
    CommitKeeps(k, s1, w);
    RemoveFromKeeps(k, Commit(s1, w), r, c);
  }

  lemma ForgetKeeps(k: Setup, w: World, m: Mem)
    requires SnapGood(k, Snap(w, Some(m))) && Quiet(w) && Saved(k, w)
    ensures SnapGood(k, Snap(Forgotten(w), Some(m)))
  {
  }

  lemma RemoveMetaKeeps(k: Setup, s: State, o: Oracle)
    requires Good(k, s) && s.mem.Some? && Quiet(s.w) && Saved(k, s.w)
    ensures var u := RemoveMeta(k, s, o); var t := u.st;
      && Good(k, t) && t.mem == s.mem && SameRoots(s, t)
  {
    SyncKeeps(k, s, o);
    var s1 := Sync(k, s, o);
    ForgetKeeps(k, s1.w, s.mem.value);
    CommitKeeps(k, s1, Forgotten(s1.w));
  }

  lemma NewRootKeeps(k: Setup, w: World)
    requires Lawful(k) && SnapGood(k, Snap(w, None)) && Saved(k, w)
    ensures var v := AddRoot(k, w);
      && SnapGood(k, Snap(v, None)) && Saved(k, v)
      && Holds(k, v, w.nextRoot) && Intact(k, v, w.nextRoot) && MasksOf(v, w.nextRoot) == {}
  {
  }

  lemma OpenFreshKeeps(k: Setup, s: State, o: Oracle)
    requires Lawful(k) && Good(k, s) && s.mem.None? && Quiet(s.w) && Saved(k, s.w)
    ensures var f := OpenFresh(k, s, o); var t := f.st;
      && Good(k, t) && Follows(s, t) && SameFiles(s, t) && t.mem.None? && Saved(k, t.w)
      && (f.ok ==> Holds(k, t.w, f.root) && Intact(k, t.w, f.root) && f.root < t.w.nextRoot
                   && MasksOf(t.w, f.root) == {})
      && f.root == s.w.nextRoot && t.w.roots.Keys <= s.w.roots.Keys + {f.root}
  {
    SyncKeeps(k, s, o);
    var s1 := Sync(k, s, o);
    NewRootKeeps(k, s1.w);
    var v := AddRoot(k, s1.w);
    CommitKeeps(k, s1, v);
    if At(o, s.tick).fate == Failed {
      DiscardKeeps(k, v, None, s1.w.nextRoot);
      CommitKeeps(k, Commit(s1, v), Discarded(k, v, s1.w.nextRoot));
    }
  }

  // ---------------------------------------------------------------- authority

  lemma GrantKeeps(k: Setup, s: State)
    requires Good(k, s) && s.mem.Some? && s.mem.value.busy && s.mem.value.owner != NOBODY
    requires s.w.meta == Some(Snapshot(s.mem.value))
    ensures Good(k, Granted(s)) && Granted(s).mem == s.mem
    ensures CurrentGrant(s.w, s.mem.value) in Granted(s).w.issued
  {
    var m := s.mem.value;
    var g := CurrentGrant(s.w, m);
    var v := Granted(s).w;
    assert m.dirty && MarkedDirty(s.w);
    assert forall x :: Holds(k, v, x) <==> Holds(k, s.w, x);
    assert ContentOnDisk(k, v);
    assert forall h :: h in v.leases ==> h == g;
    assert AuthorityOnDisk(v);
    assert Numbered(v);
    assert InMemory(k, v, m);
    CommitKeeps(k, s, v);
  }

  lemma AttachKeeps(k: Setup, s: State, proc: Proc)
    requires Good(k, s) && s.mem.Some? && s.mem.value.busy && s.mem.value.exec == proc
    requires proc != NOBODY && proc !in s.w.dead
    requires s.w.meta == Some(Snapshot(s.mem.value))
    ensures Good(k, Commit(s, s.w.(groups := s.w.groups + {Group(proc, s.mem.value.root)})))
  {
  }

  lemma RelinquishKeeps(k: Setup, s: State)
    requires Good(k, s) && s.mem.Some?
    requires s.mem.value.exec == NOBODY || s.mem.value.exec in s.w.dead
    ensures Good(k, Commit(s, Relinquish(s.w, s.mem.value.lease)))
    ensures Quiet(Relinquish(s.w, s.mem.value.lease))
  {
  }

  /** A session whose recorded owner and command group are gone has no writer left. */
  lemma DeadIsQuiet(k: Setup, w: World, m: Mem, c: Choice)
    requires SnapGood(k, Snap(w, Some(m))) && !Alive(w, c, m.owner, m.exec)
    ensures Quiet(w)
  {
  }

  lemma DeadOnDiskIsQuiet(k: Setup, w: World, c: Choice)
    requires Durable(k, w) && w.meta.Some? && !Alive(w, c, w.meta.value.owner, w.meta.value.exec)
    ensures Quiet(w)
  {
  }
}
