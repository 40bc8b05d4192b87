/**
 The world a daemon session lives in: its durable files, the processes allowed to write into
 its view, and the record the daemon keeps in memory.  Everything the operating system or
 another process decides is a `Choice`, so that quantifying over oracles quantifies over every
 failure and every interleaving with the writers.
 */
module SessionModel {
  import opened Common

  /** File contents by path: the content of a base tree, of an upper layer or of a view. */
  type View = map<string, string>
  type Text = string
  type RootId = nat

  /** A process identity: PID and start time together, so it is never reused.  0 is "none". */
  type Proc = nat
  const NOBODY: Proc := 0

  /** A lease identifier.  0 is the empty string. */
  type Lease = nat
  const NO_LEASE: Lease := 0

  /**
   What the session is built on: the pinned base, the patch that is there first, Git's diff and
   apply, OverlayFS and SHA-256.
   */
  datatype Setup = Setup(
    base: View,
    first: Text,
    repoMode: bool,
    diff: (View, View) -> Text,
    replay: (View, Text) -> View,
    overlay: (View, View) -> View,
    capture: (View, View) -> View,
    sum: Text -> int)

  function Diff(k: Setup, view: View): Text { (k.diff)(k.base, view) }
  function Replay(k: Setup, patch: Text): View { (k.replay)(k.base, patch) }
  function Overlay(k: Setup, upper: View): View { (k.overlay)(k.base, upper) }
  function Capture(k: Setup, view: View): View { (k.capture)(k.base, view) }
  function Sum(k: Setup, patch: Text): int { (k.sum)(patch) }

  /** Exporting what the first patch gives would record its own checksum. */
  predicate InExportForm(k: Setup) {
    Sum(k, k.first) == Sum(k, Diff(k, Replay(k, k.first)))
  }

  /** What the tools guarantee: diff and apply, like capture and overlay, are inverse. */
  ghost predicate Lawful(k: Setup) {
    && (forall v: View :: Replay(k, Diff(k, v)) == v)
    && (forall v: View :: Overlay(k, Capture(k, v)) == v)
  }

  /**
   A session root: its base worktree while it has one, its upper layer, which is no longer whole
   once removal has begun to delete it, and the masks mounted over its view.
   */
  datatype Root = Root(base: Option<View>, upper: View, whole: bool, masks: set<string>)

  /** The durable metadata file. */
  datatype Meta = Meta(
    root: RootId, dirty: bool, generation: nat, lastDurable: nat, viewGen: nat,
    owner: Proc, exec: Proc, checksum: int)

  /** The in-memory session. */
  datatype Mem = Mem(
    root: RootId, busy: bool, lease: Lease, owner: Proc, exec: Proc, dirty: bool,
    generation: nat, lastDurable: nat, viewGen: nat, checksum: int,
    masks: set<string>, closed: bool)

  /** Write authority handed to a lease holder; `life` and `incarnation` only label it. */
  datatype Grant = Grant(
    lease: Lease, owner: Proc, generation: nat, viewGen: nat, root: RootId,
    life: nat, incarnation: nat)

  /** Write authority of a process group whose attachment was accepted. */
  datatype Group = Group(proc: Proc, root: RootId)

  /** The content a removed root held, and the patch that was on disk at that moment. */
  datatype Discard = Discard(view: View, patch: Text)

  /** The content of the session changes by an authorised write, or by reopening a damaged upper layer. */
  datatype Change = Wrote(view: View) | Damaged(view: View)

  datatype World = World(
    meta: Option<Meta>,
    patch: Text,
    roots: map<RootId, Root>,
    nextRoot: RootId,
    leases: set<Grant>,
    groups: set<Group>,
    dead: set<Proc>,
    // Bookkeeping that no operation reads.
    written: seq<Change>,   // the first content, then every change of it
    issued: seq<Grant>,     // every grant ever returned by acquire
    discarded: seq<Discard>,
    life: nat,              // how often the metadata file was removed
    incarnation: nat,       // how often a session was opened
    torn: bool,             // the session went busy over clean metadata; no good write since
    exposed: bool)          // a removal changed what a restart would serve: see `Gutted`

  /** The content left by the last change. */
  function Want(w: World): View {
    if w.written == [] then map[] else w.written[|w.written| - 1].view
  }

  /** One instant at which the daemon may be killed. */
  datatype Snap = Snap(w: World, mem: Option<Mem>)

  datatype State = State(w: World, mem: Option<Mem>, tick: nat, log: seq<Snap>)

  /** The outcome of replacing a file: an error may come before or after the rename. */
  datatype Fate = Failed | FailedAfterRename | Done

  /** What other processes do between two effects of the daemon. */
  datatype Event =
    | LeaseWrite(grant: Grant, upper: View)
    | GroupWrite(group: Group, upper: View)
    | Die(proc: Proc)
    | TamperBase(root: RootId, base: View)

  /**
   How far the removal of a session root got, and with `keepsBase` whether its base worktree was
   still in place when the upper layer was touched.
   */
  datatype Extent = Untouched | BaseOnly | Partly | Gone

  datatype Choice = Choice(
    env: seq<Event>, fate: Fate, ok: bool, spurious: bool,
    unmaskErrors: set<string>, maskMade: set<string>, nonce: nat,
    extent: Extent, keepsBase: bool, remains: View)

  type Oracle = nat -> Choice

  function At(o: Oracle, tick: nat): Choice { o(tick) }

  datatype Res = Res(st: State, ok: bool)

  // ---------------------------------------------------------------- the other processes

  function Loaded(mem: Option<Mem>): Option<RootId> {
    if mem.Some? then Some(mem.value.root) else None
  }

  function WriteUpper(k: Setup, w: World, r: RootId, upper: View): World
    requires r in w.roots
  {
    w.(roots := w.roots[r := w.roots[r].(upper := upper)], written := w.written + [Wrote(Overlay(k, upper))])
  }

  /** Events change upper layers, base worktrees, deaths and authority, nothing else. */
  ghost predicate Elsewhere(w: World, v: World, loaded: Option<RootId>) {
    && v.meta == w.meta && v.patch == w.patch && v.nextRoot == w.nextRoot
    && v.issued == w.issued && v.discarded == w.discarded
    && v.life == w.life && v.incarnation == w.incarnation && v.torn == w.torn
    && v.exposed == w.exposed
    && v.roots.Keys == w.roots.Keys && w.dead <= v.dead && v.leases <= w.leases && v.groups <= w.groups
    && (forall x :: x in w.roots ==>
          && v.roots[x].masks == w.roots[x].masks && v.roots[x].whole == w.roots[x].whole
          && (v.roots[x].base.None? <==> w.roots[x].base.None?))
    && (loaded.Some? && loaded.value in w.roots ==>
          v.roots[loaded.value].base == w.roots[loaded.value].base)
  }

  /** One event.  A write without authority, or into a removed root, does nothing. */
  function Happen(k: Setup, w: World, loaded: Option<RootId>, e: Event): (v: World)
    ensures Elsewhere(w, v, loaded)
  {
    match e
    case LeaseWrite(g, u) =>
      if g in w.leases && g.root in w.roots then WriteUpper(k, w, g.root, u) else w
    case GroupWrite(g, u) =>
      if g in w.groups && g.root in w.roots then WriteUpper(k, w, g.root, u) else w
    case Die(p) => Died(w, loaded, p)
    case TamperBase(r, b) => if loaded != Some(r) then Tampered(w, loaded, r, b) else w
  }

  function Died(w: World, loaded: Option<RootId>, p: Proc): (v: World)
    ensures Elsewhere(w, v, loaded)
  {
    w.(dead := w.dead + {p},
       leases := (set g | g in w.leases && g.owner != p),
       groups := (set g | g in w.groups && g.proc != p))
  }

  /** A base worktree that is still there changes. */
  function Tampered(w: World, loaded: Option<RootId>, r: RootId, b: View): (v: World)
    requires loaded != Some(r)
    ensures Elsewhere(w, v, loaded)
  {
    if Usable(w, r) then w.(roots := w.roots[r := w.roots[r].(base := Some(b))]) else w
  }

  function Env(k: Setup, w: World, loaded: Option<RootId>, events: seq<Event>): (v: World)
    ensures Elsewhere(w, v, loaded)
    decreases |events|
  {
    if events == [] then w
    else Env(k, Happen(k, w, loaded, events[0]), loaded, events[1..])
  }

  // ---------------------------------------------------------------- effects of the daemon

  /** Let the other processes run; every effect starts with this. */
  function Sync(k: Setup, s: State, o: Oracle): (t: State)
    ensures t.mem == s.mem && t.tick == s.tick + 1
  {
    var w := Env(k, s.w, Loaded(s.mem), At(o, s.tick).env);
    State(w, s.mem, s.tick + 1, s.log + [Snap(w, s.mem)])
  }

  /** Make a durable change and note it as a possible last instant. */
  function Commit(s: State, w: World): State {
    s.(w := w, log := s.log + [Snap(w, s.mem)])
  }

  function With(s: State, m: Mem): State {
    s.(mem := Some(m))
  }

  function Snapshot(m: Mem): Meta {
    Meta(m.root, m.dirty, m.generation, m.lastDurable, m.viewGen, m.owner, m.exec, m.checksum)
  }

  /** The clauses of the metadata validator that depend on session state. */
  predicate ValidMeta(m: Meta) {
    && m.lastDurable <= m.generation
    && (!m.dirty ==> m.generation == m.lastDurable)
    && (m.exec != NOBODY ==> m.dirty)
  }

  /** Validate and write the metadata file. */
  function Persist(k: Setup, s: State, o: Oracle): (r: Res)
    requires s.mem.Some?
    ensures r.st.mem == s.mem
  {
    var fate := At(o, s.tick).fate;
    var s1 := Sync(k, s, o);
    var meta := Snapshot(s1.mem.value);
    if !ValidMeta(meta) || fate == Failed then Res(s1, false)
    else
      Res(Commit(s1, s1.w.(meta := Some(meta), torn := s1.w.torn && fate != Done)), fate == Done)
  }

  /** The root still has what a view is made of. */
  predicate Usable(w: World, r: RootId) {
    r in w.roots && w.roots[r].base.Some?
  }

  function Content(k: Setup, root: Root): View
    requires root.base.Some?
  {
    (k.overlay)(root.base.value, root.upper)
  }

  /** Export the view and replace the patch file; only success updates the recorded checksum. */
  function WritePatch(k: Setup, s: State, o: Oracle): (r: Res)
    requires s.mem.Some?
    ensures r.st.mem.Some?
  {
    var fate := At(o, s.tick).fate;
    var s1 := Sync(k, s, o);
    var m := s1.mem.value;
    if fate == Failed || !Usable(s1.w, m.root) then Res(s1, false)
    else
      var text := Diff(k, Content(k, s1.w.roots[m.root]));
      var s2 := Commit(s1, s1.w.(patch := text));
      if fate == Done then Res(With(s2, m.(checksum := Sum(k, text))), true) else Res(s2, false)
  }

  function WithMasks(w: World, r: RootId, masks: set<string>): World {
    if r in w.roots then w.(roots := w.roots[r := w.roots[r].(masks := masks)]) else w
  }

  function MasksOf(w: World, r: RootId): set<string> {
    if r in w.roots then w.roots[r].masks else {}
  }

  /** Unmount the given masks; every path is tried, and an unmounted path is no error. */
  function Unmask(k: Setup, s: State, r: RootId, masks: set<string>, o: Oracle): (u: Res)
    ensures u.st.mem == s.mem
  {
    var errors := At(o, s.tick).unmaskErrors * masks;
    var s1 := Sync(k, s, o);
    Res(Commit(s1, WithMasks(s1.w, r, MasksOf(s1.w, r) - (masks - errors))), errors == {})
  }

  /** Mount masks over ignored files; a failure leaves the ones already made. */
  function Mask(k: Setup, s: State, o: Oracle): (u: Res)
    requires s.mem.Some?
    ensures u.st.mem == s.mem
  {
    var c := At(o, s.tick);
    var s1 := Sync(k, s, o);
    var r := s.mem.value.root;
    Res(Commit(s1, WithMasks(s1.w, r, MasksOf(s1.w, r) + c.maskMade)), c.ok)
  }

  function Discarded(k: Setup, w: World, r: RootId): World {
    if r in w.roots then
      w.(roots := w.roots - {r},
         discarded := w.discarded + [Discard(Overlay(k, w.roots[r].upper), w.patch)])
    else w
  }

  function WithoutBase(w: World, r: RootId): World {
    if r in w.roots then w.(roots := w.roots[r := w.roots[r].(base := None)]) else w
  }

  /** Dirty metadata names the root, which still has its base: a restart would reopen it. */
  predicate Reopens(k: Setup, w: World, r: RootId) {
    && r in w.roots && w.roots[r].base.Some? && !k.repoMode
    && w.meta.Some? && w.meta.value.dirty && w.meta.value.root == r
  }

  /** Only `remains` is left of the upper layer; its content is discarded from here on. */
  function Gutted(k: Setup, w: World, r: RootId, remains: View): World {
    if r in w.roots then
      w.(roots := w.roots[r := w.roots[r].(upper := remains, whole := false)],
         exposed := w.exposed || (Reopens(k, w, r) && Overlay(k, remains) != Want(w)),
         discarded := if !w.roots[r].whole then w.discarded
                      else w.discarded + [Discard(Overlay(k, w.roots[r].upper), w.patch)])
    else w
  }

  /**
   Remove a session root: its base worktree, then everything.  Mounts below it make this refuse; it
   may stop, or the daemon be killed, half-way; an error may come after it is gone.  When the worktree
   cannot be removed, a cleanup stack goes on (`goesOn`), and reports the error in the end.
   */
  function RemoveRoot(k: Setup, s: State, r: RootId, goesOn: bool, o: Oracle): (u: Res)
    ensures u.st.mem == s.mem
  {
    var c := At(o, s.tick);
    var s1 := Sync(k, s, o);
    if c.extent.Untouched? || MasksOf(s1.w, r) != {} || (WorktreeStays(k, c) && !goesOn) then Res(s1, false)
    else RemoveFrom(k, Commit(s1, if c.keepsBase then s1.w else WithoutBase(s1.w, r)), r, c)
  }

  /** Removing the base worktree failed; in repository mode there is none to remove. */
  predicate WorktreeStays(k: Setup, c: Choice) {
    c.keepsBase && !k.repoMode
  }

  function RemoveFrom(k: Setup, s: State, r: RootId, c: Choice): (u: Res)
    ensures u.st.mem == s.mem
  {
    if c.extent.BaseOnly? then Res(s, false)
    else
      var s1 := Commit(s, Gutted(k, s.w, r, c.remains));
      if c.extent.Partly? then Res(s1, false)
      else Res(Commit(s1, s1.w.(roots := s1.w.roots - {r})), c.fate == Done && !WorktreeStays(k, c))
  }

  function Forgotten(w: World): World {
    w.(meta := None, life := if w.meta.Some? then w.life + 1 else w.life)
  }

  /** Remove the metadata file; the directory sync may fail afterwards. */
  function RemoveMeta(k: Setup, s: State, o: Oracle): (u: Res)
    ensures u.st.mem == s.mem
  {
    var fate := At(o, s.tick).fate;
    var s1 := Sync(k, s, o);
    if fate == Failed then Res(s1, false) else Res(Commit(s1, Forgotten(s1.w)), fate == Done)
  }

  /** Is the recorded owner or command group possibly alive?  Never "no" for a live one. */
  predicate Alive(w: World, c: Choice, owner: Proc, exec: Proc) {
    || (owner != NOBODY && (owner !in w.dead || c.spurious))
    || (exec != NOBODY && (exec !in w.dead || c.spurious))
  }
}
