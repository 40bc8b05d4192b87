/** The stack of cleanup actions: run in reverse, keep what failed, and try that again later. */
module CleanupStack {
  import opened Common

  type Path = string

  datatype Action =
    | Unmount(path: Path)
    | RemoveGuarded(root: Path)     // refuses while anything is mounted below the root
    | Other

  /** A pushed action; `id` counts the pushes. */
  datatype Entry = Entry(id: nat, action: Action)

  datatype Event =
    | Ran(id: nat, ok: bool)
    | Removed(root: Path, mounts: set<Path>)    // with what was mounted at that moment

  datatype World = World(mounts: set<Path>, log: seq<Event>, tick: nat)

  /** Does the system call fail, and what have others mounted meanwhile? */
  datatype Choice = Choice(fails: bool, mounted: set<Path>)
  type Oracle = nat -> Choice

  function At(o: Oracle, tick: nat): Choice { o(tick) }

  predicate Below(path: Path, root: Path) {
    path == root || (|root| < |path| && path[..|root|] == root && path[|root|] == '/')
  }

  predicate MountsBelow(mounts: set<Path>, root: Path) {
    exists m :: m in mounts && Below(m, root)
  }

  datatype Done = Done(w: World, ok: bool)

  function Noted(w: World, id: nat, ok: bool): Done {
    Done(w.(log := w.log + [Ran(id, ok)]), ok)
  }

  /** Run one action. */
  function Perform(w: World, e: Entry, o: Oracle): Done {
    var c := At(o, w.tick);
    var v := w.(mounts := w.mounts + c.mounted, tick := w.tick + 1);
    match e.action
    case Unmount(path) => if c.fails then Noted(v, e.id, false) else Noted(v.(mounts := v.mounts - {path}), e.id, true)
    case RemoveGuarded(root) =>
      if MountsBelow(v.mounts, root) || c.fails then Noted(v, e.id, false)
      else Noted(v.(log := v.log + [Removed(root, v.mounts)]), e.id, true)
    case Other => Noted(v, e.id, !c.fails)
  }

  /** What is left of the stack, and the world, after running everything from the top down. */
  datatype Swept = Swept(left: seq<Entry>, w: World)

  function Sweep(entries: seq<Entry>, w: World, o: Oracle): (s: Swept)
    ensures |s.left| <= |entries|
    decreases |entries|
  {
    if entries == [] then Swept([], w)
    else
      var top := entries[|entries| - 1];
      var d := Perform(w, top, o);
      var s := Sweep(entries[..|entries| - 1], d.w, o);
      if d.ok then s else Swept(s.left + [top], s.w)
  }

  // ---------------------------------------------------------------- the stack in memory

  function Present(slots: seq<Option<Entry>>): seq<Entry> {
    if slots == [] then []
    else
      var last := slots[|slots| - 1];
      Present(slots[..|slots| - 1]) + if last.Some? then [last.value] else []
  }

  lemma PresentSnoc(slots: seq<Option<Entry>>, n: nat)
    requires n < |slots|
    ensures Present(slots[..n + 1]) == Present(slots[..n]) + if slots[n].Some? then [slots[n].value] else []
  {
    assert slots[..n + 1][..n] == slots[..n];
  }

  lemma {:induction false} PresentConcat(a: seq<Option<Entry>>, b: seq<Option<Entry>>)
    ensures Present(a + b) == Present(a) + Present(b)
    decreases |b|
  {
    if b == [] {
      assert a + b == a;
    } else {
      assert (a + b)[..|a + b| - 1] == a + b[..|b| - 1];
      PresentConcat(a, b[..|b| - 1]);
    }
  }

  class Stack {
    var fns: array<Option<Entry>>
    var len: nat
    var pushes: nat
    var w: World
    const oracle: Oracle

    ghost predicate Valid()
      reads this, fns
    {
      len <= fns.Length && forall i :: 0 <= i < len ==> fns[i].Some?
    }

    ghost function Pending(): seq<Entry>
      reads this, fns
      requires Valid()
    {
      Present(fns[..len])
    }

    constructor (oracle: Oracle, mounts: set<Path>)
      ensures Valid() && fresh(fns) && this.oracle == oracle
      ensures Pending() == [] && pushes == 0 && w == World(mounts, [], 0)
    {
      fns := new Option<Entry>[4](i => None);
      len, pushes, w, this.oracle := 0, 0, World(mounts, [], 0), oracle;
    }

    method Push(action: Option<Action>)
      requires Valid()
      modifies this, fns
      ensures Valid() && w == old(w) && (fns == old(fns) || fresh(fns))
      ensures pushes == old(pushes) + if action.Some? then 1 else 0
      ensures Pending() ==
        old(Pending()) + if action.Some? then [Entry(old(pushes), action.value)] else []
    {
      if action.None? {
        return;
      }
      ghost var was := fns[..len];
      if len == fns.Length {
        Grow();
      }
      var slot := Some(Entry(pushes, action.value));
      fns[len] := slot;
      len := len + 1;
      pushes := pushes + 1;
      assert fns[..len] == was + [slot];
      PresentConcat(was, [slot]);
      PresentOne(slot);
    }

    method Grow()
      requires Valid()
      modifies this`fns
      ensures Valid() && fresh(fns) && len < fns.Length && fns[..len] == old(fns[..len])
    {
      var more := new Option<Entry>[2 * fns.Length + 1](i => None);
      for i := 0 to len
        invariant fns == old(fns) && len <= fns.Length && fns[..] == old(fns[..])
        invariant more[..i] == fns[..i]
      {
        more[i] := fns[i];
      }
      fns := more;
    }

    method Call(e: Entry) returns (ok: bool)
      modifies this`w
      ensures Done(w, ok) == Perform(old(w), e, oracle)
    {
      var d := Perform(w, e, oracle);
      w := d.w;
      return d.ok;
    }

    /** Run every action from the top down, clear the slots of those that succeed, close the gaps. */
    method Run() returns (ok: bool)
      requires Valid()
      modifies this`w, this`len, fns
      ensures Valid()
      ensures Swept(Pending(), w) == Sweep(old(Pending()), old(w), oracle)
      ensures ok <==> Pending() == []
    {
      ok := SweepSlots();
      AllSwept(old(fns[..len]), old(w), w, fns[..len], oracle);
      Compact();
    }

    method SweepSlots() returns (ok: bool)
      requires Valid()
      modifies this`w, fns
      ensures SweptTo(old(fns[..len]), old(w), 0, w, fns[..len], oracle)
      ensures ok <==> NonePresent(fns[..len])
    {
      ghost var was := fns[..len];
      ok := true;
      var i := len;
      NothingSwept(was, w, fns[len..len], oracle);
      while i > 0
        invariant 0 <= i <= len <= fns.Length
        invariant fns[..i] == was[..i]
        invariant SweptTo(was, old(w), i, w, fns[i..len], oracle)
        invariant ok <==> NonePresent(fns[i..len])
      {
        i := i - 1;
        assert fns[i] == fns[..i + 1][i] && was[i] == was[..i + 1][i];
        ghost var rest := fns[i + 1..len];
        SweptOne(was, old(w), i, w, rest, oracle);
        NonePresentCons(was[i], rest);
        var done := RunSlot(i);
        ok := ok && done;
        assert fns[..i] == was[..i + 1][..i];
      }
      assert fns[0..len] == fns[..len];
    }

    /** Run the action of one slot, and clear the slot if it succeeds. */
    method RunSlot(i: nat) returns (ok: bool)
      requires i < len <= fns.Length && fns[i].Some?
      modifies this`w, fns
      ensures Done(w, ok) == Perform(old(w), old(fns[i].value), oracle)
      ensures fns[i..len] == [if ok then None else old(fns[i])] + old(fns[i + 1..len])
      ensures fns[..i] == old(fns[..i])
    {
      ok := Call(fns[i].value);
      if ok {
        fns[i] := None;
      }
    }

    method Compact()
      requires len <= fns.Length
      modifies this`len, fns
      ensures Valid() && Pending() == old(Present(fns[..len]))
    {
      ghost var was := fns[..len];
      var kept := 0;
      for j := 0 to len
        invariant 0 <= kept <= j && len == old(len)
        invariant forall i :: 0 <= i < kept ==> fns[i].Some?
        invariant forall i :: j <= i < len ==> fns[i] == was[i]
        invariant SamePresent(fns[..kept], was, j)
      {
        SamePresentNext(fns[..kept], was, j);
        if fns[j].Some? {
          ghost var before := fns[..kept];
          fns[kept] := fns[j];
          kept := kept + 1;
          assert fns[..kept] == before + [was[j]];
        }
      }
      assert was[..len] == was;
      len := kept;
    }
  }

  ghost predicate SamePresent(kept: seq<Option<Entry>>, was: seq<Option<Entry>>, j: nat)
    requires j <= |was|
  {
    (Present(kept) == Present(was[..j])) == true
  }

  lemma SamePresentNext(kept: seq<Option<Entry>>, was: seq<Option<Entry>>, j: nat)
    requires j < |was| && SamePresent(kept, was, j)
    ensures SamePresent(if was[j].Some? then kept + [was[j]] else kept, was, j + 1)
  {
    PresentSnoc(was, j);
    PresentConcat(kept, [was[j]]);
    PresentOne(was[j]);
  }

  lemma PresentOne(slot: Option<Entry>)
    ensures Present([slot]) == if slot.Some? then [slot.value] else []
  {
  }

  lemma PresentCons(slot: Option<Entry>, slots: seq<Option<Entry>>)
    ensures Present([slot] + slots) == (if slot.Some? then [slot.value] else []) + Present(slots)
  {
    PresentConcat([slot], slots);
    PresentOne(slot);
  }

  /** Having run the slots from `i` up, with `top` left of them, running the rest completes the sweep. */
  ghost predicate SweptTo(was: seq<Option<Entry>>, w0: World, i: nat, w: World, top: seq<Option<Entry>>, o: Oracle)
    requires i <= |was|
  {
    var s := Sweep(Present(was[..i]), w, o);
    (Sweep(Present(was), w0, o) == Swept(s.left + Present(top), s.w)) == true
  }

  lemma NothingSwept(was: seq<Option<Entry>>, w: World, none: seq<Option<Entry>>, o: Oracle)
    requires none == []
    ensures SweptTo(was, w, |was|, w, none, o) && NonePresent(none)
  {
    assert was[..|was|] == was;
    var s := Sweep(Present(was), w, o);
    assert s.left + [] == s.left;
  }

  lemma AllSwept(was: seq<Option<Entry>>, w0: World, w: World, left: seq<Option<Entry>>, o: Oracle)
    ensures SweptTo(was, w0, 0, w, left, o) ==> Sweep(Present(was), w0, o) == Swept(Present(left), w)
  {
  }

  ghost predicate NonePresent(slots: seq<Option<Entry>>) {
    (Present(slots) == []) == true
  }

  lemma NonePresentCons(slot: Option<Entry>, slots: seq<Option<Entry>>)
    ensures NonePresent([None] + slots) <==> NonePresent(slots)
    ensures slot.Some? ==> !NonePresent([slot] + slots)
  {
    PresentCons(None, slots);
    PresentCons(slot, slots);
  }

  lemma SweptOne(was: seq<Option<Entry>>, w0: World, i: nat, w: World, top: seq<Option<Entry>>, o: Oracle)
    requires i < |was| && was[i].Some? && SweptTo(was, w0, i + 1, w, top, o)
    ensures var d := Perform(w, was[i].value, o);
      SweptTo(was, w0, i, d.w, [if d.ok then None else was[i]] + top, o)
  {
    PresentSnoc(was, i);
    var e, below := was[i].value, Present(was[..i]);
    assert (below + [e])[..|below|] == below;
    var d := Perform(w, e, o);
    var s := Sweep(below, d.w, o);
    assert Sweep(below + [e], w, o) == if d.ok then s else Swept(s.left + [e], s.w);
    PresentCons(if d.ok then None else was[i], top);
    assert [] + Present(top) == Present(top);
    assert s.left + [e] + Present(top) == s.left + ([e] + Present(top));
  }

  // ---------------------------------------------------------------- any sequence of pushes and runs

  datatype Op = Push(action: Action) | RunAll

  datatype State = State(pending: seq<Entry>, pushes: nat, w: World)

  function Do(s: State, op: Op, o: Oracle): State {
    match op
    case Push(action) => State(s.pending + [Entry(s.pushes, action)], s.pushes + 1, s.w)
    case RunAll => var r := Sweep(s.pending, s.w, o); State(r.left, s.pushes, r.w)
  }

  function DoAll(s: State, ops: seq<Op>, o: Oracle): State
    decreases |ops|
  {
    if ops == [] then s else DoAll(Do(s, ops[0], o), ops[1..], o)
  }

  /** Bottom to top the stack is in push order. */
  ghost predicate Ordered(entries: seq<Entry>, bound: nat) {
    && (forall i, j :: 0 <= i < j < |entries| ==> entries[i].id < entries[j].id)
    && (forall i :: 0 <= i < |entries| ==> entries[i].id < bound)
  }

  ghost predicate Succeeded(log: seq<Event>, id: nat) {
    Ran(id, true) in log
  }

  /** No action is tried again after it succeeded, and no root was removed with mounts below it. */
  ghost predicate Sound(log: seq<Event>) {
    && (forall i, j :: 0 <= i < j < |log| && log[i].Ran? && log[i].ok && log[j].Ran? ==> log[i].id != log[j].id)
    && (forall i :: 0 <= i < |log| && log[i].Removed? ==> !MountsBelow(log[i].mounts, log[i].root))
  }

  ghost predicate Unsucceeded(log: seq<Event>, entries: seq<Entry>) {
    forall i :: 0 <= i < |entries| ==> !Succeeded(log, entries[i].id)
  }

  lemma PerformLog(w: World, e: Entry, o: Oracle)
    requires Sound(w.log) && !Succeeded(w.log, e.id)
    ensures var d := Perform(w, e, o);
      && Sound(d.w.log) && RanIds(d.w.log) == RanIds(w.log) + [e.id]
      && (forall id :: Succeeded(d.w.log, id) <==> Succeeded(w.log, id) || (id == e.id && d.ok))
  {
    var d := Perform(w, e, o);
    var note := Ran(e.id, d.ok);
    assert forall i :: 0 <= i < |w.log| && w.log[i].Ran? && w.log[i].ok ==> Ran(w.log[i].id, true) in w.log;
    if d.w.log == w.log + [note] {
      RanIdsConcat(w.log, [note]);
    } else {
      var c := At(o, w.tick);
      var removed := Removed(e.action.root, w.mounts + c.mounted);
      assert d.w.log == w.log + [removed, note] by {
        assert w.log + [removed] + [note] == w.log + [removed, note];
      }
      assert [removed, note][1..] == [note];
      RanIdsConcat(w.log, [removed, note]);
    }
  }

  /** The actions tried, in order. */
  function RanIds(log: seq<Event>): seq<nat> {
    if log == [] then [] else (if log[0].Ran? then [log[0].id] else []) + RanIds(log[1..])
  }

  lemma {:induction false} RanIdsConcat(a: seq<Event>, b: seq<Event>)
    ensures RanIds(a + b) == RanIds(a) + RanIds(b)
    decreases |a|
  {
    if a == [] {
      assert a + b == b && [] + RanIds(b) == RanIds(b);
    } else {
      var first, rest := if a[0].Ran? then [a[0].id] else [], a[1..];
      assert (a + b)[1..] == rest + b && (a + b)[0] == a[0];
      RanIdsConcat(rest, b);
      assert RanIds(a + b) == first + (RanIds(rest) + RanIds(b));
      assert first + (RanIds(rest) + RanIds(b)) == (first + RanIds(rest)) + RanIds(b);
    }
  }

  /** From the top down. */
  function Downwards(entries: seq<Entry>): seq<nat> {
    if entries == [] then [] else [entries[|entries| - 1].id] + Downwards(entries[..|entries| - 1])
  }

  /** What is left is what has not succeeded. */
  ghost predicate LeftIs(left: seq<Entry>, entries: seq<Entry>, log: seq<Event>) {
    && (forall e :: e in entries ==> (e in left <==> !Succeeded(log, e.id)))
    && (forall e :: e in left ==> e in entries)
  }

  ghost predicate SameFrom(bound: nat, log: seq<Event>, later: seq<Event>) {
    forall id: nat :: id >= bound ==> (Succeeded(later, id) <==> Succeeded(log, id))
  }

  /**
   One run tries every pending action once, from the last pushed to the first; what is left is what
   has not succeeded, in push order.
   */
  lemma {:induction false} SweepRuns(entries: seq<Entry>, bound: nat, w: World, o: Oracle)
    requires Ordered(entries, bound) && Sound(w.log) && Unsucceeded(w.log, entries)
    ensures var s := Sweep(entries, w, o);
      && RanIds(s.w.log) == RanIds(w.log) + Downwards(entries)
      && Sound(s.w.log) && Ordered(s.left, bound) && LeftIs(s.left, entries, s.w.log)
      && SameFrom(bound, w.log, s.w.log)
    decreases |entries|
  {
    if entries != [] {
      var init, top := entries[..|entries| - 1], entries[|entries| - 1];
      assert entries == init + [top];
      var d := Perform(w, top, o);
      PerformLog(w, top, o);
      SweepRuns(init, top.id, d.w, o);
      var s := Sweep(init, d.w, o);
      assert RanIds(w.log) + [top.id] + Downwards(init) == RanIds(w.log) + ([top.id] + Downwards(init));
      TopOrdered(s.left, top, bound);
      TopLeft(s.left, init, top, s.w.log, d.ok);
    }
  }

  lemma TopOrdered(left: seq<Entry>, top: Entry, bound: nat)
    requires Ordered(left, top.id) && top.id < bound
    ensures Ordered(left, bound) && Ordered(left + [top], bound)
  {
  }

  lemma TopLeft(left: seq<Entry>, init: seq<Entry>, top: Entry, log: seq<Event>, ok: bool)
    requires LeftIs(left, init, log) && Ordered(left, top.id) && Ordered(init, top.id)
    requires ok <==> Succeeded(log, top.id)
    ensures LeftIs(if ok then left else left + [top], init + [top], log)
  {
  }

  ghost predicate Good(s: State) {
    && Ordered(s.pending, s.pushes) && Sound(s.w.log) && Unsucceeded(s.w.log, s.pending)
    && (forall id: nat :: Succeeded(s.w.log, id) ==> id < s.pushes)
  }

  lemma DoKeeps(s: State, op: Op, o: Oracle)
    requires Good(s)
    ensures Good(Do(s, op, o))
  {
    if op.RunAll? {
      SweepRuns(s.pending, s.pushes, s.w, o);
      var r := Sweep(s.pending, s.w, o);
      forall i | 0 <= i < |r.left| ensures !Succeeded(r.w.log, r.left[i].id) {
        assert r.left[i] in s.pending;
      }
    }
  }

  lemma {:induction false} DoAllKeeps(s: State, ops: seq<Op>, o: Oracle)
    requires Good(s)
    ensures Good(DoAll(s, ops, o))
    decreases |ops|
  {
    if ops != [] {
      DoKeeps(s, ops[0], o);
      DoAllKeeps(Do(s, ops[0], o), ops[1..], o);
    }
  }

  /** A new stack, over whatever is mounted. */
  function NewStack(mounts: set<Path>): State { State([], 0, World(mounts, [], 0)) }

  /**
   However pushes and runs alternate on a new stack and whatever fails: no action runs again after
   it succeeded, what is pending has not succeeded and is in push order, and no root was ever
   removed with something mounted below it.
   */
  lemma AlwaysGood(mounts: set<Path>, ops: seq<Op>, o: Oracle)
    ensures Good(DoAll(NewStack(mounts), ops, o))
  {
    DoAllKeeps(NewStack(mounts), ops, o);
  }
}
