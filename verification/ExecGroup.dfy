/**
 Deciding from `/proc` whether a command's process group can still write.  The kernel moves on
 between any two reads; the scan is sound because it compares the allocation counter before and
 after it.
 */
module ExecGroup {
  import opened Common

  type Pid = nat

  /** A process group as the daemon records it: its number and its leader's start time. */
  datatype GroupId = GroupId(pgid: Pid, start: nat)

  /**
   A process: `leaderDone` once its main thread has exited (it then shows as a zombie), `others`
   its further live threads.  `origin` is the group it descends from.
   */
  datatype Process = Process(group: Pid, start: nat, leaderDone: bool, others: nat, origin: GroupId)

  /** `allocs` counts every PID and TID ever handed out. */
  datatype Kernel = Kernel(procs: map<Pid, Process>, allocs: nat)

  predicate CanRun(p: Process) {
    !p.leaderDone || p.others > 0
  }

  ghost predicate Unused(k: Kernel, pid: Pid) {
    pid != 0 && pid !in k.procs && forall x :: x in k.procs ==> k.procs[x].group != pid
  }

  function Forked(k: Kernel, parent: Pid, child: Pid): Kernel
    requires parent in k.procs
  {
    var p := k.procs[parent];
    Kernel(k.procs[child := Process(p.group, k.allocs + 1, false, 0, p.origin)], k.allocs + 1)
  }

  datatype KernelEvent =
    | Nothing
    | Fork(parent: Pid, child: Pid)
    | NewThread(pid: Pid)
    | ThreadExit(pid: Pid)
    | LeaderExit(pid: Pid)
    | Reap(pid: Pid)
    | NewGroup(pid: Pid)

  /** One step of the kernel.  Members of the watched group do not leave it. */
  ghost predicate Happens(k: Kernel, l: Kernel, watched: GroupId, e: KernelEvent) {
    match e
    case Nothing => l == k
    case Fork(parent, child) =>
      parent in k.procs && CanRun(k.procs[parent]) && Unused(k, child) && l == Forked(k, parent, child)
    case NewThread(x) =>
      x in k.procs && CanRun(k.procs[x])
      && l == Kernel(k.procs[x := k.procs[x].(others := k.procs[x].others + 1)], k.allocs + 1)
    case ThreadExit(x) =>
      x in k.procs && k.procs[x].others > 0
      && l == k.(procs := k.procs[x := k.procs[x].(others := k.procs[x].others - 1)])
    case LeaderExit(x) =>
      x in k.procs && l == k.(procs := k.procs[x := k.procs[x].(leaderDone := true)])
    case Reap(x) =>
      x in k.procs && !CanRun(k.procs[x]) && l == k.(procs := k.procs - {x})
    case NewGroup(x) =>
      x in k.procs && k.procs[x].origin != watched
      && l == k.(procs := k.procs[x := k.procs[x].(group := x, origin := GroupId(x, k.procs[x].start))])
  }

  ghost predicate Steps(k: Kernel, l: Kernel, watched: GroupId) {
    exists e :: Happens(k, l, watched, e)
  }

  /** What the kernel keeps: a number names one group at a time, and start times are never reused. */
  ghost predicate Sound(k: Kernel, watched: GroupId) {
    && (forall x :: x in k.procs ==>
          k.procs[x].origin.pgid == k.procs[x].group && k.procs[x].start <= k.allocs)
    && (forall x, y :: x in k.procs && y in k.procs && k.procs[x].group == y ==>
          k.procs[x].origin == GroupId(y, k.procs[y].start) && k.procs[y].group == y)
    && watched.start <= k.allocs
    && (watched.pgid in k.procs && k.procs[watched.pgid].start == watched.start ==>
          k.procs[watched.pgid].origin == watched)
  }

  /** The same processes, whatever their threads. */
  ghost predicate SameProcesses(k: Kernel, l: Kernel) {
    && k.procs.Keys == l.procs.Keys && k.allocs <= l.allocs
    && forall x :: x in k.procs ==>
         && l.procs[x].group == k.procs[x].group && l.procs[x].start == k.procs[x].start
         && l.procs[x].origin == k.procs[x].origin
  }

  lemma ThreadsSound(k: Kernel, l: Kernel, watched: GroupId)
    requires Sound(k, watched) && SameProcesses(k, l)
    ensures Sound(l, watched)
  {
  }

  lemma ForkSound(k: Kernel, watched: GroupId, parent: Pid, child: Pid)
    requires Sound(k, watched) && parent in k.procs && Unused(k, child)
    ensures Sound(Forked(k, parent, child), watched)
  {
  }

  lemma ReapSound(k: Kernel, watched: GroupId, x: Pid)
    requires Sound(k, watched)
    ensures Sound(k.(procs := k.procs - {x}), watched)
  {
  }

  lemma NewGroupSound(k: Kernel, l: Kernel, watched: GroupId, x: Pid)
    requires Sound(k, watched) && Happens(k, l, watched, NewGroup(x))
    ensures Sound(l, watched)
  {
  }

  lemma SoundStep(k: Kernel, l: Kernel, watched: GroupId)
    requires Sound(k, watched) && Steps(k, l, watched)
    ensures Sound(l, watched)
  {
    var e :| Happens(k, l, watched, e);
    match e
    case Nothing =>
    case Fork(parent, child) => ForkSound(k, watched, parent, child);
    case Reap(x) => ReapSound(k, watched, x);
    case NewGroup(x) => NewGroupSound(k, l, watched, x);
    case _ => ThreadsSound(k, l, watched);
  }

  /** A member of the watched group that can still run. */
  predicate Writer(k: Kernel, g: GroupId, x: Pid) {
    x in k.procs && k.procs[x].origin == g && CanRun(k.procs[x])
  }

  ghost predicate NoWriter(k: Kernel, g: GroupId) {
    forall x :: x in k.procs ==> !Writer(k, g, x)
  }

  lemma NoWriterStep(k: Kernel, l: Kernel, g: GroupId)
    requires Sound(k, g) && Steps(k, l, g) && NoWriter(k, g)
    ensures NoWriter(l, g)
  {
  }

  // ---------------------------------------------------------------- runs of the kernel

  type Timeline = nat -> Kernel

  function KernelAt(run: Timeline, t: nat): Kernel { run(t) }

  ghost predicate IsRun(run: Timeline, g: GroupId) {
    Sound(KernelAt(run, 0), g) && forall t: nat :: Steps(KernelAt(run, t), KernelAt(run, t + 1), g)
  }

  lemma {:induction false} AlwaysSound(run: Timeline, g: GroupId, t: nat)
    requires IsRun(run, g)
    ensures Sound(KernelAt(run, t), g)
  {
    if t > 0 {
      AlwaysSound(run, g, t - 1);
      assert Steps(KernelAt(run, t - 1), KernelAt(run, t - 1 + 1), g);
      SoundStep(KernelAt(run, t - 1), KernelAt(run, t), g);
    }
  }

  /** Once the group cannot run it never can again. */
  lemma {:induction false} NoWriterEver(run: Timeline, g: GroupId, t: nat, u: nat)
    requires IsRun(run, g) && t <= u && NoWriter(KernelAt(run, t), g)
    ensures NoWriter(KernelAt(run, u), g)
    decreases u - t
  {
    if t < u {
      AlwaysSound(run, g, t);
      assert Steps(KernelAt(run, t), KernelAt(run, t + 1), g);
      NoWriterStep(KernelAt(run, t), KernelAt(run, t + 1), g);
      NoWriterEver(run, g, t + 1, u);
    }
  }

  lemma StepShrinks(k: Kernel, l: Kernel, g: GroupId, x: Pid)
    requires Sound(k, g) && Steps(k, l, g)
    ensures k.allocs <= l.allocs
    ensures l.allocs == k.allocs && Writer(l, g, x) ==>
      Writer(k, g, x) && l.procs[x].others <= k.procs[x].others
      && (k.procs[x].leaderDone ==> l.procs[x].leaderDone)
  {
  }

  /** While nothing is allocated, members only lose threads. */
  lemma {:induction false} Shrinks(run: Timeline, g: GroupId, t: nat, u: nat, x: Pid)
    requires IsRun(run, g) && t <= u
    ensures KernelAt(run, t).allocs <= KernelAt(run, u).allocs
    ensures KernelAt(run, t).allocs == KernelAt(run, u).allocs && Writer(KernelAt(run, u), g, x) ==>
      Writer(KernelAt(run, t), g, x)
      && KernelAt(run, u).procs[x].others <= KernelAt(run, t).procs[x].others
      && (KernelAt(run, t).procs[x].leaderDone ==> KernelAt(run, u).procs[x].leaderDone)
    decreases u - t
  {
    if t < u {
      AlwaysSound(run, g, t);
      assert Steps(KernelAt(run, t), KernelAt(run, t + 1), g);
      StepShrinks(KernelAt(run, t), KernelAt(run, t + 1), g, x);
      Shrinks(run, g, t + 1, u, x);
    }
  }

  lemma DeadStep(k: Kernel, l: Kernel, g: GroupId, x: Pid)
    requires Steps(k, l, g) && x in l.procs
    ensures k.allocs <= l.allocs
    ensures if x in k.procs then
              l.procs[x].start == k.procs[x].start && (CanRun(l.procs[x]) ==> CanRun(k.procs[x]))
            else l.procs[x].start > k.allocs
  {
  }

  /** A process that cannot run never can again; who has its number later started later. */
  lemma {:induction false} DeadStays(run: Timeline, g: GroupId, t: nat, u: nat, x: Pid)
    requires IsRun(run, g) && t <= u
    requires x in KernelAt(run, t).procs && !CanRun(KernelAt(run, t).procs[x])
    ensures x in KernelAt(run, u).procs && CanRun(KernelAt(run, u).procs[x]) ==>
      KernelAt(run, u).procs[x].start != KernelAt(run, t).procs[x].start
    ensures x in KernelAt(run, u).procs && KernelAt(run, u).procs[x].start != KernelAt(run, t).procs[x].start ==>
      KernelAt(run, u).procs[x].start > KernelAt(run, t).allocs
    decreases u
  {
    AlwaysSound(run, g, t);
    if t < u {
      DeadStays(run, g, t, u - 1, x);
      Shrinks(run, g, t, u - 1, x);
      assert Steps(KernelAt(run, u - 1), KernelAt(run, u - 1 + 1), g);
      if x in KernelAt(run, u).procs { DeadStep(KernelAt(run, u - 1), KernelAt(run, u), g, x); }
    }
  }

  // ---------------------------------------------------------------- why a group counts as alive

  /** A process of the numbered group that can run. */
  predicate Runs(k: Kernel, group: Pid, x: Pid) {
    x in k.procs && k.procs[x].group == group && CanRun(k.procs[x])
  }

  /** Between two moments some process of the group could run. */
  ghost predicate Ran(run: Timeline, group: Pid, from: nat, to: nat) {
    exists t: nat, x :: from <= t <= to && Runs(KernelAt(run, t), group, x)
  }

  /** The number of a process of the group passes to a younger process. */
  predicate Replaced(k: Kernel, l: Kernel, group: Pid, x: Pid) {
    x in k.procs && k.procs[x].group == group && x in l.procs && l.procs[x].start != k.procs[x].start
  }

  ghost predicate ChangedHands(run: Timeline, group: Pid, from: nat, to: nat) {
    exists t: nat, u: nat, x :: from <= t <= u <= to && Replaced(KernelAt(run, t), KernelAt(run, u), group, x)
  }

  /** What may make a scan answer "alive" although no read failed. */
  ghost predicate LifeSeen(run: Timeline, group: Pid, from: nat, to: nat) {
    Ran(run, group, from, to) || ChangedHands(run, group, from, to)
  }

  lemma LifeWidens(run: Timeline, group: Pid, from: nat, t: nat, u: nat, to: nat)
    requires from <= t <= u <= to && LifeSeen(run, group, t, u)
    ensures LifeSeen(run, group, from, to)
  {
  }

  /** A zombie entry with further threads is a process that could run when it was read, or a younger one. */
  lemma ThreadsShowLife(run: Timeline, g: GroupId, read: nat, u: nat, x: Pid)
    requires IsRun(run, g) && read <= u && x in KernelAt(run, read).procs
    requires KernelAt(run, read).procs[x].group == g.pgid
    requires x in KernelAt(run, u).procs && KernelAt(run, u).procs[x].others > 0
    ensures LifeSeen(run, g.pgid, read, u)
  {
    if CanRun(KernelAt(run, read).procs[x]) {
      assert Runs(KernelAt(run, read), g.pgid, x);
    } else {
      DeadStays(run, g, read, u, x);
      assert Replaced(KernelAt(run, read), KernelAt(run, u), g.pgid, x);
    }
  }

  /** The counter moved between two moments by at least so much. */
  predicate CounterMoved(run: Timeline, from: nat, to: nat, steps: nat) {
    KernelAt(run, from).allocs + steps <= KernelAt(run, to).allocs
  }

  lemma CounterGrows(run: Timeline, g: GroupId, t: nat, u: nat)
    requires IsRun(run, g) && t <= u
    ensures CounterMoved(run, t, u, 0)
  {
    Shrinks(run, g, t, u, 0);
  }

  // ---------------------------------------------------------------- reading /proc

  datatype Stat = StatMissing | StatFailed | StatFound(group: Pid, start: nat, zombie: bool)
  datatype Tasks = TasksMissing | TasksFailed | TaskCount(count: nat)

  /** A view of `/proc` over time: each read takes place at some later moment, or fails. */
  class ProcFS {
    const run: Timeline
    var now: nat
    var failures: nat     // how many reads have failed so far

    constructor (run: Timeline)
      ensures this.run == run && now == 0 && failures == 0
    {
      this.run, now, failures := run, 0, 0;
    }

    method Wait()
      modifies this`now
      ensures old(now) <= now
    {
      var later: nat :| later >= 0;
      now := now + later;
    }

    /** A read takes place at some later moment, or fails. */
    method Read() returns (failed: bool)
      modifies this
      ensures old(now) <= now && failures == old(failures) + (if failed then 1 else 0)
    {
      Wait();
      failed := *;
      if failed {
        failures := failures + 1;
      }
    }

    method ReadStat(pid: Pid) returns (r: Stat)
      modifies this
      ensures old(now) <= now && failures == old(failures) + (if r.StatFailed? then 1 else 0)
      ensures r.StatMissing? ==> pid !in KernelAt(run, now).procs
      ensures r.StatFound? ==>
        pid in KernelAt(run, now).procs
        && var p := KernelAt(run, now).procs[pid];
           r.group == p.group && r.start == p.start && r.zombie == p.leaderDone
    {
      var failed := Read();
      var procs := KernelAt(run, now).procs;
      if failed {
        r := StatFailed;
      } else if pid in procs {
        r := StatFound(procs[pid].group, procs[pid].start, procs[pid].leaderDone);
      } else {
        r := StatMissing;
      }
    }

    /** The counter file; two reads are equal exactly when nothing was allocated between them. */
    method ReadCounter() returns (r: Option<nat>)
      modifies this
      ensures old(now) <= now && failures == old(failures) + (if r.None? then 1 else 0)
      ensures r.Some? ==> r.value == KernelAt(run, now).allocs
    {
      var failed := Read();
      r := if failed then None else Some(KernelAt(run, now).allocs);
    }

    /** The directory is listed while processes come and go; one that stays throughout is listed. */
    method ReadDir() returns (r: Option<seq<Pid>>)
      modifies this
      ensures old(now) <= now && failures == old(failures) + (if r.None? then 1 else 0)
      ensures r.Some? ==> forall p :: (forall t :: old(now) <= t <= now ==> p in KernelAt(run, t).procs)
                                      ==> p in r.value
    {
      var failed := Read();
      if failed {
        return None;
      }
      var left := KernelAt(run, now).procs.Keys;
      var listed: seq<Pid> := [];
      while left != {}
        invariant forall p :: p in KernelAt(run, now).procs ==> p in left || p in listed
        decreases |left|
      {
        var p :| p in left;
        left := left - {p};
        listed := listed + [p];
      }
      r := Some(listed);
      assert forall p :: (forall t :: old(now) <= t <= now ==> p in KernelAt(run, t).procs)
                         ==> p in KernelAt(run, now).procs;
    }

    /** A process directory lists its main thread, zombie or not, and every other live thread. */
    method ReadTasks(pid: Pid) returns (r: Tasks)
      modifies this
      ensures old(now) <= now && failures == old(failures) + (if r.TasksFailed? then 1 else 0)
      ensures r.TasksMissing? ==> pid !in KernelAt(run, now).procs
      ensures r.TaskCount? ==>
        pid in KernelAt(run, now).procs && r.count == 1 + KernelAt(run, now).procs[pid].others
    {
      var failed := Read();
      var procs := KernelAt(run, now).procs;
      if failed {
        r := TasksFailed;
      } else if pid in procs {
        r := TaskCount(1 + procs[pid].others);
      } else {
        r := TasksMissing;
      }
    }

    /** `kill(-group, 0)` finds no process at all in the group. */
    method GroupMissing(group: Pid) returns (missing: bool)
      modifies this
      ensures old(now) <= now
      ensures failures == old(failures)
      ensures missing <==> forall x :: x in KernelAt(run, now).procs ==> KernelAt(run, now).procs[x].group != group
    {
      Wait();
      var procs := KernelAt(run, now).procs;
      missing := forall x :: x in procs ==> procs[x].group != group;
    }

    /** Does this entry show a live member of the group, or cannot be looked at? */
    method ShowsLife(pid: Pid, group: Pid, ghost g: GroupId, ghost t0: nat) returns (shows: bool)
      requires IsRun(run, g) && g.pgid == group && t0 <= now
      modifies this
      ensures old(now) <= now
      ensures old(failures) <= failures
      ensures shows ==> failures > old(failures) || LifeSeen(run, group, old(now), now)
      ensures !shows && KernelAt(run, t0).allocs == KernelAt(run, now).allocs ==> !Writer(KernelAt(run, now), g, pid)
    {
      var process := ReadStat(pid);
      ghost var read := now;
      AlwaysSound(run, g, read);
      if process.StatFailed? {
        return true;
      }
      if process.StatFound? && process.group == group {
        if !process.zombie {
          assert Runs(KernelAt(run, now), group, pid);
          return true;
        }
        var tasks := ReadTasks(pid);
        if tasks.TasksFailed? || (tasks.TaskCount? && tasks.count > 1) {
          if tasks.TaskCount? { ThreadsShowLife(run, g, read, now, pid); }
          return true;
        }
      }
      NotWriting(run, g, t0, read, now, pid);
      return false;
    }

    /**
     One scan.  A dead and stable verdict means that no member of the recorded group can run, now
     or ever; any failure to look, and any sign of life, is answered "alive".
     */
    method InspectExecutionGroup(group: Pid, start: Option<nat>, ghost g: GroupId)
      returns (alive: bool, stable: bool)
      requires IsRun(run, g) && g.pgid == group && (start.Some? ==> start.value == g.start)
      modifies this
      ensures old(now) <= now
      ensures old(failures) <= failures
      ensures alive ==> stable
      ensures !alive && stable ==> NoWriter(KernelAt(run, now), g)
      ensures alive ==> failures > old(failures) || LifeSeen(run, group, old(now), now)
      ensures !stable ==> CounterMoved(run, old(now), now, 1)
    {
      var leader := ReadStat(group);
      if leader.StatFound? && start.Some? && leader.start != start.value {
        // The number now belongs to a younger group.
        AlwaysSound(run, g, now);
        return false, true;
      }
      var before := ReadCounter();
      if before.None? {
        return true, true;
      }
      ghost var t0 := now;
      var entries := ReadDir();
      if entries.None? {
        return true, true;
      }
      ghost var t1 := now;
      var i := 0;
      while i < |entries.value|
        invariant 0 <= i <= |entries.value| && t1 <= now && old(failures) <= failures
        invariant forall j :: 0 <= j < i && KernelAt(run, t0).allocs == KernelAt(run, now).allocs ==>
          !Writer(KernelAt(run, now), g, entries.value[j])
      {
        ghost var was := now;
        var shows := ShowsLife(entries.value[i], group, g, t0);
        if shows {
          if failures == old(failures) { LifeWidens(run, group, old(now), was, now, now); }
          return true, true;
        }
        StillNot(run, g, t0, was, now, entries.value[..i]);
        i := i + 1;
      }
      ghost var scanned := now;
      var after := ReadCounter();
      if after.None? {
        return true, true;
      }
      if before.value == after.value {
        StillNot(run, g, t0, scanned, now, entries.value);
        AllListed(run, g, t0, t1, now, entries.value);
      } else {
        CounterGrows(run, g, old(now), t0);
        CounterGrows(run, g, t0, now);
      }
      return false, before.value == after.value;
    }

    /**
     Three scans; if none is conclusive the group counts as alive.  So "alive" has a cause: a read that
     failed, a process that could run or whose number changed hands, or a counter that never stood still.
     */
    method ExecutionGroupActive(group: Pid, start: Option<nat>, ghost g: GroupId) returns (alive: bool)
      requires IsRun(run, g) && g.pgid == group && (start.Some? ==> start.value == g.start)
      modifies this
      ensures old(now) <= now && old(failures) <= failures
      ensures !alive ==> NoWriter(KernelAt(run, now), g)
      ensures alive ==>
        || failures > old(failures)
        || LifeSeen(run, group, old(now), now)
        || CounterMoved(run, old(now), now, 3)
    {
      for n := 0 to 3
        invariant old(now) <= now && old(failures) <= failures
        invariant CounterMoved(run, old(now), now, n)
      {
        ghost var was := now;
        var seen, stable := InspectExecutionGroup(group, start, g);
        if seen || stable {
          if seen && failures == old(failures) { LifeWidens(run, group, old(now), was, now, now); }
          return seen;
        }
      }
      return true;
    }

    /** No recorded group, or one that is gone: only then "not alive". */
    method ExecutionGroupAlive(group: Pid, start: Option<nat>, ghost g: GroupId) returns (alive: bool)
      requires IsRun(run, g) && g.pgid == group && (start.Some? ==> start.value == g.start)
      modifies this
      ensures old(now) <= now && old(failures) <= failures
      ensures !alive && group != 0 ==>
        forall t :: t >= now ==> NoWriter(KernelAt(run, t), g)
      ensures alive ==>
        && group != 0
        && (|| failures > old(failures)
            || LifeSeen(run, group, old(now), now)
            || CounterMoved(run, old(now), now, 3))
    {
      if group == 0 {
        return false;
      }
      var missing := GroupMissing(group);
      if missing {
        AlwaysSound(run, g, now);
        alive := false;
      } else {
        ghost var was := now;
        alive := ExecutionGroupActive(group, start, g);
        CounterGrows(run, g, old(now), was);
        if LifeSeen(run, group, was, now) { LifeWidens(run, group, old(now), was, now, now); }
      }
      if !alive {
        forall t | t >= now ensures NoWriter(KernelAt(run, t), g) {
          NoWriterEver(run, g, now, t);
        }
      }
    }
  }

  /** What was seen not to write still does not, if nothing was allocated since. */
  lemma StillNot(run: Timeline, g: GroupId, t0: nat, t: nat, u: nat, seen: seq<Pid>)
    requires IsRun(run, g) && t0 <= t <= u
    requires forall j :: 0 <= j < |seen| && KernelAt(run, t0).allocs == KernelAt(run, t).allocs ==>
      !Writer(KernelAt(run, t), g, seen[j])
    ensures forall j :: 0 <= j < |seen| && KernelAt(run, t0).allocs == KernelAt(run, u).allocs ==>
      !Writer(KernelAt(run, u), g, seen[j])
  {
    forall j | 0 <= j < |seen| && KernelAt(run, t0).allocs == KernelAt(run, u).allocs
      ensures !Writer(KernelAt(run, u), g, seen[j])
    {
      Shrinks(run, g, t0, t, seen[j]);
      Shrinks(run, g, t, u, seen[j]);
    }
  }

  /** A process whose entry was absent, foreign, or a zombie without threads does not write. */
  lemma NotWriting(run: Timeline, g: GroupId, t0: nat, read: nat, u: nat, x: Pid)
    requires IsRun(run, g) && t0 <= read <= u
    requires var k := KernelAt(run, read); var l := KernelAt(run, u);
      || x !in k.procs || k.procs[x].group != g.pgid
      || (k.procs[x].leaderDone && (x !in l.procs || l.procs[x].others == 0))
    ensures KernelAt(run, t0).allocs == KernelAt(run, u).allocs ==> !Writer(KernelAt(run, u), g, x)
  {
    AlwaysSound(run, g, read);
    Shrinks(run, g, t0, read, x);
    Shrinks(run, g, read, u, x);
  }

  /** With no allocation since the scan began, who may write now was there to be listed. */
  lemma MemberListed(run: Timeline, g: GroupId, t0: nat, t1: nat, u: nat, entries: seq<Pid>, x: Pid)
    requires IsRun(run, g) && t0 <= t1 <= u
    requires KernelAt(run, t0).allocs == KernelAt(run, u).allocs
    requires forall p :: (forall t :: t0 <= t <= t1 ==> p in KernelAt(run, t).procs) ==> p in entries
    requires x in KernelAt(run, u).procs && Writer(KernelAt(run, u), g, x)
    ensures x in entries
  {
    forall t | t0 <= t <= t1 ensures x in KernelAt(run, t).procs {
      Shrinks(run, g, t0, t, x);
      Shrinks(run, g, t, u, x);
    }
  }

  lemma AllListed(run: Timeline, g: GroupId, t0: nat, t1: nat, u: nat, entries: seq<Pid>)
    requires IsRun(run, g) && t0 <= t1 <= u
    requires KernelAt(run, t0).allocs == KernelAt(run, u).allocs
    requires forall p :: (forall t :: t0 <= t <= t1 ==> p in KernelAt(run, t).procs) ==> p in entries
    requires forall j :: 0 <= j < |entries| ==> !Writer(KernelAt(run, u), g, entries[j])
    ensures NoWriter(KernelAt(run, u), g)
  {
    forall x | x in KernelAt(run, u).procs && Writer(KernelAt(run, u), g, x) ensures false {
      MemberListed(run, g, t0, t1, u, entries, x);
    }
  }
}
