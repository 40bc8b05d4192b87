/**
 Locking, draining and closing of the daemon, as interleaved steps of any number of threads.
 Each act below is one critical section or channel operation of the program; what happens
 between two acts of one thread is up to the others.
 */
module Gates {

  type Key = string
  type Tid = nat

  /** A registered session, as far as draining looks at it: is a lease held, does its owner live? */
  datatype Session = Session(busy: bool, ownerAlive: bool)

  predicate Live(sess: Session) { sess.busy && sess.ownerAlive }

  /** Where a thread is. */
  datatype Pc =
    | Away                                          // not started, or returned
    | Waiting(key: Key, release: bool)              // past the first check of `closing`
    | Holding(key: Key, release: bool)              // has the gate, second check to come
    | Working(key: Key, release: bool)              // has the gate and may touch the session
    | DrainPause
    | DrainPass(todo: set<Key>, pending: bool)
    | DrainLook(key: Key, todo: set<Key>, pending: bool)   // the drain has the gate
    | Drained                                       // returned; nothing was pending
    | CloseStart
    | ClosePass(todo: set<Key>)
    | CloseOne(key: Key, todo: set<Key>)            // the closer has the gate
    | Closed                                        // returned

  datatype State = State(
    closing: bool,
    gates: set<Key>,
    holder: map<Key, Tid>,
    sessions: map<Key, Session>,
    threads: map<Tid, Pc>)

  /** A request: lock with two checks of `closing`, work, unlock; or try the gate just once. */
  datatype Act =
    | Start(key: Key, release: bool)
    | Take
    | GiveUp
    | Recheck
    | Try(key: Key)
    | Update(sess: Session)      // open a session, or grant or end a lease
    | Remove
    | FinishLease                // all that a release may do
    | Unlock

  datatype DrainAct =
    | BeginDrain
    | NextPass
    | DrainTry(key: Key)
    | DrainSee(spurious: bool)
    | EndPass
    | Deadline

  datatype CloseAct =
    | BeginClose
    | ListKeys
    | CloseTake(key: Key)
    | CloseRemove
    | EndClose

  datatype Event =
    | Request(t: Tid, act: Act)
    | Drain(t: Tid, drain: DrainAct)
    | Close(t: Tid, close: CloseAct)
    | OwnerDies(key: Key)

  function Where(threads: map<Tid, Pc>, t: Tid): Pc {
    if t in threads then threads[t] else Away
  }

  function Moved(threads: map<Tid, Pc>, t: Tid, pc: Pc): (r: map<Tid, Pc>)
    ensures forall u :: Where(r, u) == if u == t then pc else Where(threads, u)
  {
    threads[t := pc]
  }

  function Put(s: State, t: Tid, pc: Pc): State {
    s.(threads := Moved(s.threads, t, pc))
  }

  /** Look up the gate of a key, making it if there is none. */
  function Ring(s: State, key: Key): State {
    s.(gates := s.gates + {key})
  }

  function Enter(s: State, t: Tid, key: Key, pc: Pc): State {
    Put(s.(holder := s.holder[key := t]), t, pc)
  }

  function Leave(s: State, t: Tid, key: Key, pc: Pc): State {
    Put(s.(holder := s.holder - {key}), t, pc)
  }

  function Keys(s: State): set<Key> {
    s.gates + s.sessions.Keys
  }

  function RequestStep(s: State, t: Tid, act: Act): (v: State)
    ensures forall u :: u != t ==> Where(v.threads, u) == Where(s.threads, u)
  {
    var pc := Where(s.threads, t);
    match act
    case Start(key, release) =>
      if !pc.Away? || (s.closing && !release) then s
      else Put(Ring(s, key), t, Waiting(key, release))
    case Take =>
      if pc.Waiting? && pc.key !in s.holder then Enter(s, t, pc.key, Holding(pc.key, pc.release)) else s
    case GiveUp => if pc.Waiting? then Put(s, t, Away) else s
    case Recheck =>
      if !pc.Holding? then s
      else if s.closing && !pc.release then Leave(s, t, pc.key, Away)
      else Put(s, t, Working(pc.key, pc.release))
    case Try(key) =>
      if !pc.Away? || s.closing then s
      else if key in s.holder then Ring(s, key)
      else Enter(Ring(s, key), t, key, Working(key, false))
    case Update(sess) =>
      if pc.Working? && !pc.release then s.(sessions := s.sessions[pc.key := sess]) else s
    case Remove =>
      if pc.Working? && !pc.release then s.(sessions := s.sessions - {pc.key}) else s
    case FinishLease =>
      if pc.Working? && pc.key in s.sessions
      then s.(sessions := s.sessions[pc.key := s.sessions[pc.key].(busy := false)]) else s
    case Unlock => if pc.Working? then Leave(s, t, pc.key, Away) else s
  }

  function DrainStep(s: State, t: Tid, act: DrainAct): (v: State)
    ensures forall u :: u != t ==> Where(v.threads, u) == Where(s.threads, u)
  {
    var pc := Where(s.threads, t);
    match act
    case BeginDrain => if pc.Away? then Put(s.(closing := true), t, DrainPause) else s
    case NextPass => if pc.DrainPause? then Put(s, t, DrainPass(Keys(s), false)) else s
    case DrainTry(key) =>
      if !pc.DrainPass? || key !in pc.todo then s
      else if key in s.holder then
        Put(Ring(s, key), t, DrainPass(pc.todo - {key}, true))
      else Enter(Ring(s, key), t, key, DrainLook(key, pc.todo - {key}, pc.pending))
    case DrainSee(spurious) =>
      if !pc.DrainLook? then s
      else
        var seen := pc.key in s.sessions && s.sessions[pc.key].busy
                    && (s.sessions[pc.key].ownerAlive || spurious);
        Leave(s, t, pc.key, DrainPass(pc.todo, pc.pending || seen))
    case EndPass =>
      if pc.DrainPass? && pc.todo == {} then Put(s, t, if pc.pending then DrainPause else Drained) else s
    case Deadline => if pc.DrainPause? then Put(s, t, Away) else s
  }

  function CloseStep(s: State, t: Tid, act: CloseAct): (v: State)
    ensures forall u :: u != t ==> Where(v.threads, u) == Where(s.threads, u)
  {
    var pc := Where(s.threads, t);
    match act
    case BeginClose => if pc.Away? then Put(s.(closing := true), t, CloseStart) else s
    case ListKeys => if pc.CloseStart? then Put(s, t, ClosePass(Keys(s))) else s
    case CloseTake(key) =>
      if pc.ClosePass? && key in pc.todo && key !in s.holder
      then Enter(Ring(s, key), t, key, CloseOne(key, pc.todo - {key})) else s
    case CloseRemove =>
      if pc.CloseOne?
      then Leave(s.(sessions := s.sessions - {pc.key}), t, pc.key, ClosePass(pc.todo)) else s
    case EndClose => if pc.ClosePass? && pc.todo == {} then Put(s, t, Closed) else s
  }

  /** One step; an act for which its thread is not ready does nothing. */
  function Step(s: State, e: Event): State {
    match e
    case Request(t, act) => RequestStep(s, t, act)
    case Drain(t, act) => DrainStep(s, t, act)
    case Close(t, act) => CloseStep(s, t, act)
    case OwnerDies(key) =>
      if key in s.sessions
      then s.(sessions := s.sessions[key := s.sessions[key].(ownerAlive := false)]) else s
  }

  function Run(s: State, events: seq<Event>): State
    decreases |events|
  {
    if events == [] then s else Run(Step(s, events[0]), events[1..])
  }

  /** A daemon that has just started. */
  function Initial(): State {
    State(false, {}, map[], map[], map[])
  }

  // ---------------------------------------------------------------- mutual exclusion

  predicate Owns(pc: Pc, key: Key) {
    (pc.Holding? || pc.Working? || pc.DrainLook? || pc.CloseOne?) && pc.key == key
  }

  /** Gates and threads agree on who is inside, and every key in use has a gate. */
  ghost predicate Locked(s: State) {
    && (forall key :: key in s.holder ==> Owns(Where(s.threads, s.holder[key]), key))
    && (forall t, key :: Owns(Where(s.threads, t), key) ==>
          key in s.holder && s.holder[key] == t && key in s.gates)
    && (forall t :: Where(s.threads, t).Waiting? ==> Where(s.threads, t).key in s.gates)
    && s.sessions.Keys <= s.gates
  }

  lemma RingKeeps(s: State, key: Key)
    requires Locked(s)
    ensures Locked(Ring(s, key))
  {
  }

  lemma EnterKeeps(s: State, t: Tid, key: Key, pc: Pc)
    requires Locked(s) && key in s.gates && key !in s.holder && Owns(pc, key)
    requires forall k :: !Owns(Where(s.threads, t), k)
    ensures Locked(Enter(s, t, key, pc))
  {
  }

  lemma LeaveKeeps(s: State, t: Tid, key: Key, pc: Pc)
    requires Locked(s) && Owns(Where(s.threads, t), key) && !pc.Waiting? && forall k :: !Owns(pc, k)
    ensures Locked(Leave(s, t, key, pc))
  {
  }

  /** A thread moves on without taking or leaving a gate. */
  lemma PutKeeps(s: State, t: Tid, pc: Pc)
    requires Locked(s) && (pc.Waiting? ==> pc.key in s.gates)
    requires forall k :: Owns(Where(s.threads, t), k) <==> Owns(pc, k)
    ensures Locked(Put(s, t, pc))
  {
  }

  lemma FlagKeeps(s: State, closing: bool)
    requires Locked(s)
    ensures Locked(s.(closing := closing))
  {
  }

  lemma SessionsKeep(s: State, sessions: map<Key, Session>)
    requires Locked(s) && sessions.Keys <= s.gates
    ensures Locked(s.(sessions := sessions))
  {
  }

  lemma LockedRequest(s: State, t: Tid, act: Act)
    requires Locked(s)
    ensures Locked(RequestStep(s, t, act))
  {
    var v := RequestStep(s, t, act);
    var pc := Where(s.threads, t);
    if v == s { return; }
    match act
    case Start(key, _) => RingKeeps(s, key); PutKeeps(Ring(s, key), t, Where(v.threads, t));
    case Take => EnterKeeps(s, t, pc.key, Where(v.threads, t));
    case GiveUp => PutKeeps(s, t, Away);
    case Recheck =>
      if s.closing && !pc.release { LeaveKeeps(s, t, pc.key, Away); }
      else { PutKeeps(s, t, Where(v.threads, t)); }
    case Try(key) => RingKeeps(s, key); if key !in s.holder { EnterKeeps(Ring(s, key), t, key, Where(v.threads, t)); }
    case Unlock => LeaveKeeps(s, t, pc.key, Away);
    case _ => SessionsKeep(s, v.sessions);
  }

  lemma LockedDrain(s: State, t: Tid, act: DrainAct)
    requires Locked(s)
    ensures Locked(DrainStep(s, t, act))
  {
    var v := DrainStep(s, t, act);
    var pc := Where(s.threads, t);
    if v == s { return; }
    match act
    case DrainTry(key) =>
      RingKeeps(s, key);
      if key in s.holder { PutKeeps(Ring(s, key), t, Where(v.threads, t)); }
      else { EnterKeeps(Ring(s, key), t, key, Where(v.threads, t)); }
    case DrainSee(_) => LeaveKeeps(s, t, pc.key, Where(v.threads, t));
    case _ =>
      FlagKeeps(s, v.closing);
      PutKeeps(s.(closing := v.closing), t, Where(v.threads, t));
  }

  lemma LockedClose(s: State, t: Tid, act: CloseAct)
    requires Locked(s)
    ensures Locked(CloseStep(s, t, act))
  {
    var v := CloseStep(s, t, act);
    var pc := Where(s.threads, t);
    if v == s { return; }
    match act
    case CloseTake(key) => RingKeeps(s, key); EnterKeeps(Ring(s, key), t, key, Where(v.threads, t));
    case CloseRemove =>
      SessionsKeep(s, v.sessions);
      LeaveKeeps(s.(sessions := v.sessions), t, pc.key, Where(v.threads, t));
    case _ =>
      FlagKeeps(s, v.closing);
      PutKeeps(s.(closing := v.closing), t, Where(v.threads, t));
  }

  lemma LockedStep(s: State, e: Event)
    requires Locked(s)
    ensures Locked(Step(s, e))
  {
    match e
    case Request(t, act) => LockedRequest(s, t, act);
    case Drain(t, act) => LockedDrain(s, t, act);
    case Close(t, act) => LockedClose(s, t, act);
    case OwnerDies(_) =>
  }

  // ---------------------------------------------------------------- draining and closing

  /** Nobody works on the key other than to release, and with `closing` set nobody can start to. */
  ghost predicate Shut(s: State, key: Key) {
    s.closing && forall t :: Where(s.threads, t) != Working(key, false)
  }

  /** No lease of the key is held by a live owner. */
  ghost predicate Idle(s: State, key: Key) {
    Shut(s, key) && (key in s.sessions ==> !Live(s.sessions[key]))
  }

  ghost predicate Absent(s: State, key: Key) {
    Shut(s, key) && key !in s.sessions
  }

  /** What a draining or closing thread has achieved so far. */
  ghost predicate Progress(s: State, pc: Pc) {
    && ((pc.DrainPass? || pc.DrainLook?) && !pc.pending ==>
          forall key :: key !in pc.todo && !Owns(pc, key) ==> Idle(s, key))
    && (pc.Drained? ==> forall key :: Idle(s, key))
    && ((pc.ClosePass? || pc.CloseOne?) ==>
          forall key :: key !in pc.todo && !Owns(pc, key) ==> Absent(s, key))
    && (pc.Closed? ==> forall key :: Absent(s, key))
    && (!(pc.Away? || pc.Waiting? || pc.Holding? || pc.Working?) ==> s.closing)
  }

  ghost predicate Inv(s: State) {
    Locked(s) && forall t :: Progress(s, Where(s.threads, t))
  }

  lemma ShutStays(s: State, e: Event, key: Key)
    requires Shut(s, key)
    ensures Shut(Step(s, e), key)
    ensures Idle(s, key) ==> Idle(Step(s, e), key)
    ensures Absent(s, key) ==> Absent(Step(s, e), key)
  {
  }

  lemma ProgressStays(s: State, e: Event, pc: Pc)
    requires Progress(s, pc)
    ensures Progress(Step(s, e), pc)
  {
    forall key | Idle(s, key) ensures Idle(Step(s, e), key) {
      ShutStays(s, e, key);
    }
    forall key | Absent(s, key) ensures Absent(Step(s, e), key) {
      ShutStays(s, e, key);
    }
  }

  /** Once `closing` is set, whoever has the gate and does not work finds the key shut. */
  lemma InsideIsShut(s: State, t: Tid, key: Key)
    requires Locked(s) && s.closing && Owns(Where(s.threads, t), key) && !Where(s.threads, t).Working?
    ensures Shut(s, key)
  {
  }

  /** A key nobody has ever asked for is absent. */
  lemma UnknownIsAbsent(s: State, key: Key)
    requires Locked(s) && s.closing && key !in Keys(s)
    ensures Absent(s, key) && Idle(s, key)
  {
  }

  lemma DrainAdvances(s: State, t: Tid, act: DrainAct)
    requires Inv(s)
    ensures var v := DrainStep(s, t, act); Progress(v, Where(v.threads, t))
  {
    var v := DrainStep(s, t, act);
    var pc := Where(s.threads, t);
    assert Progress(s, pc);
    ProgressStays(s, Drain(t, act), pc);
    match act
    case NextPass =>
      if pc.DrainPause? {
        forall key | key !in Keys(s) ensures Idle(v, key) {
          UnknownIsAbsent(s, key);
          ShutStays(s, Drain(t, act), key);
        }
      }
    case DrainSee(_) =>
      if pc.DrainLook? {
        InsideIsShut(s, t, pc.key);
        ShutStays(s, Drain(t, act), pc.key);
      }
    case _ =>
  }

  lemma CloseAdvances(s: State, t: Tid, act: CloseAct)
    requires Inv(s)
    ensures var v := CloseStep(s, t, act); Progress(v, Where(v.threads, t))
  {
    var v := CloseStep(s, t, act);
    var pc := Where(s.threads, t);
    assert Progress(s, pc);
    ProgressStays(s, Close(t, act), pc);
    match act
    case ListKeys =>
      if pc.CloseStart? {
        forall key | key !in Keys(s) ensures Absent(v, key) {
          UnknownIsAbsent(s, key);
          ShutStays(s, Close(t, act), key);
        }
      }
    case CloseRemove =>
      if pc.CloseOne? {
        InsideIsShut(s, t, pc.key);
        ShutStays(s, Close(t, act), pc.key);
      }
    case _ =>
  }

  lemma RequestAdvances(s: State, t: Tid, act: Act)
    requires Inv(s)
    ensures var v := RequestStep(s, t, act); Progress(v, Where(v.threads, t))
  {
    var pc := Where(RequestStep(s, t, act).threads, t);
    if !(pc.Away? || pc.Waiting? || pc.Holding? || pc.Working?) {
      assert pc == Where(s.threads, t) && Progress(s, pc);
      ProgressStays(s, Request(t, act), pc);
    }
  }

  lemma OthersStand(s: State, e: Event, u: Tid)
    requires e.OwnerDies? || e.t != u
    ensures Where(Step(s, e).threads, u) == Where(s.threads, u)
  {
  }

  lemma Advances(s: State, e: Event, u: Tid)
    requires Inv(s)
    ensures Progress(Step(s, e), Where(Step(s, e).threads, u))
  {
    if e.OwnerDies? || e.t != u {
      OthersStand(s, e, u);
      assert Progress(s, Where(s.threads, u));
      ProgressStays(s, e, Where(s.threads, u));
      return;
    }
    match e
    case Request(t, act) => RequestAdvances(s, t, act);
    case Drain(t, act) => DrainAdvances(s, t, act);
    case Close(t, act) => CloseAdvances(s, t, act);
  }

  lemma InvStep(s: State, e: Event)
    requires Inv(s)
    ensures Inv(Step(s, e))
  {
    LockedStep(s, e);
    forall u ensures Progress(Step(s, e), Where(Step(s, e).threads, u)) {
      Advances(s, e, u);
    }
  }

  lemma {:induction false} RunInv(s: State, events: seq<Event>)
    requires Inv(s)
    ensures Inv(Run(s, events))
    decreases |events|
  {
    if events != [] {
      InvStep(s, events[0]);
      RunInv(Step(s, events[0]), events[1..]);
    }
  }

  lemma Reachable(events: seq<Event>)
    ensures Inv(Run(Initial(), events))
  {
    assert Inv(Initial());
    RunInv(Initial(), events);
  }

  // ---------------------------------------------------------------- what shutdown achieves

  /** In every reachable state at most one thread is inside the gate of a key. */
  lemma MutualExclusion(events: seq<Event>, t: Tid, u: Tid, key: Key)
    requires var s := Run(Initial(), events); Owns(Where(s.threads, t), key) && Owns(Where(s.threads, u), key)
    ensures t == u
  {
    Reachable(events);
    OneInside(Run(Initial(), events), t, u, key);
  }

  lemma OneInside(s: State, t: Tid, u: Tid, key: Key)
    requires Locked(s) && Owns(Where(s.threads, t), key) && Owns(Where(s.threads, u), key)
    ensures t == u
  {
    assert s.holder[key] == t && s.holder[key] == u;
  }

  predicate SameLease(s: State, v: State, key: Key) {
    && (key in v.sessions <==> key in s.sessions)
    && (key in s.sessions ==> v.sessions[key].busy == s.sessions[key].busy)
  }

  lemma OnlyOwnKey(s: State, e: Event, key: Key)
    ensures SameLease(s, Step(s, e), key)
      || ((e.Request? || e.Close?) && Owns(Where(s.threads, e.t), key))
  {
  }

  /** A session is opened, leased, ended or closed only by whoever is inside its gate. */
  lemma OnlyInside(events: seq<Event>, e: Event, key: Key)
    ensures var s := Run(Initial(), events);
      SameLease(s, Step(s, e), key)
      || ((e.Request? || e.Close?) && key in s.holder && s.holder[key] == e.t)
  {
    Reachable(events);
    OnlyOwnKey(Run(Initial(), events), e, key);
  }

  lemma {:induction false} StaysShut(s: State, events: seq<Event>, key: Key)
    requires Shut(s, key)
    ensures Idle(s, key) ==> Idle(Run(s, events), key)
    ensures Absent(s, key) ==> Absent(Run(s, events), key)
    decreases |events|
  {
    if events != [] {
      ShutStays(s, events[0], key);
      StaysShut(Step(s, events[0]), events[1..], key);
    }
  }

  /** When a drain returned with nothing pending, no live owner holds a lease, now or ever after. */
  lemma DrainIsComplete(events: seq<Event>, t: Tid, later: seq<Event>, key: Key)
    requires Where(Run(Initial(), events).threads, t).Drained?
    ensures var s := Run(Run(Initial(), events), later);
      (key in s.sessions ==> !Live(s.sessions[key])) && forall u :: Where(s.threads, u) != Working(key, false)
  {
    var s := Run(Initial(), events);
    Reachable(events);
    assert Progress(s, Where(s.threads, t));
    assert Idle(s, key);
    StaysShut(s, later, key);
  }

  /** When closing returned, no session is registered, nor will one ever be. */
  lemma CloseIsComplete(events: seq<Event>, t: Tid, later: seq<Event>)
    requires Where(Run(Initial(), events).threads, t).Closed?
    ensures Run(Run(Initial(), events), later).sessions == map[]
  {
    var s := Run(Initial(), events);
    var v := Run(s, later);
    Reachable(events);
    assert Progress(s, Where(s.threads, t));
    forall key ensures key !in v.sessions {
      assert Absent(s, key);
      StaysShut(s, later, key);
    }
  }

  // ---------------------------------------------------------------- nobody waits for ever

  /** How far a thread inside a gate is from leaving it. */
  function Distance(pc: Pc): nat {
    if pc.Holding? then 2 else if pc.Working? || pc.DrainLook? || pc.CloseOne? then 1 else 0
  }

  function NextOut(s: State, t: Tid): Event {
    match Where(s.threads, t)
    case DrainLook(_, _, _) => Drain(t, DrainSee(false))
    case CloseOne(_, _) => Close(t, CloseRemove)
    case Holding(_, _) => Request(t, Recheck)
    case _ => Request(t, Unlock)
  }

  lemma Leaves(s: State, t: Tid, key: Key)
    requires Owns(Where(s.threads, t), key)
    ensures var v := Step(s, NextOut(s, t));
      if Owns(Where(v.threads, t), key) then Distance(Where(v.threads, t)) < Distance(Where(s.threads, t))
      else key !in v.holder
  {
  }

  /** The acts that bring the holder of a gate out of it. */
  function WayOut(s: State, key: Key): seq<Event> {
    if key !in s.holder then []
    else
      var first := NextOut(s, s.holder[key]);
      var v := Step(s, first);
      if key !in v.holder then [first] else [first, NextOut(v, s.holder[key])]
  }

  predicate ActOf(e: Event, t: Tid) {
    !e.OwnerDies? && e.t == t
  }

  /** The state after the first act of the thread inside. */
  function Nearer(s: State, t: Tid): State { Step(s, NextOut(s, t)) }

  lemma OneMore(s: State, e: Event)
    ensures Run(s, [e]) == Step(s, e)
  {
    assert [e][1..] == [];
  }

  lemma TwoMore(s: State, e: Event, d: Event)
    ensures Run(s, [e, d]) == Step(Step(s, e), d)
  {
    assert [e, d][1..] == [d];
    OneMore(Step(s, e), d);
  }

  lemma WayOutRuns(s: State, key: Key)
    requires key in s.holder
    ensures var t := s.holder[key];
      Run(s, WayOut(s, key)) == if key in Nearer(s, t).holder then Nearer(Nearer(s, t), t) else Nearer(s, t)
  {
    var t := s.holder[key];
    OneMore(s, NextOut(s, t));
    TwoMore(s, NextOut(s, t), NextOut(Nearer(s, t), t));
  }

  lemma OthersStay(s: State, t: Tid, u: Tid)
    requires u != t
    ensures Where(Nearer(s, t).threads, u) == Where(s.threads, u) && ActOf(NextOut(s, t), t)
  {
  }

  lemma OutAfterTwo(s: State, t: Tid, key: Key)
    requires Owns(Where(s.threads, t), key)
    ensures key in Nearer(s, t).holder ==> key !in Nearer(Nearer(s, t), t).holder
  {
    Leaves(s, t, key);
    if Owns(Where(Nearer(s, t).threads, t), key) { Leaves(Nearer(s, t), t, key); }
  }

  /** Whoever is inside a gate can go on by itself, and is out after at most two acts. */
  lemma GateIsLeft(s: State, key: Key, u: Tid)
    requires Locked(s) && !Owns(Where(s.threads, u), key)
    ensures var out := WayOut(s, key); var v := Run(s, out);
      && |out| <= 2 && key !in v.holder && Where(v.threads, u) == Where(s.threads, u)
      && forall i :: 0 <= i < |out| ==> key in s.holder && ActOf(out[i], s.holder[key])
  {
    if key in s.holder {
      var t := s.holder[key];
      WayOutRuns(s, key);
      OutAfterTwo(s, t, key);
      OthersStay(s, t, u);
      OthersStay(Nearer(s, t), t, u);
    }
  }

  lemma TakesFree(s: State, t: Tid, key: Key)
    requires Where(s.threads, t).Waiting? && Where(s.threads, t).key == key && key !in s.holder
    ensures var v := Step(s, Request(t, Take));
      key in v.holder && v.holder[key] == t && Where(v.threads, t) == Holding(key, Where(s.threads, t).release)
  {
  }

  lemma {:induction false} RunConcat(s: State, a: seq<Event>, b: seq<Event>)
    ensures Run(s, a + b) == Run(Run(s, a), b)
    decreases |a|
  {
    if a == [] {
      assert a + b == b;
    } else {
      assert (a + b)[1..] == a[1..] + b;
      RunConcat(Step(s, a[0]), a[1..], b);
    }
  }

  /**
   From every reachable state, a thread that waits for a gate has it after at most two acts of the
   thread inside and one of its own: nobody waits in a circle.
   */
  lemma WaiterGetsIn(events: seq<Event>, t: Tid)
    requires Where(Run(Initial(), events).threads, t).Waiting?
    ensures var s := Run(Initial(), events); var pc := Where(s.threads, t); var out := WayOut(s, pc.key);
      && |out| <= 2 && (forall i :: 0 <= i < |out| ==> pc.key in s.holder && ActOf(out[i], s.holder[pc.key]))
      && var v := Run(s, out + [Request(t, Take)]);
         pc.key in v.holder && v.holder[pc.key] == t && Where(v.threads, t) == Holding(pc.key, pc.release)
  {
    var s := Run(Initial(), events);
    var key := Where(s.threads, t).key;
    Reachable(events);
    GateIsLeft(s, key, t);
    TakesFree(Run(s, WayOut(s, key)), t, key);
    RunConcat(s, WayOut(s, key), [Request(t, Take)]);
    OneMore(Run(s, WayOut(s, key)), Request(t, Take));
  }

  lemma WayOutLeaves(s: State, key: Key)
    ensures Run(s, WayOut(s, key)).closing == s.closing
  {
    if key in s.holder { WayOutRuns(s, key); }
  }

  /** Once its turn has come a waiting thread works, unless the daemon is closing and it is no release. */
  lemma GetsToWork(s: State, t: Tid)
    requires Locked(s) && Where(s.threads, t).Waiting?
    ensures var pc := Where(s.threads, t);
      var v := Run(s, WayOut(s, pc.key) + [Request(t, Take), Request(t, Recheck)]);
      Where(v.threads, t) == if pc.release || !s.closing then Working(pc.key, pc.release) else Away
  {
    var pc := Where(s.threads, t);
    var v := Run(s, WayOut(s, pc.key));
    GateIsLeft(s, pc.key, t);
    WayOutLeaves(s, pc.key);
    TakesFree(v, t, pc.key);
    RunConcat(s, WayOut(s, pc.key), [Request(t, Take), Request(t, Recheck)]);
    TwoMore(v, Request(t, Take), Request(t, Recheck));
  }

  /** The acts of a request up to its work: ask, wait for whoever is inside, take the gate, look again. */
  function Enters(s: State, t: Tid, key: Key, release: bool): seq<Event> {
    var first := Request(t, Start(key, release));
    [first] + WayOut(Step(s, first), key) + [Request(t, Take), Request(t, Recheck)]
  }

  lemma EntersRuns(s: State, t: Tid, key: Key, release: bool)
    ensures var u := Step(s, Request(t, Start(key, release)));
      Run(s, Enters(s, t, key, release)) == Run(u, WayOut(u, key) + [Request(t, Take), Request(t, Recheck)])
  {
    var first := Request(t, Start(key, release));
    var u := Step(s, first);
    var rest := WayOut(u, key) + [Request(t, Take), Request(t, Recheck)];
    assert Enters(s, t, key, release) == [first] + rest;
    RunConcat(s, [first], rest);
    OneMore(s, first);
  }

  /**
   From every reachable state a request gets through its gate to its work exactly when the daemon is not
   closing or it is a release; otherwise it is turned away.
   */
  lemma RequestGetsIn(events: seq<Event>, t: Tid, key: Key, release: bool)
    requires Where(Run(Initial(), events).threads, t).Away?
    ensures var s := Run(Initial(), events); var v := Run(s, Enters(s, t, key, release));
      Where(v.threads, t) == if release || !s.closing then Working(key, release) else Away
  {
    var s := Run(Initial(), events);
    var u := Step(s, Request(t, Start(key, release)));
    Reachable(events);
    InvStep(s, Request(t, Start(key, release)));
    EntersRuns(s, t, key, release);
    if release || !s.closing { GetsToWork(u, t); } else { TurnedAway(s, t, key); }
  }

  lemma TurnedAway(s: State, t: Tid, key: Key)
    requires Locked(s) && Where(s.threads, t).Away?
    ensures Where(Run(s, WayOut(s, key) + [Request(t, Take), Request(t, Recheck)]).threads, t).Away?
  {
    var v := Run(s, WayOut(s, key));
    GateIsLeft(s, key, t);
    RunConcat(s, WayOut(s, key), [Request(t, Take), Request(t, Recheck)]);
    TwoMore(v, Request(t, Take), Request(t, Recheck));
  }

  /** A request that tries the gate just once gets in exactly when it is free and the daemon is not closing. */
  lemma TryGetsIn(events: seq<Event>, t: Tid, key: Key)
    requires Where(Run(Initial(), events).threads, t).Away?
    ensures var s := Run(Initial(), events); var v := Step(s, Request(t, Try(key)));
      && (Where(v.threads, t) == if !s.closing && (forall u :: !Owns(Where(s.threads, u), key))
                                 then Working(key, false) else Away)
      && v.sessions == s.sessions && v.closing == s.closing
  {
    Reachable(events);
    var s := Run(Initial(), events);
    if key in s.holder { assert Owns(Where(s.threads, s.holder[key]), key); }
  }

  /** As `RequestGetsIn`, for a request that was already waiting when the daemon began to close. */
  lemma WaiterGetsToWork(events: seq<Event>, t: Tid)
    requires Where(Run(Initial(), events).threads, t).Waiting?
    ensures var s := Run(Initial(), events); var pc := Where(s.threads, t);
      var v := Run(s, WayOut(s, pc.key) + [Request(t, Take), Request(t, Recheck)]);
      Where(v.threads, t) == if pc.release || !s.closing then Working(pc.key, pc.release) else Away
  {
    Reachable(events);
    GetsToWork(Run(Initial(), events), t);
  }

  /** A release ends the lease of its session and leaves the gate. */
  lemma ReleaseFinishes(s: State, t: Tid, key: Key)
    requires Where(s.threads, t).Working? && Where(s.threads, t).key == key
    ensures var v := Run(s, [Request(t, FinishLease), Request(t, Unlock)]);
      && key !in v.holder && Where(v.threads, t).Away? && v.sessions.Keys == s.sessions.Keys
      && (key in v.sessions ==> !v.sessions[key].busy)
  {
    TwoMore(s, Request(t, FinishLease), Request(t, Unlock));
  }

  /** In every reachable state, closing or not, a release that is asked for ends the lease. */
  lemma ReleaseGetsThrough(events: seq<Event>, t: Tid, key: Key)
    requires Where(Run(Initial(), events).threads, t).Away?
    ensures var s := Run(Initial(), events);
      var v := Run(s, Enters(s, t, key, true) + [Request(t, FinishLease), Request(t, Unlock)]);
      Where(v.threads, t).Away? && key !in v.holder && (key in v.sessions ==> !v.sessions[key].busy)
  {
    var s := Run(Initial(), events);
    RequestGetsIn(events, t, key, true);
    RunConcat(s, Enters(s, t, key, true), [Request(t, FinishLease), Request(t, Unlock)]);
    ReleaseFinishes(Run(s, Enters(s, t, key, true)), t, key);
  }

  // ---------------------------------------------------------------- shutdown comes to an end

  /** No gate is taken and no live owner holds a lease. */
  predicate Calm(s: State) {
    s.holder == map[] && forall key :: key in s.sessions ==> !Live(s.sessions[key])
  }

  /** What the drain does at one key, and then in one pass over `keys`. */
  function Visit(t: Tid, key: Key): seq<Event> {
    [Drain(t, DrainTry(key)), Drain(t, DrainSee(false))]
  }

  lemma VisitPasses(s: State, t: Tid, key: Key, todo: set<Key>)
    requires Calm(s) && Where(s.threads, t) == DrainPass(todo, false) && key in todo
    ensures var v := Run(s, Visit(t, key)); Calm(v) && Where(v.threads, t) == DrainPass(todo - {key}, false)
  {
    var u := Step(s, Drain(t, DrainTry(key)));
    TwoMore(s, Drain(t, DrainTry(key)), Drain(t, DrainSee(false)));
    assert u.holder == map[key := t];
    assert map[key := t] - {key} == map[];
  }

  ghost predicate OwnActs(events: seq<Event>, t: Tid) {
    forall i :: 0 <= i < |events| ==> ActOf(events[i], t)
  }

  lemma {:induction false} PassEnds(s: State, t: Tid, todo: set<Key>) returns (acts: seq<Event>)
    requires Calm(s) && Where(s.threads, t) == DrainPass(todo, false)
    ensures OwnActs(acts, t) && Where(Run(s, acts).threads, t).Drained?
    decreases |todo|
  {
    if todo == {} {
      acts := [Drain(t, EndPass)];
      OneMore(s, Drain(t, EndPass));
    } else {
      var key :| key in todo;
      VisitPasses(s, t, key, todo);
      var rest := PassEnds(Run(s, Visit(t, key)), t, todo - {key});
      acts := Visit(t, key) + rest;
      RunConcat(s, Visit(t, key), rest);
    }
  }

  /** Once no live owner holds a lease and the gates are free, a drain returns by its own next pass. */
  lemma DrainReturns(s: State, t: Tid)
    requires Calm(s) && Where(s.threads, t).DrainPause?
    ensures exists acts :: OwnActs(acts, t) && Where(Run(s, acts).threads, t).Drained?
  {
    var u := Step(s, Drain(t, NextPass));
    var rest := PassEnds(u, t, Keys(s));
    RunConcat(s, [Drain(t, NextPass)], rest);
    OneMore(s, Drain(t, NextPass));
    assert OwnActs([Drain(t, NextPass)] + rest, t);
  }

  /** At one key a drain gets on by itself, whoever is inside. */
  lemma VisitNeverWaits(s: State, t: Tid, key: Key, todo: set<Key>, pending: bool) returns (acts: seq<Event>)
    requires Where(s.threads, t) == DrainPass(todo, pending) && key in todo
    ensures OwnActs(acts, t) && Where(Run(s, acts).threads, t).DrainPass?
    ensures Where(Run(s, acts).threads, t).todo == todo - {key}
  {
    var first := Drain(t, DrainTry(key));
    if key in s.holder {
      acts := [first];
      OneMore(s, first);
    } else {
      acts := [first, Drain(t, DrainSee(false))];
      TwoMore(s, first, Drain(t, DrainSee(false)));
    }
  }

  lemma {:induction false} PassNeverWaits(s: State, t: Tid, todo: set<Key>, pending: bool) returns (acts: seq<Event>)
    requires Where(s.threads, t) == DrainPass(todo, pending)
    ensures OwnActs(acts, t)
    ensures var pc := Where(Run(s, acts).threads, t); pc.Drained? || pc.DrainPause?
    decreases |todo|
  {
    if todo == {} {
      acts := [Drain(t, EndPass)];
      OneMore(s, Drain(t, EndPass));
    } else {
      var key :| key in todo;
      var first := VisitNeverWaits(s, t, key, todo, pending);
      var v := Run(s, first);
      var rest := PassNeverWaits(v, t, todo - {key}, Where(v.threads, t).pending);
      acts := first + rest;
      RunConcat(s, first, rest);
    }
  }

  /** The acts are one more pass of the drain, to its end. */
  predicate PassMade(s: State, t: Tid, acts: seq<Event>) {
    var pc := Where(Run(s, acts).threads, t);
    |acts| > 0 && acts[0] == Drain(t, NextPass) && (pc.Drained? || pc.DrainPause?)
  }

  /** In every state a drain can finish its pass by its own acts, and give up at its deadline. */
  lemma DrainNeverWaits(s: State, t: Tid)
    requires Where(s.threads, t).DrainPause?
    ensures exists acts :: OwnActs(acts, t) && PassMade(s, t, acts)
    ensures Where(Step(s, Drain(t, Deadline)).threads, t).Away?
  {
    var first := Drain(t, NextPass);
    var rest := PassNeverWaits(Step(s, first), t, Keys(s), false);
    RunConcat(s, [first], rest);
    OneMore(s, first);
    assert OwnActs([first] + rest, t) && PassMade(s, t, [first] + rest);
  }

  lemma CloseVisits(s: State, t: Tid, key: Key, todo: set<Key>) returns (acts: seq<Event>)
    requires Locked(s) && Where(s.threads, t) == ClosePass(todo) && key in todo
    ensures Where(Run(s, acts).threads, t) == ClosePass(todo - {key}) && Locked(Run(s, acts))
  {
    var own := [Close(t, CloseTake(key)), Close(t, CloseRemove)];
    var v := Run(s, WayOut(s, key));
    GateIsLeft(s, key, t);
    LockedRun(s, WayOut(s, key));
    TwoMore(v, own[0], own[1]);
    LockedRun(v, own);
    RunConcat(s, WayOut(s, key), own);
    acts := WayOut(s, key) + own;
  }

  lemma {:induction false} LockedRun(s: State, events: seq<Event>)
    requires Locked(s)
    ensures Locked(Run(s, events))
    decreases |events|
  {
    if events != [] {
      LockedStep(s, events[0]);
      LockedRun(Step(s, events[0]), events[1..]);
    }
  }

  lemma {:induction false} ClosePassEnds(s: State, t: Tid, todo: set<Key>) returns (acts: seq<Event>)
    requires Locked(s) && Where(s.threads, t) == ClosePass(todo)
    ensures Where(Run(s, acts).threads, t).Closed?
    decreases |todo|
  {
    if todo == {} {
      acts := [Close(t, EndClose)];
      OneMore(s, Close(t, EndClose));
    } else {
      var key :| key in todo;
      var first := CloseVisits(s, t, key, todo);
      var rest := ClosePassEnds(Run(s, first), t, todo - {key});
      acts := first + rest;
      RunConcat(s, first, rest);
    }
  }

  /** From every reachable state closing can return: whoever is inside a gate goes on, and leaves it. */
  lemma CloseReturns(events: seq<Event>, t: Tid)
    requires Where(Run(Initial(), events).threads, t).CloseStart?
    ensures exists acts :: Where(Run(Run(Initial(), events), acts).threads, t).Closed?
  {
    var s := Run(Initial(), events);
    Reachable(events);
    LockedStep(s, Close(t, ListKeys));
    var rest := ClosePassEnds(Step(s, Close(t, ListKeys)), t, Keys(s));
    RunConcat(s, [Close(t, ListKeys)], rest);
    OneMore(s, Close(t, ListKeys));
  }
}
