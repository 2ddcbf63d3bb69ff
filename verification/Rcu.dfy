/** The RCU runtime of src/xrcu.cpp as a step relation.

    Any number of threads interleave at the granularity of one access to a shared word: loading
    the global counter and storing the own counter are separate steps of enter_cs, and every
    visit of a reader inside poll_readers is a step. Operations on data that only the running
    thread touches are merged into the neighbouring shared step. */
module Rcu {
  import opened Common
  import opened ReaderRings
  import opened ReaderWord

  type Tid = nat
  type Obj = nat

  /** tl_data::state */
  function StateOf(val: Word, ctr: Word): ReaderState {
    if !InCs(val) then Inactive else if SamePhase(val, ctr) then Active else Old
  }

  /** What a thread inside registry::sync came for. */
  datatype Why = ForSync | ForFlush | ForExit

  /** Where a thread is inside registry::sync; `second` tells the two calls of poll_readers apart.
      `todo` holds the readers the current pass has still to visit. */
  datatype Stage =
    | WantGp
    | HaveGp
    | Polling(second: bool, todo: set<Tid>)
    | Dropped(second: bool)
    | Flipping
    | Splicing
    | Spliced

  /** `snap` is a history variable: the critical sections that were open when sync was called. */
  datatype Pc =
    | Idle
    | Entering(val: Word)
    | Syncing(why: Why, snap: map<Tid, nat>, stage: Stage)
    | Destroying(final: bool, rest: seq<Obj>)
    | Deleting
    | Dead

  /** The thread-local record. `cs` (number of outermost sections entered), `fin` and `des`
      (objects finalized and destroyed so far) are history variables. */
  datatype Thread = Thread(
    word: Word, linked: bool, pc: Pc,
    fins: seq<Obj>, nFins: nat, mustFlush: bool,
    cs: nat, fin: seq<Obj>, des: seq<Obj>)

  /** `guards` is a history variable: for every finalized object, the critical sections that were
      open at the moment of its finalize. */
  datatype State = State(
    ctr: Word, threads: map<Tid, Thread>,
    gp: Option<Tid>, td: Option<Tid>, rings: Places<Tid>,
    guards: map<Obj, map<Tid, nat>>)

  const NEW_THREAD := Thread(ZERO, false, Idle, [], 0, false, 0, [], [])
  const INIT := State(ONE, map[], None, None, Places({}, {}, {}), map[])

  /** The open critical sections: a section is a thread together with the number of its entry. */
  function OpenSections(threads: map<Tid, Thread>): map<Tid, nat> {
    map t | t in threads && InCs(threads[t].word) :: threads[t].cs
  }

  /** The section that `secs` names for thread t has not ended yet. */
  predicate StillOpen(threads: map<Tid, Thread>, secs: map<Tid, nat>, t: Tid) {
    t in secs && t in threads && InCs(threads[t].word) && threads[t].cs == secs[t]
  }

  datatype Action =
    | Spawn(t: Tid)
    | Register(t: Tid)
    | EnterLoad(t: Tid)
    | EnterStore(t: Tid)
    | EnterNested(t: Tid)
    | Exit(t: Tid)
    | Finalize(t: Tid, o: Obj)
    | FlushFinalizers(t: Tid)
    | CallSync(t: Tid)
    | ThreadExit(t: Tid)
    | LockGp(t: Tid)
    | LockTd(t: Tid)
    | Visit(t: Tid, u: Tid)
    | EndPass(t: Tid)
    | Relock(t: Tid)
    | Flip(t: Tid)
    | Splice(t: Tid)
    | UnlockGp(t: Tid)
    | Destroy(t: Tid)
    | EndFlush(t: Tid)
    | Del(t: Tid)

  /** The thread is at `stage` of sync. */
  predicate AtStage(th: Thread, stage: Stage) {
    th.pc.Syncing? && th.pc.stage == stage
  }

  predicate IsPolling(th: Thread) {
    th.pc.Syncing? && th.pc.stage.Polling?
  }

  predicate Enabled(s: State, a: Action) {
    if a.Spawn? then a.t !in s.threads
    else
      a.t in s.threads &&
      var th := s.threads[a.t];
      match a
      case Register(_) => th.pc == Idle && !th.linked && s.td == None
      case EnterLoad(_) => th.pc == Idle && th.linked && !InCs(th.word)
      case EnterStore(_) => th.pc.Entering?
      case EnterNested(_) =>
        th.pc == Idle && InCs(th.word) && th.word.nest != GP_NEST_MASK
      case Exit(_) => th.pc == Idle && InCs(th.word)
      case Finalize(_, o) => th.pc == Idle && th.linked && o !in s.guards
      case FlushFinalizers(_) => th.pc == Idle && th.linked
      case CallSync(_) => th.pc == Idle
      case ThreadExit(_) => th.pc == Idle
      case LockGp(_) => AtStage(th, WantGp) && s.gp == None
      case LockTd(_) => AtStage(th, HaveGp) && s.td == None
      case Visit(_, u) => IsPolling(th) && u in th.pc.stage.todo && u in s.threads
      case EndPass(_) => IsPolling(th) && th.pc.stage.todo == {}
      case Relock(_) => th.pc.Syncing? && th.pc.stage.Dropped? && s.td == None
      case Flip(_) => AtStage(th, Flipping)
      case Splice(_) => AtStage(th, Splicing)
      case UnlockGp(_) => AtStage(th, Spliced)
      case Destroy(_) => th.pc.Destroying? && th.pc.rest != []
      case EndFlush(_) => th.pc.Destroying? && th.pc.rest == []
      case Del(_) => th.pc == Deleting && s.td == None
  }

  // ----- What a step does to the record of the thread that takes it -----

  function SetStage(th: Thread, stage: Stage): Thread
    requires th.pc.Syncing?
  {
    th.(pc := th.pc.(stage := stage))
  }

  /** The call of registry::sync by thread t, whose record is already th. It is made outside any
      section of t itself, so the open sections are those of the other threads. */
  function CallRegistrySync(s: State, t: Tid, th: Thread, why: Why): Thread {
    th.(pc := Syncing(why, OpenSections(s.threads - {t}), WantGp))
  }

  /** flush_all at the point where it asks sync(): refused inside a critical section. */
  function FlushAll(s: State, t: Tid, th: Thread): Thread {
    if InCs(th.word) then th.(mustFlush := true) else CallRegistrySync(s, t, th, ForFlush)
  }

  function ExitThread(s: State, t: Tid, th: Thread): Thread
    requires InCs(th.word)
  {
    var th' := th.(word := Exited(th.word));
    if th'.mustFlush && !InCs(th'.word) then CallRegistrySync(s, t, th', ForFlush) else th'
  }

  function FinalizeThread(s: State, t: Tid, th: Thread, o: Obj): Thread {
    var n := (th.nFins + 1) % UINT_RANGE;
    var th' := th.(fins := th.fins + [o], nFins := n, fin := th.fin + [o]);
    if n < MAX_FINS then th' else FlushAll(s, t, th')
  }

  /** The destructor of the thread-local record, up to its flush. */
  function ThreadExitThread(s: State, t: Tid, th: Thread): Thread {
    if !th.linked then th.(pc := Dead)
    else
      var th' := th.(word := ZERO);
      if th'.nFins > 0 then CallRegistrySync(s, t, th', ForExit) else th'.(pc := Deleting)
  }

  /** Leaving registry::sync: a plain sync is over, a flush goes on to destroy its objects. */
  function AfterSync(th: Thread): Thread
    requires th.pc.Syncing?
  {
    th.(pc := if th.pc.why == ForSync then Idle else Destroying(th.pc.why == ForExit, th.fins))
  }

  /** The end of a pass of poll_readers: repeat until the ring is empty. */
  function EndPassStage(s: State, second: bool): Stage {
    if s.rings.Readers(second) != {} then Dropped(second)
    else if second then Splicing
    else Flipping
  }

  function NextThread(s: State, a: Action): Thread
    requires Enabled(s, a)
  {
    if a.Spawn? then NEW_THREAD
    else
      var t := a.t;
      var th := s.threads[t];
      match a
      case Register(_) => th.(linked := true)
      case EnterLoad(_) => th.(pc := Entering(s.ctr))
      case EnterStore(_) => th.(word := th.pc.val, pc := Idle, cs := th.cs + 1)
      case EnterNested(_) => th.(word := Nested(th.word))
      case Exit(_) => ExitThread(s, t, th)
      case Finalize(_, o) => FinalizeThread(s, t, th, o)
      case FlushFinalizers(_) => FlushAll(s, t, th)
      case CallSync(_) => if InCs(th.word) then th else CallRegistrySync(s, t, th, ForSync)
      case ThreadExit(_) => ThreadExitThread(s, t, th)
      case LockGp(_) => SetStage(th, HaveGp)
      case LockTd(_) =>
        if s.rings.root == {} then AfterSync(th) else SetStage(th, Polling(false, s.rings.root))
      case Visit(_, u) => SetStage(th, th.pc.stage.(todo := th.pc.stage.todo - {u}))
      case EndPass(_) => SetStage(th, EndPassStage(s, th.pc.stage.second))
      case Relock(_) =>
        SetStage(th, Polling(th.pc.stage.second, s.rings.Readers(th.pc.stage.second)))
      case Flip(_) => SetStage(th, Polling(true, s.rings.out))
      case Splice(_) => SetStage(th, Spliced)
      case UnlockGp(_) => AfterSync(th)
      case Destroy(_) =>
        th.(pc := th.pc.(rest := th.pc.rest[1..]), des := th.des + [th.pc.rest[0]])
      case EndFlush(_) =>
        th.(pc := if th.pc.final then Deleting else Idle, fins := [], nFins := 0, mustFlush := false)
      case Del(_) => th.(pc := Dead, linked := false)
  }

  // ----- What a step does to the shared state -----

  function NextCtr(s: State, a: Action): Word {
    if a.Flip? then Flipped(s.ctr) else s.ctr
  }

  function NextGp(s: State, a: Action): Option<Tid> {
    match a
    case LockGp(t) => Some(t)
    case LockTd(_) => if s.rings.root == {} then None else s.gp
    case UnlockGp(_) => None
    case _ => s.gp
  }

  function NextTd(s: State, a: Action): Option<Tid>
    requires Enabled(s, a)
  {
    match a
    case LockTd(t) => if s.rings.root == {} then None else Some(t)
    case EndPass(t) =>
      if s.rings.Readers(s.threads[t].pc.stage.second) == {} then s.td else None
    case Relock(t) => Some(t)
    case Splice(_) => None
    case _ => s.td
  }

  function NextRings(s: State, a: Action): Places<Tid>
    requires Enabled(s, a)
  {
    match a
    case Register(t) => s.rings.AddRoot(t)
    case Visit(t, u) => s.rings.Visited(s.threads[t].pc.stage.second, u, StateOf(s.threads[u].word, s.ctr))
    case Splice(_) => s.rings.Spliced()
    case Del(t) => s.rings.Remove(t)
    case _ => s.rings
  }

  function NextGuards(s: State, a: Action): map<Obj, map<Tid, nat>> {
    if a.Finalize? then s.guards[a.o := OpenSections(s.threads)] else s.guards
  }

  function Step(s: State, a: Action): State
    requires Enabled(s, a)
  {
    State(NextCtr(s, a), s.threads[a.t := NextThread(s, a)], NextGp(s, a), NextTd(s, a),
          NextRings(s, a), NextGuards(s, a))
  }
}
