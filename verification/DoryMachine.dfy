/**
 The Dory device as a step machine. A thread is anything that makes progress on its own: a
 doryMap call, a kworker item, a request that the storage is serving, an end-of-write
 callback. `Run(i)` executes the next atomic section of thread i; the decrement of the busy
 count and the flush lock section that may follow it are two sections, as in the driver.
 */
module DoryMachine {
  import opened DoryDisk
  import opened DorySections

  /** What follows decrementBusyCountAndTest: processBio returns (`out` holds the bio when the
      result is REMAPPED), or the callback releases the bios of its cache block. */
  datatype After = Result(out: seq<nat>) | Release(rel: seq<nat>)

  datatype Pc =
    | Start(b: nat)                                              // processBio(b) is called
    | Enter(b: nat)                                              // counted busy; next the flush lock
    | Look(b: nat)                                               // next the cache block lock
    | Copy(b: nat, slot: nat)                                    // block is COPYING; next the copy and endio
    | Copied(slot: nat)                                          // next the cache block lock again
    | Walk(next: nat)                                            // flushTheCache at slot `next`
    | SubmitWalk(slot: nat)                                      // flushCacheBlock, called by the walk
    | SubmitOnce(slot: nat)                                      // flushCacheBlock, called by processBio*
    | Dec(k: After)                                              // next the decrement
    | Ticket(k: After)                                           // saw zero; next the flush lock
    | Hand(k: After, ready: seq<nat>, flushes: seq<nat>)         // next the work lock
    | Then(k: After)
    | Pop                                                        // processBioList takes the next bio
    | Take                                                       // scheduled work item
    | Flushes(left: seq<nat>)                                    // processDelayed, completed flushes
    | Storage(b: nat)                                            // the storage serves b
    | Writing(slot: nat)                                         // the storage serves a write-back
    | EndLock(slot: nat)                                         // endFlushCacheBlock
    | Done

  /** `ready` is the local ready list, `keep` the bio doryMap itself will return as REMAPPED,
      `own` tells that the current bio is doryMap's own. */
  datatype Thread = Thread(pc: Pc, ready: seq<nat>, keep: seq<nat>, own: bool)

  /** History kept per slot: the block is being filled and holds no data yet; the thread that has
      the slot COPYING or WRITING; the position in `done` of the write that filled it. */
  datatype Note = Note(filling: bool, owner: nat, since: nat)

  /** History: blocks whose write-back was refused; blocks whose dirty slot was dropped by a
      full-block FUA write or discard that is still in flight (with that bio); the last thread to
      start a walk, to drop the busy count to zero, to be scheduled as a work item. */
  datatype Aux = Aux(
    init: seq<Block>,
    notes: seq<Note>,
    lost: set<nat>,
    dropped: map<nat, nat>,
    walker: nat,
    ticket: nat,
    worker: nat)

  /** `bios` are the accepted bios (a bio's number is its position), `done` how they ended. */
  datatype State = State(
    d: Device,
    th: seq<Thread>,
    disk: seq<Block>,
    bios: seq<Bio>,
    done: seq<Ending>,
    aux: Aux)

  datatype Step = Accept(bio: Bio) | SetStop | SetTorn(mask: TornMask, modulus: TornModulus) | Run(i: nat)

  function Forked(pc: Pc): Thread { Thread(pc, [], [], false) }

  /** Thread i moves on to t and starts the threads of `fork`. */
  function Moved(th: seq<Thread>, i: nat, t: Thread, fork: seq<Thread>): (r: seq<Thread>)
    requires i < |th|
    ensures |r| == |th| + |fork|
  {
    th[i := t] + fork
  }

  predicate Ended(s: State, id: nat) { exists p :: 0 <= p < |s.done| && s.done[p].id == id }

  // ---- The sections ----

  function AfterStart(d: Device, bio: Bio, b: nat): Pc
  {
    match GateOf(d, bio)
    case Refuse => Then(Result([]))
    case Bypass => Then(Result([b]))
    case Admit => Enter(b)
  }

  function StepStart(s: State, i: nat, b: nat): State
    requires i < |s.th| && b < |s.bios|
  {
    s.(d := GateSection(s.d, s.bios[b]),
       th := Moved(s.th, i, s.th[i].(pc := AfterStart(s.d, s.bios[b], b)), []),
       done := s.done + if GateOf(s.d, s.bios[b]).Refuse? then [Ending(b, false, false, [])] else [])
  }

  function AfterEnter(d: Device, bio: Bio, b: nat): Pc
  {
    match EntryOf(d, bio)
    case FirstFlush => Walk(0)
    case LaterFlush => Dec(Result([]))
    case Deferred => Dec(Result([]))
    case Proceed => Look(b)
  }

  function StepEnter(s: State, i: nat, b: nat): State
    requires i < |s.th| && b < |s.bios|
  {
    s.(d := EnterSection(s.d, b, s.bios[b]),
       th := Moved(s.th, i, s.th[i].(pc := AfterEnter(s.d, s.bios[b], b)), []),
       aux := s.aux.(walker := if EntryOf(s.d, s.bios[b]).FirstFlush? then i else s.aux.walker))
  }

  function AfterLook(found: Found, b: nat, j: nat): Pc
  {
    match found
    case Remap => Dec(Result([b]))
    case Fill => Copy(b, j)
    case Hit => Copy(b, j)
    case Park => Dec(Result([]))
    case Drop => Dec(Result([b]))
    case Evict => SubmitOnce(j)
  }

  function NoteLook(found: Found, i: nat, note: Note): Note
  {
    match found
    case Fill => Note(true, i, 0)
    case Hit => note.(owner := i)
    case Evict => note.(owner := i)
    case _ => note
  }

  function StepLook(s: State, i: nat, b: nat): State
    requires i < |s.th| && b < |s.bios| && s.d.slots != [] && |s.aux.notes| == |s.d.slots|
  {
    var block := BlockOf(s.d.wide, s.bios[b]);
    var j := SlotOf(|s.d.slots|, block);
    var found := FoundOf(s.d, s.bios[b]);
    s.(d := LookSection(s.d, b, s.bios[b]),
       th := Moved(s.th, i, s.th[i].(pc := AfterLook(found, b, j)), []),
       aux := s.aux.(notes := s.aux.notes[j := NoteLook(found, i, s.aux.notes[j])],
                     dropped := if found.Drop? then s.aux.dropped[block := b] else s.aux.dropped))
  }

  function StepCopy(s: State, i: nat, b: nat, j: nat): State
    requires i < |s.th| && b < |s.bios| && j < |s.d.slots| && |s.aux.notes| == |s.d.slots|
    requires OffsetOf(s.d.wide, s.bios[b]) + s.bios[b].size <= |s.d.slots[j].data|
    requires Mutates(s.bios[b]) ==> |s.bios[b].data| == s.bios[b].size
  {
    var bio, at, note := s.bios[b], OffsetOf(s.d.wide, s.bios[b]), s.aux.notes[j];
    var data := if bio.op.Read? then s.d.slots[j].data[at..at + bio.size] else [];
    s.(d := CopySection(s.d, j, bio),
       th := Moved(s.th, i, s.th[i].(pc := Copied(j)), []),
       done := s.done + [Ending(b, true, false, data)],
       aux := s.aux.(notes := s.aux.notes[j := note.(filling := false, since := if note.filling then |s.done| else note.since)]))
  }

  function StepCopied(s: State, i: nat, j: nat): State
    requires i < |s.th| && j < |s.d.slots|
  {
    s.(d := CopiedSection(s.d, j),
       th := Moved(s.th, i, s.th[i].(pc := if s.d.flushFlag then SubmitOnce(j) else Dec(Result([])),
                                     ready := s.th[i].ready + s.d.slots[j].waiters), []))
  }

  function AfterWalk(d: Device, j: nat): Pc
  {
    if j >= |d.slots| then Dec(Result([])) else if DirtyAt(d, j) then SubmitWalk(j) else Walk(j + 1)
  }

  function StepWalk(s: State, i: nat, j: nat): State
    requires i < |s.th| && |s.aux.notes| == |s.d.slots|
  {
    s.(d := WalkSection(s.d, j),
       th := Moved(s.th, i, s.th[i].(pc := AfterWalk(s.d, j)), []),
       aux := s.aux.(notes := if DirtyAt(s.d, j) then s.aux.notes[j := s.aux.notes[j].(owner := i)] else s.aux.notes))
  }

  /** flushCacheBlock returns to the walk, or to the end of processBio. */
  function AfterSubmit(pc: Pc): Pc { if pc.SubmitWalk? then Walk(pc.slot + 1) else Dec(Result([])) }

  /** The write-back is handed to the storage, or refused; either way it ends in a callback. */
  function StepSubmit(s: State, i: nat, j: nat, next: Pc): State
    requires i < |s.th| && j < |s.d.slots| && |s.aux.notes| == |s.d.slots|
  {
    s.(d := SubmitSection(s.d),
       th := Moved(s.th, i, s.th[i].(pc := next), [Forked(if s.d.stop then EndLock(j) else Writing(j))]),
       aux := s.aux.(notes := s.aux.notes[j := s.aux.notes[j].(owner := |s.th|)],
                     lost := if s.d.stop then s.aux.lost + {s.d.slots[j].block} else s.aux.lost))
  }

  function StepDec(s: State, i: nat, k: After): State
    requires i < |s.th|
  {
    s.(d := DecSection(s.d),
       th := Moved(s.th, i, s.th[i].(pc := if s.d.busy == 1 then Ticket(k) else Then(k)), []),
       aux := s.aux.(ticket := if s.d.busy == 1 then i else s.aux.ticket))
  }

  function StepTicket(s: State, i: nat, k: After): State
    requires i < |s.th|
  {
    if s.d.flushFlag then
      s.(d := FlushSection(s.d),
         th := Moved(s.th, i, s.th[i].(pc := Hand(k, s.d.waiting, s.d.flushBios)), []))
    else
      s.(th := Moved(s.th, i, s.th[i].(pc := Hand(k, [], [])), []))
  }

  /** Thread i moves on to t after queueing the two lists, scheduling a work item if needed. */
  function Queued(s: State, i: nat, t: Thread, ready: seq<nat>, flushes: seq<nat>): State
    requires i < |s.th|
  {
    var needed := NeedsWorker(s.d, ready, flushes);
    s.(d := QueueSection(s.d, ready, flushes),
       th := Moved(s.th, i, t, if needed then [Forked(Take)] else []),
       aux := s.aux.(worker := if needed then |s.th| else s.aux.worker))
  }

  function StepThen(s: State, i: nat, k: After): State
    requires i < |s.th|
  {
    var t := s.th[i];
    match k
    case Release(rel) => Queued(s, i, t.(pc := Done), rel, [])
    case Result(out) =>
      s.(th := Moved(s.th, i, t.(pc := Pop, keep := if t.own then out else t.keep, own := false),
                     if t.own || out == [] then [] else [Forked(Storage(out[0]))]))
  }

  function StepPop(s: State, i: nat): State
    requires i < |s.th|
  {
    var t := s.th[i];
    if t.ready != [] then s.(th := Moved(s.th, i, t.(pc := Start(t.ready[0]), ready := t.ready[1..]), []))
    else if t.keep != [] then s.(th := Moved(s.th, i, t.(pc := Storage(t.keep[0]), keep := []), []))
    else s.(th := Moved(s.th, i, t.(pc := Done), []))
  }

  function StepTake(s: State, i: nat): State
    requires i < |s.th|
  {
    s.(d := TakeSection(s.d),
       th := Moved(s.th, i, s.th[i].(pc := Flushes(s.d.workFlush), ready := s.d.workBios), []))
  }

  function StepFlushes(s: State, i: nat, left: seq<nat>): State
    requires i < |s.th|
  {
    if left == [] then
      s.(th := Moved(s.th, i, s.th[i].(pc := Pop), []))
    else
      var refused := FlushRefused(s.d);
      s.(th := Moved(s.th, i, s.th[i].(pc := Flushes(left[1..])), if refused then [] else [Forked(Storage(left[0]))]),
         done := s.done + if refused then [Ending(left[0], false, false, [])] else [])
  }

  function StepStorage(s: State, i: nat, b: nat): State
    requires i < |s.th| && b < |s.bios|
  {
    var bio := s.bios[b];
    var block := BlockOf(s.d.wide, bio);
    var data := if bio.op.Read? then Get(s.d.wide, s.disk, bio) else [];
    s.(th := Moved(s.th, i, s.th[i].(pc := Done), []),
       disk := if Mutates(bio) then Put(s.d.wide, s.disk, bio) else s.disk,
       done := s.done + [Ending(b, true, true, data)],
       aux := s.aux.(dropped := if block in s.aux.dropped && s.aux.dropped[block] == b
                                then s.aux.dropped - {block} else s.aux.dropped))
  }

  function StepWriting(s: State, i: nat, j: nat): State
    requires i < |s.th| && j < |s.d.slots| && s.d.slots[j].block < |s.disk|
  {
    s.(th := Moved(s.th, i, s.th[i].(pc := EndLock(j)), []),
       disk := s.disk[s.d.slots[j].block := s.d.slots[j].data])
  }

  function StepEndLock(s: State, i: nat, j: nat): State
    requires i < |s.th| && j < |s.d.slots|
  {
    s.(d := EmptySection(s.d, j),
       th := Moved(s.th, i, s.th[i].(pc := Dec(Release(s.d.slots[j].waiters))), []))
  }

  // ---- Runs ----

  /** The next section of a thread only touches what exists. `Inv` implies this of every thread,
      so no section ever runs outside its bounds. */
  predicate InBounds(s: State, pc: Pc)
  {
    && |s.aux.notes| == |s.d.slots|
    && match pc
       case Start(b) => b < |s.bios|
       case Enter(b) => b < |s.bios|
       case Look(b) => b < |s.bios| && s.d.slots != []
       case Copy(b, j) => && b < |s.bios| && j < |s.d.slots|
                          && OffsetOf(s.d.wide, s.bios[b]) + s.bios[b].size <= |s.d.slots[j].data|
                          && (Mutates(s.bios[b]) ==> |s.bios[b].data| == s.bios[b].size)
       case Copied(j) => j < |s.d.slots|
       case SubmitWalk(j) => j < |s.d.slots|
       case SubmitOnce(j) => j < |s.d.slots|
       case Storage(b) => b < |s.bios|
       case Writing(j) => j < |s.d.slots| && s.d.slots[j].block < |s.disk|
       case EndLock(j) => j < |s.d.slots|
       case _ => true
  }

  predicate CanRun(s: State, i: nat)
  {
    i < |s.th| && !s.th[i].pc.Done? && InBounds(s, s.th[i].pc)
  }

  /** Upper layers do not have two conflicting bios in flight. */
  predicate CanAccept(s: State, bio: Bio)
  {
    && Fits(s.d.wide, |s.disk|, bio)
    && forall a :: 0 <= a < |s.bios| && !Ended(s, a) ==> !Conflict(s.d.wide, s.bios[a], bio)
  }

  /** Sections of processBio, processBioLocked and processBioCached, before the decrement. */
  predicate InCall(pc: Pc) { pc.Start? || pc.Enter? || pc.Look? || pc.Copy? || pc.Copied? }

  function RunCall(s: State, i: nat): State
    requires CanRun(s, i) && InCall(s.th[i].pc)
  {
    match s.th[i].pc
    case Start(b) => StepStart(s, i, b)
    case Enter(b) => StepEnter(s, i, b)
    case Look(b) => StepLook(s, i, b)
    case Copy(b, j) => StepCopy(s, i, b, j)
    case Copied(j) => StepCopied(s, i, j)
  }

  /** Sections of flushTheCache and flushCacheBlock. */
  predicate InFlush(pc: Pc) { pc.Walk? || pc.SubmitWalk? || pc.SubmitOnce? }

  function RunFlush(s: State, i: nat): State
    requires CanRun(s, i) && InFlush(s.th[i].pc)
  {
    match s.th[i].pc
    case Walk(j) => StepWalk(s, i, j)
    case SubmitWalk(j) => StepSubmit(s, i, j, AfterSubmit(s.th[i].pc))
    case SubmitOnce(j) => StepSubmit(s, i, j, AfterSubmit(s.th[i].pc))
  }

  /** The decrement and what follows it, the lists, the storage and its callbacks. */
  function RunRest(s: State, i: nat): State
    requires CanRun(s, i) && !InCall(s.th[i].pc) && !InFlush(s.th[i].pc)
  {
    match s.th[i].pc
    case Dec(k) => StepDec(s, i, k)
    case Ticket(k) => StepTicket(s, i, k)
    case Hand(k, ready, flushes) => Queued(s, i, s.th[i].(pc := Then(k)), ready, flushes)
    case Then(k) => StepThen(s, i, k)
    case Pop => StepPop(s, i)
    case Take => StepTake(s, i)
    case Flushes(left) => StepFlushes(s, i, left)
    case Storage(b) => StepStorage(s, i, b)
    case Writing(j) => StepWriting(s, i, j)
    case EndLock(j) => StepEndLock(s, i, j)
  }

  function RunThread(s: State, i: nat): State
    requires CanRun(s, i)
  {
    if InCall(s.th[i].pc) then RunCall(s, i)
    else if InFlush(s.th[i].pc) then RunFlush(s, i)
    else RunRest(s, i)
  }

  predicate Enabled(s: State, step: Step)
  {
    match step
    case Accept(bio) => CanAccept(s, bio)
    case SetStop => true
    case SetTorn(_, _) => true
    case Run(i) => CanRun(s, i)
  }

  function Next(s: State, step: Step): State
    requires Enabled(s, step)
  {
    match step
    case Accept(bio) => s.(bios := s.bios + [bio],
                           th := s.th + [Thread(Start(|s.bios|), [], [], true)])
    case SetStop => s.(d := s.d.(stop := true))
    case SetTorn(mask, modulus) => s.(d := s.d.(tornMask := mask, tornModulus := modulus))
    case Run(i) => RunThread(s, i)
  }

  /** A device just constructed: any block size, any number of slots, any storage contents. */
  predicate Initial(s: State)
  {
    && s.d.busy == 0 && !s.d.flushFlag && !s.d.stop
    && s.d.flushBios == [] && s.d.waiting == [] && s.d.workBios == [] && s.d.workFlush == []
    && s.d.writeFailure == 0 && s.d.flushFailure == 0
    && (forall j :: 0 <= j < |s.d.slots| ==>
          s.d.slots[j].state.EMPTY? && s.d.slots[j].waiters == [] && |s.d.slots[j].data| == BlockSize(s.d.wide))
    && s.th == [] && s.bios == [] && s.done == []
    && Sized(s.d.wide, s.disk)
    && s.aux.init == s.disk
    && |s.aux.notes| == |s.d.slots|
    && (forall j :: 0 <= j < |s.aux.notes| ==> !s.aux.notes[j].filling)
    && s.aux.lost == {} && s.aux.dropped == map[]
  }

  /** States of a run: each one follows from the one before by an enabled step. */
  ghost predicate IsRun(run: seq<State>)
  {
    && run != [] && Initial(run[0])
    && forall p :: 0 < p < |run| ==> Follows(run[p - 1], run[p])
  }

  ghost predicate Follows(s: State, s': State)
  {
    exists step :: Enabled(s, step) && s' == Next(s, step)
  }
}
