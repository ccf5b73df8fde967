/** The asynchronous audit writer as a concurrent system: producers calling log and
    logSyncBrokenGlass, one writer thread, and one control thread that starts and stops it.
    A step is one section under a lock or one update of an atomic; any interleaving of
    steps is a run. An event is named by its place in the order of calls. */
module AuditPipeline {
  const HARD_CAP := 20000
  const BATCH_MAX := 256

  type Id = nat

  /** Where events end up, and the counters kept beside them. */
  datatype Sinks = Sinks(db: seq<Id>, emergency: seq<Id>, dropped: seq<Id>,
                         writtenDb: nat, writtenEmergency: nat, dbFailures: nat, droppedCount: nat)

  /** How far drainBatch has come with a batch: it holds it, it has put it in the database
      but not counted it, or it is writing what is left of it to the emergency file. */
  datatype Drain = Idle | Holding(batch: seq<Id>) | Landed(count: nat) | Spilling(rest: seq<Id>, ok: nat)

  /** Where a producer is inside log or logSyncBrokenGlass. */
  datatype Stage =
    | LogCalled | LogCounted | OverCap
    | GlassCalled | GlassCounted | GlassFallback | GlassInDb | GlassInEmergency

  datatype Writer = Absent | Checking | Taking | Draining(drain: Drain) | Exited
  datatype Control = Stopped | Running | Joining | TailTaking | TailDraining(drain: Drain)

  /** The last five fields are history: which events the queue accepted and how many of them
      are settled, how many spills over the hard cap were written, how many events had been
      accepted when stop() last took the tail, and which events an exception took with it. */
  datatype State = State(
    given: nat, enqueued: nat, producers: map<Id, Stage>, queue: seq<Id>,
    writer: Writer, control: Control, stopping: bool, sinks: Sinks,
    accepted: seq<Id>, settled: nat, spills: nat, tailMark: nat, lost: seq<Id>)

  const INITIAL := State(0, 0, map[], [], Absent, Stopped, false, Sinks([], [], [], 0, 0, 0, 0), [], 0, 0, 0, [])

  datatype Action =
    | CallLog
    | CallGlass
    | Count(id: Id)
    | Enqueue(id: Id)
    | SpillOver(id: Id, ok: bool)
    | GlassInsert(id: Id, up: bool, ok: bool)
    | GlassCountDb(id: Id)
    | GlassSpill(id: Id, ok: bool)
    | GlassCountEmergency(id: Id)
    | Start
    | WriterCheck
    | WriterTake
    | WriterDrain(up: bool, ok: bool)
    | Stop
    | Join
    | TailTake
    | TailDrain(up: bool, ok: bool)

  predicate At(s: State, id: Id, stage: Stage) {
    id in s.producers && s.producers[id] == stage
  }

  predicate SpillingNow(s: State) {
    || (s.writer.Draining? && s.writer.drain.Spilling?)
    || (s.control.TailDraining? && s.control.drain.Spilling?)
  }

  predicate Enabled(s: State, a: Action) {
    match a
    case CallLog => true
    case CallGlass => true
    case Count(id) => At(s, id, LogCalled) || At(s, id, GlassCalled)
    case Enqueue(id) => At(s, id, LogCounted)
    case SpillOver(id, _) => At(s, id, OverCap) && !SpillingNow(s)
    case GlassInsert(id, _, _) => At(s, id, GlassCounted)
    case GlassCountDb(id) => At(s, id, GlassInDb)
    case GlassSpill(id, _) => At(s, id, GlassFallback) && !SpillingNow(s)
    case GlassCountEmergency(id) => At(s, id, GlassInEmergency)
    case Start => s.control == Stopped
    case WriterCheck => s.writer == Checking
    case WriterTake => s.writer == Taking
    case WriterDrain(_, _) => s.writer.Draining?
    case Stop => s.control == Running
    case Join => s.control == Joining && s.writer == Exited
    case TailTake => s.control == TailTaking
    case TailDrain(_, _) => s.control.TailDraining?
  }

  /** The cap is checked before the event is pushed. */
  predicate OverHardCap(queue: seq<Id>) {
    |queue| > HARD_CAP
  }

  predicate ShouldRejectMutation(s: State) {
    OverHardCap(s.queue)
  }

  function TakeCount(queue: seq<Id>): (n: nat)
    ensures n <= |queue|
  {
    if |queue| < BATCH_MAX then |queue| else BATCH_MAX
  }

  /** One step of drainBatch. `up` is whether the database is open; `ok` is whether this
      insert or this emergency write succeeds. */
  function DrainStep(d: Drain, x: Sinks, up: bool, ok: bool): (Drain, Sinks) {
    match d
    case Idle => (Idle, x)
    case Holding(batch) =>
      if up && ok then (Landed(|batch|), x.(db := x.db + batch))
      else (Spilling(batch, 0), if up then x.(dbFailures := x.dbFailures + 1) else x)
    case Landed(count) => (Idle, x.(writtenDb := x.writtenDb + count))
    case Spilling(rest, n) =>
      if rest == [] then (Idle, x.(writtenEmergency := x.writtenEmergency + n))
      else if ok then (Spilling(rest[1..], n + 1), WithEmergency(x, rest[0]))
      else (Spilling(rest[1..], n), WithDropped(x, rest[0]))
  }

  function Pending(d: Drain): seq<Id> {
    match d
    case Idle => []
    case Holding(batch) => batch
    case Landed(_) => []
    case Spilling(rest, _) => rest
  }

  function WriterDrainOf(w: Writer): Drain {
    if w.Draining? then w.drain else Idle
  }

  function ControlDrainOf(c: Control): Drain {
    if c.TailDraining? then c.drain else Idle
  }

  function Called(s: State, stage: Stage): State {
    s.(given := s.given + 1, producers := s.producers[s.given := stage])
  }

  function Counted(s: State, id: Id): State {
    s.(enqueued := s.enqueued + 1,
       producers := s.producers[id := if At(s, id, LogCalled) then LogCounted else GlassCounted])
  }

  function Offered(s: State, id: Id): State {
    if OverHardCap(s.queue) then s.(producers := s.producers[id := OverCap])
    else s.(producers := s.producers - {id}, queue := s.queue + [id], accepted := s.accepted + [id])
  }

  function WithEmergency(x: Sinks, id: Id): Sinks {
    x.(emergency := x.emergency + [id])
  }

  function WithDropped(x: Sinks, id: Id): Sinks {
    x.(dropped := x.dropped + [id], droppedCount := x.droppedCount + 1)
  }

  /** A successful spill over the hard cap is counted nowhere. */
  function SpiltOver(s: State, id: Id, ok: bool): State {
    if ok then s.(producers := s.producers - {id}, sinks := WithEmergency(s.sinks, id), spills := s.spills + 1)
    else s.(producers := s.producers - {id}, sinks := WithDropped(s.sinks, id))
  }

  function GlassTried(s: State, id: Id, up: bool, ok: bool): State {
    var x := s.sinks;
    if up && ok then s.(producers := s.producers[id := GlassInDb], sinks := x.(db := x.db + [id]))
    else s.(producers := s.producers[id := GlassFallback],
            sinks := if up then x.(dbFailures := x.dbFailures + 1) else x)
  }

  function GlassSpilt(s: State, id: Id, ok: bool): State {
    if ok then s.(producers := s.producers[id := GlassInEmergency], sinks := WithEmergency(s.sinks, id))
    else s.(producers := s.producers - {id}, sinks := WithDropped(s.sinks, id))
  }

  function WriterTook(s: State): State {
    var n := TakeCount(s.queue);
    s.(queue := s.queue[n..], writer := if n == 0 then Checking else Draining(Holding(s.queue[..n])))
  }

  function TailTook(s: State): State {
    s.(queue := [], control := if s.queue == [] then Stopped else TailDraining(Holding(s.queue)),
       tailMark := |s.accepted|)
  }

  function WriterDrained(s: State, up: bool, ok: bool): State
    requires s.writer.Draining?
  {
    var (d, x) := DrainStep(s.writer.drain, s.sinks, up, ok);
    s.(writer := if d == Idle then Checking else Draining(d), sinks := x,
       settled := s.settled + |Pending(s.writer.drain)| - |Pending(d)|)
  }

  function TailDrained(s: State, up: bool, ok: bool): State
    requires s.control.TailDraining?
  {
    var (d, x) := DrainStep(s.control.drain, s.sinks, up, ok);
    s.(control := if d == Idle then Stopped else TailDraining(d), sinks := x,
       settled := s.settled + |Pending(s.control.drain)| - |Pending(d)|)
  }

  function Apply(s: State, a: Action): State
    requires Enabled(s, a)
  {
    match a
    case CallLog => Called(s, LogCalled)
    case CallGlass => Called(s, GlassCalled)
    case Count(id) => Counted(s, id)
    case Enqueue(id) => Offered(s, id)
    case SpillOver(id, ok) => SpiltOver(s, id, ok)
    case GlassInsert(id, up, ok) => GlassTried(s, id, up, ok)
    case GlassCountDb(id) =>
      s.(producers := s.producers - {id}, sinks := s.sinks.(writtenDb := s.sinks.writtenDb + 1))
    case GlassSpill(id, ok) => GlassSpilt(s, id, ok)
    case GlassCountEmergency(id) =>
      s.(producers := s.producers - {id}, sinks := s.sinks.(writtenEmergency := s.sinks.writtenEmergency + 1))
    case Start => s.(control := Running, stopping := false, writer := Checking)
    case WriterCheck => s.(writer := if s.stopping then Exited else Taking)
    case WriterTake => WriterTook(s)
    case WriterDrain(up, ok) => WriterDrained(s, up, ok)
    case Stop => s.(control := Joining, stopping := true)
    case Join => s.(control := TailTaking, writer := Absent)
    case TailTake => TailTook(s)
    case TailDrain(up, ok) => TailDrained(s, up, ok)
  }

  /** A step that is not enabled does not happen. */
  function Step(s: State, a: Action): State {
    if Enabled(s, a) then Apply(s, a) else s
  }

  /** Who writes where: to the database only an insert that is up and works; to the emergency
      file only a write that works, after the database refused or the queue was over its cap;
      dropped is only what that file refused as well. And an insert that works is not spilt. */
  lemma EndsMean(s: State, a: Action)
    requires Enabled(s, a)
    ensures var x, x' := s.sinks, Apply(s, a).sinks;
            && (x'.db != x.db ==> (a.GlassInsert? || a.WriterDrain? || a.TailDrain?) && a.up && a.ok)
            && (x'.emergency != x.emergency ==>
                  (a.GlassSpill? || a.SpillOver? || a.WriterDrain? || a.TailDrain?) && a.ok)
            && (x'.dropped != x.dropped ==>
                  (a.GlassSpill? || a.SpillOver? || a.WriterDrain? || a.TailDrain?) && !a.ok)
            && (a.GlassInsert? && a.up && a.ok ==> x'.db == x.db + [a.id] && At(Apply(s, a), a.id, GlassInDb))
            && (a.GlassInsert? && !(a.up && a.ok) ==> At(Apply(s, a), a.id, GlassFallback))
            && ((a.GlassSpill? || a.SpillOver?) && a.ok ==> x'.emergency == x.emergency + [a.id])
            && ((a.GlassSpill? || a.SpillOver?) && !a.ok ==>
                  x'.dropped == x.dropped + [a.id] && x'.droppedCount == x.droppedCount + 1)
            && (a.GlassInsert? ==> x'.dbFailures == x.dbFailures + (if a.up && !a.ok then 1 else 0))
            && (x'.dbFailures != x.dbFailures ==>
                  (a.GlassInsert? || a.WriterDrain? || a.TailDrain?) && a.up && !a.ok)
  {
    hide Called, Counted, Offered, WriterTook, TailTook;
    if a.WriterDrain? {
      DrainEnds(s.writer.drain, s.sinks, a.up, a.ok);
    } else if a.TailDrain? {
      DrainEnds(s.control.drain, s.sinks, a.up, a.ok);
    } else {
      CallsWriteNothing(s, a);
    }
  }

  lemma CallsWriteNothing(s: State, a: Action)
    requires Enabled(s, a)
    ensures a.CallLog? || a.CallGlass? || a.Count? || a.Enqueue? || a.WriterTake? || a.TailTake? ==>
              Apply(s, a).sinks == s.sinks
  {
  }

  lemma DrainEnds(d: Drain, x: Sinks, up: bool, ok: bool)
    ensures var (d', x') := DrainStep(d, x, up, ok);
            && (x'.db != x.db ==> up && ok)
            && (x'.emergency != x.emergency ==> ok)
            && (x'.dropped != x.dropped ==> !ok)
            && (x'.dbFailures != x.dbFailures ==> up && !ok)
            && (d.Holding? && up && ok ==> x'.db == x.db + d.batch && Pending(d') == [])
            && (d.Holding? && !(up && ok) ==>
                  Pending(d') == d.batch && x'.dbFailures == x.dbFailures + if up then 1 else 0)
            && (d.Spilling? && d.rest != [] ==>
                  if ok then x'.emergency == x.emergency + d.rest[..1] else x'.dropped == x.dropped + d.rest[..1])
  {
    if d.Holding? {
      assert x.db + [] == x.db;
    }
  }

  // ---- exceptions --------------------------------------------------------------------------

  /** Of which events the texts can be dumped, and whose producer catches an exception. */
  datatype Events = Events(dumps: Id -> bool, caught: Id -> bool)

  predicate AllDump(ev: Events, batch: seq<Id>) {
    forall i | 0 <= i < |batch| :: ev.dumps(batch[i])
  }

  /** An insert dumps the events before it does anything that could still fail, and a write to
      the emergency file dumps the event once the file is open. So `ok` means here that the
      insert gets as far as an event that cannot be dumped, or that the file is open. */
  predicate DrainThrows(ev: Events, d: Drain, up: bool, ok: bool) {
    match d
    case Idle => false
    case Holding(batch) => up && ok && !AllDump(ev, batch)
    case Landed(_) => false
    case Spilling(rest, _) => rest != [] && ok && !ev.dumps(rest[0])
  }

  predicate Throws(ev: Events, s: State, a: Action) {
    Enabled(s, a) &&
    match a
    case WriterDrain(up, ok) => DrainThrows(ev, s.writer.drain, up, ok)
    case TailDrain(up, ok) => DrainThrows(ev, s.control.drain, up, ok)
    case SpillOver(id, ok) => ok && !ev.dumps(id)
    case GlassInsert(id, up, ok) => up && ok && !ev.dumps(id)
    case GlassSpill(id, ok) => ok && !ev.dumps(id)
    case _ => false
  }

  predicate AllDumpFrom(ev: Events, end: seq<Id>, n: nat) {
    forall i | n <= i < |end| :: ev.dumps(end[i])
  }

  /** Which steps throw: those that would otherwise bring an event that cannot be dumped into the
      database or the emergency file. */
  lemma ThrowsMeans(ev: Events, s: State, a: Action)
    ensures var x, x' := s.sinks, Step(s, a).sinks;
            && x.db <= x'.db && x.emergency <= x'.emergency
            && (Throws(ev, s, a) <==>
                  !(AllDumpFrom(ev, x'.db, |x.db|) && AllDumpFrom(ev, x'.emergency, |x.emergency|)))
  {
    hide Called, Counted, Offered, WriterTook, TailTook;
    if Enabled(s, a) {
      if a.WriterDrain? {
        DrainThrowsMeans(ev, s.writer.drain, s.sinks, a.up, a.ok);
      } else if a.TailDrain? {
        DrainThrowsMeans(ev, s.control.drain, s.sinks, a.up, a.ok);
      } else {
        CallsWriteNothing(s, a);
        if a.SpillOver? || a.GlassInsert? || a.GlassSpill? {
          OneMore(ev, s.sinks.db, a.id);
          OneMore(ev, s.sinks.emergency, a.id);
        }
      }
    }
  }

  lemma OneMore(ev: Events, end: seq<Id>, id: Id)
    ensures end <= end + [id] && (AllDumpFrom(ev, end + [id], |end|) <==> ev.dumps(id))
  {
    assert (end + [id])[|end|] == id;
  }

  lemma DrainThrowsMeans(ev: Events, d: Drain, x: Sinks, up: bool, ok: bool)
    ensures var x' := DrainStep(d, x, up, ok).1;
            && x.db <= x'.db && x.emergency <= x'.emergency
            && (DrainThrows(ev, d, up, ok) <==>
                  !(AllDumpFrom(ev, x'.db, |x.db|) && AllDumpFrom(ev, x'.emergency, |x.emergency|)))
  {
    if d.Holding? {
      var db := x.db + d.batch;
      assert forall i | 0 <= i < |d.batch| :: d.batch[i] == db[|x.db| + i];
      assert forall i | |x.db| <= i < |db| :: db[i] == d.batch[i - |x.db|];
    } else if d.Spilling? && d.rest != [] {
      OneMore(ev, x.emergency, d.rest[0]);
    }
  }

  /** The writing call is left by the exception; its event is nowhere. */
  function Vanished(s: State, id: Id): State {
    s.(producers := s.producers - {id}, lost := s.lost + [id])
  }

  /** The process: once an exception leaves a thread it is over, and what was not in the database
      or the emergency file is gone. */
  datatype Process = Process(s: State, dead: bool)

  function StepIn(ev: Events, p: Process, a: Action): Process {
    if p.dead then p
    else if !Throws(ev, p.s, a) then p.(s := Step(p.s, a))
    else if (a.SpillOver? || a.GlassInsert? || a.GlassSpill?) && ev.caught(a.id) then p.(s := Vanished(p.s, a.id))
    else p.(dead := true)
  }

  function RunIn(ev: Events, actions: seq<Action>): Process {
    if actions == [] then Process(INITIAL, false)
    else StepIn(ev, RunIn(ev, actions[..|actions| - 1]), actions[|actions| - 1])
  }

  // ---- where every event is ------------------------------------------------------------

  /** Stages in which the event exists nowhere but in its producer's hands. */
  const IN_HAND := {LogCalled, LogCounted, OverCap, GlassCalled, GlassCounted, GlassFallback}
  const UNCOUNTED := {LogCalled, GlassCalled}

  function Copies(q: seq<Id>, id: Id): nat {
    multiset(q)[id]
  }

  function InHand(producers: map<Id, Stage>, id: Id): nat {
    if id in producers && producers[id] in IN_HAND then 1 else 0
  }

  function InSinks(x: Sinks, id: Id): nat {
    Copies(x.db, id) + Copies(x.emergency, id) + Copies(x.dropped, id)
  }

  /** What the two threads hold; they never drain at the same time. */
  function PendingNow(s: State): seq<Id> {
    Pending(WriterDrainOf(s.writer)) + Pending(ControlDrainOf(s.control))
  }

  /** In how many places the event is: its producer, the queue, a batch, and the three ends. */
  function Places(s: State, id: Id): nat {
    InHand(s.producers, id) + Copies(s.queue, id) + Copies(PendingNow(s), id) + InSinks(s.sinks, id)
  }

  /** In exactly one place, unless an exception took it. */
  ghost predicate PlacedOnce(s: State, id: Id) {
    Places(s, id) + Copies(s.lost, id) == if id < s.given then 1 else 0
  }

  ghost predicate OnePlace(s: State) {
    && (forall id: Id :: PlacedOnce(s, id))
    && (forall id | id in s.producers :: id < s.given)
  }

  // ---- the two threads -----------------------------------------------------------------

  ghost predicate Bounded(s: State) {
    && |s.queue| <= HARD_CAP + 1
    && (s.writer.Draining? ==> s.writer.drain != Idle && |Pending(s.writer.drain)| <= BATCH_MAX)
    && (s.control.TailDraining? ==> s.control.drain != Idle)
  }

  /** The two threads take turns: the writer is gone before the control thread drains. */
  ghost predicate Turns(s: State) {
    && ((s.control == Running || s.control == Joining) <==> s.writer != Absent)
    && (s.stopping ==> s.control != Running)
    && (s.writer == Exited ==> s.control == Joining)
    && (s.control == Joining ==> s.stopping)
  }

  lemma StepTurns(s: State, a: Action)
    requires Turns(s) && Bounded(s)
    ensures Turns(Step(s, a)) && Bounded(Step(s, a))
  {
  }

  /** Whoever is not running has nothing that was queued before the last tail was taken. */
  ghost predicate TailTaken(s: State) {
    && s.tailMark <= |s.accepted|
    && (s.control.Stopped? || s.control.TailDraining? ==> s.accepted[s.tailMark..] == s.queue)
  }

  lemma StepTailTaken(s: State, a: Action)
    requires TailTaken(s) && Turns(s)
    ensures TailTaken(Step(s, a))
  {
  }

  // ---- one step of a drain -------------------------------------------------------------

  lemma CopiesAdd(a: seq<Id>, b: seq<Id>, id: Id)
    ensures Copies(a + b, id) == Copies(a, id) + Copies(b, id) && Copies([], id) == 0
  {
  }

  lemma DrainKeeps(d: Drain, x: Sinks, up: bool, ok: bool, id: Id)
    ensures var (d', x') := DrainStep(d, x, up, ok);
            Copies(Pending(d'), id) + InSinks(x', id) == Copies(Pending(d), id) + InSinks(x, id)
  {
    if d.Spilling? && d.rest != [] {
      CopiesAdd([d.rest[0]], d.rest[1..], id);
      assert d.rest == [d.rest[0]] + d.rest[1..];
    }
  }

  lemma DrainTakesFromTheFront(d: Drain, x: Sinks, up: bool, ok: bool)
    ensures var (d', _) := DrainStep(d, x, up, ok);
            && |Pending(d')| <= |Pending(d)|
            && Pending(d') == Pending(d)[|Pending(d)| - |Pending(d')|..]
  {
  }

  // ---- exactly one place, step by step --------------------------------------------------

  predicate ThreadStep(a: Action) {
    a.WriterCheck? || a.WriterTake? || a.WriterDrain? || a.Start? || a.Stop? || a.Join? || a.TailTake? || a.TailDrain?
  }

  lemma PlacesOfCalls(s: State, stage: Stage, k: Id, id: Id)
    requires forall p | p in s.producers :: p < s.given
    requires stage in UNCOUNTED
    ensures Places(Called(s, stage), id) == Places(s, id) + if id == s.given then 1 else 0
    ensures At(s, k, LogCalled) || At(s, k, GlassCalled) ==> Places(Counted(s, k), id) == Places(s, id)
  {
    hide InSinks, Copies;
    assert s.given !in s.producers;
  }

  lemma PlacesOfLog(s: State, k: Id, ok: bool, id: Id)
    ensures At(s, k, LogCounted) ==> Places(Offered(s, k), id) == Places(s, id)
    ensures At(s, k, OverCap) ==> Places(SpiltOver(s, k, ok), id) == Places(s, id)
  {
    hide Copies, InSinks, WithEmergency, WithDropped;
    CopiesAdd(s.queue, [k], id);
    SinksGain(s.sinks, k, id);
    assert PendingNow(Offered(s, k)) == PendingNow(s) == PendingNow(SpiltOver(s, k, ok));
  }

  lemma PlacesOfGlass(s: State, k: Id, up: bool, ok: bool, id: Id)
    ensures At(s, k, GlassCounted) ==> Places(GlassTried(s, k, up, ok), id) == Places(s, id)
    ensures At(s, k, GlassFallback) ==> Places(GlassSpilt(s, k, ok), id) == Places(s, id)
  {
    hide Copies, WithEmergency, WithDropped;
    SinksGain(s.sinks, k, id);
    assert PendingNow(GlassTried(s, k, up, ok)) == PendingNow(s) == PendingNow(GlassSpilt(s, k, ok));
  }

  lemma PlacesOfCounts(s: State, k: Id, x: Sinks, id: Id)
    requires At(s, k, GlassInDb) || At(s, k, GlassInEmergency)
    requires x.db == s.sinks.db && x.emergency == s.sinks.emergency && x.dropped == s.sinks.dropped
    ensures Places(s.(producers := s.producers - {k}, sinks := x), id) == Places(s, id)
  {
    hide Copies;
    assert PendingNow(s.(producers := s.producers - {k}, sinks := x)) == PendingNow(s);
  }

  lemma SinksGain(x: Sinks, k: Id, id: Id)
    ensures InSinks(WithEmergency(x, k), id) == InSinks(x, id) + Copies([k], id)
    ensures InSinks(WithDropped(x, k), id) == InSinks(x, id) + Copies([k], id)
    ensures Copies(x.db + [k], id) == Copies(x.db, id) + Copies([k], id)
    ensures Copies([k], id) == if k == id then 1 else 0
  {
  }

  lemma PlacesOfProducerStep(s: State, a: Action, id: Id)
    requires Enabled(s, a) && !ThreadStep(a) && (forall k | k in s.producers :: k < s.given)
    ensures Places(Apply(s, a), id) == Places(s, id) + if (a.CallLog? || a.CallGlass?) && id == s.given then 1 else 0
  {
    hide Places, PendingNow;
    if a.CallLog? {
      PlacesOfCalls(s, LogCalled, 0, id);
    } else if a.CallGlass? {
      PlacesOfCalls(s, GlassCalled, 0, id);
    } else if a.Count? {
      PlacesOfCalls(s, LogCalled, a.id, id);
    } else if a.Enqueue? {
      PlacesOfLog(s, a.id, true, id);
    } else if a.SpillOver? {
      PlacesOfLog(s, a.id, a.ok, id);
    } else if a.GlassInsert? {
      PlacesOfGlass(s, a.id, a.up, a.ok, id);
    } else if a.GlassSpill? {
      PlacesOfGlass(s, a.id, true, a.ok, id);
    } else {
      PlacesOfCounts(s, a.id, Apply(s, a).sinks, id);
    }
  }

  lemma WriterDrainPending(s: State, up: bool, ok: bool)
    requires Turns(s) && s.writer.Draining?
    ensures var s' := WriterDrained(s, up, ok);
            && PendingNow(s') == Pending(DrainStep(s.writer.drain, s.sinks, up, ok).0)
            && s'.sinks == DrainStep(s.writer.drain, s.sinks, up, ok).1
            && PendingNow(s) == Pending(s.writer.drain)
            && s.settled <= s'.settled <= s.settled + |PendingNow(s)|
            && PendingNow(s') == PendingNow(s)[s'.settled - s.settled..]
  {
    hide DrainStep;
    DrainTakesFromTheFront(s.writer.drain, s.sinks, up, ok);
    var (d, x) := DrainStep(s.writer.drain, s.sinks, up, ok);
    assert PendingNow(s) == Pending(s.writer.drain);
    assert PendingNow(WriterDrained(s, up, ok)) == Pending(d);
  }

  lemma TailDrainPending(s: State, up: bool, ok: bool)
    requires Turns(s) && s.control.TailDraining?
    ensures var s' := TailDrained(s, up, ok);
            && PendingNow(s') == Pending(DrainStep(s.control.drain, s.sinks, up, ok).0)
            && s'.sinks == DrainStep(s.control.drain, s.sinks, up, ok).1
            && PendingNow(s) == Pending(s.control.drain)
            && s.settled <= s'.settled <= s.settled + |PendingNow(s)|
            && PendingNow(s') == PendingNow(s)[s'.settled - s.settled..]
  {
    hide DrainStep;
    DrainTakesFromTheFront(s.control.drain, s.sinks, up, ok);
    var (d, x) := DrainStep(s.control.drain, s.sinks, up, ok);
    assert PendingNow(s) == Pending(s.control.drain);
    assert PendingNow(TailDrained(s, up, ok)) == Pending(d);
  }

  /** A drain moves events from a batch to the ends and loses none, whichever thread runs it. */
  lemma PlacesOfDrains(s: State, up: bool, ok: bool, id: Id)
    requires Turns(s)
    ensures s.writer.Draining? ==> Places(WriterDrained(s, up, ok), id) == Places(s, id)
    ensures s.control.TailDraining? ==> Places(TailDrained(s, up, ok), id) == Places(s, id)
  {
    hide InSinks, InHand, DrainStep, Pending, PendingNow;
    if s.writer.Draining? {
      DrainKeeps(s.writer.drain, s.sinks, up, ok, id);
      WriterDrainPending(s, up, ok);
    }
    if s.control.TailDraining? {
      DrainKeeps(s.control.drain, s.sinks, up, ok, id);
      TailDrainPending(s, up, ok);
    }
  }

  lemma PlacesOfTakes(s: State, id: Id)
    requires Turns(s)
    ensures s.writer == Taking ==> Places(WriterTook(s), id) == Places(s, id)
    ensures s.control == TailTaking ==> Places(TailTook(s), id) == Places(s, id)
  {
    hide InSinks, InHand, Copies, PendingNow;
    TakeSplits(s);
    var n := TakeCount(s.queue);
    CopiesAdd(s.queue[..n], s.queue[n..], id);
    CopiesAdd([], [], id);
  }

  lemma TakeSplits(s: State)
    requires Turns(s)
    ensures s.queue == s.queue[..TakeCount(s.queue)] + s.queue[TakeCount(s.queue)..]
    ensures s.writer == Taking ==>
      PendingNow(s) == [] && PendingNow(WriterTook(s)) == s.queue[..TakeCount(s.queue)]
    ensures s.control == TailTaking ==> PendingNow(s) == [] && PendingNow(TailTook(s)) == s.queue
  {
    hide TakeCount;
  }

  lemma PlacesOfThreadStep(s: State, a: Action, id: Id)
    requires Enabled(s, a) && ThreadStep(a) && Turns(s)
    ensures Places(Apply(s, a), id) == Places(s, id)
  {
    hide InSinks, InHand, DrainStep, TakeCount;
    if a.WriterTake? || a.TailTake? {
      PlacesOfTakes(s, id);
    } else if a.WriterDrain? || a.TailDrain? {
      PlacesOfDrains(s, a.up, a.ok, id);
    } else {
      assert PendingNow(Apply(s, a)) == PendingNow(s);
    }
  }

  lemma ProducersBelow(s: State, a: Action)
    requires Enabled(s, a) && (forall k | k in s.producers :: k < s.given)
    ensures forall k | k in Apply(s, a).producers :: k < Apply(s, a).given
    ensures Apply(s, a).given == s.given + if a.CallLog? || a.CallGlass? then 1 else 0
  {
    hide DrainStep, TakeCount;
  }

  lemma LostStays(s: State, a: Action)
    requires Enabled(s, a)
    ensures Apply(s, a).lost == s.lost
  {
    hide DrainStep, TakeCount;
  }

  lemma StepOnePlace(s: State, a: Action)
    requires OnePlace(s) && Turns(s)
    ensures OnePlace(Step(s, a))
  {
    hide Apply, Places, Turns, Enabled;
    if Enabled(s, a) {
      LostStays(s, a);
      ProducersBelow(s, a);
      forall id: Id ensures PlacedOnce(Apply(s, a), id) {
        assert PlacedOnce(s, id);
        if ThreadStep(a) {
          PlacesOfThreadStep(s, a, id);
        } else {
          PlacesOfProducerStep(s, a, id);
        }
      }
    }
  }

  /** An event an exception takes leaves its producer's hand. */
  lemma VanishedOnePlace(s: State, id: Id)
    requires OnePlace(s) && InHand(s.producers, id) == 1
    ensures OnePlace(Vanished(s, id))
  {
    hide InSinks;
    forall k: Id ensures PlacedOnce(Vanished(s, id), k) {
      assert PlacedOnce(s, k);
      CopiesAdd(s.lost, [id], k);
      assert Copies([id], k) == if k == id then 1 else 0;
      assert PendingNow(Vanished(s, id)) == PendingNow(s);
    }
  }

  // ---- first in, first out ---------------------------------------------------------------

  /** What the queue accepted is, in order, what is settled, what the draining thread holds,
      and what still waits. */
  ghost predicate InOrder(s: State) {
    && s.settled <= |s.accepted|
    && s.accepted[s.settled..] == PendingNow(s) + s.queue
  }

  lemma SuffixTwice(a: seq<Id>, n: nat, p: seq<Id>, q: seq<Id>, m: nat)
    requires n <= |a| && a[n..] == p + q && m <= |p|
    ensures n + m <= |a| && a[n + m..] == p[m..] + q
    ensures a[..n + m] == a[..n] + p[..m]
  {
    assert a[n..][m..] == a[n + m..];
    assert (p + q)[m..] == p[m..] + q;
    assert a[..n + m] == a[..n] + a[n..][..m];
  }

  lemma TakeInOrder(s: State)
    requires InOrder(s) && Turns(s)
    ensures s.writer == Taking ==> InOrder(WriterTook(s))
    ensures s.control == TailTaking ==> InOrder(TailTook(s))
  {
    hide PendingNow, TakeCount, Turns;
    TakeSplits(s);
    assert [] + s.queue == s.queue == s.queue + [];
  }

  lemma DrainInOrder(s: State, up: bool, ok: bool)
    requires InOrder(s) && Turns(s)
    ensures s.writer.Draining? ==> InOrder(WriterDrained(s, up, ok))
    ensures s.control.TailDraining? ==> InOrder(TailDrained(s, up, ok))
  {
    hide DrainStep, Pending, InOrder;
    if s.writer.Draining? {
      WriterDrainPending(s, up, ok);
      DrainedSuffix(s, WriterDrained(s, up, ok));
    }
    if s.control.TailDraining? {
      TailDrainPending(s, up, ok);
      DrainedSuffix(s, TailDrained(s, up, ok));
    }
  }

  lemma DrainedSuffix(s: State, s': State)
    requires InOrder(s) && s'.accepted == s.accepted && s'.queue == s.queue
    requires s.settled <= s'.settled <= s.settled + |PendingNow(s)|
    requires PendingNow(s') == PendingNow(s)[s'.settled - s.settled..]
    ensures InOrder(s')
    ensures s'.accepted[..s'.settled] == s.accepted[..s.settled] + PendingNow(s)[..s'.settled - s.settled]
  {
    hide PendingNow;
    SuffixTwice(s.accepted, s.settled, PendingNow(s), s.queue, s'.settled - s.settled);
  }

  /** The steps that leave what the threads hold alone. */
  lemma OthersHoldStill(s: State, a: Action)
    requires Enabled(s, a) && Turns(s) && !ThreadStep(a)
    ensures PendingNow(Apply(s, a)) == PendingNow(s)
    ensures Apply(s, a).settled == s.settled
    ensures !a.Enqueue? ==> Apply(s, a).queue == s.queue && Apply(s, a).accepted == s.accepted
  {
    hide DrainStep, TakeCount, Pending;
  }

  lemma TurnsHoldStill(s: State, a: Action)
    requires Enabled(s, a) && Turns(s) && (a.Start? || a.WriterCheck? || a.Stop? || a.Join?)
    ensures PendingNow(Apply(s, a)) == PendingNow(s)
    ensures Apply(s, a).settled == s.settled && Apply(s, a).queue == s.queue && Apply(s, a).accepted == s.accepted
  {
    hide DrainStep, TakeCount;
  }

  lemma EnqueueInOrder(s: State, id: Id)
    requires InOrder(s) && Turns(s) && Enabled(s, Enqueue(id))
    ensures InOrder(Offered(s, id))
  {
    hide PendingNow, Turns;
    OthersHoldStill(s, Enqueue(id));
    assert (PendingNow(s) + s.queue) + [id] == PendingNow(s) + (s.queue + [id]);
    assert (s.accepted + [id])[s.settled..] == s.accepted[s.settled..] + [id];
  }

  lemma StepInOrder(s: State, a: Action)
    requires InOrder(s) && Turns(s)
    ensures InOrder(Step(s, a))
  {
    hide Turns, PendingNow, Offered, WriterTook, TailTook, WriterDrained, TailDrained;
    if Enabled(s, a) {
      if a.WriterTake? || a.TailTake? {
        TakeInOrder(s);
      } else if a.WriterDrain? || a.TailDrain? {
        DrainInOrder(s, a.up, a.ok);
      } else if a.Enqueue? {
        EnqueueInOrder(s, a.id);
      } else if a.Start? || a.WriterCheck? || a.Stop? || a.Join? {
        TurnsHoldStill(s, a);
      } else {
        OthersHoldStill(s, a);
      }
    }
  }
}
