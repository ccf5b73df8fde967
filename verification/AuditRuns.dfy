/** What holds of every run of the audit writer: each event is in one place, events leave the
    queue in the order they entered it and reach each destination in that order, the queue
    is bounded, and the counters fall short by the spills nobody counts. */
module AuditRuns {
  import opened AuditPipeline

  // ---- order at the destinations -------------------------------------------------------

  /** The elements of q that also occur in `other`, in the order of q. */
  function Keep(q: seq<Id>, other: seq<Id>): seq<Id> {
    if q == [] then []
    else Keep(q[..|q| - 1], other) + if q[|q| - 1] in other then [q[|q| - 1]] else []
  }

  predicate Apart(a: seq<Id>, b: seq<Id>) {
    forall id | id in a :: id !in b
  }

  lemma {:induction false} KeepAppend(a: seq<Id>, b: seq<Id>, other: seq<Id>)
    ensures Keep(a + b, other) == Keep(a, other) + Keep(b, other)
  {
    if b == [] {
      assert a + b == a;
    } else {
      var c := b[..|b| - 1];
      KeepAppend(a, c, other);
      assert (a + b)[..|a + b| - 1] == a + c;
    }
  }

  lemma {:induction false} KeepMore(q: seq<Id>, other: seq<Id>, more: seq<Id>)
    requires Apart(q, more)
    ensures Keep(q, other + more) == Keep(q, other)
  {
    if q != [] {
      KeepMore(q[..|q| - 1], other, more);
      assert q[|q| - 1] in q;
    }
  }

  lemma {:induction false} KeepNone(q: seq<Id>, other: seq<Id>)
    requires Apart(q, other)
    ensures Keep(q, other) == []
  {
    if q != [] {
      KeepNone(q[..|q| - 1], other);
      assert q[|q| - 1] in q;
    }
  }

  lemma {:induction false} KeepAll(q: seq<Id>, other: seq<Id>)
    requires forall id | id in q :: id in other
    ensures Keep(q, other) == q
  {
    if q != [] {
      KeepAll(q[..|q| - 1], other);
      assert q[|q| - 1] in q;
    }
  }

  /** The events of the queue that ended up in `sink` stand there in the order in which the
      queue accepted them. */
  predicate SameOrder(done: seq<Id>, sink: seq<Id>) {
    Keep(sink, done) == Keep(done, sink)
  }

  lemma OrderWhenMoved(done: seq<Id>, sink: seq<Id>, b: seq<Id>)
    requires SameOrder(done, sink) && Apart(b, sink) && Apart(b, done)
    ensures SameOrder(done + b, sink + b)
  {
    KeepAppend(sink, b, done + b);
    KeepAppend(done, b, sink + b);
    KeepMore(sink, done, b);
    KeepMore(done, sink, b);
    KeepAll(b, done + b);
    KeepAll(b, sink + b);
  }

  lemma OrderWhenPassedBy(done: seq<Id>, sink: seq<Id>, b: seq<Id>)
    requires SameOrder(done, sink) && Apart(b, sink)
    ensures SameOrder(done + b, sink)
  {
    KeepAppend(done, b, sink);
    KeepNone(b, sink);
    KeepMore(sink, done, b);
  }

  lemma OrderWhenOther(done: seq<Id>, sink: seq<Id>, b: seq<Id>)
    requires SameOrder(done, sink) && Apart(b, done)
    ensures SameOrder(done, sink + b)
  {
    KeepAppend(sink, b, done);
    KeepNone(b, done);
    KeepMore(done, sink, b);
  }

  function Done(s: State): seq<Id>
    requires s.settled <= |s.accepted|
  {
    s.accepted[..s.settled]
  }

  ghost predicate Ordered(done: seq<Id>, x: Sinks) {
    && (forall id | id in done :: InSinks(x, id) > 0)
    && SameOrder(done, x.db) && SameOrder(done, x.emergency) && SameOrder(done, x.dropped)
  }

  /** One of the three ends gains b, the others gain nothing. */
  predicate Gains(x: Sinks, x': Sinks, b: seq<Id>) {
    || (x'.db == x.db + b && x'.emergency == x.emergency && x'.dropped == x.dropped)
    || (x'.db == x.db && x'.emergency == x.emergency + b && x'.dropped == x.dropped)
    || (x'.db == x.db && x'.emergency == x.emergency && x'.dropped == x.dropped + b)
  }

  lemma InSinksGain(x: Sinks, x': Sinks, b: seq<Id>, id: Id)
    requires Gains(x, x', b)
    ensures InSinks(x', id) == InSinks(x, id) + Copies(b, id)
  {
    CopiesAdd(x.db, b, id);
    CopiesAdd(x.emergency, b, id);
    CopiesAdd(x.dropped, b, id);
    hide Copies;
  }

  lemma FreshApart(x: Sinks, b: seq<Id>)
    requires forall id | id in b :: InSinks(x, id) == 0
    ensures Apart(b, x.db) && Apart(b, x.emergency) && Apart(b, x.dropped)
  {
    forall id | id in b ensures id !in x.db && id !in x.emergency && id !in x.dropped {
      assert InSinks(x, id) == 0;
      assert id !in multiset(x.db) && id !in multiset(x.emergency) && id !in multiset(x.dropped);
    }
  }

  lemma OrderedWhenMoved(done: seq<Id>, x: Sinks, b: seq<Id>, x': Sinks)
    requires Ordered(done, x) && Gains(x, x', b)
    requires forall id | id in b :: InSinks(x, id) == 0
    ensures Ordered(done + b, x')
  {
    hide SameOrder, InSinks, Copies;
    FreshApart(x, b);
    assert Apart(b, done);
    forall id | id in done + b ensures InSinks(x', id) > 0 {
      InSinksGain(x, x', b, id);
      CopiesIn(b, id);
    }
    forall sink | sink in [x.db, x.emergency, x.dropped]
      ensures SameOrder(done + b, sink) && SameOrder(done + b, sink + b)
    {
      OrderWhenMoved(done, sink, b);
      OrderWhenPassedBy(done, sink, b);
    }
  }

  lemma CopiesIn(b: seq<Id>, id: Id)
    ensures id in b <==> Copies(b, id) > 0
  {
    assert id in b <==> id in multiset(b);
  }

  lemma OrderedWhenOther(done: seq<Id>, x: Sinks, b: seq<Id>, x': Sinks)
    requires Ordered(done, x) && Gains(x, x', b)
    requires forall id | id in b :: InSinks(x, id) == 0
    ensures Ordered(done, x')
  {
    hide SameOrder, InSinks, Copies;
    assert Apart(b, done);
    forall id | id in done ensures InSinks(x', id) > 0 {
      InSinksGain(x, x', b, id);
    }
    forall sink | sink in [x.db, x.emergency, x.dropped] ensures SameOrder(done, sink + b) {
      OrderWhenOther(done, sink, b);
    }
  }

  lemma DrainGains(d: Drain, x: Sinks, up: bool, ok: bool)
    ensures var (d', x') := DrainStep(d, x, up, ok);
            |Pending(d')| <= |Pending(d)| && Gains(x, x', Pending(d)[..|Pending(d)| - |Pending(d')|])
  {
    DrainTakesFromTheFront(d, x, up, ok);
    var (d', x') := DrainStep(d, x, up, ok);
    var k := |Pending(d)| - |Pending(d')|;
    if k == 0 {
      assert Pending(d)[..k] == [] && x.db + [] == x.db;
    } else if d.Spilling? {
      assert Pending(d)[..k] == [d.rest[0]];
    } else {
      assert Pending(d)[..k] == Pending(d);
    }
  }

  ghost predicate InOrderEverywhere(s: State) {
    InOrder(s) && Ordered(Done(s), s.sinks)
  }

  lemma PendingIsFresh(s: State, id: Id)
    requires OnePlace(s)
    ensures id in PendingNow(s) ==> InSinks(s.sinks, id) == 0
    ensures InHand(s.producers, id) == 1 ==> InSinks(s.sinks, id) == 0
  {
    hide PendingNow, InSinks, Copies, InHand;
    CopiesIn(PendingNow(s), id);
    assert PlacedOnce(s, id);
  }

  lemma DrainsOrdered(s: State, s': State, d: Drain, up: bool, ok: bool)
    requires InOrderEverywhere(s) && OnePlace(s)
    requires InOrder(s') && s'.settled >= s.settled && s'.settled - s.settled <= |PendingNow(s)|
    requires Done(s') == Done(s) + PendingNow(s)[..s'.settled - s.settled]
    requires PendingNow(s) == Pending(d) && s'.sinks == DrainStep(d, s.sinks, up, ok).1
    requires |Pending(DrainStep(d, s.sinks, up, ok).0)| == |Pending(d)| - (s'.settled - s.settled)
    ensures Ordered(Done(s'), s'.sinks)
  {
    hide PendingNow, DrainStep, Ordered, OnePlace, Gains, InSinks, Done;
    DrainGains(d, s.sinks, up, ok);
    var b := PendingNow(s)[..s'.settled - s.settled];
    forall id | id in b ensures InSinks(s.sinks, id) == 0 {
      PendingIsFresh(s, id);
    }
    OrderedWhenMoved(Done(s), s.sinks, b, s'.sinks);
  }

  lemma DrainStepsOrdered(s: State, up: bool, ok: bool)
    requires InOrderEverywhere(s) && OnePlace(s) && Turns(s)
    ensures s.writer.Draining? ==> InOrderEverywhere(WriterDrained(s, up, ok))
    ensures s.control.TailDraining? ==> InOrderEverywhere(TailDrained(s, up, ok))
  {
    hide DrainStep, Pending, PendingNow, Ordered, OnePlace, InOrder, Turns;
    DrainInOrder(s, up, ok);
    if s.writer.Draining? {
      var s' := WriterDrained(s, up, ok);
      WriterDrainPending(s, up, ok);
      DrainedSuffix(s, s');
      DrainsOrdered(s, s', s.writer.drain, up, ok);
    }
    if s.control.TailDraining? {
      var s' := TailDrained(s, up, ok);
      TailDrainPending(s, up, ok);
      DrainedSuffix(s, s');
      DrainsOrdered(s, s', s.control.drain, up, ok);
    }
  }

  lemma ProducerOrdered(s: State, x': Sinks, id: Id)
    requires InOrderEverywhere(s) && OnePlace(s) && InHand(s.producers, id) == 1 && Gains(s.sinks, x', [id])
    ensures Ordered(Done(s), x')
  {
    hide Ordered, OnePlace, Gains, Done, InHand;
    PendingIsFresh(s, id);
    OrderedWhenOther(Done(s), s.sinks, [id], x');
  }

  lemma SameOrdered(done: seq<Id>, x: Sinks, x': Sinks)
    requires Ordered(done, x) && x'.db == x.db && x'.emergency == x.emergency && x'.dropped == x.dropped
    ensures Ordered(done, x')
  {
    hide SameOrder, Copies;
    forall id | id in done ensures InSinks(x', id) > 0 {
      assert InSinks(x', id) == InSinks(x, id);
    }
  }

  /** What a step that is not a drain does to the ends. */
  lemma OtherStepGains(s: State, a: Action)
    requires Enabled(s, a) && !a.WriterDrain? && !a.TailDrain?
    ensures var x, x' := s.sinks, Apply(s, a).sinks;
            || (x'.db == x.db && x'.emergency == x.emergency && x'.dropped == x.dropped)
            || (exists id :: InHand(s.producers, id) == 1 && Gains(x, x', [id]))
    ensures Apply(s, a).settled == s.settled
    ensures s.accepted <= Apply(s, a).accepted
  {
    hide TakeCount;
    if a.SpillOver? || a.GlassInsert? || a.GlassSpill? {
      assert InHand(s.producers, a.id) == 1;
    }
  }

  lemma StepOrdered(s: State, a: Action)
    requires InOrderEverywhere(s) && OnePlace(s) && Turns(s)
    ensures InOrderEverywhere(Step(s, a))
  {
    hide Apply, OnePlace, Turns, InOrder, Ordered, Gains, InHand;
    StepInOrder(s, a);
    if !Enabled(s, a) {
    } else if a.WriterDrain? || a.TailDrain? {
      DrainStepsOrdered(s, a.up, a.ok);
      DrainSteps(s, a);
    } else {
      OtherStepGains(s, a);
      var x' := Apply(s, a).sinks;
      assert Done(Apply(s, a)) == Done(s) by { SettledKnown(s); }
      if x'.db == s.sinks.db && x'.emergency == s.sinks.emergency && x'.dropped == s.sinks.dropped {
        SameOrdered(Done(s), s.sinks, x');
      } else {
        var id :| InHand(s.producers, id) == 1 && Gains(s.sinks, x', [id]);
        ProducerOrdered(s, x', id);
      }
    }
  }

  lemma SettledKnown(s: State)
    requires InOrder(s)
    ensures s.settled <= |s.accepted|
  {
  }

  lemma DrainSteps(s: State, a: Action)
    requires Enabled(s, a)
    ensures a.WriterDrain? ==> s.writer.Draining? && Apply(s, a) == WriterDrained(s, a.up, a.ok)
    ensures a.TailDrain? ==> s.control.TailDraining? && Apply(s, a) == TailDrained(s, a.up, a.ok)
  {
    hide WriterDrained, TailDrained;
  }

  // ---- the counters -----------------------------------------------------------------------

  /** The groups of producers the counters speak of. */
  datatype Group = Holders | Uncounted | StoredInDb | StoredInFile

  predicate In(stage: Stage, group: Group) {
    match group
    case Holders => stage in IN_HAND
    case Uncounted => stage in UNCOUNTED
    case StoredInDb => stage == GlassInDb
    case StoredInFile => stage == GlassInEmergency
  }

  function Among(producers: map<Id, Stage>, group: Group): set<Id> {
    set id | id in producers && In(producers[id], group)
  }

  function Number(producers: map<Id, Stage>, group: Group): nat {
    |Among(producers, group)|
  }

  function One(b: bool): nat {
    if b then 1 else 0
  }

  lemma NumberDrop(p: map<Id, Stage>, id: Id, group: Group)
    ensures Number(p - {id}, group) == Number(p, group) - One(id in p && In(p[id], group))
  {
    hide In;
    var rest := Among(p - {id}, group);
    var own := if id in p && In(p[id], group) then {id} else {};
    forall k ensures k in Among(p, group) <==> k in rest + own {
      assert k != id ==> (k in p <==> k in p - {id});
    }
    assert Among(p, group) == rest + own;
  }

  lemma NumberPut(p: map<Id, Stage>, id: Id, stage: Stage, group: Group)
    ensures Number(p[id := stage], group) == Number(p - {id}, group) + One(In(stage, group))
  {
    var q := p[id := stage];
    assert p - {id} == q - {id};
    NumberDrop(q, id, group);
  }

  /** What a drain has put in a destination and not yet counted. */
  function LandedIn(d: Drain): nat {
    if d.Landed? then d.count else 0
  }

  function SpilledBy(d: Drain): nat {
    if d.Spilling? then d.ok else 0
  }

  function LandedNow(s: State): nat {
    LandedIn(WriterDrainOf(s.writer)) + LandedIn(ControlDrainOf(s.control))
  }

  function SpilledNow(s: State): nat {
    SpilledBy(WriterDrainOf(s.writer)) + SpilledBy(ControlDrainOf(s.control))
  }

  /** The three write counters against what is really there: each lags by what has been
      written and not counted yet, and the emergency file holds the spills besides. */
  ghost predicate WriteCounts(s: State) {
    var x := s.sinks;
    && |x.db| == x.writtenDb + LandedNow(s) + Number(s.producers, StoredInDb)
    && |x.emergency| == x.writtenEmergency + SpilledNow(s) + Number(s.producers, StoredInFile) + s.spills
    && |x.dropped| == x.droppedCount
  }

  function Size(x: Sinks): nat {
    |x.db| + |x.emergency| + |x.dropped|
  }

  /** Conservation: what was given is in a producer's hand, queued, in a batch, at an end, or
      taken by an exception. */
  ghost predicate Conserved(s: State) {
    && s.given == Number(s.producers, Holders) + |s.queue| + |PendingNow(s)| + Size(s.sinks) + |s.lost|
    && s.given == s.enqueued + Number(s.producers, Uncounted)
  }

  ghost predicate Counters(s: State) {
    WriteCounts(s) && Conserved(s)
  }

  lemma DrainCounts(d: Drain, x: Sinks, up: bool, ok: bool)
    ensures var (d', x') := DrainStep(d, x, up, ok);
            && |x'.db| - x'.writtenDb - LandedIn(d') == |x.db| - x.writtenDb - LandedIn(d)
            && |x'.emergency| - x'.writtenEmergency - SpilledBy(d') == |x.emergency| - x.writtenEmergency - SpilledBy(d)
            && |x'.dropped| - x'.droppedCount == |x.dropped| - x.droppedCount
            && |Pending(d')| + Size(x') == |Pending(d)| + Size(x)
  {
  }

  lemma DrainsCounted(s: State, up: bool, ok: bool)
    requires Counters(s) && Turns(s)
    ensures s.writer.Draining? ==> Counters(WriterDrained(s, up, ok))
    ensures s.control.TailDraining? ==> Counters(TailDrained(s, up, ok))
  {
    hide DrainStep, Pending, Number, LandedIn, SpilledBy, Size;
    assert LandedIn(Idle) == 0 && SpilledBy(Idle) == 0 && Pending(Idle) == [] by { IdleHoldsNothing(); }
    if s.writer.Draining? {
      DrainCounts(s.writer.drain, s.sinks, up, ok);
    }
    if s.control.TailDraining? {
      DrainCounts(s.control.drain, s.sinks, up, ok);
    }
  }

  lemma IdleHoldsNothing()
    ensures LandedIn(Idle) == 0 && SpilledBy(Idle) == 0 && Pending(Idle) == []
  {
  }

  lemma TakesCounted(s: State)
    requires Counters(s) && Turns(s)
    ensures s.writer == Taking ==> Counters(WriterTook(s))
    ensures s.control == TailTaking ==> Counters(TailTook(s))
  {
    hide Number, Size;
  }

  lemma NumbersPut(p: map<Id, Stage>, id: Id, stage: Stage)
    ensures forall group ::
      Number(p[id := stage], group) == Number(p, group) - One(id in p && In(p[id], group)) + One(In(stage, group))
    ensures forall group :: Number(p - {id}, group) == Number(p, group) - One(id in p && In(p[id], group))
  {
    hide Number;
    forall group
      ensures Number(p[id := stage], group)
                == Number(p, group) - One(id in p && In(p[id], group)) + One(In(stage, group))
      ensures Number(p - {id}, group) == Number(p, group) - One(id in p && In(p[id], group))
    {
      NumberDrop(p, id, group);
      NumberPut(p, id, stage, group);
    }
  }

  lemma CallsCounted(s: State, stage: Stage, k: Id)
    requires Counters(s) && (forall p | p in s.producers :: p < s.given)
    requires stage in UNCOUNTED
    ensures Counters(Called(s, stage))
    ensures At(s, k, LogCalled) || At(s, k, GlassCalled) ==> Counters(Counted(s, k))
  {
    hide Number;
    NumbersPut(s.producers, s.given, stage);
    NumbersPut(s.producers, k, if At(s, k, LogCalled) then LogCounted else GlassCounted);
    assert PendingNow(Called(s, stage)) == PendingNow(s) == PendingNow(Counted(s, k));
  }

  lemma LogCounts(s: State, k: Id, ok: bool)
    requires Counters(s)
    ensures At(s, k, LogCounted) ==> Counters(Offered(s, k))
    ensures At(s, k, OverCap) ==> Counters(SpiltOver(s, k, ok))
  {
    hide Number;
    NumbersPut(s.producers, k, OverCap);
    assert PendingNow(Offered(s, k)) == PendingNow(s) == PendingNow(SpiltOver(s, k, ok));
  }

  lemma GlassCounts(s: State, k: Id, up: bool, ok: bool)
    requires Counters(s)
    ensures At(s, k, GlassCounted) ==> Counters(GlassTried(s, k, up, ok))
    ensures At(s, k, GlassFallback) ==> Counters(GlassSpilt(s, k, ok))
  {
    hide Number;
    NumbersPut(s.producers, k, GlassInDb);
    NumbersPut(s.producers, k, GlassFallback);
    NumbersPut(s.producers, k, GlassInEmergency);
    assert PendingNow(GlassTried(s, k, up, ok)) == PendingNow(s) == PendingNow(GlassSpilt(s, k, ok));
  }

  lemma GlassEndCounts(s: State, a: Action)
    requires Counters(s) && Enabled(s, a) && (a.GlassCountDb? || a.GlassCountEmergency?)
    ensures Counters(Apply(s, a))
  {
    hide Number;
    NumbersPut(s.producers, a.id, GlassInDb);
    assert PendingNow(Apply(s, a)) == PendingNow(s);
  }

  lemma StepCounters(s: State, a: Action)
    requires Counters(s) && Turns(s) && (forall p | p in s.producers :: p < s.given)
    ensures Counters(Step(s, a))
  {
    hide Counters, Turns, Called, Counted, Offered, SpiltOver, GlassTried, GlassSpilt;
    hide WriterTook, TailTook, WriterDrained, TailDrained;
    if !Enabled(s, a) {
    } else if a.CallLog? || a.CallGlass? {
      CallsCounted(s, if a.CallLog? then LogCalled else GlassCalled, 0);
    } else if a.Count? {
      CallsCounted(s, LogCalled, a.id);
    } else if a.Enqueue? || a.SpillOver? {
      LogCounts(s, a.id, if a.SpillOver? then a.ok else true);
    } else if a.GlassInsert? || a.GlassSpill? {
      GlassCounts(s, a.id, if a.GlassInsert? then a.up else true, a.ok);
    } else if a.GlassCountDb? || a.GlassCountEmergency? {
      GlassEndCounts(s, a);
    } else if a.WriterTake? || a.TailTake? {
      TakesCounted(s);
    } else if a.WriterDrain? || a.TailDrain? {
      DrainsCounted(s, a.up, a.ok);
    } else {
      FlagsCounted(s, a);
    }
  }

  lemma FlagsCounted(s: State, a: Action)
    requires Counters(s) && Turns(s) && Enabled(s, a)
    requires a.Start? || a.WriterCheck? || a.Stop? || a.Join?
    ensures Counters(Apply(s, a))
  {
    hide Number, Size;
  }

  // ---- every run --------------------------------------------------------------------------

  ghost predicate Invariant(s: State) {
    OnePlace(s) && Bounded(s) && Turns(s) && TailTaken(s) && InOrderEverywhere(s) && Counters(s)
  }

  lemma InitialOk()
    ensures Invariant(INITIAL)
  {
    hide WriteCounts, Conserved, InOrderEverywhere, Places;
    forall id: Id ensures PlacedOnce(INITIAL, id) {
      InitialPlaces(id);
    }
    InitialOrder();
    InitialCounters();
    InitialConserved();
  }

  lemma InitialPlaces(id: Id)
    ensures Places(INITIAL, id) == 0
  {
    assert Copies([], id) == 0;
  }

  lemma InitialOrder()
    ensures InOrderEverywhere(INITIAL)
  {
  }

  lemma InitialCounters()
    ensures WriteCounts(INITIAL)
  {
    hide Number, LandedNow, SpilledNow;
    NobodyCounts();
    NothingLanded(INITIAL);
    NothingSpilled(INITIAL);
  }

  lemma InitialConserved()
    ensures Conserved(INITIAL)
  {
    hide Number;
    NobodyCounts();
  }

  lemma NothingLanded(s: State)
    requires !s.writer.Draining? && !s.control.TailDraining?
    ensures LandedNow(s) == 0
  {
  }

  lemma NothingSpilled(s: State)
    requires !s.writer.Draining? && !s.control.TailDraining?
    ensures SpilledNow(s) == 0
  {
  }

  lemma NobodyCounts()
    ensures forall group :: Number(map[], group) == 0
  {
    forall group ensures Number(map[], group) == 0 {
      assert Among(map[], group) == {};
    }
  }

  lemma StepKeeps(s: State, a: Action)
    requires Invariant(s)
    ensures Invariant(Step(s, a))
  {
    hide Step, Bounded, Turns, TailTaken, InOrderEverywhere, Counters, PlacedOnce;
    StepOnePlace(s, a);
    StepTurns(s, a);
    StepTailTaken(s, a);
    StepOrdered(s, a);
    StepCounters(s, a);
  }

  lemma VanishedCounts(s: State, id: Id)
    requires Counters(s) && (At(s, id, OverCap) || At(s, id, GlassCounted) || At(s, id, GlassFallback))
    ensures Counters(Vanished(s, id))
  {
    hide Number, Size;
    NumbersPut(s.producers, id, OverCap);
    assert PendingNow(Vanished(s, id)) == PendingNow(s);
  }

  lemma VanishedInOrder(s: State, id: Id)
    requires InOrderEverywhere(s) && Bounded(s) && Turns(s) && TailTaken(s)
    ensures InOrderEverywhere(Vanished(s, id)) && Bounded(Vanished(s, id))
            && Turns(Vanished(s, id)) && TailTaken(Vanished(s, id))
  {
    hide Ordered;
    assert PendingNow(Vanished(s, id)) == PendingNow(s) && Done(Vanished(s, id)) == Done(s);
  }

  lemma StepInKeeps(ev: Events, p: Process, a: Action)
    requires Invariant(p.s)
    ensures Invariant(StepIn(ev, p, a).s)
  {
    hide Step, OnePlace, Bounded, Turns, TailTaken, InOrderEverywhere, Counters, DrainThrows;
    StepKeeps(p.s, a);
    if Throws(ev, p.s, a) && (a.SpillOver? || a.GlassInsert? || a.GlassSpill?) {
      VanishedOnePlace(p.s, a.id);
      VanishedCounts(p.s, a.id);
      VanishedInOrder(p.s, a.id);
    }
  }

  /** The invariant holds after any interleaving of any number of producers, the writer
      thread and the control thread, with any database and file failures and any exceptions. */
  lemma {:induction false} RunKeeps(ev: Events, actions: seq<Action>)
    ensures Invariant(RunIn(ev, actions).s)
  {
    hide StepIn, Invariant;
    if actions == [] {
      InitialOk();
    } else {
      RunKeeps(ev, actions[..|actions| - 1]);
      StepInKeeps(ev, RunIn(ev, actions[..|actions| - 1]), actions[|actions| - 1]);
    }
  }

  /** Where the event is, the process alive or not. */
  function PlacesIn(p: Process, id: Id): nat {
    if p.dead then InSinks(p.s.sinks, id) else Places(p.s, id)
  }

  /** Never twice: in whatever run, an event that was given is in at most one place, one that was
      not is nowhere. */
  lemma AtMostOnce(ev: Events, actions: seq<Action>, id: Id)
    ensures var p := RunIn(ev, actions);
            PlacesIn(p, id) <= (if id < p.s.given then 1 else 0)
  {
    hide InSinks, InHand, Copies, PendingNow, RunIn;
    RunKeeps(ev, actions);
    assert PlacedOnce(RunIn(ev, actions).s, id);
  }

  /** Step `i` of the run is one whose dump throws: a drain, a spill or a synchronous write that
      has come to an event that cannot be dumped. */
  predicate ThrowsAt(ev: Events, actions: seq<Action>, i: int) {
    0 <= i < |actions| && (var p := RunIn(ev, actions[..i]); !p.dead && Throws(ev, p.s, actions[i]))
  }

  /** Whatever is done about them, events that cannot be dumped never reach the database or the
      emergency file; and where all can be dumped, no step of any run throws. */
  lemma {:induction false} OnlyDumpedArrive(ev: Events, actions: seq<Action>)
    ensures var x := RunIn(ev, actions).s.sinks; AllDumpFrom(ev, x.db, 0) && AllDumpFrom(ev, x.emergency, 0)
    ensures (forall id :: ev.dumps(id)) ==> forall i :: !ThrowsAt(ev, actions, i)
  {
    hide Step, Throws;
    if actions != [] {
      var p, a := RunIn(ev, actions[..|actions| - 1]), actions[|actions| - 1];
      OnlyDumpedArrive(ev, actions[..|actions| - 1]);
      ThrowsMeans(ev, p.s, a);
    }
    if forall id :: ev.dumps(id) {
      forall i ensures !ThrowsAt(ev, actions, i) {
        if ThrowsAt(ev, actions, i) {
          ThrowsMeans(ev, RunIn(ev, actions[..i]).s, actions[i]);
        }
      }
    }
  }

  predicate Unharmed(p: Process) {
    !p.dead && p.s.lost == []
  }

  ghost predicate DiedOfIt(ev: Events, p: Process) {
    p.dead ==> exists a :: Throws(ev, p.s, a)
  }

  lemma {:induction false} HarmedMeans(ev: Events, actions: seq<Action>)
    ensures Unharmed(RunIn(ev, actions)) <==> forall i :: !ThrowsAt(ev, actions, i)
    ensures DiedOfIt(ev, RunIn(ev, actions))
  {
    hide Throws, Apply, Enabled;
    if actions != [] {
      var n := |actions| - 1;
      var front := actions[..n];
      HarmedMeans(ev, front);
      forall i | i != n ensures ThrowsAt(ev, actions, i) <==> ThrowsAt(ev, front, i) {
        if 0 <= i < n {
          assert front[..i] == actions[..i] && front[i] == actions[i];
        }
      }
      assert !ThrowsAt(ev, front, n);
      var p := RunIn(ev, front);
      assert ThrowsAt(ev, actions, n) <==> !p.dead && Throws(ev, p.s, actions[n]);
      if Enabled(p.s, actions[n]) {
        LostStays(p.s, actions[n]);
      }
    }
  }

  /** The event an exception comes from is held by the thread it leaves, and at no end. */
  lemma ThrowerIsNowhere(ev: Events, s: State, a: Action) returns (id: Id)
    requires Invariant(s) && Throws(ev, s, a)
    ensures id < s.given && InSinks(s.sinks, id) == 0
  {
    hide OnePlace, Bounded, Turns, TailTaken, InOrderEverywhere, Counters, InSinks;
    match a
    case WriterDrain(up, ok) => id := HeldBack(ev, s, s.writer.drain, up, ok);
    case TailDrain(up, ok) => id := HeldBack(ev, s, s.control.drain, up, ok);
    case SpillOver(k, _) => id := k; HeldIsGiven(s, id);
    case GlassInsert(k, _, _) => id := k; HeldIsGiven(s, id);
    case GlassSpill(k, _) => id := k; HeldIsGiven(s, id);
  }

  lemma HeldIsGiven(s: State, id: Id)
    requires OnePlace(s) && (id in PendingNow(s) || InHand(s.producers, id) == 1)
    ensures id < s.given && InSinks(s.sinks, id) == 0
  {
    hide PendingNow, InSinks, InHand, Copies;
    PendingIsFresh(s, id);
    CopiesIn(PendingNow(s), id);
    assert PlacedOnce(s, id);
  }

  lemma HeldBack(ev: Events, s: State, d: Drain, up: bool, ok: bool) returns (id: Id)
    requires OnePlace(s) && DrainThrows(ev, d, up, ok)
    requires (s.writer.Draining? && s.writer.drain == d) || (s.control.TailDraining? && s.control.drain == d)
    ensures id < s.given && InSinks(s.sinks, id) == 0
  {
    hide OnePlace, InSinks, Invariant;
    if d.Holding? {
      var i :| 0 <= i < |d.batch| && !ev.dumps(d.batch[i]);
      id := d.batch[i];
    } else {
      id := d.rest[0];
    }
    assert id in Pending(d) && id in PendingNow(s);
    HeldIsGiven(s, id);
  }

  /** Exactly once, exactly when: after a run every event given is in exactly one place if and
      only if no drain, spill or synchronous write came to an event that cannot be dumped. The
      first that does takes its event with it, and unless it is a write whose caller catches
      exceptions, the queue, the batch and the events in hand as well. */
  lemma ExactlyOnce(ev: Events, actions: seq<Action>)
    ensures (forall id: Id | id < RunIn(ev, actions).s.given :: PlacesIn(RunIn(ev, actions), id) == 1)
            <==> forall i :: !ThrowsAt(ev, actions, i)
  {
    hide RunIn, Places, InSinks, Copies, ThrowsAt, Throws;
    var p := RunIn(ev, actions);
    RunKeeps(ev, actions);
    HarmedMeans(ev, actions);
    if Unharmed(p) {
      forall id: Id | id < p.s.given ensures PlacesIn(p, id) == 1 {
        assert PlacedOnce(p.s, id);
        NothingLost(id);
      }
    } else if p.dead {
      var a :| Throws(ev, p.s, a);
      var id := ThrowerIsNowhere(ev, p.s, a);
      assert PlacesIn(p, id) == 0;
    } else {
      var id := p.s.lost[0];
      CopiesIn(p.s.lost, id);
      assert PlacedOnce(p.s, id);
      assert PlacesIn(p, id) == 0;
    }
  }

  lemma NothingLost(id: Id)
    ensures Copies([], id) == 0
  {
  }

  // The smallest run that ends so, state by state.
  const STARTED := INITIAL.(control := Running, writer := Checking)
  const CALLED := STARTED.(given := 1, producers := map[0 := LogCalled])
  const COUNTED := CALLED.(enqueued := 1, producers := map[0 := LogCounted])
  const QUEUED := COUNTED.(producers := map[], queue := [0], accepted := [0])
  const TAKEN := QUEUED.(queue := [], writer := Draining(Holding([0])))

  lemma GoesOn(ev: Events, actions: seq<Action>, s: State, a: Action, s': State)
    requires RunIn(ev, actions) == Process(s, false) && !Throws(ev, s, a) && Step(s, a) == s'
    ensures RunIn(ev, actions + [a]) == Process(s', false)
  {
    hide Throws, Step;
    assert (actions + [a])[..|actions|] == actions;
  }

  lemma OneEventLogged(ev: Events)
    ensures RunIn(ev, [Start, CallLog, Count(0), Enqueue(0)]) == Process(QUEUED, false)
  {
    var none: seq<Action> := [];
    assert RunIn(ev, none) == Process(INITIAL, false);
    hide RunIn;
    GoesOn(ev, none, INITIAL, Start, STARTED);
    assert none + [Start] == [Start];
    GoesOn(ev, [Start], STARTED, CallLog, CALLED);
    assert [Start] + [CallLog] == [Start, CallLog];
    assert Step(CALLED, Count(0)) == COUNTED;
    GoesOn(ev, [Start, CallLog], CALLED, Count(0), COUNTED);
    assert [Start, CallLog] + [Count(0)] == [Start, CallLog, Count(0)];
    assert Step(COUNTED, Enqueue(0)) == QUEUED by { QueueTakesIt(); }
    GoesOn(ev, [Start, CallLog, Count(0)], COUNTED, Enqueue(0), QUEUED);
    assert [Start, CallLog, Count(0)] + [Enqueue(0)] == [Start, CallLog, Count(0), Enqueue(0)];
  }

  lemma QueueTakesIt()
    ensures Step(COUNTED, Enqueue(0)) == QUEUED
  {
    assert COUNTED.producers - {0} == map[];
  }

  lemma WriterTakesIt()
    ensures Step(QUEUED.(writer := Taking), WriterTake) == TAKEN
  {
    var queue: seq<Id> := [0];
    assert TakeCount(queue) == 1 && queue[..1] == [0] && queue[1..] == [];
  }

  lemma OneEventTaken(ev: Events, logged: seq<Action>)
    requires RunIn(ev, logged) == Process(QUEUED, false)
    ensures RunIn(ev, logged + [WriterCheck] + [WriterTake]) == Process(TAKEN, false)
  {
    hide RunIn;
    GoesOn(ev, logged, QUEUED, WriterCheck, QUEUED.(writer := Taking));
    WriterTakesIt();
    GoesOn(ev, logged + [WriterCheck], QUEUED.(writer := Taking), WriterTake, TAKEN);
  }

  /** One event that cannot be dumped, logged and drained: the process is over, and the event is
      nowhere. */
  lemma OneEventEndsIt(ev: Events)
    requires !ev.dumps(0)
    ensures var p := RunIn(ev, [Start, CallLog, Count(0), Enqueue(0)] + [WriterCheck] + [WriterTake]
                               + [WriterDrain(true, true)]);
            p == Process(TAKEN, true) && p.s.given == 1 && PlacesIn(p, 0) == 0
  {
    hide RunIn;
    var logged := [Start, CallLog, Count(0), Enqueue(0)];
    OneEventLogged(ev);
    OneEventTaken(ev, logged);
    EndsHere(ev, logged + [WriterCheck] + [WriterTake]);
    NothingLost(0);
  }

  lemma EndsHere(ev: Events, actions: seq<Action>)
    requires !ev.dumps(0) && RunIn(ev, actions) == Process(TAKEN, false)
    ensures RunIn(ev, actions + [WriterDrain(true, true)]) == Process(TAKEN, true)
  {
    assert (actions + [WriterDrain(true, true)])[..|actions|] == actions;
    assert !ev.dumps([0][0]);
    assert Throws(ev, TAKEN, WriterDrain(true, true));
  }

  /** The queue passes the hard cap by one at most, and mutations are refused exactly then. */
  lemma QueueBound(ev: Events, actions: seq<Action>)
    ensures var s := RunIn(ev, actions).s;
            && |s.queue| <= 20001
            && (ShouldRejectMutation(s) <==> |s.queue| == 20001)
            && (s.writer.Draining? ==> |Pending(s.writer.drain)| <= 256)
  {
    hide RunIn, OnePlace, Turns, TailTaken, InOrderEverywhere, Counters;
    RunKeeps(ev, actions);
  }

  // ---- nothing waits for ever ----------------------------------------------------------------

  /** How often the writer took from the queue after the first `m` steps. */
  function Takes(ev: Events, actions: seq<Action>, m: nat): nat {
    if |actions| <= m then 0
    else
      var front, last := actions[..|actions| - 1], actions[|actions| - 1];
      Takes(ev, front, m) + if TakesNow(RunIn(ev, front), last) then 1 else 0
  }

  predicate TakesNow(p: Process, a: Action) {
    a.WriterTake? && p.s.writer == Taking && !p.dead
  }

  function AtLeastZero(n: int): nat {
    if n < 0 then 0 else n
  }

  /** What one step does to the queue: a take of the writer removes 256 events or all there are,
      the last take of stop() all, and nothing else removes any. */
  lemma QueueStep(ev: Events, p: Process, a: Action)
    ensures var q := StepIn(ev, p, a);
            && |p.s.accepted| <= |q.s.accepted|
            && (|q.s.accepted| == |p.s.accepted| ==>
                  if TakesNow(p, a) then |q.s.queue| == AtLeastZero(|p.s.queue| - 256)
                  else |q.s.queue| == |p.s.queue| || (a.TailTake? && q.s.queue == []))
  {
    hide Throws, DrainStep, Called, Counted, SpiltOver, GlassTried, GlassSpilt;
    if a.WriterDrain? || a.TailDrain? || a.CallLog? || a.CallGlass? || a.Count? || a.SpillOver? || a.GlassInsert?
       || a.GlassSpill? {
      QueueHolds(ev, p, a);
    } else {
      assert !Throws(ev, p.s, a) by { NeverThrows(ev, p.s, a); }
    }
  }

  lemma NeverThrows(ev: Events, s: State, a: Action)
    requires !a.WriterDrain? && !a.TailDrain? && !a.SpillOver? && !a.GlassInsert? && !a.GlassSpill?
    ensures !Throws(ev, s, a)
  {
  }

  lemma QueueHolds(ev: Events, p: Process, a: Action)
    requires a.WriterDrain? || a.TailDrain? || a.CallLog? || a.CallGlass? || a.Count? || a.SpillOver?
             || a.GlassInsert? || a.GlassSpill?
    ensures var q := StepIn(ev, p, a); q.s.queue == p.s.queue && q.s.accepted == p.s.accepted
  {
    hide Throws, DrainStep;
  }

  /** Of `n` events in a queue that accepts no more, k takes of the writer leave n - 256 k, or
      none; and once it is empty and no drain is under way, all that was ever accepted is at its
      end. So ceil(n / 256) takes and their drains settle them. */
  lemma {:induction false} QueueDrains(ev: Events, actions: seq<Action>, m: nat)
    requires m <= |actions|
    ensures var p, q := RunIn(ev, actions[..m]), RunIn(ev, actions);
            && |p.s.accepted| <= |q.s.accepted|
            && (|q.s.accepted| == |p.s.accepted| ==>
                  && |q.s.queue| <= AtLeastZero(|p.s.queue| - 256 * Takes(ev, actions, m))
                  && ((forall i | m <= i < |actions| :: !actions[i].TailTake?) ==>
                        |q.s.queue| == AtLeastZero(|p.s.queue| - 256 * Takes(ev, actions, m))))
    decreases |actions|
  {
    hide StepIn, TakesNow;
    if m == |actions| {
      assert actions[..m] == actions;
    } else {
      var front, last := actions[..|actions| - 1], actions[|actions| - 1];
      QueueDrains(ev, front, m);
      assert front[..m] == actions[..m];
      QueueStep(ev, RunIn(ev, front), last);
    }
  }

  lemma EmptyIsSettled(ev: Events, actions: seq<Action>)
    ensures var s := RunIn(ev, actions).s;
            s.queue == [] && PendingNow(s) == [] ==> s.settled == |s.accepted| && s.accepted == Done(s)
  {
    hide RunIn, OnePlace, Turns, TailTaken, Bounded, Counters, PendingNow, SameOrder;
    RunKeeps(ev, actions);
    FirstInFirstOut(ev, actions);
    var s := RunIn(ev, actions).s;
    assert Done(s) + [] + [] == Done(s);
  }

  lemma DrainedIsSettled(ev: Events, actions: seq<Action>, m: nat)
    requires m <= |actions|
    requires var p, q := RunIn(ev, actions[..m]), RunIn(ev, actions);
             && |q.s.accepted| == |p.s.accepted| && PendingNow(q.s) == []
             && 256 * Takes(ev, actions, m) >= |p.s.queue|
    ensures var q := RunIn(ev, actions); q.s.queue == [] && q.s.settled == |q.s.accepted|
  {
    hide RunIn, Takes, PendingNow;
    QueueDrains(ev, actions, m);
    EmptyIsSettled(ev, actions);
  }

  /** How many steps a drain still takes. */
  function StepsLeft(d: Drain): nat {
    match d
    case Idle => 0
    case Holding(batch) => |batch| + 2
    case Landed(_) => 1
    case Spilling(rest, _) => |rest| + 1
  }

  /** A drain comes to its end: every step brings it nearer, whatever works and whatever not, so
      one of n events takes n + 2 steps at most. */
  lemma DrainIsFinite(d: Drain, x: Sinks, up: bool, ok: bool)
    ensures d != Idle ==> StepsLeft(DrainStep(d, x, up, ok).0) < StepsLeft(d)
    ensures StepsLeft(d) == 0 <==> d == Idle
    ensures StepsLeft(d) <= |Pending(d)| + 2
  {
  }

  function Drains(s: State, outcomes: seq<(bool, bool)>): State {
    if outcomes == [] then s
    else
      var last := outcomes[|outcomes| - 1];
      Step(Drains(s, outcomes[..|outcomes| - 1]), WriterDrain(last.0, last.1))
  }

  lemma {:induction false} DrainsSettle(s: State, outcomes: seq<(bool, bool)>)
    requires s.writer == Checking || (s.writer.Draining? && s.writer.drain != Idle)
    ensures var s' := Drains(s, outcomes);
            && (s'.writer == Checking || (s'.writer.Draining? && s'.writer.drain != Idle))
            && s'.queue == s.queue
            && s'.settled + |Pending(WriterDrainOf(s'.writer))| == s.settled + |Pending(WriterDrainOf(s.writer))|
            && StepsLeft(WriterDrainOf(s'.writer)) <= AtLeastZero(StepsLeft(WriterDrainOf(s.writer)) - |outcomes|)
  {
    hide DrainStep, StepsLeft;
    if outcomes != [] {
      var n := |outcomes| - 1;
      DrainsSettle(s, outcomes[..n]);
      var s1 := Drains(s, outcomes[..n]);
      if s1.writer.Draining? {
        DrainIsFinite(s1.writer.drain, s1.sinks, outcomes[n].0, outcomes[n].1);
      }
    }
    NothingLeft();
  }

  lemma NothingLeft()
    ensures StepsLeft(Idle) == 0
  {
  }

  lemma TurnTakes(s: State)
    requires s.writer == Checking && !s.stopping
    ensures var s1 := Step(Step(s, WriterCheck), WriterTake);
            var n := if |s.queue| < 256 then |s.queue| else 256;
            && (s1.writer == Checking || (s1.writer.Draining? && s1.writer.drain != Idle))
            && s1.queue == s.queue[n..] && s1.settled == s.settled && |Pending(WriterDrainOf(s1.writer))| == n
  {
  }

  lemma CheckingPends(s: State)
    ensures s.writer == Checking ==> Pending(WriterDrainOf(s.writer)) == []
    ensures s.writer.Draining? ==> WriterDrainOf(s.writer) == s.writer.drain
  {
  }

  /** One turn of the writer: unless it is told to stop, it takes 256 events or all there are, and
      after as many drain steps as it took events, and two more, they are settled and it is back
      where it was, whatever works and whatever not. */
  lemma TurnSettles(s: State, outcomes: seq<(bool, bool)>)
    requires s.writer == Checking && !s.stopping
    requires |outcomes| >= |s.queue| + 2 || |outcomes| >= 258
    ensures var s' := Drains(Step(Step(s, WriterCheck), WriterTake), outcomes);
            var n := if |s.queue| < 256 then |s.queue| else 256;
            s'.writer == Checking && s'.queue == s.queue[n..] && s'.settled == s.settled + n
  {
    hide Drains, StepsLeft, Step, WriterDrainOf, Pending;
    TurnTakes(s);
    var s1 := Step(Step(s, WriterCheck), WriterTake);
    DrainsSettle(s1, outcomes);
    DrainIsFinite(WriterDrainOf(s1.writer), s1.sinks, true, true);
    var s' := Drains(s1, outcomes);
    DrainIsFinite(WriterDrainOf(s'.writer), s'.sinks, true, true);
    CheckingPends(s');
  }

  /** A writer that is told to stop takes no more. */
  lemma StopsTaking(s: State)
    requires s.writer == Checking && s.stopping
    ensures Step(s, WriterCheck) == s.(writer := Exited)
  {
  }

  /** First in, first out: events leave the queue in the order they entered it, a batch is
      the next stretch of that order, and at every destination they stand in that order. */
  lemma FirstInFirstOut(ev: Events, actions: seq<Action>)
    ensures var s := RunIn(ev, actions).s;
            && s.settled <= |s.accepted|
            && s.accepted == Done(s) + PendingNow(s) + s.queue
            && SameOrder(Done(s), s.sinks.db)
            && SameOrder(Done(s), s.sinks.emergency)
            && SameOrder(Done(s), s.sinks.dropped)
  {
    hide RunIn, OnePlace, Turns, TailTaken, Bounded, Counters, PendingNow, SameOrder;
    RunKeeps(ev, actions);
    var s := RunIn(ev, actions).s;
    assert s.accepted == s.accepted[..s.settled] + s.accepted[s.settled..];
  }

  /** After stop() in a process still alive, if the queue accepted nothing since stop() took the
      tail, nothing waits; if no producer is still inside a call, every event is at one of the
      three ends, or was taken by an exception its caller caught. */
  lemma AfterStop(ev: Events, actions: seq<Action>, id: Id)
    requires var p := RunIn(ev, actions); !p.dead && p.s.control == Stopped && |p.s.accepted| == p.s.tailMark
    ensures var s := RunIn(ev, actions).s;
            && s.queue == [] && PendingNow(s) == []
            && (s.producers == map[] && id < s.given ==> InSinks(s.sinks, id) + Copies(s.lost, id) == 1)
  {
    hide RunIn, Bounded, InOrderEverywhere, Counters, InSinks;
    RunKeeps(ev, actions);
    var s := RunIn(ev, actions).s;
    assert PlacedOnce(s, id);
    assert s.accepted[s.tailMark..] == [];
    assert PendingNow(s) == [];
  }

  /** Between calls and batches the counters add up to what was given less the successful
      spills over the hard cap and what exceptions took. */
  lemma StatsShortBySpills(ev: Events, actions: seq<Action>)
    requires var s := RunIn(ev, actions).s; s.producers == map[] && !s.writer.Draining? && !s.control.TailDraining?
    ensures var s := RunIn(ev, actions).s;
            && s.enqueued == s.given
            && s.enqueued == s.sinks.writtenDb + s.sinks.writtenEmergency + s.sinks.droppedCount + |s.queue|
                             + s.spills + |s.lost|
  {
    hide RunIn, OnePlace, Bounded, InOrderEverywhere, Turns, TailTaken, Number;
    RunKeeps(ev, actions);
    NobodyCounts();
  }
}
