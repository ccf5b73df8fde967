/** The critical sections of the audit writer as sequential code over its fields, each equal
    to the step of AuditPipeline it stands for. */
module AuditLogger {
  import opened AuditPipeline

  /** The elements whose write ended as asked. */
  function Picked(batch: seq<Id>, writable: seq<bool>, wanted: bool): seq<Id>
    requires |writable| == |batch|
  {
    if batch == [] then []
    else
      var n := |batch| - 1;
      Picked(batch[..n], writable[..n], wanted) + if writable[n] == wanted then [batch[n]] else []
  }

  /** How many of the first `k` writes worked. */
  function Worked(writable: seq<bool>, k: nat): nat
    requires k <= |writable|
  {
    if k == 0 then 0 else Worked(writable, k - 1) + if writable[k - 1] then 1 else 0
  }

  /** Event by event, in order: the k-th is behind those before it at the end of the emergency
      file if its write worked, and among the dropped if not. */
  ghost predicate Shared(batch: seq<Id>, writable: seq<bool>, file: seq<Id>, file': seq<Id>,
                         dropped: seq<Id>, dropped': seq<Id>)
    requires |writable| == |batch|
  {
    && file <= file' && dropped <= dropped'
    && |file'| + |dropped'| == |file| + |dropped| + |batch|
    && (forall k | 0 <= k < |batch| ::
          var w := Worked(writable, k);
          if writable[k] then |file| + w < |file'| && file'[|file| + w] == batch[k]
          else 0 <= |dropped| + k - w < |dropped'| && dropped'[|dropped| + k - w] == batch[k])
  }

  lemma {:induction false} PickedCounts(batch: seq<Id>, writable: seq<bool>, k: nat)
    requires |writable| == |batch| && k <= |batch|
    ensures |Picked(batch[..k], writable[..k], true)| == Worked(writable, k) <= k
    ensures |Picked(batch[..k], writable[..k], false)| == k - Worked(writable, k)
  {
    hide Picked;
    if k > 0 {
      PickedCounts(batch, writable, k - 1);
      SpillOne(batch, writable, k);
    } else {
      NothingPicked();
    }
  }

  lemma {:induction false} PickedAt(batch: seq<Id>, writable: seq<bool>, k: nat, i: nat)
    requires |writable| == |batch| && i < k <= |batch|
    ensures var w := Worked(writable, i);
            var which := Picked(batch[..k], writable[..k], writable[i]);
            if writable[i] then w < |which| && which[w] == batch[i]
            else 0 <= i - w < |which| && which[i - w] == batch[i]
  {
    hide Picked, Worked;
    PickedCounts(batch, writable, i);
    SpillOne(batch, writable, k);
    if i < k - 1 {
      PickedAt(batch, writable, k - 1, i);
    }
  }

  lemma NothingPicked()
    ensures forall wanted :: Picked([], [], wanted) == []
  {
  }

  lemma SpiltIsShared(batch: seq<Id>, writable: seq<bool>, file: seq<Id>, dropped: seq<Id>)
    requires |writable| == |batch|
    ensures |Picked(batch, writable, true)| + |Picked(batch, writable, false)| == |batch|
    ensures Shared(batch, writable, file, file + Picked(batch, writable, true),
                   dropped, dropped + Picked(batch, writable, false))
  {
    hide Picked, Worked;
    assert batch[..|batch|] == batch && writable[..|batch|] == writable;
    PickedCounts(batch, writable, |batch|);
    forall k | 0 <= k < |batch|
      ensures var w, kept, lost := Worked(writable, k), Picked(batch, writable, true), Picked(batch, writable, false);
              if writable[k] then w < |kept| && (file + kept)[|file| + w] == batch[k]
              else 0 <= k - w < |lost| && (dropped + lost)[|dropped| + k - w] == batch[k]
    {
      PickedAt(batch, writable, |batch|, k);
    }
  }

  /** The ends after a batch was refused by the database and went event by event to the
      emergency file, which took `kept` and not `lost`. */
  function Spilt(x: Sinks, up: bool, kept: seq<Id>, lost: seq<Id>): Sinks {
    x.(dbFailures := x.dbFailures + (if up then 1 else 0), emergency := x.emergency + kept,
       dropped := x.dropped + lost, droppedCount := x.droppedCount + |lost|)
  }

  /** What draining a whole batch does to the ends. `writable[k]` is whether the emergency
      file takes the k-th event. */
  function Drained(x: Sinks, batch: seq<Id>, up: bool, inserted: bool, writable: seq<bool>): Sinks
    requires |writable| == |batch|
  {
    if up && inserted then x.(db := x.db + batch, writtenDb := x.writtenDb + |batch|)
    else
      var kept := Picked(batch, writable, true);
      Spilt(x, up, kept, Picked(batch, writable, false)).(writtenEmergency := x.writtenEmergency + |kept|)
  }

  function DrainSteps(d: Drain, x: Sinks, up: bool, oks: seq<bool>): (Drain, Sinks) {
    if oks == [] then (d, x)
    else
      var (d', x') := DrainSteps(d, x, up, oks[..|oks| - 1]);
      DrainStep(d', x', up, oks[|oks| - 1])
  }

  lemma {:induction false} SpillSteps(x: Sinks, batch: seq<Id>, up: bool, writable: seq<bool>, k: nat)
    requires |writable| == |batch| && k <= |batch|
    ensures var kept, lost := Picked(batch[..k], writable[..k], true), Picked(batch[..k], writable[..k], false);
            DrainSteps(Holding(batch), x, up, [false] + writable[..k])
            == (Spilling(batch[k..], |kept|), Spilt(x, up, kept, lost))
  {
    var oks := [false] + writable[..k];
    if k == 0 {
      var none: seq<bool> := [];
      assert oks == [false] && oks[..0] == none;
      assert DrainSteps(Holding(batch), x, up, none) == (Holding(batch), x);
      assert x.emergency + [] == x.emergency && x.dropped + [] == x.dropped && batch[0..] == batch;
    } else {
      hide Spilt, WithEmergency, WithDropped, Picked;
      SpillSteps(x, batch, up, writable, k - 1);
      assert oks[..|oks| - 1] == [false] + writable[..k - 1] && oks[|oks| - 1] == writable[k - 1];
      SpillOne(batch, writable, k);
      SpiltMore(x, up, Picked(batch[..k - 1], writable[..k - 1], true),
                Picked(batch[..k - 1], writable[..k - 1], false), batch[k - 1]);
    }
  }

  lemma SpiltMore(x: Sinks, up: bool, kept: seq<Id>, lost: seq<Id>, id: Id)
    ensures WithEmergency(Spilt(x, up, kept, lost), id) == Spilt(x, up, kept + [id], lost)
    ensures WithDropped(Spilt(x, up, kept, lost), id) == Spilt(x, up, kept, lost + [id])
  {
    assert x.emergency + kept + [id] == x.emergency + (kept + [id]);
    assert x.dropped + lost + [id] == x.dropped + (lost + [id]);
  }

  lemma SpillOne(batch: seq<Id>, writable: seq<bool>, k: nat)
    requires |writable| == |batch| && 0 < k <= |batch|
    ensures batch[k - 1..] != [] && batch[k - 1..][0] == batch[k - 1] && batch[k - 1..][1..] == batch[k..]
    ensures Picked(batch[..k], writable[..k], true)
         == var kept := Picked(batch[..k - 1], writable[..k - 1], true);
            if writable[k - 1] then kept + [batch[k - 1]] else kept
    ensures Picked(batch[..k], writable[..k], false)
         == var lost := Picked(batch[..k - 1], writable[..k - 1], false);
            if writable[k - 1] then lost else lost + [batch[k - 1]]
  {
    assert batch[..k][..k - 1] == batch[..k - 1] && writable[..k][..k - 1] == writable[..k - 1];
  }

  /** The steps of a drain, taken one after the other to the end, do what Drained says. */
  lemma StepsDrainBatch(x: Sinks, batch: seq<Id>, up: bool, inserted: bool, writable: seq<bool>)
    requires |writable| == |batch|
    ensures var oks := if up && inserted then [true, true] else [false] + writable + [true];
            DrainSteps(Holding(batch), x, up, oks) == (Idle, Drained(x, batch, up, inserted, writable))
  {
    if up && inserted {
      var one, two := [true], [true, true];
      assert two[..1] == one && one[..0] == [];
      assert DrainSteps(Holding(batch), x, up, []) == (Holding(batch), x);
      assert DrainSteps(Holding(batch), x, up, [true]) == DrainStep(Holding(batch), x, up, true);
    } else {
      SpillSteps(x, batch, up, writable, |batch|);
      var oks := [false] + writable + [true];
      assert oks[..|oks| - 1] == [false] + writable;
      assert writable[..|batch|] == writable && batch[..|batch|] == batch;
    }
  }

  /** The first event of a spill whose dump throws: the file is open for it and its texts are
      not UTF-8. */
  function FirstThrow(ev: Events, batch: seq<Id>, writable: seq<bool>): (k: nat)
    requires |writable| == |batch|
    ensures k <= |batch|
    ensures k < |batch| ==> writable[k] && !ev.dumps(batch[k])
    ensures forall i | 0 <= i < k :: !writable[i] || ev.dumps(batch[i])
  {
    if batch == [] then 0
    else
      var n := |batch| - 1;
      var k := FirstThrow(ev, batch[..n], writable[..n]);
      if k < n || (writable[n] && !ev.dumps(batch[n])) then k else |batch|
  }

  /** A drain that throws while it spills is one whose steps come to a step that throws. */
  lemma StepsComeToThrow(ev: Events, x: Sinks, batch: seq<Id>, up: bool, writable: seq<bool>)
    requires |writable| == |batch| && FirstThrow(ev, batch, writable) < |batch|
    ensures var k := FirstThrow(ev, batch, writable);
            var (d, x') := DrainSteps(Holding(batch), x, up, [false] + writable[..k]);
            && DrainThrows(ev, d, up, writable[k])
            && x' == Spilt(x, up, Picked(batch[..k], writable[..k], true), Picked(batch[..k], writable[..k], false))
  {
    SpillSteps(x, batch, up, writable, FirstThrow(ev, batch, writable));
  }

  class AuditLogger {
    var queue: seq<Id>
    var sinks: Sinks

    constructor ()
      ensures queue == INITIAL.queue && sinks == INITIAL.sinks
    {
      queue := [];
      sinks := Sinks([], [], [], 0, 0, 0, 0);
    }

    method ShouldRejectMutation() returns (reject: bool)
      ensures reject <==> |queue| >= 20001
    {
      reject := |queue| > HARD_CAP;
    }

    /** The section of log() under the queue lock. */
    method Offer(id: Id) returns (overHard: bool, wake: bool)
      modifies this`queue
      ensures overHard == OverHardCap(old(queue))
      ensures overHard <==> |old(queue)| >= 20001
      ensures queue == if overHard then old(queue) else old(queue) + [id]
      ensures wake <==> !overHard && |queue| >= 256
    {
      overHard, wake := false, false;
      if |queue| > HARD_CAP {
        overHard := true;
      } else {
        queue := queue + [id];
        wake := |queue| >= BATCH_MAX;
      }
    }

    /** The section of log() under the emergency lock. Nothing is counted when it succeeds. */
    method SpillOver(ev: Events, id: Id, writable: bool) returns (threw: bool)
      modifies this`sinks
      ensures threw <==> writable && !ev.dumps(id)
      ensures sinks == if threw then old(sinks)
                       else if writable then WithEmergency(old(sinks), id)
                       else WithDropped(old(sinks), id)
    {
      if writable && !ev.dumps(id) {
        return true;
      }
      threw := false;
      if !writable {
        sinks := sinks.(dropped := sinks.dropped + [id], droppedCount := sinks.droppedCount + 1);
      } else {
        sinks := sinks.(emergency := sinks.emergency + [id]);
      }
    }

    /** The section of the writer loop under the queue lock. */
    method TakeBatch() returns (batch: seq<Id>)
      modifies this`queue
      ensures batch == old(queue)[..TakeCount(old(queue))]
      ensures old(queue) == batch + queue && |batch| <= 256
      ensures queue == [] || |batch| == 256
    {
      batch := [];
      var take := if |queue| < BATCH_MAX then |queue| else BATCH_MAX;
      for i := 0 to take
        invariant |old(queue)| >= take
        invariant batch == old(queue)[..i] && queue == old(queue)[i..]
      {
        batch := batch + [queue[0]];
        queue := queue[1..];
      }
    }

    /** `inserted` is whether the insert, unless a dump throws, goes through. What was spilt before
        an exception stays spilt, and is not counted. */
    method DrainBatch(ev: Events, batch: seq<Id>, up: bool, inserted: bool, writable: seq<bool>)
      returns (persisted: nat, threw: bool)
      requires |writable| == |batch|
      modifies this`sinks
      ensures threw <==> batch != [] && (if up && inserted then !AllDump(ev, batch)
                                         else FirstThrow(ev, batch, writable) < |batch|)
      ensures !threw ==>
                && sinks == (if batch == [] then old(sinks) else Drained(old(sinks), batch, up, inserted, writable))
                && persisted == |sinks.db| + |sinks.emergency| - |old(sinks).db| - |old(sinks).emergency|
      ensures !threw && up && inserted ==>
                sinks == old(sinks).(db := old(sinks.db) + batch, writtenDb := old(sinks.writtenDb) + |batch|)
      ensures !threw && !(up && inserted) && batch != [] ==>
                && sinks.db == old(sinks.db) && sinks.writtenDb == old(sinks.writtenDb)
                && sinks.dbFailures == old(sinks.dbFailures) + (if up then 1 else 0)
                && Shared(batch, writable, old(sinks.emergency), sinks.emergency, old(sinks.dropped), sinks.dropped)
                && sinks.writtenEmergency == old(sinks.writtenEmergency) + persisted
                && sinks.droppedCount == old(sinks.droppedCount) + |batch| - persisted
      ensures threw ==>
                var k := FirstThrow(ev, batch, writable);
                sinks == if up && inserted then old(sinks)
                         else Spilt(old(sinks), up, Picked(batch[..k], writable[..k], true),
                                    Picked(batch[..k], writable[..k], false))
    {
      hide FirstThrow, Picked, Shared;
      persisted, threw := 0, false;
      if batch == [] {
        return;
      }
      if up {
        if inserted {
          for i := 0 to |batch|
            invariant forall j | 0 <= j < i :: ev.dumps(batch[j])
          {
            if !ev.dumps(batch[i]) {
              return 0, true;
            }
          }
          sinks := sinks.(db := sinks.db + batch, writtenDb := sinks.writtenDb + |batch|);
          return |batch|, false;
        }
        sinks := sinks.(dbFailures := sinks.dbFailures + 1);
      }
      persisted, threw := SpillBatch(ev, batch, up, writable, old(sinks));
      SpiltIsShared(batch, writable, old(sinks).emergency, old(sinks).dropped);
    }

    /** The section of drainBatch under the emergency lock. */
    method SpillBatch(ev: Events, batch: seq<Id>, up: bool, writable: seq<bool>, ghost before: Sinks)
      returns (persisted: nat, threw: bool)
      requires |writable| == |batch|
      requires sinks == before.(dbFailures := before.dbFailures + (if up then 1 else 0))
      modifies this`sinks
      ensures threw <==> FirstThrow(ev, batch, writable) < |batch|
      ensures !threw ==>
                && sinks == Drained(before, batch, up, false, writable)
                && persisted == |sinks.emergency| - |before.emergency| && sinks.db == before.db
      ensures threw ==>
                var k := FirstThrow(ev, batch, writable);
                sinks == Spilt(before, up, Picked(batch[..k], writable[..k], true),
                               Picked(batch[..k], writable[..k], false))
    {
      hide FirstThrow;
      assert sinks.emergency + [] == sinks.emergency && sinks.dropped + [] == sinks.dropped;
      persisted, threw := 0, false;
      for i := 0 to |batch|
        invariant forall j | 0 <= j < i :: !writable[j] || ev.dumps(batch[j])
        invariant var kept, lost := Picked(batch[..i], writable[..i], true), Picked(batch[..i], writable[..i], false);
                  && persisted == |kept|
                  && sinks == Spilt(before, up, kept, lost)
      {
        if writable[i] && !ev.dumps(batch[i]) {
          FirstThrowIs(ev, batch, writable, i);
          return persisted, true;
        }
        SpillOne(batch, writable, i + 1);
        SpiltMore(before, up, Picked(batch[..i], writable[..i], true),
                  Picked(batch[..i], writable[..i], false), batch[i]);
        if writable[i] {
          sinks := sinks.(emergency := sinks.emergency + [batch[i]]);
          persisted := persisted + 1;
        } else {
          sinks := sinks.(dropped := sinks.dropped + [batch[i]], droppedCount := sinks.droppedCount + 1);
        }
      }
      NoThrow(ev, batch, writable);
      assert batch[..|batch|] == batch && writable[..|batch|] == writable;
      sinks := sinks.(writtenEmergency := sinks.writtenEmergency + persisted);
    }

    /** The end of stop(): whatever is queued once the writer is gone goes through one drain. */
    method DrainTail(ev: Events, up: bool, inserted: bool, writable: seq<bool>) returns (threw: bool)
      requires |writable| == |queue|
      modifies this
      ensures queue == []
      ensures threw <==> old(queue) != [] && (if up && inserted then !AllDump(ev, old(queue))
                                              else FirstThrow(ev, old(queue), writable) < |writable|)
      ensures !threw ==>
                sinks == if old(queue) == [] then old(sinks)
                         else Drained(old(sinks), old(queue), up, inserted, writable)
    {
      hide FirstThrow, Drained, AllDump;
      var tail := queue;
      queue := [];
      threw := false;
      if tail != [] {
        var persisted;
        persisted, threw := DrainBatch(ev, tail, up, inserted, writable);
      }
    }
  }

  lemma FirstThrowIs(ev: Events, batch: seq<Id>, writable: seq<bool>, k: nat)
    requires |writable| == |batch| && k < |batch| && writable[k] && !ev.dumps(batch[k])
    requires forall i | 0 <= i < k :: !writable[i] || ev.dumps(batch[i])
    ensures FirstThrow(ev, batch, writable) == k
  {
  }

  lemma NoThrow(ev: Events, batch: seq<Id>, writable: seq<bool>)
    requires |writable| == |batch| && (forall i | 0 <= i < |batch| :: !writable[i] || ev.dumps(batch[i]))
    ensures FirstThrow(ev, batch, writable) == |batch|
  {
  }
}
