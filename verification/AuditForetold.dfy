/** What the scan will say can be read off the steps of a run alone, for every run: with
    purges, lost tails and changed keys in any order. No MAC is computed here; which row each
    row was signed after is followed by position instead. */
module AuditForetold {
  import opened Wrappers
  import opened Hex
  import opened AuditTypes
  import opened HashChain
  import opened AuditChain
  import opened AuditStore

  /** The events appended so far, the key each was signed with and the event it was signed
      after; whose rows survive; whose MAC is in memory, whose the stored cursor holds; and the
      key in use. -1 stands for no event. */
  datatype Course = Course(events: seq<Event>, keys: seq<Key>, after: seq<int>, at: seq<nat>,
                           tail: int, cursor: int, key: Key)

  function Begun(k: Key): Course {
    Course([], [], [], [], -1, -1, k)
  }

  function Signs(c: Course, e: Event, saved: bool): Course {
    var n := |c.events|;
    Course(c.events + [e], c.keys + [c.key], c.after + [c.tail], c.at + [n], n, if saved then n else c.cursor, c.key)
  }

  function SignsAll(c: Course, es: seq<Event>, saved: bool): Course {
    if es == [] then c else Signs(SignsAll(c, es[..|es| - 1], saved), es[|es| - 1], saved)
  }

  function Spares(events: seq<Event>, name: string, cutoff: int): nat -> bool {
    (p: nat) => p < |events| ==> !PastCutoff(WriteColumns(events[p]), name, cutoff)
  }

  /** Whose MAC a restart takes for the tail. */
  function Finds(c: Course, look: Lookup): int {
    if !look.prepared then -1
    else if look.cursor && c.cursor >= 0 then c.cursor
    else if look.newest && c.at != [] then c.at[|c.at| - 1]
    else -1
  }

  function CourseStep(c: Course, op: Op): Course {
    match op
    case Insert(e, saved) => Signs(c, e, saved)
    case Batch(es, saved) => SignsAll(c, es, saved)
    case Failed => c
    case PurgeOlder(name, cutoff) => c.(at := Kept(c.at, Spares(c.events, name, cutoff)))
    case Reopen(key, look) => c.(key := key, tail := Finds(c, look))
  }

  function CourseOf(k: Key, ops: seq<Op>): Course {
    if ops == [] then Begun(k) else CourseStep(CourseOf(k, ops[..|ops| - 1]), ops[|ops| - 1])
  }

  // ---- the run follows its course --------------------------------------------------------

  function MacAt(log: seq<Row>, p: int): Blob {
    if 0 <= p < |log| then log[p].mac else []
  }

  predicate Even(c: Course) {
    |c.keys| == |c.events| && |c.after| == |c.events|
  }

  /** Row `i` is event `i`, signed with its key after the row the course names. */
  predicate RowFollows(h: Hmac, log: seq<Row>, c: Course, i: int)
    requires Even(c)
  {
    0 <= i < |log| && i < |c.events| ==>
      (var prev := MacAt(log, c.after[i]);
       && -1 <= c.after[i] < i
       && log[i] == Row(i + 1, WriteColumns(c.events[i]), if c.after[i] < 0 then None else Some(prev),
                        h(c.keys[i], SignText(prev, c.events[i])), c.keys[i].fingerprint, false))
  }

  ghost predicate LogFollows(h: Hmac, log: seq<Row>, c: Course) {
    Even(c) && |log| == |c.events| && (forall i :: RowFollows(h, log, c, i))
  }

  /** Position `p` is none or one of the log's. */
  predicate IsPlace(log: seq<Row>, p: int) {
    -1 <= p < |log|
  }

  ghost predicate StoreFollows(st: Store, log: seq<Row>, c: Course) {
    && Positions(log, c.at) && st.rows == Pick(log, c.at)
    && st.lastId == |log|
    && IsPlace(log, c.tail) && st.lastMac == MacAt(log, c.tail)
    && IsPlace(log, c.cursor) && st.cursor == (if c.cursor < 0 then None else Some(Encoded(MacAt(log, c.cursor))))
  }

  ghost predicate Follows(h: Hmac, s: Sys, c: Course) {
    && LogFollows(h, s.log, c) && StoreFollows(s.store, s.log, c)
    && s.events == c.events && s.key == c.key
  }

  lemma MacIsThere(h: Hmac, log: seq<Row>, c: Course, p: int)
    requires LogFollows(h, log, c) && IsPlace(log, p)
    ensures MacAt(log, p) == [] <==> p < 0
    ensures p >= 0 ==> |MacAt(log, p)| == 32
  {
    hide SignText, WriteColumns;
    assert RowFollows(h, log, c, p);
  }

  lemma LogSigns(h: Hmac, s: Sys, c: Course, e: Event, saved: bool)
    requires Follows(h, s, c)
    ensures LogFollows(h, AppendLogged(AuditSigner(h), s, e, saved).log, Signs(c, e, saved))
  {
    hide SignText, WriteColumns, Pick, Encoded;
    var log', c' := AppendLogged(AuditSigner(h), s, e, saved).log, Signs(c, e, saved);
    MacIsThere(h, s.log, c, c.tail);
    forall i ensures RowFollows(h, log', c', i) {
      assert RowFollows(h, s.log, c, i);
    }
  }

  lemma SignsFollow(h: Hmac, s: Sys, c: Course, e: Event, saved: bool)
    requires Follows(h, s, c)
    ensures Follows(h, AppendLogged(AuditSigner(h), s, e, saved), Signs(c, e, saved))
  {
    LogSigns(h, s, c, e, saved);
    hide SignText, WriteColumns, LogFollows, RowFollows, Encoded;
    var s' := AppendLogged(AuditSigner(h), s, e, saved);
    assert Pick(s'.log, c.at + [|s.log|]) == Pick(s.log, c.at) + [s'.log[|s.log|]];
  }

  lemma {:induction false} SignsAllFollow(h: Hmac, s: Sys, c: Course, es: seq<Event>, saved: bool)
    requires Follows(h, s, c)
    ensures Follows(h, AppendAllLogged(AuditSigner(h), s, es, saved), SignsAll(c, es, saved))
  {
    hide Follows, AppendLogged, Signs;
    if es != [] {
      var n := |es| - 1;
      SignsAllFollow(h, s, c, es[..n], saved);
      SignsFollow(h, AppendAllLogged(AuditSigner(h), s, es[..n], saved), SignsAll(c, es[..n], saved), es[n], saved);
    }
  }

  /** Purging by position leaves what purging by content leaves. */
  lemma {:induction false} KeptPicked<T>(log: seq<T>, at: seq<nat>, spare: nat -> bool, keep: T -> bool)
    requires Positions(log, at) && (forall j | 0 <= j < |at| :: spare(at[j]) == keep(log[at[j]]))
    ensures var left := Kept(at, spare);
            Positions(log, left) && (forall p | p in left :: p in at) && Pick(log, left) == Kept(Pick(log, at), keep)
  {
    if at != [] {
      var n := |at| - 1;
      var front := at[..n];
      KeptPicked(log, front, spare, keep);
      assert Pick(log, at)[..n] == Pick(log, front);
      OneMorePicked(log, at, Kept(front, spare));
    }
  }

  lemma OneMorePicked<T>(log: seq<T>, at: seq<nat>, left: seq<nat>)
    requires Positions(log, at) && at != [] && Positions(log, left) && (forall p | p in left :: p in at[..|at| - 1])
    ensures Positions(log, left + []) && Pick(log, left + []) == Pick(log, left) + []
    ensures Positions(log, left + [at[|at| - 1]])
    ensures Pick(log, left + [at[|at| - 1]]) == Pick(log, left) + [log[at[|at| - 1]]]
    ensures forall p | p in left + [at[|at| - 1]] :: p in at
    ensures forall p | p in left + [] :: p in at
  {
    var n := |at| - 1;
    forall i | 0 <= i < |left| ensures left[i] < at[n] {
      assert left[i] in left && left[i] in at[..n];
    }
    assert left + [] == left;
  }

  lemma PurgeFollows(h: Hmac, s: Sys, c: Course, name: string, cutoff: int)
    requires Follows(h, s, c)
    ensures var left := Kept(c.at, Spares(c.events, name, cutoff));
            Positions(s.log, left) && Pick(s.log, left) == Purge(s.store, name, cutoff).rows
  {
    hide LogFollows, PastCutoff, WriteColumns, Kept;
    forall j | 0 <= j < |c.at|
      ensures Spares(c.events, name, cutoff)(c.at[j]) == Unexpired(name, cutoff)(s.log[c.at[j]])
    {
      ColumnsFollow(h, s.log, c, c.at[j]);
    }
    KeptPicked(s.log, c.at, Spares(c.events, name, cutoff), Unexpired(name, cutoff));
  }

  lemma ColumnsFollow(h: Hmac, log: seq<Row>, c: Course, p: nat)
    requires LogFollows(h, log, c) && p < |log|
    ensures |log| == |c.events| && log[p].cols == WriteColumns(c.events[p])
  {
    hide WriteColumns, SignText;
    assert RowFollows(h, log, c, p);
  }

  lemma ReopenFollows(h: Hmac, s: Sys, c: Course, look: Lookup)
    requires Follows(h, s, c)
    ensures IsPlace(s.log, Finds(c, look))
    ensures LoadTail(look, s.store.cursor, s.store.rows) == MacAt(s.log, Finds(c, look))
  {
    hide LogFollows, CStr, Encoded, Decoded;
    if c.cursor >= 0 {
      var mac := MacAt(s.log, c.cursor);
      MacIsThere(h, s.log, c, c.cursor);
      EncodedIsPlain(mac);
      RoundTrip(mac);
    }
  }

  lemma StepFollows(h: Hmac, s: Sys, c: Course, op: Op)
    requires Follows(h, s, c)
    ensures Follows(h, Step(AuditSigner(h), s, op), CourseStep(c, op))
  {
    hide LogFollows, AppendLogged, Signs, LoadTail, Finds, Pick, Kept;
    match op
    case Insert(e, saved) => SignsFollow(h, s, c, e, saved);
    case Batch(es, saved) => SignsAllFollow(h, s, c, es, saved);
    case Failed =>
    case PurgeOlder(name, cutoff) =>
      PurgeFollows(h, s, c, name, cutoff);
      OtherPlaces(h, s.log, c, c.(at := Kept(c.at, Spares(c.events, name, cutoff))));
    case Reopen(key, look) =>
      ReopenFollows(h, s, c, look);
      OtherPlaces(h, s.log, c, c.(key := key, tail := Finds(c, look)));
  }

  lemma OtherPlaces(h: Hmac, log: seq<Row>, c: Course, c': Course)
    requires LogFollows(h, log, c) && c'.events == c.events && c'.keys == c.keys && c'.after == c.after
    ensures LogFollows(h, log, c')
  {
    hide SignText, WriteColumns;
    forall i ensures RowFollows(h, log, c', i) {
      assert RowFollows(h, log, c, i);
    }
  }

  /** Every run leaves the rows its course names, signed as the course says. */
  lemma {:induction false} RunFollows(h: Hmac, k: Key, ops: seq<Op>)
    ensures Follows(h, Run(AuditSigner(h), Fresh(k), ops), CourseOf(k, ops))
  {
    hide Step, CourseStep;
    if ops != [] {
      hide Follows;
      var front := ops[..|ops| - 1];
      RunFollows(h, k, front);
      StepFollows(h, Run(AuditSigner(h), Fresh(k), front), CourseOf(k, front), ops[|ops| - 1]);
    }
  }

  /** The events of the course are those the run was given. */
  lemma {:induction false} CourseGiven(k: Key, ops: seq<Op>)
    ensures CourseOf(k, ops).events == Given(ops)
  {
    if ops != [] {
      var front, op := ops[..|ops| - 1], ops[|ops| - 1];
      CourseGiven(k, front);
      if op.Batch? {
        AllGiven(CourseOf(k, front), op.es, op.saved);
      }
    }
  }

  lemma {:induction false} AllGiven(c: Course, es: seq<Event>, saved: bool)
    ensures SignsAll(c, es, saved).events == c.events + es
  {
    if es == [] {
      assert c.events + es == c.events;
    } else {
      AllGiven(c, es[..|es| - 1], saved);
      assert c.events + es == c.events + es[..|es| - 1] + [es[|es| - 1]];
    }
  }

  // ---- rows that cannot be told apart ------------------------------------------------------

  /** Two rows carry the same MAC without any collision when they say the same with the same
      key after rows of which the same holds: a tail that was lost can be signed after twice. */
  predicate Twins(c: Course, p: int, q: int)
    requires Even(c)
    decreases p
  {
    && 0 <= p < |c.events| && 0 <= q < |c.events|
    && (p == q
        || (&& c.keys[p] == c.keys[q] && c.events[p] == c.events[q]
            && (if c.after[p] < 0 || c.after[q] < 0 then c.after[p] < 0 && c.after[q] < 0
                else c.after[p] < p && Twins(c, c.after[p], c.after[q]))))
  }

  lemma SignTextSays(p: Blob, e: Event, q: Blob, f: Event)
    ensures SignText(p, e) == SignText(q, f) <==> p == q && e == f
  {
    hide Message;
    MessageSays(p, e, CURRENT_FORMAT, q, f, CURRENT_FORMAT);
  }

  /** Without a collision two rows carry one MAC exactly when they were signed with one key, over
      one event, after one MAC. */
  lemma SameMac(h: Hmac, log: seq<Row>, c: Course, p: nat, q: nat)
    requires LogFollows(h, log, c) && p < |log| && q < |log|
    requires !HasCollision(h, SignedLinks(AuditSigner(h), log, c.events))
    ensures log[p].mac == log[q].mac
            <==> c.keys[p] == c.keys[q] && c.events[p] == c.events[q]
                 && MacAt(log, c.after[p]) == MacAt(log, c.after[q])
  {
    hide SignText, WriteColumns;
    assert RowFollows(h, log, c, p) && RowFollows(h, log, c, q);
    var links := SignedLinks(AuditSigner(h), log, c.events);
    assert !CollideAt(h, links, p, q);
    SignTextSays(MacAt(log, c.after[p]), c.events[p], MacAt(log, c.after[q]), c.events[q]);
  }

  lemma {:induction false} TwinsMeans(h: Hmac, log: seq<Row>, c: Course, p: nat, q: nat)
    requires LogFollows(h, log, c) && p < |log| && q < |log|
    requires !HasCollision(h, SignedLinks(AuditSigner(h), log, c.events))
    ensures log[p].mac == log[q].mac <==> Twins(c, p, q)
    decreases p
  {
    hide HasCollision, SignedLinks;
    SameMac(h, log, c, p, q);
    Before(h, log, c, p);
    Before(h, log, c, q);
    var a, b := c.after[p], c.after[q];
    hide LogFollows;
    if a >= 0 && b >= 0 {
      TwinsMeans(h, log, c, a, b);
    }
  }

  lemma Before(h: Hmac, log: seq<Row>, c: Course, p: nat)
    requires LogFollows(h, log, c) && p < |log|
    ensures |log| == |c.events| && Even(c) && -1 <= c.after[p] < p && (MacAt(log, c.after[p]) == [] <==> c.after[p] < 0)
  {
    hide SignText, WriteColumns;
    assert RowFollows(h, log, c, p);
    MacIsThere(h, log, c, c.after[p]);
  }

  // ---- the verdict -------------------------------------------------------------------------

  /** Every position the course speaks of is one of its events. */
  predicate Placed(c: Course) {
    Even(c) && (forall j | 0 <= j < |c.at| :: c.at[j] < |c.events|)
  }

  /** What the scan under `k` says of survivor `j`, if the run's MACs do not collide: a row of
      that key must have been signed after the survivor before it, or after its twin, and its
      event must come back as it was signed. */
  function FlawOf(c: Course, k: Key, j: int): Reason
    requires Placed(c)
  {
    if !(0 <= j < |c.at|) || c.keys[c.at[j]] != k then Fine
    else if j > 0 && !Twins(c, c.after[c.at[j]], c.at[j - 1]) then PrevMacMismatch
    else if !NulFree(c.events[c.at[j]]) then MacMismatch
    else Fine
  }

  /** The verdict of a scan that has found the first `j` survivors in order. */
  function VerdictFrom(c: Course, k: Key, j: nat): Verdict
    requires Placed(c) && j <= |c.at|
    decreases |c.at| - j
  {
    if j == |c.at| then Verdict(j, 0, Fine)
    else if FlawOf(c, k, j) != Fine then Verdict(j + 1, c.at[j] + 1, FlawOf(c, k, j))
    else VerdictFrom(c, k, j + 1)
  }

  lemma SurvivorForetold(h: Hmac, s: Sys, c: Course, k: Key, j: nat)
    requires Follows(h, s, c) && j < |c.at| && Placed(c)
    requires !HasCollision(h, SignedLinks(AuditSigner(h), s.log, s.events))
    requires !HasCollision(h, Evidence(AuditSigner(h), s))
    ensures Judged(h, k, Links(AuditSigner(h), s.store.rows), j) == FlawOf(c, k, j)
  {
    hide HasCollision, SignText, RowText, WriteColumns, NulFree, Twins;
    var p := c.at[j];
    assert RowFollows(h, s.log, c, p);
    Before(h, s.log, c, p);
    OwnMac(h, s, c, p);
    if j > 0 {
      var o := c.at[j - 1];
      MacIsThere(h, s.log, c, o);
      if c.after[p] >= 0 {
        TwinsMeans(h, s.log, c, c.after[p], o);
      } else {
        NoTwin(c, c.after[p], o);
      }
    }
  }

  lemma NoTwin(c: Course, p: int, q: int)
    requires Even(c) && p < 0
    ensures !Twins(c, p, q)
  {
  }

  /** A row carries the MAC of what it reads back as exactly when its event holds no NUL. */
  lemma OwnMac(h: Hmac, s: Sys, c: Course, p: nat)
    requires Follows(h, s, c) && p < |s.log|
    requires !HasCollision(h, Evidence(AuditSigner(h), s))
    ensures |c.events| == |s.log| && Even(c)
    ensures s.log[p].mac == h(c.keys[p], RowText(ColBlob(s.log[p].prevMac), s.log[p].cols)) <==> NulFree(c.events[p])
  {
    hide SignText, RowText, WriteColumns, NulFree, StoreFollows;
    assert RowFollows(h, s.log, c, p);
    var all := Evidence(AuditSigner(h), s);
    var n := |s.log|;
    assert all[p] == SignedLink(AuditSigner(h), s.log[p], s.events[p]);
    assert all[n + p] == LinkOf(AuditSigner(h), s.log[p]);
    assert !CollideAt(h, all, p, n + p);
    SignedIsRederived(ColBlob(s.log[p].prevMac), c.events[p]);
  }

  lemma FollowsPlaced(h: Hmac, s: Sys, c: Course)
    requires Follows(h, s, c)
    ensures Placed(c) && |s.store.rows| == |c.at| && |s.events| == |s.log|
    ensures forall j | 0 <= j < |c.at| :: s.store.rows[j].id == c.at[j] + 1
  {
    hide SignText, WriteColumns;
    forall j | 0 <= j < |c.at| ensures s.store.rows[j].id == c.at[j] + 1 {
      assert RowFollows(h, s.log, c, c.at[j]);
    }
  }

  lemma {:induction false} VerdictFollows(h: Hmac, k: Key, links: seq<Link>, c: Course, v: Verdict, j: nat)
    requires Placed(c) && |links| == |c.at| && j <= |links| && Reports(h, k, links, v)
    requires forall i | 0 <= i < |links| :: links[i].id == c.at[i] + 1 && Judged(h, k, links, i) == FlawOf(c, k, i)
    requires forall i | 0 <= i < j :: FlawOf(c, k, i) == Fine
    ensures v == VerdictFrom(c, k, j)
    decreases |links| - j
  {
    hide Judged, FlawOf;
    if j == |links| {
      AllFine(h, k, links);
    } else if FlawOf(c, k, j) == Fine {
      VerdictFollows(h, k, links, c, v, j + 1);
    } else {
      assert Judged(h, k, links, j) != Fine;
    }
  }

  lemma AllFine(h: Hmac, k: Key, links: seq<Link>)
    requires forall i | 0 <= i < |links| :: Judged(h, k, links, i) == Fine
    ensures Clean(h, k, links)
  {
    forall i ensures Judged(h, k, links, i) == Fine {
    }
  }

  /** The verdict of every run there is, with purges, failures, lost tails and changed keys: it is
      what the steps foretell, row by row and to the id reported, or the MAC collides. */
  lemma RunForetold(h: Hmac, k: Key, ops: seq<Op>, scanKey: Key, v: Verdict)
    requires Reports(h, scanKey, Links(AuditSigner(h), Run(AuditSigner(h), Fresh(k), ops).store.rows), v)
    ensures var s, c := Run(AuditSigner(h), Fresh(k), ops), CourseOf(k, ops);
            && Placed(c) && c.events == Given(ops) && |s.events| == |s.log|
            && (HasCollision(h, Evidence(AuditSigner(h), s)) || v == VerdictFrom(c, scanKey, 0))
  {
    hide Run, CourseOf, Given, Reports, HasCollision, Evidence, Links, Follows;
    var g := AuditSigner(h);
    var s, c := Run(g, Fresh(k), ops), CourseOf(k, ops);
    RunFollows(h, k, ops);
    CourseGiven(k, ops);
    FollowsPlaced(h, s, c);
    if !HasCollision(h, Evidence(g, s)) {
      NoneSigned(h, s);
      var links := Links(g, s.store.rows);
      forall j | 0 <= j < |links| ensures Judged(h, scanKey, links, j) == FlawOf(c, scanKey, j) {
        SurvivorForetold(h, s, c, scanKey, j);
      }
      RowIds(g, s.store.rows);
      VerdictFollows(h, scanKey, links, c, v, 0);
    }
  }

  lemma FlawsEnd(c: Course, k: Key)
    requires Placed(c)
    ensures forall i | !(0 <= i < |c.at|) :: FlawOf(c, k, i) == Fine
  {
  }

  /** The verdict names the first flaw in order, or there is none. */
  lemma {:induction false} VerdictFromMeans(c: Course, k: Key, j: nat)
    requires Placed(c) && j <= |c.at| && (forall i | 0 <= i < j :: FlawOf(c, k, i) == Fine)
    ensures var v := VerdictFrom(c, k, j);
            if forall i :: FlawOf(c, k, i) == Fine then v == Verdict(|c.at|, 0, Fine)
            else
              && 0 < v.scanned <= |c.at|
              && v.reason == FlawOf(c, k, v.scanned - 1) != Fine
              && v.firstBadId == c.at[v.scanned - 1] + 1
              && (forall i | i < v.scanned - 1 :: FlawOf(c, k, i) == Fine)
    decreases |c.at| - j
  {
    FlawsEnd(c, k);
    hide FlawOf, Twins;
    if j < |c.at| && FlawOf(c, k, j) == Fine {
      VerdictFromMeans(c, k, j + 1);
    }
  }

  lemma NoneSigned(h: Hmac, s: Sys)
    requires |s.events| == |s.log| && !HasCollision(h, Evidence(AuditSigner(h), s))
    ensures !HasCollision(h, SignedLinks(AuditSigner(h), s.log, s.events))
  {
    hide HasCollision, SignedLinks, Links;
    var g := AuditSigner(h);
    if HasCollision(h, SignedLinks(g, s.log, s.events)) {
      CollisionWithin(h, SignedLinks(g, s.log, s.events), Links(g, s.log));
    }
  }

  /** Where no two events are alike, no two rows are twins, and the rule is plain: every row
      of the key must have been signed after the survivor before it. */
  lemma DistinctHaveNoTwins(c: Course, p: int, q: int)
    requires Even(c) && (forall i, j | 0 <= i < j < |c.events| :: c.events[i] != c.events[j])
    ensures Twins(c, p, q) <==> p == q && 0 <= p < |c.events|
  {
  }
}
