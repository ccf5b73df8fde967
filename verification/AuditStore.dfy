/** What each operation of the audit database does to its table, its stored cursor and its
    cached chain tail, and what any run of operations leaves behind. Committing rows and
    trying to save the cursor is one step; the save may fail and nobody looks. */
module AuditStore {
  import opened Wrappers
  import opened Hex
  import opened AuditTypes
  import opened HashChain
  import opened AuditChain

  /** `cursor` is the hex text in audit_meta; `lastId` is the highest id ever given out, as
      AUTOINCREMENT keeps it; `lastMac` lives in memory. */
  datatype Store = Store(rows: seq<Row>, cursor: Option<string>, lastMac: Blob, lastId: int)

  const EMPTY := Store([], None, [], 0)

  /** The event is signed whole and stored as its columns keep it. */
  function NewRow(g: Signer, k: Key, st: Store, e: Event): Row {
    Row(st.lastId + 1, g.write(e), if st.lastMac == [] then None else Some(st.lastMac),
        g.hmac(k, g.sign(st.lastMac, e)), k.fingerprint, false)
  }

  function Append(g: Signer, k: Key, st: Store, e: Event, saved: bool): Store {
    var r := NewRow(g, k, st, e);
    Store(st.rows + [r], if saved then Some(Encoded(r.mac)) else st.cursor, r.mac, r.id)
  }

  /** The rows appended one by one. */
  function AppendAll(g: Signer, k: Key, st: Store, es: seq<Event>, saved: bool): Store {
    if es == [] then st
    else Append(g, k, AppendAll(g, k, st, es[..|es| - 1], saved), es[|es| - 1], saved)
  }

  lemma AppendAllNext(g: Signer, k: Key, st: Store, es: seq<Event>, saved: bool, i: nat)
    requires i < |es|
    ensures AppendAll(g, k, st, es[..i + 1], saved) == Append(g, k, AppendAll(g, k, st, es[..i], saved), es[i], saved)
  {
    assert es[..i + 1][..i] == es[..i];
  }

  /** What `DELETE ... WHERE category = ? AND ts_unix_ms < ?` deletes. */
  predicate PastCutoff(c: Columns, name: string, cutoff: int) {
    c.category == name && c.ts < cutoff
  }

  predicate Expired(r: Row, name: string, cutoff: int) {
    PastCutoff(r.cols, name, cutoff)
  }

  function Kept<T>(s: seq<T>, keep: T -> bool): (r: seq<T>)
    ensures |r| <= |s|
  {
    if s == [] then []
    else Kept(s[..|s| - 1], keep) + if keep(s[|s| - 1]) then [s[|s| - 1]] else []
  }

  function Unexpired(name: string, cutoff: int): Row -> bool {
    (r: Row) => !Expired(r, name, cutoff)
  }

  function Purge(st: Store, name: string, cutoff: int): Store {
    st.(rows := Kept(st.rows, Unexpired(name, cutoff)))
  }

  /** How the lookup of the tail goes at a restart: whether it can be prepared at all, whether
      the stored cursor can be read, and whether the newest row can. */
  datatype Lookup = Lookup(prepared: bool, cursor: bool, newest: bool)

  /** The tail an opened database starts from: the stored cursor, or, when that is missing or
      unreadable, the newest row's MAC. */
  function LoadTail(look: Lookup, cursor: Option<string>, rows: seq<Row>): Blob {
    var t := if look.cursor && cursor.Some? then Decoded(CStr(cursor.value)) else [];
    if !look.prepared then []
    else if t == [] && look.newest then NewestMac(rows)
    else t
  }

  function NewestMac(rows: seq<Row>): Blob {
    if rows == [] then [] else rows[|rows| - 1].mac
  }

  // ---- runs --------------------------------------------------------------------------

  /** One step in the life of the database. `saved` is whether the cursor is saved after the
      rows; `Failed` is an insert or a batch that leaves nothing behind, because it was rolled
      back or because the dump of an event threw (AuditDb.AuditDb.Insert); `Reopen` is a
      restart, perhaps with another key or after such a throw ended the process; open() does not
      ask how the lookup of the tail went. */
  datatype Op =
    | Insert(e: Event, saved: bool)
    | Batch(es: seq<Event>, saved: bool)
    | Failed
    | PurgeOlder(name: string, cutoff: int)
    | Reopen(key: Key, look: Lookup)

  /** `log` and `events` are the history: every row ever appended, and the events signed. */
  datatype Sys = Sys(store: Store, key: Key, log: seq<Row>, events: seq<Event>)

  function AppendLogged(g: Signer, s: Sys, e: Event, saved: bool): Sys {
    s.(store := Append(g, s.key, s.store, e, saved), log := s.log + [NewRow(g, s.key, s.store, e)],
       events := s.events + [e])
  }

  function AppendAllLogged(g: Signer, s: Sys, es: seq<Event>, saved: bool): Sys {
    if es == [] then s
    else AppendLogged(g, AppendAllLogged(g, s, es[..|es| - 1], saved), es[|es| - 1], saved)
  }

  function Step(g: Signer, s: Sys, op: Op): Sys {
    match op
    case Insert(e, saved) => AppendLogged(g, s, e, saved)
    case Batch(es, saved) => AppendAllLogged(g, s, es, saved)
    case Failed => s
    case PurgeOlder(name, cutoff) => s.(store := Purge(s.store, name, cutoff))
    case Reopen(key, look) =>
      s.(key := key, store := s.store.(lastMac := LoadTail(look, s.store.cursor, s.store.rows)))
  }

  function Run(g: Signer, s: Sys, ops: seq<Op>): Sys {
    if ops == [] then s else Step(g, Run(g, s, ops[..|ops| - 1]), ops[|ops| - 1])
  }

  function Fresh(k: Key): Sys {
    Sys(EMPTY, k, [], [])
  }

  function GivenBy(op: Op): seq<Event> {
    if op.Insert? then [op.e] else if op.Batch? then op.es else []
  }

  /** The events the run was given and appended, in order. */
  function Given(ops: seq<Op>): seq<Event> {
    if ops == [] then [] else Given(ops[..|ops| - 1]) + GivenBy(ops[|ops| - 1])
  }

  predicate NoPurge(ops: seq<Op>) {
    forall i | 0 <= i < |ops| :: !ops[i].PurgeOlder?
  }

  /** The tail in memory is the MAC of the newest row ever appended. */
  predicate InStep(s: Sys) {
    s.store.lastMac == NewestMac(s.log)
  }

  /** Whenever the run appended something, the tail in memory was the right one. */
  predicate Steady(g: Signer, k: Key, ops: seq<Op>) {
    ops == [] ||
      (var front, last := ops[..|ops| - 1], ops[|ops| - 1];
       Steady(g, k, front) && (GivenBy(last) != [] ==> InStep(Run(g, Fresh(k), front))))
  }

  /** The table is what survives at `at` of the log, which is the chained record of the
      events as they were signed. */
  ghost predicate Tracks(g: Signer, s: Sys, at: seq<nat>) {
    && |s.events| == |s.log|
    && Chained(g.hmac, SignedLinks(g, s.log, s.events))
    && (forall i | 0 <= i < |s.log| :: s.log[i].cols == g.write(s.events[i]) && |s.log[i].mac| == 32)
    && Positions(s.log, at)
    && s.store.rows == Pick(s.log, at)
    && s.store.lastId == (if s.log == [] then 0 else s.log[|s.log| - 1].id)
  }

  lemma AppendTracks(g: Signer, s: Sys, at: seq<nat>, e: Event, saved: bool)
    requires Tracks(g, s, at) && InStep(s)
    ensures Tracks(g, AppendLogged(g, s, e, saved), at + [|s.log|]) && InStep(AppendLogged(g, s, e, saved))
  {
    hide Chained, LinkedAt;
    var r := NewRow(g, s.key, s.store, e);
    AppendChains(g, s, at, e);
    assert Pick(s.log + [r], at + [|s.log|]) == Pick(s.log, at) + [r];
  }

  lemma AppendChains(g: Signer, s: Sys, at: seq<nat>, e: Event)
    requires Tracks(g, s, at) && InStep(s)
    ensures Chained(g.hmac, SignedLinks(g, s.log + [NewRow(g, s.key, s.store, e)], s.events + [e]))
  {
    var r := NewRow(g, s.key, s.store, e);
    var links, l := SignedLinks(g, s.log, s.events), SignedLink(g, r, e);
    assert SignedLinks(g, s.log + [r], s.events + [e]) == links + [l];
    assert LinkedAt(g.hmac, links, |s.log| - 1);
    ChainExtends(g.hmac, links, l);
  }

  lemma {:induction false} AppendAllTracks(g: Signer, s: Sys, at: seq<nat>, es: seq<Event>, saved: bool)
    returns (at': seq<nat>)
    requires Tracks(g, s, at) && InStep(s)
    ensures var s' := AppendAllLogged(g, s, es, saved);
            Tracks(g, s', at') && InStep(s') && s'.events == s.events + es
            && (|at| == |s.log| ==> |at'| == |s'.log|)
  {
    hide Tracks, InStep, AppendLogged;
    if es == [] {
      at' := at;
      assert s.events + es == s.events;
    } else {
      var front, e := es[..|es| - 1], es[|es| - 1];
      var a := AppendAllTracks(g, s, at, front, saved);
      var s1 := AppendAllLogged(g, s, front, saved);
      AppendTracks(g, s1, a, e, saved);
      AppendedOne(g, s1, e, saved);
      at' := a + [|s1.log|];
      assert s.events + es == (s.events + front) + [e];
    }
  }

  lemma AppendedOne(g: Signer, s: Sys, e: Event, saved: bool)
    ensures AppendLogged(g, s, e, saved).events == s.events + [e]
    ensures |AppendLogged(g, s, e, saved).log| == |s.log| + 1
    ensures AppendLogged(g, s, e, saved).key == s.key
  {
  }

  lemma {:induction false} KeptPositions<T>(s: seq<T>, keep: T -> bool) returns (at: seq<nat>)
    ensures Positions(s, at) && Kept(s, keep) == Pick(s, at)
  {
    if s == [] {
      at := [];
    } else {
      var front := s[..|s| - 1];
      var a := KeptPositions(front, keep);
      PickFront(s, a);
      at := if keep(s[|s| - 1]) then a + [|s| - 1] else a;
    }
  }

  lemma PickFront<T>(s: seq<T>, a: seq<nat>)
    requires s != [] && Positions(s[..|s| - 1], a)
    ensures Positions(s, a) && Pick(s, a) == Pick(s[..|s| - 1], a)
    ensures Positions(s, a + [|s| - 1]) && Pick(s, a + [|s| - 1]) == Pick(s, a) + [s[|s| - 1]]
  {
  }

  lemma PurgeTracks(g: Signer, s: Sys, at: seq<nat>, name: string, cutoff: int) returns (at': seq<nat>)
    requires Tracks(g, s, at)
    ensures Tracks(g, s.(store := Purge(s.store, name, cutoff)), at')
  {
    var a := KeptPositions(s.store.rows, Unexpired(name, cutoff));
    at' := Pick(at, a);
    assert Pick(s.log, at') == Pick(s.store.rows, a);
  }

  lemma StepTracks(g: Signer, s: Sys, at: seq<nat>, op: Op) returns (at': seq<nat>)
    requires Tracks(g, s, at) && (GivenBy(op) != [] ==> InStep(s))
    ensures var s' := Step(g, s, op);
            Tracks(g, s', at') && s'.events == s.events + GivenBy(op)
            && (|at| == |s.log| && !op.PurgeOlder? ==> |at'| == |s'.log|)
  {
    at' := at;
    assert s.events + [] == s.events;
    match op
    case Insert(e, saved) =>
      AppendTracks(g, s, at, e, saved);
      at' := at + [|s.log|];
    case Batch(es, saved) =>
      if es != [] {
        at' := AppendAllTracks(g, s, at, es, saved);
      }
    case PurgeOlder(name, cutoff) =>
      at' := PurgeTracks(g, s, at, name, cutoff);
    case _ =>
  }

  /** Every steady run, with purges, failures, restarts and key changes in any order: the log
      is the chained record of exactly the events given, and the table is what survives of
      it. Without a purge nothing is missing from the table. */
  lemma {:induction false} RunTracks(g: Signer, k: Key, ops: seq<Op>) returns (at: seq<nat>)
    requires Steady(g, k, ops)
    ensures var s := Run(g, Fresh(k), ops);
            && Tracks(g, s, at) && s.events == Given(ops)
            && (NoPurge(ops) ==> |at| == |s.log|)
  {
    hide Tracks, Step, InStep;
    if ops == [] {
      at := [];
      FreshTracks(g, k);
    } else {
      var front := ops[..|ops| - 1];
      var a := RunTracks(g, k, front);
      at := StepTracks(g, Run(g, Fresh(k), front), a, ops[|ops| - 1]);
      assert NoPurge(ops) ==> NoPurge(front);
    }
  }

  lemma FreshTracks(g: Signer, k: Key)
    ensures Tracks(g, Fresh(k), [])
  {
  }

  // ---- which runs are steady -------------------------------------------------------------

  /** What a restart would find, judged by the steps alone: the newest event appended, whether
      its row is still there, whether the tail in memory is the right one, whether the newest
      rows' cursor was saved, and whether any cursor ever was. */
  datatype Tail = Tail(newest: Option<Event>, kept: bool, held: bool, saved: bool, ever: bool)

  const NO_TAIL := Tail(None, false, true, true, false)

  function Appended(t: Tail, e: Event, saved: bool): Tail {
    Tail(Some(e), true, true, saved, t.ever || saved)
  }

  /** A lookup finds the right tail when it reads the cursor and the cursor is the right one, or
      finds no cursor and reads the newest row, which is still there. */
  predicate FindsTail(t: Tail, look: Lookup) {
    look.prepared && (if look.cursor && t.ever then t.saved else look.newest && t.kept)
  }

  function TailStep(g: Signer, t: Tail, op: Op): Tail {
    match op
    case Insert(e, saved) => Appended(t, e, saved)
    case Batch(es, saved) => if es == [] then t else Appended(t, es[|es| - 1], saved)
    case Failed => t
    case PurgeOlder(name, cutoff) =>
      t.(kept := t.kept && t.newest.Some? && !PastCutoff(g.write(t.newest.value), name, cutoff))
    case Reopen(_, look) => t.(held := t.newest.None? || FindsTail(t, look))
  }

  function TailAfter(g: Signer, ops: seq<Op>): Tail {
    if ops == [] then NO_TAIL else TailStep(g, TailAfter(g, ops[..|ops| - 1]), ops[|ops| - 1])
  }

  /** The stored cursor is the hex text of log row `p`'s MAC. */
  ghost predicate CursorAt(s: Sys, p: int) {
    0 <= p < |s.log| && s.store.cursor == Some(Encoded(s.log[p].mac))
  }

  ghost predicate CursorTells(s: Sys, t: Tail) {
    && (if t.ever then exists p :: CursorAt(s, p) && (t.saved <==> p == |s.log| - 1) else s.store.cursor == None)
    && (t.newest.Some? && t.saved ==> t.ever)
  }

  /** The newest event is the last one logged, and its row is in the table or not. */
  predicate NewestTells(g: Signer, s: Sys, t: Tail) {
    && |s.events| == |s.log|
    && (t.newest.None? <==> s.log == [])
    && (s.log != [] ==> t.newest == Some(s.events[|s.log| - 1]) && s.log[|s.log| - 1].cols == g.write(t.newest.value))
    && (t.kept <==> s.log != [] && s.log[|s.log| - 1] in s.store.rows)
  }

  ghost predicate Tells(g: Signer, s: Sys, t: Tail) {
    CursorTells(s, t) && NewestTells(g, s, t)
  }

  lemma AppendTells(g: Signer, s: Sys, t: Tail, e: Event, saved: bool)
    requires Tells(g, s, t)
    ensures Tells(g, AppendLogged(g, s, e, saved), Appended(t, e, saved))
  {
    var s' := AppendLogged(g, s, e, saved);
    if saved {
      assert CursorAt(s', |s'.log| - 1);
    } else if t.ever {
      var p :| CursorAt(s, p);
      assert CursorAt(s', p);
    }
  }

  lemma {:induction false} AppendAllTells(g: Signer, s: Sys, t: Tail, es: seq<Event>, saved: bool)
    requires Tells(g, s, t) && es != []
    ensures Tells(g, AppendAllLogged(g, s, es, saved), Appended(t, es[|es| - 1], saved))
  {
    hide Tells, AppendLogged;
    var front := es[..|es| - 1];
    if front == [] {
      assert AppendAllLogged(g, s, front, saved) == s;
      AppendTells(g, s, t, es[|es| - 1], saved);
    } else {
      AppendAllTells(g, s, t, front, saved);
      AppendTells(g, AppendAllLogged(g, s, front, saved), Appended(t, front[|front| - 1], saved), es[|es| - 1], saved);
    }
  }

  lemma {:induction false} RunTells(g: Signer, k: Key, ops: seq<Op>)
    ensures Tells(g, Run(g, Fresh(k), ops), TailAfter(g, ops))
  {
    hide Tells, AppendLogged;
    if ops == [] {
      FreshTells(g, k);
    } else {
      var front, op := ops[..|ops| - 1], ops[|ops| - 1];
      RunTells(g, k, front);
      var s, t := Run(g, Fresh(k), front), TailAfter(g, front);
      match op
      case Insert(e, saved) => AppendTells(g, s, t, e, saved);
      case Batch(es, saved) => if es != [] { AppendAllTells(g, s, t, es, saved); }
      case Failed =>
      case PurgeOlder(name, cutoff) => PurgeTells(g, s, t, name, cutoff);
      case Reopen(key, look) => ReopenTells(g, s, t, key, look);
    }
  }

  lemma FreshTells(g: Signer, k: Key)
    ensures Tells(g, Fresh(k), NO_TAIL)
  {
  }

  lemma ReopenTells(g: Signer, s: Sys, t: Tail, key: Key, look: Lookup)
    requires Tells(g, s, t)
    ensures Tells(g, Step(g, s, Reopen(key, look)), TailStep(g, t, Reopen(key, look)))
  {
    hide LoadTail;
    if t.ever {
      var p :| CursorAt(s, p) && (t.saved <==> p == |s.log| - 1);
      assert CursorAt(Step(g, s, Reopen(key, look)), p);
    }
  }

  lemma {:induction false} KeptSays<T>(s: seq<T>, keep: T -> bool, x: T)
    ensures x in Kept(s, keep) <==> x in s && keep(x)
  {
    if s != [] {
      KeptSays(s[..|s| - 1], keep, x);
      assert x in s <==> x in s[..|s| - 1] || x == s[|s| - 1];
    }
  }

  lemma PurgeTells(g: Signer, s: Sys, t: Tail, name: string, cutoff: int)
    requires Tells(g, s, t)
    ensures Tells(g, Step(g, s, PurgeOlder(name, cutoff)), TailStep(g, t, PurgeOlder(name, cutoff)))
  {
    hide Kept;
    var s' := Step(g, s, PurgeOlder(name, cutoff));
    if s.log != [] {
      KeptSays(s.store.rows, Unexpired(name, cutoff), s.log[|s.log| - 1]);
    }
    if t.ever {
      var p :| CursorAt(s, p) && (t.saved <==> p == |s.log| - 1);
      assert CursorAt(s', p);
    }
  }

  /** A cursor text the database wrote is read back. */
  lemma CursorReadBack(g: Signer, s: Sys, at: seq<nat>, p: nat, look: Lookup)
    requires Tracks(g, s, at) && CursorAt(s, p) && look.prepared && look.cursor
    ensures LoadTail(look, s.store.cursor, s.store.rows) == s.log[p].mac
  {
    var mac := s.log[p].mac;
    EncodedIsPlain(mac);
    RoundTrip(mac);
  }

  lemma EncodedIsPlain(b: Blob)
    ensures CStr(Encoded(b)) == Encoded(b)
  {
    hide CStr;
    EncodedNoNul(b);
    CStrKeeps(Encoded(b));
  }

  lemma {:induction false} EncodedNoNul(b: Blob)
    ensures NUL !in Encoded(b)
  {
    if b != [] {
      EncodedNoNul(b[..|b| - 1]);
      var x := b[|b| - 1];
      assert HEX[x / 16] != NUL && HEX[x % 16] != NUL;
    }
  }

  /** What a restart finds: with the right cursor, or with none to be had and the newest row
      still there, the right tail; otherwise an old one or none. */
  lemma ReopenFinds(g: Signer, s: Sys, at: seq<nat>, t: Tail, look: Lookup, key: Key)
    requires FramedBy(g) && Tracks(g, s, at) && Tells(g, s, t)
    ensures || HasCollision(g.hmac, SignedLinks(g, s.log, s.events))
            || (InStep(Step(g, s, Reopen(key, look))) <==> TailStep(g, t, Reopen(key, look)).held)
  {
    hide FramedBy, Tracks, CStr, HasCollision, LoadTail, CursorTells;
    if s.log == [] {
      NothingFound(g, s, at, t, look);
    } else if look.prepared && look.cursor && t.ever {
      CursorFound(g, s, at, t, look);
    } else {
      NoCursorFound(g, s, at, t, look);
    }
  }

  lemma NothingFound(g: Signer, s: Sys, at: seq<nat>, t: Tail, look: Lookup)
    requires Tracks(g, s, at) && Tells(g, s, t) && s.log == []
    ensures LoadTail(look, s.store.cursor, s.store.rows) == []
  {
    hide Chained;
  }

  /** The tail found is that of the row whose cursor was saved last. */
  lemma CursorFound(g: Signer, s: Sys, at: seq<nat>, t: Tail, look: Lookup)
    requires FramedBy(g) && Tracks(g, s, at) && Tells(g, s, t) && t.ever && look.prepared && look.cursor
    ensures || HasCollision(g.hmac, SignedLinks(g, s.log, s.events))
            || (LoadTail(look, s.store.cursor, s.store.rows) == NewestMac(s.log) <==> t.saved)
  {
    hide FramedBy, Tracks, LoadTail, Encoded, HasCollision;
    var p :| CursorAt(s, p) && (t.saved <==> p == |s.log| - 1);
    CursorReadBack(g, s, at, p, look);
    OtherMacs(g, s, at, p);
  }

  /** No other row carries the newest row's MAC. */
  lemma OtherMacs(g: Signer, s: Sys, at: seq<nat>, p: nat)
    requires FramedBy(g) && Tracks(g, s, at) && p < |s.log|
    ensures |s.events| == |s.log|
    ensures || HasCollision(g.hmac, SignedLinks(g, s.log, s.events))
            || (s.log[p].mac == NewestMac(s.log) <==> p == |s.log| - 1)
  {
    hide Says, FramedBy, Tracks, HasCollision;
    TracksCounts(g, s, at);
    if p < |s.log| - 1 {
      var links := SignedLinks(g, s.log, s.events);
      LinksSay(g, s.log, s.events);
      LinksFramed(g, links);
      MacsDistinct(g.hmac, links, p, |s.log| - 1);
    }
  }

  /** Where no cursor is to be had, the newest row decides, if it is still there. */
  lemma NoCursorFound(g: Signer, s: Sys, at: seq<nat>, t: Tail, look: Lookup)
    requires FramedBy(g) && Tracks(g, s, at) && s.log != [] && Tells(g, s, t)
    requires !(look.prepared && look.cursor && t.ever)
    ensures || HasCollision(g.hmac, SignedLinks(g, s.log, s.events))
            || (LoadTail(look, s.store.cursor, s.store.rows) == NewestMac(s.log)
                <==> look.prepared && look.newest && t.kept)
  {
    hide FramedBy, Tracks, HasCollision, CursorTells, NewestTells, LoadTail, NewestMac;
    NoCursor(s, t, look);
    NewestIsSome(g, s, at);
    NewestFound(g, s, at, t);
  }

  lemma NewestIsSome(g: Signer, s: Sys, at: seq<nat>)
    requires Tracks(g, s, at) && s.log != []
    ensures NewestMac(s.log) != []
  {
    hide Chained;
  }

  lemma NoCursor(s: Sys, t: Tail, look: Lookup)
    requires CursorTells(s, t) && !(look.prepared && look.cursor && t.ever)
    ensures LoadTail(look, s.store.cursor, s.store.rows)
         == if look.prepared && look.newest then NewestMac(s.store.rows) else []
  {
    hide NewestMac, CStr, Decoded;
  }

  lemma TracksPicks(g: Signer, s: Sys, at: seq<nat>)
    requires Tracks(g, s, at)
    ensures Positions(s.log, at) && s.store.rows == Pick(s.log, at)
  {
    hide Chained;
  }

  lemma NewestFound(g: Signer, s: Sys, at: seq<nat>, t: Tail)
    requires FramedBy(g) && Tracks(g, s, at) && s.log != [] && NewestTells(g, s, t)
    ensures || HasCollision(g.hmac, SignedLinks(g, s.log, s.events))
            || (NewestMac(s.store.rows) == NewestMac(s.log) <==> t.kept)
  {
    hide FramedBy, Tracks, HasCollision, SignedLinks;
    NewestIsSome(g, s, at);
    TracksPicks(g, s, at);
    var n := |at| - 1;
    if at != [] {
      OtherMacs(g, s, at, at[n]);
      if s.log[|s.log| - 1] in s.store.rows {
        var j :| 0 <= j <= n && s.store.rows[j] == s.log[|s.log| - 1];
        OtherMacs(g, s, at, at[j]);
      }
    }
  }

  /** Exactly which restarts lose the tail: the chain unbroken so far, the tail in memory is right
      if and only if nothing was appended yet, or nothing was restarted since the last append,
      or the last lookup read the cursor and the last save had worked, or it found no cursor and
      read the newest row, which no purge had taken. The next append after a wrong tail is
      chained to the wrong row. */
  lemma {:induction false} TailHeld(g: Signer, k: Key, ops: seq<Op>)
    requires FramedBy(g) && Steady(g, k, ops)
    ensures var s := Run(g, Fresh(k), ops);
            && |s.events| == |s.log|
            && (HasCollision(g.hmac, SignedLinks(g, s.log, s.events)) || (InStep(s) <==> TailAfter(g, ops).held))
  {
    hide FramedBy, Tracks, InStep, AppendLogged, Tells, Encoded;
    var at := RunTracks(g, k, ops);
    TracksCounts(g, Run(g, Fresh(k), ops), at);
    if ops == [] {
      FreshInStep(k);
    } else {
      var front, op := ops[..|ops| - 1], ops[|ops| - 1];
      TailHeld(g, k, front);
      var s := Run(g, Fresh(k), front);
      var a := RunTracks(g, k, front);
      RunTells(g, k, front);
      match op
      case Insert(e, saved) => AppendTracks(g, s, a, e, saved);
      case Batch(es, saved) => if es != [] { var b := AppendAllTracks(g, s, a, es, saved); }
      case Reopen(key, look) => ReopenFinds(g, s, a, TailAfter(g, front), look, key);
      case Failed =>
      case PurgeOlder(name, cutoff) => PurgeInStep(s, name, cutoff);
    }
  }

  lemma TracksCounts(g: Signer, s: Sys, at: seq<nat>)
    requires Tracks(g, s, at)
    ensures |s.events| == |s.log| && Chained(g.hmac, SignedLinks(g, s.log, s.events))
  {
    hide Chained;
  }

  lemma FreshInStep(k: Key)
    ensures InStep(Fresh(k))
  {
  }

  /** Every cursor is saved and every restart reads it. */
  predicate Faultless(ops: seq<Op>) {
    forall i | 0 <= i < |ops| ::
      && (ops[i].Insert? ==> ops[i].saved)
      && (ops[i].Batch? ==> ops[i].saved)
      && (ops[i].Reopen? ==> ops[i].look.prepared && ops[i].look.cursor)
  }

  /** As long as the cursor can be saved and looked up, a run is steady, purges or not, and the
      tail in memory is always the newest appended row's MAC. */
  lemma {:induction false} FaultlessIsSteady(g: Signer, k: Key, ops: seq<Op>)
    requires Faultless(ops)
    ensures Steady(g, k, ops) && InStep(Run(g, Fresh(k), ops)) && TailAfter(g, ops).saved
    ensures TailAfter(g, ops).newest.Some? ==> TailAfter(g, ops).ever
  {
    hide InStep, AppendLogged, Tells, LoadTail;
    if ops == [] {
      FreshInStep(k);
    } else {
      var front, op := ops[..|ops| - 1], ops[|ops| - 1];
      assert Faultless(front) && op == ops[|ops| - 1];
      FaultlessIsSteady(g, k, front);
      var s := Run(g, Fresh(k), front);
      var a := RunTracks(g, k, front);
      RunTells(g, k, front);
      match op
      case Insert(e, saved) => AppendTracks(g, s, a, e, saved);
      case Batch(es, saved) => if es != [] { var b := AppendAllTracks(g, s, a, es, saved); }
      case Reopen(key, look) => SavedIsFound(g, s, a, TailAfter(g, front), key, look);
      case Failed =>
      case PurgeOlder(name, cutoff) => PurgeInStep(s, name, cutoff);
    }
  }

  lemma PurgeInStep(s: Sys, name: string, cutoff: int)
    ensures InStep(s.(store := Purge(s.store, name, cutoff))) <==> InStep(s)
  {
  }

  lemma SavedIsFound(g: Signer, s: Sys, at: seq<nat>, t: Tail, key: Key, look: Lookup)
    requires Tracks(g, s, at) && Tells(g, s, t) && t.saved && look.prepared && look.cursor
    ensures InStep(Step(g, s, Reopen(key, look)))
  {
    hide Chained, LoadTail;
    if s.log == [] {
      NothingFound(g, s, at, t, look);
    } else {
      CursorReadBack(g, s, at, |s.log| - 1, look);
    }
  }

  lemma {:induction false} FullPositions<T>(log: seq<T>, at: seq<nat>, i: nat)
    requires Positions(log, at) && |at| == |log| && i < |at|
    ensures at[i] == i
  {
    AtLeast(log, at, i);
    AtMost(log, at, i);
  }

  lemma {:induction false} AtLeast<T>(log: seq<T>, at: seq<nat>, i: nat)
    requires Positions(log, at) && i < |at|
    ensures i <= at[i]
  {
    if i > 0 {
      AtLeast(log, at, i - 1);
    }
  }

  lemma {:induction false} AtMost<T>(log: seq<T>, at: seq<nat>, i: nat)
    requires Positions(log, at) && |at| == |log| && i < |at|
    ensures at[i] <= i
    decreases |at| - i
  {
    if i + 1 < |at| {
      AtMost(log, at, i + 1);
    }
  }

  lemma PickWhole<T>(log: seq<T>, at: seq<nat>)
    requires Positions(log, at) && |at| == |log|
    ensures Pick(log, at) == log
  {
    forall i | 0 <= i < |at| ensures at[i] == i {
      FullPositions(log, at, i);
    }
  }

  // ---- what the scan says of a run ---------------------------------------------------------

  /** What is wrong with survivor `j` of a run: a row of the scanned key directly after a hole,
      or one whose event does not come back from its columns as it was signed. */
  function RowFlaw(g: Signer, k: Key, log: seq<Row>, events: seq<Event>, at: seq<nat>, j: int): Reason
    requires |events| == |log| && (forall i | 0 <= i < |at| :: at[i] < |log|)
  {
    if !(0 <= j < |at|) || log[at[j]].fingerprint != k.fingerprint then Fine
    else if HoleBefore(at, j) then PrevMacMismatch
    else if !g.legible(events[at[j]]) then MacMismatch
    else Fine
  }

  /** The messages signed and the messages read back. */
  function Evidence(g: Signer, s: Sys): seq<Link>
    requires |s.events| == |s.log|
  {
    SignedLinks(g, s.log, s.events) + Links(g, s.log)
  }

  lemma ReadBack(g: Signer, s: Sys, at: seq<nat>, i: int)
    requires LegibleBy(g) && Tracks(g, s, at)
    ensures RereadAt(SignedLinks(g, s.log, s.events), Links(g, s.log), i)
    ensures 0 <= i < |s.log| ==>
      (Unchanged(SignedLinks(g, s.log, s.events), Links(g, s.log), i) <==> g.legible(s.events[i]))
  {
    hide Chained;
  }

  /** What the scan says about each row of a run's table, whatever the key. */
  lemma RowsJudged(g: Signer, k: Key, s: Sys, at: seq<nat>, j: nat)
    requires Sound(g) && Tracks(g, s, at) && j < |at|
    ensures |s.events| == |s.log|
    ensures HasCollision(g.hmac, Evidence(g, s))
            || Judged(g.hmac, k, Links(g, s.store.rows), j) == RowFlaw(g, k, s.log, s.events, at, j)
  {
    hide Says, Chained, FramedBy, Judged, Pick;
    var log, read := SignedLinks(g, s.log, s.events), Links(g, s.log);
    LinksPick(g, s.log, at);
    LinksSay(g, s.log, s.events);
    LinksFramed(g, log);
    forall i ensures RereadAt(log, read, i) {
      ReadBack(g, s, at, i);
    }
    ReadBack(g, s, at, at[j]);
    SurvivorsJudged(g.hmac, k, log, read, at, j);
  }

  /** The report that goes with the rows' flaws: clean if there is none, otherwise the first. */
  ghost predicate ReportsFlaws(g: Signer, k: Key, s: Sys, at: seq<nat>, v: Verdict)
    requires |s.events| == |s.log| && (forall i | 0 <= i < |at| :: at[i] < |s.log|)
  {
    if forall j :: RowFlaw(g, k, s.log, s.events, at, j) == Fine then v == Verdict(|at|, 0, Fine)
    else
      && 0 < v.scanned <= |at|
      && v.reason == RowFlaw(g, k, s.log, s.events, at, v.scanned - 1) != Fine
      && v.firstBadId == s.log[at[v.scanned - 1]].id
      && (forall j | j < v.scanned - 1 :: RowFlaw(g, k, s.log, s.events, at, j) == Fine)
  }

  lemma FlawsReported(g: Signer, k: Key, s: Sys, at: seq<nat>, v: Verdict)
    requires Sound(g) && Tracks(g, s, at) && Reports(g.hmac, k, Links(g, s.store.rows), v)
    ensures |s.events| == |s.log| && Positions(s.log, at)
    ensures HasCollision(g.hmac, Evidence(g, s)) || ReportsFlaws(g, k, s, at, v)
  {
    hide Chained, Sound, LinkOf, HasCollision, Evidence;
    var read := Links(g, s.store.rows);
    if !HasCollision(g.hmac, Evidence(g, s)) {
      forall j ensures Judged(g.hmac, k, read, j) == RowFlaw(g, k, s.log, s.events, at, j) {
        if 0 <= j < |at| {
          RowsJudged(g, k, s, at, j);
        }
      }
      RowIds(g, s.store.rows);
    }
  }

  lemma RowIds(g: Signer, rows: seq<Row>)
    ensures forall j | 0 <= j < |rows| :: Links(g, rows)[j].id == rows[j].id
  {
  }

  /** Completeness over every steady run without purges: whatever was inserted, batched, rolled
      back, reopened and re-keyed, the table is the events given, and the scan under any key
      reports nothing but rows of that key whose event does not come back as it was signed:
      it stops at the first of them with mac_mismatch, and is clean if there is none. */
  lemma RunVerdict(g: Signer, k: Key, ops: seq<Op>, scanKey: Key, v: Verdict)
    requires Sound(g) && NoPurge(ops) && Steady(g, k, ops)
    requires Reports(g.hmac, scanKey, Links(g, Run(g, Fresh(k), ops).store.rows), v)
    ensures var s := Run(g, Fresh(k), ops);
            && |s.events| == |s.log| == |s.store.rows| && s.events == Given(ops) && s.log == s.store.rows
            && (forall i | 0 <= i < |s.log| :: s.store.rows[i].cols == g.write(Given(ops)[i]))
            && (HasCollision(g.hmac, Evidence(g, s)) || ReportsFlaws(g, scanKey, s, Everywhere(|s.log|), v))
  {
    hide Sound, Steady, Reports, ReportsFlaws, HasCollision, Evidence;
    var s := Run(g, Fresh(k), ops);
    var at := RunTracks(g, k, ops);
    PickWhole(s.log, at);
    WholeIsEverywhere(s.log, at);
    FlawsReported(g, scanKey, s, at, v);
  }

  function Everywhere(n: nat): seq<nat> {
    seq(n, i requires 0 <= i < n => i)
  }

  lemma WholeIsEverywhere<T>(log: seq<T>, at: seq<nat>)
    requires Positions(log, at) && |at| == |log|
    ensures at == Everywhere(|log|)
  {
    forall i | 0 <= i < |at| ensures at[i] == i {
      FullPositions(log, at, i);
    }
  }

  /** The audit trail's own chain: a run without purges that kept its tail is clean under a key
      if and only if no event signed under that key holds a NUL in a text, or the MAC collides;
      otherwise the scan stops with mac_mismatch at the first row that does. */
  lemma RunIsClean(h: Hmac, k: Key, ops: seq<Op>, scanKey: Key, v: Verdict)
    requires NoPurge(ops) && Steady(AuditSigner(h), k, ops)
    requires Reports(h, scanKey, Links(AuditSigner(h), Run(AuditSigner(h), Fresh(k), ops).store.rows), v)
    ensures var s := Run(AuditSigner(h), Fresh(k), ops);
            && |s.events| == |s.log| && s.store.rows == s.log && s.events == Given(ops)
            && (forall i | 0 <= i < |s.log| :: s.store.rows[i].cols == WriteColumns(Given(ops)[i]))
            && (|| HasCollision(h, Evidence(AuditSigner(h), s))
                || (if forall i | 0 <= i < |s.log| && s.log[i].fingerprint == scanKey.fingerprint
                                :: NulFree(s.events[i])
                    then v == Verdict(|s.log|, 0, Fine)
                    else
                      && v.reason == MacMismatch
                      && 0 < v.scanned <= |s.log| && v.firstBadId == s.log[v.scanned - 1].id
                      && s.log[v.scanned - 1].fingerprint == scanKey.fingerprint && !NulFree(s.events[v.scanned - 1])
                      && (forall i | 0 <= i < v.scanned - 1 && s.log[i].fingerprint == scanKey.fingerprint ::
                            NulFree(s.events[i]))))
  {
    hide Sound, Steady, Reports, ReportsFlaws, Run, Given, HasCollision, Evidence,
         WriteColumns, NulFree, SignText, RowText;
    var g := AuditSigner(h);
    AuditSignerSound(h);
    RunVerdict(g, k, ops, scanKey, v);
    var s := Run(g, Fresh(k), ops);
    if !HasCollision(h, Evidence(g, s)) {
      VerdictOfTexts(h, scanKey, s, v);
    }
  }

  lemma VerdictOfTexts(h: Hmac, k: Key, s: Sys, v: Verdict)
    requires |s.events| == |s.log| && ReportsFlaws(AuditSigner(h), k, s, Everywhere(|s.log|), v)
    ensures if forall i | 0 <= i < |s.log| && s.log[i].fingerprint == k.fingerprint :: NulFree(s.events[i])
            then v == Verdict(|s.log|, 0, Fine)
            else
              && v.reason == MacMismatch
              && 0 < v.scanned <= |s.log| && v.firstBadId == s.log[v.scanned - 1].id
              && s.log[v.scanned - 1].fingerprint == k.fingerprint && !NulFree(s.events[v.scanned - 1])
              && (forall i | 0 <= i < v.scanned - 1 && s.log[i].fingerprint == k.fingerprint :: NulFree(s.events[i]))
  {
    hide NulFree, SignText, RowText, WriteColumns;
    var g, at := AuditSigner(h), Everywhere(|s.log|);
    if forall j :: RowFlaw(g, k, s.log, s.events, at, j) == Fine {
      forall i | 0 <= i < |s.log| && s.log[i].fingerprint == k.fingerprint ensures NulFree(s.events[i]) {
        assert RowFlaw(g, k, s.log, s.events, at, i) == Fine;
      }
    } else {
      forall i | 0 <= i < v.scanned - 1 && s.log[i].fingerprint == k.fingerprint ensures NulFree(s.events[i]) {
        assert RowFlaw(g, k, s.log, s.events, at, i) == Fine;
      }
    }
  }

  /** The smallest case: one event whose user name holds a NUL, as a login attempt may send it,
      and the trail never verifies again under that key. */
  lemma NulBreaksTheTrail(h: Hmac, k: Key, e: Event, saved: bool, v: Verdict)
    requires NUL in e.actorUsername
    requires Reports(h, k, Links(AuditSigner(h), Run(AuditSigner(h), Fresh(k), [Insert(e, saved)]).store.rows), v)
    ensures var s := Run(AuditSigner(h), Fresh(k), [Insert(e, saved)]);
            && |s.events| == |s.log|
            && (HasCollision(h, Evidence(AuditSigner(h), s)) || v == Verdict(1, 1, MacMismatch))
  {
    hide Reports, HasCollision, Evidence, AuditSigner, NewRow;
    var g, ops := AuditSigner(h), [Insert(e, saved)];
    OneInsert(g, k, e, saved);
    RunIsClean(h, k, ops, k, v);
    var s := Run(g, Fresh(k), ops);
    assert s.log[0].fingerprint == k.fingerprint && !NulFree(s.events[0]);
  }

  lemma OneInsert(g: Signer, k: Key, e: Event, saved: bool)
    ensures Steady(g, k, [Insert(e, saved)])
    ensures var s := Run(g, Fresh(k), [Insert(e, saved)]);
            s.log == [NewRow(g, k, EMPTY, e)] && s.log[0].id == 1 && s.log[0].fingerprint == k.fingerprint
            && s.events == [e]
  {
    var ops, none: seq<Op> := [Insert(e, saved)], [];
    assert ops[..0] == none && Run(g, Fresh(k), none) == Fresh(k);
    FreshInStep(k);
    assert Steady(g, k, none);
  }

  /** After any steady run with purges, the scan under key `k` flags exactly the rows of that
      key with a hole directly before them, and of the others those whose event does not come
      back as it was signed; holes before rows of other keys go unflagged. */
  lemma PurgedRunJudged(g: Signer, k: Key, ops: seq<Op>, scanKey: Key) returns (at: seq<nat>)
    requires Sound(g) && Steady(g, k, ops)
    ensures var s := Run(g, Fresh(k), ops);
            && |s.events| == |s.log| && s.events == Given(ops)
            && Positions(s.log, at) && s.store.rows == Pick(s.log, at)
            && (HasCollision(g.hmac, Evidence(g, s))
                || forall j | 0 <= j < |at| ::
                     Judged(g.hmac, scanKey, Links(g, s.store.rows), j) == RowFlaw(g, scanKey, s.log, s.events, at, j))
  {
    hide Sound, Steady, HasCollision, Evidence, Judged, RowFlaw;
    var s := Run(g, Fresh(k), ops);
    at := RunTracks(g, k, ops);
    forall j | 0 <= j < |at|
      ensures HasCollision(g.hmac, Evidence(g, s))
              || Judged(g.hmac, scanKey, Links(g, s.store.rows), j) == RowFlaw(g, scanKey, s.log, s.events, at, j)
    {
      RowsJudged(g, scanKey, s, at, j);
    }
  }

  predicate Contiguous(at: seq<nat>) {
    forall j | 0 < j < |at| :: at[j] == at[j - 1] + 1
  }

  predicate KeepsKey(ops: seq<Op>, k: Key) {
    forall i | 0 <= i < |ops| && ops[i].Reopen? :: ops[i].key == k
  }

  predicate OnlyKey(log: seq<Row>, k: Key) {
    forall i | 0 <= i < |log| :: log[i].fingerprint == k.fingerprint
  }

  lemma {:induction false} OneKey(g: Signer, k: Key, ops: seq<Op>)
    requires KeepsKey(ops, k)
    ensures Run(g, Fresh(k), ops).key == k && OnlyKey(Run(g, Fresh(k), ops).log, k)
  {
    if ops != [] {
      var front := ops[..|ops| - 1];
      OneKey(g, k, front);
      if ops[|ops| - 1].Batch? {
        OneKeyBatch(g, Run(g, Fresh(k), front), ops[|ops| - 1].es, ops[|ops| - 1].saved);
      }
    }
  }

  lemma {:induction false} OneKeyBatch(g: Signer, s: Sys, es: seq<Event>, saved: bool)
    requires OnlyKey(s.log, s.key)
    ensures AppendAllLogged(g, s, es, saved).key == s.key
    ensures OnlyKey(AppendAllLogged(g, s, es, saved).log, s.key)
  {
    if es != [] {
      OneKeyBatch(g, s, es[..|es| - 1], saved);
    }
  }

  /** What purging does to verification of a single-key chain: the scan stays clean exactly
      when the survivors are contiguous in the log and none of them holds a NUL; otherwise it
      stops at the first survivor that comes after a hole (prev_mac_mismatch) or holds a NUL
      (mac_mismatch), the hole first. */
  lemma PurgedRunVerdict(h: Hmac, k: Key, ops: seq<Op>, v: Verdict) returns (at: seq<nat>)
    requires Steady(AuditSigner(h), k, ops) && KeepsKey(ops, k)
    requires Reports(h, k, Links(AuditSigner(h), Run(AuditSigner(h), Fresh(k), ops).store.rows), v)
    ensures var s := Run(AuditSigner(h), Fresh(k), ops);
            && |s.events| == |s.log| && s.events == Given(ops)
            && Positions(s.log, at) && s.store.rows == Pick(s.log, at)
            && (|| HasCollision(h, Evidence(AuditSigner(h), s))
                || (if Contiguous(at) && (forall j | 0 <= j < |at| :: NulFree(s.events[at[j]]))
                    then v == Verdict(|at|, 0, Fine)
                    else
                      && 0 < v.scanned <= |at| && v.firstBadId == s.log[at[v.scanned - 1]].id
                      && Contiguous(at[..v.scanned - 1])
                      && (forall j | 0 <= j < v.scanned - 1 :: NulFree(s.events[at[j]]))
                      && (if HoleBefore(at, v.scanned - 1) then v.reason == PrevMacMismatch
                          else v.reason == MacMismatch && !NulFree(s.events[at[v.scanned - 1]]))))
  {
    hide Steady, Reports, Run, Given, HasCollision, Evidence, WriteColumns, NulFree, SignText, RowText;
    var g := AuditSigner(h);
    var s := Run(g, Fresh(k), ops);
    at := RunTracks(g, k, ops);
    AuditSignerSound(h);
    OneKey(g, k, ops);
    FlawsReported(g, k, s, at, v);
    if !HasCollision(h, Evidence(g, s)) {
      VerdictOfFlaws(h, k, s, at, v);
    }
  }

  lemma VerdictOfFlaws(h: Hmac, k: Key, s: Sys, at: seq<nat>, v: Verdict)
    requires |s.events| == |s.log| && Positions(s.log, at) && OnlyKey(s.log, k)
    requires ReportsFlaws(AuditSigner(h), k, s, at, v)
    ensures if Contiguous(at) && (forall j | 0 <= j < |at| :: NulFree(s.events[at[j]])) then v == Verdict(|at|, 0, Fine)
            else
              && 0 < v.scanned <= |at| && v.firstBadId == s.log[at[v.scanned - 1]].id
              && Contiguous(at[..v.scanned - 1])
              && (forall j | 0 <= j < v.scanned - 1 :: NulFree(s.events[at[j]]))
              && (if HoleBefore(at, v.scanned - 1) then v.reason == PrevMacMismatch
                  else v.reason == MacMismatch && !NulFree(s.events[at[v.scanned - 1]]))
  {
    hide NulFree, SignText, RowText, WriteColumns;
    var g := AuditSigner(h);
    forall j | 0 <= j < |at|
      ensures RowFlaw(g, k, s.log, s.events, at, j)
           == if HoleBefore(at, j) then PrevMacMismatch else if !NulFree(s.events[at[j]]) then MacMismatch else Fine
    {
    }
    if forall j :: RowFlaw(g, k, s.log, s.events, at, j) == Fine {
      forall j | 0 < j < |at| ensures at[j] == at[j - 1] + 1 {
        assert RowFlaw(g, k, s.log, s.events, at, j) == Fine;
      }
      forall j | 0 <= j < |at| ensures NulFree(s.events[at[j]]) {
        assert RowFlaw(g, k, s.log, s.events, at, j) == Fine;
      }
    } else {
      var n := v.scanned - 1;
      forall j | 0 < j < n ensures at[j] == at[j - 1] + 1 {
        assert RowFlaw(g, k, s.log, s.events, at, j) == Fine;
      }
      forall j | 0 <= j < n ensures NulFree(s.events[at[j]]) {
        assert RowFlaw(g, k, s.log, s.events, at, j) == Fine;
      }
    }
  }

  // ---- the exact condition for a clean trail -----------------------------------------------

  /** Whenever something was appended, the steps before it had left the right tail behind. */
  predicate KeptTail(g: Signer, ops: seq<Op>) {
    ops == [] ||
      (var front := ops[..|ops| - 1];
       KeptTail(g, front) && (GivenBy(ops[|ops| - 1]) != [] ==> TailAfter(g, front).held))
  }

  /** What is recorded is never changed, and without a purge no row goes. */
  predicate Grown(s: Sys, s': Sys, purge: bool) {
    && s.log <= s'.log && s.events <= s'.events && |s.events| == |s.log| && |s'.events| == |s'.log|
    && (!purge ==> s.store.rows <= s'.store.rows)
  }

  lemma AppendGrows(g: Signer, s: Sys, e: Event, saved: bool)
    requires |s.events| == |s.log|
    ensures Grown(s, AppendLogged(g, s, e, saved), false)
  {
  }

  lemma {:induction false} AppendAllGrows(g: Signer, s: Sys, es: seq<Event>, saved: bool)
    requires |s.events| == |s.log|
    ensures Grown(s, AppendAllLogged(g, s, es, saved), false)
    ensures es != [] ==> Grown(AppendLogged(g, s, es[0], saved), AppendAllLogged(g, s, es, saved), false)
  {
    hide AppendLogged;
    if es != [] {
      var front := es[..|es| - 1];
      AppendAllGrows(g, s, front, saved);
      AppendGrows(g, AppendAllLogged(g, s, front, saved), es[|es| - 1], saved);
      if front == [] {
        assert AppendAllLogged(g, s, front, saved) == s;
      }
    }
  }

  lemma StepGrows(g: Signer, s: Sys, op: Op)
    requires |s.events| == |s.log|
    ensures Grown(s, Step(g, s, op), op.PurgeOlder?)
  {
    hide AppendLogged;
    match op
    case Insert(e, saved) => AppendGrows(g, s, e, saved);
    case Batch(es, saved) => AppendAllGrows(g, s, es, saved);
    case Failed =>
    case PurgeOlder(_, _) =>
    case Reopen(_, _) =>
  }

  lemma {:induction false} RunCounts(g: Signer, k: Key, ops: seq<Op>)
    ensures |Run(g, Fresh(k), ops).events| == |Run(g, Fresh(k), ops).log|
    ensures ops != [] ==> Grown(Run(g, Fresh(k), ops[..|ops| - 1]), Run(g, Fresh(k), ops), ops[|ops| - 1].PurgeOlder?)
  {
    hide Step;
    if ops != [] {
      var front := ops[..|ops| - 1];
      RunCounts(g, k, front);
      StepGrows(g, Run(g, Fresh(k), front), ops[|ops| - 1]);
    }
  }

  lemma CollisionGrows(g: Signer, s: Sys, s': Sys, purge: bool)
    requires Grown(s, s', purge) && HasCollision(g.hmac, SignedLinks(g, s.log, s.events))
    ensures HasCollision(g.hmac, SignedLinks(g, s'.log, s'.events))
  {
    hide HasCollision, SignedLink;
    var links, links' := SignedLinks(g, s.log, s.events), SignedLinks(g, s'.log, s'.events);
    CollisionWithin(g.hmac, links, links'[|links|..]);
    assert links' == links + links'[|links|..];
  }

  /** Whether the tail was right at every append can be read off the steps. */
  lemma {:induction false} SteadyMeans(g: Signer, k: Key, ops: seq<Op>)
    requires FramedBy(g)
    ensures var s := Run(g, Fresh(k), ops);
            && |s.events| == |s.log|
            && (HasCollision(g.hmac, SignedLinks(g, s.log, s.events)) || (Steady(g, k, ops) <==> KeptTail(g, ops)))
  {
    hide FramedBy, Run, HasCollision, InStep;
    RunCounts(g, k, ops);
    if ops != [] {
      var front := ops[..|ops| - 1];
      SteadyMeans(g, k, front);
      var s := Run(g, Fresh(k), front);
      if Steady(g, k, front) {
        TailHeld(g, k, front);
      }
      if HasCollision(g.hmac, SignedLinks(g, s.log, s.events)) {
        CollisionGrows(g, s, Run(g, Fresh(k), ops), ops[|ops| - 1].PurgeOlder?);
      }
    }
  }

  lemma {:induction false} NoneIsHeld(g: Signer, ops: seq<Op>)
    ensures TailAfter(g, ops).newest.Some? || TailAfter(g, ops).held
  {
    if ops != [] {
      NoneIsHeld(g, ops[..|ops| - 1]);
    }
  }

  lemma NothingAppended(g: Signer, k: Key, ops: seq<Op>)
    requires FramedBy(g) && Steady(g, k, ops) && Run(g, Fresh(k), ops).log == []
    ensures InStep(Run(g, Fresh(k), ops))
  {
    hide FramedBy, Steady, InStep;
    TailHeld(g, k, ops);
    RunTells(g, k, ops);
    NoneIsHeld(g, ops);
  }

  lemma CleanPrefix(g: Signer, k: Key, rows: seq<Row>, more: seq<Row>)
    requires rows <= more && Clean(g.hmac, k, Links(g, more))
    ensures Clean(g.hmac, k, Links(g, rows))
  {
    hide LinkOf, Clean;
    EndsMayBeCut(g.hmac, k, Links(g, more), 0, |rows|);
    assert Links(g, more)[0..|rows|] == Links(g, rows);
  }

  /** A row appended with the wrong tail in memory does not follow the one before it. */
  lemma WrongTailShows(g: Signer, k: Key, s: Sys, at: seq<nat>, e: Event, saved: bool)
    requires Tracks(g, s, at) && |at| == |s.log| && s.log != [] && !InStep(s) && s.key == k
    ensures !Clean(g.hmac, k, Links(g, AppendLogged(g, s, e, saved).store.rows))
  {
    hide Clean, Tracks;
    WholeTable(g, s, at);
    var n, r := |s.log|, NewRow(g, s.key, s.store, e);
    var links := Links(g, s.log + [r]);
    assert links[n] == LinkOf(g, r) && links[n - 1] == LinkOf(g, s.log[n - 1]);
    BadLink(g.hmac, k, links, n);
  }

  lemma WholeTable(g: Signer, s: Sys, at: seq<nat>)
    requires Tracks(g, s, at) && |at| == |s.log|
    ensures s.store.rows == s.log
  {
    hide Chained;
    PickWhole(s.log, at);
  }

  lemma BadLink(h: Hmac, k: Key, s: seq<Link>, n: nat)
    requires 0 < n < |s| && s[n].fingerprint == k.fingerprint && s[n].prev != s[n - 1].mac
    ensures !Clean(h, k, s)
  {
    assert Judged(h, k, s, n) == PrevMacMismatch;
  }

  lemma {:induction false} UnsteadyIsBroken(g: Signer, k: Key, ops: seq<Op>)
    requires FramedBy(g) && NoPurge(ops) && KeepsKey(ops, k) && !Steady(g, k, ops)
    ensures !Clean(g.hmac, k, Links(g, Run(g, Fresh(k), ops).store.rows))
  {
    hide FramedBy, InStep, Clean, Links, Tracks, AppendLogged;
    var front, op := ops[..|ops| - 1], ops[|ops| - 1];
    assert NoPurge(front) && KeepsKey(front, k);
    var s, s' := Run(g, Fresh(k), front), Run(g, Fresh(k), ops);
    RunCounts(g, k, ops);
    if Clean(g.hmac, k, Links(g, s'.store.rows)) {
      if !Steady(g, k, front) {
        UnsteadyIsBroken(g, k, front);
        CleanPrefix(g, k, s.store.rows, s'.store.rows);
      } else {
        var at := RunTracks(g, k, front);
        OneKey(g, k, front);
        if s.log == [] {
          NothingAppended(g, k, front);
        }
        var e, saved := GivenBy(op)[0], op.saved;
        FirstGiven(g, s, op, e, saved);
        CleanPrefix(g, k, AppendLogged(g, s, e, saved).store.rows, s'.store.rows);
        WrongTailShows(g, k, s, at, e, saved);
      }
    }
  }

  lemma FirstGiven(g: Signer, s: Sys, op: Op, e: Event, saved: bool)
    requires GivenBy(op) != [] && e == GivenBy(op)[0] && saved == op.saved && |s.events| == |s.log|
    ensures AppendLogged(g, s, e, saved).store.rows <= Step(g, s, op).store.rows
  {
    hide AppendLogged;
    if op.Batch? {
      AppendAllGrows(g, s, op.es, saved);
    }
  }

  /** When a trail without purges, signed under one key, verifies: exactly when no event holds
      a NUL in a text, and at every append the steps before it had left the right tail behind;
      anything else shows, unless the MAC collides. */
  lemma TrailVerifiesIff(h: Hmac, k: Key, ops: seq<Op>)
    requires NoPurge(ops) && KeepsKey(ops, k)
    ensures var s := Run(AuditSigner(h), Fresh(k), ops);
            && |s.events| == |s.log|
            && (|| HasCollision(h, Evidence(AuditSigner(h), s))
                || (Clean(h, k, Links(AuditSigner(h), s.store.rows))
                    <==> KeptTail(AuditSigner(h), ops) && (forall i | 0 <= i < |Given(ops)| :: NulFree(Given(ops)[i]))))
  {
    hide Sound, Run, Steady, KeptTail, KeepsKey, Clean, HasCollision, Links, NulFree, SignText, RowText, WriteColumns;
    var g := AuditSigner(h);
    AuditSignerSound(h);
    SoundIsFramed(g);
    SteadyMeans(g, k, ops);
    var s := Run(g, Fresh(k), ops);
    if HasCollision(h, SignedLinks(g, s.log, s.events)) {
      CollisionWithin(h, SignedLinks(g, s.log, s.events), Links(g, s.log));
    } else if !Steady(g, k, ops) {
      UnsteadyIsBroken(g, k, ops);
    } else {
      SteadyVerifiesIff(h, k, ops);
    }
  }

  lemma SoundIsFramed(g: Signer)
    requires Sound(g)
    ensures FramedBy(g)
  {
  }

  lemma SteadyVerifiesIff(h: Hmac, k: Key, ops: seq<Op>)
    requires NoPurge(ops) && KeepsKey(ops, k) && Steady(AuditSigner(h), k, ops)
    ensures var s := Run(AuditSigner(h), Fresh(k), ops);
            && |s.events| == |s.log|
            && (|| HasCollision(h, Evidence(AuditSigner(h), s))
                || (Clean(h, k, Links(AuditSigner(h), s.store.rows))
                    <==> forall i | 0 <= i < |Given(ops)| :: NulFree(Given(ops)[i])))
  {
    hide Run, Steady, KeepsKey, Clean, HasCollision, Evidence, Given, NulFree, AuditSigner, WriteColumns;
    var g := AuditSigner(h);
    var s := Run(g, Fresh(k), ops);
    var v := ReportOf(h, k, Links(g, s.store.rows));
    RunIsClean(h, k, ops, k, v);
    OneKey(g, k, ops);
    CleanMeans(h, k, Links(g, s.store.rows), v);
  }

  lemma CleanMeans(h: Hmac, k: Key, s: seq<Link>, v: Verdict)
    requires Reports(h, k, s, v)
    ensures Clean(h, k, s) <==> v.reason == Fine
  {
  }

  /** Every table has a report. */
  lemma {:induction false} ReportOf(h: Hmac, k: Key, s: seq<Link>) returns (v: Verdict)
    ensures Reports(h, k, s, v)
  {
    hide Judged;
    if s == [] {
      v := Verdict(0, 0, Fine);
      EmptyIsClean(h, k);
    } else {
      var n := |s| - 1;
      var w := ReportOf(h, k, s[..n]);
      JudgedPrefix(h, k, s, n);
      v := if w.reason != Fine then w
           else if Judged(h, k, s, n) == Fine then Verdict(|s|, 0, Fine)
           else Verdict(|s|, s[n].id, Judged(h, k, s, n));
    }
  }

  lemma EmptyIsClean(h: Hmac, k: Key)
    ensures Clean(h, k, [])
  {
  }

  lemma JudgedPrefix(h: Hmac, k: Key, s: seq<Link>, n: nat)
    requires n + 1 == |s|
    ensures forall i | i != n :: Judged(h, k, s, i) == Judged(h, k, s[..n], i)
    ensures Judged(h, k, s[..n], n) == Fine
  {
  }

  /** A batch that succeeds leaves the table, the cursor and the tail exactly as inserting
      its events one by one does. */
  lemma {:induction false} BatchIsInserts(g: Signer, s: Sys, es: seq<Event>, saved: bool)
    ensures Step(g, s, Batch(es, saved)) == Run(g, s, seq(|es|, i requires 0 <= i < |es| => Insert(es[i], saved)))
  {
    hide AppendLogged;
    var ops := seq(|es|, i requires 0 <= i < |es| => Insert(es[i], saved));
    if es != [] {
      var front := es[..|es| - 1];
      BatchIsInserts(g, s, front, saved);
      assert ops[..|ops| - 1] == seq(|front|, i requires 0 <= i < |front| => Insert(front[i], saved));
    }
  }

  /** What the tail in memory is worth, whatever the cursor said and whether or not it could be
      looked up: a clean single-key table stays clean through the next insert exactly when the
      tail is the newest row's MAC and the new row's columns re-derive its MAC. */
  lemma TailThenInsert(g: Signer, k: Key, st: Store, tail: Blob, e: Event, saved: bool)
    requires st.rows != [] && Clean(g.hmac, k, Links(g, st.rows))
    ensures Clean(g.hmac, k, Links(g, Append(g, k, st.(lastMac := tail), e, saved).rows))
            <==> tail == NewestMac(st.rows) && g.hmac(k, g.message(tail, g.write(e))) == g.hmac(k, g.sign(tail, e))
  {
    var r := NewRow(g, k, st.(lastMac := tail), e);
    var n := |st.rows|;
    var s := Links(g, st.rows + [r]);
    assert s[n] == LinkOf(g, r) && s[n - 1] == Links(g, st.rows)[n - 1];
    forall i | i < n ensures Judged(g.hmac, k, s, i) == Fine {
      assert Judged(g.hmac, k, Links(g, st.rows), i) == Fine;
      assert 0 <= i ==> s[i] == Links(g, st.rows)[i];
      assert 0 < i ==> s[i - 1] == Links(g, st.rows)[i - 1];
    }
    assert Judged(g.hmac, k, s, n)
        == if tail != NewestMac(st.rows) then PrevMacMismatch
           else if g.hmac(k, g.message(tail, g.write(e))) != g.hmac(k, g.sign(tail, e)) then MacMismatch
           else Fine;
  }

  /** Soundness over every steady run: whatever has been done to the table since, if the scan
      is clean and every MAC it shows under the current key was issued during the run, then
      each run of current-key rows is a contiguous piece of what the run was given, in order,
      and says in every signed field what the event said, or the rows at hand exhibit a
      collision of the MAC. */
  lemma RunScanFaithful(h: Hmac, k0: Key, ops: seq<Op>, table: seq<Row>, k: Key, lo: nat, hi: nat)
    returns (base: nat)
    requires Steady(AuditSigner(h), k0, ops)
    requires var s := Run(AuditSigner(h), Fresh(k0), ops);
             |s.events| == |s.log|
             && Issued(k, SignedLinks(AuditSigner(h), s.log, s.events), Links(AuditSigner(h), table))
    requires Clean(h, k, Links(AuditSigner(h), table))
    requires lo < hi <= |table|
    requires forall j | lo <= j < hi :: table[j].fingerprint == k.fingerprint
    ensures var s := Run(AuditSigner(h), Fresh(k0), ops);
            || HasCollision(h, SignedLinks(AuditSigner(h), s.log, s.events) + Links(AuditSigner(h), table))
            || (base + (hi - lo) <= |Given(ops)|
                && forall j | lo <= j < hi ::
                     ColumnsSigned(table[j].cols) == SignedPart(Given(ops)[base + (j - lo)], CURRENT_FORMAT))
  {
    hide Run, Given, ColumnsSigned, LinkOf, AuditSigner, Steady, HasCollision, Issued, Clean;
    var g := AuditSigner(h);
    var s := Run(g, Fresh(k0), ops);
    var at := RunTracks(g, k0, ops);
    SignerHmac(h);
    base := CleanScanFaithful(h, k, s.log, s.events, table, lo, hi);
    if !HasCollision(h, SignedLinks(g, s.log, s.events) + Links(g, table)) {
      forall j | lo <= j < hi
        ensures ColumnsSigned(table[j].cols) == SignedPart(Given(ops)[base + (j - lo)], CURRENT_FORMAT)
      {
        assert Intact(s.log[base + (j - lo)], s.events[base + (j - lo)], table[j]);
      }
    }
  }

  lemma SignerHmac(h: Hmac)
    ensures AuditSigner(h).hmac == h
  {
  }
}
