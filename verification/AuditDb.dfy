/** The audit database object and the retention worker over it, as code that changes state.
    Every method is tied to AuditStore's account of what the operation does; the failures of
    SQLite are inputs. */
module AuditDb {
  import opened Wrappers
  import opened Hex
  import opened AuditTypes
  import Utf8
  import opened HashChain
  import opened AuditChain
  import opened AuditStore

  /** An event without a time gets the clock's. */
  function Stamp(e: Event, now: int): Event {
    if e.ts == 0 then e.(ts := now) else e
  }

  /** An event that comes without a time gets the present one; nothing else of it changes. */
  lemma StampMeans(e: Event, now: int)
    ensures Stamp(e, now).ts == if e.ts != 0 then e.ts else now
    ensures Stamp(e, now).(ts := e.ts) == e
  {
  }

  function Stamped(batch: seq<Event>, clock: seq<int>): (s: seq<Event>)
    requires |clock| == |batch|
    ensures |s| == |batch|
  {
    seq(|batch|, i requires 0 <= i < |batch| => Stamp(batch[i], clock[i]))
  }

  /** The first element that is not as wanted, or the number of elements. */
  function FirstNot<T>(s: seq<T>, wanted: T -> bool): (n: nat)
    ensures n <= |s|
    ensures n < |s| ==> !wanted(s[n])
    ensures forall i | 0 <= i < n :: wanted(s[i])
  {
    if s == [] then 0
    else
      var k := |s| - 1;
      var f := FirstNot(s[..k], wanted);
      if f < k || !wanted(s[k]) then f else |s|
  }

  /** The first event whose dump throws, or the number of events. */
  function FirstUndumpable(es: seq<Event>): nat {
    FirstNot(es, (e: Event) => Dumpable(e))
  }

  /** How an insert ends. A dump that throws leaves the insert there and then. */
  datatype InsertResult = Inserted(id: int) | Refused | Threw

  /** How the rows of a batch go in: all of them, up to the last MAC; or one is refused; or the
      dump of one throws. */
  datatype PutResult = AllPut(chain: Blob) | RowRefused | DumpThrew(at: nat)

  /** Where a batch fails, if it does. */
  datatype Fault = NoFault | BeginFails | PrepareFails | RowFails(at: nat) | CommitFails

  /** The row of event `e`, chained to `prev` and carrying `mac`. */
  function RowFor(id: int, k: Key, prev: Blob, e: Event, mac: Tag): Row {
    Row(id, WriteColumns(e), if prev == [] then None else Some(prev), mac, k.fingerprint, false)
  }

  /** Signing an event and adding its row is AuditStore's Append. */
  lemma SignedAppend(h: Hmac, k: Key, st: Store, e: Event, mac: Tag, saved: bool)
    requires mac == h(k, SignText(st.lastMac, e))
    ensures Append(AuditSigner(h), k, st, e, saved)
            == Store(st.rows + [RowFor(st.lastId + 1, k, st.lastMac, e, mac)],
                     if saved then Some(Encoded(mac)) else st.cursor, mac, st.lastId + 1)
  {
    hide Message, WriteColumns;
  }

  lemma AppendBatchNext(h: Hmac, k: Key, st: Store, batch: seq<Event>, clock: seq<int>, saved: bool, i: nat)
    requires |clock| == |batch| && i < |batch|
    ensures var es := Stamped(batch, clock);
            AppendAll(AuditSigner(h), k, st, es[..i + 1], saved)
            == Append(AuditSigner(h), k, AppendAll(AuditSigner(h), k, st, es[..i], saved),
                      Stamp(batch[i], clock[i]), saved)
  {
    hide Append, AuditSigner;
    AppendAllNext(AuditSigner(h), k, st, Stamped(batch, clock), saved, i);
  }

  lemma ReportsFirstBad(h: Hmac, k: Key, rows: seq<Row>, v: Verdict)
    requires 0 < v.scanned <= |rows| && v.firstBadId == rows[v.scanned - 1].id
    requires forall i | 0 <= i < v.scanned - 1 :: Judged(h, k, Links(AuditSigner(h), rows), i) == Fine
    requires v.reason == Judged(h, k, Links(AuditSigner(h), rows), v.scanned - 1) != Fine
    ensures Reports(h, k, Links(AuditSigner(h), rows), v)
  {
    hide LinkOf, AuditSigner, RowText;
    assert Links(AuditSigner(h), rows)[v.scanned - 1] == LinkOf(AuditSigner(h), rows[v.scanned - 1]);
    IdOfLink(AuditSigner(h), rows[v.scanned - 1]);
  }

  lemma IdOfLink(g: Signer, r: Row)
    ensures LinkOf(g, r).id == r.id
  {
  }

  lemma ReportsClean(h: Hmac, k: Key, rows: seq<Row>, v: Verdict)
    requires v == Verdict(|rows|, 0, Fine)
    requires forall i | 0 <= i < |rows| :: Judged(h, k, Links(AuditSigner(h), rows), i) == Fine
    ensures Reports(h, k, Links(AuditSigner(h), rows), v)
  {
    hide LinkOf, AuditSigner, RowText;
  }

  /** The scan's judgement spelled out on the columns it reads. */
  lemma JudgedRow(h: Hmac, k: Key, rows: seq<Row>, i: nat)
    requires i < |rows|
    ensures Judged(h, k, Links(AuditSigner(h), rows), i)
            == if rows[i].fingerprint != k.fingerprint then Fine
               else if i > 0 && ColBlob(rows[i].prevMac) != rows[i - 1].mac then PrevMacMismatch
               else if rows[i].mac != h(k, RowText(ColBlob(rows[i].prevMac), rows[i].cols)) then MacMismatch
               else Fine
  {
    hide RowText;
  }

  lemma TimeKept(id: int, k: Key, prev: Blob, e: Event, mac: Tag)
    ensures RowFor(id, k, prev, e, mac).cols.ts == e.ts
  {
  }

  class AuditDb {
    const hmac: Hmac
    var isOpen: bool
    var key: Option<Key>
    var rows: seq<Row>
    var cursor: Option<string>
    var lastId: int
    var lastMac: Blob
    /** A transaction that an exception left open: what the rows and the ids were before it. */
    var undo: Option<(seq<Row>, int)>

    /** Attaches to what a database file holds; nothing is read before Open. */
    constructor (hmac: Hmac, key: Option<Key>, rows: seq<Row>, cursor: Option<string>, lastId: int)
      ensures this.hmac == hmac && this.key == key && !isOpen && undo.None?
      ensures Abs() == Store(rows, cursor, [], lastId)
    {
      this.hmac := hmac;
      this.key := key;
      this.rows, this.cursor, this.lastId := rows, cursor, lastId;
      isOpen, lastMac, undo := false, [], None;
    }

    function Abs(): Store
      reads this
    {
      Store(rows, cursor, lastMac, lastId)
    }

    function Signer(): Signer {
      AuditSigner(hmac)
    }

    /** The MAC of a new event chained to `prev`; None is a dump that throws. */
    method Sign(k: Key, prev: Blob, e: Event) returns (mac: Option<Tag>)
      ensures mac.Some? <==> Dumpable(e)
      ensures mac.Some? ==> mac.value == hmac(k, SignText(prev, e))
    {
      if !Dumpable(e) {
        return None;
      }
      var msg := AsChars(prev) + Canonical(e, CURRENT_FORMAT);
      return Some(hmac(k, msg));
    }

    /** The MAC a stored row should carry under `k`; None is a dump that throws. */
    method Rederive(k: Key, r: Row) returns (mac: Option<Tag>)
      ensures mac.Some? <==> Dumpable(ReadEvent(r.cols))
      ensures mac.Some? ==> mac.value == hmac(k, RowText(ColBlob(r.prevMac), r.cols))
    {
      if !Dumpable(ReadEvent(r.cols)) {
        return None;
      }
      var msg := AsChars(ColBlob(r.prevMac)) + Canonical(ReadEvent(r.cols), ColInt(r.cols.scoped));
      return Some(hmac(k, msg));
    }

    /** Puts the row of a signed event behind the others. */
    method PutRow(k: Key, prev: Blob, e: Event, mac: Tag) returns (id: int)
      modifies this`rows, this`lastId
      ensures id == lastId == old(lastId) + 1
      ensures rows == old(rows) + [RowFor(id, k, prev, e, mac)]
    {
      lastId := lastId + 1;
      rows := rows + [Row(lastId, WriteColumns(e), if prev == [] then None else Some(prev), mac,
                          k.fingerprint, false)];
      return lastId;
    }

    method LoadChainTail(look: Lookup) returns (ok: bool)
      modifies this`lastMac
      ensures ok == look.prepared
      ensures lastMac == LoadTail(look, cursor, rows)
    {
      hide CStr, Decoded;
      lastMac := [];
      if !look.prepared { return false; }
      if look.cursor && cursor.Some? {
        lastMac := FromHex(CStr(cursor.value));
      }
      if lastMac == [] && look.newest {
        if rows != [] {
          lastMac := rows[|rows| - 1].mac;
        }
      }
      return true;
    }

    /** The callers do not look at the answer. */
    method SaveChainTail(writeOk: bool) returns (ok: bool)
      modifies this`cursor
      ensures ok == writeOk
      ensures cursor == if writeOk then Some(Encoded(lastMac)) else old(cursor)
    {
      var hex := ToHex(lastMac);
      if !writeOk { return false; }
      cursor := Some(hex);
      return true;
    }

    method Open(fileOk: bool, migrationsOk: bool, look: Lookup) returns (ok: bool)
      modifies this`isOpen, this`lastMac
      ensures ok == isOpen == (old(isOpen) || (fileOk && migrationsOk))
      ensures Abs() == if !old(isOpen) && ok then old(Abs()).(lastMac := LoadTail(look, cursor, rows)) else old(Abs())
    {
      if isOpen { return true; }
      if !fileOk || !migrationsOk { return false; }
      isOpen := true;
      var _ := LoadChainTail(look);
      return true;
    }

    method Insert(event: Event, now: int, prepareOk: bool, stepOk: bool, saved: bool) returns (r: InsertResult)
      modifies this`rows, this`cursor, this`lastId, this`lastMac
      ensures r.Threw? <==> isOpen && key.Some? && !Dumpable(Stamp(event, now))
      ensures r.Inserted? <==> isOpen && key.Some? && Dumpable(Stamp(event, now)) && prepareOk && stepOk
      ensures r.Inserted? ==>
                && Abs() == Append(Signer(), key.value, old(Abs()), Stamp(event, now), saved)
                && r.id == lastId == old(lastId) + 1 && |rows| == |old(rows)| + 1
                && rows[|old(rows)|].cols.ts == (if event.ts != 0 then event.ts else now)
      ensures !r.Inserted? ==> Abs() == old(Abs())
    {
      hide SignText, WriteColumns, Append, NewRow, RowFor, Dumpable;
      if !isOpen || key.None? { return Refused; }
      var e := event;
      if e.ts == 0 { e := e.(ts := now); }
      var prev := lastMac;
      var mac := Sign(key.value, prev, e);
      if mac.None? { return Threw; }
      if !prepareOk { return Refused; }
      if !stepOk { return Refused; }
      SignedAppend(hmac, key.value, Abs(), e, mac.value, saved);
      var rowId := PutRow(key.value, prev, e, mac.value);
      TimeKept(rowId, key.value, prev, e, mac.value);
      lastMac := mac.value;
      var _ := SaveChainTail(saved);
      return Inserted(rowId);
    }

    /** Appends the rows of the batch inside the transaction. A row's dump comes before its
        INSERT, so of an event that cannot be dumped and a failing row the first decides. */
    method PutRows(k: Key, batch: seq<Event>, clock: seq<int>, fault: Fault, ghost saved: bool) returns (r: PutResult)
      requires |clock| == |batch|
      modifies this`rows, this`lastId
      ensures var u := FirstUndumpable(Stamped(batch, clock));
              && (r.DumpThrew? <==> u < |batch| && (fault.RowFails? ==> fault.at >= u))
              && (r.DumpThrew? ==> r.at == u)
              && (r.RowRefused? <==> fault.RowFails? && fault.at < u)
      ensures r.AllPut? ==>
                AppendAll(Signer(), k, old(Abs()), Stamped(batch, clock), saved)
                == Store(rows, if saved && batch != [] then Some(Encoded(r.chain)) else cursor, r.chain, lastId)
      ensures r.DumpThrew? ==>
                var st := AppendAll(Signer(), k, old(Abs()), Stamped(batch, clock)[..r.at], saved);
                rows == st.rows && lastId == st.lastId
    {
      hide SignText, WriteColumns, Append, NewRow, RowFor, Stamped, AuditSigner, Dumpable, FirstUndumpable;
      var tail := lastMac;
      ghost var before, es := Abs(), Stamped(batch, clock);
      assert es[..0] == [];
      for i := 0 to |batch|
        invariant fault.RowFails? ==> i <= fault.at
        invariant forall j | 0 <= j < i :: Dumpable(es[j])
        invariant AppendAll(Signer(), k, before, es[..i], saved)
                  == Store(rows, if saved && i > 0 then Some(Encoded(tail)) else cursor, tail, lastId)
      {
        var e := batch[i];
        if e.ts == 0 { e := e.(ts := clock[i]); }
        StampedAt(batch, clock, i);
        var mac := Sign(k, tail, e);
        if mac.None? {
          UndumpableAt(es, i);
          return DumpThrew(i);
        }
        if fault == RowFails(i) {
          DumpableUpTo(es, i);
          return RowRefused;
        }
        AppendBatchNext(hmac, k, before, batch, clock, saved, i);
        SignedAppend(hmac, k, AppendAll(Signer(), k, before, es[..i], saved), e, mac.value, saved);
        var _ := PutRow(k, tail, e, mac.value);
        tail := mac.value;
      }
      assert es[..|batch|] == es;
      AllDumpable(es);
      return AllPut(tail);
    }

    /** Either all rows, or none and everything as it was; or, when a dump throws, the exception
        leaves with the rows before it in a transaction that nobody ends. While one is open no
        other can begin. */
    method InsertBatch(batch: seq<Event>, clock: seq<int>, fault: Fault, saved: bool)
      returns (written: nat, threwAt: Option<nat>)
      requires |clock| == |batch|
      modifies this`rows, this`cursor, this`lastId, this`lastMac, this`undo
      ensures var u := FirstUndumpable(Stamped(batch, clock));
              var begun := batch != [] && isOpen && key.Some? && old(undo).None?
                           && !fault.BeginFails? && !fault.PrepareFails?;
              && (threwAt.Some? <==> begun && u < |batch| && (fault.RowFails? ==> fault.at >= u))
              && (threwAt.Some? ==> threwAt.value == u)
              && (written > 0 <==> begun && u == |batch| && !fault.CommitFails?
                                   && (fault.RowFails? ==> fault.at >= |batch|))
      ensures written == 0 || written == |batch|
      ensures threwAt.None? ==> undo == old(undo)
      ensures threwAt.None? ==>
                Abs() == if written > 0
                         then AppendAll(Signer(), key.value, old(Abs()), Stamped(batch, clock), saved)
                         else old(Abs())
      ensures threwAt.Some? ==>
                && undo == Some((old(rows), old(lastId))) && cursor == old(cursor) && lastMac == old(lastMac)
                && rows == AppendAll(Signer(), key.value, old(Abs()), Stamped(batch, clock)[..threwAt.value],
                                     saved).rows
    {
      hide AppendAll, Stamped, AuditSigner, Dumpable, FirstUndumpable;
      FirstIsWithin(Stamped(batch, clock));
      if batch == [] { return 0, None; }
      if !isOpen || key.None? { return 0, None; }
      if fault.BeginFails? || undo.Some? { return 0, None; }
      var savedRows, savedId := rows, lastId;     // BEGIN IMMEDIATE
      if fault.PrepareFails? { return 0, None; }
      var r := PutRows(key.value, batch, clock, fault, saved);
      if r.DumpThrew? {
        undo := Some((savedRows, savedId));
        return 0, Some(r.at);
      }
      if r.RowRefused? || fault.CommitFails? {
        rows, lastId := savedRows, savedId;       // ROLLBACK
        return 0, None;
      }
      lastMac := r.chain;
      var _ := SaveChainTail(saved);
      return |batch|, None;
    }

    /** The process is over: what an open transaction held is gone. */
    method EndOfProcess()
      modifies this
      ensures !isOpen && undo.None? && key == old(key) && cursor == old(cursor)
      ensures (rows, lastId) == if old(undo).Some? then old(undo).value else old((rows, lastId))
    {
      if undo.Some? {
        rows, lastId := undo.value.0, undo.value.1;
      }
      isOpen, undo, lastMac := false, None, [];
    }

    method PurgeOlderThan(cat: Category, cutoff: int, ok: bool) returns (removed: nat)
      modifies this`rows
      ensures Abs() == if isOpen && ok then Purge(old(Abs()), CategoryName(cat), cutoff) else old(Abs())
      ensures removed == |old(rows)| - |rows|
      ensures forall r :: r in rows <==>
                r in old(rows) && !(isOpen && ok && r.cols.category == CategoryName(cat) && r.cols.ts < cutoff)
    {
      if !isOpen || !ok { return 0; }
      var before := |rows|;
      forall r ensures r in Kept(rows, Unexpired(CategoryName(cat), cutoff)) <==>
                         r in rows && !(r.cols.category == CategoryName(cat) && r.cols.ts < cutoff)
      {
        KeptSays(rows, Unexpired(CategoryName(cat), cutoff), r);
      }
      rows := Kept(rows, Unexpired(CategoryName(cat), cutoff));
      removed := before - |rows|;
    }

    /** `readable` is how many rows can be read: an error in between ends the scan like the
        end of the table. */
    method VerifyChain(prepareOk: bool, readable: nat) returns (v: Verdict, threw: bool)
      requires readable <= |rows|
      ensures !isOpen || key.None? ==> v == Verdict(0, 0, NoKey) && !threw
      ensures isOpen && key.Some? && !prepareOk ==> v == Verdict(0, 0, PrepareFailed) && !threw
      ensures isOpen && key.Some? && prepareOk && !threw ==>
                Reports(hmac, key.value, Links(Signer(), rows[..readable]), v)
      ensures threw ==>
                && key.Some? && 0 < v.scanned <= readable
                && rows[v.scanned - 1].fingerprint == key.value.fingerprint
                && !Dumpable(ReadEvent(rows[v.scanned - 1].cols))
                && (forall i | 0 <= i < v.scanned - 1 ::
                      Judged(hmac, key.value, Links(Signer(), rows[..readable]), i) == Fine)
    {
      hide RowText, Judged, LinkOf, AuditSigner, Dumpable, ReadEvent;
      threw := false;
      v := Verdict(0, 0, Fine);
      if !isOpen || key.None? {
        return Verdict(0, 0, NoKey), false;
      }
      if !prepareOk {
        return Verdict(0, 0, PrepareFailed), false;
      }
      var table := rows[..readable];
      var k := key.value;
      var chain: Blob := [];
      var chainInitialised := false;
      ghost var links := Links(Signer(), table);
      while v.scanned < |table|
        invariant v.scanned <= |table| && v.firstBadId == 0 && v.reason == Fine
        invariant chainInitialised <==> v.scanned > 0
        invariant chainInitialised ==> chain == table[v.scanned - 1].mac
        invariant forall i | 0 <= i < v.scanned :: Judged(hmac, k, links, i) == Fine
        decreases |table| - v.scanned
      {
        var r := table[v.scanned];
        JudgedRow(hmac, k, table, v.scanned);
        v := v.(scanned := v.scanned + 1);
        if r.fingerprint != k.fingerprint {
          chain := r.mac;
          chainInitialised := true;
          continue;
        }
        var prev := ColBlob(r.prevMac);
        if chainInitialised && prev != chain {
          v := v.(firstBadId := r.id, reason := PrevMacMismatch);
          ReportsFirstBad(hmac, k, table, v);
          return;
        }
        var expected := Rederive(k, r);
        if expected.None? {
          return v, true;
        }
        if expected.value != r.mac {
          v := v.(firstBadId := r.id, reason := MacMismatch);
          ReportsFirstBad(hmac, k, table, v);
          return;
        }
        chain := r.mac;
        chainInitialised := true;
      }
      ReportsClean(hmac, k, table, v);
    }
  }

  lemma StampedAt(batch: seq<Event>, clock: seq<int>, i: nat)
    requires |clock| == |batch| && i < |batch|
    ensures Stamped(batch, clock)[i] == Stamp(batch[i], clock[i])
  {
  }

  lemma UndumpableAt(es: seq<Event>, i: nat)
    requires i < |es| && !Dumpable(es[i]) && (forall j | 0 <= j < i :: Dumpable(es[j]))
    ensures FirstUndumpable(es) == i
  {
    hide Dumpable, FirstNot;
  }

  lemma DumpableUpTo(es: seq<Event>, i: nat)
    requires i < |es| && (forall j | 0 <= j <= i :: Dumpable(es[j]))
    ensures FirstUndumpable(es) > i
  {
    hide Dumpable, FirstNot;
    var f := FirstUndumpable(es);
    assert f < |es| ==> !Dumpable(es[f]);
  }

  lemma AllDumpable(es: seq<Event>)
    requires forall j | 0 <= j < |es| :: Dumpable(es[j])
    ensures FirstUndumpable(es) == |es|
  {
    hide Dumpable, FirstNot;
  }

  lemma FirstIsWithin(es: seq<Event>)
    ensures FirstUndumpable(es) <= |es|
  {
  }

  /** A request for a path with a byte no text holds, such as /api/%FF, gives an event that
      cannot be dumped. */
  lemma ForeignPath(e: Event, i: nat)
    requires i < |e.httpPath| && Utf8.NeverUsed(e.httpPath[i])
    ensures !Dumpable(e) && FirstUndumpable([e]) == 0
  {
    if Utf8.Valid(e.httpPath) {
      Utf8.NoForeignByte(e.httpPath, i);
    }
    UndumpableAt([e], 0);
  }

  /** The scan never throws on a row the database wrote itself. */
  lemma OwnRowsDump(h: Hmac, k: Key, st: Store, e: Event)
    requires Dumpable(e)
    ensures Dumpable(ReadEvent(NewRow(AuditSigner(h), k, st, e).cols))
  {
    hide Dumpable, ReadEvent, WriteColumns;
    RowIsDumpable(e);
  }

  /** What GET /api/audit/verify answers as "ok". */
  predicate AnswersOk(v: Verdict) {
    v.firstBadId == 0
  }

  /** On rows with ids above 0 the answer is "ok" exactly when the scan found nothing wrong. */
  lemma OkMeansClean(h: Hmac, k: Key, rows: seq<Row>, v: Verdict)
    requires Reports(h, k, Links(AuditSigner(h), rows), v)
    requires forall i | 0 <= i < |rows| :: 0 < rows[i].id
    ensures AnswersOk(v) <==> Clean(h, k, Links(AuditSigner(h), rows))
  {
  }

  // ---- retention ---------------------------------------------------------------------

  const DAY_MS := 86400 * 1000

  function Cutoff(c: Category, now: int): int {
    now - DefaultRetentionDays(c) * DAY_MS
  }

  /** A row the purge of category `c` removes; rows of a category with no retention period
      are kept for ever. */
  predicate OverdueIn(r: Row, c: Category, now: int) {
    DefaultRetentionDays(c) > 0 && Expired(r, CategoryName(c), Cutoff(c, now))
  }

  /** A row that one of the purges that work removes. */
  predicate Overdue(r: Row, cats: seq<Category>, works: nat -> bool, now: int) {
    exists i: nat | i < |cats| :: works(i) && OverdueIn(r, cats[i], now)
  }

  function Spared(cats: seq<Category>, works: nat -> bool, now: int): Row -> bool {
    (r: Row) => !Overdue(r, cats, works, now)
  }

  lemma {:induction false} KeptTwice<T>(s: seq<T>, p: T -> bool, q: T -> bool, both: T -> bool)
    requires forall i | 0 <= i < |s| :: both(s[i]) == (p(s[i]) && q(s[i]))
    ensures Kept(Kept(s, p), q) == Kept(s, both)
  {
    if s != [] {
      var front, x := s[..|s| - 1], s[|s| - 1];
      KeptTwice(front, p, q, both);
      KeptLast(Kept(front, p), x, q);
      assert Kept(s, p) == if p(x) then Kept(front, p) + [x] else Kept(front, p);
    }
  }

  lemma KeptLast<T>(s: seq<T>, x: T, q: T -> bool)
    ensures Kept(s + [x], q) == Kept(s, q) + if q(x) then [x] else []
  {
    assert (s + [x])[..|s|] == s;
  }

  lemma {:induction false} KeptAll<T>(s: seq<T>, p: T -> bool)
    requires forall i | 0 <= i < |s| :: p(s[i])
    ensures Kept(s, p) == s
  {
    if s != [] {
      KeptAll(s[..|s| - 1], p);
    }
  }

  lemma OverdueNext(r: Row, cats: seq<Category>, works: nat -> bool, i: nat, now: int)
    requires i < |cats|
    ensures Overdue(r, cats[..i + 1], works, now)
            <==> Overdue(r, cats[..i], works, now) || (works(i) && OverdueIn(r, cats[i], now))
  {
    hide OverdueIn;
    var more, c := cats[..i + 1], cats[..i];
    assert more == c + [cats[i]];
    if Overdue(r, c, works, now) {
      var j: nat :| j < |c| && works(j) && OverdueIn(r, c[j], now);
      assert more[j] == c[j];
    }
    if works(i) && OverdueIn(r, cats[i], now) {
      assert more[i] == cats[i];
    }
  }

  /** Where a category stands in the sweep. */
  function Turn(c: Category): nat {
    match c case Auth => 0 case Channel => 1 case Output => 2 case Gateway => 3 case Plugin => 4
    case Mount => 5 case System => 6 case Access => 7 case Player => 8
  }

  /** The order of the categories does not matter to a sweep: a row goes exactly when its
      category text names a category, it is older than that category's days, and the purge of
      that category, the i-th of the nine, works. */
  lemma OverdueMeans(r: Row, works: nat -> bool, now: int)
    ensures Overdue(r, ALL_CATEGORIES, works, now)
            <==> var name := r.cols.category;
                 || (name == "auth" && works(0) && r.cols.ts < now - 365 * 86_400_000)
                 || (name == "channel" && works(1) && r.cols.ts < now - 90 * 86_400_000)
                 || (name == "output" && works(2) && r.cols.ts < now - 90 * 86_400_000)
                 || (name == "gateway" && works(3) && r.cols.ts < now - 90 * 86_400_000)
                 || (name == "plugin" && works(4) && r.cols.ts < now - 90 * 86_400_000)
                 || (name == "mount" && works(5) && r.cols.ts < now - 90 * 86_400_000)
                 || (name == "system" && works(6) && r.cols.ts < now - 30 * 86_400_000)
                 || (name == "access" && works(7) && r.cols.ts < now - 30 * 86_400_000)
                 || (name == "player" && works(8) && r.cols.ts < now - 365 * 86_400_000)
  {
    hide Overdue, Cutoff;
    OverdueByTurn(r, works, now);
    var c := CategoryFromString(r.cols.category);
    if c.Some? {
      CutoffOf(c.value, now);
    }
  }

  lemma CutoffOf(c: Category, now: int)
    ensures c == Auth || c == Player ==> Cutoff(c, now) == now - 365 * 86_400_000
    ensures c == System || c == Access ==> Cutoff(c, now) == now - 30 * 86_400_000
    ensures c.Channel? || c.Output? || c.Gateway? || c.Plugin? || c.Mount? ==> Cutoff(c, now) == now - 90 * 86_400_000
  {
  }

  lemma OverdueByTurn(r: Row, works: nat -> bool, now: int)
    ensures Overdue(r, ALL_CATEGORIES, works, now)
            <==> CategoryFromString(r.cols.category).Some?
                 && r.cols.ts < Cutoff(CategoryFromString(r.cols.category).value, now)
                 && works(Turn(CategoryFromString(r.cols.category).value))
  {
    if Overdue(r, ALL_CATEGORIES, works, now) {
      var i: nat :| i < |ALL_CATEGORIES| && works(i) && OverdueIn(r, ALL_CATEGORIES[i], now);
      CategoryNameRead(ALL_CATEGORIES[i]);
    }
    var c := CategoryFromString(r.cols.category);
    if c.Some? && r.cols.ts < Cutoff(c.value, now) && works(Turn(c.value)) {
      NameOfCategory(r.cols.category);
      assert ALL_CATEGORIES[Turn(c.value)] == c.value;
      assert OverdueIn(r, ALL_CATEGORIES[Turn(c.value)], now);
    }
  }

  lemma NameOfCategory(s: string)
    requires CategoryFromString(s).Some?
    ensures CategoryName(CategoryFromString(s).value) == s
  {
  }

  class RetentionWorker {
    const db: AuditDb

    constructor (db: AuditDb)
      ensures this.db == db
    {
      this.db := db;
    }

    /** One sweep: `extra` is what the optional extra sweep removed, None when there is none
        or it threw; `works` is which categories' purges work. */
    method RunOnce(now: int, extra: Option<int>, works: nat -> bool) returns (total: int)
      modifies db`rows
      ensures db.rows == if db.isOpen then Kept(old(db.rows), Spared(ALL_CATEGORIES, works, now)) else old(db.rows)
      ensures total == (if extra.Some? then extra.value else 0) + |old(db.rows)| - |db.rows|
    {
      total := 0;
      if extra.Some? { total := total + extra.value; }
      if !db.isOpen { return; }
      var cats := ALL_CATEGORIES;
      ghost var before := db.rows;
      KeptAll(before, Spared(cats[..0], works, now));
      for i := 0 to |cats|
        invariant db.rows == Kept(before, Spared(cats[..i], works, now))
        invariant total == (if extra.Some? then extra.value else 0) + |before| - |db.rows|
      {
        var removed := SweepCategory(cats, works, i, now, before);
        if removed > 0 { total := total + removed; }
      }
      assert cats[..|cats|] == cats;
    }

    /** One category's purge, unless its rows are kept for ever. */
    method SweepCategory(cats: seq<Category>, works: nat -> bool, i: nat, now: int, ghost before: seq<Row>)
      returns (removed: nat)
      requires i < |cats| && db.isOpen && db.rows == Kept(before, Spared(cats[..i], works, now))
      modifies db`rows
      ensures db.rows == Kept(before, Spared(cats[..i + 1], works, now))
      ensures removed == |old(db.rows)| - |db.rows|
    {
      hide CategoryName, DefaultRetentionDays, Kept, Spared, Unexpired;
      var days := DefaultRetentionDays(cats[i]);
      SweepNext(db.rows, before, cats, works, i, now);
      if days <= 0 { return 0; }
      var cutoff := now - days * 86400 * 1000;
      removed := db.PurgeOlderThan(cats[i], cutoff, works(i));
    }
  }

  lemma SweepNext(rows: seq<Row>, before: seq<Row>, cats: seq<Category>, works: nat -> bool, i: nat, now: int)
    requires i < |cats| && rows == Kept(before, Spared(cats[..i], works, now))
    ensures Kept(before, Spared(cats[..i + 1], works, now))
            == if DefaultRetentionDays(cats[i]) > 0 && works(i)
               then Kept(rows, Unexpired(CategoryName(cats[i]), Cutoff(cats[i], now)))
               else rows
  {
    hide CategoryName, DefaultRetentionDays;
    var p := Spared(cats[..i], works, now);
    var both := Spared(cats[..i + 1], works, now);
    var q := if DefaultRetentionDays(cats[i]) > 0 && works(i)
             then Unexpired(CategoryName(cats[i]), Cutoff(cats[i], now))
             else (r: Row) => true;
    forall j | 0 <= j < |before| ensures both(before[j]) == (p(before[j]) && q(before[j])) {
      OverdueNext(before[j], cats, works, i, now);
    }
    KeptTwice(before, p, q, both);
    if DefaultRetentionDays(cats[i]) <= 0 || !works(i) {
      KeptAll(rows, q);
    }
  }
}
