/** The theory of a keyed hash chain, free of what the links say. A link is chained to the
    MAC of the link before it, and signs a message that fixes that MAC. The MAC function is
    any function of a key and a message into 32-byte tags; nothing is assumed about it, so
    a statement that needs tags to differ says "or the links at hand contain a collision". */
module HashChain {
  import opened Hex

  type Tag = b: Blob | |b| == 32 witness seq(32, _ => 0)

  /** A master key is known by its fingerprint. */
  datatype Key = Key(fingerprint: string)

  type Hmac = (Key, string) -> Tag

  datatype Link = Link(id: int, fingerprint: string, prev: Blob, mac: Blob, message: string)

  function Rederived(h: Hmac, l: Link): Tag {
    h(Key(l.fingerprint), l.message)
  }

  /** Two links sign different things under the same tag. */
  ghost predicate Collide(h: Hmac, a: Link, b: Link) {
    && Rederived(h, a) == Rederived(h, b)
    && (a.fingerprint != b.fingerprint || a.message != b.message)
  }

  ghost predicate CollideAt(h: Hmac, s: seq<Link>, i: int, j: int) {
    0 <= i < |s| && 0 <= j < |s| && Collide(h, s[i], s[j])
  }

  /** Some two of the links exhibit a collision of the MAC. */
  ghost predicate HasCollision(h: Hmac, s: seq<Link>) {
    exists i, j :: CollideAt(h, s, i, j)
  }

  ghost predicate FramedAt(s: seq<Link>, i: int, j: int) {
    0 <= i < |s| && 0 <= j < |s| && s[i].message == s[j].message ==> s[i].prev == s[j].prev
  }

  /** A message can be read in one way only: it fixes the previous MAC it was signed after. */
  ghost predicate Framed(s: seq<Link>) {
    forall i, j :: FramedAt(s, i, j)
  }

  // ---- the log really appended -------------------------------------------------------

  /** The MAC a link appended after `log` is chained to. */
  function TailOf(log: seq<Link>): Blob {
    if log == [] then [] else log[|log| - 1].mac
  }

  ghost predicate LinkedAt(h: Hmac, log: seq<Link>, i: int) {
    0 <= i < |log| ==>
      && log[i].mac == Rederived(h, log[i])
      && log[i].prev == (if i == 0 then [] else log[i - 1].mac)
      && 0 < log[i].id
      && (i > 0 ==> log[i - 1].id < log[i].id)
  }

  /** A log as the database appends it: every link signed and chained to the one before it,
      with positive increasing ids. */
  ghost predicate Chained(h: Hmac, log: seq<Link>) {
    forall i :: LinkedAt(h, log, i)
  }

  lemma ChainExtends(h: Hmac, log: seq<Link>, l: Link)
    requires Chained(h, log)
    requires l.mac == Rederived(h, l) && l.prev == TailOf(log) && 0 < l.id
    requires log != [] ==> log[|log| - 1].id < l.id
    ensures Chained(h, log + [l])
  {
    forall i ensures LinkedAt(h, log + [l], i) {
      assert LinkedAt(h, log, i);
    }
  }

  ghost predicate StepsBack(macs: seq<Blob>) {
    forall i, j | 0 <= i < j < |macs| && macs[i] == macs[j] :: i > 0 && macs[i - 1] == macs[j - 1]
  }

  lemma {:induction false} StepsBackDistinct(macs: seq<Blob>, i: nat, j: nat)
    requires StepsBack(macs) && i < j < |macs|
    ensures macs[i] != macs[j]
  {
    if i > 0 {
      StepsBackDistinct(macs, i - 1, j - 1);
    }
  }

  function Macs(log: seq<Link>): (m: seq<Blob>)
    ensures |m| == |log| && forall i | 0 <= i < |m| :: m[i] == log[i].mac
  {
    seq(|log|, i requires 0 <= i < |log| => log[i].mac)
  }

  /** No two positions of one chain carry the same MAC. */
  lemma MacsDistinct(h: Hmac, log: seq<Link>, i: nat, j: nat)
    requires Chained(h, log) && Framed(log) && i < j < |log|
    ensures log[i].mac != log[j].mac || HasCollision(h, log)
  {
    if !HasCollision(h, log) {
      forall a, b | 0 <= a < b < |log| && Macs(log)[a] == Macs(log)[b]
        ensures a > 0 && Macs(log)[a - 1] == Macs(log)[b - 1]
      {
        StepBack(h, log, a, b);
      }
      StepsBackDistinct(Macs(log), i, j);
    }
  }

  lemma StepBack(h: Hmac, log: seq<Link>, i: nat, j: nat)
    requires Chained(h, log) && Framed(log) && i < j < |log| && !HasCollision(h, log)
    requires log[i].mac == log[j].mac
    ensures i > 0 && log[i - 1].mac == log[j - 1].mac
  {
    assert LinkedAt(h, log, i) && LinkedAt(h, log, j) && LinkedAt(h, log, j - 1);
    assert !CollideAt(h, log, i, j);
    assert FramedAt(log, i, j);
  }

  // ---- the rescan --------------------------------------------------------------------

  datatype Reason = Fine | NoKey | PrepareFailed | MacMismatch | PrevMacMismatch
  datatype Verdict = Verdict(scanned: nat, firstBadId: int, reason: Reason)

  /** What the scan under key `k` says about link `i`. A link of another key is taken on
      trust; a link of this key must follow the one before it, if any, and re-derive. */
  ghost function Judged(h: Hmac, k: Key, s: seq<Link>, i: int): Reason {
    if !(0 <= i < |s|) || s[i].fingerprint != k.fingerprint then Fine
    else if i > 0 && s[i].prev != s[i - 1].mac then PrevMacMismatch
    else if s[i].mac != h(k, s[i].message) then MacMismatch
    else Fine
  }

  ghost predicate Clean(h: Hmac, k: Key, s: seq<Link>) {
    forall i :: Judged(h, k, s, i) == Fine
  }

  /** A scan is clean exactly when no link is judged bad; otherwise it stops at the first
      bad one and names it. */
  ghost predicate Reports(h: Hmac, k: Key, s: seq<Link>, v: Verdict) {
    if Clean(h, k, s) then v == Verdict(|s|, 0, Fine)
    else
      && 0 < v.scanned <= |s|
      && (forall i | i < v.scanned - 1 :: Judged(h, k, s, i) == Fine)
      && v.reason == Judged(h, k, s, v.scanned - 1) != Fine
      && v.firstBadId == s[v.scanned - 1].id
  }

  /** One table has one report. */
  lemma ReportUnique(h: Hmac, k: Key, s: seq<Link>, v: Verdict, w: Verdict)
    requires Reports(h, k, s, v) && Reports(h, k, s, w)
    ensures v == w
  {
    if !Clean(h, k, s) {
      assert Judged(h, k, s, v.scanned - 1) != Fine && Judged(h, k, s, w.scanned - 1) != Fine;
    }
  }

  /** Completeness: a log read back as it was signed is clean under every key at all, those
      used in it and those never used. */
  lemma ChainedIsClean(h: Hmac, k: Key, log: seq<Link>)
    requires Chained(h, log)
    ensures Clean(h, k, log)
  {
    forall i ensures Judged(h, k, log, i) == Fine {
      assert LinkedAt(h, log, i);
      assert 0 <= i < |log| && log[i].fingerprint == k.fingerprint ==> Key(log[i].fingerprint) == k;
    }
  }

  // ---- soundness ---------------------------------------------------------------------

  ghost predicate CarriedBy(log: seq<Link>, i: int, l: Link) {
    0 <= i < |log| && log[i].mac == l.mac
  }

  ghost predicate IssuedLink(log: seq<Link>, l: Link) {
    exists i :: CarriedBy(log, i, l)
  }

  /** Every MAC the table shows under key `k` was really issued: some appended link carries
      it, under whatever key. */
  ghost predicate Issued(k: Key, log: seq<Link>, table: seq<Link>) {
    forall j | 0 <= j < |table| && table[j].fingerprint == k.fingerprint :: IssuedLink(log, table[j])
  }

  /** The two links agree on everything but the id. */
  ghost predicate Same(a: Link, b: Link) {
    a.fingerprint == b.fingerprint && a.mac == b.mac && a.prev == b.prev && a.message == b.message
  }

  /** Links lo..hi of the table are, one for one, the links base.. of the log. */
  ghost predicate IsSegment(log: seq<Link>, base: nat, table: seq<Link>, lo: nat, hi: nat) {
    && lo <= hi <= |table|
    && base + (hi - lo) <= |log|
    && forall j | lo <= j < hi :: Same(log[base + (j - lo)], table[j])
  }

  lemma CollisionWithin(h: Hmac, log: seq<Link>, table: seq<Link>)
    requires HasCollision(h, log)
    ensures HasCollision(h, log + table)
  {
    var i, j :| CollideAt(h, log, i, j);
    var all := log + table;
    assert all[i] == log[i] && all[j] == log[j];
    assert CollideAt(h, all, i, j);
  }

  lemma FramedWithin(log: seq<Link>, table: seq<Link>)
    requires Framed(log + table)
    ensures Framed(log)
  {
    var all := log + table;
    forall i, j ensures FramedAt(log, i, j) {
      if 0 <= i < |log| && 0 <= j < |log| {
        assert FramedAt(all, i, j) && all[i] == log[i] && all[j] == log[j];
      }
    }
  }

  lemma IssuedIsLogged(h: Hmac, k: Key, log: seq<Link>, table: seq<Link>, j: nat) returns (i: nat)
    requires Chained(h, log) && Framed(log + table) && Issued(k, log, table) && Clean(h, k, table)
    requires j < |table| && table[j].fingerprint == k.fingerprint
    ensures i < |log|
    ensures Same(log[i], table[j]) || HasCollision(h, log + table)
  {
    assert IssuedLink(log, table[j]);
    i :| CarriedBy(log, i, table[j]);
    assert LinkedAt(h, log, i);
    assert Judged(h, k, table, j) == Fine;
    assert Key(table[j].fingerprint) == k;
    var all := log + table;
    assert all[i] == log[i] && all[|log| + j] == table[j];
    assert FramedAt(all, i, |log| + j);
    if log[i].message != table[j].message || log[i].fingerprint != table[j].fingerprint {
      assert CollideAt(h, all, i, |log| + j);
    }
  }

  /** Soundness: when the scan is clean, any run of links under the current key is a
      contiguous piece of the log really appended, in order and unchanged, unless log and
      table together exhibit a collision of the MAC. */
  lemma {:induction false} ScanSound(h: Hmac, k: Key, log: seq<Link>, table: seq<Link>, lo: nat, hi: nat)
    returns (base: nat)
    requires Chained(h, log) && Framed(log + table) && Issued(k, log, table) && Clean(h, k, table)
    requires lo < hi <= |table|
    requires forall j | lo <= j < hi :: table[j].fingerprint == k.fingerprint
    ensures IsSegment(log, base, table, lo, hi) || HasCollision(h, log + table)
    decreases hi - lo
  {
    if hi == lo + 1 {
      base := IssuedIsLogged(h, k, log, table, lo);
    } else {
      base := ScanSound(h, k, log, table, lo, hi - 1);
      if !HasCollision(h, log + table) {
        SegmentGrows(h, k, log, table, lo, hi, base);
      }
    }
  }

  lemma SegmentGrows(h: Hmac, k: Key, log: seq<Link>, table: seq<Link>, lo: nat, hi: nat, base: nat)
    requires Chained(h, log) && Framed(log + table) && Issued(k, log, table) && Clean(h, k, table)
    requires lo + 1 < hi <= |table| && table[hi - 1].fingerprint == k.fingerprint
    requires IsSegment(log, base, table, lo, hi - 1) && !HasCollision(h, log + table)
    ensures IsSegment(log, base, table, lo, hi)
  {
    var i := IssuedIsLogged(h, k, log, table, hi - 1);
    var p := base + (hi - 2 - lo);
    assert Same(log[p], table[hi - 2]);
    assert Judged(h, k, table, hi - 1) == Fine;
    FramedWithin(log, table);
    FollowsInLog(h, log, p, i);
    if HasCollision(h, log) {
      CollisionWithin(h, log, table);
    }
  }

  /** A link chained to the MAC of log link `p` can only be log link p + 1. */
  lemma FollowsInLog(h: Hmac, log: seq<Link>, p: nat, i: nat)
    requires Chained(h, log) && Framed(log) && p < |log| && i < |log|
    requires log[i].prev == log[p].mac
    ensures i == p + 1 || HasCollision(h, log)
  {
    assert LinkedAt(h, log, p) && LinkedAt(h, log, i);
    if i - 1 < p {
      MacsDistinct(h, log, i - 1, p);
    } else if p < i - 1 {
      MacsDistinct(h, log, p, i - 1);
    }
  }

  // ---- what survives of a log --------------------------------------------------------

  /** The positions in `log` of the links that survive, in order. */
  ghost predicate Positions<T>(log: seq<T>, at: seq<nat>) {
    && (forall j | 0 <= j < |at| :: at[j] < |log|)
    && (forall i, j | 0 <= i < j < |at| :: at[i] < at[j])
  }

  function Pick<T>(log: seq<T>, at: seq<nat>): (s: seq<T>)
    requires forall j | 0 <= j < |at| :: at[j] < |log|
    ensures |s| == |at| && forall j | 0 <= j < |s| :: s[j] == log[at[j]]
  {
    seq(|at|, j requires 0 <= j < |at| => log[at[j]])
  }

  /** Links are missing between surviving link `j` and the one before it. */
  predicate HoleBefore(at: seq<nat>, j: int) {
    0 < j < |at| && at[j] != at[j - 1] + 1
  }

  /** The link as it is read back: the message may have changed between signing and reading,
      nothing else has. */
  ghost predicate RereadAt(log: seq<Link>, read: seq<Link>, i: int) {
    0 <= i < |log| && i < |read| ==> read[i] == log[i].(message := read[i].message)
  }

  ghost predicate Reread(log: seq<Link>, read: seq<Link>) {
    |read| == |log| && (forall i :: RereadAt(log, read, i))
  }

  /** The one link reads back as what was signed. */
  predicate Unchanged(log: seq<Link>, read: seq<Link>, i: int) {
    0 <= i < |log| && i < |read| ==> read[i].message == log[i].message
  }

  /** What is wrong with survivor `j`: of the links of the current key, one directly after a
      hole is not chained to the one before it, and one that does not read back as it was
      signed does not carry its own MAC. */
  function Flaw(k: Key, log: seq<Link>, read: seq<Link>, at: seq<nat>, j: int): Reason
    requires forall i | 0 <= i < |at| :: at[i] < |log|
  {
    if !(0 <= j < |at|) || log[at[j]].fingerprint != k.fingerprint then Fine
    else if HoleBefore(at, j) then PrevMacMismatch
    else if !Unchanged(log, read, at[j]) then MacMismatch
    else Fine
  }

  /** What the scan says about each survivor of a log is exactly its flaw. */
  lemma SurvivorsJudged(h: Hmac, k: Key, log: seq<Link>, read: seq<Link>, at: seq<nat>, j: nat)
    requires Chained(h, log) && Framed(log) && Reread(log, read) && Positions(log, at) && j < |at|
    ensures HasCollision(h, log + read) || Judged(h, k, Pick(read, at), j) == Flaw(k, log, read, at, j)
  {
    var s := Pick(read, at);
    assert RereadAt(log, read, at[j]) && LinkedAt(h, log, at[j]);
    assert s[j].fingerprint == k.fingerprint ==> Key(s[j].fingerprint) == k;
    if !Unchanged(log, read, at[j]) && read[at[j]].mac == Rederived(h, read[at[j]]) {
      RereadCollision(h, log, read, at[j]);
    }
    if j > 0 {
      assert RereadAt(log, read, at[j - 1]) && LinkedAt(h, log, at[j - 1]);
      if s[j].prev == s[j - 1].mac {
        FollowsInLog(h, log, at[j - 1], at[j]);
        if HasCollision(h, log) {
          CollisionWithin(h, log, read);
        }
      }
    }
  }

  /** A link that carries the MAC of what it reads back as, and was signed over something
      else, is one half of a collision. */
  lemma RereadCollision(h: Hmac, log: seq<Link>, read: seq<Link>, i: nat)
    requires Chained(h, log) && Reread(log, read) && i < |log|
    requires !Unchanged(log, read, i) && read[i].mac == Rederived(h, read[i])
    ensures HasCollision(h, log + read)
  {
    assert RereadAt(log, read, i) && LinkedAt(h, log, i);
    var all := log + read;
    assert all[i] == log[i] && all[|log| + i] == read[i];
    assert CollideAt(h, all, i, |log| + i);
  }

  /** Of a link of another key the scan uses nothing but the stored MAC. */
  lemma ForeignLinksTrusted(h: Hmac, k: Key, s: seq<Link>, i: nat, l: Link)
    requires i < |s| && s[i].fingerprint != k.fingerprint && l.fingerprint != k.fingerprint
    requires l.mac == s[i].mac
    ensures Clean(h, k, s[i := l]) <==> Clean(h, k, s)
  {
    var t := s[i := l];
    assert forall j :: Judged(h, k, t, j) == Judged(h, k, s, j);
  }

  /** Cutting links off either end of a clean table leaves it clean: the scan never compares
      the newest link with the stored cursor. */
  lemma EndsMayBeCut(h: Hmac, k: Key, s: seq<Link>, lo: nat, hi: nat)
    requires lo <= hi <= |s| && Clean(h, k, s)
    ensures Clean(h, k, s[lo..hi])
  {
    forall i ensures Judged(h, k, s[lo..hi], i) == Fine {
      assert Judged(h, k, s, lo + i) == Fine;
    }
  }
}
