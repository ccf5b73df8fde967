/** Re-encrypting a list of stored blobs one by one, with everything already written put back
    when one write fails. The database secrets and the device CA both do it this way. */
module Resealing {
  import Sorting

  type Key = nat

  /** Encryption, symbolically: a blob opens under the one key it was sealed with. */
  datatype Blob = Sealed(key: Key, plain: string) | Garbage(bytes: seq<nat>)

  predicate OpensWith(blob: Blob, key: Key) {
    blob.Sealed? && blob.key == key
  }

  /** The place of the first blob, of those seen, that the key does not open, or the number of
      blobs. */
  function FirstClosed(blobs: seq<Blob>, key: Key, sees: nat -> bool): (f: nat)
    ensures f <= |blobs|
    ensures f < |blobs| ==> sees(f) && !OpensWith(blobs[f], key)
    ensures forall i: nat | i < f :: sees(i) ==> OpensWith(blobs[i], key)
  {
    if blobs == [] then 0
    else
      var n := |blobs| - 1;
      var f := FirstClosed(blobs[..n], key, sees);
      if f < n || (sees(n) && !OpensWith(blobs[n], key)) then f else |blobs|
  }

  predicate SeenOpen(blobs: seq<Blob>, key: Key, sees: nat -> bool) {
    forall i: nat | i < |blobs| && sees(i) :: OpensWith(blobs[i], key)
  }

  /** The places seen, in order. */
  function Places(sees: nat -> bool, n: nat): seq<nat> {
    if n == 0 then [] else Places(sees, n - 1) + if sees(n - 1) then [n - 1] else []
  }

  /** How many places below this one are seen. */
  function Rank(sees: nat -> bool, k: nat): nat {
    |Places(sees, k)|
  }

  lemma {:induction false} PlacesGrow(sees: nat -> bool, m: nat, n: nat)
    requires m <= n
    ensures Places(sees, m) <= Places(sees, n)
  {
    if m < n {
      PlacesGrow(sees, m, n - 1);
    }
  }

  lemma RankAt(sees: nat -> bool, n: nat, k: nat)
    requires k < n && sees(k)
    ensures Rank(sees, k) < |Places(sees, n)| && Places(sees, n)[Rank(sees, k)] == k
  {
    PlacesGrow(sees, k + 1, n);
    assert Places(sees, k + 1)[|Places(sees, k)|] == k;
  }

  lemma {:induction false} PlaceAt(sees: nat -> bool, n: nat, i: nat)
    requires i < |Places(sees, n)|
    ensures Places(sees, n)[i] < n && sees(Places(sees, n)[i]) && Rank(sees, Places(sees, n)[i]) == i
  {
    if i < |Places(sees, n - 1)| {
      PlaceAt(sees, n - 1, i);
    }
  }

  /** Places are in the order of their ranks. */
  lemma RankBelow(sees: nat -> bool, k: nat, f: nat)
    requires sees(k)
    ensures k < f <==> Rank(sees, k) < Rank(sees, f)
  {
    if k < f {
      PlacesGrow(sees, k + 1, f);
    } else {
      PlacesGrow(sees, f, k);
    }
  }

  /** They are all the places seen, in ascending order. */
  lemma {:induction false} PlacesMean(sees: nat -> bool, n: nat)
    ensures forall k: nat :: k in Places(sees, n) <==> k < n && sees(k)
    ensures forall i, j | 0 <= i < j < |Places(sees, n)| :: Places(sees, n)[i] < Places(sees, n)[j]
  {
    if n > 0 {
      PlacesMean(sees, n - 1);
      var front := Places(sees, n - 1);
      forall i | 0 <= i < |front| ensures front[i] < n - 1 {
        assert front[i] in front;
      }
    }
  }

  predicate AllOpen(blobs: seq<Blob>, key: Key) {
    forall i | 0 <= i < |blobs| :: OpensWith(blobs[i], key)
  }

  function UnderKey(blob: Blob, key: Key): Blob {
    if blob.Sealed? then Sealed(key, blob.plain) else blob
  }

  /** How the writes go: `accepts(i)` is whether entry i takes its new blob (and whether the
      encryption gave one), `back(i)` whether it takes its old blob again. */
  datatype Writes = Writes(accepts: nat -> bool, back: nat -> bool)

  /** The first of `n` entries that refuses its new blob, or n. */
  function FirstRefused(accepts: nat -> bool, n: nat): (f: nat)
    ensures f <= n && (f < n ==> !accepts(f))
    ensures forall i: nat | i < f :: accepts(i)
  {
    if n == 0 then 0
    else
      var f := FirstRefused(accepts, n - 1);
      if f < n - 1 || !accepts(n - 1) then f else n
  }

  predicate AllAccepted(o: Writes, n: nat) {
    FirstRefused(o.accepts, n) == n
  }

  /** Entry i was written and could not be put back. */
  predicate LeftBehind(o: Writes, n: nat, i: nat) {
    !AllAccepted(o, n) && i < FirstRefused(o.accepts, n) && !o.back(i)
  }

  function SettledAt(was: Blob, key: Key, o: Writes, n: nat, i: nat): Blob {
    if AllAccepted(o, n) || LeftBehind(o, n, i) then UnderKey(was, key) else was
  }

  /** The blobs once it is over. */
  function Settle(blobs: seq<Blob>, key: Key, o: Writes): seq<Blob> {
    seq(|blobs|, i requires 0 <= i < |blobs| => SettledAt(blobs[i], key, o, |blobs|, i))
  }

  /** The writes when only the entries seen take part: of the others nothing is asked. */
  function Masked(sees: nat -> bool, o: Writes): Writes {
    Writes((i: nat) => sees(i) ==> o.accepts(i), (i: nat) => sees(i) ==> o.back(i))
  }

  /** The same when only the entries seen took part. */
  function SettleSeen(blobs: seq<Blob>, sees: nat -> bool, key: Key, o: Writes): seq<Blob> {
    seq(|blobs|, i requires 0 <= i < |blobs| =>
      if sees(i) then SettledAt(blobs[i], key, Masked(sees, o), |blobs|, i) else blobs[i])
  }

  /** The blobs half way: each is the old one or the new one. */
  predicate Mixed(before: seq<Blob>, now: seq<Blob>, key: Key) {
    && |now| == |before|
    && (forall i | 0 <= i < |now| :: now[i] == before[i] || now[i] == UnderKey(before[i], key))
  }

  /** The names of those of the first `n` entries that were not put back, newest first. */
  function NewestFirst(names: seq<string>, back: nat -> bool, n: nat): seq<string>
    requires n <= |names|
  {
    if n == 0 then []
    else (if back(n - 1) then [] else [names[n - 1]]) + NewestFirst(names, back, n - 1)
  }

  function OldestFirst(names: seq<string>, back: nat -> bool, n: nat): seq<string>
    requires n <= |names|
  {
    if n == 0 then []
    else OldestFirst(names, back, n - 1) + if back(n - 1) then [] else [names[n - 1]]
  }

  lemma {:induction false} BothSay(names: seq<string>, back: nat -> bool, n: nat, i: nat)
    requires i < n <= |names|
    ensures !back(i) ==> names[i] in NewestFirst(names, back, n) && names[i] in OldestFirst(names, back, n)
  {
    if i < n - 1 {
      BothSay(names, back, n - 1, i);
    }
  }

  lemma {:induction false} BothSayOnly(names: seq<string>, back: nat -> bool, n: nat, name: string)
    requires n <= |names|
    requires name in NewestFirst(names, back, n) || name in OldestFirst(names, back, n)
    ensures exists i: nat :: i < n && names[i] == name && !back(i)
  {
    if !back(n - 1) && names[n - 1] == name {
    } else {
      BothSayOnly(names, back, n - 1, name);
    }
  }

  lemma AddedFirst(at: seq<nat>, x: nat)
    requires (forall i, j | 0 <= i < j < |at| :: at[i] > at[j]) && (forall i | 0 <= i < |at| :: at[i] < x)
    ensures forall i, j | 0 <= i < j < |at| + 1 :: ([x] + at)[i] > ([x] + at)[j]
    ensures forall i: nat :: i in [x] + at <==> i == x || i in at
  {
  }

  /** The report names the entries that were not put back, each once and in its place: those of
      higher number first. */
  lemma {:induction false} ReportIsNewestFirst(names: seq<string>, back: nat -> bool, n: nat) returns (at: seq<nat>)
    requires n <= |names|
    ensures forall i: nat :: i in at <==> i < n && !back(i)
    ensures forall i, j | 0 <= i < j < |at| :: at[i] > at[j]
    ensures |NewestFirst(names, back, n)| == |at|
    ensures forall i | 0 <= i < |at| :: at[i] < n && NewestFirst(names, back, n)[i] == names[at[i]]
  {
    if n == 0 {
      at := [];
    } else {
      at := ReportIsNewestFirst(names, back, n - 1);
      if !back(n - 1) {
        AddedFirst(at, n - 1);
        ghost var report := NewestFirst(names, back, n - 1);
        at := [n - 1] + at;
        assert NewestFirst(names, back, n) == [names[n - 1]] + report;
      }
    }
  }

  lemma {:induction false} ReportIsOldestFirst(names: seq<string>, back: nat -> bool, n: nat) returns (at: seq<nat>)
    requires n <= |names|
    ensures forall i: nat :: i in at <==> i < n && !back(i)
    ensures forall i, j | 0 <= i < j < |at| :: at[i] < at[j]
    ensures |OldestFirst(names, back, n)| == |at|
    ensures forall i | 0 <= i < |at| :: at[i] < n && OldestFirst(names, back, n)[i] == names[at[i]]
  {
    if n == 0 {
      at := [];
    } else {
      at := ReportIsOldestFirst(names, back, n - 1);
      if !back(n - 1) {
        at := at + [n - 1];
      }
    }
  }

  /** All or nothing, but for the entries named: after a failure an entry holds its exact old
      blob unless its name is in the report; the names in the report, in either order, are
      exactly those of the entries that are under the new key now. */
  lemma ReportIsExact(names: seq<string>, blobs: seq<Blob>, key: Key, o: Writes, i: nat)
    requires |names| == |blobs| && Sorting.Distinct(names) && !AllAccepted(o, |blobs|) && i < |blobs|
    ensures var f := FirstRefused(o.accepts, |blobs|);
            && (names[i] in NewestFirst(names, o.back, f) <==> LeftBehind(o, |blobs|, i))
            && (names[i] in OldestFirst(names, o.back, f) <==> LeftBehind(o, |blobs|, i))
            && Settle(blobs, key, o)[i] == if LeftBehind(o, |blobs|, i) then UnderKey(blobs[i], key) else blobs[i]
  {
    var f := FirstRefused(o.accepts, |blobs|);
    if i < f {
      BothSay(names, o.back, f, i);
    }
    if names[i] in NewestFirst(names, o.back, f) || names[i] in OldestFirst(names, o.back, f) {
      BothSayOnly(names, o.back, f, names[i]);
    }
  }
}
