/** The rotation command as it runs: files and databases changed step by step. Each method
    is equal to its function in KeyRotation, and says what every world on the way keeps. */
module AuthCli {
  import opened Wrappers
  import opened Resealing
  import opened KeyRotation

  /** One secret as the rotation sees it, and where it is stored. */
  datatype Entry = Entry(place: nat, name: string, oldBlob: Blob, plain: string)

  predicate EntryFor(entry: Entry, names: seq<string>, blobs: seq<Blob>, k: nat) {
    k < |names| && k < |blobs| && blobs[k].Sealed? && entry == Entry(k, names[k], blobs[k], blobs[k].plain)
  }

  /** The entries of the secrets seen among the first `m`. */
  predicate EntriesUpTo(entries: seq<Entry>, sees: nat -> bool, names: seq<string>, blobs: seq<Blob>, m: nat) {
    && |entries| == |Places(sees, m)|
    && (forall i | 0 <= i < |entries| :: EntryFor(entries[i], names, blobs, Places(sees, m)[i]))
  }

  predicate EntriesOf(entries: seq<Entry>, sees: nat -> bool, names: seq<string>, blobs: seq<Blob>) {
    |names| == |blobs| && EntriesUpTo(entries, sees, names, blobs, |blobs|)
  }

  lemma EntryAt(entries: seq<Entry>, sees: nat -> bool, names: seq<string>, blobs: seq<Blob>, i: nat)
    requires EntriesOf(entries, sees, names, blobs) && i < |entries|
    ensures |names| == |blobs| && |entries| == |Places(sees, |blobs|)|
    ensures entries[i].place == Places(sees, |blobs|)[i]
    ensures EntryFor(entries[i], names, blobs, entries[i].place)
  {
  }

  /** The blobs after the first `i` entries took their new blob and, of those, the ones from the
      `j`-th on were offered their old blob again. */
  function Underway(blobs: seq<Blob>, sees: nat -> bool, key: Key, back: nat -> bool, j: nat, i: nat): seq<Blob> {
    seq(|blobs|, k requires 0 <= k < |blobs| =>
      if sees(k) && Rank(sees, k) < i && (Rank(sees, k) < j || !back(k)) then UnderKey(blobs[k], key) else blobs[k])
  }

  lemma UnderwayWrites(blobs: seq<Blob>, sees: nat -> bool, key: Key, back: nat -> bool, i: nat)
    requires i < |Places(sees, |blobs|)|
    ensures var p := Places(sees, |blobs|)[i];
            && p < |blobs| && |Underway(blobs, sees, key, back, i, i)| == |blobs|
            && Underway(blobs, sees, key, back, i, i)[p := UnderKey(blobs[p], key)]
               == Underway(blobs, sees, key, back, i + 1, i + 1)
  {
    hide Places;
    PlaceAt(sees, |blobs|, i);
    forall k: nat | k < |blobs| && sees(k) ensures Rank(sees, k) == i <==> k == Places(sees, |blobs|)[i] {
      RankAt(sees, |blobs|, k);
    }
  }

  lemma UnderwayBack(blobs: seq<Blob>, sees: nat -> bool, key: Key, back: nat -> bool, r: nat, i: nat)
    requires r < i <= |Places(sees, |blobs|)|
    ensures var p := Places(sees, |blobs|)[r];
            && p < |blobs| && |Underway(blobs, sees, key, back, r + 1, i)| == |blobs|
            && Underway(blobs, sees, key, back, r, i)
               == if back(p) then Underway(blobs, sees, key, back, r + 1, i)[p := blobs[p]]
                  else Underway(blobs, sees, key, back, r + 1, i)
  {
    hide Places;
    PlaceAt(sees, |blobs|, r);
    forall k: nat | k < |blobs| && sees(k) ensures Rank(sees, k) == r <==> k == Places(sees, |blobs|)[r] {
      RankAt(sees, |blobs|, k);
    }
  }

  lemma UnderwayIsMixed(blobs: seq<Blob>, sees: nat -> bool, key: Key, back: nat -> bool, j: nat, i: nat)
    ensures Mixed(blobs, Underway(blobs, sees, key, back, j, i), key)
  {
  }

  lemma UnderwayIsSettled(blobs: seq<Blob>, sees: nat -> bool, key: Key, o: Writes)
    ensures var f := FirstRefused(Masked(sees, o).accepts, |blobs|);
            var c := Rank(sees, f);
            SettleSeen(blobs, sees, key, o) == if f == |blobs| then Underway(blobs, sees, key, o.back, c, c)
                                               else Underway(blobs, sees, key, o.back, 0, c)
  {
    hide Rank;
    var f := FirstRefused(Masked(sees, o).accepts, |blobs|);
    forall k: nat | sees(k) ensures k < f <==> Rank(sees, k) < Rank(sees, f) {
      RankBelow(sees, k, f);
    }
  }

  /** The same when the old blobs are put back oldest first: those below `j` were offered. */
  function UnderwayUp(blobs: seq<Blob>, key: Key, back: nat -> bool, j: nat, i: nat): seq<Blob> {
    seq(|blobs|, k requires 0 <= k < |blobs| =>
      if k < i && (k >= j || !back(k)) then UnderKey(blobs[k], key) else blobs[k])
  }

  lemma UpWrites(blobs: seq<Blob>, key: Key, back: nat -> bool, i: nat)
    ensures |UnderwayUp(blobs, key, back, 0, i)| == |blobs|
    ensures i < |blobs| ==>
      UnderwayUp(blobs, key, back, 0, i)[i := UnderKey(blobs[i], key)] == UnderwayUp(blobs, key, back, 0, i + 1)
    ensures UnderwayUp(blobs, key, back, 0, 0) == blobs
  {
  }

  lemma UpBack(blobs: seq<Blob>, key: Key, back: nat -> bool, j: nat, i: nat)
    requires j < i <= |blobs|
    ensures |UnderwayUp(blobs, key, back, j, i)| == |blobs|
    ensures UnderwayUp(blobs, key, back, j + 1, i)
         == if back(j) then UnderwayUp(blobs, key, back, j, i)[j := blobs[j]] else UnderwayUp(blobs, key, back, j, i)
  {
  }

  lemma UpIsMixed(blobs: seq<Blob>, key: Key, back: nat -> bool, j: nat, i: nat)
    ensures Mixed(blobs, UnderwayUp(blobs, key, back, j, i), key)
  {
  }

  lemma UpIsSettled(blobs: seq<Blob>, key: Key, o: Writes)
    ensures var f := FirstRefused(o.accepts, |blobs|);
            Settle(blobs, key, o) == if f == |blobs| then UnderwayUp(blobs, key, o.back, 0, f)
                                     else UnderwayUp(blobs, key, o.back, f, f)
  {
  }

  /** Where the entries from the `r`-th on begin. */
  function Cut(sees: nat -> bool, n: nat, r: nat): nat {
    if r < |Places(sees, n)| then Places(sees, n)[r] else n
  }

  lemma NewestFirstNext(names: seq<string>, back: nat -> bool, b: nat)
    requires 0 < b <= |names| && back(b - 1)
    ensures NewestFirst(names, back, b) == NewestFirst(names, back, b - 1)
  {
  }

  lemma {:induction false} SkipUnseen(names: seq<string>, sees: nat -> bool, o: Writes, a: nat, b: nat)
    requires a <= b <= |names| && (forall k: nat | a <= k < b :: !sees(k))
    ensures NewestFirst(names, Masked(sees, o).back, b) == NewestFirst(names, Masked(sees, o).back, a)
  {
    if a < b {
      SkipUnseen(names, sees, o, a, b - 1);
      assert !sees(b - 1) && Masked(sees, o).back(b - 1);
      NewestFirstNext(names, Masked(sees, o).back, b);
    }
  }

  /** Between two entries nothing is seen. */
  lemma NothingBetween(sees: nat -> bool, n: nat, r: nat, k: nat)
    requires r < |Places(sees, n)| && Places(sees, n)[r] < k < Cut(sees, n, r + 1)
    ensures !sees(k)
  {
    hide Places, Rank;
    var p := Places(sees, n)[r];
    PlaceAt(sees, n, r);
    if r + 1 < |Places(sees, n)| {
      PlaceAt(sees, n, r + 1);
    }
    if sees(k) {
      RankAt(sees, n, k);
      RankBelow(sees, p, k);
      RankBelow(sees, k, Cut(sees, n, r + 1));
    }
  }

  lemma CutGrows(sees: nat -> bool, n: nat, r: nat)
    requires r < |Places(sees, n)|
    ensures Cut(sees, n, r) == Places(sees, n)[r] < n && Cut(sees, n, r) < Cut(sees, n, r + 1) <= n
  {
    hide Places, Rank;
    PlaceAt(sees, n, r);
    if r + 1 < |Places(sees, n)| {
      PlaceAt(sees, n, r + 1);
      RankBelow(sees, Places(sees, n)[r], Places(sees, n)[r + 1]);
    }
  }

  /** One entry more in the report, or not. */
  lemma NamesBack(names: seq<string>, sees: nat -> bool, o: Writes, r: nat, before: seq<string>)
    requires r < |Places(sees, |names|)|
    ensures var p := Places(sees, |names|)[r];
            && p < |names| && Cut(sees, |names|, r + 1) <= |names| && Cut(sees, |names|, r) == p
            && before + NewestFirst(names, Masked(sees, o).back, Cut(sees, |names|, r + 1))
               == (if o.back(p) then before else before + [names[p]]) + NewestFirst(names, Masked(sees, o).back, p)
  {
    hide Places, Rank, Cut;
    var n := |names|;
    var p, end := Places(sees, n)[r], Cut(sees, n, r + 1);
    CutGrows(sees, n, r);
    PlaceAt(sees, n, r);
    forall k: nat | p + 1 <= k < end ensures !sees(k) {
      NothingBetween(sees, n, r, k);
    }
    SkipUnseen(names, sees, o, p + 1, end);
    OneNameMore(names, sees, o, p, before);
  }

  lemma OneNameMore(names: seq<string>, sees: nat -> bool, o: Writes, p: nat, before: seq<string>)
    requires p < |names| && sees(p)
    ensures before + NewestFirst(names, Masked(sees, o).back, p + 1)
         == (if o.back(p) then before else before + [names[p]]) + NewestFirst(names, Masked(sees, o).back, p)
  {
  }

  lemma NobodyBack(names: seq<string>, sees: nat -> bool, o: Writes)
    ensures Cut(sees, |names|, 0) <= |names|
    ensures NewestFirst(names, Masked(sees, o).back, Cut(sees, |names|, 0)) == []
  {
    hide Rank, Places;
    if |Places(sees, |names|)| > 0 {
      PlaceAt(sees, |names|, 0);
    }
    var end := Cut(sees, |names|, 0);
    forall k: nat | k < end ensures !sees(k) {
      if sees(k) {
        RankAt(sees, |names|, k);
        RankBelow(sees, k, end);
      }
    }
    SkipUnseen(names, sees, o, 0, end);
  }

  /** The entry that refuses its new blob is at the first place that does. */
  lemma RefusedEntry(sees: nat -> bool, o: Writes, n: nat, i: nat)
    requires i < |Places(sees, n)| && !o.accepts(Places(sees, n)[i])
    requires forall j | 0 <= j < i :: o.accepts(Places(sees, n)[j])
    ensures FirstRefused(Masked(sees, o).accepts, n) == Places(sees, n)[i] < n
    ensures Rank(sees, Places(sees, n)[i]) == i && Cut(sees, n, i) == Places(sees, n)[i]
  {
    hide Places, Rank;
    var p := Places(sees, n)[i];
    PlaceAt(sees, n, i);
    forall j: nat | j < p ensures Masked(sees, o).accepts(j) {
      if sees(j) {
        RankAt(sees, n, j);
        RankBelow(sees, j, p);
      }
    }
    RefusedAt(Masked(sees, o).accepts, n, p);
  }

  lemma AllEntries(sees: nat -> bool, o: Writes, n: nat)
    requires forall j | 0 <= j < |Places(sees, n)| :: o.accepts(Places(sees, n)[j])
    ensures FirstRefused(Masked(sees, o).accepts, n) == n && Rank(sees, n) == |Places(sees, n)|
  {
    forall j: nat | j < n ensures Masked(sees, o).accepts(j) {
      if sees(j) {
        RankAt(sees, n, j);
      }
    }
    AcceptedAll(Masked(sees, o).accepts, n);
  }

  /** Every entry's plaintext is stored under the key, and the labels are the entries' own, in
      their order. */
  predicate AllStored(entries: seq<Entry>, blobs: seq<Blob>, key: Key, labels: seq<string>) {
    && |labels| == |entries|
    && (forall i | 0 <= i < |entries| :: labels[i] == entries[i].name)
    && (forall i | 0 <= i < |entries| ::
          entries[i].place < |blobs| && blobs[entries[i].place] == Sealed(key, entries[i].plain))
  }

  /** The `r`-th entry was the first to refuse, and is the one named; of those before it the
      ones that took it have their old blob back, and everything else was left alone. */
  predicate StoppedAt(entries: seq<Entry>, before: seq<Blob>, blobs: seq<Blob>, key: Key, o: Writes,
                      failed: string, r: nat) {
    && r < |entries| && failed == entries[r].name && !o.accepts(entries[r].place)
    && (forall i | 0 <= i < r :: o.accepts(entries[i].place))
    && (forall i | 0 <= i < |entries| :: entries[i].place < |blobs|
          && blobs[entries[i].place] == if i < r && !o.back(entries[i].place) then Sealed(key, entries[i].plain)
                                        else entries[i].oldBlob)
    && |blobs| == |before|
    && (forall k | 0 <= k < |blobs| ::
          blobs[k] == before[k] || exists i :: 0 <= i < r && entries[i].place == k && !o.back(k))
  }

  lemma EntryPlaces(entries: seq<Entry>, sees: nat -> bool, names: seq<string>, blobs: seq<Blob>, i: nat)
    requires EntriesOf(entries, sees, names, blobs) && i < |entries|
    ensures |names| == |blobs| && |entries| == |Places(sees, |blobs|)|
    ensures var p := entries[i].place;
            && p < |blobs| && p == Places(sees, |blobs|)[i] && sees(p) && Rank(sees, p) == i
            && blobs[p].Sealed? && entries[i] == Entry(p, names[p], blobs[p], blobs[p].plain)
  {
    hide Places, EntriesOf, Rank;
    EntryAt(entries, sees, names, blobs, i);
    PlaceAt(sees, |blobs|, i);
  }

  lemma StoredAre(entries: seq<Entry>, sees: nat -> bool, names: seq<string>, blobs: seq<Blob>, key: Key, o: Writes)
    requires EntriesOf(entries, sees, names, blobs) && AllAccepted(Masked(sees, o), |blobs|)
    requires |names| == |blobs| && (forall i | 0 <= i < |Places(sees, |blobs|)| :: Places(sees, |blobs|)[i] < |names|)
    ensures AllStored(entries, SettleSeen(blobs, sees, key, o), key, NamesAt(names, Places(sees, |blobs|)))
  {
    hide AllAccepted, Places, EntriesOf, Rank;
    EntryCount(entries, sees, names, blobs);
    forall i | 0 <= i < |entries|
      ensures var p := entries[i].place;
              && p < |blobs| && SettleSeen(blobs, sees, key, o)[p] == Sealed(key, entries[i].plain)
              && p == Places(sees, |blobs|)[i] && entries[i].name == names[p]
    {
      EntryPlaces(entries, sees, names, blobs, i);
    }
  }

  lemma StoppedIs(entries: seq<Entry>, sees: nat -> bool, names: seq<string>, blobs: seq<Blob>, key: Key, o: Writes,
                  r: nat)
    requires EntriesOf(entries, sees, names, blobs) && r < |entries|
    requires FirstRefused(Masked(sees, o).accepts, |blobs|) == entries[r].place < |blobs|
    ensures StoppedAt(entries, blobs, SettleSeen(blobs, sees, key, o), key, o, entries[r].name, r)
  {
    hide Places, EntriesOf, Rank, FirstRefused, SettleSeen;
    var f := entries[r].place;
    EntryPlaces(entries, sees, names, blobs, r);
    SettledCount(blobs, sees, key, o);
    assert !Masked(sees, o).accepts(f);
    forall i | 0 <= i < |entries|
      ensures var p := entries[i].place;
              && p < |blobs| && (i < r ==> o.accepts(p))
              && SettleSeen(blobs, sees, key, o)[p]
                 == if i < r && !o.back(p) then Sealed(key, entries[i].plain) else entries[i].oldBlob
    {
      var p := entries[i].place;
      EntryPlaces(entries, sees, names, blobs, i);
      RankBelow(sees, p, f);
      SettledSeenAt(blobs, sees, key, o, f, p);
      assert p < f ==> Masked(sees, o).accepts(p);
    }
    forall k | 0 <= k < |blobs|
      ensures SettleSeen(blobs, sees, key, o)[k] == blobs[k]
              || exists i :: 0 <= i < r && entries[i].place == k && !o.back(k)
    {
      SettledSeenAt(blobs, sees, key, o, f, k);
      if sees(k) && k < f && !o.back(k) {
        RankAt(sees, |blobs|, k);
        RankBelow(sees, k, f);
        EntryPlaces(entries, sees, names, blobs, Rank(sees, k));
        assert entries[Rank(sees, k)].place == k;
      }
    }
  }

  lemma SettledCount(blobs: seq<Blob>, sees: nat -> bool, key: Key, o: Writes)
    ensures |SettleSeen(blobs, sees, key, o)| == |blobs|
  {
  }

  /** What becomes of the entries, entry by entry. */
  lemma OutcomeMeans(entries: seq<Entry>, sees: nat -> bool, names: seq<string>, blobs: seq<Blob>, key: Key,
                     o: Writes)
    requires EntriesOf(entries, sees, names, blobs)
    requires |names| == |blobs| && (forall i | 0 <= i < |Places(sees, |blobs|)| :: Places(sees, |blobs|)[i] < |names|)
    ensures var after, f := SettleSeen(blobs, sees, key, o), FirstRefused(Masked(sees, o).accepts, |blobs|);
            && |after| == |blobs|
            && (if AllAccepted(Masked(sees, o), |blobs|)
                then AllStored(entries, after, key, NamesAt(names, Places(sees, |blobs|)))
                else exists r: nat :: StoppedAt(entries, blobs, after, key, o, names[f], r))
  {
    hide Places, EntriesOf, Rank, FirstRefused, SettleSeen, StoppedAt, AllStored;
    SettledCount(blobs, sees, key, o);
    if AllAccepted(Masked(sees, o), |blobs|) {
      StoredAre(entries, sees, names, blobs, key, o);
    } else {
      var f := FirstRefused(Masked(sees, o).accepts, |blobs|);
      assert !Masked(sees, o).accepts(f);
      RankAt(sees, |blobs|, f);
      EntryCount(entries, sees, names, blobs);
      var r := Rank(sees, f);
      EntryPlaces(entries, sees, names, blobs, r);
      StoppedIs(entries, sees, names, blobs, key, o, r);
      assert StoppedAt(entries, blobs, SettleSeen(blobs, sees, key, o), key, o, names[f], r);
    }
  }

  lemma SettledSeenAt(blobs: seq<Blob>, sees: nat -> bool, key: Key, o: Writes, f: nat, k: nat)
    requires k < |blobs| && f < |blobs| && FirstRefused(Masked(sees, o).accepts, |blobs|) == f
    ensures SettleSeen(blobs, sees, key, o)[k]
         == if sees(k) && k < f && !o.back(k) then UnderKey(blobs[k], key) else blobs[k]
  {
    hide FirstRefused;
  }

  class Host {
    var world: World
    ghost var trace: seq<World>

    constructor (w: World)
      ensures world == w && trace == [w]
    {
      world := w;
      trace := [w];
    }

    /** One write to a database or a change of a file. */
    method Put(w: World)
      modifies this
      ensures world == w && trace == old(trace) + [w]
    {
      world := w;
      trace := trace + [w];
    }

    /** Offers the entries already under the new key their old blob again, newest first, and
        names the ones that do not take it. */
    method PutSecretsBack(entries: seq<Entry>, sees: nat -> bool, names: seq<string>, stored: seq<nat>, key: Key,
                          o: Writes, ghost w0: World)
      returns (notRestored: seq<string>)
      requires EntriesOf(entries, sees, names, w0.secrets) && |stored| <= |entries| && |names| == |w0.secrets|
      requires forall j | 0 <= j < |stored| :: stored[j] == j
      requires world == w0.(secrets := Underway(w0.secrets, sees, key, o.back, |stored|, |stored|))
      modifies this
      ensures world == w0.(secrets := Underway(w0.secrets, sees, key, o.back, 0, |stored|))
      ensures Cut(sees, |names|, |stored|) <= |names|
      ensures notRestored == NewestFirst(names, Masked(sees, o).back, Cut(sees, |names|, |stored|))
      ensures old(trace) <= trace
      ensures forall t | |old(trace)| <= t < |trace| :: Between(w0, trace[t], key)
    {
      hide Underway, Mixed, Masked, NewestFirst, EntriesOf, Places, Cut;
      NobodyBack(names, sees, o);
      notRestored := [];
      var r := |stored|;
      if r > 0 {
        EntryAt(entries, sees, names, w0.secrets, r - 1);
        NamesBack(names, sees, o, r - 1, []);
      }
      ghost var report := NewestFirst(names, Masked(sees, o).back, Cut(sees, |names|, |stored|));
      assert [] + report == report;
      while r > 0
        invariant 0 <= r <= |stored| && Cut(sees, |names|, r) <= |names|
        invariant notRestored + NewestFirst(names, Masked(sees, o).back, Cut(sees, |names|, r)) == report
        invariant world == w0.(secrets := Underway(w0.secrets, sees, key, o.back, r, |stored|))
        invariant old(trace) <= trace
        invariant forall t | |old(trace)| <= t < |trace| :: Between(w0, trace[t], key)
      {
        r := r - 1;
        var k := stored[r];
        EntryAt(entries, sees, names, w0.secrets, k);
        UnderwayBack(w0.secrets, sees, key, o.back, r, |stored|);
        UnderwayIsMixed(w0.secrets, sees, key, o.back, r, |stored|);
        NothingMixed(w0.ca, key);
        NamesBack(names, sees, o, r, notRestored);
        if o.back(entries[k].place) {
          Put(world.(secrets := world.secrets[entries[k].place := entries[k].oldBlob]));
        } else {
          notRestored := notRestored + [entries[k].name];
        }
      }
      assert notRestored + [] == notRestored;
    }

    /** All entries under the new key, or all but the ones named put back to their old blob. */
    method ReencryptAll(entries: seq<Entry>, sees: nat -> bool, names: seq<string>, key: Key, o: Writes)
      returns (ok: bool, failed: string, done: seq<string>, notRestored: seq<string>)
      requires EntriesOf(entries, sees, names, world.secrets) && |names| == |world.secrets|
      modifies this
      ensures var m, n := Masked(sees, o), |old(world).secrets|;
              && (ok <==> AllAccepted(m, n))
              && world == old(world).(secrets := SettleSeen(old(world).secrets, sees, key, o))
              && (forall i | 0 <= i < |Places(sees, n)| :: Places(sees, n)[i] < |names|)
              && (ok ==> done == NamesAt(names, Places(sees, n)))
              && (!ok ==> failed == names[FirstRefused(m.accepts, n)]
                          && notRestored == NewestFirst(names, m.back, FirstRefused(m.accepts, n)))
      ensures |world.secrets| == |old(world).secrets|
      ensures ok ==> AllStored(entries, world.secrets, key, done)
      ensures !ok ==> done == []
                      && exists r: nat :: StoppedAt(entries, old(world).secrets, world.secrets, key, o, failed, r)
      ensures old(trace) <= trace
      ensures forall t | |old(trace)| <= t < |trace| :: Between(old(world), trace[t], key)
      ensures Between(old(world), world, key)
    {
      hide Underway, Mixed, SettleSeen, Masked, EntriesOf, Places, Rank, Cut, NewestFirst, AllStored, StoppedAt;
      ghost var blobs, n, w0 := world.secrets, |world.secrets|, world;
      ghost var places := Places(sees, n);
      PlacesFit(sees, n);
      EntryCount(entries, sees, names, blobs);
      OutcomeMeans(entries, sees, names, blobs, key, o);
      SettledSeenIsMixed(blobs, sees, key, o);
      NothingMixed(world.ca, key);
      UnderwayIsSettled(blobs, sees, key, o);
      NothingUnderway(blobs, sees, key, o.back);
      var stored: seq<nat> := [];
      done, notRestored, failed := [], [], "";
      for i := 0 to |entries|
        invariant |stored| == i && (forall j | 0 <= j < i :: stored[j] == j)
        invariant done == NamesAt(names, places)[..i]
        invariant forall j | 0 <= j < i :: o.accepts(places[j])
        invariant world == w0.(secrets := Underway(blobs, sees, key, o.back, i, i))
        invariant old(trace) <= trace
        invariant forall t | |old(trace)| <= t < |trace| :: Between(w0, trace[t], key)
      {
        EntryAt(entries, sees, names, blobs, i);
        var p, blob := entries[i].place, Sealed(key, entries[i].plain);
        if !o.accepts(p) {
          RefusedEntry(sees, o, n, i);
          notRestored := PutSecretsBack(entries, sees, names, stored, key, o, w0);
          return false, entries[i].name, [], notRestored;
        }
        UnderwayWrites(blobs, sees, key, o.back, i);
        UnderwayIsMixed(blobs, sees, key, o.back, i + 1, i + 1);
        Put(world.(secrets := world.secrets[p := blob]));
        stored := stored + [i];
        done := done + [entries[i].name];
      }
      AllEntries(sees, o, n);
      assert NamesAt(names, places)[..|places|] == NamesAt(names, places);
      ok := true;
    }

    /** The device CA keys: every one is opened with the old key first, and nothing is written
        unless all open. */
    method ResealAll(names: seq<string>, from: Key, to: Key, o: Writes) returns (ok: bool, notRestored: seq<string>)
      requires |names| == |world.ca|
      modifies this
      ensures ok <==> ResealOk(old(world).ca, from, o)
      ensures world == old(world).(ca := Reseal(old(world).ca, from, to, o))
      ensures !ok ==> notRestored == ResealReport(names, old(world).ca, from, o)
      ensures old(trace) <= trace
      ensures forall t | |old(trace)| <= t < |trace| :: Between(old(world), trace[t], to)
      ensures Between(old(world), world, to)
    {
      hide UnderwayUp, Mixed, Settle;
      SettledIsMixed(world.ca, to, o);
      NothingMixed(world.ca, to);
      ghost var w0 := world;
      ghost var n := |world.ca|;
      NothingMixed(world.secrets, to);
      notRestored := [];
      var oldBlobs := world.ca;
      var items: seq<Blob> := [];
      for i := 0 to |oldBlobs|
        invariant |items| == i
        invariant forall k | 0 <= k < i :: OpensWith(oldBlobs[k], from) && items[k] == UnderKey(oldBlobs[k], to)
      {
        if !OpensWith(oldBlobs[i], from) {
          return false, [];
        }
        items := items + [Sealed(to, oldBlobs[i].plain)];
      }
      UpIsSettled(w0.ca, to, o);
      UpWrites(w0.ca, to, o.back, 0);
      for i := 0 to |items|
        invariant forall k: nat | k < i :: o.accepts(k)
        invariant world == w0.(ca := UnderwayUp(w0.ca, to, o.back, 0, i))
        invariant old(trace) <= trace
        invariant forall t | |old(trace)| <= t < |trace| :: Between(w0, trace[t], to)
      {
        UpWrites(w0.ca, to, o.back, i);
        UpIsMixed(w0.ca, to, o.back, 0, i + 1);
        if !o.accepts(i) {
          RefusedAt(o.accepts, n, i);
          notRestored := PutCaBack(names, oldBlobs, i, to, o.back, w0);
          return false, notRestored;
        }
        Put(world.(ca := world.ca[i := items[i]]));
      }
      AcceptedAll(o.accepts, n);
      ok := true;
    }

    method PutCaBack(names: seq<string>, oldBlobs: seq<Blob>, i: nat, to: Key, back: nat -> bool, ghost w0: World)
      returns (notRestored: seq<string>)
      requires |names| == |w0.ca| && i <= |w0.ca| && oldBlobs == w0.ca
      requires world == w0.(ca := UnderwayUp(w0.ca, to, back, 0, i))
      modifies this
      ensures world == w0.(ca := UnderwayUp(w0.ca, to, back, i, i))
      ensures notRestored == OldestFirst(names, back, i)
      ensures old(trace) <= trace
      ensures forall t | |old(trace)| <= t < |trace| :: Between(w0, trace[t], to)
    {
      hide UnderwayUp, Mixed;
      NothingMixed(w0.secrets, to);
      notRestored := [];
      for j := 0 to i
        invariant world == w0.(ca := UnderwayUp(w0.ca, to, back, j, i))
        invariant notRestored == OldestFirst(names, back, j)
        invariant old(trace) <= trace
        invariant forall t | |old(trace)| <= t < |trace| :: Between(w0, trace[t], to)
      {
        UpBack(w0.ca, to, back, j, i);
        UpIsMixed(w0.ca, to, back, j + 1, i);
        if back(j) {
          Put(world.(ca := world.ca[j := oldBlobs[j]]));
        } else {
          notRestored := notRestored + [names[j]];
        }
      }
    }

    /** Every secret that can be read, opened with the current key before anything is changed. */
    method Collect(site: Site, luck: Luck, key: Key) returns (refusal: Option<Exit>, entries: seq<Entry>)
      requires Fits(site, world) && luck.stopped && world.live == Holds(key) && luck.unlocks && luck.dbOpens
      ensures refusal == Refusal(site, world, luck)
      ensures refusal == None ==> EntriesOf(entries, Sees(site, luck), site.secretNames, world.secrets)
    {
      hide FirstClosed, EntryFor;
      entries := [];
      var sees, n := Sees(site, luck), |world.secrets|;
      for i := 0 to n + 1
        invariant EntriesUpTo(entries, sees, site.secretNames, world.secrets, if i <= n then i else n)
        invariant i > site.auth ==> luck.mountsThere ==> luck.mountsOpens
        invariant forall k: nat | k < i && k < n && sees(k) :: OpensWith(world.secrets[k], key)
      {
        if i == site.auth && luck.mountsThere && !luck.mountsOpens {
          SeenOpenSoFar(world.secrets, key, sees, i);
          return Some(NoMounts), [];
        }
        if i < n {
          if sees(i) {
            var blob := world.secrets[i];
            if !OpensWith(blob, key) {
              FirstClosedAt(world.secrets, key, sees, i);
              return Some(Refused(site.secretNames[i])), [];
            }
            entries := entries + [Entry(i, site.secretNames[i], blob, blob.plain)];
            assert EntryFor(entries[|entries| - 1], site.secretNames, world.secrets, i) by {
              NewEntry(site.secretNames, world.secrets, i);
            }
          }
        }
      }
      SeenOpenSoFar(world.secrets, key, sees, n);
      refusal := None;
    }

    method StageKey(luck: Luck) returns (staged: bool)
      modifies this
      ensures world == Stage(old(world), luck) && (staged <==> Staged(old(world), luck))
      ensures old(trace) <= trace
      ensures forall t | |old(trace)| <= t < |trace| :: trace[t].(staged := old(world).staged) == old(world)
    {
      if luck.clears {
        Put(world.(staged := Missing));
      }
      if world.staged != Missing || luck.staging.WrapFails? || luck.staging.CreateFails? {
        return false;
      }
      Put(world.(staged := Unreadable));
      match luck.staging
      case ShortWrite(cleaned) =>
        if cleaned {
          Put(world.(staged := Missing));
        }
        staged := false;
      case Written(content) =>
        Put(world.(staged := content));
        staged := true;
    }

    method DiscardStaged(luck: Luck)
      modifies this
      ensures world == Discard(old(world), luck)
      ensures trace == old(trace) || trace == old(trace) + [world]
    {
      if luck.discards {
        Put(world.(staged := Missing));
      }
    }

    method CommitReplace(luck: Luck) returns (failed: Option<Exit>)
      modifies this
      ensures (world, failed) == Commit(old(world), luck)
      ensures old(trace) <= trace
      ensures forall t | |old(trace)| <= t < |trace| :: KeepsAllKeys(old(world), trace[t])
    {
      if !luck.backsUp {
        return Some(BackupFailed);
      }
      Put(world.(live := Missing, backups := world.backups + [world.live]));
      if !luck.moves {
        return Some(MoveFailed);
      }
      Put(world.(live := world.staged, staged := Missing));
      failed := None;
    }

    /** The whole command. Whatever fails, the world and the exit are those of Rotated; and in
        every world on the way each secret and each device CA key the old key opened is
        readable with a key on disk. Only the very last step of a failed rotation, the removal
        of the staged key, can end that (SecretStranded and CaStranded say for whom). */
    method Rotate(site: Site, luck: Luck) returns (exit: Exit)
      requires Fits(site, world)
      modifies this
      ensures (world, exit) == Rotated(site, old(world), luck)
      ensures old(trace) <= trace
      ensures forall t | |old(trace)| <= t < |trace| ::
        AllKept(old(world), trace[t]) || ((exit.CaRefused? || exit.StoreFailed?) && t == |trace| - 1)
    {
      hide Settle, SettleSeen, AllKept, Between, Mixed, AllOpen, AllAccepted, KeepsAllKeys,
           EntriesOf, Staged, Stage, Sees;
      if !luck.stopped {
        return StillRunning;
      }
      if !world.live.Holds? || !luck.unlocks {
        return NoCurrentKey;
      }
      if !luck.dbOpens {
        return NoDatabase;
      }
      var from := world.live.key;
      var refusal, entries := Collect(site, luck, from);
      if refusal.Some? {
        return refusal.value;
      }
      ghost var w0 := world;
      EverythingOpens(site, w0, luck);
      var staged := StageKey(luck);
      StageLeavesLists(w0, luck);
      ghost var w1 := world;
      KeptWhileStaging(w0, trace, |old(trace)|);
      if !staged {
        return NotStaged;
      }
      if !world.staged.Holds? {
        DiscardStaged(luck);
        KeptWhileStaging(w0, trace, |old(trace)|);
        return NotReadBack;
      }
      assert Sheltered(w0, world, from, world.staged.key);
      exit := ReencryptStores(site, luck, from, world.staged.key, entries, w0);
    }

    /** From the moment both keys are on disk. */
    method ReencryptStores(site: Site, luck: Luck, from: Key, to: Key, entries: seq<Entry>, ghost w0: World)
      returns (exit: Exit)
      requires Fits(site, world) && EntriesOf(entries, Sees(site, luck), site.secretNames, world.secrets)
      requires Sheltered(w0, world, from, to)
      modifies this
      ensures (world, exit) == Reencrypt(site, old(world), from, to, luck)
      ensures old(trace) <= trace
      ensures forall t | |old(trace)| <= t < |trace| ::
        AllKept(w0, trace[t]) || ((exit.CaRefused? || exit.StoreFailed?) && t == |trace| - 1)
    {
      hide Settle, SettleSeen, AllKept, Between, AllOpen, AllAccepted, KeepsAllKeys, EntriesOf, Sheltered, Sees, Masked;
      hide Commit, Reseal, ResealOk, FirstRefused;
      var ok, notRestored := true, [];
      ghost var w := world;
      ghost var start := |trace|;
      if site.hasCa {
        ok, notRestored := ResealAll(site.caNames, from, to, luck.reseal);
        StillSheltered(w0, w, world, trace, start, from, to, to);
        if !ok {
          DiscardStaged(luck);
          return CaRefused(notRestored);
        }
      }
      w, start := world, |trace|;
      var failed, rotated;
      ok, failed, rotated, notRestored := ReencryptAll(entries, Sees(site, luck), site.secretNames, to, luck.store);
      StillSheltered(w0, w, world, trace, start, from, to, to);
      if !ok {
        var caBack := NoCa;
        if site.hasCa {
          w, start := world, |trace|;
          var back, left := ResealAll(site.caNames, to, from, luck.putBack);
          StillSheltered(w0, w, world, trace, start, from, to, from);
          caBack := if back then PutBack else StillNew(left);
        }
        DiscardStaged(luck);
        return StoreFailed(failed, notRestored, caBack);
      }
      assert SeenNames(site, luck) + [] == SeenNames(site, luck);
      if site.hasCa {
        rotated := rotated + ["device_ca"];
      }
      w, start := world, |trace|;
      var broken := CommitReplace(luck);
      KeptWhileCommitting(w0, w, trace, start, from, to);
      exit := if broken.Some? then broken.value else Done(rotated);
    }
  }

  lemma NewEntry(names: seq<string>, blobs: seq<Blob>, i: nat)
    requires i < |names| && i < |blobs| && blobs[i].Sealed?
    ensures EntryFor(Entry(i, names[i], blobs[i], blobs[i].plain), names, blobs, i)
  {
  }

  lemma EntryCount(entries: seq<Entry>, sees: nat -> bool, names: seq<string>, blobs: seq<Blob>)
    requires EntriesOf(entries, sees, names, blobs)
    ensures |entries| == |Places(sees, |blobs|)|
  {
  }

  lemma FirstClosedAt(blobs: seq<Blob>, key: Key, sees: nat -> bool, i: nat)
    requires i < |blobs| && sees(i) && !OpensWith(blobs[i], key)
    requires forall k: nat | k < i && sees(k) :: OpensWith(blobs[k], key)
    ensures FirstClosed(blobs, key, sees) == i
  {
    var f := FirstClosed(blobs, key, sees);
    assert f < |blobs| ==> sees(f) && !OpensWith(blobs[f], key);
  }

  lemma SeenOpenSoFar(blobs: seq<Blob>, key: Key, sees: nat -> bool, i: nat)
    requires i <= |blobs| && (forall k: nat | k < i && sees(k) :: OpensWith(blobs[k], key))
    ensures FirstClosed(blobs, key, sees) >= i
  {
    var f := FirstClosed(blobs, key, sees);
    assert f < |blobs| ==> sees(f) && !OpensWith(blobs[f], key);
  }

  /** The same lists, and every key on disk before is on disk still. */
  ghost predicate KeepsAllKeys(w: World, w': World) {
    w'.secrets == w.secrets && w'.ca == w.ca && (forall key :: OnDisk(w, key) ==> OnDisk(w', key))
  }

  lemma EverythingOpens(site: Site, w: World, luck: Luck)
    requires Fits(site, w) && Refusal(site, w, luck) == None
    ensures w.live.Holds?
  {
    NothingRefused(site, w, luck);
  }

  lemma KeptWhileStaging(w0: World, trace: seq<World>, start: nat)
    requires w0.live.Holds? && start <= |trace|
    requires forall t | start <= t < |trace| :: trace[t].(staged := w0.staged) == w0
    ensures forall t | start <= t < |trace| :: AllKept(w0, trace[t])
  {
  }

  /** While both keys are on disk, being under either is enough. */
  predicate UnderEither(before: seq<Blob>, now: seq<Blob>, from: Key, to: Key) {
    && |now| == |before|
    && (forall i | 0 <= i < |now| :: OpensWith(before[i], from) ==>
          now[i] == before[i] || now[i] == UnderKey(before[i], to))
  }

  predicate Sheltered(w0: World, w: World, from: Key, to: Key) {
    && w0.live == w.live == Holds(from) && w.staged == Holds(to)
    && UnderEither(w0.secrets, w.secrets, from, to) && UnderEither(w0.ca, w.ca, from, to)
  }

  lemma ShelteredIsKept(w0: World, w: World, from: Key, to: Key)
    requires Sheltered(w0, w, from, to)
    ensures AllKept(w0, w)
  {
  }

  lemma EitherStays(before: seq<Blob>, now: seq<Blob>, after: seq<Blob>, from: Key, to: Key, key: Key)
    requires UnderEither(before, now, from, to) && Mixed(now, after, key) && (key == from || key == to)
    ensures UnderEither(before, after, from, to)
  {
    forall i | 0 <= i < |after| && OpensWith(before[i], from)
      ensures after[i] == before[i] || after[i] == UnderKey(before[i], to)
    {
      assert after[i] == now[i] || after[i] == UnderKey(now[i], key);
    }
  }

  lemma ShelterStays(w0: World, w: World, w': World, from: Key, to: Key, key: Key)
    requires Sheltered(w0, w, from, to) && Between(w, w', key) && (key == from || key == to)
    ensures Sheltered(w0, w', from, to)
  {
    hide Mixed, UnderEither;
    EitherStays(w0.secrets, w.secrets, w'.secrets, from, to, key);
    EitherStays(w0.ca, w.ca, w'.ca, from, to, key);
  }

  /** Through a re-encryption in either direction everything stays readable. */
  lemma StillSheltered(w0: World, w: World, w': World, trace: seq<World>, start: nat, from: Key, to: Key, key: Key)
    requires Sheltered(w0, w, from, to) && (key == from || key == to) && start <= |trace| && Between(w, w', key)
    requires forall t | start <= t < |trace| :: Between(w, trace[t], key)
    ensures Sheltered(w0, w', from, to)
    ensures forall t | start <= t < |trace| :: AllKept(w0, trace[t])
  {
    hide Sheltered, Between, AllKept;
    ShelterStays(w0, w, w', from, to, key);
    forall t | start <= t < |trace| ensures AllKept(w0, trace[t]) {
      ShelterStays(w0, w, trace[t], from, to, key);
      ShelteredIsKept(w0, trace[t], from, to);
    }
  }

  lemma KeptWhileCommitting(w0: World, w: World, trace: seq<World>, start: nat, from: Key, to: Key)
    requires Sheltered(w0, w, from, to) && start <= |trace|
    requires forall t | start <= t < |trace| :: KeepsAllKeys(w, trace[t])
    ensures forall t | start <= t < |trace| :: AllKept(w0, trace[t])
  {
    ShelteredIsKept(w0, w, from, to);
    forall t | start <= t < |trace| ensures AllKept(w0, trace[t]) {
      KeysKept(w0, w, trace[t]);
    }
  }

  lemma KeysKept(w0: World, w: World, w': World)
    requires AllKept(w0, w) && KeepsAllKeys(w, w')
    ensures AllKept(w0, w')
  {
    hide OnDisk;
    forall i: nat | i < |w0.secrets| ensures SecretKept(w0, w', i) {
      assert SecretKept(w0, w, i);
    }
    forall i: nat | i < |w0.ca| ensures CaKept(w0, w', i) {
      assert CaKept(w0, w, i);
    }
  }

  lemma SettledIsMixed(blobs: seq<Blob>, key: Key, o: Writes)
    ensures Mixed(blobs, Settle(blobs, key, o), key)
  {
  }

  lemma SettledSeenIsMixed(blobs: seq<Blob>, sees: nat -> bool, key: Key, o: Writes)
    ensures Mixed(blobs, SettleSeen(blobs, sees, key, o), key)
  {
    hide AllAccepted, LeftBehind, Masked;
    var settled := SettleSeen(blobs, sees, key, o);
    forall i: nat | i < |blobs| ensures settled[i] == blobs[i] || settled[i] == UnderKey(blobs[i], key) {
      assert settled[i] == if sees(i) then SettledAt(blobs[i], key, Masked(sees, o), |blobs|, i) else blobs[i];
    }
  }

  lemma NothingMixed(blobs: seq<Blob>, key: Key)
    ensures Mixed(blobs, blobs, key)
  {
  }

  lemma NothingUnderway(blobs: seq<Blob>, sees: nat -> bool, key: Key, back: nat -> bool)
    ensures Underway(blobs, sees, key, back, 0, 0) == blobs
  {
    hide Rank;
    var underway := Underway(blobs, sees, key, back, 0, 0);
    forall i: nat | i < |blobs| ensures underway[i] == blobs[i] {
      assert Rank(sees, i) >= 0;
    }
  }

  lemma {:induction false} RefusedAt(accepts: nat -> bool, n: nat, i: nat)
    requires i < n && !accepts(i) && (forall j: nat | j < i :: accepts(j))
    ensures FirstRefused(accepts, n) == i
  {
    if n - 1 > i {
      RefusedAt(accepts, n - 1, i);
    } else {
      AcceptedAll(accepts, n - 1);
    }
  }

  lemma {:induction false} AcceptedAll(accepts: nat -> bool, n: nat)
    requires forall j: nat | j < n :: accepts(j)
    ensures FirstRefused(accepts, n) == n
  {
    if n > 0 {
      AcceptedAll(accepts, n - 1);
    }
  }
}
