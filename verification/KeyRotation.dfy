/** Rotation of the master key kept in a file: what ends up where, for every way the
    database, the device CA and the file system can fail. */
module KeyRotation {
  import opened Wrappers
  import opened Resealing

  datatype KeyFile = Missing | Holds(key: Key) | Unreadable

  /** The key files, the secrets of the databases and the device CA's key files. */
  datatype World = World(live: KeyFile, staged: KeyFile, backups: seq<KeyFile>, secrets: seq<Blob>, ca: seq<Blob>)

  /** What a run of the command finds: `secretNames` and `caNames` name the entries of the two
      lists, the first `auth` secrets are in auth.db and the others in mounts.db. */
  datatype Site = Site(secretNames: seq<string>, auth: nat, caNames: seq<string>, hasCa: bool)

  predicate Fits(site: Site, w: World) {
    |site.secretNames| == |w.secrets| && site.auth <= |w.secrets| && |site.caNames| == |w.ca|
  }

  /** How writing the staged key file goes. */
  datatype Staging = WrapFails | CreateFails | ShortWrite(cleaned: bool) | Written(content: KeyFile)

  /** Everything the command does not decide: whether the service is stopped, whether the
      current key can be opened and may be rotated here, whether mounts.db is found and the
      databases open, which secrets can be read, and how each write goes. A secret whose
      SELECT fails is taken for one that is not there. */
  datatype Luck = Luck(
    stopped: bool, unlocks: bool, dbOpens: bool, mountsThere: bool, mountsOpens: bool, seen: nat -> bool,
    clears: bool, staging: Staging, discards: bool,
    reseal: Writes, store: Writes, putBack: Writes,
    backsUp: bool, moves: bool)

  datatype CaBack = NoCa | PutBack | StillNew(notRestored: seq<string>)

  datatype Exit =
    | StillRunning | NoCurrentKey | NoDatabase | NoMounts | Refused(name: string)
    | NotStaged | NotReadBack
    | CaRefused(notRestored: seq<string>)
    | StoreFailed(failed: string, notRestored: seq<string>, caBack: CaBack)
    | BackupFailed | MoveFailed
    | Done(rotated: seq<string>)

  // ---- the run as a function ------------------------------------------------------------

  /** The secrets this run knows of. */
  function Sees(site: Site, luck: Luck): nat -> bool {
    (i: nat) => luck.seen(i) && (i < site.auth || luck.mountsThere)
  }

  function Stores(site: Site, luck: Luck): Writes {
    Masked(Sees(site, luck), luck.store)
  }

  function NamesAt(names: seq<string>, places: seq<nat>): (r: seq<string>)
    requires forall i | 0 <= i < |places| :: places[i] < |names|
    ensures |r| == |places| && (forall i | 0 <= i < |r| :: r[i] == names[places[i]])
  {
    seq(|places|, i requires 0 <= i < |places| => names[places[i]])
  }

  /** The names of the secrets this run knows of. */
  function SeenNames(site: Site, luck: Luck): seq<string> {
    PlacesFit(Sees(site, luck), |site.secretNames|);
    NamesAt(site.secretNames, Places(Sees(site, luck), |site.secretNames|))
  }

  lemma {:induction false} PlacesFit(sees: nat -> bool, n: nat)
    ensures forall i | 0 <= i < |Places(sees, n)| :: Places(sees, n)[i] < n
  {
    if n > 0 {
      PlacesFit(sees, n - 1);
    }
  }

  /** Everything that is checked before anything is changed. */
  function Refusal(site: Site, w: World, luck: Luck): Option<Exit>
    requires Fits(site, w)
  {
    if !luck.stopped then Some(StillRunning)
    else if !w.live.Holds? || !luck.unlocks then Some(NoCurrentKey)
    else if !luck.dbOpens then Some(NoDatabase)
    else
      var f := FirstClosed(w.secrets, w.live.key, Sees(site, luck));
      if f < site.auth then Some(Refused(site.secretNames[f]))
      else if luck.mountsThere && !luck.mountsOpens then Some(NoMounts)
      else if f < |w.secrets| then Some(Refused(site.secretNames[f]))
      else None
  }

  /** stage() first removes what an unfinished rotation left, then creates the file anew. */
  function Stage(w: World, luck: Luck): World {
    var cleared := if luck.clears then w.(staged := Missing) else w;
    if cleared.staged != Missing then cleared
    else match luck.staging
      case WrapFails => cleared
      case CreateFails => cleared
      case ShortWrite(cleaned) => if cleaned then cleared else cleared.(staged := Unreadable)
      case Written(content) => cleared.(staged := content)
  }

  predicate Staged(w: World, luck: Luck) {
    (luck.clears || w.staged == Missing) && luck.staging.Written?
  }

  function Discard(w: World, luck: Luck): World {
    if luck.discards then w.(staged := Missing) else w
  }

  predicate ResealOk(ca: seq<Blob>, from: Key, o: Writes) {
    AllOpen(ca, from) && AllAccepted(o, |ca|)
  }

  function Reseal(ca: seq<Blob>, from: Key, to: Key, o: Writes): (r: seq<Blob>)
    ensures |r| == |ca|
  {
    if AllOpen(ca, from) then Settle(ca, to, o) else ca
  }

  function ResealReport(names: seq<string>, ca: seq<Blob>, from: Key, o: Writes): seq<string>
    requires |names| == |ca|
  {
    if AllOpen(ca, from) then OldestFirst(names, o.back, FirstRefused(o.accepts, |ca|)) else []
  }

  function Commit(w: World, luck: Luck): (World, Option<Exit>) {
    if !luck.backsUp then (w, Some(BackupFailed))
    else
      var backed := w.(live := Missing, backups := w.backups + [w.live]);
      if !luck.moves then (backed, Some(MoveFailed))
      else (backed.(live := w.staged, staged := Missing), None)
  }

  /** The second half: both keys are on disk, `from` live and `to` staged. */
  function Reencrypt(site: Site, w: World, from: Key, to: Key, luck: Luck): (World, Exit)
    requires Fits(site, w)
  {
    if site.hasCa && !ResealOk(w.ca, from, luck.reseal) then
      (Discard(w.(ca := Reseal(w.ca, from, to, luck.reseal)), luck),
       CaRefused(ResealReport(site.caNames, w.ca, from, luck.reseal)))
    else
      var w1 := if site.hasCa then w.(ca := Reseal(w.ca, from, to, luck.reseal)) else w;
      var w2 := w1.(secrets := SettleSeen(w1.secrets, Sees(site, luck), to, luck.store));
      var o, n := Stores(site, luck), |w.secrets|;
      if !AllAccepted(o, n) then
        var f := FirstRefused(o.accepts, n);
        var w3 := if site.hasCa then w2.(ca := Reseal(w2.ca, to, from, luck.putBack)) else w2;
        var caBack := if !site.hasCa then NoCa
                      else if ResealOk(w2.ca, to, luck.putBack) then PutBack
                      else StillNew(ResealReport(site.caNames, w2.ca, to, luck.putBack));
        (Discard(w3, luck),
         StoreFailed(site.secretNames[f], NewestFirst(site.secretNames, o.back, f), caBack))
      else
        var (w3, failed) := Commit(w2, luck);
        (w3, if failed.Some? then failed.value
             else Done(SeenNames(site, luck) + if site.hasCa then ["device_ca"] else []))
  }

  function Rotated(site: Site, w: World, luck: Luck): (World, Exit)
    requires Fits(site, w)
  {
    var refusal := Refusal(site, w, luck);
    if refusal.Some? then (w, refusal.value)
    else
      var w1 := Stage(w, luck);
      if !Staged(w, luck) then (w1, NotStaged)
      else if !w1.staged.Holds? then (Discard(w1, luck), NotReadBack)
      else Reencrypt(site, w1, w.live.key, w1.staged.key, luck)
  }

  // ---- what is readable -----------------------------------------------------------------

  predicate OnDisk(w: World, key: Key) {
    w.live == Holds(key) || w.staged == Holds(key) || Holds(key) in w.backups
  }

  predicate Readable(w: World, blob: Blob, plain: string) {
    blob.Sealed? && blob.plain == plain && OnDisk(w, blob.key)
  }

  predicate SecretKept(w0: World, w: World, i: nat)
    requires i < |w0.secrets|
  {
    w0.live.Holds? && OpensWith(w0.secrets[i], w0.live.key) ==>
      i < |w.secrets| && Readable(w, w.secrets[i], w0.secrets[i].plain)
  }

  predicate CaKept(w0: World, w: World, i: nat)
    requires i < |w0.ca|
  {
    w0.live.Holds? && OpensWith(w0.ca[i], w0.live.key) ==>
      i < |w.ca| && Readable(w, w.ca[i], w0.ca[i].plain)
  }

  predicate AllKept(w0: World, w: World) {
    && (forall i: nat | i < |w0.secrets| :: SecretKept(w0, w, i))
    && (forall i: nat | i < |w0.ca| :: CaKept(w0, w, i))
  }

  /** Both lists are between what they were and what they are to become, the files as they
      were. */
  predicate Between(w0: World, w: World, to: Key) {
    && w.(secrets := w0.secrets, ca := w0.ca) == w0
    && Mixed(w0.secrets, w.secrets, to) && Mixed(w0.ca, w.ca, to)
  }

  // ---- success, refusal -------------------------------------------------------------------

  predicate AllUnder(before: seq<Blob>, now: seq<Blob>, key: Key) {
    && |now| == |before|
    && (forall i | 0 <= i < |now| :: before[i].Sealed? && now[i] == Sealed(key, before[i].plain))
  }

  lemma SettledUnder(blobs: seq<Blob>, from: Key, to: Key, o: Writes)
    requires AllOpen(blobs, from) && AllAccepted(o, |blobs|)
    ensures AllUnder(blobs, Settle(blobs, to, o), to)
  {
    assert forall i | 0 <= i < |blobs| :: OpensWith(blobs[i], from);
  }

  lemma NothingRefused(site: Site, w: World, luck: Luck)
    requires Fits(site, w)
    ensures Refusal(site, w, luck) == None <==>
      && luck.stopped && w.live.Holds? && luck.unlocks && luck.dbOpens && (luck.mountsThere ==> luck.mountsOpens)
      && SeenOpen(w.secrets, w.live.key, Sees(site, luck))
  {
    if w.live.Holds? {
      var f := FirstClosed(w.secrets, w.live.key, Sees(site, luck));
      assert f < |w.secrets| ==> !OpensWith(w.secrets[f], w.live.key);
    }
  }

  /** A secret the run can read, and which the live key does not open: what refuses a run. */
  predicate ClosedAt(site: Site, w: World, luck: Luck, i: nat)
    requires Fits(site, w)
  {
    && i < |w.secrets| && luck.seen(i) && (i < site.auth || luck.mountsThere)
    && w.live.Holds? && !(w.secrets[i].Sealed? && w.secrets[i].key == w.live.key)
  }

  /** What each refusal means. They come in this order: the service runs; the current key is not
      there or cannot be opened; auth.db; the first of its secrets that does not open, by name;
      mounts.db; the first of its secrets. */
  lemma RefusalMeans(site: Site, w: World, luck: Luck)
    requires Fits(site, w)
    ensures var r := Refusal(site, w, luck);
            && (r == Some(StillRunning) <==> !luck.stopped)
            && (r == Some(NoCurrentKey) <==> luck.stopped && !(w.live.Holds? && luck.unlocks))
            && (r == Some(NoDatabase) <==> luck.stopped && w.live.Holds? && luck.unlocks && !luck.dbOpens)
            && (r == Some(NoMounts) <==>
                  && luck.stopped && w.live.Holds? && luck.unlocks && luck.dbOpens
                  && luck.mountsThere && !luck.mountsOpens
                  && (forall i: nat | i < site.auth :: !ClosedAt(site, w, luck, i)))
            && (r.Some? && r.value.Refused? ==>
                  && luck.stopped && luck.unlocks && luck.dbOpens
                  && exists i: nat :: && ClosedAt(site, w, luck, i) && r.value.name == site.secretNames[i]
                                      && (forall k: nat | k < i :: !ClosedAt(site, w, luck, k)))
  {
    if w.live.Holds? {
      var f := FirstClosed(w.secrets, w.live.key, Sees(site, luck));
      forall k: nat | k < f ensures !ClosedAt(site, w, luck, k) {
        assert Sees(site, luck)(k) ==> OpensWith(w.secrets[k], w.live.key);
      }
      if f < |w.secrets| {
        assert Sees(site, luck)(f) && !OpensWith(w.secrets[f], w.live.key);
        assert ClosedAt(site, w, luck, f);
      }
    }
  }

  /** Of the secrets, those seen are under the key and say what they said, the others are as
      they were. */
  predicate SeenUnder(before: seq<Blob>, now: seq<Blob>, sees: nat -> bool, key: Key) {
    && |now| == |before|
    && (forall i: nat | i < |now| && sees(i) :: before[i].Sealed? && now[i] == Sealed(key, before[i].plain))
    && (forall i: nat | i < |now| && !sees(i) :: now[i] == before[i])
  }

  lemma SettledSeen(blobs: seq<Blob>, sees: nat -> bool, from: Key, to: Key, o: Writes)
    requires SeenOpen(blobs, from, sees) && AllAccepted(Masked(sees, o), |blobs|)
    ensures SeenUnder(blobs, SettleSeen(blobs, sees, to, o), sees, to)
  {
    hide AllAccepted;
    assert forall i: nat | i < |blobs| && sees(i) :: OpensWith(blobs[i], from);
  }

  /** The labels are the names of the secrets at these places, in order, and behind them
      "device_ca" if there is one. */
  predicate SaysAll(site: Site, labels: seq<string>, places: seq<nat>) {
    && |labels| == |places| + (if site.hasCa then 1 else 0)
    && (forall j | 0 <= j < |places| :: places[j] < |site.secretNames| && labels[j] == site.secretNames[places[j]])
    && (site.hasCa ==> labels[|places|] == "device_ca")
  }

  lemma SeenNamesSay(site: Site, luck: Luck)
    ensures SaysAll(site, SeenNames(site, luck) + (if site.hasCa then ["device_ca"] else []),
                    Places(Sees(site, luck), |site.secretNames|))
  {
    hide Places;
    PlacesFit(Sees(site, luck), |site.secretNames|);
  }

  /** A finished rotation: the key read back from the staged file is live, every secret the run
      saw and every device CA key is sealed with it and says what it said, a secret it did not
      see is as it was, and the old key is a backup. */
  lemma DoneMeans(site: Site, w: World, luck: Luck)
    requires Fits(site, w) && Rotated(site, w, luck).1.Done?
    ensures var (w', exit) := Rotated(site, w, luck);
            && luck.staging.Written? && luck.staging.content.Holds?
            && w'.live == luck.staging.content && w'.staged == Missing
            && w.live.Holds? && w'.backups == w.backups + [w.live]
            && SeenUnder(w.secrets, w'.secrets, Sees(site, luck), w'.live.key)
            && (site.hasCa ==> AllUnder(w.ca, w'.ca, w'.live.key))
            && (!site.hasCa ==> w'.ca == w.ca)
            && SaysAll(site, exit.rotated, Places(Sees(site, luck), |w.secrets|))
  {
    SeenNamesSay(site, luck);
    hide Settle, SettleSeen, AllOpen, AllUnder, SeenOpen, SeenUnder, SeenNames, FirstRefused, FirstClosed, Sees, Masked;
    NothingRefused(site, w, luck);
    var to := luck.staging.content.key;
    SettledSeen(w.secrets, Sees(site, luck), w.live.key, to, luck.store);
    if site.hasCa {
      SettledUnder(w.ca, w.live.key, to, luck.reseal);
    }
  }

  predicate Checked(exit: Exit) {
    !exit.StillRunning? && !exit.NoCurrentKey? && !exit.NoDatabase? && !exit.NoMounts? && !exit.Refused?
  }

  /** A run that gets past the checks is one that nothing refuses; any other changes nothing. */
  lemma RefusedChangesNothing(site: Site, w: World, luck: Luck)
    requires Fits(site, w)
    ensures Checked(Rotated(site, w, luck).1) <==> Refusal(site, w, luck) == None
    ensures !Checked(Rotated(site, w, luck).1) ==> Rotated(site, w, luck).0 == w
  {
    hide Settle, FirstRefused, Stage, Staged, ResealOk, Reseal;
  }

  // ---- nothing is stranded ----------------------------------------------------------------

  lemma StageLeavesLists(w: World, luck: Luck)
    ensures Stage(w, luck).(staged := w.staged) == w
    ensures Staged(w, luck) ==> Stage(w, luck).staged == luck.staging.content
  {
  }

  /** The secrets, entry by entry, at the end of the second half. */
  lemma SecretAfter(site: Site, w: World, from: Key, to: Key, luck: Luck, i: nat)
    requires Fits(site, w) && i < |w.secrets| && OpensWith(w.secrets[i], from)
    ensures var (w', exit) := Reencrypt(site, w, from, to, luck);
            && i < |w'.secrets|
            && w'.secrets[i] ==
               Sealed(if !Sees(site, luck)(i) || exit.CaRefused?
                         || (exit.StoreFailed? && !LeftBehind(Stores(site, luck), |w.secrets|, i)) then from else to,
                      w.secrets[i].plain)
  {
    hide Reseal, ResealOk, FirstRefused, Sees, Masked, SeenNames;
  }

  /** The device CA, entry by entry, at the end of the second half. */
  lemma CaAfter(site: Site, w: World, from: Key, to: Key, luck: Luck, i: nat)
    requires Fits(site, w) && site.hasCa && i < |w.ca| && AllOpen(w.ca, from)
    ensures var (w', exit) := Reencrypt(site, w, from, to, luck);
            && i < |w'.ca|
            && w'.ca[i] ==
               Sealed(if CaStaysOld(exit, luck, |w.ca|, i) then from else to, w.ca[i].plain)
  {
    hide FirstRefused;
    assert OpensWith(w.ca[i], from);
    var ca1 := Reseal(w.ca, from, to, luck.reseal);
    if ResealOk(w.ca, from, luck.reseal) {
      SettledUnder(w.ca, from, to, luck.reseal);
      assert AllOpen(ca1, to);
    }
  }

  /** Which device CA keys are under the old key afterwards. When the second re-sealing, the
      one that puts the old key back, fails, they are the ones its report names. */
  predicate CaStaysOld(exit: Exit, luck: Luck, n: nat, i: nat) {
    || (exit.CaRefused? && !LeftBehind(luck.reseal, n, i))
    || (exit.StoreFailed? && (exit.caBack.PutBack? || LeftBehind(luck.putBack, n, i)))
  }

  /** Which key files there are at the end of the second half. */
  lemma FilesAfter(site: Site, w: World, from: Key, to: Key, luck: Luck)
    requires Fits(site, w) && w.live == Holds(from) && w.staged == Holds(to)
    ensures var (w', exit) := Reencrypt(site, w, from, to, luck);
            && OnDisk(w', from)
            && (OnDisk(w', to) <==> from == to || Holds(to) in w.backups
                                    || !((exit.CaRefused? || exit.StoreFailed?) && luck.discards))
  {
    hide Reseal, ResealOk, FirstRefused, Settle;
  }

  /** The staged key is a new one. */
  predicate Fresh(w: World, luck: Luck) {
    luck.staging.Written? && luck.staging.content.Holds? ==>
      luck.staging.content != w.live && luck.staging.content !in w.backups
  }

  lemma UnseenIsNotLeft(sees: nat -> bool, o: Writes, n: nat, i: nat)
    requires LeftBehind(Masked(sees, o), n, i)
    ensures sees(i)
  {
  }

  /** Never stranded: after any run whatsoever, a secret the live key opened is readable with
      a key that is still on disk, unless its write was not put back (its name is then in the
      report) and the staged key was removed. */
  lemma SecretStranded(site: Site, w: World, luck: Luck, i: nat)
    requires Fits(site, w) && Fresh(w, luck)
    requires w.live.Holds? && i < |w.secrets| && OpensWith(w.secrets[i], w.live.key)
    ensures var (w', exit) := Rotated(site, w, luck);
            SecretKept(w, w', i) <==>
              !(exit.StoreFailed? && LeftBehind(Stores(site, luck), |w.secrets|, i) && luck.discards)
  {
    hide Reencrypt, Stage, Staged, LeftBehind, Refusal, Sees, Masked;
    if LeftBehind(Stores(site, luck), |w.secrets|, i) {
      UnseenIsNotLeft(Sees(site, luck), luck.store, |w.secrets|, i);
    }
    RefusedChangesNothing(site, w, luck);
    if Refusal(site, w, luck) == None {
      StageLeavesLists(w, luck);
      var w1 := Stage(w, luck);
      if Staged(w, luck) && w1.staged.Holds? {
        StagedIsWritten(w, luck);
        SecretAfter(site, w1, w.live.key, w1.staged.key, luck, i);
        FilesAfter(site, w1, w.live.key, w1.staged.key, luck);
      }
    }
  }

  lemma StagedIsWritten(w: World, luck: Luck)
    requires Staged(w, luck)
    ensures luck.staging.Written?
  {
  }

  /** The same for the device CA. When its keys could not be put under the old key again, the
      ones left readable are those the report names. */
  lemma CaStranded(site: Site, w: World, luck: Luck, i: nat)
    requires Fits(site, w) && Fresh(w, luck) && site.hasCa
    requires w.live.Holds? && i < |w.ca| && AllOpen(w.ca, w.live.key)
    ensures var (w', exit) := Rotated(site, w, luck);
            CaKept(w, w', i) <==>
              !((exit.CaRefused? || exit.StoreFailed?) && !CaStaysOld(exit, luck, |w.ca|, i) && luck.discards)
  {
    hide Reencrypt, Stage, Staged, CaStaysOld, Refusal;
    RefusedChangesNothing(site, w, luck);
    assert OpensWith(w.ca[i], w.live.key);
    if Refusal(site, w, luck) == None {
      StageLeavesLists(w, luck);
      var w1 := Stage(w, luck);
      if Staged(w, luck) && w1.staged.Holds? {
        StagedIsWritten(w, luck);
        CaAfter(site, w1, w.live.key, w1.staged.key, luck, i);
        FilesAfter(site, w1, w.live.key, w1.staged.key, luck);
      }
    }
  }

  /** A device CA of which one key does not open is left alone, and so is one that the
      command was not told of. */
  lemma CaLeftAlone(site: Site, w: World, luck: Luck)
    requires Fits(site, w) && w.live.Holds? && (!site.hasCa || !AllOpen(w.ca, w.live.key))
    ensures Rotated(site, w, luck).0.ca == w.ca
            && (forall i: nat | i < |w.ca| :: CaKept(w, Rotated(site, w, luck).0, i))
  {
    hide Reencrypt, Stage, Staged, Refusal;
    RefusedChangesNothing(site, w, luck);
    if Refusal(site, w, luck) == None {
      StageLeavesLists(w, luck);
      var w1 := Stage(w, luck);
      if Staged(w, luck) && w1.staged.Holds? {
        CaUntouched(site, w1, w.live.key, w1.staged.key, luck);
        FilesAfter(site, w1, w.live.key, w1.staged.key, luck);
      }
    }
  }

  lemma CaUntouched(site: Site, w: World, from: Key, to: Key, luck: Luck)
    requires Fits(site, w) && (!site.hasCa || !AllOpen(w.ca, from))
    ensures Reencrypt(site, w, from, to, luck).0.ca == w.ca
  {
  }

  // ---- running it again -------------------------------------------------------------------

  predicate CommitFailed(exit: Exit) {
    exit.BackupFailed? || exit.MoveFailed?
  }

  /** What staging leaves: the new file exactly as written; or, when it fails, no file, a torn
      one that could not be removed, or the one that could not be cleared away. */
  lemma StageMeans(w: World, luck: Luck)
    ensures var w' := Stage(w, luck);
            && w'.(staged := w.staged) == w
            && (if !luck.clears && w.staged != Missing then !Staged(w, luck) && w'.staged == w.staged
                else match luck.staging
                  case Written(content) => Staged(w, luck) && w'.staged == content
                  case ShortWrite(cleaned) =>
                    !Staged(w, luck) && (cleaned <==> w'.staged == Missing) && (!cleaned ==> w'.staged == Unreadable)
                  case _ => !Staged(w, luck) && w'.staged == Missing)
  {
  }

  /** What a run that could not store a secret says: the first it could read whose write was
      refused, and of those before it, newest first, the ones that did not take their old blob
      again. */
  lemma StoreFailedMeans(site: Site, w: World, luck: Luck) returns (f: nat, at: seq<nat>)
    requires Fits(site, w) && Rotated(site, w, luck).1.StoreFailed?
    ensures var exit := Rotated(site, w, luck).1;
            && f < |w.secrets| && Sees(site, luck)(f) && !luck.store.accepts(f) && exit.failed == site.secretNames[f]
            && (forall i: nat | i < f && Sees(site, luck)(i) :: luck.store.accepts(i))
            && (forall i: nat :: i in at <==> i < f && Sees(site, luck)(i) && !luck.store.back(i))
            && (forall i, j | 0 <= i < j < |at| :: at[i] > at[j])
            && |exit.notRestored| == |at|
            && (forall i | 0 <= i < |at| :: at[i] < f && exit.notRestored[i] == site.secretNames[at[i]])
            && (exit.caBack.NoCa? <==> !site.hasCa)
  {
    hide FirstRefused, FirstClosed, Reseal, ResealOk, SettleSeen, SeenNames, NewestFirst, Sees;
    var o, n := Stores(site, luck), |w.secrets|;
    ReportedAre(site, w, luck);
    f := FirstRefused(o.accepts, n);
    at := ReportIsNewestFirst(site.secretNames, o.back, f);
    assert !o.accepts(f);
    forall i: nat | i < f && Sees(site, luck)(i) ensures luck.store.accepts(i) {
      assert o.accepts(i);
    }
    FailedIs(site, w, luck);
  }

  /** The names in a report on the device CA: of the keys before the first whose write was refused,
      those that did not take their old blob again, in their order; nobody if some key did not
      open, for then none was written. */
  ghost predicate CaReport(site: Site, ca: seq<Blob>, from: Key, o: Writes, report: seq<string>) {
    && |site.caNames| == |ca|
    && (if exists i :: 0 <= i < |ca| && !OpensWith(ca[i], from) then report == []
        else exists f: nat, at: seq<nat> :: CaReportAt(site, ca, o, report, f, at))
  }

  ghost predicate CaReportAt(site: Site, ca: seq<Blob>, o: Writes, report: seq<string>, f: nat, at: seq<nat>) {
    && f < |ca| == |site.caNames| && !o.accepts(f) && (forall i: nat | i < f :: o.accepts(i))
    && (forall i: nat :: i in at <==> i < f && !o.back(i))
    && (forall i, j | 0 <= i < j < |at| :: at[i] < at[j])
    && |report| == |at| && (forall i | 0 <= i < |at| :: at[i] < f && report[i] == site.caNames[at[i]])
  }

  lemma CaReportMeans(site: Site, ca: seq<Blob>, from: Key, o: Writes)
    requires |site.caNames| == |ca| && !ResealOk(ca, from, o)
    ensures CaReport(site, ca, from, o, ResealReport(site.caNames, ca, from, o))
  {
    hide FirstRefused, OldestFirst;
    if AllOpen(ca, from) {
      var f := FirstRefused(o.accepts, |ca|);
      var at := ReportIsOldestFirst(site.caNames, o.back, f);
      assert CaReportAt(site, ca, o, ResealReport(site.caNames, ca, from, o), f, at);
    } else {
      assert exists i :: 0 <= i < |ca| && !OpensWith(ca[i], from);
    }
  }

  /** What a run says of the device CA: when it was refused, which keys are left under the new key;
      and when the secrets were, whether the CA is back and, if not, which keys are not. */
  lemma CaRefusedMeans(site: Site, w: World, luck: Luck)
    requires Fits(site, w) && w.live.Holds?
    ensures var exit := Rotated(site, w, luck).1;
            && (exit.CaRefused? ==> CaReport(site, w.ca, w.live.key, luck.reseal, exit.notRestored))
            && (exit.StoreFailed? && exit.caBack.StillNew? ==>
                  && luck.staging.Written? && luck.staging.content.Holds?
                  && CaReport(site, Reseal(w.ca, w.live.key, luck.staging.content.key, luck.reseal),
                              luck.staging.content.key, luck.putBack, exit.caBack.notRestored))
  {
    hide FirstRefused, FirstClosed, SettleSeen, SeenNames, NewestFirst, Stores, Reseal;
    hide ResealReport, ResealOk, CaReport;
    if Rotated(site, w, luck).1.CaRefused? {
      CaReportMeans(site, w.ca, w.live.key, luck.reseal);
    }
    if Rotated(site, w, luck).1.StoreFailed? && Rotated(site, w, luck).1.caBack.StillNew? {
      var to := luck.staging.content.key;
      CaReportMeans(site, Reseal(w.ca, w.live.key, to, luck.reseal), to, luck.putBack);
    }
  }

  lemma FailedIs(site: Site, w: World, luck: Luck)
    requires Fits(site, w) && Rotated(site, w, luck).1.StoreFailed?
    ensures var f := FirstRefused(Stores(site, luck).accepts, |w.secrets|);
            && f < |w.secrets| && Rotated(site, w, luck).1.failed == site.secretNames[f]
            && (Rotated(site, w, luck).1.caBack.NoCa? <==> !site.hasCa)
  {
    hide FirstClosed, Reseal, ResealOk, SettleSeen, SeenNames, NewestFirst, Stores;
  }

  /** Every device CA key opens with this key, and every write of one works. */
  predicate CaTakes(w: World, from: Key, o: Writes) {
    forall i | 0 <= i < |w.ca| :: w.ca[i].Sealed? && w.ca[i].key == from && o.accepts(i)
  }

  predicate SecretsTake(site: Site, w: World, luck: Luck) {
    forall i: nat | i < |w.secrets| && luck.seen(i) && (i < site.auth || luck.mountsThere) :: luck.store.accepts(i)
  }

  /** How a run that gets past the checks ends: at the first of these that does not work. */
  lemma ExitMeans(site: Site, w: World, luck: Luck)
    requires Fits(site, w) && Refusal(site, w, luck) == None
    ensures var exit := Rotated(site, w, luck).1;
            var staged := (luck.clears || w.staged == Missing) && luck.staging.Written?;
            var read := staged && luck.staging.content.Holds?;
            var resealed := read && (site.hasCa ==> w.live.Holds? && CaTakes(w, w.live.key, luck.reseal));
            var stored := resealed && SecretsTake(site, w, luck);
            && (exit == NotStaged <==> !staged)
            && (exit == NotReadBack <==> staged && !read)
            && (exit.CaRefused? <==> read && !resealed)
            && (exit.StoreFailed? <==> resealed && !stored)
            && (exit == BackupFailed <==> stored && !luck.backsUp)
            && (exit == MoveFailed <==> stored && luck.backsUp && !luck.moves)
            && (exit.Done? <==> stored && luck.backsUp && luck.moves)
  {
    hide Settle, SettleSeen, FirstClosed, Refusal, SeenNames, Sees, FirstRefused, AllOpen, Stores;
    NothingRefused(site, w, luck);
    CaTakesMeans(w.ca, w.live.key, luck.reseal);
    SecretsTakeMeans(site, w, luck);
    StagedMeans(site, w, luck);
    if Staged(w, luck) && luck.staging.content.Holds? {
      StageLeavesLists(w, luck);
      SecondHalfExit(site, Stage(w, luck), w.live.key, luck.staging.content.key, luck);
    }
  }

  lemma StagedMeans(site: Site, w: World, luck: Luck)
    requires Fits(site, w) && Refusal(site, w, luck) == None && w.live.Holds?
    ensures var exit := Rotated(site, w, luck).1;
            && (exit == NotStaged <==> !Staged(w, luck))
            && (exit == NotReadBack <==> Staged(w, luck) && !luck.staging.content.Holds?)
            && (Staged(w, luck) && luck.staging.content.Holds? ==>
                  Fits(site, Stage(w, luck))
                  && exit == Reencrypt(site, Stage(w, luck), w.live.key, luck.staging.content.key, luck).1)
  {
    hide Settle, SettleSeen, FirstClosed, Refusal, SeenNames, Sees, FirstRefused, AllOpen, Stores;
  }

  lemma SecondHalfExit(site: Site, w: World, from: Key, to: Key, luck: Luck)
    requires Fits(site, w)
    ensures var exit := Reencrypt(site, w, from, to, luck).1;
            var resealed := site.hasCa ==> ResealOk(w.ca, from, luck.reseal);
            var stored := resealed && AllAccepted(Stores(site, luck), |w.secrets|);
            && exit != NotStaged && exit != NotReadBack
            && (exit.CaRefused? <==> !resealed)
            && (exit.StoreFailed? <==> resealed && !stored)
            && (exit == BackupFailed <==> stored && !luck.backsUp)
            && (exit == MoveFailed <==> stored && luck.backsUp && !luck.moves)
            && (exit.Done? <==> stored && luck.backsUp && luck.moves)
  {
    hide Reseal, ResealReport, ResealOk, SettleSeen, SeenNames, Sees, FirstRefused, Stores, NewestFirst;
  }

  lemma CaTakesMeans(ca: seq<Blob>, from: Key, o: Writes)
    ensures ResealOk(ca, from, o) <==> forall i | 0 <= i < |ca| :: ca[i].Sealed? && ca[i].key == from && o.accepts(i)
  {
    var f := FirstRefused(o.accepts, |ca|);
    if forall i | 0 <= i < |ca| :: o.accepts(i) {
      AcceptedByAll(o.accepts, |ca|);
    }
    if ResealOk(ca, from, o) {
      forall i | 0 <= i < |ca| ensures ca[i].Sealed? && ca[i].key == from && o.accepts(i) {
        assert OpensWith(ca[i], from);
      }
    }
  }

  lemma SecretsTakeMeans(site: Site, w: World, luck: Luck)
    ensures AllAccepted(Stores(site, luck), |w.secrets|) <==> SecretsTake(site, w, luck)
  {
    var o, n := Stores(site, luck), |w.secrets|;
    if SecretsTake(site, w, luck) {
      AcceptedByAll(o.accepts, n);
    }
    if AllAccepted(o, n) {
      forall i: nat | i < n && Sees(site, luck)(i) ensures luck.store.accepts(i) {
        assert o.accepts(i);
      }
    }
  }

  /** After a commit that failed, the secrets the run saw are under the key in the staged file. */
  lemma AfterFailedCommit(site: Site, w: World, luck: Luck)
    requires Fits(site, w) && CommitFailed(Rotated(site, w, luck).1)
    ensures var (w', exit) := Rotated(site, w, luck);
            && luck.staging.Written? && luck.staging.content.Holds? && w'.staged == luck.staging.content
            && w'.live == (if exit.BackupFailed? then w.live else Missing)
            && w'.backups == (if exit.BackupFailed? then w.backups else w.backups + [w.live])
            && w.live.Holds?
            && SeenUnder(w.secrets, w'.secrets, Sees(site, luck), w'.staged.key)
            && (if site.hasCa then AllUnder(w.ca, w'.ca, w'.staged.key) else w'.ca == w.ca)
  {
    hide Settle, SettleSeen, AllOpen, AllUnder, SeenOpen, SeenUnder, SeenNames, FirstRefused, FirstClosed, Sees, Masked;
    NothingRefused(site, w, luck);
    SettledSeen(w.secrets, Sees(site, luck), w.live.key, luck.staging.content.key, luck.store);
    if site.hasCa {
      SettledUnder(w.ca, w.live.key, luck.staging.content.key, luck.reseal);
    }
  }

  /** A second run after a failed commit gets past the checks, and so removes the staged key,
      exactly when the live key is still in place, nothing else is in the way, and it sees no
      secret that the first run saw and none that the live key does not open. Otherwise it
      changes nothing. */
  lemma RerunRefuses(site: Site, w: World, luck: Luck, again: Luck)
    requires Fits(site, w) && Fresh(w, luck) && CommitFailed(Rotated(site, w, luck).1)
    ensures var (w', exit) := Rotated(site, w, luck);
            && Fits(site, w')
            && (Checked(Rotated(site, w', again).1) <==>
                  && exit.BackupFailed?
                  && again.stopped && again.unlocks && again.dbOpens && (again.mountsThere ==> again.mountsOpens)
                  && (forall i: nat | i < |w.secrets| && Sees(site, again)(i) ::
                        !Sees(site, luck)(i) && OpensWith(w.secrets[i], w.live.key)))
            && (!Checked(Rotated(site, w', again).1) ==> Rotated(site, w', again).0 == w')
  {
    hide Rotated, Refusal, Sees;
    AfterFailedCommit(site, w, luck);
    var w' := Rotated(site, w, luck).0;
    RefusedChangesNothing(site, w', again);
    NothingRefused(site, w', again);
    RotatedFits(site, w, luck);
  }

  /** What that costs: a second run that gets past the checks strands every device CA key,
      which only the staged key opened, exactly when it manages to remove that key. */
  lemma RerunStrandsCa(site: Site, w: World, luck: Luck, again: Luck, i: nat)
    requires Fits(site, w) && Fresh(w, luck) && CommitFailed(Rotated(site, w, luck).1)
    requires site.hasCa && i < |w.ca| && Checked(Rotated(site, Rotated(site, w, luck).0, again).1)
    requires again.staging.Written? ==> again.staging.content != luck.staging.content
    ensures var w' := Rotated(site, w, luck).0;
            var w'' := Rotated(site, w', again).0;
            i < |w''.ca| && w''.ca[i] == w'.ca[i] && w.ca[i].Sealed?
            && (Readable(w'', w''.ca[i], w.ca[i].plain) <==> !again.clears)
  {
    hide Rotated, Refusal;
    AfterFailedCommit(site, w, luck);
    RerunRefuses(site, w, luck, again);
    var (w', exit) := Rotated(site, w, luck);
    assert w'.ca[i] == Sealed(w'.staged.key, w.ca[i].plain);
    assert !OpensWith(w'.ca[i], w'.live.key);
    SecondRun(site, w', again);
    BackupsKept(site, w, luck);
    var w'' := Rotated(site, w', again).0;
    var key := w'.staged.key;
    assert Holds(key) == luck.staging.content;
    assert w''.staged == Holds(key) <==> !again.clears;
  }

  lemma BackupsKept(site: Site, w: World, luck: Luck)
    requires Fits(site, w) && Rotated(site, w, luck).1.BackupFailed?
    ensures Rotated(site, w, luck).0.backups == w.backups
  {
    hide Settle, SettleSeen, FirstRefused, FirstClosed, Reseal, ResealOk, SeenNames;
  }

  lemma SecondRun(site: Site, w: World, again: Luck)
    requires Fits(site, w) && w.live.Holds? && w.staged.Holds? && site.hasCa && !AllOpen(w.ca, w.live.key)
    requires Checked(Rotated(site, w, again).1)
    ensures var w' := Rotated(site, w, again).0;
            && w'.ca == w.ca && w'.live == w.live && w'.backups == w.backups
            && (if !again.clears then w'.staged == w.staged
                else w'.staged == Missing || w'.staged == Unreadable
                     || (again.staging.Written? && w'.staged == again.staging.content))
  {
    hide Settle, SettleSeen, FirstRefused, FirstClosed, SeenNames;
  }

  // ---- any number of runs -------------------------------------------------------------------

  /** One attempt after the other, each with its own luck. */
  function Attempts(site: Site, w: World, lucks: seq<Luck>): World
    requires Fits(site, w)
    ensures Fits(site, Attempts(site, w, lucks))
  {
    if lucks == [] then w
    else
      var before := Attempts(site, w, lucks[..|lucks| - 1]);
      RotatedFits(site, before, lucks[|lucks| - 1]);
      Rotated(site, before, lucks[|lucks| - 1]).0
  }

  lemma RotatedFits(site: Site, w: World, luck: Luck)
    requires Fits(site, w)
    ensures Fits(site, Rotated(site, w, luck).0)
  {
    hide FirstRefused, AllOpen;
  }

  /** The staged key is new: on no file, and nothing is sealed with it. */
  predicate NewKey(w: World, luck: Luck) {
    luck.staging.Written? && luck.staging.content.Holds? ==>
      && !OnDisk(w, luck.staging.content.key)
      && (forall i | 0 <= i < |w.secrets| :: !OpensWith(w.secrets[i], luck.staging.content.key))
  }

  /** The one file that holds this key is the staged one. */
  predicate OnlyStaged(w: World, key: Key) {
    w.staged == Holds(key) && w.live != Holds(key) && Holds(key) !in w.backups
  }

  /** The blob opens with no other key than the staged one. */
  predicate HeldByStaged(w: World, blob: Blob) {
    blob.Sealed? && OnlyStaged(w, blob.key)
  }

  /** Which of the keys that were there before are on disk after a run that passed the checks:
      all but a key that was only in the staged file, if that could be cleared. */
  lemma FilesStep(site: Site, w: World, luck: Luck, key: Key)
    requires Fits(site, w) && Refusal(site, w, luck) == None
    requires luck.staging.Written? ==> luck.staging.content != Holds(key)
    ensures OnDisk(Rotated(site, w, luck).0, key) <==> OnDisk(w, key) && !(luck.clears && OnlyStaged(w, key))
  {
    hide Settle, SettleSeen, FirstRefused, FirstClosed, Reseal, ResealOk, SeenNames, Refusal;
    RefusedChangesNothing(site, w, luck);
    NothingRefused(site, w, luck);
  }

  /** A blob the live key does not open is not seen by a run that passes the checks, and left
      as it is. */
  lemma ClosedIsUnseen(site: Site, w: World, luck: Luck, i: nat)
    requires Fits(site, w) && Refusal(site, w, luck) == None && i < |w.secrets|
    requires w.live.Holds? && !OpensWith(w.secrets[i], w.live.key)
    ensures !Sees(site, luck)(i) && !LeftBehind(Stores(site, luck), |w.secrets|, i)
    ensures i < |Rotated(site, w, luck).0.secrets| && Rotated(site, w, luck).0.secrets[i] == w.secrets[i]
  {
    hide FirstRefused, FirstClosed, Reseal, ResealOk, SeenNames, Refusal;
    NothingRefused(site, w, luck);
  }

  /** One secret over one run: it stays readable unless the run cleared the staged file that
      alone held its key, or left its new blob behind and then removed the staged key. */
  lemma SecretStep(site: Site, w: World, luck: Luck, i: nat, plain: string)
    requires Fits(site, w) && NewKey(w, luck) && Refusal(site, w, luck) == None && i < |w.secrets|
    ensures var (w', exit) := Rotated(site, w, luck);
            && i < |w'.secrets|
            && (Readable(w', w'.secrets[i], plain) <==>
                  && Readable(w, w.secrets[i], plain)
                  && !(luck.clears && HeldByStaged(w, w.secrets[i]))
                  && !(exit.StoreFailed? && LeftBehind(Stores(site, luck), |w.secrets|, i) && luck.discards))
  {
    hide Rotated, LeftBehind, Refusal, Stores, Sees, Fits;
    NothingRefused(site, w, luck);
    RotatedFits(site, w, luck);
    SameCount(site, w, luck);
    var blob := w.secrets[i];
    if OpensWith(blob, w.live.key) {
      SecretStranded(site, w, luck, i);
      PlainKept(site, w, luck, i);
    } else {
      ClosedIsUnseen(site, w, luck, i);
      if blob.Sealed? {
        FilesStep(site, w, luck, blob.key);
      }
    }
  }

  lemma SameCount(site: Site, w: World, luck: Luck)
    requires Fits(site, w)
    ensures |Rotated(site, w, luck).0.secrets| == |w.secrets|
  {
    hide FirstRefused, AllOpen, SeenNames;
  }

  lemma PlainKept(site: Site, w: World, luck: Luck, i: nat)
    requires Fits(site, w) && Refusal(site, w, luck) == None && i < |w.secrets|
    requires w.live.Holds? && OpensWith(w.secrets[i], w.live.key)
    ensures var w' := Rotated(site, w, luck).0;
            i < |w'.secrets| && w'.secrets[i].Sealed? && w'.secrets[i].plain == w.secrets[i].plain
  {
    hide Reencrypt, Stage, Staged, LeftBehind, Refusal;
    StageLeavesLists(w, luck);
    var w1 := Stage(w, luck);
    if Staged(w, luck) && w1.staged.Holds? {
      SecretAfter(site, w1, w.live.key, w1.staged.key, luck, i);
    }
  }

  /** Every secret is readable with a key on disk and says what it said at first. */
  predicate AllReadable(w0: World, w: World) {
    && |w.secrets| == |w0.secrets|
    && (forall i | 0 <= i < |w.secrets| :: w0.secrets[i].Sealed? && Readable(w, w.secrets[i], w0.secrets[i].plain))
  }

  /** A staged key that a run clears away although some secret has no other. Secrets the run
      saw are never among them: it would have refused. */
  predicate ClearsHeld(w: World, luck: Luck) {
    luck.clears && exists i :: 0 <= i < |w.secrets| && HeldByStaged(w, w.secrets[i])
  }

  /** The run gets past the checks and then either clears such a key away, or names a secret it
      could not put back and removes the key that one is under. */
  predicate Loses(site: Site, w: World, luck: Luck)
    requires Fits(site, w)
  {
    && Refusal(site, w, luck) == None
    && (|| ClearsHeld(w, luck)
        || (var exit := Rotated(site, w, luck).1; exit.StoreFailed? && exit.notRestored != [] && luck.discards))
  }

  /** The report of a failed run names nobody exactly when nobody is left behind. */
  lemma ReportMeans(site: Site, w: World, luck: Luck)
    requires Fits(site, w) && Rotated(site, w, luck).1.StoreFailed?
    ensures Rotated(site, w, luck).1.notRestored == [] <==>
            forall i: nat | i < |w.secrets| :: !LeftBehind(Stores(site, luck), |w.secrets|, i)
  {
    var o, n := Stores(site, luck), |w.secrets|;
    var f := FirstRefused(o.accepts, n);
    ReportedAre(site, w, luck);
    var names := NewestFirst(site.secretNames, o.back, f);
    if names == [] {
      forall i: nat | i < n ensures !LeftBehind(o, n, i) {
        if LeftBehind(o, n, i) {
          BothSay(site.secretNames, o.back, f, i);
        }
      }
    } else {
      BothSayOnly(site.secretNames, o.back, f, names[0]);
      var i: nat :| i < f && !o.back(i);
      assert LeftBehind(o, n, i);
    }
  }

  lemma ReportedAre(site: Site, w: World, luck: Luck)
    requires Fits(site, w) && Rotated(site, w, luck).1.StoreFailed?
    ensures var o, n := Stores(site, luck), |w.secrets|;
            && !AllAccepted(o, n)
            && Rotated(site, w, luck).1.notRestored == NewestFirst(site.secretNames, o.back, FirstRefused(o.accepts, n))
  {
    hide FirstRefused, FirstClosed, Reseal, ResealOk, SettleSeen, SeenNames, Stores, NewestFirst;
  }

  /** What one attempt does to the whole: readable it stays exactly unless it loses something,
      and what is lost stays lost. */
  lemma AttemptStep(site: Site, w0: World, w: World, luck: Luck)
    requires Fits(site, w) && NewKey(w, luck) && |w.secrets| == |w0.secrets|
    requires forall i | 0 <= i < |w0.secrets| :: w0.secrets[i].Sealed?
    ensures AllReadable(w0, Rotated(site, w, luck).0) <==> AllReadable(w0, w) && !Loses(site, w, luck)
  {
    hide Rotated, Refusal, LeftBehind, Stores, NewKey, Fits, HeldByStaged, Readable;
    RefusedChangesNothing(site, w, luck);
    if Refusal(site, w, luck) == None {
      var (w', exit) := Rotated(site, w, luck);
      SameCount(site, w, luck);
      forall i: nat | i < |w.secrets|
        ensures Readable(w', w'.secrets[i], w0.secrets[i].plain) <==>
                  && Readable(w, w.secrets[i], w0.secrets[i].plain)
                  && !(luck.clears && HeldByStaged(w, w.secrets[i]))
                  && !(exit.StoreFailed? && LeftBehind(Stores(site, luck), |w.secrets|, i) && luck.discards)
      {
        SecretStep(site, w, luck, i, w0.secrets[i].plain);
      }
      if exit.StoreFailed? {
        ReportMeans(site, w, luck);
      }
    }
  }

  predicate NewKeys(site: Site, w: World, lucks: seq<Luck>)
    requires Fits(site, w)
  {
    forall i | 0 <= i < |lucks| :: NewKey(Attempts(site, w, lucks[..i]), lucks[i])
  }

  predicate LosesAt(site: Site, w: World, lucks: seq<Luck>, i: int)
    requires Fits(site, w)
  {
    0 <= i < |lucks| && Loses(site, Attempts(site, w, lucks[..i]), lucks[i])
  }

  /** Over any number of attempts, whatever fails in each, whatever each of them sees and however
      staged keys are left behind: every secret is readable with a key on disk and says what it
      said at the start, if and only if no attempt got past the checks and cleared a staged key
      some secret had no other than, or removed it after a report that names a secret. */
  lemma {:induction false} NoSecretIsLost(site: Site, w: World, lucks: seq<Luck>)
    requires Fits(site, w) && AllReadable(w, w) && NewKeys(site, w, lucks)
    ensures |Attempts(site, w, lucks).secrets| == |w.secrets|
    ensures AllReadable(w, Attempts(site, w, lucks)) <==> forall i :: !LosesAt(site, w, lucks, i)
  {
    hide Rotated, Loses, NewKey, Readable, Fits;
    if lucks != [] {
      var n := |lucks| - 1;
      var front := lucks[..n];
      forall i | 0 <= i < n ensures front[..i] == lucks[..i] {
      }
      assert NewKeys(site, w, front) by {
        forall i | 0 <= i < n ensures NewKey(Attempts(site, w, front[..i]), front[i]) {
          assert NewKey(Attempts(site, w, lucks[..i]), lucks[i]);
        }
      }
      NoSecretIsLost(site, w, front);
      var before := Attempts(site, w, front);
      AttemptStep(site, w, before, lucks[n]);
      SameCount(site, before, lucks[n]);
      forall i | i != n ensures LosesAt(site, w, lucks, i) <==> LosesAt(site, w, front, i) {
        if 0 <= i < n {
          assert front[..i] == lucks[..i] && front[i] == lucks[i];
        }
      }
      assert LosesAt(site, w, lucks, n) <==> Loses(site, before, lucks[n]);
      assert !LosesAt(site, w, front, n);
    }
  }

  /** An attempt that sees every secret loses none but those it names. */
  lemma SeeingAllIsSafe(site: Site, w: World, luck: Luck)
    requires Fits(site, w) && (forall i: nat | i < |w.secrets| :: Sees(site, luck)(i))
    ensures Loses(site, w, luck) ==> Rotated(site, w, luck).1.StoreFailed? && Rotated(site, w, luck).1.notRestored != []
  {
    hide Rotated, Refusal, Sees;
    NothingRefused(site, w, luck);
  }

  /** What a blind attempt costs: after a commit that could not back the old key up, a run that
      gets past the checks strands every secret the first run had re-encrypted, exactly when it
      manages to clear the staged file; no report names them. */
  lemma BlindRerun(site: Site, w: World, luck: Luck, again: Luck, i: nat)
    requires Fits(site, w) && NewKey(w, luck) && CommitFailed(Rotated(site, w, luck).1)
    requires i < |w.secrets| && Sees(site, luck)(i)
    requires NewKey(Rotated(site, w, luck).0, again) && Checked(Rotated(site, Rotated(site, w, luck).0, again).1)
    ensures var w' := Rotated(site, w, luck).0;
            var w'' := Rotated(site, w', again).0;
            && w.secrets[i].Sealed? && i < |w'.secrets| && i < |w''.secrets| && !Sees(site, again)(i)
            && Readable(w', w'.secrets[i], w.secrets[i].plain)
            && (Readable(w'', w''.secrets[i], w.secrets[i].plain) <==> !again.clears)
            && (again.clears ==> Loses(site, w', again))
  {
    hide Rotated, Refusal, Sees, LeftBehind, Stores, Fits;
    AfterFailedCommit(site, w, luck);
    RerunRefuses(site, w, luck, again);
    var (w', exit) := Rotated(site, w, luck);
    BackupsKept(site, w, luck);
    RefusedChangesNothing(site, w', again);
    assert w'.secrets[i] == Sealed(w'.staged.key, w.secrets[i].plain);
    assert OnlyStaged(w', w'.staged.key);
    ClosedIsUnseen(site, w', again, i);
    SecretStep(site, w', again, i, w.secrets[i].plain);
  }

  function OneSecret(name: string): Site {
    Site([name], 1, [], false)
  }

  function Before(plain: string, from: Key): World {
    World(Holds(from), Missing, [], [Sealed(from, plain)], [])
  }

  function Interrupted(plain: string, from: Key, to: Key): World {
    World(Holds(from), Holds(to), [], [Sealed(to, plain)], [])
  }

  /** Everything works but the backup of the old key. */
  function NoBackup(to: Key): Luck {
    var fine := Writes((i: nat) => true, (i: nat) => true);
    Luck(true, true, true, false, false, (i: nat) => true, true,
         Written(Holds(to)), true, fine, fine, fine, false, true)
  }

  /** The SELECT fails, the staged file is cleared, and a new one cannot be created. */
  function Blind(to: Key): Luck {
    NoBackup(to).(seen := (i: nat) => false, staging := CreateFails)
  }

  lemma FirstRun(name: string, plain: string, from: Key, to: Key)
    ensures Rotated(OneSecret(name), Before(plain, from), NoBackup(to)) == (Interrupted(plain, from, to), BackupFailed)
  {
    hide FirstClosed, FirstRefused;
    NothingRefused(OneSecret(name), Before(plain, from), NoBackup(to));
    AcceptedByAll(Stores(OneSecret(name), NoBackup(to)).accepts, 1);
    var site, w := OneSecret(name), Before(plain, from);
    assert SettleSeen(w.secrets, Sees(site, NoBackup(to)), to, NoBackup(to).store) == [Sealed(to, plain)];
  }

  lemma SecondBlindRun(name: string, plain: string, from: Key, to: Key)
    ensures Rotated(OneSecret(name), Interrupted(plain, from, to), Blind(to))
         == (Interrupted(plain, from, to).(staged := Missing), NotStaged)
  {
    hide FirstClosed, FirstRefused, Reencrypt;
    NothingRefused(OneSecret(name), Interrupted(plain, from, to), Blind(to));
  }

  /** The smallest such case: one secret, a first run whose backup fails, and a second run that
      cannot read the secret, clears the staged file and then cannot create a new one. */
  lemma BlindRerunHappens(name: string, plain: string, from: Key, to: Key)
    requires from != to
    ensures var site, w, lucks := OneSecret(name), Before(plain, from), [NoBackup(to), Blind(to)];
            && AllReadable(w, w) && NewKeys(site, w, lucks) && !AllReadable(w, Attempts(site, w, lucks))
            && Rotated(site, w, lucks[0]).1 == BackupFailed
            && Rotated(site, Rotated(site, w, lucks[0]).0, lucks[1]).1 == NotStaged
  {
    hide Rotated;
    var site, w, lucks := OneSecret(name), Before(plain, from), [NoBackup(to), Blind(to)];
    assert lucks[..0] == [] && lucks[..1] == [NoBackup(to)] && [NoBackup(to)][..0] == [];
    FirstRun(name, plain, from, to);
    SecondBlindRun(name, plain, from, to);
    assert Attempts(site, w, [NoBackup(to)]) == Interrupted(plain, from, to);
    assert lucks[..|lucks| - 1] == [NoBackup(to)];
    assert Attempts(site, w, lucks) == Interrupted(plain, from, to).(staged := Missing);
    assert NewKey(w, lucks[0]) && NewKey(Interrupted(plain, from, to), lucks[1]);
    var end := Interrupted(plain, from, to).(staged := Missing);
    assert !Readable(end, end.secrets[0], w.secrets[0].plain);
  }

  lemma {:induction false} AcceptedByAll(accepts: nat -> bool, n: nat)
    requires forall i: nat | i < n :: accepts(i)
    ensures FirstRefused(accepts, n) == n
  {
    if n > 0 {
      AcceptedByAll(accepts, n - 1);
    }
  }
}
