/** The live channels, the watchdog and the profile sampler that follow them, and their
    folders on disk. A channel's own pipeline is not part of this model: it starts, stops and
    builds as the parameters say. */
module ChannelManager {
  import opened Wrappers
  import Decimal
  import Sorting

  datatype Id = Id(number: int)

  datatype Channel = Channel(running: bool, dir: Option<string>)

  /** What the config.json of a folder says, and whether a channel can be built from it. */
  datatype ConfigFile = NoConfig | Malformed | Ephemeral | NoId | ConfigOf(id: Id, builds: bool)

  datatype State = State(channels: map<Id, Channel>, watchdog: set<Id>, hasSampler: bool, sampler: set<Id>,
                         disk: map<string, ConfigFile>)

  /** What does not change: whether there is a root for channel folders and a watchdog, and how
      a name is made fit for a path. */
  datatype Site = Site(hasRoot: bool, hasWatchdog: bool, sanitize: string -> string)

  datatype Result = Ok | NotFound | AlreadyExists | AlreadyRunning | AlreadyStopped | BuildFailed | StartFailed

  /** How a create goes: making the folder, building, writing the config, and, if it fails,
      removing the folder again. */
  datatype Luck = Luck(mkdir: bool, builds: bool, persists: bool, cleans: bool)

  // ---- ids and folders ----------------------------------------------------------------------

  /** One more than the highest id in use, and at least one. */
  predicate IsNext(keys: set<Id>, next: Id) {
    && next.number >= 1 && (forall k | k in keys :: k.number < next.number)
    && (next.number == 1 || Id(next.number - 1) in keys)
  }

  /** The id the configuration asks for, or the next one. */
  predicate MayChoose(s: State, asked: Option<Id>, id: Id) {
    if asked.Some? then id == asked.value else IsNext(s.channels.Keys, id)
  }

  /** An id chosen by the manager is never one in use, and there is only one it can choose. */
  lemma ChosenIsFresh(s: State, id: Id, other: Id)
    requires MayChoose(s, None, id)
    ensures id !in s.channels && (MayChoose(s, None, other) ==> other == id)
  {
  }

  function DirFor(site: Site, id: Id, name: string): Option<string> {
    if !site.hasRoot then None
    else
      var tail := site.sanitize(name);
      Some("ch" + Decimal.Text(id.number) + if tail == "" then "" else "-" + tail)
  }

  // ---- what the operations do -----------------------------------------------------------------

  function Watched(site: Site, s: State, id: Id): State {
    if site.hasWatchdog then s.(watchdog := s.watchdog + {id}) else s
  }

  function Sampled(s: State, id: Id): State {
    if s.hasSampler then s.(sampler := s.sampler + {id}) else s
  }

  function Unsampled(s: State, id: Id): State {
    if s.hasSampler then s.(sampler := s.sampler - {id}) else s
  }

  function Cleaned(disk: map<string, ConfigFile>, dir: Option<string>,
                   made: bool, cleans: bool): map<string, ConfigFile> {
    if dir.Some? && made && cleans then disk - {dir.value} else disk
  }

  function Created(site: Site, s: State, id: Id, name: string, luck: Luck): (State, Result) {
    if id in s.channels then (s, AlreadyExists)
    else
      var dir := DirFor(site, id, name);
      if dir.Some? && !luck.mkdir then (s, BuildFailed)
      else
        var made := dir.Some? && dir.value !in s.disk;
        var disk := if made then s.disk[dir.value := NoConfig] else s.disk;
        if !luck.builds then (s.(disk := Cleaned(disk, dir, made, luck.cleans)), BuildFailed)
        else if made && !luck.persists then (s.(disk := Cleaned(disk, dir, made, luck.cleans)), BuildFailed)
        else
          var written := if made then disk[dir.value := ConfigOf(id, true)] else disk;
          var s1 := Watched(site, s.(disk := written), id);
          (s1.(channels := s1.channels[id := Channel(false, dir)]), Ok)
  }

  /** `inside` is whether the folder lies under the root, `deletes` whether it can be removed. */
  function Removed(site: Site, s: State, id: Id, inside: bool, deletes: bool): (State, Result) {
    if id !in s.channels then (s, NotFound)
    else
      var dir := s.channels[id].dir;
      var s1 := Unsampled(s, id);
      (s1.(channels := s1.channels - {id}, watchdog := s1.watchdog - {id},
           disk := if dir.Some? && site.hasRoot && inside && deletes then s1.disk - {dir.value} else s1.disk), Ok)
  }

  function SetRunning(s: State, id: Id, running: bool): State
    requires id in s.channels
  {
    s.(channels := s.channels[id := s.channels[id].(running := running)])
  }

  function Played(s: State, id: Id, starts: bool): (State, Result) {
    if id !in s.channels then (s, NotFound)
    else if s.channels[id].running then (s, AlreadyRunning)
    else if !starts then (s, StartFailed)
    else (Sampled(SetRunning(s, id, true), id), Ok)
  }

  function Halted(s: State, id: Id): (State, Result) {
    if id !in s.channels then (s, NotFound)
    else if !s.channels[id].running then (s, AlreadyStopped)
    else (SetRunning(Unsampled(s, id), id, false), Ok)
  }

  function Restarted(s: State, id: Id, starts: bool): (State, Result) {
    if id !in s.channels then (s, NotFound)
    else
      var s1 := if s.channels[id].running then SetRunning(Unsampled(s, id), id, false) else s;
      if !starts then (s1, StartFailed) else (Sampled(SetRunning(s1, id, true), id), Ok)
  }

  function RunningIds(channels: map<Id, Channel>): set<Id> {
    set id | id in channels && channels[id].running
  }

  /** A new sampler, or none; the previous one is detached first. */
  function Resampled(s: State, attached: bool): State {
    s.(hasSampler := attached, sampler := if attached then RunningIds(s.channels) else {})
  }

  function AllStopped(s: State): State {
    s.(channels := map[], watchdog := s.watchdog - s.channels.Keys,
       sampler := if s.hasSampler then s.sampler - s.channels.Keys else s.sampler)
  }

  // ---- what their results mean ----------------------------------------------------------------

  /** Nothing but the channel `id` and the registries may differ. */
  predicate OnlyChannel(s: State, s': State, id: Id) {
    && s'.channels.Keys == s.channels.Keys && s'.disk == s.disk && s'.hasSampler == s.hasSampler
    && (forall k | k in s.channels && k != id :: s'.channels[k] == s.channels[k])
    && (id in s.channels ==> s'.channels[id].dir == s.channels[id].dir)
  }

  /** Play starts a channel that stands, stop halts one that runs, and restart leaves it running or,
      if it does not start, standing; a refusal changes nothing, and no other channel is touched. */
  lemma TransportMeans(s: State, id: Id, starts: bool)
    ensures var (s', r) := Played(s, id, starts);
            && (r == NotFound <==> id !in s.channels)
            && (r == AlreadyRunning <==> id in s.channels && s.channels[id].running)
            && (r == StartFailed <==> id in s.channels && !s.channels[id].running && !starts)
            && (r == Ok <==> id in s.channels && !s.channels[id].running && starts)
            && OnlyChannel(s, s', id) && s'.watchdog == s.watchdog
            && (r == Ok ==> s'.channels[id].running) && (r != Ok ==> s' == s)
    ensures var (s', r) := Halted(s, id);
            && (r == NotFound <==> id !in s.channels)
            && (r == AlreadyStopped <==> id in s.channels && !s.channels[id].running)
            && (r == Ok <==> id in s.channels && s.channels[id].running)
            && OnlyChannel(s, s', id) && s'.watchdog == s.watchdog
            && (r == Ok ==> !s'.channels[id].running) && (r != Ok ==> s' == s)
    ensures var (s', r) := Restarted(s, id, starts);
            && (r == NotFound <==> id !in s.channels)
            && (r == StartFailed <==> id in s.channels && !starts)
            && (r == Ok <==> id in s.channels && starts)
            && OnlyChannel(s, s', id) && s'.watchdog == s.watchdog
            && (r == NotFound ==> s' == s) && (id in s.channels ==> (s'.channels[id].running <==> starts))
  {
  }

  /** A channel is created, standing, in a folder of its own name, exactly if its id is free and
      the folder can be had, the channel built and, in a folder that was not there before, its
      configuration written. */
  lemma CreatedMeans(site: Site, s: State, id: Id, name: string, luck: Luck)
    ensures var (s', r) := Created(site, s, id, name, luck);
            var tail := site.sanitize(name);
            var dir := "ch" + Decimal.Text(id.number) + if tail == "" then "" else "-" + tail;
            && (r == AlreadyExists <==> id in s.channels)
            && (r == Ok <==> id !in s.channels && luck.builds
                             && (site.hasRoot ==> luck.mkdir && (dir in s.disk || luck.persists)))
            && (r != Ok && r != AlreadyExists ==> r == BuildFailed)
            && (r != Ok ==> s'.channels == s.channels)
            && (r == Ok ==>
                  && s'.channels.Keys == s.channels.Keys + {id}
                  && s'.channels[id] == Channel(false, if site.hasRoot then Some(dir) else None)
                  && (forall k | k in s.channels :: s'.channels[k] == s.channels[k])
                  && (site.hasRoot ==> dir in s'.disk && (dir !in s.disk ==> s'.disk[dir] == ConfigOf(id, true)))
                  && (forall d | d in s'.disk && (!site.hasRoot || d != dir) :: d in s.disk)
                  && (forall d | d in s.disk :: d in s'.disk && s'.disk[d] == s.disk[d]))
  {
  }

  /** A channel that is there goes, with its folder if that lies under the root and can be removed;
      nothing else does. */
  lemma RemovedMeans(site: Site, s: State, id: Id, inside: bool, deletes: bool)
    ensures var (s', r) := Removed(site, s, id, inside, deletes);
            && (r == Ok <==> id in s.channels) && (r != Ok ==> r == NotFound && s' == s)
            && s'.channels.Keys == s.channels.Keys - {id}
            && (forall k | k in s'.channels :: s'.channels[k] == s.channels[k])
            && (forall d :: d in s'.disk <==>
                  d in s.disk && !(id in s.channels && s.channels[id].dir == Some(d)
                                   && site.hasRoot && inside && deletes))
            && (forall d | d in s'.disk :: s'.disk[d] == s.disk[d])
  {
  }

  /** After stopAll there is no channel; the disk is as it was. */
  lemma AllStoppedMeans(s: State)
    ensures AllStopped(s).channels == map[] && AllStopped(s).disk == s.disk
    ensures forall attached :: Resampled(s, attached).channels == s.channels && Resampled(s, attached).disk == s.disk
                               && Resampled(s, attached).hasSampler == attached
  {
  }

  // ---- loading from disk -----------------------------------------------------------------------

  /** `stuck` are the folders whose removal fails. */
  function LoadOne(site: Site, s: State, dir: string, stuck: set<string>): State {
    if dir !in s.disk then s
    else match s.disk[dir]
      case Ephemeral => if dir in stuck then s else s.(disk := s.disk - {dir})
      case ConfigOf(id, builds) =>
        if id in s.channels || !builds then s
        else
          var s1 := Watched(site, s, id);
          s1.(channels := s1.channels[id := Channel(false, Some(dir))])
      case _ => s
  }

  function LoadEach(site: Site, s: State, dirs: seq<string>, stuck: set<string>): State {
    if dirs == [] then s else LoadOne(site, LoadEach(site, s, dirs[..|dirs| - 1], stuck), dirs[|dirs| - 1], stuck)
  }

  /** Byte by byte, as paths under one root compare. */
  predicate AtMost(x: string, y: string) {
    x == [] || (y != [] && (x[0] < y[0] || (x[0] == y[0] && AtMost(x[1..], y[1..]))))
  }

  function PathOrder(): (string, string) -> bool {
    (x, y) => AtMost(x, y)
  }

  /** loadFromRoot on the folders as the directory happens to list them. */
  function Loaded(site: Site, s: State, listing: seq<string>, stuck: set<string>): State {
    if site.hasRoot then LoadEach(site, s, Sorting.Sort(PathOrder(), listing), stuck) else s
  }

  lemma {:induction false} AtMostTotal(x: string, y: string)
    ensures AtMost(x, y) || AtMost(y, x)
    ensures AtMost(x, y) && AtMost(y, x) ==> x == y
  {
    if x != [] && y != [] && x[0] == y[0] {
      AtMostTotal(x[1..], y[1..]);
      assert x == [x[0]] + x[1..] && y == [y[0]] + y[1..];
    }
  }

  lemma {:induction false} AtMostTransitive(x: string, y: string, z: string)
    requires AtMost(x, y) && AtMost(y, z)
    ensures AtMost(x, z)
  {
    if x != [] && y != [] && x[0] == y[0] && z != [] && y[0] == z[0] {
      AtMostTransitive(x[1..], y[1..], z[1..]);
    }
  }

  lemma PathOrderTotal(m: multiset<string>)
    ensures Sorting.TotalOn(PathOrder(), m)
  {
    hide AtMost;
    forall x, y ensures (AtMost(x, y) || AtMost(y, x)) && (AtMost(x, y) && AtMost(y, x) ==> x == y) {
      AtMostTotal(x, y);
    }
    forall x, y, z | AtMost(x, y) && AtMost(y, z) ensures AtMost(x, z) {
      AtMostTransitive(x, y, z);
    }
  }

  /** The same disk always comes up the same, in whatever order the directory lists it. */
  lemma LoadIgnoresListing(site: Site, s: State, listing: seq<string>, other: seq<string>, stuck: set<string>)
    requires multiset(listing) == multiset(other)
    ensures Loaded(site, s, listing, stuck) == Loaded(site, s, other, stuck)
  {
    PathOrderTotal(multiset(listing));
    Sorting.SortCanonical(PathOrder(), listing, other);
  }

  predicate Builds(disk: map<string, ConfigFile>, dir: string, id: Id) {
    dir in disk && disk[dir] == ConfigOf(id, true)
  }

  /** Which folder a channel comes from: the first, in path order, that has its id and builds;
      a channel that was there before stays as it was. */
  ghost predicate FirstWins(s: State, dirs: seq<string>, s': State, id: Id) {
    if id in s.channels then id in s'.channels && s'.channels[id] == s.channels[id]
    else if id in s'.channels then
      exists i :: 0 <= i < |dirs| && Builds(s.disk, dirs[i], id)
        && (forall j | 0 <= j < i :: !Builds(s.disk, dirs[j], id))
        && s'.channels[id] == Channel(false, Some(dirs[i]))
    else forall i | 0 <= i < |dirs| :: !Builds(s.disk, dirs[i], id)
  }

  /** Loading removes the folders of ephemeral channels, if it can, and touches nothing else on
      disk. */
  ghost predicate OnlyEphemeralGone(s: State, dirs: seq<string>, stuck: set<string>, s': State) {
    forall d :: d in s'.disk <==> d in s.disk && !(d in dirs && d !in stuck && s.disk[d] == Ephemeral)
  }

  lemma {:induction false} LoadEachMeans(site: Site, s: State, dirs: seq<string>, stuck: set<string>)
    requires Sorting.Distinct(dirs)
    ensures var s' := LoadEach(site, s, dirs, stuck);
            && (forall id :: FirstWins(s, dirs, s', id))
            && OnlyEphemeralGone(s, dirs, stuck, s') && (forall d | d in s'.disk :: s'.disk[d] == s.disk[d])
            && s'.hasSampler == s.hasSampler && s'.sampler == s.sampler
  {
    hide FirstWins, LoadOne, OnlyEphemeralGone;
    if dirs == [] {
      forall id ensures FirstWins(s, dirs, s, id) {
        NothingLoaded(s, id);
      }
      NothingGone(s, stuck);
    } else {
      var n := |dirs| - 1;
      var before, dir := dirs[..n], dirs[n];
      LoadEachMeans(site, s, before, stuck);
      var s1 := LoadEach(site, s, before, stuck);
      assert dir !in before && dirs == before + [dir];
      OneMoreGone(site, s, before, dir, stuck, s1);
      forall id ensures FirstWins(s, dirs, LoadOne(site, s1, dir, stuck), id) {
        FirstStillWins(site, s, before, dir, stuck, s1, id);
      }
    }
  }

  lemma NothingGone(s: State, stuck: set<string>)
    ensures OnlyEphemeralGone(s, [], stuck, s)
  {
  }

  lemma OneMoreGone(site: Site, s: State, before: seq<string>, dir: string, stuck: set<string>, s1: State)
    requires OnlyEphemeralGone(s, before, stuck, s1) && dir !in before
             && (forall d | d in s1.disk :: s1.disk[d] == s.disk[d])
    ensures var s' := LoadOne(site, s1, dir, stuck);
            && OnlyEphemeralGone(s, before + [dir], stuck, s') && (forall d | d in s'.disk :: s'.disk[d] == s.disk[d])
            && s'.hasSampler == s1.hasSampler && s'.sampler == s1.sampler
    ensures dir in s1.disk <==> dir in s.disk
  {
  }

  lemma NothingLoaded(s: State, id: Id)
    ensures FirstWins(s, [], s, id)
  {
  }

  lemma FirstStillWins(site: Site, s: State, before: seq<string>, dir: string, stuck: set<string>, s1: State, id: Id)
    requires FirstWins(s, before, s1, id)
    requires dir !in before && (dir in s1.disk <==> dir in s.disk) && (dir in s.disk ==> s1.disk[dir] == s.disk[dir])
    ensures FirstWins(s, before + [dir], LoadOne(site, s1, dir, stuck), id)
  {
    var dirs, s' := before + [dir], LoadOne(site, s1, dir, stuck);
    assert forall i | 0 <= i < |before| :: dirs[i] == before[i];
    assert dirs[|before|] == dir;
    if id !in s.channels && id in s1.channels {
      var i :| 0 <= i < |before| && Builds(s.disk, before[i], id)
        && (forall j | 0 <= j < i :: !Builds(s.disk, before[j], id))
        && s1.channels[id] == Channel(false, Some(before[i]));
      assert Builds(s.disk, dirs[i], id);
    } else if id !in s.channels && id in s'.channels {
      assert Builds(s.disk, dirs[|before|], id);
    }
  }

  // ---- every run -----------------------------------------------------------------------------------

  datatype Action =
    | Create(asked: Option<Id>, id: Id, name: string, luck: Luck)
    | Remove(id: Id, inside: bool, deletes: bool)
    | Play(id: Id, starts: bool)
    | Stop(id: Id)
    | Restart(id: Id, starts: bool)
    | SetSampler(attached: bool)
    | Load(listing: seq<string>, stuck: set<string>)
    | StopAll

  function Step(site: Site, s: State, a: Action): State {
    match a
    case Create(asked, id, name, luck) => if MayChoose(s, asked, id) then Created(site, s, id, name, luck).0 else s
    case Remove(id, inside, deletes) => Removed(site, s, id, inside, deletes).0
    case Play(id, starts) => Played(s, id, starts).0
    case Stop(id) => Halted(s, id).0
    case Restart(id, starts) => Restarted(s, id, starts).0
    case SetSampler(attached) => Resampled(s, attached)
    case Load(listing, stuck) => Loaded(site, s, listing, stuck)
    case StopAll => AllStopped(s)
  }

  function Run(site: Site, disk: map<string, ConfigFile>, actions: seq<Action>): State {
    if actions == [] then State(map[], {}, false, {}, disk)
    else Step(site, Run(site, disk, actions[..|actions| - 1]), actions[|actions| - 1])
  }

  /** The registries agree: the watchdog watches exactly the live channels, the sampler samples
      exactly the running ones. */
  predicate Agree(site: Site, s: State) {
    && s.watchdog == (if site.hasWatchdog then s.channels.Keys else {})
    && s.sampler == (if s.hasSampler then RunningIds(s.channels) else {})
  }

  lemma CreatedAgrees(site: Site, s: State, id: Id, name: string, luck: Luck)
    requires Agree(site, s)
    ensures Agree(site, Created(site, s, id, name, luck).0)
  {
    hide DirFor, Cleaned;
    var s' := Created(site, s, id, name, luck).0;
    assert RunningIds(s'.channels) == RunningIds(s.channels);
  }

  lemma RemovedAgrees(site: Site, s: State, id: Id, inside: bool, deletes: bool)
    requires Agree(site, s)
    ensures Agree(site, Removed(site, s, id, inside, deletes).0)
  {
    var s' := Removed(site, s, id, inside, deletes).0;
    assert RunningIds(s'.channels) == RunningIds(s.channels) - {id};
  }

  lemma SetRunningIds(s: State, id: Id, running: bool)
    requires id in s.channels
    ensures var s' := SetRunning(s, id, running);
            && RunningIds(s'.channels)
                 == (if running then RunningIds(s.channels) + {id} else RunningIds(s.channels) - {id})
            && s'.channels.Keys == s.channels.Keys
  {
    var s' := SetRunning(s, id, running);
    if running {
      assert RunningIds(s'.channels) == RunningIds(s.channels) + {id};
    } else {
      assert RunningIds(s'.channels) == RunningIds(s.channels) - {id};
    }
  }

  lemma TransportAgrees(site: Site, s: State, id: Id, starts: bool)
    requires Agree(site, s)
    ensures Agree(site, Played(s, id, starts).0) && Agree(site, Halted(s, id).0)
            && Agree(site, Restarted(s, id, starts).0)
  {
    hide RunningIds;
    if id in s.channels {
      SetRunningIds(s, id, true);
      SetRunningIds(Unsampled(s, id), id, false);
      SetRunningIds(SetRunning(Unsampled(s, id), id, false), id, true);
    }
  }

  lemma LoadOneAgrees(site: Site, s: State, dir: string, stuck: set<string>)
    requires Agree(site, s)
    ensures Agree(site, LoadOne(site, s, dir, stuck))
  {
    var s' := LoadOne(site, s, dir, stuck);
    assert RunningIds(s'.channels) == RunningIds(s.channels);
  }

  lemma {:induction false} LoadedAgrees(site: Site, s: State, dirs: seq<string>, stuck: set<string>)
    requires Agree(site, s)
    ensures Agree(site, LoadEach(site, s, dirs, stuck))
  {
    hide Agree, LoadOne;
    if dirs != [] {
      LoadedAgrees(site, s, dirs[..|dirs| - 1], stuck);
      LoadOneAgrees(site, LoadEach(site, s, dirs[..|dirs| - 1], stuck), dirs[|dirs| - 1], stuck);
    }
  }

  lemma OthersAgree(site: Site, s: State, attached: bool)
    requires Agree(site, s)
    ensures Agree(site, Resampled(s, attached)) && Agree(site, AllStopped(s))
  {
    assert RunningIds(AllStopped(s).channels) == {};
    assert RunningIds(s.channels) <= s.channels.Keys;
    assert RunningIds(s.channels) == RunningIds(s.channels);
  }

  /** Over every sequential run. */
  lemma {:induction false} RegistriesAgree(site: Site, disk: map<string, ConfigFile>, actions: seq<Action>)
    ensures Agree(site, Run(site, disk, actions))
  {
    hide Agree, Created, Removed, Played, Halted, Restarted, LoadEach, Resampled, AllStopped;
    if actions == [] {
      NobodyDisagrees(site, disk);
    } else {
      var s, a := Run(site, disk, actions[..|actions| - 1]), actions[|actions| - 1];
      RegistriesAgree(site, disk, actions[..|actions| - 1]);
      match a
      case Create(asked, id, name, luck) => CreatedAgrees(site, s, id, name, luck);
      case Remove(id, inside, deletes) => RemovedAgrees(site, s, id, inside, deletes);
      case Play(id, starts) => TransportAgrees(site, s, id, starts);
      case Stop(id) => TransportAgrees(site, s, id, true);
      case Restart(id, starts) => TransportAgrees(site, s, id, starts);
      case SetSampler(attached) => OthersAgree(site, s, attached);
      case Load(listing, stuck) => LoadedAgrees(site, s, Sorting.Sort(PathOrder(), listing), stuck);
      case StopAll => OthersAgree(site, s, true);
    }
  }

  lemma NobodyDisagrees(site: Site, disk: map<string, ConfigFile>)
    ensures Agree(site, State(map[], {}, false, {}, disk))
  {
    assert RunningIds(map[]) == {};
  }

  /** A refused create leaves the channels, the registries and every folder as they were; at
      most, if removing it failed too, the folder it had just made stays. A folder that was
      there before is never deleted or rewritten, refused or not. */
  lemma RefusedCreateRestores(site: Site, s: State, id: Id, name: string, luck: Luck)
    ensures var (s', result) := Created(site, s, id, name, luck);
            && (result != Ok ==> s'.(disk := s.disk) == s
                                 && (s'.disk == s.disk
                                     || (!luck.cleans && DirFor(site, id, name).Some?
                                         && s'.disk == s.disk[DirFor(site, id, name).value := NoConfig]
                                         && DirFor(site, id, name).value !in s.disk)))
            && (forall d | d in s.disk :: d in s'.disk && s'.disk[d] == s.disk[d])
  {
    hide DirFor;
    var dir := DirFor(site, id, name);
    if dir.Some? && dir.value !in s.disk {
      assert s.disk[dir.value := NoConfig] - {dir.value} == s.disk;
    }
  }

  // ---- folders of one's own ----------------------------------------------------------------------

  /** Named as create names them: the id, and perhaps a dash and a name. */
  ghost predicate IsDirOf(id: Id, dir: string) {
    exists tail :: DirWithTail(id, tail, dir)
  }

  predicate DirWithTail(id: Id, tail: string, dir: string) {
    (tail == [] || tail[0] == '-') && dir == "ch" + (Decimal.Text(id.number) + tail)
  }

  lemma DigitsAfterSign(i: int, k: nat)
    requires 1 <= k < |Decimal.Text(i)|
    ensures Decimal.IsDigit(Decimal.Text(i)[k])
  {
    hide Decimal.Digits;
    if i < 0 {
      Decimal.DigitsAreDigits(-i);
      assert Decimal.Text(i)[k] in Decimal.Digits(-i);
    } else {
      Decimal.DigitsAreDigits(i);
      assert Decimal.Text(i)[k] in Decimal.Digits(i);
    }
  }

  lemma NotLonger(a: int, x: string, b: int, y: string)
    requires Decimal.Text(a) + x == Decimal.Text(b) + y && (x == [] || x[0] == '-')
    ensures |Decimal.Text(a)| >= |Decimal.Text(b)|
  {
    hide Decimal.Text;
    var s, n := Decimal.Text(a) + x, |Decimal.Text(a)|;
    if n < |Decimal.Text(b)| {
      assert s[n] == (Decimal.Text(b) + y)[n] == Decimal.Text(b)[n];
      assert s[n] == x[0];
      DigitsAfterSign(b, n);
    }
  }

  /** The name of a folder says whose it is. */
  lemma DirsApart(a: Id, b: Id, dir: string)
    requires IsDirOf(a, dir) && IsDirOf(b, dir)
    ensures a == b
  {
    hide Decimal.Text;
    var x :| DirWithTail(a, x, dir);
    var y :| DirWithTail(b, y, dir);
    assert dir[2..] == Decimal.Text(a.number) + x == Decimal.Text(b.number) + y;
    NotLonger(a.number, x, b.number, y);
    NotLonger(b.number, y, a.number, x);
    var n := |Decimal.Text(a.number)|;
    assert (Decimal.Text(a.number) + x)[..n] == Decimal.Text(a.number);
    assert (Decimal.Text(b.number) + y)[..n] == Decimal.Text(b.number);
    Decimal.TextInjective(a.number, b.number);
  }

  lemma DirForIsItsOwn(site: Site, id: Id, name: string)
    ensures DirFor(site, id, name).Some? ==> IsDirOf(id, DirFor(site, id, name).value)
  {
    hide Decimal.Text;
    if site.hasRoot {
      var dir := DirFor(site, id, name).value;
      var tail := site.sanitize(name);
      var rest := if tail == "" then "" else "-" + tail;
      assert "ch" + Decimal.Text(id.number) + rest == "ch" + (Decimal.Text(id.number) + rest);
      assert rest != "" ==> rest[0] == '-';
      assert DirWithTail(id, rest, dir);
    }
  }

  /** The folder of a live channel, or one that would load it: it was there from the start with
      that channel's configuration, or it is named as create names the channel's folders. */
  ghost predicate Home(site: Site, disk: map<string, ConfigFile>, id: Id, dir: string) {
    Builds(disk, dir, id) || exists name :: DirFor(site, id, name) == Some(dir)
  }

  ghost predicate Homely(site: Site, disk: map<string, ConfigFile>, s: State) {
    && (forall id | id in s.channels && s.channels[id].dir.Some? :: Home(site, disk, id, s.channels[id].dir.value))
    && (forall d, id | Builds(s.disk, d, id) :: Home(site, disk, id, d))
  }

  lemma {:induction false} LoadedHomely(site: Site, disk: map<string, ConfigFile>, s: State, dirs: seq<string>,
                                        stuck: set<string>)
    requires Homely(site, disk, s)
    ensures Homely(site, disk, LoadEach(site, s, dirs, stuck))
  {
    hide Home;
    if dirs != [] {
      var s1, dir := LoadEach(site, s, dirs[..|dirs| - 1], stuck), dirs[|dirs| - 1];
      LoadedHomely(site, disk, s, dirs[..|dirs| - 1], stuck);
      var s' := LoadOne(site, s1, dir, stuck);
      forall d, id | Builds(s'.disk, d, id) ensures Builds(s1.disk, d, id) {
      }
      if dir in s1.disk && s1.disk[dir].ConfigOf? && s1.disk[dir].builds {
        assert Builds(s1.disk, dir, s1.disk[dir].id);
      }
    }
  }

  lemma CreatedHomely(site: Site, disk: map<string, ConfigFile>, s: State, id: Id, name: string, luck: Luck)
    requires Homely(site, disk, s)
    ensures Homely(site, disk, Created(site, s, id, name, luck).0)
  {
    hide DirFor;
    var s' := Created(site, s, id, name, luck).0;
    var dir := DirFor(site, id, name);
    forall d, k | Builds(s'.disk, d, k) ensures Builds(s.disk, d, k) || (k == id && dir == Some(d)) {
    }
  }

  lemma StepHomely(site: Site, disk: map<string, ConfigFile>, s: State, a: Action)
    requires Homely(site, disk, s)
    ensures Homely(site, disk, Step(site, s, a))
  {
    hide Homely, LoadEach, Created, Played, Halted, Restarted, RunningIds;
    match a
    case Create(asked, id, name, luck) => CreatedHomely(site, disk, s, id, name, luck);
    case Load(listing, stuck) => LoadedHomely(site, disk, s, Sorting.Sort(PathOrder(), listing), stuck);
    case Remove(id, inside, deletes) => ShrunkHomely(site, disk, s, Removed(site, s, id, inside, deletes).0);
    case Play(id, starts) => TransportHomely(site, disk, s, id, starts);
    case Stop(id) => TransportHomely(site, disk, s, id, true);
    case Restart(id, starts) => TransportHomely(site, disk, s, id, starts);
    case SetSampler(attached) => ShrunkHomely(site, disk, s, Resampled(s, attached));
    case StopAll => ShrunkHomely(site, disk, s, AllStopped(s));
  }

  lemma TransportHomely(site: Site, disk: map<string, ConfigFile>, s: State, id: Id, starts: bool)
    requires Homely(site, disk, s)
    ensures Homely(site, disk, Played(s, id, starts).0) && Homely(site, disk, Halted(s, id).0)
    ensures Homely(site, disk, Restarted(s, id, starts).0)
  {
    hide Homely;
    ShrunkHomely(site, disk, s, Played(s, id, starts).0);
    ShrunkHomely(site, disk, s, Halted(s, id).0);
    ShrunkHomely(site, disk, s, Restarted(s, id, starts).0);
  }

  lemma ShrunkHomely(site: Site, disk: map<string, ConfigFile>, s: State, s': State)
    requires Homely(site, disk, s)
    requires forall d | d in s'.disk :: d in s.disk && s'.disk[d] == s.disk[d]
    requires forall id | id in s'.channels :: id in s.channels && s'.channels[id].dir == s.channels[id].dir
    ensures Homely(site, disk, s')
  {
    hide Home;
    forall d, id | Builds(s'.disk, d, id) ensures Builds(s.disk, d, id) {
    }
  }

  lemma {:induction false} RunHomely(site: Site, disk: map<string, ConfigFile>, actions: seq<Action>)
    ensures Homely(site, disk, Run(site, disk, actions))
  {
    hide Step, Homely;
    if actions == [] {
      StartHomely(site, disk);
    } else {
      RunHomely(site, disk, actions[..|actions| - 1]);
      StepHomely(site, disk, Run(site, disk, actions[..|actions| - 1]), actions[|actions| - 1]);
    }
  }

  lemma StartHomely(site: Site, disk: map<string, ConfigFile>)
    ensures Homely(site, disk, State(map[], {}, false, {}, disk))
  {
  }

  // ---- when removing a channel takes another one's folder -----------------------------------------

  /** The folders as the directory lists them: all of them, each once. */
  predicate Lists(listing: seq<string>, disk: map<string, ConfigFile>) {
    Sorting.Distinct(listing) && (forall d | d in disk :: d in listing) && (forall d | d in listing :: d in disk)
  }

  /** Every load lists the whole root. */
  predicate Whole(site: Site, disk: map<string, ConfigFile>, actions: seq<Action>) {
    actions == [] ||
      (var front, a := actions[..|actions| - 1], actions[|actions| - 1];
       Whole(site, disk, front) && (a.Load? ==> Lists(a.listing, Run(site, disk, front).disk)))
  }

  /** Removing channel `other` deletes the folder of the live channel `mine`. */
  predicate Loses(site: Site, s: State, mine: Id, other: Id, inside: bool, deletes: bool) {
    && mine in s.channels && mine != other && s.channels[mine].dir.Some? && s.channels[mine].dir.value in s.disk
    && s.channels[mine].dir.value !in Removed(site, s, other, inside, deletes).0.disk
  }

  ghost predicate CanLose(site: Site, disk: map<string, ConfigFile>) {
    exists actions, mine, other, inside, deletes ::
      Whole(site, disk, actions) && Loses(site, Run(site, disk, actions), mine, other, inside, deletes)
  }

  /** The folder loads channel `mine` and is named as create would name one of channel `other`. */
  predicate Misnamed(site: Site, disk: map<string, ConfigFile>, d: string, mine: Id, other: Id, name: string) {
    Builds(disk, d, mine) && mine != other && DirFor(site, other, name) == Some(d)
  }

  /** No two channels are ever at home in one folder, unless the disk started with a misnamed
      one. */
  lemma HomesApart(site: Site, disk: map<string, ConfigFile>, a: Id, b: Id, d: string)
    requires Home(site, disk, a, d) && Home(site, disk, b, d) && a != b
    ensures exists mine, other, name :: Misnamed(site, disk, d, mine, other, name)
  {
    hide DirFor, IsDirOf;
    if Builds(disk, d, a) {
      var name :| DirFor(site, b, name) == Some(d);
      assert Misnamed(site, disk, d, a, b, name);
    } else if Builds(disk, d, b) {
      var name :| DirFor(site, a, name) == Some(d);
      assert Misnamed(site, disk, d, b, a, name);
    } else {
      var x :| DirFor(site, a, x) == Some(d);
      var y :| DirFor(site, b, y) == Some(d);
      DirForIsItsOwn(site, a, x);
      DirForIsItsOwn(site, b, y);
      DirsApart(a, b, d);
    }
  }

  lemma LossNeedsMisnamed(site: Site, disk: map<string, ConfigFile>, actions: seq<Action>, mine: Id, other: Id,
                          inside: bool, deletes: bool)
    requires Loses(site, Run(site, disk, actions), mine, other, inside, deletes)
    ensures exists d, a, b, name :: Misnamed(site, disk, d, a, b, name)
  {
    hide Run, Home, Misnamed;
    RunHomely(site, disk, actions);
    var s := Run(site, disk, actions);
    var d := s.channels[mine].dir.value;
    assert other in s.channels && s.channels[other].dir == Some(d);
    HomesApart(site, disk, mine, other, d);
    var a, b, name :| Misnamed(site, disk, d, a, b, name);
  }

  lemma {:induction false} SomeListing(dirs: set<string>) returns (listing: seq<string>)
    ensures Sorting.Distinct(listing) && (forall d :: d in listing <==> d in dirs)
    decreases |dirs|
  {
    if dirs == {} {
      listing := [];
    } else {
      var d :| d in dirs;
      var more := SomeListing(dirs - {d});
      listing := [d] + more;
    }
  }

  /** Loading the whole root brings up a channel that is not live, from one of the folders that
      build it, and deletes none of those. */
  lemma LoadsSomewhere(site: Site, s: State, d: string, mine: Id, listing: seq<string>)
    requires site.hasRoot && Lists(listing, s.disk) && Builds(s.disk, d, mine) && mine !in s.channels
    ensures var s1 := Loaded(site, s, listing, {});
            && s1.disk.Keys <= s.disk.Keys && Builds(s1.disk, d, mine)
            && mine in s1.channels && s1.channels[mine].dir.Some? && s1.channels[mine].dir.value in s1.disk
  {
    hide LoadEach, Sorting.Sort;
    var dirs := Sorting.Sort(PathOrder(), listing);
    Sorting.DistinctEither(listing, dirs);
    LoadEachMeans(site, s, dirs, {});
    assert d in dirs by {
      assert d in multiset(listing);
    }
    var s1 := Loaded(site, s, listing, {});
    assert FirstWins(s, dirs, s1, mine);
    var i :| 0 <= i < |dirs| && dirs[i] == d;
    assert mine in s1.channels;
    var j :| 0 <= j < |dirs| && Builds(s.disk, dirs[j], mine) && s1.channels[mine] == Channel(false, Some(dirs[j]));
    assert dirs[j] in s1.disk;
  }

  lemma OneMore(site: Site, disk: map<string, ConfigFile>, actions: seq<Action>, a: Action)
    requires Whole(site, disk, actions) && (a.Load? ==> Lists(a.listing, Run(site, disk, actions).disk))
    ensures Whole(site, disk, actions + [a])
    ensures Run(site, disk, actions + [a]) == Step(site, Run(site, disk, actions), a)
  {
    assert (actions + [a])[..|actions|] == actions;
  }

  /** Channel `mine` can be made to live in any folder that builds it: restart (stop everything
      and load), and as long as it comes up from another folder, remove it and restart again. */
  lemma {:induction false} MovesIn(site: Site, disk: map<string, ConfigFile>, actions: seq<Action>, d: string, mine: Id)
    returns (more: seq<Action>)
    requires site.hasRoot && Whole(site, disk, actions)
    requires var s := Run(site, disk, actions); Builds(s.disk, d, mine) && mine !in s.channels
    ensures Whole(site, disk, more)
    ensures var s := Run(site, disk, more);
            Builds(s.disk, d, mine) && mine in s.channels && s.channels[mine].dir == Some(d)
    decreases Run(site, disk, actions).disk.Keys
  {
    hide Run, Whole, Loaded, Lists;
    var s := Run(site, disk, actions);
    var listing := SomeListing(s.disk.Keys);
    ListsAll(listing, s.disk);
    var load := Load(listing, {});
    OneMore(site, disk, actions, StopAll);
    OneMore(site, disk, actions + [StopAll], load);
    LoadsSomewhere(site, AllStopped(s), d, mine, listing);
    more := actions + [StopAll] + [load];
    var s1 := Run(site, disk, more);
    if s1.channels[mine].dir != Some(d) {
      var remove := Remove(mine, true, true);
      OneMore(site, disk, more, remove);
      var s2 := Run(site, disk, more + [remove]);
      assert s2.disk == s1.disk - {s1.channels[mine].dir.value};
      assert s1.channels[mine].dir.value in s.disk.Keys && s1.channels[mine].dir.value !in s2.disk.Keys;
      more := MovesIn(site, disk, more + [remove], d, mine);
    }
  }

  lemma ListsAll(listing: seq<string>, disk: map<string, ConfigFile>)
    requires Sorting.Distinct(listing) && (forall d :: d in listing <==> d in disk.Keys)
    ensures Lists(listing, disk)
  {
  }

  /** With a misnamed folder: bring up its channel there, create the other channel, which is
      given the same folder, and remove it again. */
  lemma MisnamedIsLost(site: Site, disk: map<string, ConfigFile>, d: string, mine: Id, other: Id, name: string)
    requires Misnamed(site, disk, d, mine, other, name)
    ensures CanLose(site, disk)
  {
    hide Run, Whole, DirFor;
    HasRoot(site, other, name);
    var none: seq<Action> := [];
    assert Whole(site, disk, none) by { Nothing(site, disk); }
    assert Run(site, disk, none) == State(map[], {}, false, {}, disk) by { Nothing(site, disk); }
    var a := MovesIn(site, disk, none, d, mine);
    var remove, create := Remove(other, true, false), Create(Some(other), other, name, Luck(true, true, true, true));
    OneMore(site, disk, a, remove);
    OneMore(site, disk, a + [remove], create);
    var s := Run(site, disk, a + [remove] + [create]);
    assert s.channels[other] == Channel(false, Some(d));
    assert Loses(site, s, mine, other, true, true);
  }

  lemma Nothing(site: Site, disk: map<string, ConfigFile>)
    ensures Whole(site, disk, []) && Run(site, disk, []) == State(map[], {}, false, {}, disk)
  {
  }

  lemma HasRoot(site: Site, id: Id, name: string)
    ensures DirFor(site, id, name).Some? ==> site.hasRoot
  {
  }

  /** When removing a channel can delete the folder of another that is live: exactly when the
      disk the manager starts on holds a folder that loads one channel and bears a name create
      would give to another. */
  lemma RemovalTakesAnothersFolderIff(site: Site, disk: map<string, ConfigFile>)
    ensures CanLose(site, disk) <==> exists d, mine, other, name :: Misnamed(site, disk, d, mine, other, name)
  {
    hide Misnamed, Run, Whole, Loses;
    if CanLose(site, disk) {
      var actions, mine, other, inside, deletes :|
        Whole(site, disk, actions) && Loses(site, Run(site, disk, actions), mine, other, inside, deletes);
      LossNeedsMisnamed(site, disk, actions, mine, other, inside, deletes);
    }
    if exists d, mine, other, name :: Misnamed(site, disk, d, mine, other, name) {
      var d, mine, other, name :| Misnamed(site, disk, d, mine, other, name);
      MisnamedIsLost(site, disk, d, mine, other, name);
    }
  }

  // ---- the manager as it runs -------------------------------------------------------------------------

  class Manager {
    const site: Site
    var channels: map<Id, Channel>
    var watchdog: set<Id>
    var hasSampler: bool
    var sampler: set<Id>
    var disk: map<string, ConfigFile>

    function Now(): State
      reads this
    {
      State(channels, watchdog, hasSampler, sampler, disk)
    }

    ghost predicate Valid()
      reads this
    {
      Agree(site, Now())
    }

    constructor (site: Site, disk: map<string, ConfigFile>)
      ensures this.site == site && Now() == State(map[], {}, false, {}, disk) && Valid()
    {
      this.site := site;
      channels, watchdog, hasSampler, sampler := map[], {}, false, {};
      this.disk := disk;
      new;
      NobodyDisagrees(site, disk);
    }

    /** chooseIdLocked. */
    method ChooseId(asked: Option<Id>) returns (id: Id)
      ensures MayChoose(Now(), asked, id)
    {
      if asked.Some? {
        return asked.value;
      }
      id := Id(1);
      var left := channels.Keys;
      while left != {}
        invariant left <= channels.Keys && IsNext(channels.Keys - left, id)
        decreases |left|
      {
        var k := OneOf(left);
        NextAfter(channels.Keys, left, k, id);
        left := left - {k};
        if k.number + 1 > id.number {
          id := Id(k.number + 1);
        }
      }
      assert channels.Keys - left == channels.Keys;
    }

    method Create(asked: Option<Id>, name: string, luck: Luck) returns (result: Result, id: Id)
      requires Valid()
      modifies this
      ensures Valid() && MayChoose(old(Now()), asked, id)
      ensures (Now(), result) == Created(site, old(Now()), id, name, luck)
    {
      hide Agree, MayChoose, DirFor;
      id := ChooseId(asked);
      CreatedAgrees(site, Now(), id, name, luck);
      if id in channels {
        return AlreadyExists, id;
      }
      var dir := DirFor(site, id, name);
      var made := false;
      if dir.Some? {
        if !luck.mkdir {
          return BuildFailed, id;
        }
        if dir.value !in disk {
          made := true;
          disk := disk[dir.value := NoConfig];
        }
      }
      if !luck.builds {
        if made && luck.cleans {
          disk := disk - {dir.value};
        }
        return BuildFailed, id;
      }
      if made {
        if !luck.persists {
          if luck.cleans {
            disk := disk - {dir.value};
          }
          return BuildFailed, id;
        }
        disk := disk[dir.value := ConfigOf(id, true)];
      }
      if site.hasWatchdog {
        watchdog := watchdog + {id};
      }
      channels := channels[id := Channel(false, dir)];
      result := Ok;
    }

    method Remove(id: Id, inside: bool, deletes: bool) returns (result: Result)
      requires Valid()
      modifies this
      ensures Valid() && (Now(), result) == Removed(site, old(Now()), id, inside, deletes)
    {
      hide Agree;
      RemovedAgrees(site, Now(), id, inside, deletes);
      if id !in channels {
        return NotFound;
      }
      var evicted := channels[id];
      channels := channels - {id};
      if hasSampler {
        sampler := sampler - {id};
      }
      watchdog := watchdog - {id};
      if evicted.dir.Some? && site.hasRoot {
        if inside && deletes {
          disk := disk - {evicted.dir.value};
        }
      }
      result := Ok;
    }

    method Play(id: Id, starts: bool) returns (result: Result)
      requires Valid()
      modifies this
      ensures Valid() && (Now(), result) == Played(old(Now()), id, starts)
    {
      hide Agree;
      TransportAgrees(site, Now(), id, starts);
      if id !in channels {
        return NotFound;
      }
      if channels[id].running {
        return AlreadyRunning;
      }
      if !starts {
        return StartFailed;
      }
      channels := channels[id := channels[id].(running := true)];
      if hasSampler {
        sampler := sampler + {id};
      }
      result := Ok;
    }

    method Stop(id: Id) returns (result: Result)
      requires Valid()
      modifies this
      ensures Valid() && (Now(), result) == Halted(old(Now()), id)
    {
      hide Agree;
      TransportAgrees(site, Now(), id, true);
      if id !in channels {
        return NotFound;
      }
      if !channels[id].running {
        return AlreadyStopped;
      }
      if hasSampler {
        sampler := sampler - {id};
      }
      channels := channels[id := channels[id].(running := false)];
      result := Ok;
    }

    method Restart(id: Id, starts: bool) returns (result: Result)
      requires Valid()
      modifies this
      ensures Valid() && (Now(), result) == Restarted(old(Now()), id, starts)
    {
      hide Agree;
      TransportAgrees(site, Now(), id, starts);
      if id !in channels {
        return NotFound;
      }
      if channels[id].running {
        if hasSampler {
          sampler := sampler - {id};
        }
        channels := channels[id := channels[id].(running := false)];
      }
      if !starts {
        return StartFailed;
      }
      channels := channels[id := channels[id].(running := true)];
      if hasSampler {
        sampler := sampler + {id};
      }
      result := Ok;
    }

    method SetProfileSampler(attached: bool)
      requires Valid()
      modifies this`hasSampler, this`sampler
      ensures Valid() && Now() == Resampled(old(Now()), attached)
    {
      ghost var s := Now();
      OthersAgree(site, s, attached);
      hide Agree, RunningIds;
      sampler := {};
      hasSampler := attached;
      if attached {
        SampleAll();
      }
      assert Now() == Resampled(s, attached);
    }

    method SampleAll()
      requires sampler == {}
      modifies this`sampler
      ensures sampler == RunningIds(channels)
    {
      hide RunningIds;
      var left := channels.Keys;
      NoneSampled(channels, left);
      while left != {}
        invariant left <= channels.Keys && sampler == RunningIds(channels) - left
        decreases |left|
      {
        var k := OneOf(left);
        OneSampled(channels, left, k);
        left := left - {k};
        if channels[k].running {
          sampler := sampler + {k};
        }
      }
    }

    method StopAll()
      requires Valid()
      modifies this`channels, this`watchdog, this`sampler
      ensures Valid() && Now() == AllStopped(old(Now()))
    {
      ghost var s := Now();
      OthersAgree(site, s, true);
      hide Agree, RunningIds;
      var all := channels.Keys;
      channels := map[];
      Detach(all);
      assert Now() == AllStopped(s);
    }

    method Detach(all: set<Id>)
      modifies this`watchdog, this`sampler
      ensures watchdog == old(watchdog) - all
      ensures sampler == if hasSampler then old(sampler) - all else old(sampler)
    {
      var left := all;
      while left != {}
        invariant left <= all
        invariant watchdog == old(watchdog) - (all - left)
        invariant sampler == if hasSampler then old(sampler) - (all - left) else old(sampler)
        decreases |left|
      {
        var k := OneOf(left);
        OneGone(old(watchdog), all, left, k);
        OneGone(old(sampler), all, left, k);
        left := left - {k};
        if hasSampler {
          sampler := sampler - {k};
        }
        watchdog := watchdog - {k};
      }
      assert all - left == all;
    }

    /** The folders in path order; each is skipped, removed or brought up. */
    method LoadFromRoot(listing: seq<string>, stuck: set<string>) returns (loaded: nat)
      requires Valid()
      modifies this`channels, this`watchdog, this`disk
      ensures Valid() && Now() == Loaded(site, old(Now()), listing, stuck)
      ensures |channels| == |old(channels)| + loaded
    {
      loaded := 0;
      if !site.hasRoot {
        return;
      }
      var dirs := Sorting.Sort(PathOrder(), listing);
      ghost var s := Now();
      LoadedAgrees(site, s, dirs, stuck);
      hide Agree, LoadOne, Sorting.Sort;
      for i := 0 to |dirs|
        invariant Now() == LoadEach(site, s, dirs[..i], stuck)
        invariant |channels| == |old(channels)| + loaded
      {
        assert dirs[..i + 1][..i] == dirs[..i];
        var up := LoadFolder(dirs[i], stuck);
        loaded := loaded + if up then 1 else 0;
      }
      assert dirs[..|dirs|] == dirs;
    }

    method LoadFolder(d: string, stuck: set<string>) returns (up: bool)
      modifies this`channels, this`watchdog, this`disk
      ensures Now() == LoadOne(site, old(Now()), d, stuck)
      ensures |channels| == |old(channels)| + if up then 1 else 0
    {
      up := false;
      if d !in disk || disk[d].NoConfig? || disk[d].Malformed? {
        return;
      }
      if disk[d].Ephemeral? {
        if d !in stuck {
          disk := disk - {d};
        }
        return;
      }
      if disk[d].NoId? {
        return;
      }
      var id := disk[d].id;
      if id in channels || !disk[d].builds {
        return;
      }
      if site.hasWatchdog {
        watchdog := watchdog + {id};
      }
      OneMoreChannel(channels, id, Channel(false, Some(d)));
      channels := channels[id := Channel(false, Some(d))];
      up := true;
    }
  }

  lemma NextAfter(keys: set<Id>, left: set<Id>, k: Id, id: Id)
    requires left <= keys && k in left && IsNext(keys - left, id)
    ensures IsNext(keys - (left - {k}), if k.number + 1 > id.number then Id(k.number + 1) else id)
  {
    var now := keys - (left - {k});
    assert k in now;
    assert forall x | x in now :: x in keys - left || x == k;
  }

  lemma NoneSampled(channels: map<Id, Channel>, left: set<Id>)
    requires left == channels.Keys
    ensures RunningIds(channels) - left == {}
  {
  }

  lemma OneSampled(channels: map<Id, Channel>, left: set<Id>, k: Id)
    requires left <= channels.Keys && k in left
    ensures RunningIds(channels) - (left - {k})
         == (RunningIds(channels) - left) + if channels[k].running then {k} else {}
  {
  }

  lemma OneGone(were: set<Id>, all: set<Id>, left: set<Id>, k: Id)
    requires left <= all && k in left
    ensures were - (all - (left - {k})) == were - (all - left) - {k}
  {
  }

  method OneOf(left: set<Id>) returns (k: Id)
    requires left != {}
    ensures k in left
  {
    k :| k in left;
  }

  lemma OneMoreChannel(channels: map<Id, Channel>, id: Id, c: Channel)
    requires id !in channels
    ensures |channels[id := c]| == |channels| + 1
  {
    assert channels[id := c].Keys == channels.Keys + {id};
    assert |channels[id := c]| == |channels[id := c].Keys| && |channels| == |channels.Keys|;
  }
}
