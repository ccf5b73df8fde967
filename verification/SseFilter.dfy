/** The live hint of an audit event and the restricted audit list: who hears of an event and
    who can then read its row. */
module SseFilter {
  import opened Wrappers
  import opened AuditTypes
  import opened AuditQuery
  import opened PlayerGrants

  datatype Role = Admin | Operator | Viewer

  datatype Subject = Subject(role: Role, grants: seq<Grant>)

  // ---- the hint -----------------------------------------------------------------------------

  /** The scope members of the hint's payload: those that are set. */
  function IdsOf(x: Option<int>, y: Option<int>): seq<int> {
    (if x.Some? then [x.value] else []) + (if y.Some? then [y.value] else [])
  }

  predicate GrantCovers(g: Grant, objects: seq<int>, groups: seq<int>) {
    g.viewAudit && (if g.scope == ObjectScope then g.scopeId in objects else g.scopeId in groups)
  }

  predicate AnyGrantCovers(grants: seq<Grant>, objects: seq<int>, groups: seq<int>) {
    exists i | 0 <= i < |grants| :: GrantCovers(grants[i], objects, groups)
  }

  /** auditEventVisible for a hint that names this category and this place. */
  predicate HintVisible(who: Subject, category: Category, place: Place) {
    who.role == Admin
    || (category == Player
        && AnyGrantCovers(who.grants, IdsOf(place.objectId, place.fromObjectId),
                          IdsOf(place.groupId, place.fromGroupId)))
  }

  /** Who hears of an event: administrators of all; anybody else of events about players only, and
      of those where he was given the audit of an object or group at either end. */
  lemma HintMeans(who: Subject, category: Category, place: Place)
    ensures HintVisible(who, category, place) <==>
              || who.role == Admin
              || (category == Player
                  && exists i :: && 0 <= i < |who.grants| && who.grants[i].viewAudit
                                 && var id := Some(who.grants[i].scopeId);
                                    if who.grants[i].scope == ObjectScope
                                    then place.objectId == id || place.fromObjectId == id
                                    else place.groupId == id || place.fromGroupId == id)
  {
    var objects, groups := IdsOf(place.objectId, place.fromObjectId), IdsOf(place.groupId, place.fromGroupId);
    forall i | 0 <= i < |who.grants|
      ensures GrantCovers(who.grants[i], objects, groups) <==>
                who.grants[i].viewAudit
                && var id := Some(who.grants[i].scopeId);
                   if who.grants[i].scope == ObjectScope
                   then place.objectId == id || place.fromObjectId == id
                   else place.groupId == id || place.fromGroupId == id
    {
    }
  }

  // ---- the restricted list ----------------------------------------------------------------

  function AllowedIds(grants: seq<Grant>, scope: Scope): seq<int> {
    if grants == [] then []
    else
      var g := grants[|grants| - 1];
      AllowedIds(grants[..|grants| - 1], scope) + if g.viewAudit && g.scope == scope then [g.scopeId] else []
  }

  /** The filter of a reader who is not an administrator; None is the refusal of one who was
      given the audit of no place. */
  function Restricted(f: Filter, grants: seq<Grant>): Option<Filter> {
    var objects, groups := AllowedIds(grants, ObjectScope), AllowedIds(grants, GroupScope);
    if objects == [] && groups == [] then None
    else Some(f.(restrictToPlaces := true, allowedObjects := objects, allowedGroups := groups))
  }

  /** What the list shows this reader. */
  predicate ListShows(who: Subject, f: Filter, c: Columns) {
    if who.role == Admin then Matches(f, c)
    else
      var r := Restricted(f, who.grants);
      r.Some? && Matches(r.value, c)
  }

  const EVERYTHING := Filter(None, None, None, "", None, "", "", "", "", None, None, false, [], [], 100, 0)

  lemma {:induction false} AllowedSays(grants: seq<Grant>, scope: Scope, id: int)
    ensures id in AllowedIds(grants, scope) <==>
      exists i :: 0 <= i < |grants| && grants[i].viewAudit && grants[i].scope == scope && grants[i].scopeId == id
  {
    if grants != [] {
      var before := grants[..|grants| - 1];
      AllowedSays(before, scope, id);
      forall i | 0 <= i < |before| ensures before[i] == grants[i] {
      }
    }
  }

  lemma GrantsCoverWhatIsAllowed(grants: seq<Grant>, place: Place)
    ensures AnyGrantCovers(grants, IdsOf(place.objectId, place.fromObjectId), IdsOf(place.groupId, place.fromGroupId))
      <==> TouchesAny(place, AllowedIds(grants, ObjectScope), AllowedIds(grants, GroupScope))
  {
    hide AllowedIds;
    var objects, groups := IdsOf(place.objectId, place.fromObjectId), IdsOf(place.groupId, place.fromGroupId);
    forall id ensures id in AllowedIds(grants, ObjectScope) <==>
      exists i :: 0 <= i < |grants| && grants[i].viewAudit && grants[i].scope == ObjectScope && grants[i].scopeId == id
    {
      AllowedSays(grants, ObjectScope, id);
    }
    forall id ensures id in AllowedIds(grants, GroupScope) <==>
      exists i :: 0 <= i < |grants| && grants[i].viewAudit && grants[i].scope == GroupScope && grants[i].scopeId == id
    {
      AllowedSays(grants, GroupScope, id);
    }
    if AnyGrantCovers(grants, objects, groups) {
      var i :| 0 <= i < |grants| && GrantCovers(grants[i], objects, groups);
    }
    if TouchesAny(place, AllowedIds(grants, ObjectScope), AllowedIds(grants, GroupScope)) {
      if Within(place.objectId, AllowedIds(grants, ObjectScope))
         || Within(place.fromObjectId, AllowedIds(grants, ObjectScope)) {
        var id :| id in objects && id in AllowedIds(grants, ObjectScope);
        var i :| 0 <= i < |grants| && grants[i].viewAudit && grants[i].scope == ObjectScope && grants[i].scopeId == id;
        assert GrantCovers(grants[i], objects, groups);
      } else {
        var id :| id in groups && id in AllowedIds(grants, GroupScope);
        var i :| 0 <= i < |grants| && grants[i].viewAudit && grants[i].scope == GroupScope && grants[i].scopeId == id;
        assert GrantCovers(grants[i], objects, groups);
      }
    }
  }

  lemma NothingAllowed(place: Place)
    ensures !TouchesAny(place, [], [])
  {
  }

  /** A hint about an event reaches exactly those whom the unfiltered list shows the row it was
      stored as, so long as the row keeps the hint's place. */
  lemma StreamAgreesWithList(who: Subject, e: Event)
    ensures HintVisible(who, e.category, e.place) <==> ListShows(who, EVERYTHING, WriteColumns(e))
  {
    hide AnyGrantCovers, AllowedIds, TouchesAny;
    GrantsCoverWhatIsAllowed(who.grants, e.place);
    NothingAllowed(e.place);
    OnlyPlayerIsNamedPlayer(e.category);
  }

  lemma OnlyPlayerIsNamedPlayer(category: Category)
    ensures CategoryName(category) == CategoryName(Player) <==> category == Player
  {
    CategoryNameRead(category);
    CategoryNameRead(Player);
  }

  // ---- when everybody hears exactly of what he can read -----------------------------------------

  /** The hint was published for this place, or (None) not at all. */
  predicate Hears(who: Subject, category: Category, hint: Option<Place>) {
    hint.Some? && HintVisible(who, category, hint.value)
  }

  /** Every reader hears of the event if and only if the list shows him its row. */
  ghost predicate Agree(e: Event, hint: Option<Place>, row: Place) {
    forall who :: Hears(who, e.category, hint) <==> ListShows(who, EVERYTHING, WriteColumns(e.(place := row)))
  }

  function Objects(p: Place): seq<int> {
    IdsOf(p.objectId, p.fromObjectId)
  }

  function Groups(p: Place): seq<int> {
    IdsOf(p.groupId, p.fromGroupId)
  }

  predicate SameIds(a: seq<int>, b: seq<int>) {
    (forall i | 0 <= i < |a| :: a[i] in b) && (forall i | 0 <= i < |b| :: b[i] in a)
  }

  /** Both places name the same objects and the same groups. */
  predicate SameEnds(p: Place, q: Place) {
    SameIds(Objects(p), Objects(q)) && SameIds(Groups(p), Groups(q))
  }

  lemma SameEndsSameReaders(grants: seq<Grant>, p: Place, q: Place)
    requires SameEnds(p, q)
    ensures AnyGrantCovers(grants, Objects(p), Groups(p)) ==> AnyGrantCovers(grants, Objects(q), Groups(q))
  {
    hide Objects, Groups;
    if AnyGrantCovers(grants, Objects(p), Groups(p)) {
      var i :| 0 <= i < |grants| && GrantCovers(grants[i], Objects(p), Groups(p));
      assert GrantCovers(grants[i], Objects(q), Groups(q));
    }
  }

  /** The reader who was given the audit of this one place tells the two apart. */
  function Sole(scope: Scope, id: int): Subject {
    Subject(Viewer, [Grant(scope, id, false, false, false, true)])
  }

  lemma SoleSees(scope: Scope, id: int, p: Place)
    ensures HintVisible(Sole(scope, id), Player, p) <==> id in (if scope == ObjectScope then Objects(p) else Groups(p))
  {
    assert GrantCovers(Sole(scope, id).grants[0], Objects(p), Groups(p))
      <==> id in (if scope == ObjectScope then Objects(p) else Groups(p));
  }

  /** All readers agree on two places if and only if the places name the same objects and the
      same groups. */
  lemma AgreeOnPlaces(p: Place, q: Place)
    ensures (forall who :: HintVisible(who, Player, p) <==> HintVisible(who, Player, q)) <==> SameEnds(p, q)
  {
    hide GrantCovers, AnyGrantCovers, Objects, Groups;
    if SameEnds(p, q) {
      forall who ensures HintVisible(who, Player, p) <==> HintVisible(who, Player, q) {
        SameEndsSameReaders(who.grants, p, q);
        SameEndsSameReaders(who.grants, q, p);
        VisibleMeans(who, p);
        VisibleMeans(who, q);
      }
    } else {
      var scope, id := Difference(p, q);
      SoleSees(scope, id, p);
      SoleSees(scope, id, q);
      assert HintVisible(Sole(scope, id), Player, p) != HintVisible(Sole(scope, id), Player, q);
    }
  }

  lemma VisibleMeans(who: Subject, p: Place)
    ensures HintVisible(who, Player, p) <==> who.role == Admin || AnyGrantCovers(who.grants, Objects(p), Groups(p))
  {
  }

  /** An id the two places do not share. */
  lemma Difference(p: Place, q: Place) returns (scope: Scope, id: int)
    requires !SameEnds(p, q)
    ensures if scope == ObjectScope then (id in Objects(p)) != (id in Objects(q))
            else (id in Groups(p)) != (id in Groups(q))
  {
    if !SameIds(Objects(p), Objects(q)) {
      scope := ObjectScope;
      id := DifferentId(Objects(p), Objects(q));
    } else {
      scope := GroupScope;
      id := DifferentId(Groups(p), Groups(q));
    }
  }

  lemma DifferentId(a: seq<int>, b: seq<int>) returns (id: int)
    requires !SameIds(a, b)
    ensures (id in a) != (id in b)
  {
    if i :| 0 <= i < |a| && a[i] !in b {
      id := a[i];
    } else {
      var i :| 0 <= i < |b| && b[i] !in a;
      id := b[i];
    }
  }

  /** Whatever the place published and the place stored: readers agree for every event that is
      not about players, and otherwise exactly when both name the same objects and groups. */
  lemma AgreeIff(e: Event, hint: Place, row: Place)
    ensures Agree(e, Some(hint), row) <==> e.category != Player || SameEnds(hint, row)
  {
    hide HintVisible, ListShows, SameEnds, WriteColumns;
    var stored := e.(place := row);
    forall who
      ensures ListShows(who, EVERYTHING, WriteColumns(stored)) <==> HintVisible(who, e.category, row)
    {
      StreamAgreesWithList(who, stored);
    }
    if e.category == Player {
      AgreeOnPlaces(hint, row);
    } else {
      forall who ensures HintVisible(who, e.category, hint) <==> HintVisible(who, e.category, row) {
        OthersHear(who, e.category, hint, row);
      }
    }
  }

  lemma OthersHear(who: Subject, category: Category, p: Place, q: Place)
    requires category != Player
    ensures HintVisible(who, category, p) <==> HintVisible(who, category, q)
  {
  }

  /** Without a hint they never agree: an administrator can read everything. */
  lemma NoHintNoAgreement(e: Event, row: Place)
    ensures !Agree(e, None, row)
  {
    var admin := Subject(Admin, []);
    assert EVERYTHING.fromTs.None?;
    assert ListShows(admin, EVERYTHING, WriteColumns(e.(place := row)));
    assert !Hears(admin, e.category, None);
  }

  // ---- who names the place -----------------------------------------------------------------

  /** Where things are: the group of each player that has one, the object of each group, and
      how the text of a target's id is read as a number. */
  datatype Directory = Directory(players: map<string, int>, groups: map<int, int>, number: string -> Option<int>)

  /** auditScopeOf: where an event's target is now. */
  function ScopeOf(dir: Directory, e: Event): Option<Place> {
    if e.targetType == "player" then PlayerPlace(dir, e.targetId)
    else if e.targetType == "player_group" && e.targetId != "" then
      var g := dir.number(e.targetId);
      if g.Some? then GroupPlace(dir, g.value) else None
    else if e.targetType == "player_object" && e.targetId != "" then
      var o := dir.number(e.targetId);
      if o.Some? then Some(Place(o, None, None, None)) else None
    else None
  }

  function GroupPlace(dir: Directory, g: int): Option<Place> {
    if g in dir.groups then Some(Place(Some(dir.groups[g]), Some(g), None, None)) else None
  }

  function PlayerPlace(dir: Directory, id: string): Option<Place> {
    if id in dir.players then GroupPlace(dir, dir.players[id]) else None
  }

  /** The handlers that place their own row, because the target will be gone or elsewhere: the
      deletion of a group or a player, and a move, which also names where the player was. */
  datatype Handler = DeletesGroup(group: int) | DeletesPlayer(player: string) | Moves(player: string, to: int) | Other

  /** What the handler passes to setAuditScopeOverride, asked of the directory as it was before
      its change. */
  function Override(before: Directory, h: Handler): Option<Place> {
    match h
    case DeletesGroup(g) => GroupPlace(before, g)
    case DeletesPlayer(p) => PlayerPlace(before, p)
    case Moves(p, to) =>
      if to !in before.groups then None
      else
        var g := if p in before.players then Some(before.players[p]) else None;
        var o := if g.Some? && g.value in before.groups then Some(before.groups[g.value]) else None;
        Some(Place(Some(before.groups[to]), Some(to), o, g))
    case Other => None
  }

  /** Who writes the event: a request, whose post-handler publishes the place it found; the
      device port, which publishes a hint without one; or the command service or the certificate
      watch, which publish none. */
  datatype Producer = Request(handler: Handler, before: Directory) | Device | Unannounced

  /** The place of the hint, asked of the directory as it is once the handler is done. */
  function HintOf(p: Producer, now: Directory, e: Event): Option<Place> {
    match p
    case Request(handler, before) =>
      var named := Override(before, handler);
      var found := ScopeOf(now, e);
      Some(if named.Some? then named.value else if found.Some? then found.value else NOWHERE)
    case Device => Some(NOWHERE)
    case Unannounced => None
  }

  /** An administrator, or somebody given the audit of one of these objects or groups. */
  predicate Audits(who: Subject, objects: set<int>, groups: set<int>) {
    || who.role == Admin
    || exists i | 0 <= i < |who.grants| ::
         who.grants[i].viewAudit
         && if who.grants[i].scope == ObjectScope then who.grants[i].scopeId in objects
            else who.grants[i].scopeId in groups
  }

  predicate InGroup(dir: Directory, e: Event, g: int) {
    e.targetType == "player" && e.targetId in dir.players && dir.players[e.targetId] == g
  }

  predicate About(dir: Directory, e: Event, kind: string, n: int) {
    e.targetType == kind && e.targetId != "" && dir.number(e.targetId) == Some(n)
  }

  /** The event's target is at no place: no player of a group, no group and no object that is there. */
  ghost predicate Elsewhere(dir: Directory, e: Event) {
    && (forall g :: InGroup(dir, e, g) || About(dir, e, "player_group", g) ==> g !in dir.groups)
    && (forall o :: !About(dir, e, "player_object", o))
  }

  predicate NamesPlace(hint: Option<Place>) {
    hint.Some? && (hint.value.objectId.Some? || hint.value.groupId.Some?)
  }

  lemma HintReaders(who: Subject, place: Place, objects: set<int>, groups: set<int>)
    requires forall x :: x in objects <==> place.objectId == Some(x) || place.fromObjectId == Some(x)
    requires forall x :: x in groups <==> place.groupId == Some(x) || place.fromGroupId == Some(x)
    ensures HintVisible(who, Player, place) <==> Audits(who, objects, groups)
  {
    HintMeans(who, Player, place);
  }

  lemma NoAuditors(who: Subject)
    ensures HintVisible(who, Player, NOWHERE) <==> who.role == Admin
  {
    HintReaders(who, NOWHERE, {}, {});
  }

  lemma ElsewhereHasNoPlace(dir: Directory, e: Event)
    requires Elsewhere(dir, e)
    ensures ScopeOf(dir, e) == None
  {
    if e.targetType == "player" && e.targetId in dir.players {
      assert InGroup(dir, e, dir.players[e.targetId]);
    } else if e.targetType == "player_group" && e.targetId != "" && dir.number(e.targetId).Some? {
      assert About(dir, e, "player_group", dir.number(e.targetId).value);
    } else if e.targetType == "player_object" && e.targetId != "" && dir.number(e.targetId).Some? {
      assert About(dir, e, "player_object", dir.number(e.targetId).value);
    }
  }

  /** Who hears of what a request does: about a player, those of his group and of its object; about a
      group, the same; about an object, those of the object; about anything else, administrators
      only. Of a deletion those of the group as it was before, and of a move those of where the
      player was and of where he goes. */
  lemma RequestReaders(who: Subject, before: Directory, now: Directory, e: Event, g: int, to: int)
    requires e.category == Player
    ensures (InGroup(now, e, g) || About(now, e, "player_group", g)) && g in now.groups ==>
              (Hears(who, Player, HintOf(Request(Other, before), now, e)) <==> Audits(who, {now.groups[g]}, {g}))
    ensures About(now, e, "player_object", g) ==>
              (Hears(who, Player, HintOf(Request(Other, before), now, e)) <==> Audits(who, {g}, {}))
    ensures Elsewhere(now, e) ==>
              (Hears(who, Player, HintOf(Request(Other, before), now, e)) <==> who.role == Admin)
    ensures g in before.groups ==>
              (Hears(who, Player, HintOf(Request(DeletesGroup(g), before), now, e))
               <==> Audits(who, {before.groups[g]}, {g}))
    ensures e.targetId in before.players && before.players[e.targetId] == g && g in before.groups ==>
              (Hears(who, Player, HintOf(Request(DeletesPlayer(e.targetId), before), now, e))
               <==> Audits(who, {before.groups[g]}, {g}))
    ensures e.targetId in before.players && before.players[e.targetId] == g
            && g in before.groups && to in before.groups ==>
              (Hears(who, Player, HintOf(Request(Moves(e.targetId, to), before), now, e))
               <==> Audits(who, {before.groups[g], before.groups[to]}, {g, to}))
  {
    hide Audits, HintVisible;
    if g in now.groups {
      HintReaders(who, Place(Some(now.groups[g]), Some(g), None, None), {now.groups[g]}, {g});
    }
    HintReaders(who, Place(Some(g), None, None, None), {g}, {});
    if Elsewhere(now, e) {
      ElsewhereHasNoPlace(now, e);
      NoAuditors(who);
    }
    if g in before.groups {
      HintReaders(who, Place(Some(before.groups[g]), Some(g), None, None), {before.groups[g]}, {g});
    }
    if g in before.groups && to in before.groups {
      HintReaders(who, Place(Some(before.groups[to]), Some(to), Some(before.groups[g]), Some(g)),
                  {before.groups[g], before.groups[to]}, {g, to});
    }
  }

  /** log() keeps a place that names an object or a group and otherwise asks again. */
  function RowPlace(named: Place, later: Directory, e: Event): Place {
    if named.objectId.Some? || named.groupId.Some? then named
    else
      var found := ScopeOf(later, e);
      if found.Some? then found.value else named
  }

  function StoredPlace(p: Producer, now: Directory, later: Directory, e: Event): Place {
    var hint := HintOf(p, now, e);
    RowPlace(if p.Request? && hint.Some? then hint.value else NOWHERE, later, e)
  }

  lemma SilentHintIsNowhere(p: Producer, now: Directory, e: Event)
    ensures var hint := HintOf(p, now, e); hint.Some? && !NamesPlace(hint) ==> hint.value == NOWHERE
  {
  }

  /** Who can read a row about a player, a group or an object. If the hint names no place, those
      who audit the place the target has once the row is logged, wherever it was before, and
      administrators only if it has none; if it does, those who heard of it. */
  lemma RowReaders(who: Subject, p: Producer, now: Directory, later: Directory, e: Event, g: int)
    requires e.category == Player
    ensures var hint, row := HintOf(p, now, e), StoredPlace(p, now, later, e);
            var sees := ListShows(who, EVERYTHING, WriteColumns(e.(place := row)));
            && (NamesPlace(hint) ==> (sees <==> Hears(who, Player, hint)))
            && (!NamesPlace(hint) && g in later.groups
                && (InGroup(later, e, g) || About(later, e, "player_group", g)) ==>
                  (sees <==> Audits(who, {later.groups[g]}, {g})))
            && (!NamesPlace(hint) && About(later, e, "player_object", g) ==> (sees <==> Audits(who, {g}, {})))
            && (!NamesPlace(hint) && Elsewhere(later, e) ==> (sees <==> who.role == Admin))
  {
    hide Audits, HintVisible, ListShows, Override;
    var row := StoredPlace(p, now, later, e);
    StreamAgreesWithList(who, e.(place := row));
    if g in later.groups {
      HintReaders(who, Place(Some(later.groups[g]), Some(g), None, None), {later.groups[g]}, {g});
    }
    HintReaders(who, Place(Some(g), None, None, None), {g}, {});
    if !NamesPlace(HintOf(p, now, e)) && Elsewhere(later, e) {
      ElsewhereHasNoPlace(later, e);
      SilentHintIsNowhere(p, now, e);
      NoAuditors(who);
    }
  }

  /** Whoever names a place names an object. */
  lemma PlacesNameObjects(dir: Directory, e: Event, h: Handler)
    ensures ScopeOf(dir, e).Some? ==> ScopeOf(dir, e).value.objectId.Some?
    ensures Override(dir, h).Some? ==> Override(dir, h).value.objectId.Some?
  {
  }

  /** Who hears of an event and who can read it, producer by producer, for events about
      players. A request's readers agree unless the target had no place when the hint was
      published and has one when the row is logged. The device port's readers agree exactly
      when the target has no place. The command service and the certificate watch tell nobody. */
  lemma ReadersAgree(p: Producer, now: Directory, later: Directory, e: Event)
    requires e.category == Player
    ensures Agree(e, HintOf(p, now, e), StoredPlace(p, now, later, e))
      <==> match p
           case Request(handler, before) =>
             Override(before, handler).Some? || ScopeOf(now, e).Some? || ScopeOf(later, e).None?
           case Device => ScopeOf(later, e).None?
           case Unannounced => false
  {
    hide Agree, SameEnds, ScopeOf, Override;
    var row := StoredPlace(p, now, later, e);
    PlacesNameObjects(now, e, Other);
    PlacesNameObjects(later, e, Other);
    match p
    case Unannounced => NoHintNoAgreement(e, row);
    case Device =>
      AgreeIff(e, NOWHERE, row);
      NowhereIsNowhere(row);
    case Request(handler, before) =>
      PlacesNameObjects(before, e, handler);
      var hint := HintOf(p, now, e).value;
      AgreeIff(e, hint, row);
      NowhereIsNowhere(row);
      ItsOwnEnds(row);
  }

  lemma NowhereIsNowhere(row: Place)
    ensures row.objectId.Some? ==> !SameEnds(NOWHERE, row)
    ensures SameEnds(NOWHERE, NOWHERE)
  {
    if row.objectId.Some? {
      assert Objects(row)[0] == row.objectId.value && Objects(NOWHERE) == [];
    }
  }

  lemma ItsOwnEnds(row: Place)
    ensures SameEnds(row, row)
  {
  }

  /** From the end of a request to the row nothing moves: then every request's readers agree. */
  lemma RequestsAgree(h: Handler, before: Directory, now: Directory, e: Event)
    requires e.category == Player
    ensures Agree(e, HintOf(Request(h, before), now, e), StoredPlace(Request(h, before), now, now, e))
    ensures StoredPlace(Request(h, before), now, now, e) == HintOf(Request(h, before), now, e).value
  {
    hide Agree, ScopeOf, Override;
    ReadersAgree(Request(h, before), now, now, e);
    PlacesNameObjects(now, e, h);
    PlacesNameObjects(before, e, h);
  }

  /** The device port, concretely: a player renews its certificate in a group of an object; who
      was given the audit of that object reads the row and is not told of it. */
  lemma RenewalGoesUnheard(dir: Directory, e: Event, g: int)
    requires e.category == Player && e.targetType == "player"
    requires e.targetId in dir.players && dir.players[e.targetId] == g && g in dir.groups
    ensures var who := Sole(ObjectScope, dir.groups[g]);
            && !Hears(who, Player, HintOf(Device, dir, e))
            && ListShows(who, EVERYTHING, WriteColumns(e.(place := StoredPlace(Device, dir, dir, e))))
  {
    hide ListShows, HintVisible;
    var who, o := Sole(ObjectScope, dir.groups[g]), dir.groups[g];
    var row := StoredPlace(Device, dir, dir, e);
    assert row == Place(Some(o), Some(g), None, None);
    SoleSees(ObjectScope, o, NOWHERE);
    SoleSees(ObjectScope, o, row);
    StreamAgreesWithList(who, e.(place := row));
  }
}
