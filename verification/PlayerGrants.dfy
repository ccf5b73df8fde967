/** The rights of a person on screens: the fingerprint their editor sends back, and the
    replacement that is refused when the rights have changed since. */
module PlayerGrants {
  import opened Wrappers
  import Decimal
  import Sorting

  datatype Scope = ObjectScope | GroupScope

  datatype Grant = Grant(scope: Scope, scopeId: int,
                         commandGroup: bool, commandObject: bool, move: bool, viewAudit: bool)

  // ---- the fingerprint ----------------------------------------------------------------------

  function ScopeNumber(s: Scope): int {
    if s == ObjectScope then 0 else 1
  }

  predicate KeyAtMost(a: Grant, b: Grant) {
    ScopeNumber(a.scope) < ScopeNumber(b.scope) || (a.scope == b.scope && a.scopeId <= b.scopeId)
  }

  function Order(): (Grant, Grant) -> bool {
    (a, b) => KeyAtMost(a, b)
  }

  predicate SameKey(a: Grant, b: Grant) {
    a.scope == b.scope && a.scopeId == b.scopeId
  }

  predicate DistinctKeys(gs: seq<Grant>) {
    forall i, j | 0 <= i < j < |gs| :: !SameKey(gs[i], gs[j])
  }

  function Flag(b: bool): char {
    if b then '1' else '0'
  }

  function Flags(g: Grant): string {
    [Flag(g.commandGroup), Flag(g.commandObject), Flag(g.move), Flag(g.viewAudit)]
  }

  /** "scope:id:flags;" and whatever comes after. */
  function GrantThen(g: Grant, after: string): string {
    Decimal.Text(ScopeNumber(g.scope)) + [':'] + (Decimal.Text(g.scopeId) + [':'] + (Flags(g) + [';'] + after))
  }

  function TextOf(gs: seq<Grant>): string {
    if gs == [] then [] else GrantThen(gs[0], TextOf(gs[1..]))
  }

  /** The canonical text behind the fingerprint. */
  function Canonical(gs: seq<Grant>): string {
    TextOf(Sorting.Sort(Order(), gs))
  }

  lemma FlagsSay(g: Grant, h: Grant, r: string, q: string)
    requires Flags(g) + [';'] + r == Flags(h) + [';'] + q
    ensures g.commandGroup == h.commandGroup && g.commandObject == h.commandObject
    ensures g.move == h.move && g.viewAudit == h.viewAudit && r == q
  {
    var s, t := Flags(g) + [';'] + r, Flags(h) + [';'] + q;
    assert s[0] == Flag(g.commandGroup) && t[0] == Flag(h.commandGroup);
    assert s[1] == Flag(g.commandObject) && t[1] == Flag(h.commandObject);
    assert s[2] == Flag(g.move) && t[2] == Flag(h.move);
    assert s[3] == Flag(g.viewAudit) && t[3] == Flag(h.viewAudit);
    assert s[5..] == r && t[5..] == q;
  }

  /** A grant's text is read in one way, whatever follows it. */
  lemma GrantSays(g: Grant, h: Grant, r: string, q: string)
    requires GrantThen(g, r) == GrantThen(h, q)
    ensures g == h && r == q
  {
    hide Decimal.Text, Flags;
    var g1, h1 := Decimal.Text(g.scopeId) + [':'] + (Flags(g) + [';'] + r),
                  Decimal.Text(h.scopeId) + [':'] + (Flags(h) + [';'] + q);
    Decimal.SelfDelimiting(ScopeNumber(g.scope), ScopeNumber(h.scope), ':', ':', g1, h1);
    Decimal.SelfDelimiting(g.scopeId, h.scopeId, ':', ':', Flags(g) + [';'] + r, Flags(h) + [';'] + q);
    FlagsSay(g, h, r, q);
  }

  lemma {:induction false} TextSays(a: seq<Grant>, b: seq<Grant>)
    requires TextOf(a) == TextOf(b)
    ensures a == b
  {
    hide GrantThen;
    if a == [] || b == [] {
      GrantHasText(a, b);
    } else {
      GrantSays(a[0], b[0], TextOf(a[1..]), TextOf(b[1..]));
      TextSays(a[1..], b[1..]);
      assert a == [a[0]] + a[1..] && b == [b[0]] + b[1..];
    }
  }

  lemma GrantHasText(a: seq<Grant>, b: seq<Grant>)
    requires TextOf(a) == TextOf(b) && (a == [] || b == [])
    ensures a == b
  {
  }

  lemma OrderTotal(gs: seq<Grant>)
    requires DistinctKeys(gs)
    ensures Sorting.TotalOn(Order(), multiset(gs))
  {
    forall x, y | x in multiset(gs) && y in multiset(gs) && SameKey(x, y) ensures x == y {
      var i :| 0 <= i < |gs| && gs[i] == x;
      var j :| 0 <= j < |gs| && gs[j] == y;
    }
  }

  /** The canonical text is the same exactly for the same rights, in whatever order they are
      listed. */
  lemma CanonicalIffPermuted(a: seq<Grant>, b: seq<Grant>)
    requires DistinctKeys(a) && DistinctKeys(b)
    ensures Canonical(a) == Canonical(b) <==> multiset(a) == multiset(b)
  {
    hide Sorting.Sort, Sorting.TotalOn, TextOf;
    if Canonical(a) == Canonical(b) {
      TextSays(Sorting.Sort(Order(), a), Sorting.Sort(Order(), b));
    }
    if multiset(a) == multiset(b) {
      OrderTotal(a);
      Sorting.SortCanonical(Order(), a, b);
    }
  }

  /** A grant in the canonical text: 0 for an object and 1 for a group, its id, and 1 or 0 for each
      of the four rights. */
  lemma GrantTextMeans(g: Grant, after: string)
    ensures GrantThen(g, after)
         == (if g.scope == ObjectScope then "0" else "1") + ":" + Decimal.Text(g.scopeId) + ":"
            + ((if g.commandGroup then "1" else "0") + (if g.commandObject then "1" else "0")
               + (if g.move then "1" else "0") + (if g.viewAudit then "1" else "0")) + ";" + after
  {
    hide Decimal.Text, Flags, ScopeNumber;
    ScopeText(g.scope);
    FlagsText(g);
    TextAssociates(Decimal.Text(ScopeNumber(g.scope)), Decimal.Text(g.scopeId), Flags(g), after);
  }

  lemma ScopeText(s: Scope)
    ensures Decimal.Text(ScopeNumber(s)) == if s == ObjectScope then "0" else "1"
  {
    Decimal.TextMeans(ScopeNumber(s));
  }

  lemma FlagsText(g: Grant)
    ensures Flags(g) == (if g.commandGroup then "1" else "0") + (if g.commandObject then "1" else "0")
                        + (if g.move then "1" else "0") + (if g.viewAudit then "1" else "0")
  {
  }

  lemma TextAssociates(scope: string, id: string, flags: string, after: string)
    ensures scope + [':'] + (id + [':'] + (flags + [';'] + after)) == scope + ":" + id + ":" + flags + ";" + after
  {
  }

  /** The rights in it: all of the list, those on objects first and then those on groups, by id. */
  lemma CanonicalMeans(gs: seq<Grant>) returns (sorted: seq<Grant>)
    requires DistinctKeys(gs)
    ensures Canonical(gs) == TextOf(sorted) && multiset(sorted) == multiset(gs)
    ensures forall i, j | 0 <= i < j < |sorted| ::
              || (sorted[i].scope == ObjectScope && sorted[j].scope == GroupScope)
              || (sorted[i].scope == sorted[j].scope && sorted[i].scopeId <= sorted[j].scopeId)
  {
    hide Sorting.Sort, TextOf;
    OrderTotal(gs);
    Sorting.SortSorted(Order(), gs);
    sorted := Sorting.Sort(Order(), gs);
  }

  // ---- what may be stored -------------------------------------------------------------------

  /** What a flag of an entry is in the request. */
  datatype FlagValue = Absent | NullFlag | Truth(value: bool) | NoBool

  /** One entry of the request: its scope, if the entry is an object and has one that is a
      string; its id, if it has one that is an integer; and its flags. */
  datatype Item = Item(scope: Option<string>, id: Option<int>, commandGroup: FlagValue, commandObject: FlagValue,
                       move: FlagValue, viewAudit: FlagValue)

  datatype Refusal =
    | InvalidScope | InvalidId | InvalidFlag | UnknownScope | FlagNotAllowedForRole | DuplicateGrant

  datatype Answer = TooManyGrants | BadGrant(index: nat, why: Refusal) | Accepted(grants: seq<Grant>)

  const MAX_GRANTS := 500

  predicate IsOn(v: FlagValue) {
    v.Truth? && v.value
  }

  predicate NamesScope(item: Item) {
    item.scope == Some("object") || item.scope == Some("group")
  }

  /** What an entry asks for; it means something once scope, id and flags have passed. */
  function GrantOf(item: Item): Grant {
    Grant(if item.scope == Some("object") then ObjectScope else GroupScope,
          if item.id.Some? then item.id.value else 0,
          IsOn(item.commandGroup), IsOn(item.commandObject), IsOn(item.move), IsOn(item.viewAudit))
  }

  predicate FlagsTyped(item: Item) {
    !item.commandGroup.NoBool? && !item.commandObject.NoBool? && !item.move.NoBool? && !item.viewAudit.NoBool?
  }

  /** What is wrong with entry i, the first thing first; `known` are the places that exist. */
  function Fault(items: seq<Item>, known: (Scope, int) -> bool, viewer: bool, i: nat): Option<Refusal>
    requires i < |items|
  {
    var item := items[i];
    var g := GrantOf(item);
    if !NamesScope(item) then Some(InvalidScope)
    else if item.id.None? then Some(InvalidId)
    else if !FlagsTyped(item) then Some(InvalidFlag)
    else if !known(g.scope, g.scopeId) then Some(UnknownScope)
    else if g.scope == GroupScope && g.commandObject then Some(InvalidFlag)
    else if viewer && (g.commandGroup || g.commandObject || g.move) then Some(FlagNotAllowedForRole)
    else if exists j | 0 <= j < i :: SameKey(GrantOf(items[j]), g) then Some(DuplicateGrant)
    else None
  }

  function Granted(items: seq<Item>): (gs: seq<Grant>)
    ensures |gs| == |items|
  {
    seq(|items|, i requires 0 <= i < |items| => GrantOf(items[i]))
  }

  /** What an accepted list is: places that exist, each once; nothing a group cannot have;
      and for a viewer nothing but the audit. */
  ghost predicate Admissible(gs: seq<Grant>, known: (Scope, int) -> bool, viewer: bool) {
    && DistinctKeys(gs)
    && (forall g | g in gs ::
          && known(g.scope, g.scopeId)
          && !(g.scope == GroupScope && g.commandObject)
          && !(viewer && (g.commandGroup || g.commandObject || g.move)))
  }

  predicate OnObjectOrGroup(item: Item) {
    item.scope == Some("object") || item.scope == Some("group")
  }

  predicate Known(item: Item, known: (Scope, int) -> bool)
    requires item.id.Some?
  {
    if item.scope == Some("object") then known(ObjectScope, item.id.value) else known(GroupScope, item.id.value)
  }

  /** What each refusal of an entry means. They come in this order: its scope is neither "object"
      nor "group"; its id is no integer; a flag is no boolean; its place is not there; a group
      has no right to command an object; a viewer commands and moves nothing; an entry before
      it, all of those being in order, is about the same place. */
  lemma FaultMeans(items: seq<Item>, known: (Scope, int) -> bool, viewer: bool, i: nat)
    requires i < |items| && (forall j: nat | j < i :: Fault(items, known, viewer, j) == None)
    ensures var item := items[i];
            var r := Fault(items, known, viewer, i);
            var sound := OnObjectOrGroup(item) && item.id.Some?;
            var typed := item.commandGroup != NoBool && item.commandObject != NoBool && item.move != NoBool
                         && item.viewAudit != NoBool;
            var commandsObject := item.scope == Some("group") && item.commandObject == Truth(true);
            var barred := viewer && (item.commandGroup == Truth(true) || item.commandObject == Truth(true)
                                     || item.move == Truth(true));
            && (r == Some(InvalidScope) <==> !OnObjectOrGroup(item))
            && (r == Some(InvalidId) <==> OnObjectOrGroup(item) && item.id.None?)
            && (r == Some(InvalidFlag) <==> sound && (!typed || (Known(item, known) && commandsObject)))
            && (r == Some(UnknownScope) <==> sound && typed && !Known(item, known))
            && (r == Some(FlagNotAllowedForRole) <==>
                  sound && typed && Known(item, known) && !commandsObject && barred)
            && (r == Some(DuplicateGrant) <==>
                  && sound && typed && Known(item, known) && !commandsObject && !barred
                  && exists j :: 0 <= j < i && items[j].scope == item.scope && items[j].id == item.id)
  {
    var item := items[i];
    forall j | 0 <= j < i ensures NamesScope(items[j]) && items[j].id.Some? {
      assert Fault(items, known, viewer, j) == None;
    }
    if NamesScope(item) && item.id.Some? {
      forall j | 0 <= j < i
        ensures SameKey(GrantOf(items[j]), GrantOf(item)) <==> items[j].scope == item.scope && items[j].id == item.id
      {
      }
    }
  }

  /** What an accepted entry grants. */
  predicate Grants(item: Item, g: Grant) {
    && item.scope == Some(if g.scope == ObjectScope then "object" else "group")
    && item.id == Some(g.scopeId)
    && (g.commandGroup <==> item.commandGroup == Truth(true))
    && (g.commandObject <==> item.commandObject == Truth(true))
    && (g.move <==> item.move == Truth(true))
    && (g.viewAudit <==> item.viewAudit == Truth(true))
  }

  lemma GrantedMeans(items: seq<Item>, known: (Scope, int) -> bool, viewer: bool)
    requires forall j: nat | j < |items| :: Fault(items, known, viewer, j) == None
    ensures forall i | 0 <= i < |items| :: Grants(items[i], Granted(items)[i])
  {
    forall i | 0 <= i < |items| ensures Grants(items[i], Granted(items)[i]) {
      assert Fault(items, known, viewer, i) == None;
    }
  }

  /** A request without a faulty entry asks for an admissible list. */
  lemma FaultlessIsAdmissible(items: seq<Item>, known: (Scope, int) -> bool, viewer: bool)
    requires forall i: nat | i < |items| :: Fault(items, known, viewer, i) == None
    ensures Admissible(Granted(items), known, viewer)
  {
    var gs := Granted(items);
    forall i, j | 0 <= i < j < |gs| ensures !SameKey(gs[i], gs[j]) {
      assert Fault(items, known, viewer, j) == None;
    }
    forall g | g in gs
      ensures known(g.scope, g.scopeId) && !(g.scope == GroupScope && g.commandObject)
              && !(viewer && (g.commandGroup || g.commandObject || g.move))
    {
      var i :| 0 <= i < |gs| && gs[i] == g;
      assert Fault(items, known, viewer, i) == None;
    }
  }

  /** The next of the four flags; false is a value that is no boolean. */
  method ReadFlag(v: FlagValue) returns (ok: bool, on: bool)
    ensures ok <==> !v.NoBool?
    ensures on == IsOn(v)
  {
    match v
    case Absent => return true, false;
    case NullFlag => return true, false;
    case Truth(value) => return true, value;
    case NoBool => return false, false;
  }

  /** Takes the entries in order and stops at the first fault. */
  method Validate(items: seq<Item>, known: (Scope, int) -> bool, viewer: bool) returns (answer: Answer)
    ensures answer.TooManyGrants? <==> |items| > 500
    ensures answer.BadGrant? ==>
      && answer.index < |items| && Fault(items, known, viewer, answer.index) == Some(answer.why)
      && (forall j: nat | j < answer.index :: Fault(items, known, viewer, j) == None)
    ensures answer.Accepted? ==>
      answer.grants == Granted(items) && (forall j: nat | j < |items| :: Fault(items, known, viewer, j) == None)
    ensures answer.Accepted? ==>
      |answer.grants| == |items| && (forall i | 0 <= i < |items| :: Grants(items[i], answer.grants[i]))
  {
    hide Fault, Grants;
    if |items| > MAX_GRANTS {
      return TooManyGrants;
    }
    var grants: seq<Grant> := [];
    var seen: set<(Scope, int)> := {};
    for i := 0 to |items|
      invariant grants == Granted(items)[..i]
      invariant Seen(seen, items, i)
      invariant forall j: nat | j < i :: Fault(items, known, viewer, j) == None
    {
      FaultSays(items, known, viewer, i, seen);
      var item := items[i];
      if item.scope.None? || (item.scope.value != "object" && item.scope.value != "group") {
        return BadGrant(i, InvalidScope);
      }
      if item.id.None? {
        return BadGrant(i, InvalidId);
      }
      var ok1, commandGroup := ReadFlag(item.commandGroup);
      var ok2, commandObject := ReadFlag(item.commandObject);
      var ok3, move := ReadFlag(item.move);
      var ok4, viewAudit := ReadFlag(item.viewAudit);
      var scope := if item.scope.value == "object" then ObjectScope else GroupScope;
      var g := Grant(scope, item.id.value, commandGroup, commandObject, move, viewAudit);
      if !ok1 || !ok2 || !ok3 || !ok4 {
        return BadGrant(i, InvalidFlag);
      }
      if !known(g.scope, g.scopeId) {
        return BadGrant(i, UnknownScope);
      }
      if g.scope == GroupScope && g.commandObject {
        return BadGrant(i, InvalidFlag);
      }
      if viewer && (g.commandGroup || g.commandObject || g.move) {
        return BadGrant(i, FlagNotAllowedForRole);
      }
      if (g.scope, g.scopeId) in seen {
        return BadGrant(i, DuplicateGrant);
      }
      SeenNext(seen, items, i);
      assert g == GrantOf(item) && Granted(items)[i] == g;
      assert Granted(items)[..i + 1] == Granted(items)[..i] + [g];
      seen := seen + {(g.scope, g.scopeId)};
      grants := grants + [g];
    }
    assert Granted(items)[..|items|] == Granted(items);
    GrantedMeans(items, known, viewer);
    return Accepted(grants);
  }

  ghost predicate Seen(seen: set<(Scope, int)>, items: seq<Item>, i: nat)
    requires i <= |items|
  {
    forall s, n :: (s, n) in seen <==>
      exists j :: 0 <= j < i && GrantOf(items[j]).scope == s && GrantOf(items[j]).scopeId == n
  }

  lemma SeenNext(seen: set<(Scope, int)>, items: seq<Item>, i: nat)
    requires i < |items| && Seen(seen, items, i)
    ensures Seen(seen + {(GrantOf(items[i]).scope, GrantOf(items[i]).scopeId)}, items, i + 1)
  {
    hide GrantOf;
  }

  /** The fault of entry i in terms of what has been seen before it. */
  lemma FaultSays(items: seq<Item>, known: (Scope, int) -> bool, viewer: bool, i: nat, seen: set<(Scope, int)>)
    requires i < |items| && Seen(seen, items, i)
    ensures var item := items[i];
            var g := GrantOf(item);
            Fault(items, known, viewer, i)
            == if !NamesScope(item) then Some(InvalidScope)
               else if item.id.None? then Some(InvalidId)
               else if !FlagsTyped(item) then Some(InvalidFlag)
               else if !known(g.scope, g.scopeId) then Some(UnknownScope)
               else if g.scope == GroupScope && g.commandObject then Some(InvalidFlag)
               else if viewer && (g.commandGroup || g.commandObject || g.move) then Some(FlagNotAllowedForRole)
               else if (g.scope, g.scopeId) in seen then Some(DuplicateGrant)
               else None
  {
    hide GrantOf;
    var g := GrantOf(items[i]);
    if exists j | 0 <= j < i :: SameKey(GrantOf(items[j]), g) {
      var j :| 0 <= j < i && SameKey(GrantOf(items[j]), g);
      assert (g.scope, g.scopeId) in seen;
    }
  }

  // ---- reading and replacing -------------------------------------------------------------------

  /** The fingerprint: some hash of the canonical text. */
  function Revision(hash: string -> string, gs: seq<Grant>): string {
    hash(Canonical(gs))
  }

  /** Two different canonical texts with one fingerprint. */
  predicate Collision(hash: string -> string, a: seq<Grant>, b: seq<Grant>) {
    Canonical(a) != Canonical(b) && hash(Canonical(a)) == hash(Canonical(b))
  }

  /** What happens to one person's rights. An editor reads them; the PUT compares under the lock
      and then stores under it; the removal of an object or a group drops the rights on it, and
      the erasure of the person drops all, both without that lock. `listed` is what the SELECT
      gave, which is short of the stored rights when it fails; `works` and `stores` are whether
      the writes do. */
  datatype Action =
    | Read(editor: nat, listed: seq<Grant>)
    | Compare(editor: nat, grants: seq<Grant>, checked: bool, listed: seq<Grant>)
    | Store(stores: bool)
    | Drop(scope: Scope, scopeId: int, works: bool)
    | Erase

  /** A replacement between its comparison and its store: what its author read last, the list it
      was compared with, the rights that list was short of, and those dropped since. */
  datatype Pending = Pending(grants: seq<Grant>, checked: bool, basis: seq<Grant>, listed: seq<Grant>,
                             missed: multiset<Grant>, taken: multiset<Grant>)

  /** The stored rights, whether the person is gone, what each editor read last, and who holds
      the lock. */
  datatype State = State(stored: seq<Grant>, gone: bool, read: map<nat, seq<Grant>>, holder: Option<Pending>)

  predicate OnScope(g: Grant, scope: Scope, scopeId: int) {
    g.scope == scope && g.scopeId == scopeId
  }

  function Without(gs: seq<Grant>, scope: Scope, scopeId: int): seq<Grant> {
    if gs == [] then []
    else
      var n := |gs| - 1;
      Without(gs[..n], scope, scopeId) + if OnScope(gs[n], scope, scopeId) then [] else [gs[n]]
  }

  predicate Possible(s: State, a: Action) {
    match a
    case Read(_, listed) => multiset(listed) <= multiset(s.stored)
    case Compare(editor, grants, checked, listed) =>
      s.holder.None? && DistinctKeys(grants) && (checked ==> editor in s.read) && multiset(listed) <= multiset(s.stored)
    case Store(_) => s.holder.Some?
    case Drop(_, _, _) => true
    case Erase => true
  }

  /** The fingerprint the request carries, if any, against the list as it came. */
  predicate Passes(hash: string -> string, revision: Option<string>, listed: seq<Grant>) {
    revision.Some? ==> revision.value == Revision(hash, listed)
  }

  function Carried(hash: string -> string, s: State, a: Action): Option<string>
    requires Possible(s, a) && a.Compare?
  {
    if a.checked then Some(Revision(hash, s.read[a.editor])) else None
  }

  function Begun(s: State, a: Action): Pending
    requires Possible(s, a) && a.Compare?
  {
    Pending(a.grants, a.checked, if a.checked then s.read[a.editor] else [], a.listed,
            multiset(s.stored) - multiset(a.listed), multiset{})
  }

  predicate Accepts(s: State, a: Action) {
    a.Store? && s.holder.Some? && a.stores && !s.gone
  }

  /** The stored rights shrink; a replacement under way notes what went. */
  function Shrunk(s: State, left: seq<Grant>): State {
    var went := multiset(s.stored) - multiset(left);
    s.(stored := left,
       holder := if s.holder.Some? then Some(s.holder.value.(taken := s.holder.value.taken + went)) else None)
  }

  function Step(hash: string -> string, s: State, a: Action): State
    requires Possible(s, a)
  {
    match a
    case Read(editor, listed) => s.(read := s.read[editor := listed])
    case Compare(_, _, _, listed) =>
      if Passes(hash, Carried(hash, s, a), listed) then s.(holder := Some(Begun(s, a))) else s
    case Store(_) =>
      var kept := s.(holder := None);
      if Accepts(s, a) then kept.(stored := s.holder.value.grants) else kept
    case Drop(scope, scopeId, works) => if works then Shrunk(s, Without(s.stored, scope, scopeId)) else s
    case Erase => Shrunk(s, []).(gone := true)
  }

  /** A run of any number of editors; what is not possible does not happen. */
  function Run(hash: string -> string, start: seq<Grant>, actions: seq<Action>): State {
    if actions == [] then State(start, false, map[], None)
    else
      var s := Run(hash, start, actions[..|actions| - 1]);
      if Possible(s, actions[|actions| - 1]) then Step(hash, s, actions[|actions| - 1]) else s
  }

  /** No list holds a place twice; and of a replacement under way, the list it was compared with
      and what that was short of are what is stored and what has been dropped since. */
  ghost predicate Tidy(hash: string -> string, s: State) {
    && DistinctKeys(s.stored) && (forall e | e in s.read :: DistinctKeys(s.read[e]))
    && (s.holder.Some? ==> PendingTidy(hash, s.holder.value, s.stored))
  }

  ghost predicate PendingTidy(hash: string -> string, p: Pending, stored: seq<Grant>) {
    && DistinctKeys(p.basis) && DistinctKeys(p.listed) && DistinctKeys(p.grants)
    && (p.checked ==> Revision(hash, p.basis) == Revision(hash, p.listed))
    && multiset(p.listed) + p.missed == multiset(stored) + p.taken
  }

  /** A part of a list without repeated places has none either. */
  lemma PartTidy(a: seq<Grant>, b: seq<Grant>)
    requires multiset(b) <= multiset(a) && DistinctKeys(a)
    ensures DistinctKeys(b)
  {
    assert Sorting.Distinct(a) by {
      forall i, j | 0 <= i < j < |a| ensures a[i] != a[j] {
        assert !SameKey(a[i], a[j]);
      }
    }
    forall i, j | 0 <= i < j < |b| ensures !SameKey(b[i], b[j]) {
      assert b[i] in multiset(b) && b[j] in multiset(b);
      assert b[i] in multiset(a) && b[j] in multiset(a);
      var k :| 0 <= k < |a| && a[k] == b[i];
      var m :| 0 <= m < |a| && a[m] == b[j];
      if k == m {
        Sorting.TwiceAtLeast(b, i, j);
        Sorting.OnceAtMost(a, b[i]);
      }
    }
  }

  lemma {:induction false} WithoutIsPart(gs: seq<Grant>, scope: Scope, scopeId: int)
    ensures multiset(Without(gs, scope, scopeId)) <= multiset(gs)
  {
    if gs != [] {
      var n := |gs| - 1;
      WithoutIsPart(gs[..n], scope, scopeId);
      assert gs == gs[..n] + [gs[n]];
    }
  }

  /** Of the rights those on that place go, all others stay as often as they were. */
  lemma {:induction false} WithoutMeans(gs: seq<Grant>, scope: Scope, scopeId: int, g: Grant)
    ensures multiset(Without(gs, scope, scopeId))[g]
         == if g.scope == scope && g.scopeId == scopeId then 0 else multiset(gs)[g]
  {
    if gs != [] {
      var n := |gs| - 1;
      WithoutMeans(gs[..n], scope, scopeId, g);
      assert gs == gs[..n] + [gs[n]];
    }
  }

  lemma ShrunkTidy(hash: string -> string, s: State, left: seq<Grant>)
    requires Tidy(hash, s) && multiset(left) <= multiset(s.stored)
    ensures Tidy(hash, Shrunk(s, left))
  {
    hide DistinctKeys, Revision;
    PartTidy(s.stored, left);
    if s.holder.Some? {
      var p, went := s.holder.value, multiset(s.stored) - multiset(left);
      assert multiset(left) + (p.taken + went) == multiset(s.stored) + p.taken;
    }
  }

  lemma BegunTidy(hash: string -> string, s: State, a: Action)
    requires Tidy(hash, s) && Possible(s, a) && a.Compare? && Passes(hash, Carried(hash, s, a), a.listed)
    ensures PendingTidy(hash, Begun(s, a), s.stored)
  {
    hide Revision;
    PartTidy(s.stored, a.listed);
    assert multiset(a.listed) + (multiset(s.stored) - multiset(a.listed)) == multiset(s.stored) + multiset{};
  }

  lemma StepTidy(hash: string -> string, s: State, a: Action)
    requires Tidy(hash, s) && Possible(s, a)
    ensures Tidy(hash, Step(hash, s, a))
  {
    hide DistinctKeys, Revision, Passes, Carried, PendingTidy, Begun, Shrunk;
    match a
    case Read(_, listed) => PartTidy(s.stored, listed);
    case Compare(_, _, _, listed) =>
      if Passes(hash, Carried(hash, s, a), listed) {
        BegunTidy(hash, s, a);
      }
    case Store(_) => HeldIsTidy(hash, s);
    case Drop(scope, scopeId, works) =>
      WithoutIsPart(s.stored, scope, scopeId);
      if works {
        ShrunkTidy(hash, s, Without(s.stored, scope, scopeId));
      }
    case Erase =>
      ShrunkTidy(hash, s, []);
  }

  lemma HeldIsTidy(hash: string -> string, s: State)
    requires Tidy(hash, s) && s.holder.Some?
    ensures DistinctKeys(s.holder.value.grants)
  {
  }

  lemma {:induction false} RunTidy(hash: string -> string, start: seq<Grant>, actions: seq<Action>)
    requires DistinctKeys(start)
    ensures Tidy(hash, Run(hash, start, actions))
  {
    hide Tidy, Step, Possible;
    if actions == [] {
      StartTidy(hash, start);
    } else {
      var n := |actions| - 1;
      RunTidy(hash, start, actions[..n]);
      var s := Run(hash, start, actions[..n]);
      if Possible(s, actions[n]) {
        StepTidy(hash, s, actions[n]);
      }
    }
  }

  lemma StartTidy(hash: string -> string, start: seq<Grant>)
    requires DistinctKeys(start)
    ensures Tidy(hash, State(start, false, map[], None))
  {
  }

  /** When an update is lost: in any interleaving of editors, drops and failing reads, a
      replacement that carries a fingerprint and comes to be stored replaces exactly the rights
      its author read last if and only if what was dropped between its comparison and its store
      is what its comparison failed to read, so that with a complete listing it is that nothing
      was dropped; or the fingerprints of two different lists collide. */
  lemma NoLostUpdate(hash: string -> string, start: seq<Grant>, actions: seq<Action>)
    requires DistinctKeys(start)
    requires var s := Run(hash, start, actions); s.holder.Some? && s.holder.value.checked
    ensures var s := Run(hash, start, actions);
            var p := s.holder.value;
            || Collision(hash, p.basis, p.listed)
            || (multiset(p.basis) == multiset(s.stored) <==> p.missed == p.taken)
  {
    hide Run, DistinctKeys, Canonical;
    RunTidy(hash, start, actions);
    var s := Run(hash, start, actions);
    var p := s.holder.value;
    CanonicalIffPermuted(p.basis, p.listed);
    if multiset(p.basis) == multiset(p.listed) {
      SameRest(multiset(p.listed), p.missed, multiset(s.stored), p.taken);
    }
  }

  lemma SameRest(a: multiset<Grant>, b: multiset<Grant>, c: multiset<Grant>, d: multiset<Grant>)
    requires a + b == c + d
    ensures a == c <==> b == d
  {
    assert forall x: Grant :: a[x] + b[x] == (a + b)[x] && c[x] + d[x] == (c + d)[x];
  }

  /** What a comparison decides: it lets a replacement through exactly when the list it reads is
      the one its author read, or two fingerprints collide. So it is never refused to an author
      who is up to date, as long as the list can be read. */
  lemma ComparedIsRead(hash: string -> string, start: seq<Grant>, actions: seq<Action>, put: Action)
    requires DistinctKeys(start)
    requires var s := Run(hash, start, actions); put.Compare? && Possible(s, put) && put.checked
    ensures var s := Run(hash, start, actions);
            || Collision(hash, s.read[put.editor], put.listed)
            || (Passes(hash, Carried(hash, s, put), put.listed)
                <==> multiset(s.read[put.editor]) == multiset(put.listed))
  {
    hide Run, DistinctKeys, Canonical;
    RunTidy(hash, start, actions);
    var s := Run(hash, start, actions);
    PartTidy(s.stored, put.listed);
    CanonicalIffPermuted(s.read[put.editor], put.listed);
  }

  /** The other replacements never come in between: from its comparison to its store only drops
      and an erasure change the rights. */
  lemma OnlyDropsBetween(hash: string -> string, s: State, a: Action)
    requires Possible(s, a) && s.holder.Some? && !a.Store?
    ensures var s' := Step(hash, s, a);
            && s'.holder.Some? && s'.holder.value.(taken := s.holder.value.taken) == s.holder.value
            && (!a.Drop? && !a.Erase? ==> s' == s.(read := s'.read))
  {
  }

  /** An erasure can come at any time, and from then on the person has no rights, whatever
      replacement is under way or still comes. */
  lemma {:induction false} GoneHasNothing(hash: string -> string, start: seq<Grant>, actions: seq<Action>)
    ensures Possible(Run(hash, start, actions), Erase) && Step(hash, Run(hash, start, actions), Erase).gone
    ensures Run(hash, start, actions).gone ==> Run(hash, start, actions).stored == []
  {
    hide Revision, Passes;
    if actions != [] {
      GoneHasNothing(hash, start, actions[..|actions| - 1]);
    }
  }

  /** The run in which a drop is overwritten: an author reads the rights on a group, the
      comparison passes, the group is removed, and the store puts the right on it back. */
  lemma DropIsOverwritten(hash: string -> string, g: Grant)
    ensures var actions := [Read(0, [g]), Compare(0, [g], true, [g]), Drop(g.scope, g.scopeId, true)];
            var s := Run(hash, [g], actions);
            && s.stored == [] && s.holder.Some? && s.holder.value.checked && s.holder.value.missed == multiset{}
            && Possible(s, Store(true)) && Accepts(s, Store(true)) && Step(hash, s, Store(true)).stored == [g]
  {
    hide Revision;
    var read, compare, drop := Read(0, [g]), Compare(0, [g], true, [g]), Drop(g.scope, g.scopeId, true);
    var none: seq<Action> := [];
    var s0 := State([g], false, map[], None);
    var s1 := s0.(read := map[0 := [g]]);
    var s2 := s1.(holder := Some(Pending([g], true, [g], [g], multiset{}, multiset{})));
    RunOn(hash, [g], none, read);
    assert none + [read] == [read] && Step(hash, s0, read) == s1;
    RunOn(hash, [g], [read], compare);
    assert [read] + [compare] == [read, compare] && Possible(s1, compare) && Step(hash, s1, compare) == s2;
    RunOn(hash, [g], [read, compare], drop);
    assert [read, compare] + [drop] == [read, compare, drop];
    DropsIt(g);
  }

  lemma DropsIt(g: Grant)
    ensures Without([g], g.scope, g.scopeId) == []
  {
    assert [g][..0] == [];
  }

  /** The run in which a failing read hides rights: an author is shown nothing, the comparison
      reads nothing either, and the rights somebody had are replaced unseen. */
  lemma FailedReadPasses(hash: string -> string, g: Grant)
    ensures var actions := [Read(0, []), Compare(0, [], true, [])];
            var s := Run(hash, [g], actions);
            && s.stored == [g] && s.holder.Some? && s.holder.value.checked && s.holder.value.missed == multiset{g}
            && Possible(s, Store(true)) && Accepts(s, Store(true)) && Step(hash, s, Store(true)).stored == []
  {
    hide Revision;
    var read, compare := Read(0, []), Compare(0, [], true, []);
    var none: seq<Action> := [];
    RunOn(hash, [g], none, read);
    RunOn(hash, [g], [read], compare);
  }

  lemma RunOn(hash: string -> string, start: seq<Grant>, actions: seq<Action>, a: Action)
    ensures var s := Run(hash, start, actions);
            Run(hash, start, actions + [a]) == if Possible(s, a) then Step(hash, s, a) else s
    ensures actions == [] ==> Run(hash, start, actions) == State(start, false, map[], None)
  {
    assert (actions + [a])[..|actions|] == actions;
  }

  // ---- the handlers as they run ---------------------------------------------------------------

  class Rights {
    const hash: string -> string
    var stored: seq<Grant>
    var gone: bool

    constructor (hash: string -> string, stored: seq<Grant>)
      ensures this.hash == hash && this.stored == stored && !gone
    {
      this.hash := hash;
      this.stored, gone := stored, false;
    }

    method RevisionOf(listed: seq<Grant>) returns (revision: string)
      ensures revision == Revision(hash, listed)
    {
      hide TextOf, GrantThen;
      var canon: string := [];
      var sorted := Sorting.Sort(Order(), listed);
      ghost var whole := TextOf(sorted);
      assert sorted[0..] == sorted;
      for i := 0 to |sorted|
        invariant canon + TextOf(sorted[i..]) == whole
      {
        TextStarts(sorted, i);
        var text := GrantThen(sorted[i], []);
        assert canon + (text + TextOf(sorted[i + 1..])) == canon + text + TextOf(sorted[i + 1..]);
        canon := canon + text;
      }
      NoGrantsNoText(sorted);
      assert canon + [] == canon;
      revision := hash(canon);
    }

    /** The comparison of the PUT: `listed` is the list as the database gives it, `revision` the
        fingerprint the request carries, if any. */
    method Matches(revision: Option<string>, listed: seq<Grant>) returns (ok: bool)
      ensures ok <==> Passes(hash, revision, listed)
    {
      if revision.Some? {
        var now := RevisionOf(listed);
        return revision.value == now;
      }
      return true;
    }

    /** The transaction of the store: the old rows go and the new ones come, or all is rolled
        back; a list that names a place twice is refused. `fails` is the statement that fails,
        if one does: 0 begins, 1 looks for the person, 2 deletes, 3 + i inserts row i, and the
        last commits. */
    method Replace(grants: seq<Grant>, fails: Option<nat>) returns (accepted: bool)
      modifies this`stored
      ensures accepted <==> DistinctKeys(grants) && !gone && (fails.Some? ==> fails.value > 3 + |grants|)
      ensures stored == if accepted then grants else old(stored)
    {
      if !DistinctKeys(grants) || fails == Some(0) || fails == Some(1) || gone {
        return false;
      }
      var before := stored;                       // BEGIN IMMEDIATE
      if fails == Some(2) {
        return false;
      }
      stored := [];
      for i := 0 to |grants|
        invariant stored == grants[..i]
        invariant fails.Some? ==> fails.value >= 3 + i
      {
        if fails == Some(3 + i) {
          stored := before;                       // ROLLBACK
          return false;
        }
        stored := stored + [grants[i]];
      }
      if fails == Some(3 + |grants|) {
        stored := before;                         // ROLLBACK
        return false;
      }
      return true;
    }

    /** DELETE of the rights on a removed object or group. */
    method DropScope(scope: Scope, scopeId: int, works: bool) returns (removed: nat)
      modifies this`stored
      ensures stored == if works then Without(old(stored), scope, scopeId) else old(stored)
      ensures removed == |old(stored)| - |stored|
      ensures forall g :: multiset(stored)[g] == if works && g.scope == scope && g.scopeId == scopeId then 0
                                                 else multiset(old(stored))[g]
    {
      forall g ensures multiset(Without(stored, scope, scopeId))[g]
                       == if g.scope == scope && g.scopeId == scopeId then 0 else multiset(stored)[g]
      {
        WithoutMeans(stored, scope, scopeId, g);
      }
      if !works {
        return 0;
      }
      var left: seq<Grant> := [];
      for i := 0 to |stored|
        invariant left == Without(stored[..i], scope, scopeId) && |left| <= i
      {
        assert stored[..i + 1][..i] == stored[..i];
        if !OnScope(stored[i], scope, scopeId) {
          left := left + [stored[i]];
        }
      }
      assert stored[..|stored|] == stored;
      removed := |stored| - |left|;
      stored := left;
    }
  }

  lemma TextStarts(gs: seq<Grant>, i: nat)
    requires i < |gs|
    ensures TextOf(gs[i..]) == GrantThen(gs[i], []) + TextOf(gs[i + 1..])
  {
    hide GrantThen;
    GrantThenAfter(gs[i], TextOf(gs[i + 1..]));
    assert gs[i..][1..] == gs[i + 1..];
  }

  lemma NoGrantsNoText(gs: seq<Grant>)
    ensures TextOf(gs[|gs|..]) == []
  {
  }

  lemma GrantThenAfter(g: Grant, after: string)
    ensures GrantThen(g, []) + after == GrantThen(g, after)
  {
    hide Decimal.Text, Flags;
    var a, b := Decimal.Text(ScopeNumber(g.scope)) + [':'], Decimal.Text(g.scopeId) + [':'];
    assert GrantThen(g, []) == a + (b + (Flags(g) + [';'] + []));
    assert a + (b + (Flags(g) + [';'] + [])) + after == a + (b + (Flags(g) + [';'] + after));
  }
}
