/** The filter of the audit list, the SQL it is compiled to, and the pages it is read in. */
module AuditQuery {
  import opened Wrappers
  import opened AuditTypes
  import opened Sql

  const MAX_LIST_LIMIT := 1000

  datatype Filter = Filter(
    fromTs: Option<int>, toTs: Option<int>, category: Option<Category>, action: string,
    actorUserId: Option<int>, actorUsername: string, targetType: string, targetId: string, requestId: string,
    scopeObjectId: Option<int>, scopeGroupId: Option<int>,
    restrictToPlaces: bool, allowedObjects: seq<int>, allowedGroups: seq<int>,
    limit: int, offset: int)

  // ---- what the filter means ---------------------------------------------------------------

  predicate Within(x: Option<int>, ids: seq<int>) {
    x.Some? && x.value in ids
  }

  /** Either end of a move counts. */
  predicate TouchesAny(place: Place, objects: seq<int>, groups: seq<int>) {
    || Within(place.objectId, objects) || Within(place.groupId, groups)
    || Within(place.fromObjectId, objects) || Within(place.fromGroupId, groups)
  }

  /** A text of the filter is bound as a C string: only what is before its first NUL counts. */
  predicate MatchesEvent(f: Filter, c: Columns) {
    && (f.fromTs.Some? ==> c.ts >= f.fromTs.value)
    && (f.toTs.Some? ==> c.ts < f.toTs.value)
    && (f.category.Some? ==> c.category == CategoryName(f.category.value))
    && (f.action != "" ==> c.action == CStr(f.action))
    && (f.actorUserId.Some? ==> c.actorUserId == f.actorUserId)
    && (f.actorUsername != "" ==> c.actorUsername == Some(CStr(f.actorUsername)))
    && (f.targetType != "" ==> c.targetType == Some(CStr(f.targetType)))
    && (f.targetId != "" ==> c.targetId == Some(CStr(f.targetId)))
    && (f.requestId != "" ==> c.requestId == Some(CStr(f.requestId)))
  }

  predicate MatchesPlace(f: Filter, c: Columns) {
    && (f.scopeObjectId.Some? ==> c.place.objectId == f.scopeObjectId || c.place.fromObjectId == f.scopeObjectId)
    && (f.scopeGroupId.Some? ==> c.place.groupId == f.scopeGroupId || c.place.fromGroupId == f.scopeGroupId)
    && (f.restrictToPlaces ==>
          c.category == CategoryName(Player) && TouchesAny(c.place, f.allowedObjects, f.allowedGroups))
  }

  predicate Matches(f: Filter, c: Columns) {
    MatchesEvent(f, c) && MatchesPlace(f, c)
  }

  // ---- the compiled conditions ---------------------------------------------------------------

  /** One condition of the WHERE clause. */
  datatype Cond =
    | Simple(column: Column, op: Comparison, value: Val)
    | Either(column: Column, other: Column, value: Val)
    | Never
    | Places(objects: seq<int>, groups: seq<int>)

  function IntOrNull(x: Option<int>): Val {
    if x.Some? then IntVal(x.value) else NullVal
  }

  function TextOrNull(x: Option<string>): Val {
    if x.Some? then TextVal(x.value) else NullVal
  }

  function ColumnOf(c: Columns, column: Column): Val {
    match column
    case Ts => IntVal(c.ts)
    case CategoryText => TextVal(c.category)
    case Action => TextVal(c.action)
    case ActorUserId => IntOrNull(c.actorUserId)
    case ActorUsername => TextOrNull(c.actorUsername)
    case TargetType => TextOrNull(c.targetType)
    case TargetId => TextOrNull(c.targetId)
    case RequestId => TextOrNull(c.requestId)
    case ScopeObjectId => IntOrNull(c.place.objectId)
    case ScopeGroupId => IntOrNull(c.place.groupId)
    case ScopeFromObjectId => IntOrNull(c.place.fromObjectId)
    case ScopeFromGroupId => IntOrNull(c.place.fromGroupId)
  }

  function ReadRow(c: Columns): Column -> Val {
    column => ColumnOf(c, column)
  }

  /** The question marks of an IN list, with the closing parenthesis. */
  function Marks(n: nat): seq<Token> {
    if n == 0 then []
    else if n == 1 then [Mark, Close]
    else [Mark, Comma] + Marks(n - 1)
  }

  /** The lists of the restriction, in the order they are written. */
  datatype InList = InList(column: Column, ids: seq<int>)

  function Lists(objects: seq<int>, groups: seq<int>): seq<InList> {
    [InList(ScopeObjectId, objects), InList(ScopeGroupId, groups),
     InList(ScopeFromObjectId, objects), InList(ScopeFromGroupId, groups)]
  }

  function ListText(l: InList): seq<Token> {
    [Name(l.column), In, Open] + Marks(|l.ids|)
  }

  /** The lists that are not empty, joined with OR. */
  function ListsText(ls: seq<InList>): seq<Token> {
    if ls == [] then []
    else
      var more := ListsText(ls[1..]);
      if ls[0].ids == [] then more
      else if more == [] then ListText(ls[0])
      else ListText(ls[0]) + [Or] + more
  }

  function IntVals(ids: seq<int>): seq<Val> {
    seq(|ids|, i requires 0 <= i < |ids| => IntVal(ids[i]))
  }

  function ListsArgs(ls: seq<InList>): seq<Val> {
    if ls == [] then [] else IntVals(ls[0].ids) + ListsArgs(ls[1..])
  }

  const PLAYER_TEXT := Literal(TextVal("player"))

  function Text(c: Cond): seq<Token> {
    match c
    case Simple(column, op, _) => [Name(column), Compare(op), Mark]
    case Either(column, other, _) =>
      [Open, Name(column), Compare(Eq), Mark, Or, Name(other), Compare(Eq), Mark, Close]
    case Never => [Literal(IntVal(0)), Compare(Eq), Literal(IntVal(1))]
    case Places(objects, groups) =>
      [Open, Name(CategoryText), Compare(Eq), PLAYER_TEXT, And, Open]
      + ListsText(Lists(objects, groups)) + [Close, Close]
  }

  function Args(c: Cond): seq<Val> {
    match c
    case Simple(_, _, value) => [value]
    case Either(_, _, value) => [value, value]
    case Never => []
    case Places(objects, groups) => ListsArgs(Lists(objects, groups))
  }

  function IntCond(column: Column, op: Comparison, x: Option<int>): seq<Cond> {
    if x.Some? then [Simple(column, op, IntVal(x.value))] else []
  }

  function TextCond(column: Column, x: string): seq<Cond> {
    if x != "" then [Simple(column, Eq, TextVal(CStr(x)))] else []
  }

  function EitherCond(column: Column, other: Column, x: Option<int>): seq<Cond> {
    if x.Some? then [Either(column, other, IntVal(x.value))] else []
  }

  function CategoryCond(x: Option<Category>): seq<Cond> {
    if x.Some? then [Simple(CategoryText, Eq, TextVal(CategoryName(x.value)))] else []
  }

  function PlacesCond(f: Filter): seq<Cond> {
    if !f.restrictToPlaces then []
    else if f.allowedObjects == [] && f.allowedGroups == [] then [Never]
    else [Places(f.allowedObjects, f.allowedGroups)]
  }

  function EventConds(f: Filter): seq<Cond> {
    IntCond(Ts, Ge, f.fromTs) + IntCond(Ts, Lt, f.toTs) + CategoryCond(f.category) + TextCond(Action, f.action)
    + IntCond(ActorUserId, Eq, f.actorUserId) + TextCond(ActorUsername, f.actorUsername)
    + TextCond(TargetType, f.targetType) + TextCond(TargetId, f.targetId) + TextCond(RequestId, f.requestId)
  }

  function PlaceConds(f: Filter): seq<Cond> {
    EitherCond(ScopeObjectId, ScopeFromObjectId, f.scopeObjectId)
    + EitherCond(ScopeGroupId, ScopeFromGroupId, f.scopeGroupId)
    + PlacesCond(f)
  }

  function Conds(f: Filter): seq<Cond> {
    EventConds(f) + PlaceConds(f)
  }

  function AllArgs(cs: seq<Cond>): seq<Val> {
    if cs == [] then [] else Args(cs[0]) + AllArgs(cs[1..])
  }

  /** The conditions joined with AND. */
  function Joined(cs: seq<Cond>): seq<Token> {
    if cs == [] then []
    else if |cs| == 1 then Text(cs[0])
    else Text(cs[0]) + [And] + Joined(cs[1..])
  }

  // ---- what a condition comes to --------------------------------------------------------------

  function InTruth(x: Val, ids: seq<int>, found: Truth): Truth {
    if ids == [] then found else InTruth(x, ids[1..], Or3(found, Compare3(x, Eq, IntVal(ids[0]))))
  }

  function ListsTruth(ls: seq<InList>, c: Columns): Truth {
    if ls == [] then False
    else Or3(InTruth(ColumnOf(c, ls[0].column), ls[0].ids, False), ListsTruth(ls[1..], c))
  }

  function CondTruth(cond: Cond, c: Columns): Truth {
    match cond
    case Simple(column, op, value) => Compare3(ColumnOf(c, column), op, value)
    case Either(column, other, value) =>
      Or3(Compare3(ColumnOf(c, column), Eq, value), Compare3(ColumnOf(c, other), Eq, value))
    case Never => False
    case Places(objects, groups) =>
      And3(Compare3(TextVal(c.category), Eq, TextVal("player")), ListsTruth(Lists(objects, groups), c))
  }

  function AllTruth(cs: seq<Cond>, c: Columns): Truth {
    if cs == [] then True else And3(CondTruth(cs[0], c), AllTruth(cs[1..], c))
  }

  predicate BoundTo(binds: map<int, Val>, n: int, v: Val) {
    n in binds && binds[n] == v
  }

  /** From number k on the question marks are bound to these values. */
  predicate BoundFrom(binds: map<int, Val>, k: nat, args: seq<Val>) {
    forall i | 0 <= i < |args| :: BoundTo(binds, k + i, args[i])
  }

  lemma BoundSplit(binds: map<int, Val>, k: nat, a: seq<Val>, b: seq<Val>)
    requires BoundFrom(binds, k, a + b)
    ensures BoundFrom(binds, k, a) && BoundFrom(binds, k + |a|, b)
  {
    forall i | 0 <= i < |a| ensures BoundTo(binds, k + i, a[i]) {
      assert BoundTo(binds, k + i, (a + b)[i]);
    }
    forall i | 0 <= i < |b| ensures BoundTo(binds, k + |a| + i, b[i]) {
      assert BoundTo(binds, k + (|a| + i), (a + b)[|a| + i]);
    }
  }

  lemma {:induction false} ListReads(x: Val, ids: seq<int>, rest: seq<Token>, k: nat, env: Env, found: Truth)
    requires ids != [] && BoundFrom(env.binds, k, IntVals(ids))
    ensures ReadList(x, Marks(|ids|) + rest, k, env, found)
         == Some(Reading(InTruth(x, ids, found), rest, k + |ids|))
  {
    assert IntVals(ids) == [IntVal(ids[0])] + IntVals(ids[1..]);
    BoundSplit(env.binds, k, [IntVal(ids[0])], IntVals(ids[1..]));
    assert BoundTo(env.binds, k + 0, [IntVal(ids[0])][0]);
    var now := Or3(found, Compare3(x, Eq, IntVal(ids[0])));
    var ts := Marks(|ids|) + rest;
    if |ids| == 1 {
      assert ts[2..] == rest;
      assert ids[1..] == [];
    } else {
      assert ts[2..] == Marks(|ids| - 1) + rest;
      ListReads(x, ids[1..], rest, k + 1, env, now);
    }
  }

  lemma InListReads(l: InList, rest: seq<Token>, k: nat, env: Env)
    requires l.ids != [] && BoundFrom(env.binds, k, IntVals(l.ids))
    ensures ReadPrimary(ListText(l) + rest, k, env)
         == Some(Reading(InTruth(env.row(l.column), l.ids, False), rest, k + |l.ids|))
  {
    hide ReadList;
    var ts := ListText(l) + rest;
    assert ts[3..] == Marks(|l.ids|) + rest;
    ListReads(env.row(l.column), l.ids, rest, k, env, False);
    assert ts[0] == Name(l.column) && ts[1] == In && ts[2] == Open;
  }

  lemma {:induction false} NoListsNoText(ls: seq<InList>, c: Columns)
    requires ListsText(ls) == []
    ensures ListsArgs(ls) == [] && ListsTruth(ls, c) == False
  {
    if ls != [] {
      NoListsNoText(ls[1..], c);
      assert InTruth(ColumnOf(c, ls[0].column), [], False) == False;
    }
  }

  /** Nothing that could go on the expression follows. */
  predicate Ends(rest: seq<Token>) {
    rest == [] || rest[0] == Close
  }

  lemma {:induction false} ListsRead(ls: seq<InList>, rest: seq<Token>, k: nat, binds: map<int, Val>, c: Columns)
    requires ListsText(ls) != [] && Ends(rest) && BoundFrom(binds, k, ListsArgs(ls))
    ensures ReadOr(ListsText(ls) + rest, k, Env(ReadRow(c), binds))
         == Some(Reading(ListsTruth(ls, c), rest, k + |ListsArgs(ls)|))
  {
    hide ReadPrimary, ReadAnd, ReadOr, ListText, BoundFrom, InTruth, IntVals;
    var env := Env(ReadRow(c), binds);
    var l, more := ls[0], ListsText(ls[1..]);
    var truth := InTruth(ColumnOf(c, l.column), l.ids, False);
    ValsLength(l.ids);
    BoundSplit(binds, k, IntVals(l.ids), ListsArgs(ls[1..]));
    if l.ids == [] {
      EmptyIn(ColumnOf(c, l.column));
      ListsRead(ls[1..], rest, k, binds, c);
    } else if more == [] {
      NoListsNoText(ls[1..], c);
      InListReads(l, rest, k, env);
      AndStops(ListsText(ls) + rest, k, env, Reading(truth, rest, k + |l.ids|));
      OrStops(ListsText(ls) + rest, k, env, Reading(truth, rest, k + |l.ids|));
    } else {
      var after := [Or] + (more + rest);
      InListReads(l, after, k, env);
      assert ListsText(ls) + rest == ListText(l) + after;
      var first := Reading(truth, after, k + |l.ids|);
      AndStops(ListsText(ls) + rest, k, env, first);
      ListsRead(ls[1..], rest, k + |l.ids|, binds, c);
      OrGoesOn(ListsText(ls) + rest, k, env, first, more + rest,
               Reading(ListsTruth(ls[1..], c), rest, k + |ListsArgs(ls)|));
    }
  }

  lemma ValsLength(ids: seq<int>)
    ensures |IntVals(ids)| == |ids|
  {
  }

  lemma EmptyIn(x: Val)
    ensures InTruth(x, [], False) == False
  {
  }

  lemma SimpleReads(cond: Cond, rest: seq<Token>, k: nat, binds: map<int, Val>, c: Columns)
    requires cond.Simple? || cond.Never?
    requires BoundFrom(binds, k, Args(cond))
    ensures ReadPrimary(Text(cond) + rest, k, Env(ReadRow(c), binds))
         == Some(Reading(CondTruth(cond, c), rest, k + |Args(cond)|))
  {
    hide Compare3, ColumnOf;
    var ts := Text(cond) + rest;
    assert ts[3..] == rest;
    if cond.Simple? {
      assert BoundTo(binds, k + 0, Args(cond)[0]);
    } else {
      assert Compare3(IntVal(0), Eq, IntVal(1)) == False by { NeverHolds(); }
    }
  }

  lemma NeverHolds()
    ensures Compare3(IntVal(0), Eq, IntVal(1)) == False
  {
  }

  /** The right half of an either-or condition, up to the closing parenthesis. */
  lemma SecondReads(cond: Cond, rest: seq<Token>, k: nat, binds: map<int, Val>, c: Columns)
    requires cond.Simple? && BoundFrom(binds, k, Args(cond))
    ensures ReadOr(Text(cond) + ([Close] + rest), k, Env(ReadRow(c), binds))
         == Some(Reading(CondTruth(cond, c), [Close] + rest, k + 1))
  {
    hide CondTruth, ReadPrimary, ReadAnd, ReadOr, BoundFrom;
    var env, after := Env(ReadRow(c), binds), [Close] + rest;
    SimpleReads(cond, after, k, binds, c);
    var r := Reading(CondTruth(cond, c), after, k + 1);
    AndStops(Text(cond) + after, k, env, r);
    OrStops(Text(cond) + after, k, env, r);
  }

  /** Both halves, up to the closing parenthesis. */
  lemma HalvesRead(first: Cond, second: Cond, rest: seq<Token>, k: nat, binds: map<int, Val>, c: Columns)
    requires first.Simple? && second.Simple?
    requires BoundFrom(binds, k, Args(first)) && BoundFrom(binds, k + 1, Args(second))
    ensures ReadOr(Text(first) + ([Or] + (Text(second) + ([Close] + rest))), k, Env(ReadRow(c), binds))
         == Some(Reading(Or3(CondTruth(first, c), CondTruth(second, c)), [Close] + rest, k + 2))
  {
    hide CondTruth, ReadPrimary, ReadAnd, ReadOr, BoundFrom;
    var env := Env(ReadRow(c), binds);
    var right := Text(second) + ([Close] + rest);
    var left := Text(first) + ([Or] + right);
    SecondReads(second, rest, k + 1, binds, c);
    SimpleReads(first, [Or] + right, k, binds, c);
    AndStops(left, k, env, Reading(CondTruth(first, c), [Or] + right, k + 1));
    OrGoesOn(left, k, env, Reading(CondTruth(first, c), [Or] + right, k + 1), right,
             Reading(CondTruth(second, c), [Close] + rest, k + 2));
  }

  lemma EitherReads(cond: Cond, rest: seq<Token>, k: nat, binds: map<int, Val>, c: Columns)
    requires cond.Either? && BoundFrom(binds, k, Args(cond))
    ensures ReadPrimary(Text(cond) + rest, k, Env(ReadRow(c), binds))
         == Some(Reading(CondTruth(cond, c), rest, k + |Args(cond)|))
  {
    hide Compare3, ColumnOf, ReadPrimary, ReadAnd, ReadOr, BoundFrom;
    var env := Env(ReadRow(c), binds);
    var first, second := Simple(cond.column, Eq, cond.value), Simple(cond.other, Eq, cond.value);
    assert Args(cond) == Args(first) + Args(second);
    BoundSplit(binds, k, Args(first), Args(second));
    HalvesRead(first, second, rest, k, binds, c);
    var inside := Text(first) + ([Or] + (Text(second) + ([Close] + rest)));
    EitherText(cond, first, second, rest);
    ParenReads(Text(cond) + rest, k, env, inside, CondTruth(cond, c), rest, k + 2);
  }

  lemma EitherText(cond: Cond, first: Cond, second: Cond, rest: seq<Token>)
    requires cond.Either? && first == Simple(cond.column, Eq, cond.value)
             && second == Simple(cond.other, Eq, cond.value)
    ensures Text(cond) + rest == [Open] + (Text(first) + ([Or] + (Text(second) + ([Close] + rest))))
  {
    assert Text(cond) == [Open] + Text(first) + [Or] + Text(second) + [Close];
  }

  lemma PlacesReads(cond: Cond, rest: seq<Token>, k: nat, binds: map<int, Val>, c: Columns)
    requires cond.Places? && (cond.objects != [] || cond.groups != []) && BoundFrom(binds, k, Args(cond))
    ensures ReadPrimary(Text(cond) + rest, k, Env(ReadRow(c), binds))
         == Some(Reading(CondTruth(cond, c), rest, k + |Args(cond)|))
  {
    hide Compare3, ReadPrimary, ReadAnd, ReadOr, ListsText, ListsTruth, ListsArgs;
    var env := Env(ReadRow(c), binds);
    var ls := Lists(cond.objects, cond.groups);
    var next := k + |ListsArgs(ls)|;
    var after := [Close] + rest;
    SomeListHasText(cond.objects, cond.groups);
    ListsRead(ls, [Close] + after, k, binds, c);
    var lists := ListsText(ls) + ([Close] + after);
    var inner := [Open] + lists;
    ParenReads(inner, k, env, lists, ListsTruth(ls, c), after, next);
    AndStops(inner, k, env, Reading(ListsTruth(ls, c), after, next));
    var player := Compare3(TextVal(c.category), Eq, TextVal("player"));
    var whole := [Name(CategoryText), Compare(Eq), PLAYER_TEXT] + ([And] + inner);
    PlayerReads([And] + inner, k, env, c);
    AndGoesOn(whole, k, env, Reading(player, [And] + inner, k), inner, Reading(ListsTruth(ls, c), after, next));
    var truth := And3(player, ListsTruth(ls, c));
    OrStops(whole, k, env, Reading(truth, after, next));
    assert Text(cond) + rest == [Open] + whole;
    ParenReads(Text(cond) + rest, k, env, whole, truth, rest, next);
  }

  lemma PlayerReads(rest: seq<Token>, k: nat, env: Env, c: Columns)
    requires env.row == ReadRow(c)
    ensures ReadPrimary([Name(CategoryText), Compare(Eq), PLAYER_TEXT] + rest, k, env)
         == Some(Reading(Compare3(TextVal(c.category), Eq, TextVal("player")), rest, k))
  {
    hide Compare3;
    var ts := [Name(CategoryText), Compare(Eq), PLAYER_TEXT] + rest;
    assert ts[3..] == rest;
  }

  lemma SomeListHasText(objects: seq<int>, groups: seq<int>)
    requires objects != [] || groups != []
    ensures ListsText(Lists(objects, groups)) != []
  {
    var ls := Lists(objects, groups);
    assert ls[1..][0] == ls[1] && ls[1..][1..] == ls[2..];
    if objects == [] {
      assert ListsText(ls[1..]) != [];
    }
  }

  // ---- the whole WHERE -----------------------------------------------------------------------

  predicate Sound(cond: Cond) {
    cond.Places? ==> cond.objects != [] || cond.groups != []
  }

  lemma CondReads(cond: Cond, rest: seq<Token>, k: nat, binds: map<int, Val>, c: Columns)
    requires Sound(cond) && BoundFrom(binds, k, Args(cond))
    ensures ReadPrimary(Text(cond) + rest, k, Env(ReadRow(c), binds))
         == Some(Reading(CondTruth(cond, c), rest, k + |Args(cond)|))
  {
    hide ReadPrimary, Text, CondTruth, Args;
    if cond.Either? {
      EitherReads(cond, rest, k, binds, c);
    } else if cond.Places? {
      PlacesReads(cond, rest, k, binds, c);
    } else {
      SimpleReads(cond, rest, k, binds, c);
    }
  }

  lemma {:induction false} JoinedReads(cs: seq<Cond>, k: nat, binds: map<int, Val>, c: Columns)
    requires cs != [] && AllSound(cs) && BoundFrom(binds, k, AllArgs(cs))
    ensures ReadAnd(Joined(cs), k, Env(ReadRow(c), binds)) == Some(Reading(AllTruth(cs, c), [], k + |AllArgs(cs)|))
  {
    hide ReadPrimary, ReadAnd, Text, CondTruth, Args, BoundFrom;
    var env := Env(ReadRow(c), binds);
    BoundSplit(binds, k, Args(cs[0]), AllArgs(cs[1..]));
    if |cs| == 1 {
      CondReads(cs[0], [], k, binds, c);
      assert Text(cs[0]) + [] == Text(cs[0]);
      assert cs[1..] == [];
      AndStops(Joined(cs), k, env, Reading(CondTruth(cs[0], c), [], k + |Args(cs[0])|));
    } else {
      var more := Joined(cs[1..]);
      CondReads(cs[0], [And] + more, k, binds, c);
      assert Joined(cs) == Text(cs[0]) + ([And] + more);
      JoinedReads(cs[1..], k + |Args(cs[0])|, binds, c);
      AndGoesOn(Joined(cs), k, env, Reading(CondTruth(cs[0], c), [And] + more, k + |Args(cs[0])|), more,
                Reading(AllTruth(cs[1..], c), [], k + |AllArgs(cs)|));
    }
  }

  lemma {:induction false} AllTrue(cs: seq<Cond>, c: Columns)
    ensures AllTruth(cs, c) == True <==> forall i | 0 <= i < |cs| :: CondTruth(cs[i], c) == True
  {
    hide CondTruth;
    if cs != [] {
      AllTrue(cs[1..], c);
      if AllTruth(cs, c) == True {
        forall i | 0 <= i < |cs| ensures CondTruth(cs[i], c) == True {
          assert i > 0 ==> cs[i] == cs[1..][i - 1];
        }
      }
      if forall i | 0 <= i < |cs| :: CondTruth(cs[i], c) == True {
        forall i | 0 <= i < |cs[1..]| ensures CondTruth(cs[1..][i], c) == True {
          assert cs[1..][i] == cs[i + 1];
        }
      }
    }
  }

  // ---- the WHERE means the filter -------------------------------------------------------------

  predicate AllHold(cs: seq<Cond>, c: Columns) {
    forall i | 0 <= i < |cs| :: CondTruth(cs[i], c) == True
  }

  lemma HoldTogether(a: seq<Cond>, b: seq<Cond>, c: Columns)
    ensures AllHold(a + b, c) <==> AllHold(a, c) && AllHold(b, c)
  {
    hide CondTruth;
    if AllHold(a + b, c) {
      forall i | 0 <= i < |a| ensures CondTruth(a[i], c) == True {
        assert (a + b)[i] == a[i];
      }
      forall i | 0 <= i < |b| ensures CondTruth(b[i], c) == True {
        assert (a + b)[|a| + i] == b[i];
      }
    }
  }

  lemma {:induction false} InTruthMeans(x: Option<int>, ids: seq<int>, found: Truth)
    ensures InTruth(IntOrNull(x), ids, found) == True <==> found == True || Within(x, ids)
  {
    if ids != [] {
      InTruthMeans(x, ids[1..], Or3(found, Compare3(IntOrNull(x), Eq, IntVal(ids[0]))));
      assert Within(x, ids) <==> (x.Some? && x.value == ids[0]) || Within(x, ids[1..]);
    }
  }

  lemma ListsTruthMeans(objects: seq<int>, groups: seq<int>, c: Columns)
    ensures ListsTruth(Lists(objects, groups), c) == True <==> TouchesAny(c.place, objects, groups)
  {
    hide InTruth, Within;
    InTruthMeans(c.place.objectId, objects, False);
    InTruthMeans(c.place.groupId, groups, False);
    InTruthMeans(c.place.fromObjectId, objects, False);
    InTruthMeans(c.place.fromGroupId, groups, False);
    var ls := Lists(objects, groups);
    ListsTruthCons(ls[0], [ls[1], ls[2], ls[3]], c);
    ListsTruthCons(ls[1], [ls[2], ls[3]], c);
    ListsTruthCons(ls[2], [ls[3]], c);
    ListsTruthCons(ls[3], [], c);
    hide ListsTruth;
    assert [ls[0]] + [ls[1], ls[2], ls[3]] == ls;
    assert [ls[1]] + [ls[2], ls[3]] == [ls[1], ls[2], ls[3]];
    assert [ls[2]] + [ls[3]] == [ls[2], ls[3]];
    assert [ls[3]] + [] == [ls[3]];
  }

  lemma ListsTruthCons(l: InList, more: seq<InList>, c: Columns)
    ensures ListsTruth([l] + more, c) == Or3(InTruth(ColumnOf(c, l.column), l.ids, False), ListsTruth(more, c))
    ensures ListsTruth([], c) == False
  {
    assert ([l] + more)[1..] == more;
  }

  lemma PlacesCondMeans(f: Filter, c: Columns)
    ensures AllHold(PlacesCond(f), c) <==>
      (f.restrictToPlaces ==> c.category == "player" && TouchesAny(c.place, f.allowedObjects, f.allowedGroups))
  {
    hide ListsTruth;
    ListsTruthMeans(f.allowedObjects, f.allowedGroups, c);
    if f.restrictToPlaces {
      assert AllHold(PlacesCond(f), c) <==> CondTruth(PlacesCond(f)[0], c) == True;
    }
  }

  lemma OneHolds(cond: Cond, c: Columns)
    ensures AllHold([cond], c) <==> CondTruth(cond, c) == True
  {
    hide CondTruth;
    if AllHold([cond], c) {
      assert CondTruth([cond][0], c) == True;
    }
  }

  lemma EventCondsMean(f: Filter, c: Columns)
    ensures AllHold(EventConds(f), c) <==> MatchesEvent(f, c)
  {
    hide AllHold, CategoryName, CStr;
    SimpleHolds(f, c);
    var a := IntCond(Ts, Ge, f.fromTs) + IntCond(Ts, Lt, f.toTs);
    HoldTogether(IntCond(Ts, Ge, f.fromTs), IntCond(Ts, Lt, f.toTs), c);
    var b := a + CategoryCond(f.category);
    HoldTogether(a, CategoryCond(f.category), c);
    var d := b + TextCond(Action, f.action);
    HoldTogether(b, TextCond(Action, f.action), c);
    var e := d + IntCond(ActorUserId, Eq, f.actorUserId);
    HoldTogether(d, IntCond(ActorUserId, Eq, f.actorUserId), c);
    var g := e + TextCond(ActorUsername, f.actorUsername);
    HoldTogether(e, TextCond(ActorUsername, f.actorUsername), c);
    var h := g + TextCond(TargetType, f.targetType);
    HoldTogether(g, TextCond(TargetType, f.targetType), c);
    var i := h + TextCond(TargetId, f.targetId);
    HoldTogether(h, TextCond(TargetId, f.targetId), c);
    HoldTogether(i, TextCond(RequestId, f.requestId), c);
  }

  /** Each condition on its own. */
  lemma SimpleHolds(f: Filter, c: Columns)
    ensures AllHold(IntCond(Ts, Ge, f.fromTs), c) <==> (f.fromTs.Some? ==> c.ts >= f.fromTs.value)
    ensures AllHold(IntCond(Ts, Lt, f.toTs), c) <==> (f.toTs.Some? ==> c.ts < f.toTs.value)
    ensures AllHold(CategoryCond(f.category), c) <==>
      (f.category.Some? ==> c.category == CategoryName(f.category.value))
    ensures AllHold(IntCond(ActorUserId, Eq, f.actorUserId), c) <==>
      (f.actorUserId.Some? ==> c.actorUserId == f.actorUserId)
    ensures AllHold(TextCond(Action, f.action), c) <==> (f.action != "" ==> c.action == CStr(f.action))
    ensures AllHold(TextCond(ActorUsername, f.actorUsername), c) <==>
      (f.actorUsername != "" ==> c.actorUsername == Some(CStr(f.actorUsername)))
    ensures AllHold(TextCond(TargetType, f.targetType), c) <==>
      (f.targetType != "" ==> c.targetType == Some(CStr(f.targetType)))
    ensures AllHold(TextCond(TargetId, f.targetId), c) <==> (f.targetId != "" ==> c.targetId == Some(CStr(f.targetId)))
    ensures AllHold(TextCond(RequestId, f.requestId), c) <==>
      (f.requestId != "" ==> c.requestId == Some(CStr(f.requestId)))
  {
    hide CategoryName, AllHold, TextBefore, CStr;
    NoneHold(c);
    forall column, op, value { OneHolds(Simple(column, op, value), c); }
  }

  lemma NoneHold(c: Columns)
    ensures AllHold([], c)
  {
  }

  lemma PlaceCondsMean(f: Filter, c: Columns)
    ensures AllHold(PlaceConds(f), c) <==> MatchesPlace(f, c)
  {
    hide AllHold, TouchesAny, PlacesCond;
    NoneHold(c);
    PlacesCondMeans(f, c);
    var objects, groups := EitherCond(ScopeObjectId, ScopeFromObjectId, f.scopeObjectId),
                           EitherCond(ScopeGroupId, ScopeFromGroupId, f.scopeGroupId);
    if f.scopeObjectId.Some? {
      OneHolds(objects[0], c);
    }
    if f.scopeGroupId.Some? {
      OneHolds(groups[0], c);
    }
    HoldTogether(objects, groups, c);
    HoldTogether(objects + groups, PlacesCond(f), c);
  }

  predicate AllSound(cs: seq<Cond>) {
    forall cond | cond in cs :: Sound(cond)
  }

  lemma SoundTogether(a: seq<Cond>, b: seq<Cond>)
    requires AllSound(a) && AllSound(b)
    ensures AllSound(a + b)
  {
  }

  lemma CondsSound(f: Filter)
    ensures AllSound(Conds(f))
  {
    hide AllSound;
    SimpleSound(f);
    var a := IntCond(Ts, Ge, f.fromTs) + IntCond(Ts, Lt, f.toTs);
    SoundTogether(IntCond(Ts, Ge, f.fromTs), IntCond(Ts, Lt, f.toTs));
    SoundTogether(a, CategoryCond(f.category));
    var b := a + CategoryCond(f.category);
    SoundTogether(b, TextCond(Action, f.action));
    var d := b + TextCond(Action, f.action);
    SoundTogether(d, IntCond(ActorUserId, Eq, f.actorUserId));
    var e := d + IntCond(ActorUserId, Eq, f.actorUserId);
    SoundTogether(e, TextCond(ActorUsername, f.actorUsername));
    var g := e + TextCond(ActorUsername, f.actorUsername);
    SoundTogether(g, TextCond(TargetType, f.targetType));
    var h := g + TextCond(TargetType, f.targetType);
    SoundTogether(h, TextCond(TargetId, f.targetId));
    SoundTogether(h + TextCond(TargetId, f.targetId), TextCond(RequestId, f.requestId));
    var places := EitherCond(ScopeObjectId, ScopeFromObjectId, f.scopeObjectId)
                  + EitherCond(ScopeGroupId, ScopeFromGroupId, f.scopeGroupId);
    SoundTogether(EitherCond(ScopeObjectId, ScopeFromObjectId, f.scopeObjectId),
                  EitherCond(ScopeGroupId, ScopeFromGroupId, f.scopeGroupId));
    SoundTogether(places, PlacesCond(f));
    SoundTogether(EventConds(f), PlaceConds(f));
  }

  lemma SimpleSound(f: Filter)
    ensures forall column, op, x :: AllSound(IntCond(column, op, x))
    ensures forall column, x :: AllSound(TextCond(column, x))
    ensures forall column, other, x :: AllSound(EitherCond(column, other, x))
    ensures AllSound(CategoryCond(f.category)) && AllSound(PlacesCond(f))
  {
  }

  /** The filter compiles to the same meaning: whatever the filter and the row, with the
      arguments bound in order, the compiled WHERE selects the row exactly when the filter
      matches it. */
  lemma SelectsWhatMatches(f: Filter, binds: map<int, Val>, c: Columns)
    requires BoundFrom(binds, 1, AllArgs(Conds(f)))
    ensures Selects(Joined(Conds(f)), Env(ReadRow(c), binds)) <==> Matches(f, c)
  {
    hide EventConds, PlaceConds, MatchesEvent, MatchesPlace, ReadAnd, ReadOr, AllArgs, CondTruth, Sound;
    var cs := Conds(f);
    EventCondsMean(f, c);
    PlaceCondsMean(f, c);
    HoldTogether(EventConds(f), PlaceConds(f), c);
    AllTrue(cs, c);
    if cs != [] {
      CondsSound(f);
      JoinedReads(cs, 1, binds, c);
      JoinedIsSomething(cs);
      OrStops(Joined(cs), 1, Env(ReadRow(c), binds), Reading(AllTruth(cs, c), [], 1 + |AllArgs(cs)|));
    }
  }

  /** A text asked for, of the event itself. */
  predicate AsksText(asked: string, text: string) {
    asked != "" ==> text == asked
  }

  /** The filter asked of the event itself. */
  predicate Asks(f: Filter, e: Event) {
    && (f.fromTs.Some? ==> e.ts >= f.fromTs.value)
    && (f.toTs.Some? ==> e.ts < f.toTs.value)
    && (f.category.Some? ==> e.category == f.category.value)
    && AsksText(f.action, e.action)
    && (f.actorUserId.Some? ==> e.actorUserId == f.actorUserId)
    && AsksText(f.actorUsername, e.actorUsername)
    && AsksText(f.targetType, e.targetType)
    && AsksText(f.targetId, e.targetId)
    && AsksText(f.requestId, e.requestId)
    && (f.scopeObjectId.Some? ==> e.place.objectId == f.scopeObjectId || e.place.fromObjectId == f.scopeObjectId)
    && (f.scopeGroupId.Some? ==> e.place.groupId == f.scopeGroupId || e.place.fromGroupId == f.scopeGroupId)
    && (f.restrictToPlaces ==> e.category == Player && TouchesAny(e.place, f.allowedObjects, f.allowedGroups))
  }

  /** The filter as C strings keep its texts. */
  function Shortened(f: Filter): Filter {
    f.(action := CStr(f.action), actorUsername := CStr(f.actorUsername), targetType := CStr(f.targetType),
       targetId := CStr(f.targetId), requestId := CStr(f.requestId))
  }

  /** A filter text that starts with a NUL is not empty, and nothing of it is bound. */
  predicate Blank(asked: string) {
    asked != "" && CStr(asked) == ""
  }

  /** Wherever the filter has a blank text, the event has none. */
  predicate NothingWhereBlank(f: Filter, e: Event) {
    && (Blank(f.action) ==> e.action == "") && (Blank(f.actorUsername) ==> e.actorUsername == "")
    && (Blank(f.targetType) ==> e.targetType == "") && (Blank(f.targetId) ==> e.targetId == "")
    && (Blank(f.requestId) ==> e.requestId == "")
  }

  lemma AskedText(asked: string, text: string)
    ensures (asked != "" ==> text == CStr(asked)) <==> AsksText(CStr(asked), text) && (Blank(asked) ==> text == "")
  {
    hide CStr;
    assert CStr("") == "" by { EmptyStaysEmpty(); }
  }

  /** What the stored row answers for the event: the filter matches it exactly when, with both
      cut at their NULs, the event has what was asked for, and nothing where a text of the
      filter starts with a NUL. Without NULs that is the event and the filter themselves;
      `action=x%00y` asks for the action x, and `action=%00` for none. */
  lemma StoredEventMatches(f: Filter, e: Event)
    ensures Matches(f, WriteColumns(e)) <==> Asks(Shortened(f), Cut(e)) && NothingWhereBlank(f, Cut(e))
    ensures f == Shortened(f) && NulFree(e) ==> (Matches(f, WriteColumns(e)) <==> Asks(f, e))
  {
    hide CStr, TouchesAny, CategoryName, CategoryFromString, AsksText, Blank, NulFree;
    CutKeeps(e);
    AskedText(f.action, CStr(e.action));
    AskedText(f.actorUsername, CStr(e.actorUsername));
    AskedText(f.targetType, CStr(e.targetType));
    AskedText(f.targetId, CStr(e.targetId));
    AskedText(f.requestId, CStr(e.requestId));
    if f.category.Some? {
      SameCategory(e.category, f.category.value);
    }
    SameCategory(e.category, Player);
    if f == Shortened(f) {
      NoBlanks(f, Cut(e));
    }
  }

  lemma NoBlanks(f: Filter, e: Event)
    requires f == Shortened(f)
    ensures NothingWhereBlank(f, e)
  {
    hide CStr, Blank;
    NeverBlank(f.action);
    NeverBlank(f.actorUsername);
    NeverBlank(f.targetType);
    NeverBlank(f.targetId);
    NeverBlank(f.requestId);
  }

  lemma NeverBlank(asked: string)
    requires asked == CStr(asked)
    ensures !Blank(asked)
  {
  }

  lemma EmptyStaysEmpty()
    ensures CStr("") == ""
  {
  }

  lemma SameCategory(a: Category, b: Category)
    ensures CategoryName(a) == CategoryName(b) <==> a == b
  {
    CategoryNameRead(a);
    CategoryNameRead(b);
  }

  lemma JoinedIsSomething(cs: seq<Cond>)
    requires cs != []
    ensures Joined(cs) != []
  {
  }
}
