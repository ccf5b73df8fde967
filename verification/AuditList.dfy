/** The query builder as it runs, and what list and count answer. */
module AuditList {
  import opened Wrappers
  import opened AuditTypes
  import opened Sql
  import opened AuditQuery
  import opened Numbers

  /** The parts of the statement that depend on the filter. */
  datatype Query = Query(where: seq<Token>, ints: seq<(int, int)>, texts: seq<(int, string)>, limit: int, offset: int)

  /** The builder's local state. */
  datatype Building = Building(where: seq<seq<Token>>, idx: nat, ints: seq<(int, int)>, texts: seq<(int, string)>)

  function BindInts(ints: seq<(int, int)>): map<int, Val> {
    if ints == [] then map[]
    else BindInts(ints[..|ints| - 1])[ints[|ints| - 1].0 := IntVal(ints[|ints| - 1].1)]
  }

  /** Each text is bound as a C string. */
  function BindTexts(texts: seq<(int, string)>): map<int, Val> {
    if texts == [] then map[]
    else BindTexts(texts[..|texts| - 1])[texts[|texts| - 1].0 := TextVal(CStr(texts[|texts| - 1].1))]
  }

  /** The integers are bound first, then the texts; a later binding replaces an earlier one. */
  function Bound(ints: seq<(int, int)>, texts: seq<(int, string)>): map<int, Val> {
    BindInts(ints) + BindTexts(texts)
  }

  /** The numbers from 1 on, bound to the arguments in order. */
  function Numbered(args: seq<Val>): map<int, Val> {
    if args == [] then map[] else Numbered(args[..|args| - 1])[|args| := args[|args| - 1]]
  }

  lemma {:induction false} NumberedInOrder(args: seq<Val>)
    ensures BoundFrom(Numbered(args), 1, args)
    ensures forall n | n in Numbered(args) :: 1 <= n <= |args|
  {
    if args != [] {
      var before := args[..|args| - 1];
      NumberedInOrder(before);
      forall i | 0 <= i < |args| ensures BoundTo(Numbered(args), 1 + i, args[i]) {
        assert i < |before| ==> BoundTo(Numbered(before), 1 + i, before[i]);
      }
    }
  }

  /** The k-th question mark is bound to the k-th argument, and nothing else is bound. */
  ghost predicate Numbering(b: Building, args: seq<Val>) {
    b.idx == 1 + |args| && Bound(b.ints, b.texts) == Numbered(args)
  }

  function Texts(cs: seq<Cond>): seq<seq<Token>> {
    if cs == [] then [] else Texts(cs[..|cs| - 1]) + [Text(cs[|cs| - 1])]
  }

  ghost predicate Built(b: Building, cs: seq<Cond>) {
    b.where == Texts(cs) && Numbering(b, AllArgs(cs))
  }

  lemma NumberedMore(args: seq<Val>, v: Val)
    ensures Numbered(args + [v]) == Numbered(args)[|args| + 1 := v]
  {
    assert (args + [v])[..|args|] == args;
  }

  lemma IntBound(b: Building, args: seq<Val>, x: int)
    requires Numbering(b, args)
    ensures Numbering(b.(ints := b.ints + [(b.idx, x)], idx := b.idx + 1), args + [IntVal(x)])
  {
    NumberedMore(args, IntVal(x));
    NumberedInOrder(args);
    var more := b.ints + [(b.idx, x)];
    assert more[..|more| - 1] == b.ints;
    assert BindInts(more) == BindInts(b.ints)[b.idx := IntVal(x)];
    assert b.idx !in Bound(b.ints, b.texts);
    assert b.idx !in BindTexts(b.texts);
    hide BindTexts, Numbered;
    assert Bound(more, b.texts) == Bound(b.ints, b.texts)[b.idx := IntVal(x)];
  }

  lemma TextBound(b: Building, args: seq<Val>, x: string)
    requires Numbering(b, args)
    ensures Numbering(b.(texts := b.texts + [(b.idx, x)], idx := b.idx + 1), args + [TextVal(CStr(x))])
  {
    hide CStr, BindInts, BindTexts, Numbered;
    NumberedMore(args, TextVal(CStr(x)));
    BindTextsMore(b.texts, b.idx, x);
    AddedLast(BindInts(b.ints), BindTexts(b.texts), b.idx, TextVal(CStr(x)));
  }

  lemma BindTextsMore(texts: seq<(int, string)>, i: int, x: string)
    ensures BindTexts(texts + [(i, x)]) == BindTexts(texts)[i := TextVal(CStr(x))]
  {
    assert (texts + [(i, x)])[..|texts|] == texts;
  }

  lemma AddedLast(m: map<int, Val>, n: map<int, Val>, i: int, v: Val)
    ensures m + n[i := v] == (m + n)[i := v]
  {
  }

  lemma {:induction false} AllArgsMore(cs: seq<Cond>, c: Cond)
    ensures AllArgs(cs + [c]) == AllArgs(cs) + Args(c)
  {
    hide Args;
    if cs == [] {
      assert [c][1..] == [] && AllArgs([]) == [];
      assert AllArgs([c]) == Args(c) + [];
    } else {
      assert (cs + [c])[1..] == cs[1..] + [c];
      AllArgsMore(cs[1..], c);
    }
  }

  lemma TextsMore(cs: seq<Cond>, c: Cond)
    ensures Texts(cs + [c]) == Texts(cs) + [Text(c)]
  {
    assert (cs + [c])[..|cs|] == cs;
  }

  function PushInt(b: Building, text: seq<Token>, x: int): Building {
    b.(where := b.where + [text], ints := b.ints + [(b.idx, x)], idx := b.idx + 1)
  }

  function PushText(b: Building, text: seq<Token>, x: string): Building {
    b.(where := b.where + [text], texts := b.texts + [(b.idx, x)], idx := b.idx + 1)
  }

  lemma PushedInt(b: Building, cs: seq<Cond>, column: Column, op: Comparison, x: int)
    requires Built(b, cs)
    ensures Built(PushInt(b, Text(Simple(column, op, IntVal(x))), x), cs + [Simple(column, op, IntVal(x))])
  {
    hide Numbering, Text;
    var c := Simple(column, op, IntVal(x));
    IntBound(b, AllArgs(cs), x);
    AllArgsMore(cs, c);
    TextsMore(cs, c);
    SameNumbering(b.(ints := b.ints + [(b.idx, x)], idx := b.idx + 1), b.where + [Text(c)], AllArgs(cs) + [IntVal(x)]);
  }

  lemma SameNumbering(b: Building, where: seq<seq<Token>>, args: seq<Val>)
    requires Numbering(b, args)
    ensures Numbering(b.(where := where), args)
  {
  }

  lemma PushedText(b: Building, cs: seq<Cond>, column: Column, x: string)
    requires Built(b, cs)
    ensures Built(PushText(b, Text(Simple(column, Eq, TextVal(CStr(x)))), x),
                  cs + [Simple(column, Eq, TextVal(CStr(x)))])
  {
    hide Numbering, Text, CStr;
    var c := Simple(column, Eq, TextVal(CStr(x)));
    TextBound(b, AllArgs(cs), x);
    AllArgsMore(cs, c);
    TextsMore(cs, c);
    SameNumbering(b.(texts := b.texts + [(b.idx, x)], idx := b.idx + 1),
                  b.where + [Text(c)], AllArgs(cs) + [TextVal(CStr(x))]);
  }

  function PushEither(b: Building, text: seq<Token>, x: int): Building {
    b.(where := b.where + [text], ints := b.ints + [(b.idx, x), (b.idx + 1, x)], idx := b.idx + 2)
  }

  lemma PushedEither(b: Building, cs: seq<Cond>, column: Column, other: Column, x: int)
    requires Built(b, cs)
    ensures Built(PushEither(b, Text(Either(column, other, IntVal(x))), x), cs + [Either(column, other, IntVal(x))])
  {
    hide Numbering, Text;
    var c := Either(column, other, IntVal(x));
    var args := AllArgs(cs);
    IntBound(b, args, x);
    var b1 := b.(ints := b.ints + [(b.idx, x)], idx := b.idx + 1);
    IntBound(b1, args + [IntVal(x)], x);
    var b2 := b1.(ints := b1.ints + [(b1.idx, x)], idx := b1.idx + 1);
    assert b2.ints == b.ints + [(b.idx, x), (b.idx + 1, x)];
    assert args + [IntVal(x)] + [IntVal(x)] == args + Args(c);
    AllArgsMore(cs, c);
    TextsMore(cs, c);
    SameNumbering(b2, b.where + [Text(c)], args + Args(c));
  }

  // ---- the restriction to places ---------------------------------------------------------------

  /** Question marks with commas between them. */
  function Dotted(n: nat): seq<Token> {
    if n == 0 then [] else if n == 1 then [Mark] else Dotted(n - 1) + [Comma, Mark]
  }

  lemma {:induction false} DottedCloses(n: nat)
    requires n > 0
    ensures Dotted(n) + [Close] == Marks(n)
  {
    if n > 1 {
      DottedStarts(n);
      DottedCloses(n - 1);
      assert [Mark, Comma] + Dotted(n - 1) + [Close] == [Mark, Comma] + (Dotted(n - 1) + [Close]);
    }
  }

  lemma {:induction false} DottedStarts(n: nat)
    requires n > 1
    ensures Dotted(n) == [Mark, Comma] + Dotted(n - 1)
  {
    if n > 2 {
      DottedStarts(n - 1);
      assert [Mark, Comma] + Dotted(n - 2) + [Comma, Mark] == [Mark, Comma] + (Dotted(n - 2) + [Comma, Mark]);
    } else {
      assert Dotted(2) == Dotted(1) + [Comma, Mark] == [Mark, Comma, Mark];
    }
  }

  lemma {:induction false} ListsMore(ls: seq<InList>, l: InList)
    ensures ListsArgs(ls + [l]) == ListsArgs(ls) + IntVals(l.ids)
    ensures var clause := ListsText(ls);
            ListsText(ls + [l]) == if l.ids == [] then clause
                                   else if clause == [] then ListText(l)
                                   else clause + [Or] + ListText(l)
  {
    hide IntVals, ListText;
    ListHasText(l);
    if ls == [] {
      assert ([] + [l])[1..] == [] && ListsArgs([]) == [] && ListsText([]) == [];
      assert ListsArgs([l]) == IntVals(l.ids) + [];
    } else {
      assert (ls + [l])[1..] == ls[1..] + [l];
      ListsMore(ls[1..], l);
      ListHasText(ls[0]);
      assert IntVals(ls[0].ids) + (ListsArgs(ls[1..]) + IntVals(l.ids)) == ListsArgs(ls) + IntVals(l.ids);
      var more := ListsText(ls[1..]);
      assert ListText(ls[0]) + [Or] + (more + [Or] + ListText(l)) == ListText(ls[0]) + [Or] + more + [Or] + ListText(l);
    }
  }

  lemma ListHasText(l: InList)
    ensures ListText(l) != [] && (l.ids == [] ==> IntVals(l.ids) == [])
  {
  }

  /** The local helper `list`: one IN list, its ids bound and not pasted. */
  method AppendList(b: Building, clause: seq<Token>, column: Column, ids: seq<int>, ghost args: seq<Val>,
                    ghost ls: seq<InList>)
    returns (b': Building, clause': seq<Token>)
    requires Numbering(b, args + ListsArgs(ls)) && clause == ListsText(ls)
    ensures b'.where == b.where
    ensures Numbering(b', args + ListsArgs(ls + [InList(column, ids)]))
    ensures clause' == ListsText(ls + [InList(column, ids)])
  {
    hide Numbering, IntVals, ListText;
    ListsMore(ls, InList(column, ids));
    ListHasText(InList(column, ids));
    hide ListsText, ListsArgs;
    ghost var all := args + ListsArgs(ls);
    b', clause' := b, clause;
    if ids == [] {
      assert ListsArgs(ls) + [] == ListsArgs(ls);
      return;
    }
    if clause' != [] {
      clause' := clause' + [Or];
    }
    ghost var start := clause' + [Name(column), In, Open];
    clause' := clause' + [Name(column), In, Open];
    IdsBound(all, ids, 0);
    for k := 0 to |ids|
      invariant b'.where == b.where && Numbering(b', all + IntVals(ids[..k]))
      invariant clause' == start + Dotted(k)
    {
      clause' := clause' + if k > 0 then [Comma, Mark] else [Mark];
      IntBound(b', all + IntVals(ids[..k]), ids[k]);
      IdsBound(all, ids, k);
      b' := b'.(ints := b'.ints + [(b'.idx, ids[k])], idx := b'.idx + 1);
    }
    clause' := clause' + [Close];
    DottedCloses(|ids|);
    assert start + Dotted(|ids|) + [Close] == start + (Dotted(|ids|) + [Close]);
    assert ids[..|ids|] == ids;
    ListTextSays(column, ids);
    assert args + (ListsArgs(ls) + IntVals(ids)) == all + IntVals(ids);
  }

  lemma ListTextSays(column: Column, ids: seq<int>)
    ensures ListText(InList(column, ids)) == [Name(column), In, Open] + Marks(|ids|)
  {
  }

  lemma IdsBound(args: seq<Val>, ids: seq<int>, k: nat)
    requires k < |ids|
    ensures args + IntVals(ids[..k]) + [IntVal(ids[k])] == args + IntVals(ids[..k + 1])
    ensures k == 0 ==> args + IntVals(ids[..k]) == args
  {
    assert IntVals(ids[..k + 1]) == IntVals(ids[..k]) + [IntVal(ids[k])];
  }

  /** The restriction as one condition. */
  method PushPlaces(b: Building, f: Filter, ghost cs: seq<Cond>) returns (b': Building)
    requires Built(b, cs) && f.restrictToPlaces
    ensures Built(b', cs + PlacesCond(f))
  {
    hide Numbering, ListsText, ListsArgs;
    ghost var args := AllArgs(cs);
    ghost var none: seq<InList> := [];
    assert ListsText(none) == [] && ListsArgs(none) == [] by { NoLists(); }
    assert args + [] == args;
    var clause;
    b', clause := AppendList(b, [], ScopeObjectId, f.allowedObjects, args, none);
    ghost var ls := none + [InList(ScopeObjectId, f.allowedObjects)];
    b', clause := AppendList(b', clause, ScopeGroupId, f.allowedGroups, args, ls);
    ls := ls + [InList(ScopeGroupId, f.allowedGroups)];
    b', clause := AppendList(b', clause, ScopeFromObjectId, f.allowedObjects, args, ls);
    ls := ls + [InList(ScopeFromObjectId, f.allowedObjects)];
    b', clause := AppendList(b', clause, ScopeFromGroupId, f.allowedGroups, args, ls);
    ls := ls + [InList(ScopeFromGroupId, f.allowedGroups)];
    assert ls == Lists(f.allowedObjects, f.allowedGroups);
    var text := if clause == [] then [Literal(IntVal(0)), Compare(Eq), Literal(IntVal(1))]
                else [Open, Name(CategoryText), Compare(Eq), PLAYER_TEXT, And, Open] + clause + [Close, Close];
    SameNumbering(b', b'.where + [text], args + ListsArgs(ls));
    b' := b'.(where := b'.where + [text]);
    if f.allowedObjects != [] || f.allowedGroups != [] {
      SomeListHasText(f.allowedObjects, f.allowedGroups);
    } else {
      EmptyLists();
    }
    ghost var cond := PlacesCond(f)[0];
    assert PlacesCond(f) == [cond];
    AllArgsMore(cs, cond);
    TextsMore(cs, cond);
  }

  lemma NoLists()
    ensures ListsText([]) == [] && ListsArgs([]) == []
  {
  }

  lemma EmptyLists()
    ensures ListsText(Lists([], [])) == [] && ListsArgs(Lists([], [])) == []
  {
    NoneListed(Lists([], []));
  }

  lemma {:induction false} NoneListed(ls: seq<InList>)
    requires forall l | l in ls :: l.ids == []
    ensures ListsText(ls) == [] && ListsArgs(ls) == []
  {
    if ls != [] {
      assert ls[0] in ls;
      NoneListed(ls[1..]);
    }
  }

  // ---- the builder --------------------------------------------------------------------------------

  method PushSimple(b: Building, column: Column, op: Comparison, x: Option<int>, ghost cs: seq<Cond>)
    returns (b': Building)
    requires Built(b, cs)
    ensures Built(b', cs + IntCond(column, op, x))
  {
    hide Built;
    b' := b;
    if x.Some? {
      b' := PushInt(b, [Name(column), Compare(op), Mark], x.value);
      PushedInt(b, cs, column, op, x.value);
    } else {
      assert cs + [] == cs;
    }
  }

  method PushName(b: Building, column: Column, x: string, ghost cs: seq<Cond>) returns (b': Building)
    requires Built(b, cs)
    ensures Built(b', cs + TextCond(column, x))
  {
    hide Built, CStr;
    b' := b;
    if x != "" {
      b' := PushText(b, [Name(column), Compare(Eq), Mark], x);
      PushedText(b, cs, column, x);
    } else {
      assert cs + [] == cs;
    }
  }

  method PushEnds(b: Building, column: Column, other: Column, x: Option<int>, ghost cs: seq<Cond>)
    returns (b': Building)
    requires Built(b, cs)
    ensures Built(b', cs + EitherCond(column, other, x))
  {
    hide Built;
    b' := b;
    if x.Some? {
      b' := PushEither(b, [Open, Name(column), Compare(Eq), Mark, Or, Name(other), Compare(Eq), Mark, Close], x.value);
      PushedEither(b, cs, column, other, x.value);
    } else {
      assert cs + [] == cs;
    }
  }

  function PageSize(limit: int): int {
    Clamp(limit, 1, MAX_LIST_LIMIT)
  }

  function Start(offset: int): nat {
    if offset < 0 then 0 else offset
  }

  /** Every question mark gets its intended value, and the text is the conditions joined. */
  method BuildListQuery(f: Filter) returns (q: Query)
    ensures q.where == Joined(Conds(f))
    ensures Bound(q.ints, q.texts) == Numbered(AllArgs(Conds(f)))
    ensures q.limit == PageSize(f.limit) && q.offset == Start(f.offset)
    ensures q.limit == if f.limit < 1 then 1 else if f.limit > 1000 then 1000 else f.limit
    ensures q.offset == if f.offset > 0 then f.offset else 0
  {
    hide Built, IntCond, TextCond, EitherCond, CategoryCond, PlacesCond, Text, CategoryName;
    ghost var cs: seq<Cond> := [];
    var b := Building([], 1, [], []);
    NothingBuilt();
    b := PushSimple(b, Ts, Ge, f.fromTs, cs);
    cs := cs + IntCond(Ts, Ge, f.fromTs);
    b := PushSimple(b, Ts, Lt, f.toTs, cs);
    cs := cs + IntCond(Ts, Lt, f.toTs);
    b := PushCategory(b, f.category, cs);
    cs := cs + CategoryCond(f.category);
    b := PushName(b, Action, f.action, cs);
    cs := cs + TextCond(Action, f.action);
    b := PushSimple(b, ActorUserId, Eq, f.actorUserId, cs);
    cs := cs + IntCond(ActorUserId, Eq, f.actorUserId);
    b := PushName(b, ActorUsername, f.actorUsername, cs);
    cs := cs + TextCond(ActorUsername, f.actorUsername);
    b := PushName(b, TargetType, f.targetType, cs);
    cs := cs + TextCond(TargetType, f.targetType);
    b := PushName(b, TargetId, f.targetId, cs);
    cs := cs + TextCond(TargetId, f.targetId);
    b := PushName(b, RequestId, f.requestId, cs);
    cs := cs + TextCond(RequestId, f.requestId);
    assert cs == EventConds(f);
    b := PushEnds(b, ScopeObjectId, ScopeFromObjectId, f.scopeObjectId, cs);
    ghost var ps := EitherCond(ScopeObjectId, ScopeFromObjectId, f.scopeObjectId);
    b := PushEnds(b, ScopeGroupId, ScopeFromGroupId, f.scopeGroupId, cs + ps);
    assert cs + ps + EitherCond(ScopeGroupId, ScopeFromGroupId, f.scopeGroupId)
        == cs + (ps + EitherCond(ScopeGroupId, ScopeFromGroupId, f.scopeGroupId));
    ps := ps + EitherCond(ScopeGroupId, ScopeFromGroupId, f.scopeGroupId);
    if f.restrictToPlaces {
      b := PushPlaces(b, f, cs + ps);
    } else {
      Unrestricted(f);
      assert cs + ps + [] == cs + ps;
    }
    assert cs + ps + PlacesCond(f) == cs + (ps + PlacesCond(f));
    assert Built(b, Conds(f));
    BuiltMeans(b, Conds(f));
    var where := JoinAnd(b.where, Conds(f));
    q := Query(where, b.ints, b.texts, Clamp(f.limit, 1, MAX_LIST_LIMIT), if f.offset < 0 then 0 else f.offset);
  }

  method PushCategory(b: Building, x: Option<Category>, ghost cs: seq<Cond>) returns (b': Building)
    requires Built(b, cs)
    ensures Built(b', cs + CategoryCond(x))
  {
    hide Built, CategoryName, CStr;
    b' := b;
    if x.Some? {
      b' := PushText(b, [Name(CategoryText), Compare(Eq), Mark], CategoryName(x.value));
      CategoryNamePlain(x.value);
      PushedText(b, cs, CategoryText, CategoryName(x.value));
    } else {
      assert cs + [] == cs;
    }
  }

  lemma NothingBuilt()
    ensures Built(Building([], 1, [], []), [])
  {
  }

  lemma Unrestricted(f: Filter)
    requires !f.restrictToPlaces
    ensures PlacesCond(f) == []
  {
  }

  lemma BuiltMeans(b: Building, cs: seq<Cond>)
    requires Built(b, cs)
    ensures b.where == Texts(cs) && Bound(b.ints, b.texts) == Numbered(AllArgs(cs))
  {
  }

  lemma {:induction false} TextsAt(cs: seq<Cond>, i: nat)
    requires i < |cs|
    ensures |Texts(cs)| == |cs| && Texts(cs)[i] == Text(cs[i])
  {
    hide Text;
    if |cs| > 1 {
      TextsAt(cs[..|cs| - 1], if i < |cs| - 1 then i else 0);
    } else {
      assert Texts(cs[..0]) == [];
    }
  }

  lemma {:induction false} JoinedMore(cs: seq<Cond>, c: Cond)
    requires cs != []
    ensures Joined(cs + [c]) == Joined(cs) + [And] + Text(c)
  {
    hide Text;
    assert (cs + [c])[1..] == cs[1..] + [c];
    if |cs| > 1 {
      JoinedMore(cs[1..], c);
      assert Text(cs[0]) + [And] + (Joined(cs[1..]) + [And] + Text(c)) == Joined(cs) + [And] + Text(c);
    }
  }

  method JoinAnd(where: seq<seq<Token>>, ghost cs: seq<Cond>) returns (text: seq<Token>)
    requires where == Texts(cs)
    ensures text == Joined(cs)
  {
    hide Text, Texts;
    if where == [] {
      text := [];
      if cs != [] {
        TextsAt(cs, 0);
      }
      return;
    }
    NoTexts(cs);
    TextsAt(cs, 0);
    text := where[0];
    for i := 1 to |where|
      invariant text == Joined(cs[..i])
    {
      TextsAt(cs, i);
      assert cs[..i + 1] == cs[..i] + [cs[i]];
      JoinedMore(cs[..i], cs[i]);
      text := text + [And] + where[i];
    }
    assert cs[..|cs|] == cs;
  }

  lemma NoTexts(cs: seq<Cond>)
    ensures Texts(cs) != [] ==> cs != []
  {
  }
}
