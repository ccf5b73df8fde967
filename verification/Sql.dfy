/** The fragment of SQL the audit queries are written in, as SQLite reads it: AND binds
    tighter than OR, truth has three values, and the question marks are numbered from left
    to right, each standing for the value bound to its number. */
module Sql {
  import opened Wrappers

  datatype Column =
    | Ts | CategoryText | Action | ActorUserId | ActorUsername | TargetType | TargetId | RequestId
    | ScopeObjectId | ScopeGroupId | ScopeFromObjectId | ScopeFromGroupId

  datatype Val = NullVal | IntVal(i: int) | TextVal(s: string)

  datatype Comparison = Ge | Lt | Eq

  datatype Token =
    | Name(column: Column) | Literal(value: Val) | Mark | Compare(op: Comparison)
    | In | And | Or | Open | Close | Comma

  datatype Truth = True | False | Unknown

  function And3(a: Truth, b: Truth): Truth {
    if a == False || b == False then False
    else if a == Unknown || b == Unknown then Unknown
    else True
  }

  function Or3(a: Truth, b: Truth): Truth {
    if a == True || b == True then True
    else if a == Unknown || b == Unknown then Unknown
    else False
  }

  function Known(b: bool): Truth {
    if b then True else False
  }

  /** Texts compare byte by byte. */
  predicate TextBefore(x: string, y: string) {
    y != [] && (x == [] || x[0] < y[0] || (x[0] == y[0] && TextBefore(x[1..], y[1..])))
  }

  /** Comparing with NULL gives no answer; integers sort before texts. */
  function Compare3(a: Val, op: Comparison, b: Val): Truth {
    match (a, b)
    case (IntVal(x), IntVal(y)) => Known(match op case Ge => x >= y case Lt => x < y case Eq => x == y)
    case (TextVal(x), TextVal(y)) =>
      Known(match op case Ge => !TextBefore(x, y) case Lt => TextBefore(x, y) case Eq => x == y)
    case (NullVal, _) => Unknown
    case (_, NullVal) => Unknown
    case (IntVal(_), TextVal(_)) => Known(op == Lt)
    case (TextVal(_), IntVal(_)) => Known(op == Ge)
  }

  /** What SQL makes of a comparison and of AND and OR. */
  lemma ComparisonsMean(x: int, y: int, s: string, t: string, v: Val, op: Comparison)
    ensures Compare3(IntVal(x), Ge, IntVal(y)) == (if x >= y then True else False)
    ensures Compare3(IntVal(x), Lt, IntVal(y)) == (if x < y then True else False)
    ensures Compare3(IntVal(x), Eq, IntVal(y)) == (if x == y then True else False)
    ensures Compare3(TextVal(s), Eq, TextVal(t)) == (if s == t then True else False)
    ensures Compare3(NullVal, op, v) == Unknown && Compare3(v, op, NullVal) == Unknown
  {
  }

  lemma ConnectivesMean(a: Truth, b: Truth)
    ensures And3(a, b) == True <==> a == True && b == True
    ensures And3(a, b) == False <==> a == False || b == False
    ensures Or3(a, b) == True <==> a == True || b == True
    ensures Or3(a, b) == False <==> a == False && b == False
  {
  }

  /** A row and the values bound to the question marks. */
  datatype Env = Env(row: Column -> Val, binds: map<int, Val>)

  /** An expression read off the front of the tokens: its truth, what is left, and the number
      of the next question mark. */
  datatype Reading = Reading(truth: Truth, rest: seq<Token>, next: nat)

  function Operand(t: Token, k: nat, env: Env): Option<(Val, nat)> {
    match t
    case Name(column) => Some((env.row(column), k))
    case Literal(value) => Some((value, k))
    case Mark => Some((if k in env.binds then env.binds[k] else NullVal, k + 1))
    case _ => None
  }

  /** The list of an IN: marks, commas between them, the closing parenthesis. */
  function ReadList(x: Val, ts: seq<Token>, k: nat, env: Env, found: Truth): (r: Option<Reading>)
    ensures r.Some? ==> |r.value.rest| < |ts|
  {
    if |ts| < 2 || ts[0] != Mark then None
    else
      var v := if k in env.binds then env.binds[k] else NullVal;
      var now := Or3(found, Compare3(x, Eq, v));
      if ts[1] == Close then Some(Reading(now, ts[2..], k + 1))
      else if ts[1] == Comma then ReadList(x, ts[2..], k + 1, env, now)
      else None
  }

  function ReadPrimary(ts: seq<Token>, k: nat, env: Env): (r: Option<Reading>)
    ensures r.Some? ==> |r.value.rest| < |ts|
    decreases |ts|, 0
  {
    if ts == [] then None
    else if ts[0] == Open then
      var inner := ReadOr(ts[1..], k, env);
      if inner.Some? && inner.value.rest != [] && inner.value.rest[0] == Close
      then Some(inner.value.(rest := inner.value.rest[1..]))
      else None
    else
      var left := Operand(ts[0], k, env);
      if left.None? || |ts| < 3 then None
      else if ts[1].Compare? then
        var right := Operand(ts[2], left.value.1, env);
        if right.None? then None
        else Some(Reading(Compare3(left.value.0, ts[1].op, right.value.0), ts[3..], right.value.1))
      else if ts[1] == In && ts[2] == Open then ReadList(left.value.0, ts[3..], left.value.1, env, False)
      else None
  }

  function ReadAnd(ts: seq<Token>, k: nat, env: Env): (r: Option<Reading>)
    ensures r.Some? ==> |r.value.rest| < |ts|
    decreases |ts|, 1
  {
    var first := ReadPrimary(ts, k, env);
    if first.None? || first.value.rest == [] || first.value.rest[0] != And then first
    else
      var more := ReadAnd(first.value.rest[1..], first.value.next, env);
      if more.None? then None
      else Some(more.value.(truth := And3(first.value.truth, more.value.truth)))
  }

  function ReadOr(ts: seq<Token>, k: nat, env: Env): (r: Option<Reading>)
    ensures r.Some? ==> |r.value.rest| < |ts|
    decreases |ts|, 2
  {
    var first := ReadAnd(ts, k, env);
    if first.None? || first.value.rest == [] || first.value.rest[0] != Or then first
    else
      var more := ReadOr(first.value.rest[1..], first.value.next, env);
      if more.None? then None
      else Some(more.value.(truth := Or3(first.value.truth, more.value.truth)))
  }

  /** WHERE keeps a row when the condition is true, not when it is unknown. */
  predicate Selects(where: seq<Token>, env: Env) {
    where == [] || (var r := ReadOr(where, 1, env); r.Some? && r.value.rest == [] && r.value.truth == True)
  }

  // ---- how readings combine --------------------------------------------------------------

  /** A parenthesised condition is read as its inside is. */
  lemma ParenReads(ts: seq<Token>, k: nat, env: Env, inside: seq<Token>, truth: Truth, rest: seq<Token>, next: nat)
    requires ts == [Open] + inside
    requires ReadOr(inside, k, env) == Some(Reading(truth, [Close] + rest, next))
    ensures ReadPrimary(ts, k, env) == Some(Reading(truth, rest, next))
  {
    assert ts[1..] == inside;
    assert ([Close] + rest)[1..] == rest;
  }

  lemma AndStops(ts: seq<Token>, k: nat, env: Env, r: Reading)
    requires ReadPrimary(ts, k, env) == Some(r) && (r.rest == [] || r.rest[0] != And)
    ensures ReadAnd(ts, k, env) == Some(r)
  {
  }

  lemma AndGoesOn(ts: seq<Token>, k: nat, env: Env, first: Reading, more: seq<Token>, r: Reading)
    requires ReadPrimary(ts, k, env) == Some(first) && first.rest == [And] + more
    requires ReadAnd(more, first.next, env) == Some(r)
    ensures ReadAnd(ts, k, env) == Some(r.(truth := And3(first.truth, r.truth)))
  {
    assert first.rest[1..] == more;
  }

  lemma OrStops(ts: seq<Token>, k: nat, env: Env, r: Reading)
    requires ReadAnd(ts, k, env) == Some(r) && (r.rest == [] || r.rest[0] != Or)
    ensures ReadOr(ts, k, env) == Some(r)
  {
  }

  lemma OrGoesOn(ts: seq<Token>, k: nat, env: Env, first: Reading, more: seq<Token>, r: Reading)
    requires ReadAnd(ts, k, env) == Some(first) && first.rest == [Or] + more
    requires ReadOr(more, first.next, env) == Some(r)
    ensures ReadOr(ts, k, env) == Some(r.(truth := Or3(first.truth, r.truth)))
  {
    assert first.rest[1..] == more;
  }
}
