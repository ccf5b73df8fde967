/** The cap on long-lived responses: places are counted in total and by user. */
module StreamLimiter {
  import opened Numbers

  type User = int

  datatype Limits = Limits(workerThreads: int, maxStreams: int, maxStreamsPerUser: int)

  datatype State = State(maxTotal: int, maxUser: int, total: int, perUser: map<User, int>)

  function Caps(maxTotal: int, maxPerUser: int): (int, int) {
    (if maxTotal < 1 then 1 else maxTotal, if maxPerUser < 1 then 1 else maxPerUser)
  }

  function Count(s: State, user: User): int {
    if user in s.perUser then s.perUser[user] else 0
  }

  predicate HasRoom(s: State, user: User) {
    s.total < s.maxTotal && Count(s, user) < s.maxUser
  }

  function Taken(s: State, user: User): State {
    s.(total := s.total + 1, perUser := s.perUser[user := Count(s, user) + 1])
  }

  function Given(s: State, user: User): State {
    var left := Count(s, user) - 1;
    s.(total := s.total - 1,
       perUser := if user !in s.perUser then s.perUser
                  else if left <= 0 then s.perUser - {user}
                  else s.perUser[user := left])
  }

  // ---- runs ------------------------------------------------------------------------------------

  datatype Action = Acquire(user: User) | Release(user: User) | Configure(maxTotal: int, maxPerUser: int)

  /** The limiter and the places that are out, by user. */
  datatype World = World(s: State, out: multiset<User>)

  /** A place can only be released while it is out. */
  function Step(w: World, a: Action): World {
    match a
    case Acquire(user) =>
      if HasRoom(w.s, user) then World(Taken(w.s, user), w.out + multiset{user}) else w
    case Release(user) =>
      if user in w.out then World(Given(w.s, user), w.out - multiset{user}) else w
    case Configure(maxTotal, maxPerUser) =>
      var (total, user) := Caps(maxTotal, maxPerUser);
      w.(s := w.s.(maxTotal := total, maxUser := user))
  }

  function Run(maxTotal: int, maxPerUser: int, actions: seq<Action>): World {
    if actions == [] then
      var (total, user) := Caps(maxTotal, maxPerUser);
      World(State(total, user, 0, map[]), multiset{})
    else Step(Run(maxTotal, maxPerUser, actions[..|actions| - 1]), actions[|actions| - 1])
  }

  /** The books balance: the total and each user's count are the places out, no count of zero
      is kept, and both caps let at least one stream in. */
  predicate Balanced(s: State, out: multiset<User>) {
    && s.total == |out|
    && (forall u | u in s.perUser :: s.perUser[u] == out[u] && s.perUser[u] > 0)
    && (forall u | u in out :: u in s.perUser)
    && s.maxTotal >= 1 && s.maxUser >= 1
  }

  lemma CountIsOut(s: State, out: multiset<User>, user: User)
    requires Balanced(s, out)
    ensures Count(s, user) == out[user]
  {
    if user !in s.perUser {
      assert user !in out;
    }
  }

  lemma TakenBalances(s: State, out: multiset<User>, user: User)
    requires Balanced(s, out)
    ensures Balanced(Taken(s, user), out + multiset{user})
  {
    CountIsOut(s, out, user);
    var s', out' := Taken(s, user), out + multiset{user};
    forall u ensures out'[u] == out[u] + if u == user then 1 else 0 {
    }
  }

  lemma GivenBalances(s: State, out: multiset<User>, user: User)
    requires Balanced(s, out) && user in out
    ensures Balanced(Given(s, user), out - multiset{user})
  {
    CountIsOut(s, out, user);
    var out' := out - multiset{user};
    forall u ensures out'[u] == out[u] - if u == user then 1 else 0 {
    }
    assert out == out' + multiset{user};
  }

  /** Over any run of taking, giving back and changing the caps. */
  lemma {:induction false} RunBalances(maxTotal: int, maxPerUser: int, actions: seq<Action>)
    ensures var w := Run(maxTotal, maxPerUser, actions); Balanced(w.s, w.out)
  {
    hide Balanced, Taken, Given;
    if actions == [] {
      NothingOut(maxTotal, maxPerUser);
    } else {
      RunBalances(maxTotal, maxPerUser, actions[..|actions| - 1]);
      var w, a := Run(maxTotal, maxPerUser, actions[..|actions| - 1]), actions[|actions| - 1];
      match a
      case Acquire(user) => TakenBalances(w.s, w.out, user);
      case Release(user) => if user in w.out { GivenBalances(w.s, w.out, user); }
      case Configure(total, user) => Recapped(w.s, w.out, total, user);
    }
  }

  lemma NothingOut(maxTotal: int, maxPerUser: int)
    ensures var (total, user) := Caps(maxTotal, maxPerUser); Balanced(State(total, user, 0, map[]), multiset{})
  {
  }

  lemma Recapped(s: State, out: multiset<User>, maxTotal: int, maxPerUser: int)
    ensures Balanced(s, out) ==>
      var (total, user) := Caps(maxTotal, maxPerUser); Balanced(s.(maxTotal := total, maxUser := user), out)
  {
  }

  /** A stream is refused exactly at a cap in force, a grant never goes beyond either, a
      refusal changes nothing, and changing the caps cuts no open stream. */
  lemma GrantsWithinCaps(maxTotal: int, maxPerUser: int, actions: seq<Action>, a: Action)
    ensures var w := Run(maxTotal, maxPerUser, actions);
            var w' := Step(w, a);
            && (a.Acquire? ==>
                  if |w.out| < w.s.maxTotal && w.out[a.user] < w.s.maxUser
                  then w'.out == w.out + multiset{a.user} && |w'.out| <= w'.s.maxTotal && w'.out[a.user] <= w'.s.maxUser
                  else w' == w)
            && (a.Release? ==>
                  if a.user in w.out then w'.out == w.out - multiset{a.user} && w'.out[a.user] == w.out[a.user] - 1
                  else w' == w)
            && (!a.Configure? ==> w'.s.maxTotal == w.s.maxTotal && w'.s.maxUser == w.s.maxUser)
            && (a.Configure? ==>
                  && w'.out == w.out && w'.s.total == w.s.total && w'.s.perUser == w.s.perUser
                  && w'.s.maxTotal == (if a.maxTotal < 1 then 1 else a.maxTotal)
                  && w'.s.maxUser == (if a.maxPerUser < 1 then 1 else a.maxPerUser))
  {
    hide Run, Balanced;
    RunBalances(maxTotal, maxPerUser, actions);
    var w := Run(maxTotal, maxPerUser, actions);
    TotalIsOut(w.s, w.out);
    if a.Acquire? {
      CountIsOut(w.s, w.out, a.user);
    }
  }

  lemma TotalIsOut(s: State, out: multiset<User>)
    requires Balanced(s, out)
    ensures s.total == |out|
  {
  }

  // ---- setLimits --------------------------------------------------------------------------------

  /** What is within the bounds is taken as it is, and what is not becomes the bound it is beyond. */
  predicate Nearest(asked: int, taken: int, low: int, high: int) {
    && (low <= asked <= high ==> taken == asked)
    && (asked < low ==> taken == low)
    && (asked > high ==> taken == high)
  }

  /** Whatever the configuration asks for, the caps that come into force leave at least eight
      workers to ordinary requests, and no one user's cap is above the total. */
  method SetLimits(limits: Limits, limiter: Limiter) returns (workers: int)
    modifies limiter
    ensures 16 <= workers <= 1024 && Nearest(limits.workerThreads, workers, 16, 1024)
    ensures 1 <= limiter.maxUser <= limiter.maxTotal <= workers - 8
    ensures Nearest(limits.maxStreams, limiter.maxTotal, 1, workers - 8)
    ensures Nearest(limits.maxStreamsPerUser, limiter.maxUser, 1, limiter.maxTotal)
    ensures limiter.total == old(limiter.total) && limiter.perUser == old(limiter.perUser)
    ensures limiter.out == old(limiter.out)
  {
    workers := Clamp(limits.workerThreads, 16, 1024);
    var streams := Clamp(limits.maxStreams, 1, workers - 8);
    var perUser := Clamp(limits.maxStreamsPerUser, 1, streams);
    limiter.Configure(streams, perUser);
  }

  // ---- the limiter as it runs -------------------------------------------------------------------

  class Limiter {
    var maxTotal: int
    var maxUser: int
    var total: int
    var perUser: map<User, int>
    ghost var out: multiset<User>

    function Now(): State
      reads this
    {
      State(maxTotal, maxUser, total, perUser)
    }

    ghost predicate Valid()
      reads this
    {
      Balanced(Now(), out)
    }

    constructor (maxTotal: int, maxPerUser: int)
      ensures Valid() && out == multiset{}
      ensures (this.maxTotal, this.maxUser) == Caps(maxTotal, maxPerUser)
    {
      total, perUser, out := 0, map[], multiset{};
      this.maxTotal := if maxTotal < 1 then 1 else maxTotal;
      this.maxUser := if maxPerUser < 1 then 1 else maxPerUser;
    }

    method Configure(maxTotal: int, maxPerUser: int)
      modifies this`maxTotal, this`maxUser
      ensures (this.maxTotal, this.maxUser) == Caps(maxTotal, maxPerUser)
      ensures this.maxTotal >= 1 && (maxTotal >= 1 ==> this.maxTotal == maxTotal)
      ensures this.maxUser >= 1 && (maxPerUser >= 1 ==> this.maxUser == maxPerUser)
      ensures old(Valid()) ==> Valid()
    {
      Recapped(Now(), out, maxTotal, maxPerUser);
      this.maxTotal := if maxTotal < 1 then 1 else maxTotal;
      this.maxUser := if maxPerUser < 1 then 1 else maxPerUser;
    }

    /** The user's counter comes into being before it is looked at, but a new one never stays
        behind at zero, since the cap it is compared with is at least one. */
    method Acquire(user: User) returns (granted: bool)
      requires Valid()
      modifies this
      ensures Valid() && granted == HasRoom(old(Now()), user)
      ensures granted <==> |old(out)| < maxTotal && old(out)[user] < maxUser
      ensures maxTotal == old(maxTotal) && maxUser == old(maxUser)
      ensures Now() == if granted then Taken(old(Now()), user) else old(Now())
      ensures out == if granted then old(out) + multiset{user} else old(out)
    {
      CountIsOut(Now(), out, user);
      TotalIsOut(Now(), out);
      if total >= maxTotal {
        return false;
      }
      if user !in perUser {
        perUser := perUser[user := 0];
      }
      if perUser[user] >= maxUser {
        return false;
      }
      TakenBalances(old(Now()), out, user);
      hide Balanced;
      perUser := perUser[user := perUser[user] + 1];
      total := total + 1;
      out := out + multiset{user};
      assert Now() == Taken(old(Now()), user);
      granted := true;
    }

    /** What the deleter of a place does. */
    method Release(user: User)
      requires Valid() && user in out
      modifies this
      ensures Valid() && Now() == Given(old(Now()), user) && out == old(out) - multiset{user}
      ensures maxTotal == old(maxTotal) && maxUser == old(maxUser)
    {
      hide Balanced;
      GivenBalances(Now(), out, user);
      total := total - 1;
      if user in perUser {
        var left := perUser[user] - 1;
        if left <= 0 {
          perUser := perUser - {user};
        } else {
          perUser := perUser[user := left];
        }
      }
      out := out - multiset{user};
      assert Now() == Given(old(Now()), user);
    }
  }
}
