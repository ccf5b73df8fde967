/** The token-bucket limiter of the audit trail. Times are nanoseconds of the steady clock;
    a call reads the clock before it takes the lock, so times may arrive out of order. */
module RateLimiter {
  import opened Wrappers
  import Decimal

  const NS_PER_MS := 1_000_000
  const NS_PER_SECOND := 1_000_000_000

  datatype Config = Config(tokensPerMinute: int, burstCapacity: int, evictionAfter: int)
  datatype Bucket = Bucket(tokens: real, lastRefill: int, lastUsed: int)

  function Burst(cfg: Config): real {
    cfg.burstCapacity as real
  }

  /** What the configured rate gives in so many milliseconds. */
  function Worth(rate: int, ms: real): real {
    rate as real * ms / 60000.0
  }

  /** Whole milliseconds from one instant to a later one. */
  function WholeMs(from: int, to: int): int {
    (to - from) / NS_PER_MS
  }

  function Min(a: real, b: real): real {
    if b < a then b else a
  }

  function Refill(cfg: Config, b: Bucket, t: int): Bucket {
    if t <= b.lastRefill then b
    else b.(tokens := Min(Burst(cfg), b.tokens + Worth(cfg.tokensPerMinute, WholeMs(b.lastRefill, t) as real)),
            lastRefill := t)
  }

  function NewBucket(cfg: Config, t: int): Bucket {
    Bucket(Burst(cfg), t, t)
  }

  /** One call against the actor's bucket, or against none. */
  function Use(cfg: Config, found: Option<Bucket>, t: int): (Bucket, bool) {
    var b := Refill(cfg, if found.Some? then found.value else NewBucket(cfg, t), t).(lastUsed := t);
    if b.tokens < 1.0 then (b, false) else (b.(tokens := b.tokens - 1.0), true)
  }

  // ---- one actor ------------------------------------------------------------------------

  function After(cfg: Config, start: Option<Bucket>, times: seq<int>): Option<Bucket> {
    if times == [] then start
    else Some(Use(cfg, After(cfg, start, times[..|times| - 1]), times[|times| - 1]).0)
  }

  function Admitted(cfg: Config, start: Option<Bucket>, times: seq<int>): nat {
    if times == [] then 0
    else
      var before := times[..|times| - 1];
      Admitted(cfg, start, before)
        + if Use(cfg, After(cfg, start, before), times[|times| - 1]).1 then 1 else 0
  }

  function Latest(times: seq<int>): int
    requires times != []
  {
    if |times| == 1 then times[0]
    else
      var m := Latest(times[..|times| - 1]);
      if times[|times| - 1] > m then times[|times| - 1] else m
  }

  lemma {:induction false} LatestIsMax(times: seq<int>, i: nat)
    requires i < |times|
    ensures times[i] <= Latest(times) && Latest(times) in times
  {
    if |times| > 1 {
      LatestIsMax(times[..|times| - 1], if i < |times| - 1 then i else 0);
    }
  }

  /** Between calls a bucket never holds more than the burst. */
  predicate Sane(cfg: Config, start: Option<Bucket>) {
    start.Some? ==> start.value.tokens <= Burst(cfg)
  }

  function Pos(x: real): real {
    if x < 0.0 then 0.0 else x
  }

  function Rate(cfg: Config): int {
    if cfg.tokensPerMinute < 0 then 0 else cfg.tokensPerMinute
  }

  function Ms(ns: int): real {
    ns as real / 1000000.0
  }

  lemma WorthGrows(rate: int, a: real, b: real)
    requires rate >= 0 && a <= b
    ensures Worth(rate, a) <= Worth(rate, b)
  {
    assert rate as real * (b - a) >= 0.0;
  }

  lemma WorthAdds(rate: int, a: real, b: real)
    ensures Worth(rate, a) + Worth(rate, b) == Worth(rate, a + b)
  {
  }

  lemma WorthShrinks(rate: int, ms: real)
    requires rate < 0 && ms >= 0.0
    ensures Worth(rate, ms) <= 0.0
  {
    assert rate as real * ms <= 0.0;
  }

  /** Truncation only ever loses, and less than a millisecond. */
  lemma WholeMsBounds(from: int, to: int)
    requires from <= to
    ensures 0 <= WholeMs(from, to)
    ensures Ms(to - from) - 1.0 < WholeMs(from, to) as real <= Ms(to - from)
  {
    var q := WholeMs(from, to);
    assert q * NS_PER_MS <= to - from < (q + 1) * NS_PER_MS;
    assert (q * NS_PER_MS) as real == q as real * 1000000.0;
  }

  lemma RefillBound(cfg: Config, b: Bucket, t: int)
    ensures var b' := Refill(cfg, b, t);
            && b'.lastRefill >= b.lastRefill && b'.lastRefill >= t
            && (b'.lastRefill == b.lastRefill || b'.lastRefill == t)
            && Pos(b'.tokens) <= Pos(b.tokens) + Worth(Rate(cfg), Ms(b'.lastRefill - b.lastRefill))
            && (b.tokens <= Burst(cfg) ==> b'.tokens <= Burst(cfg))
  {
    hide Worth, WholeMs;
    if t > b.lastRefill {
      var whole := WholeMs(b.lastRefill, t) as real;
      WholeMsBounds(b.lastRefill, t);
      WorthGrows(Rate(cfg), 0.0, Ms(t - b.lastRefill));
      WorthGrows(Rate(cfg), whole, Ms(t - b.lastRefill));
      WorthOfNothing(Rate(cfg));
      if cfg.tokensPerMinute < 0 {
        WorthShrinks(cfg.tokensPerMinute, whole);
      }
    } else {
      WorthOfNothing(Rate(cfg));
    }
  }

  lemma WorthOfNothing(rate: int)
    ensures Worth(rate, 0.0) == 0.0
  {
  }

  lemma UseBound(cfg: Config, b: Bucket, t: int)
    requires b.tokens <= Burst(cfg)
    ensures var (b', ok) := Use(cfg, Some(b), t);
            && b'.lastRefill >= b.lastRefill && b'.lastRefill >= t
            && (b'.lastRefill == b.lastRefill || b'.lastRefill == t)
            && (if ok then 1.0 else 0.0) + Pos(b'.tokens)
               <= Pos(b.tokens) + Worth(Rate(cfg), Ms(b'.lastRefill - b.lastRefill))
            && b'.tokens <= Burst(cfg)
  {
    hide Worth, WholeMs, Refill;
    RefillBound(cfg, b, t);
  }

  lemma FirstUseBound(cfg: Config, start: Option<Bucket>, t: int)
    requires Sane(cfg, start)
    ensures var (b', ok) := Use(cfg, start, t);
            && b'.lastRefill >= t && (if ok then 1.0 else 0.0) + Pos(b'.tokens) <= Pos(Burst(cfg))
            && b'.tokens <= Burst(cfg)
            && (b'.lastRefill == t || (start.Some? && b'.lastRefill == start.value.lastRefill))
  {
    hide Worth, WholeMs;
  }

  /** The potential: admissions so far and tokens left never exceed the burst and what the
      rate gave since the first call. */
  lemma {:induction false} Potential(cfg: Config, start: Option<Bucket>, times: seq<int>)
    requires Sane(cfg, start) && times != []
    ensures var b := After(cfg, start, times); var first := Use(cfg, start, times[0]).0;
            && b.Some? && b.value.tokens <= Burst(cfg)
            && Admitted(cfg, start, times) as real + Pos(b.value.tokens)
               <= Pos(Burst(cfg)) + Worth(Rate(cfg), Ms(b.value.lastRefill - first.lastRefill))
            && first.lastRefill <= b.value.lastRefill
            && (b.value.lastRefill == first.lastRefill || b.value.lastRefill == Latest(times))
            && times[0] <= first.lastRefill && Latest(times) <= b.value.lastRefill
  {
    hide Use, Worth;
    FirstUseBound(cfg, start, times[0]);
    var n := |times| - 1;
    if n == 0 {
      WorthOfNothing(Rate(cfg));
      assert times[..0] == [];
    } else {
      var before := times[..n];
      Potential(cfg, start, before);
      var b := After(cfg, start, before).value;
      var first := Use(cfg, start, times[0]).0;
      UseBound(cfg, b, times[n]);
      var b' := Use(cfg, Some(b), times[n]).0;
      WorthAdds(Rate(cfg), Ms(b.lastRefill - first.lastRefill), Ms(b'.lastRefill - b.lastRefill));
      assert Ms(b.lastRefill - first.lastRefill) + Ms(b'.lastRefill - b.lastRefill)
                  == Ms(b'.lastRefill - first.lastRefill);
    }
  }

  /** The bound: in any stretch of an actor's calls, with their times in any order, at most
      the burst and what the rate gives from the first call to the latest. */
  lemma AdmissionBound(cfg: Config, start: Option<Bucket>, times: seq<int>)
    requires Sane(cfg, start) && times != []
    ensures times[0] <= Latest(times)
    ensures var burst := if cfg.burstCapacity > 0 then cfg.burstCapacity else 0;
            var rate := if cfg.tokensPerMinute > 0 then cfg.tokensPerMinute else 0;
            (Admitted(cfg, start, times) * 60000) as real
            <= (burst * 60000) as real + (rate * (Latest(times) - times[0])) as real / 1000000.0
  {
    BoundInTokens(cfg, start, times);
    InNumbers(cfg, Admitted(cfg, start, times), Latest(times) - times[0]);
  }

  /** 60000 times a bound in tokens. */
  lemma InNumbers(cfg: Config, n: nat, ns: nat)
    requires n as real <= Pos(Burst(cfg)) + Worth(Rate(cfg), Ms(ns))
    ensures var burst := if cfg.burstCapacity > 0 then cfg.burstCapacity else 0;
            var rate := if cfg.tokensPerMinute > 0 then cfg.tokensPerMinute else 0;
            (n * 60000) as real <= (burst * 60000) as real + (rate * ns) as real / 1000000.0
  {
    var rate := Rate(cfg);
    Product(rate, ns);
    assert Worth(rate, Ms(ns)) * 60000.0 == rate as real * (ns as real / 1000000.0);
    assert rate as real * (ns as real / 1000000.0) == (rate as real * ns as real) / 1000000.0;
  }

  lemma Product(a: int, b: int)
    ensures (a * b) as real == a as real * b as real
  {
  }

  lemma BoundInTokens(cfg: Config, start: Option<Bucket>, times: seq<int>)
    requires Sane(cfg, start) && times != []
    ensures times[0] <= Latest(times)
    ensures Admitted(cfg, start, times) as real
         <= Pos(Burst(cfg)) + Worth(Rate(cfg), Ms(Latest(times) - times[0]))
  {
    hide Use, Worth, Admitted, Latest;
    Potential(cfg, start, times);
    LatestIsMax(times, 0);
    var b := After(cfg, start, times).value;
    var first := Use(cfg, start, times[0]).0;
    WorthGrows(Rate(cfg), 0.0, Ms(Latest(times) - times[0]));
    WorthOfNothing(Rate(cfg));
    if b.lastRefill != first.lastRefill {
      WorthGrows(Rate(cfg), Ms(b.lastRefill - first.lastRefill), Ms(Latest(times) - times[0]));
    }
  }

  // ---- what truncation costs -----------------------------------------------------------------

  /** What a rate per minute gives in so many nanoseconds, exactly. */
  function Exact(rate: int, ns: int): real {
    rate as real * ns as real / 60000000000.0
  }

  lemma ExactIsWorth(rate: int, ns: int)
    ensures Exact(rate, ns) == Worth(rate, Ms(ns))
  {
    assert rate as real * (ns as real / 1000000.0) == (rate as real * ns as real) / 1000000.0;
  }

  /** The tokens of a bucket that admits the same calls but credits exact time. */
  function ExactTokens(cfg: Config, b: Bucket, times: seq<int>): real {
    if times == [] then b.tokens
    else
      var before := times[..|times| - 1];
      var now := After(cfg, Some(b), before).value;
      var t := times[|times| - 1];
      var held := ExactTokens(cfg, b, before);
      var refilled := if t <= now.lastRefill then held
                      else Min(cfg.burstCapacity as real, held + Exact(cfg.tokensPerMinute, t - now.lastRefill));
      refilled - if Use(cfg, Some(now), t).1 then 1.0 else 0.0
  }

  lemma UseLag(cfg: Config, b: Bucket, held: real, t: int)
    requires cfg.tokensPerMinute >= 0 && b.tokens <= held
    ensures var (b', ok) := Use(cfg, Some(b), t);
            var refilled := if t <= b.lastRefill then held
                            else Min(Burst(cfg), held + Exact(cfg.tokensPerMinute, t - b.lastRefill));
            var left := refilled - if ok then 1.0 else 0.0;
            b'.tokens <= left <= b'.tokens + (held - b.tokens) + Worth(cfg.tokensPerMinute, 1.0)
  {
    hide Worth, WholeMs, Exact;
    var rate := cfg.tokensPerMinute;
    WorthOfNothing(rate);
    WorthGrows(rate, 0.0, 1.0);
    if t > b.lastRefill {
      ExactIsWorth(rate, t - b.lastRefill);
      var whole := WholeMs(b.lastRefill, t) as real;
      WholeMsBounds(b.lastRefill, t);
      WorthGrows(rate, whole, Ms(t - b.lastRefill));
      WorthAdds(rate, Ms(t - b.lastRefill) - 1.0, 1.0);
      WorthGrows(rate, Ms(t - b.lastRefill) - 1.0, whole);
      WorthGrows(rate, 0.0, whole);
    }
  }

  /** So many calls, each losing at most `each`. */
  function Loss(calls: nat, each: real): real {
    calls as real * each
  }

  lemma OneMore(n: nat, each: real)
    ensures Loss(n + 1, each) == Loss(n, each) + each && Loss(0, each) == 0.0
  {
  }

  /** Truncation to milliseconds costs at most one millisecond's worth of refill per call. */
  lemma TruncationLoss(cfg: Config, b: Bucket, times: seq<int>)
    requires cfg.tokensPerMinute >= 0
    ensures After(cfg, Some(b), times).Some?
    ensures var tokens := After(cfg, Some(b), times).value.tokens;
            tokens <= ExactTokens(cfg, b, times)
                   <= tokens + (|times| * cfg.tokensPerMinute) as real / 60000.0
  {
    hide Loss, Worth, ExactTokens, After;
    LossInTokens(cfg, b, times);
    LossIs(|times|, cfg.tokensPerMinute);
  }

  lemma LossIs(n: nat, rate: int)
    ensures Loss(n, Worth(rate, 1.0)) == (n * rate) as real / 60000.0
  {
    Product(n, rate);
    var a, b := n as real, rate as real;
    var each := b * 1.0 / 60000.0;
    assert each * 60000.0 == b;
    Scaled(a, each, b);
  }

  lemma Scaled(a: real, each: real, b: real)
    requires each * 60000.0 == b
    ensures a * each == a * b / 60000.0
  {
    assert a * (each * 60000.0) == (a * each) * 60000.0;
  }

  lemma {:induction false} LossInTokens(cfg: Config, b: Bucket, times: seq<int>)
    requires cfg.tokensPerMinute >= 0
    ensures After(cfg, Some(b), times).Some?
    ensures var tokens := After(cfg, Some(b), times).value.tokens;
            tokens <= ExactTokens(cfg, b, times)
                   <= tokens + Loss(|times|, Worth(cfg.tokensPerMinute, 1.0))
  {
    hide Use, Worth, Loss;
    var n := |times|;
    if n == 0 {
      OneMore(0, Worth(cfg.tokensPerMinute, 1.0));
    } else {
      OneMore(n - 1, Worth(cfg.tokensPerMinute, 1.0));
      var before := times[..n - 1];
      LossInTokens(cfg, b, before);
      UseLag(cfg, After(cfg, Some(b), before).value, ExactTokens(cfg, b, before), times[n - 1]);
    }
  }

  // ---- what a bucket is sure to give ---------------------------------------------------------

  /** What a bucket holds when it is next asked, `ms` whole milliseconds and a rest later. */
  lemma RefillGives(cfg: Config, b: Bucket, ms: nat, rest: nat)
    requires rest < 1_000_000 && ms + rest > 0
    ensures var tokens := Refill(cfg, b, b.lastRefill + ms * 1_000_000 + rest).tokens;
            var given := b.tokens + (cfg.tokensPerMinute * ms) as real / 60000.0;
            tokens == if cfg.burstCapacity as real < given then cfg.burstCapacity as real else given
  {
    assert WholeMs(b.lastRefill, b.lastRefill + ms * 1_000_000 + rest) == ms;
    Product(cfg.tokensPerMinute, ms);
  }

  /** Left alone for a minute it gains the rate per minute, up to the burst. */
  lemma MinuteGives(cfg: Config, b: Bucket)
    ensures var tokens := Refill(cfg, b, b.lastRefill + 60_000_000_000).tokens;
            var given := b.tokens + cfg.tokensPerMinute as real;
            tokens == if cfg.burstCapacity as real < given then cfg.burstCapacity as real else given
  {
    RefillGives(cfg, b, 60000, 0);
    assert (cfg.tokensPerMinute * 60000) as real / 60000.0 == cfg.tokensPerMinute as real;
  }

  /** So many calls at one instant. */
  function AtOnce(t: int, n: nat): seq<int> {
    seq(n, _ => t)
  }

  /** A new actor may spend the whole burst at once, and nothing more. */
  lemma {:induction false} BurstAdmits(cfg: Config, t: int, n: nat)
    ensures Admitted(cfg, None, AtOnce(t, n))
         == if n <= cfg.burstCapacity then n else if cfg.burstCapacity < 0 then 0 else cfg.burstCapacity
    ensures n > 0 ==>
              After(cfg, None, AtOnce(t, n))
              == Some(Bucket(Burst(cfg) - Admitted(cfg, None, AtOnce(t, n)) as real, t, t))
  {
    if n > 0 {
      assert AtOnce(t, n)[..n - 1] == AtOnce(t, n - 1);
      BurstAdmits(cfg, t, n - 1);
    }
  }

  /** Calls so far apart that each time the rate gives a token. */
  predicate Spaced(cfg: Config, times: seq<int>) {
    forall i | 0 < i < |times| ::
      times[i] > times[i - 1] && cfg.tokensPerMinute * ((times[i] - times[i - 1]) / 1_000_000) >= 60000
  }

  /** Every one of them is admitted, however long it goes on. */
  lemma {:induction false} SpacedAreAdmitted(cfg: Config, times: seq<int>)
    requires cfg.burstCapacity >= 1 && cfg.tokensPerMinute >= 0 && Spaced(cfg, times)
    ensures Admitted(cfg, None, times) == |times|
    ensures times != [] ==>
              var b := After(cfg, None, times);
              b.Some? && b.value.lastRefill == times[|times| - 1] && b.value.tokens >= 0.0
  {
    hide Refill;
    if times != [] {
      var n := |times| - 1;
      SpacedAreAdmitted(cfg, times[..n]);
      if n > 0 {
        var b := After(cfg, None, times[..n]).value;
        assert times[..n][n - 1] == times[n - 1];
        SpacedRefill(cfg, b, times[n]);
      } else {
        assert times[..0] == [];
        FirstRefill(cfg, times[0]);
      }
    }
  }

  lemma SpacedRefill(cfg: Config, b: Bucket, t: int)
    requires cfg.burstCapacity >= 1 && cfg.tokensPerMinute >= 0 && b.tokens >= 0.0 && t > b.lastRefill
    requires cfg.tokensPerMinute * ((t - b.lastRefill) / 1_000_000) >= 60000
    ensures Refill(cfg, b, t).tokens >= 1.0 && Refill(cfg, b, t).lastRefill == t
  {
    var ns := t - b.lastRefill;
    RefillGives(cfg, b, ns / 1_000_000, ns % 1_000_000);
    assert (ns / 1_000_000) * 1_000_000 + ns % 1_000_000 == ns;
  }

  lemma FirstRefill(cfg: Config, t: int)
    ensures Refill(cfg, NewBucket(cfg, t), t) == Bucket(cfg.burstCapacity as real, t, t)
  {
  }

  /** The instant of the bucket's last refill. */
  function RefilledAt(last: int, times: seq<int>): int {
    if times == [] then last
    else
      var before := RefilledAt(last, times[..|times| - 1]);
      if times[|times| - 1] > before then times[|times| - 1] else before
  }

  /** Every call comes less than a millisecond after the refill before it. */
  predicate Crowded(last: int, times: seq<int>) {
    forall i | 0 <= i < |times| :: times[i] - RefilledAt(last, times[..i]) < NS_PER_MS
  }

  /** The extreme case: calls that come faster than one a millisecond keep their bucket from
      ever refilling, whatever the rate and however long they go on. */
  lemma {:induction false} CrowdedNeverRefills(cfg: Config, b: Bucket, times: seq<int>)
    requires b.tokens <= Burst(cfg) && Crowded(b.lastRefill, times)
    ensures var now := After(cfg, Some(b), times);
            && now.Some? && now.value.lastRefill == RefilledAt(b.lastRefill, times)
            && now.value.tokens + Admitted(cfg, Some(b), times) as real == b.tokens
  {
    var n := |times|;
    if n > 0 {
      var before := times[..n - 1];
      assert forall i | 0 <= i < n - 1 :: before[..i] == times[..i];
      CrowdedNeverRefills(cfg, b, before);
      var now := After(cfg, Some(b), before).value;
      assert times[n - 1] - now.lastRefill < NS_PER_MS;
      WorthOfNothing(cfg.tokensPerMinute);
      assert times[n - 1] > now.lastRefill ==> WholeMs(now.lastRefill, times[n - 1]) == 0;
      hide Worth;
    }
  }

  // ---- the whole limiter --------------------------------------------------------------------

  datatype Limiter = Limiter(buckets: map<string, Bucket>, nextGcAt: int)
  datatype Call = Call(key: string, at: int)

  const FRESH := Limiter(map[], 0)

  predicate Evictable(cfg: Config, b: Bucket, t: int) {
    t - b.lastUsed > cfg.evictionAfter && b.tokens >= Burst(cfg)
  }

  function EvictIdle(cfg: Config, s: Limiter, t: int): Limiter {
    if t < s.nextGcAt then s
    else Limiter(map key | key in s.buckets && !Evictable(cfg, s.buckets[key], t) :: s.buckets[key],
                 t + 60 * NS_PER_SECOND)
  }

  function Found(s: Limiter, key: string): Option<Bucket> {
    if key in s.buckets then Some(s.buckets[key]) else None
  }

  function Step(cfg: Config, s: Limiter, c: Call): (Limiter, bool) {
    var s1 := EvictIdle(cfg, s, c.at);
    var (b, ok) := Use(cfg, Found(s1, c.key), c.at);
    (s1.(buckets := s1.buckets[c.key := b]), ok)
  }

  /** The limiter that never evicts. */
  function StepKeeping(cfg: Config, s: Limiter, c: Call): (Limiter, bool) {
    var (b, ok) := Use(cfg, Found(s, c.key), c.at);
    (s.(buckets := s.buckets[c.key := b]), ok)
  }

  function Run(cfg: Config, calls: seq<Call>): Limiter {
    if calls == [] then FRESH
    else Step(cfg, Run(cfg, calls[..|calls| - 1]), calls[|calls| - 1]).0
  }

  function RunKeeping(cfg: Config, calls: seq<Call>): Limiter {
    if calls == [] then FRESH
    else StepKeeping(cfg, RunKeeping(cfg, calls[..|calls| - 1]), calls[|calls| - 1]).0
  }

  function TimesOf(calls: seq<Call>, key: string): seq<int> {
    if calls == [] then []
    else
      TimesOf(calls[..|calls| - 1], key)
      + if calls[|calls| - 1].key == key then [calls[|calls| - 1].at] else []
  }

  function Actors(calls: seq<Call>): set<string> {
    set i | 0 <= i < |calls| :: calls[i].key
  }

  /** The bucket of a user and that of an address. */
  function UserKey(userId: int): string {
    "u:" + Decimal.Text(userId)
  }

  function IpKey(ip: string): string {
    "i:" + ip
  }

  /** Nobody shares a bucket with anybody. */
  lemma KeysApart(user: int, other: int, ip: string, otherIp: string)
    ensures UserKey(user) == UserKey(other) <==> user == other
    ensures IpKey(ip) == IpKey(otherIp) <==> ip == otherIp
    ensures UserKey(user) != IpKey(ip)
  {
    if UserKey(user) == UserKey(other) {
      assert UserKey(user)[2..] == Decimal.Text(user) && UserKey(other)[2..] == Decimal.Text(other);
      Decimal.TextInjective(user, other);
    }
    assert IpKey(ip)[2..] == ip && IpKey(otherIp)[2..] == otherIp;
    assert UserKey(user)[0] == 'u' && IpKey(ip)[0] == 'i';
  }

  /** Between calls no bucket is full. */
  predicate NoneFull(cfg: Config, s: Limiter) {
    forall key | key in s.buckets :: s.buckets[key].tokens < Burst(cfg)
  }

  lemma UseNotFull(cfg: Config, found: Option<Bucket>, t: int)
    requires cfg.burstCapacity >= 1 && Sane(cfg, found)
    ensures Use(cfg, found, t).0.tokens < Burst(cfg)
  {
    hide Worth, WholeMs;
  }

  lemma NothingToEvict(cfg: Config, s: Limiter, t: int)
    requires NoneFull(cfg, s)
    ensures EvictIdle(cfg, s, t).buckets == s.buckets
  {
    assert forall key | key in s.buckets :: s.buckets[key].tokens < Burst(cfg);
  }

  /** With a burst of at least one the collection never erases anything: the buckets are one
      for each actor ever seen, and the limiter is the one that never evicts. */
  lemma {:induction false} NothingIsEverEvicted(cfg: Config, calls: seq<Call>)
    requires cfg.burstCapacity >= 1
    ensures NoneFull(cfg, Run(cfg, calls))
    ensures Run(cfg, calls).buckets == RunKeeping(cfg, calls).buckets
    ensures Run(cfg, calls).buckets.Keys == Actors(calls)
  {
    hide Use, Evictable;
    if calls != [] {
      var before, c := calls[..|calls| - 1], calls[|calls| - 1];
      NothingIsEverEvicted(cfg, before);
      var s := Run(cfg, before);
      NothingToEvict(cfg, s, c.at);
      UseNotFull(cfg, Found(s, c.key), c.at);
      assert Actors(calls) == Actors(before) + {c.key};
    }
  }

  /** An actor's bucket is what its own calls made of it; nobody else's matter. */
  lemma {:induction false} ActorsAreApart(cfg: Config, calls: seq<Call>, key: string)
    ensures Found(RunKeeping(cfg, calls), key) == After(cfg, None, TimesOf(calls, key))
  {
    hide Use;
    if calls != [] {
      var before, c := calls[..|calls| - 1], calls[|calls| - 1];
      ActorsAreApart(cfg, before, key);
      var times := TimesOf(before, key);
      assert (times + [c.at])[..|times|] == times;
      assert c.key != key ==> TimesOf(calls, key) == times;
    }
  }

  /** The collection is invisible: whatever the configuration and the run, a call is answered
      as by the limiter that never evicts, that is, by the actor's own earlier calls alone. */
  lemma CollectionIsInvisible(cfg: Config, calls: seq<Call>, c: Call)
    ensures Step(cfg, Run(cfg, calls), c).1 == StepKeeping(cfg, RunKeeping(cfg, calls), c).1
    ensures Step(cfg, Run(cfg, calls), c).1 == Use(cfg, After(cfg, None, TimesOf(calls, c.key)), c.at).1
  {
    hide Use, Evictable, Run, RunKeeping, TimesOf, After;
    ActorsAreApart(cfg, calls, c.key);
    if cfg.burstCapacity >= 1 {
      NothingIsEverEvicted(cfg, calls);
      NothingToEvict(cfg, Run(cfg, calls), c.at);
    } else {
      BucketsSane(cfg, calls);
      RejectsWithoutBurst(cfg, Found(EvictIdle(cfg, Run(cfg, calls), c.at), c.key), c.at);
      KeptBucketsSane(cfg, calls);
      RejectsWithoutBurst(cfg, Found(RunKeeping(cfg, calls), c.key), c.at);
    }
  }

  lemma RejectsWithoutBurst(cfg: Config, found: Option<Bucket>, t: int)
    requires cfg.burstCapacity < 1 && Sane(cfg, found)
    ensures !Use(cfg, found, t).1
  {
    hide Worth, WholeMs;
  }

  lemma UseSane(cfg: Config, found: Option<Bucket>, t: int)
    requires Sane(cfg, found)
    ensures Use(cfg, found, t).0.tokens <= Burst(cfg)
  {
    hide Worth, WholeMs;
  }

  predicate AllSane(cfg: Config, s: Limiter) {
    forall key | key in s.buckets :: s.buckets[key].tokens <= Burst(cfg)
  }

  lemma {:induction false} BucketsSane(cfg: Config, calls: seq<Call>)
    ensures AllSane(cfg, Run(cfg, calls))
  {
    hide Use, Evictable;
    if calls != [] {
      var before, c := calls[..|calls| - 1], calls[|calls| - 1];
      BucketsSane(cfg, before);
      UseSane(cfg, Found(EvictIdle(cfg, Run(cfg, before), c.at), c.key), c.at);
    }
  }

  lemma {:induction false} KeptBucketsSane(cfg: Config, calls: seq<Call>)
    ensures AllSane(cfg, RunKeeping(cfg, calls))
  {
    hide Use;
    if calls != [] {
      var before, c := calls[..|calls| - 1], calls[|calls| - 1];
      KeptBucketsSane(cfg, before);
      UseSane(cfg, Found(RunKeeping(cfg, before), c.key), c.at);
    }
  }

  /** A bucket full to the brim answers like an absent one, and leaves the same bucket behind,
      exactly when the call is not from before its last refill (and, for a rate below zero,
      no whole millisecond has passed). */
  lemma FullIsLikeAbsent(cfg: Config, b: Bucket, t: int)
    requires b.tokens == Burst(cfg)
    ensures Use(cfg, Some(b), t) == Use(cfg, None, t) <==>
      b.lastRefill <= t && (cfg.tokensPerMinute >= 0 || WholeMs(b.lastRefill, t) == 0)
  {
    var rate := cfg.tokensPerMinute;
    if t > b.lastRefill {
      var whole := WholeMs(b.lastRefill, t);
      WholeMsBounds(b.lastRefill, t);
      if rate >= 0 {
        WorthGrows(rate, 0.0, whole as real);
        WorthOfNothing(rate);
      } else if whole > 0 {
        assert rate as real * whole as real <= -1.0 * whole as real;
      }
    }
  }

  // ---- the limiter as it runs -----------------------------------------------------------------

  class AuditRateLimiter {
    const cfg: Config
    var buckets: map<string, Bucket>
    var nextGcAt: int
    var allowed: nat
    var rejected: nat

    function State(): Limiter
      reads this
    {
      Limiter(buckets, nextGcAt)
    }

    constructor (cfg: Config)
      ensures this.cfg == cfg && State() == FRESH && allowed == rejected == 0
    {
      this.cfg := cfg;
      buckets := map[];
      nextGcAt := 0;
      allowed, rejected := 0, 0;
    }

    /** Walks over the buckets in whatever order and drops the idle full ones. */
    method Evict(t: int)
      modifies this`buckets, this`nextGcAt
      ensures State() == EvictIdle(cfg, old(State()), t)
      ensures t < old(nextGcAt) ==> State() == old(State())
      ensures t >= old(nextGcAt) ==> nextGcAt == t + 60_000_000_000
      ensures forall key :: key in buckets ==> key in old(buckets) && buckets[key] == old(buckets)[key]
      ensures t >= old(nextGcAt) ==>
                forall key :: key in old(buckets) ==>
                  (key !in buckets <==> && t - old(buckets)[key].lastUsed > cfg.evictionAfter
                                        && old(buckets)[key].tokens >= cfg.burstCapacity as real)
    {
      if t < nextGcAt {
        return;
      }
      hide Evictable;
      ghost var before := buckets;
      var left := buckets.Keys;
      while left != {}
        invariant left <= before.Keys && before.Keys - buckets.Keys <= before.Keys - left
        invariant forall key | key in buckets :: key in before && buckets[key] == before[key]
        invariant forall key | key in before :: key in buckets <==> key in left || !Evictable(cfg, before[key], t)
        decreases |left|
      {
        var key :| key in left;
        left := left - {key};
        if t - buckets[key].lastUsed > cfg.evictionAfter && buckets[key].tokens >= Burst(cfg) {
          EvictableMeans(cfg, buckets[key], t);
          buckets := buckets - {key};
        } else {
          EvictableMeans(cfg, buckets[key], t);
        }
      }
      nextGcAt := t + 60 * NS_PER_SECOND;
    }

    method TryAcquire(key: string, t: int) returns (ok: bool)
      modifies this
      ensures (State(), ok) == Step(cfg, old(State()), Call(key, t))
      ensures allowed == old(allowed) + (if ok then 1 else 0)
      ensures rejected == old(rejected) + (if ok then 0 else 1)
      ensures key in buckets && buckets[key].lastUsed == t
      ensures forall other | other != key && other in buckets ::
                other in old(buckets) && buckets[other] == old(buckets)[other]
    {
      hide Evictable, Refill;
      Evict(t);
      ghost var kept := buckets;
      if key !in buckets {
        buckets := buckets[key := NewBucket(cfg, t)];
      }
      buckets := buckets[key := Refill(cfg, buckets[key], t)];
      buckets := buckets[key := buckets[key].(lastUsed := t)];
      assert buckets == kept[key := buckets[key]];
      if buckets[key].tokens < 1.0 {
        rejected := rejected + 1;
        return false;
      }
      buckets := buckets[key := buckets[key].(tokens := buckets[key].tokens - 1.0)];
      assert buckets == kept[key := buckets[key]];
      allowed := allowed + 1;
      ok := true;
    }
  }

  lemma EvictableMeans(cfg: Config, b: Bucket, t: int)
    ensures Evictable(cfg, b, t) <==> t - b.lastUsed > cfg.evictionAfter && b.tokens >= Burst(cfg)
  {
  }
}
