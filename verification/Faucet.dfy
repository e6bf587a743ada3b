/**
 The testnet faucet (`faucet.rs`): a fixed-window limiter with a per-address cooldown and two
 places that purge cooldown entries.  Clock readings, captcha checks and the outcome of
 crediting the wallet are inputs.
 */
module Faucet {
  import opened Bytes
  import opened MapSums

  const HOUR: int := 3_600_000_000_000
  const DAY: int := 24 * HOUR
  const RETENTION: int := 48 * HOUR

  datatype Config = Config(
    dripAmount: U64,
    cooldownHours: U32,
    dailyLimit: U32,
    maxRequestsPerIp: U32,
    cleanupIntervalHours: U32)
  {
    function Cooldown(): int { cooldownHours * HOUR }
    function CleanupInterval(): int { cleanupIntervalHours * HOUR }
  }

  datatype State = State(
    addressLimits: map<string, int>,
    ipLimits: map<string, nat>,
    dailyCount: nat,
    lastDailyReset: int,
    totalDistributed: U64)

  /**
   A request with its clock readings: at the daily reset, at the cooldown check, when the grant
   is recorded and when the response is built.
   */
  datatype Request = Request(
    resetAt: int,
    checkAt: int,
    grantAt: int,
    respondAt: int,
    address: string,
    ip: Option<string>,
    admitted: bool,
    credited: bool)

  datatype Response =
    | Granted(amount: U64, nextAvailable: int, remaining: nat)
    | NotAdmitted
    | DailyLimitReached(resetTime: int)
    | IpRateLimitExceeded(max: nat)
    | RateLimited(retryAfter: int)
    | CreditFailed

  // ---------- the reference transitions ----------

  function Fresh(now: int): State {
    State(map[], map[], 0, now, 0)
  }

  function ResetDue(s: State, now: int): bool {
    now - s.lastDailyReset >= DAY
  }

  /** `maybe_reset_daily`. */
  function Reset(s: State, now: int): State {
    if ResetDue(s, now) then
      State(map a | a in s.addressLimits && now - s.addressLimits[a] < RETENTION :: s.addressLimits[a],
            map[], 0, now, s.totalDistributed)
    else s
  }

  function IpCount(s: State, ip: string): nat {
    if ip in s.ipLimits then s.ipLimits[ip] else 0
  }

  function CoolingDown(c: Config, s: State, address: string, now: int): bool {
    address in s.addressLimits && now - s.addressLimits[address] < c.Cooldown()
  }

  function Touch(s: State, ip: Option<string>): State {
    if ip.Some? && ip.value !in s.ipLimits then s.(ipLimits := s.ipLimits[ip.value := 0]) else s
  }

  function Decide(c: Config, s: State, r: Request): Response {
    if s.dailyCount >= c.dailyLimit then DailyLimitReached(s.lastDailyReset + DAY)
    else if r.ip.Some? && IpCount(s, r.ip.value) >= c.maxRequestsPerIp then IpRateLimitExceeded(c.maxRequestsPerIp)
    else if CoolingDown(c, s, r.address, r.checkAt) then RateLimited(s.addressLimits[r.address] + c.Cooldown())
    else if !r.credited then CreditFailed
    else Granted(c.dripAmount, r.respondAt + c.Cooldown(), c.dailyLimit - s.dailyCount - 1)
  }

  function Grant(c: Config, s: State, r: Request): State {
    State(
      s.addressLimits[r.address := r.grantAt],
      if r.ip.Some? then s.ipLimits[r.ip.value := IpCount(s, r.ip.value) + 1] else s.ipLimits,
      s.dailyCount + 1,
      s.lastDailyReset,
      WrappingAdd(s.totalDistributed, c.dripAmount))
  }

  /** `request_tokens`. */
  function Serve(c: Config, s: State, r: Request): (State, Response) {
    if !r.admitted then (s, NotAdmitted)
    else
      var s1 := Reset(s, r.resetAt);
      var response := Decide(c, s1, r);
      if response.Granted? then (Grant(c, s1, r), response)
      else if response.DailyLimitReached? then (s1, response)
      else (Touch(s1, r.ip), response)
  }

  /** `cleanup_old_entries`. */
  function Cleanup(c: Config, s: State, now: int): State {
    s.(addressLimits :=
         map a | a in s.addressLimits && s.addressLimits[a] > now - c.CleanupInterval() :: s.addressLimits[a])
  }

  datatype Eligibility =
    | Available(amount: U64)
    | CooldownActive(next: int)
    | IpLimitReached(count: nat, max: nat, next: int)
    | DailyLimitHit(next: int)

  /** `check_eligibility`: cooldown, IP and daily limit, in this order, without a daily reset. */
  function Check(c: Config, s: State, address: string, ip: Option<string>, now: int): Eligibility {
    if CoolingDown(c, s, address, now) then CooldownActive(s.addressLimits[address] + c.Cooldown())
    else if ip.Some? && ip.value in s.ipLimits && s.ipLimits[ip.value] >= c.maxRequestsPerIp then
      IpLimitReached(s.ipLimits[ip.value], c.maxRequestsPerIp, s.lastDailyReset + DAY)
    else if s.dailyCount >= c.dailyLimit then DailyLimitHit(s.lastDailyReset + DAY)
    else Available(c.dripAmount)
  }

  predicate Eligible(c: Config, s: State, address: string, ip: Option<string>, now: int) {
    Check(c, s, address, ip, now).Available?
  }

  // ---------- what a request gets, in terms of the state before it ----------

  const DAY_NANOS: int := 86_400_000_000_000

  predicate NewDay(s: State, r: Request) {
    r.resetAt - s.lastDailyReset >= DAY_NANOS
  }

  /** An address is remembered unless a new day finds it two days old. */
  predicate Remembers(s: State, r: Request, address: string) {
    address in s.addressLimits && !(NewDay(s, r) && r.resetAt - s.addressLimits[address] >= 2 * DAY_NANOS)
  }

  function GrantedToday(s: State, r: Request): nat {
    if NewDay(s, r) then 0 else s.dailyCount
  }

  function GrantedToIp(s: State, r: Request, ip: string): nat {
    if NewDay(s, r) || ip !in s.ipLimits then 0 else s.ipLimits[ip]
  }

  function DayStart(s: State, r: Request): int {
    if NewDay(s, r) then r.resetAt else s.lastDailyReset
  }

  /** Refusals in the order daily limit, IP limit, cooldown; each names its limit or the time it ends. */
  ghost predicate AnsweredBy(c: Config, s: State, r: Request, response: Response) {
    var cooldown := c.cooldownHours * 3_600_000_000_000;
    if !r.admitted then response == NotAdmitted
    else if GrantedToday(s, r) >= c.dailyLimit then response == DailyLimitReached(DayStart(s, r) + DAY_NANOS)
    else if r.ip.Some? && GrantedToIp(s, r, r.ip.value) >= c.maxRequestsPerIp then response == IpRateLimitExceeded(c.maxRequestsPerIp)
    else if Remembers(s, r, r.address) && r.checkAt - s.addressLimits[r.address] < cooldown then
      response == RateLimited(s.addressLimits[r.address] + cooldown)
    else if !r.credited then response == CreditFailed
    else response == Granted(c.dripAmount, r.respondAt + cooldown, c.dailyLimit - GrantedToday(s, r) - 1)
  }

  /** A grant counts for the day, for its IP and for its address; a refusal counts for nothing. */
  ghost predicate CountedBy(c: Config, s: State, s': State, r: Request, granted: bool) {
    if !r.admitted then s' == s
    else
      && s'.lastDailyReset == DayStart(s, r)
      && s'.dailyCount == GrantedToday(s, r) + (if granted then 1 else 0)
      && s'.totalDistributed == (s.totalDistributed + if granted then c.dripAmount else 0) % U64_MODULUS
      && (forall ip :: IpCount(s', ip) == GrantedToIp(s, r, ip) + if granted && r.ip == Some(ip) then 1 else 0)
      && (forall a :: a in s'.addressLimits <==> Remembers(s, r, a) || (granted && a == r.address))
      && (forall a | a in s'.addressLimits ::
            s'.addressLimits[a] == if granted && a == r.address then r.grantAt else s.addressLimits[a])
  }

  lemma {:induction false} ResetMeans(s: State, r: Request)
    ensures var s1 := Reset(s, r.resetAt);
            && s1.lastDailyReset == DayStart(s, r) && s1.dailyCount == GrantedToday(s, r) && s1.totalDistributed == s.totalDistributed
            && (forall ip :: IpCount(s1, ip) == GrantedToIp(s, r, ip))
            && (forall a :: a in s1.addressLimits <==> Remembers(s, r, a))
            && (forall a | a in s1.addressLimits :: s1.addressLimits[a] == s.addressLimits[a])
  {
  }

  /** Every request is answered and counted as the limits say. */
  lemma {:induction false} RequestMeans(c: Config, s: State, r: Request)
    ensures AnsweredBy(c, s, r, Serve(c, s, r).1)
    ensures CountedBy(c, s, Serve(c, s, r).0, r, Serve(c, s, r).1.Granted?)
  {
    ResetMeans(s, r);
    hide Reset, GrantedToday, GrantedToIp, Remembers, DayStart;
  }

  /** An IP that has reached its limit is refused for that reason as long as the day's limit is open. */
  lemma {:induction false} FullIpIsRefused(c: Config, s: State, r: Request)
    requires r.admitted && r.ip.Some? && GrantedToday(s, r) < c.dailyLimit
    ensures GrantedToIp(s, r, r.ip.value) >= c.maxRequestsPerIp <==> Serve(c, s, r).1 == IpRateLimitExceeded(c.maxRequestsPerIp)
  {
    hide Serve, GrantedToday, GrantedToIp, Remembers, DayStart;
    RequestMeans(c, s, r);
  }

  // ---------- the faucet object ----------

  class Service {
    const config: Config
    var addressLimits: map<string, int>
    var ipLimits: map<string, nat>
    var dailyCount: nat
    var lastDailyReset: int
    var totalDistributed: U64

    function View(): State
      reads this
    {
      State(addressLimits, ipLimits, dailyCount, lastDailyReset, totalDistributed)
    }

    constructor (config: Config, now: int)
      ensures this.config == config && View() == Fresh(now)
    {
      this.config := config;
      addressLimits, ipLimits, dailyCount, lastDailyReset, totalDistributed := map[], map[], 0, now, 0;
    }

    method MaybeResetDaily(now: int)
      modifies this
      ensures View() == Reset(old(View()), now)
      ensures now - old(lastDailyReset) < DAY_NANOS ==> View() == old(View())
      ensures now - old(lastDailyReset) >= DAY_NANOS ==>
        && dailyCount == 0 && ipLimits == map[] && lastDailyReset == now && totalDistributed == old(totalDistributed)
        && (forall a :: a in addressLimits <==> a in old(addressLimits) && now - old(addressLimits)[a] < 2 * DAY_NANOS)
        && forall a | a in addressLimits :: addressLimits[a] == old(addressLimits)[a]
    {
      if now - lastDailyReset >= DAY {
        dailyCount := 0;
        lastDailyReset := now;
        ipLimits := map[];
        addressLimits := map a | a in addressLimits && now - addressLimits[a] < RETENTION :: addressLimits[a];
      }
    }

    /** `request_tokens`, answered and counted as the limits say. */
    method RequestTokens(r: Request) returns (response: Response)
      modifies this
      ensures AnsweredBy(config, old(View()), r, response)
      ensures CountedBy(config, old(View()), View(), r, response.Granted?)
      ensures (View(), response) == Serve(config, old(View()), r)
    {
      hide *;
      RequestMeans(config, View(), r);
      response := CheckAndGrant(r);
    }

    /** The body of `request_tokens`. */
    method CheckAndGrant(r: Request) returns (response: Response)
      modifies this
      ensures (View(), response) == Serve(config, old(View()), r)
    {
      hide Reset;
      if !r.admitted {
        return NotAdmitted;
      }
      MaybeResetDaily(r.resetAt);
      ghost var s := View();
      if dailyCount >= config.dailyLimit {
        return DailyLimitReached(lastDailyReset + DAY);
      }
      if r.ip.Some? {
        if r.ip.value !in ipLimits {
          ipLimits := ipLimits[r.ip.value := 0];
        }
        if ipLimits[r.ip.value] >= config.maxRequestsPerIp {
          return IpRateLimitExceeded(config.maxRequestsPerIp);
        }
      }
      if r.address in addressLimits {
        if r.checkAt - addressLimits[r.address] < config.Cooldown() {
          return RateLimited(addressLimits[r.address] + config.Cooldown());
        }
      }
      if !r.credited {
        return CreditFailed;
      }
      addressLimits := addressLimits[r.address := r.grantAt];
      if r.ip.Some? && r.ip.value in ipLimits {
        ipLimits := ipLimits[r.ip.value := ipLimits[r.ip.value] + 1];
        assert ipLimits == s.ipLimits[r.ip.value := IpCount(s, r.ip.value) + 1];
      }
      dailyCount := dailyCount + 1;
      totalDistributed := WrappingAdd(totalDistributed, config.dripAmount);
      response := Granted(config.dripAmount, r.respondAt + config.Cooldown(), config.dailyLimit - dailyCount);
    }

    method CleanupOldEntries(now: int)
      modifies this
      ensures View() == Cleanup(config, old(View()), now)
      ensures View() == old(View()).(addressLimits := addressLimits)
      ensures forall a :: a in addressLimits <==>
        a in old(addressLimits) && old(addressLimits)[a] > now - config.cleanupIntervalHours * 3_600_000_000_000
      ensures forall a | a in addressLimits :: addressLimits[a] == old(addressLimits)[a]
    {
      var cutoff := now - config.CleanupInterval();
      addressLimits := map a | a in addressLimits && addressLimits[a] > cutoff :: addressLimits[a];
    }

    method CheckEligibility(address: string, ip: Option<string>, now: int) returns (r: Eligibility)
      ensures r == Check(config, View(), address, ip, now)
      ensures var cooldown := config.cooldownHours * 3_600_000_000_000;
              if address in addressLimits && now - addressLimits[address] < cooldown then
                r == CooldownActive(addressLimits[address] + cooldown)
              else if ip.Some? && ip.value in ipLimits && ipLimits[ip.value] >= config.maxRequestsPerIp then
                r == IpLimitReached(ipLimits[ip.value], config.maxRequestsPerIp, lastDailyReset + DAY_NANOS)
              else if dailyCount >= config.dailyLimit then r == DailyLimitHit(lastDailyReset + DAY_NANOS)
              else r == Available(config.dripAmount)
    {
      if address in addressLimits {
        var cooldown := config.Cooldown();
        if now - addressLimits[address] < cooldown {
          return CooldownActive(addressLimits[address] + cooldown);
        }
      }
      if ip.Some? && ip.value in ipLimits && ipLimits[ip.value] >= config.maxRequestsPerIp {
        return IpLimitReached(ipLimits[ip.value], config.maxRequestsPerIp, lastDailyReset + DAY);
      }
      if dailyCount >= config.dailyLimit {
        return DailyLimitHit(lastDailyReset + DAY);
      }
      r := Available(config.dripAmount);
    }
  }

  /** The time in a refusal is the first at which its reason no longer holds. */
  lemma {:induction false} NextTimeIsExact(c: Config, s: State, address: string, ip: Option<string>, now: int, t: int)
    ensures match Check(c, s, address, ip, now)
            case Available(_) => true
            case CooldownActive(next) => now < next && (CoolingDown(c, s, address, t) <==> t < next)
            case IpLimitReached(_, _, next) => ResetDue(s, t) <==> t >= next
            case DailyLimitHit(next) => ResetDue(s, t) <==> t >= next
  {
  }

  /**
   The eligibility check skips the daily reset that a request performs first, and lets an IP
   address pass that has no entry yet even when the IP limit is zero.  With both taken into
   account it predicts the request exactly.
   */
  lemma {:induction false} EligibilityPredictsRequest(c: Config, s: State, r: Request)
    requires r.admitted && r.credited && r.checkAt == r.resetAt
    ensures Serve(c, s, r).1.Granted?
       <==> Eligible(c, Reset(s, r.resetAt), r.address, r.ip, r.checkAt) && (r.ip.None? || c.maxRequestsPerIp > 0)
    ensures !ResetDue(s, r.resetAt) ==> Reset(s, r.resetAt) == s
  {
    hide Grant, Touch;
  }

  /** A stale refusal: a day after the limit was reached the check still says no, the request succeeds. */
  lemma {:induction false} EligibilityCanBeStale(c: Config, s: State, r: Request)
    requires r.admitted && r.credited && r.ip.None? && r.address !in s.addressLimits
    requires 0 < c.dailyLimit <= s.dailyCount && ResetDue(s, r.resetAt)
    ensures Serve(c, s, r).1.Granted? && !Eligible(c, s, r.address, r.ip, r.checkAt)
  {
  }

  // ---------- runs ----------

  datatype Event = Ask(request: Request) | Sweep(at: int)

  function StartsAt(e: Event): int {
    match e case Ask(r) => r.resetAt case Sweep(t) => t
  }

  function EndsAt(e: Event): int {
    match e case Ask(r) => r.respondAt case Sweep(t) => t
  }

  predicate Ticks(e: Event) {
    e.Ask? ==> e.request.resetAt <= e.request.checkAt <= e.request.grantAt <= e.request.respondAt
  }

  /** A grant as it is remembered by an observer: who, when, in which daily period and from where. */
  datatype Record = Record(address: string, at: int, period: nat, ip: Option<string>)

  /** The faucet together with what an observer has seen. */
  datatype History = History(state: State, grants: seq<Record>, resets: seq<int>)

  function Begin(now: int): History {
    History(Fresh(now), [], [now])
  }

  function Advance(c: Config, h: History, e: Event): (h': History)
    requires |h.resets| > 0
    ensures |h'.resets| > 0
  {
    match e
    case Sweep(t) => h.(state := Cleanup(c, h.state, t))
    case Ask(r) =>
      var (s, response) := Serve(c, h.state, r);
      var resets := if r.admitted && ResetDue(h.state, r.resetAt) then h.resets + [r.resetAt] else h.resets;
      var grants := if response.Granted? then h.grants + [Record(r.address, r.grantAt, |resets| - 1, r.ip)] else h.grants;
      History(s, grants, resets)
  }

  /** The history after a list of events, the last one most recent. */
  function Play(c: Config, start: int, events: seq<Event>): (h: History)
    ensures |h.resets| > 0
  {
    if events == [] then Begin(start)
    else Advance(c, Play(c, start, events[..|events| - 1]), events[|events| - 1])
  }

  function Clock(start: int, events: seq<Event>): int {
    if events == [] then start else EndsAt(events[|events| - 1])
  }

  /** The clock never runs backwards, within an event or between events. */
  ghost predicate Monotone(start: int, events: seq<Event>) {
    events != [] ==>
      var n := |events| - 1;
      Monotone(start, events[..n]) && Ticks(events[n]) && Clock(start, events[..n]) <= StartsAt(events[n])
  }

  // ---------- counting ----------

  ghost function CountPeriod(grants: seq<Record>, p: nat): nat {
    if grants == [] then 0
    else
      var n := |grants| - 1;
      CountPeriod(grants[..n], p) + if grants[n].period == p then 1 else 0
  }

  /** Grants within the half-open day that begins at `from`. */
  ghost function CountDay(grants: seq<Record>, from: int): nat {
    if grants == [] then 0
    else
      var n := |grants| - 1;
      CountDay(grants[..n], from) + if from <= grants[n].at < from + DAY then 1 else 0
  }

  // ---------- the limiter's invariant ----------

  ghost predicate Timeline(h: History, now: int) {
    && |h.resets| > 0
    && h.state.lastDailyReset == h.resets[|h.resets| - 1] <= now
    && (forall p | 0 <= p < |h.resets| - 1 :: h.resets[p] + DAY <= h.resets[p + 1])
    && (forall i | 0 <= i < |h.grants| :: InPeriod(h, h.grants[i], now))
  }

  ghost predicate InPeriod(h: History, g: Record, now: int) {
    && g.period < |h.resets|
    && h.resets[g.period] <= g.at <= now
    && (g.period + 1 < |h.resets| ==> g.at <= h.resets[g.period + 1])
  }

  ghost predicate Counters(c: Config, h: History) {
    && h.state.dailyCount <= c.dailyLimit
    && |h.resets| > 0 && CountPeriod(h.grants, |h.resets| - 1) == h.state.dailyCount
    && (forall p: nat :: CountPeriod(h.grants, p) <= c.dailyLimit)
    && (forall p: nat | p >= |h.resets| :: CountPeriod(h.grants, p) == 0)
    && (forall ip | ip in h.state.ipLimits :: h.state.ipLimits[ip] <= c.maxRequestsPerIp)
    && Sum(h.state.ipLimits) <= h.state.dailyCount
    && h.state.totalDistributed == (c.dripAmount * |h.grants|) % U64_MODULUS
  }

  lemma {:induction false} TimelineStep(c: Config, h: History, now: int, e: Event)
    requires Timeline(h, now) && Ticks(e) && now <= StartsAt(e)
    ensures Timeline(Advance(c, h, e), EndsAt(e))
  {
    hide Decide, Grant, Touch, InPeriod;
    var h' := Advance(c, h, e);
    KeepsReset(c, h, e);
    forall i | 0 <= i < |h'.grants|
      ensures InPeriod(h', h'.grants[i], EndsAt(e))
    {
      if i < |h.grants| {
        assert h'.grants[i] == h.grants[i];
        assert InPeriod(h, h.grants[i], now);
        InPeriodLater(h, h', h.grants[i], now, e);
      } else {
        NewGrantInPeriod(h', h'.grants[i], EndsAt(e));
      }
    }
  }

  lemma KeepsReset(c: Config, h: History, e: Event)
    requires |h.resets| > 0 && h.state.lastDailyReset == h.resets[|h.resets| - 1]
    ensures var h' := Advance(c, h, e);
            h'.state.lastDailyReset == h'.resets[|h'.resets| - 1]
  {
    hide Decide;
  }

  lemma InPeriodLater(h: History, h': History, g: Record, now: int, e: Event)
    requires InPeriod(h, g, now) && Ticks(e) && now <= StartsAt(e)
    requires h'.resets == h.resets || h'.resets == h.resets + [StartsAt(e)]
    ensures InPeriod(h', g, EndsAt(e))
  {
  }

  lemma NewGrantInPeriod(h: History, g: Record, now: int)
    requires |h.resets| > 0 && g.period == |h.resets| - 1 && h.resets[g.period] <= g.at <= now
    ensures InPeriod(h, g, now)
  {
  }

  lemma {:induction false} CountPeriodAppend(grants: seq<Record>, g: Record, p: nat)
    ensures CountPeriod(grants + [g], p) == CountPeriod(grants, p) + if g.period == p then 1 else 0
  {
    assert (grants + [g])[..|grants|] == grants;
  }

  lemma {:induction false} TotalStep(drip: U64, n: nat)
    ensures WrappingAdd((drip * n) % U64_MODULUS, drip) == (drip * (n + 1)) % U64_MODULUS
  {
    assert drip * (n + 1) == drip * n + drip;
  }

  lemma {:induction false} CountersStep(c: Config, h: History, e: Event)
    requires Counters(c, h)
    ensures Counters(c, Advance(c, h, e))
  {
    hide Sum, CountPeriod, WrappingAdd;
    match e {
      case Sweep(_) =>
      case Ask(r) =>
        if r.admitted {
          var h1 := ResetHistory(h, r.resetAt);
          ResetKeepsCounters(c, h, r.resetAt);
          var response := Decide(c, h1.state, r);
          if response.Granted? {
            GrantKeepsCounters(c, h1, r);
          } else if !response.DailyLimitReached? {
            TouchKeepsCounters(c, h1, r.ip);
          }
        }
    }
  }

  /** The history right after the daily reset of a request. */
  function ResetHistory(h: History, now: int): History {
    History(Reset(h.state, now), h.grants, if ResetDue(h.state, now) then h.resets + [now] else h.resets)
  }

  lemma {:induction false} ResetKeepsCounters(c: Config, h: History, now: int)
    requires Counters(c, h)
    ensures Counters(c, ResetHistory(h, now))
  {
    hide CountPeriod, SumOver;
    var none: map<string, nat> := map[];
    assert Sum(none) == 0 by { NothingSums<string>(); }
  }

  lemma NothingSums<K>()
    ensures Sum<K>(map[]) == 0
  {
  }

  lemma {:induction false} GrantKeepsCounters(c: Config, h: History, r: Request)
    requires Counters(c, h) && Decide(c, h.state, r).Granted?
    ensures Counters(c, History(Grant(c, h.state, r), h.grants + [Record(r.address, r.grantAt, |h.resets| - 1, r.ip)], h.resets))
  {
    hide Sum, CountPeriod, WrappingAdd;
    var g := Record(r.address, r.grantAt, |h.resets| - 1, r.ip);
    forall p: nat
      ensures CountPeriod(h.grants + [g], p) == CountPeriod(h.grants, p) + if g.period == p then 1 else 0
    {
      CountPeriodAppend(h.grants, g, p);
    }
    TotalStep(c.dripAmount, |h.grants|);
    if r.ip.Some? {
      SumUpdate(h.state.ipLimits, r.ip.value, IpCount(h.state, r.ip.value) + 1);
    }
  }

  lemma {:induction false} TouchKeepsCounters(c: Config, h: History, ip: Option<string>)
    requires Counters(c, h)
    ensures Counters(c, h.(state := Touch(h.state, ip)))
  {
    hide Sum, CountPeriod;
    if ip.Some? && ip.value !in h.state.ipLimits {
      SumUpdate(h.state.ipLimits, ip.value, 0);
    }
  }

  lemma {:induction false} RunInvariant(c: Config, start: int, events: seq<Event>)
    requires Monotone(start, events)
    ensures Timeline(Play(c, start, events), Clock(start, events))
    ensures Counters(c, Play(c, start, events))
  {
    hide Advance, Timeline, Counters;
    if events == [] {
      BeginInvariant(c, start);
    } else {
      var n := |events| - 1;
      RunInvariant(c, start, events[..n]);
      TimelineStep(c, Play(c, start, events[..n]), Clock(start, events[..n]), events[n]);
      CountersStep(c, Play(c, start, events[..n]), events[n]);
    }
  }

  lemma BeginInvariant(c: Config, start: int)
    ensures Timeline(Begin(start), start) && Counters(c, Begin(start))
  {
    NothingSums<string>();
    assert c.dripAmount * 0 == 0;
  }

  // ---------- the window bound ----------

  lemma {:induction false} EarliestPeriod(grants: seq<Record>, from: int) returns (i: int)
    ensures CountDay(grants, from) == 0 ==> i == -1
    ensures CountDay(grants, from) > 0 ==>
      && 0 <= i < |grants| && from <= grants[i].at < from + DAY
      && forall j | 0 <= j < |grants| && from <= grants[j].at < from + DAY :: grants[i].period <= grants[j].period
    ensures i == -1 ==> forall j | 0 <= j < |grants| :: !(from <= grants[j].at < from + DAY)
  {
    if grants == [] {
      i := -1;
    } else {
      var n := |grants| - 1;
      i := EarliestPeriod(grants[..n], from);
      if from <= grants[n].at < from + DAY && (i == -1 || grants[n].period < grants[i].period) {
        i := n;
      }
    }
  }

  lemma {:induction false} DayWithinTwoPeriods(grants: seq<Record>, from: int, p: nat)
    requires forall j | 0 <= j < |grants| && from <= grants[j].at < from + DAY ::
      grants[j].period == p || grants[j].period == p + 1
    ensures CountDay(grants, from) <= CountPeriod(grants, p) + CountPeriod(grants, p + 1)
  {
    if grants != [] {
      DayWithinTwoPeriods(grants[..|grants| - 1], from, p);
    }
  }

  lemma {:induction false} PeriodsApart(h: History, now: int, p: nat, q: nat)
    requires Timeline(h, now) && p + 1 < q < |h.resets|
    ensures h.resets[p + 1] + DAY <= h.resets[q]
  {
    if p + 2 < q {
      PeriodsApart(h, now, p, q - 1);
    }
    assert h.resets[q - 1] + DAY <= h.resets[(q - 1) + 1];
  }

  // ---------- grants per IP ----------

  ghost function CountIp(grants: seq<Record>, p: nat, ip: string): nat {
    if grants == [] then 0
    else
      var n := |grants| - 1;
      CountIp(grants[..n], p, ip) + if grants[n].period == p && grants[n].ip == Some(ip) then 1 else 0
  }

  lemma {:induction false} CountIpAppend(grants: seq<Record>, g: Record, p: nat, ip: string)
    ensures CountIp(grants + [g], p, ip) == CountIp(grants, p, ip) + if g.period == p && g.ip == Some(ip) then 1 else 0
  {
    assert (grants + [g])[..|grants|] == grants;
  }

  /** The counter of an IP is the number of its grants in the current period, and no period exceeds the limit. */
  ghost predicate IpCounters(c: Config, h: History) {
    && |h.resets| > 0
    && (forall ip :: IpCount(h.state, ip) == CountIp(h.grants, |h.resets| - 1, ip))
    && (forall p: nat, ip :: CountIp(h.grants, p, ip) <= c.maxRequestsPerIp)
    && (forall p: nat, ip | p >= |h.resets| :: CountIp(h.grants, p, ip) == 0)
  }

  lemma {:induction false} IpCountersStep(c: Config, h: History, e: Event)
    requires IpCounters(c, h)
    ensures IpCounters(c, Advance(c, h, e))
  {
    hide CountIp;
    match e {
      case Sweep(t) =>
        assert forall ip :: IpCount(Cleanup(c, h.state, t), ip) == IpCount(h.state, ip);
      case Ask(r) =>
        RequestMeans(c, h.state, r);
        if r.admitted {
          assert NewDay(h.state, r) <==> ResetDue(h.state, r.resetAt);
          IpAfterRequest(c, h, r, Advance(c, h, e));
        }
    }
  }

  lemma {:induction false} IpAfterRequest(c: Config, h: History, r: Request, h': History)
    requires IpCounters(c, h) && r.admitted
    requires h'.resets == if NewDay(h.state, r) then h.resets + [r.resetAt] else h.resets
    requires var granted := Serve(c, h.state, r).1.Granted?;
             && AnsweredBy(c, h.state, r, Serve(c, h.state, r).1) && CountedBy(c, h.state, h'.state, r, granted)
             && h'.grants == if granted then h.grants + [Record(r.address, r.grantAt, |h'.resets| - 1, r.ip)] else h.grants
    ensures IpCounters(c, h')
  {
    hide CountIp, Serve, Remembers;
    var p0 := |h'.resets| - 1;
    forall ip
      ensures GrantedToIp(h.state, r, ip) == CountIp(h.grants, p0, ip)
    {
      assert IpCount(h.state, ip) == CountIp(h.grants, |h.resets| - 1, ip);
    }
    hide GrantedToIp, NewDay;
    var g := Record(r.address, r.grantAt, p0, r.ip);
    forall p: nat, ip
      ensures CountIp(h.grants + [g], p, ip) == CountIp(h.grants, p, ip) + if p0 == p && r.ip == Some(ip) then 1 else 0
    {
      CountIpAppend(h.grants, g, p, ip);
    }
  }

  lemma IpCountersBegin(c: Config, start: int)
    ensures IpCounters(c, Begin(start))
  {
  }

  /** Over every run: no IP gets more than its limit in any period, and its counter counts exactly its grants. */
  lemma {:induction false} IpBound(c: Config, start: int, events: seq<Event>)
    ensures IpCounters(c, Play(c, start, events))
  {
    hide IpCounters, Advance;
    if events == [] {
      IpCountersBegin(c, start);
    } else {
      IpBound(c, start, events[..|events| - 1]);
      IpCountersStep(c, Play(c, start, events[..|events| - 1]), events[|events| - 1]);
    }
  }

  /** Any half-open day of any run contains at most twice the daily limit of grants. */
  lemma {:induction false} DayBound(c: Config, start: int, events: seq<Event>, from: int)
    requires Monotone(start, events)
    ensures CountDay(Play(c, start, events).grants, from) <= 2 * c.dailyLimit
  {
    hide Play, CountDay, CountPeriod, Monotone, Sum;
    RunInvariant(c, start, events);
    var h := Play(c, start, events);
    var i := EarliestPeriod(h.grants, from);
    if i >= 0 {
      var p := h.grants[i].period;
      assert InPeriod(h, h.grants[i], Clock(start, events));
      forall j | 0 <= j < |h.grants| && from <= h.grants[j].at < from + DAY
        ensures h.grants[j].period == p || h.grants[j].period == p + 1
      {
        var q := h.grants[j].period;
        assert InPeriod(h, h.grants[j], Clock(start, events));
        if q > p + 1 {
          PeriodsApart(h, Clock(start, events), p, q);
        }
      }
      DayWithinTwoPeriods(h.grants, from, p);
    }
  }

  // ---------- the cooldown ----------

  /** Two grants to one address are at least the cooldown apart. */
  ghost predicate Spaced(c: Config, grants: seq<Record>) {
    forall i, j | 0 <= i < j < |grants| && grants[i].address == grants[j].address ::
      grants[j].at - grants[i].at >= c.Cooldown()
  }

  /** Neither purge forgets an address before its cooldown is over. */
  predicate PurgesAreLate(c: Config) {
    c.cooldownHours <= 48 && c.cooldownHours <= c.cleanupIntervalHours
  }

  /** Every past grant is still remembered, or is over. */
  ghost predicate Remembered(c: Config, h: History, now: int) {
    && (forall a | a in h.state.addressLimits :: h.state.addressLimits[a] <= now)
    && forall i | 0 <= i < |h.grants| :: Covered(c, h.state, h.grants[i], now)
  }

  ghost predicate Covered(c: Config, s: State, g: Record, now: int) {
    (g.address in s.addressLimits && g.at <= s.addressLimits[g.address]) || now - g.at >= c.Cooldown()
  }

  lemma CoveredByCleanup(c: Config, s: State, g: Record, now: int, t: int)
    requires PurgesAreLate(c) && Covered(c, s, g, now) && now <= t
    ensures Covered(c, Cleanup(c, s, t), g, t)
  {
  }

  lemma CoveredByReset(c: Config, s: State, g: Record, now: int, t: int)
    requires PurgesAreLate(c) && Covered(c, s, g, now) && now <= t
    ensures Covered(c, Reset(s, t), g, t)
  {
  }

  lemma CoveredByServe(c: Config, s: State, r: Request, g: Record, now: int)
    requires PurgesAreLate(c) && Covered(c, s, g, now) && now <= r.resetAt && Ticks(Ask(r))
    requires forall a | a in s.addressLimits :: s.addressLimits[a] <= now
    ensures Covered(c, Serve(c, s, r).0, g, r.respondAt)
  {
    CoveredByReset(c, s, g, now, r.resetAt);
  }

  lemma {:induction false} RememberedStep(c: Config, h: History, now: int, e: Event)
    requires PurgesAreLate(c) && Remembered(c, h, now) && |h.resets| > 0
    requires Ticks(e) && now <= StartsAt(e)
    ensures Remembered(c, Advance(c, h, e), EndsAt(e))
  {
    var h' := Advance(c, h, e);
    forall i | 0 <= i < |h'.grants|
      ensures Covered(c, h'.state, h'.grants[i], EndsAt(e))
    {
      hide Covered;
      if i < |h.grants| {
        assert h'.grants[i] == h.grants[i];
        match e {
          case Sweep(t) => CoveredByCleanup(c, h.state, h.grants[i], now, t);
          case Ask(r) => CoveredByServe(c, h.state, r, h.grants[i], now);
        }
      } else {
        NewlyCovered(c, h'.state, h'.grants[i], EndsAt(e));
      }
    }
  }

  lemma NewlyCovered(c: Config, s: State, g: Record, now: int)
    requires g.address in s.addressLimits && g.at == s.addressLimits[g.address]
    ensures Covered(c, s, g, now)
  {
  }

  lemma {:induction false} SpacedStep(c: Config, h: History, now: int, e: Event)
    requires PurgesAreLate(c) && Remembered(c, h, now) && Spaced(c, h.grants) && |h.resets| > 0
    requires Ticks(e) && now <= StartsAt(e)
    ensures Spaced(c, Advance(c, h, e).grants)
  {
    var h' := Advance(c, h, e);
    if h'.grants != h.grants {
      var r := e.request;
      var g := h'.grants[|h.grants|];
      forall i | 0 <= i < |h.grants| && h.grants[i].address == g.address
        ensures g.at - h.grants[i].at >= c.Cooldown()
      {
        assert Covered(c, h.state, h.grants[i], now);
        CoveredByReset(c, h.state, h.grants[i], now, r.resetAt);
      }
    }
  }

  lemma {:induction false} CooldownInvariant(c: Config, start: int, events: seq<Event>)
    requires PurgesAreLate(c) && Monotone(start, events)
    ensures Remembered(c, Play(c, start, events), Clock(start, events))
    ensures Spaced(c, Play(c, start, events).grants)
  {
    hide Advance, Remembered, Spaced;
    if events == [] {
      NothingGranted(c, start);
    } else {
      var n := |events| - 1;
      CooldownInvariant(c, start, events[..n]);
      RememberedStep(c, Play(c, start, events[..n]), Clock(start, events[..n]), events[n]);
      SpacedStep(c, Play(c, start, events[..n]), Clock(start, events[..n]), events[n]);
    }
  }

  lemma NothingGranted(c: Config, start: int)
    ensures Remembered(c, Begin(start), start) && Spaced(c, Begin(start).grants)
  {
  }

  // ---------- and when it fails ----------

  function AskAt(t: int, address: string): Event {
    Ask(Request(t, t, t, t, address, None, true, true))
  }

  lemma {:induction false} PlayAppend(c: Config, start: int, events: seq<Event>, e: Event)
    ensures Play(c, start, events + [e]) == Advance(c, Play(c, start, events), e)
    ensures Monotone(start, events + [e]) <==> Monotone(start, events) && Ticks(e) && Clock(start, events) <= StartsAt(e)
    ensures Clock(start, events + [e]) == EndsAt(e)
  {
    assert (events + [e])[..|events|] == events;
  }

  lemma {:induction false} FirstGrant(c: Config, t: int)
    requires c.dailyLimit > 0 && 0 <= t < DAY
    ensures var h := Advance(c, Begin(0), AskAt(t, "a"));
            h.grants == [Record("a", t, 0, None)] && h.resets == [0]
            && h.state.addressLimits == map["a" := t] && h.state.lastDailyReset == 0
  {
  }

  /** A request on a later day is granted to an address that the purges have forgotten. */
  lemma {:induction false} GrantOnANewDay(c: Config, h: History, t: int)
    requires c.dailyLimit > 0 && |h.resets| > 0 && ResetDue(h.state, t)
    requires "a" !in Reset(h.state, t).addressLimits
    ensures Advance(c, h, AskAt(t, "a")).grants == h.grants + [Record("a", t, |h.resets|, None)]
  {
  }

  /** A cleanup interval below the cooldown lets an address come back early. */
  lemma {:induction false} EarlySweep(c: Config) returns (events: seq<Event>)
    requires c.dailyLimit > 0 && c.cleanupIntervalHours < c.cooldownHours
    ensures Monotone(0, events) && !Spaced(c, Play(c, 0, events).grants)
  {
    var gap := if c.cleanupIntervalHours == 0 then 1 else c.CleanupInterval();
    var t1 := if gap < DAY then DAY - gap else 0;
    var t2 := t1 + gap;
    var e1, e2, e3 := AskAt(t1, "a"), Sweep(t2), AskAt(t2, "a");
    hide Spaced, Serve;
    PlayAppend(c, 0, [], e1);
    PlayAppend(c, 0, [e1], e2);
    PlayAppend(c, 0, [e1, e2], e3);
    assert [] + [e1] == [e1] && [e1] + [e2] == [e1, e2] && [e1, e2] + [e3] == [e1, e2, e3];
    events := [e1, e2, e3];
    FirstGrant(c, t1);
    GrantOnANewDay(c, Play(c, 0, [e1, e2]), t2);
    assert gap < c.Cooldown();
    TwoGrantsNotSpaced(c, Play(c, 0, events).grants);
  }

  lemma TwoGrantsNotSpaced(c: Config, grants: seq<Record>)
    requires |grants| == 2 && grants[0].address == grants[1].address && grants[1].at - grants[0].at < c.Cooldown()
    ensures !Spaced(c, grants)
  {
  }

  /** A cooldown above 48 hours is forgotten by the daily reset. */
  lemma {:induction false} EarlyReset(c: Config) returns (events: seq<Event>)
    requires c.dailyLimit > 0 && c.cooldownHours > 48
    ensures Monotone(0, events) && !Spaced(c, Play(c, 0, events).grants)
  {
    hide Spaced;
    var e1, e2 := AskAt(0, "a"), AskAt(RETENTION, "a");
    PlayAppend(c, 0, [], e1);
    PlayAppend(c, 0, [e1], e2);
    assert [] + [e1] == [e1] && [e1] + [e2] == [e1, e2];
    events := [e1, e2];
    FirstGrant(c, 0);
    GrantOnANewDay(c, Play(c, 0, [e1]), RETENTION);
    TwoGrantsNotSpaced(c, Play(c, 0, events).grants);
  }

  lemma {:induction false} NoLimitNoGrants(c: Config, start: int, events: seq<Event>)
    requires c.dailyLimit == 0
    ensures Play(c, start, events).grants == []
  {
    if events != [] {
      NoLimitNoGrants(c, start, events[..|events| - 1]);
    }
  }

  /**
   The cooldown promise, exactly: every run of every length keeps two grants to one address a
   cooldown apart if and only if the cooldown is at most 48 hours and at most the cleanup
   interval, or the faucet never grants at all.
   */
  lemma {:induction false} CooldownIffPurgesAreLate(c: Config)
    ensures (forall start: int, events: seq<Event> | Monotone(start, events) :: Spaced(c, Play(c, start, events).grants))
       <==> (PurgesAreLate(c) || c.dailyLimit == 0)
  {
    hide Play, Monotone, Spaced;
    if PurgesAreLate(c) {
      forall start: int, events: seq<Event> | Monotone(start, events)
        ensures Spaced(c, Play(c, start, events).grants)
      {
        CooldownInvariant(c, start, events);
      }
    } else if c.dailyLimit == 0 {
      forall start: int, events: seq<Event> | Monotone(start, events)
        ensures Spaced(c, Play(c, start, events).grants)
      {
        NoLimitNoGrants(c, start, events);
        EmptySpaced(c);
      }
    } else if c.cooldownHours > 48 {
      var events := EarlyReset(c);
    } else {
      var events := EarlySweep(c);
    }
  }

  // ---------- the bound on a day is attained ----------

  function Name(n: nat): (s: string)
    ensures |s| == n
  {
    if n == 0 then [] else Name(n - 1) + ['a']
  }

  /** A full period of requests just before the daily reset, and another right at it, all from new addresses. */
  function Burst(c: Config, n: nat): seq<Event> {
    if n == 0 then [] else Burst(c, n - 1) + [AskAt(BurstTime(c, n), Name(n - 1))]
  }

  function BurstTime(c: Config, n: nat): int {
    if n <= c.dailyLimit then DAY - 1 else DAY
  }

  ghost predicate InBurst(c: Config, h: History, n: nat) {
    && (forall a | a in h.state.addressLimits :: |a| < n)
    && h.state.lastDailyReset == (if n <= c.dailyLimit then 0 else DAY)
    && h.state.dailyCount == (if n <= c.dailyLimit then n else n - c.dailyLimit)
  }

  lemma {:induction false} BurstStep(c: Config, h: History, n: nat)
    requires n < 2 * c.dailyLimit && InBurst(c, h, n) && |h.resets| > 0
    ensures var h' := Advance(c, h, AskAt(BurstTime(c, n + 1), Name(n)));
            InBurst(c, h', n + 1)
            && exists g: Record :: h'.grants == h.grants + [g] && g.at == BurstTime(c, n + 1)
  {
    var t := BurstTime(c, n + 1);
    var s1 := Reset(h.state, t);
    assert Name(n) !in s1.addressLimits;
    assert !CoolingDown(c, s1, Name(n), t);
    var h' := Advance(c, h, AskAt(t, Name(n)));
    var g := h'.grants[|h'.grants| - 1];
    assert h'.grants == h.grants + [g];
  }

  /** What holds of a burst of so many requests. */
  ghost predicate BurstHolds(c: Config, events: seq<Event>, n: nat) {
    && Monotone(0, events) && Clock(0, events) <= BurstTime(c, n)
    && InBurst(c, Play(c, 0, events), n)
    && CountDay(Play(c, 0, events).grants, DAY - 1) == n
  }

  lemma {:induction false} BurstGrows(c: Config, events: seq<Event>, n: nat)
    requires n < 2 * c.dailyLimit && BurstHolds(c, events, n)
    ensures BurstHolds(c, events + [AskAt(BurstTime(c, n + 1), Name(n))], n + 1)
  {
    hide InBurst, Advance, Name, Play, Monotone, CountDay;
    var h := Play(c, 0, events);
    var e := AskAt(BurstTime(c, n + 1), Name(n));
    PlayAppend(c, 0, events, e);
    BurstStep(c, h, n);
    var g: Record :| Advance(c, h, e).grants == h.grants + [g] && g.at == BurstTime(c, n + 1);
    CountDayAppend(h.grants, g, DAY - 1);
  }

  lemma {:induction false} BurstRuns(c: Config, n: nat)
    requires n <= 2 * c.dailyLimit
    ensures BurstHolds(c, Burst(c, n), n)
  {
    hide BurstHolds, BurstTime, Name;
    if n == 0 {
      BurstBegins(c);
    } else {
      BurstRuns(c, n - 1);
      BurstGrows(c, Burst(c, n - 1), n - 1);
    }
  }

  lemma {:induction false} CountDayAppend(grants: seq<Record>, g: Record, from: int)
    ensures CountDay(grants + [g], from) == CountDay(grants, from) + if from <= g.at < from + DAY then 1 else 0
  {
    assert (grants + [g])[..|grants|] == grants;
  }

  lemma BurstBegins(c: Config)
    ensures BurstHolds(c, [], 0)
  {
    assert InBurst(c, Begin(0), 0);
  }

  /** Some run has exactly twice the daily limit of grants within one day. */
  lemma {:induction false} DayBoundIsAttained(c: Config) returns (events: seq<Event>)
    ensures Monotone(0, events) && CountDay(Play(c, 0, events).grants, DAY - 1) == 2 * c.dailyLimit
  {
    events := Burst(c, 2 * c.dailyLimit);
    BurstRuns(c, 2 * c.dailyLimit);
  }

  lemma EmptySpaced(c: Config)
    ensures Spaced(c, [])
  {
  }
}
