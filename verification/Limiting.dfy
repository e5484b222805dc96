/** The rate limiter as it runs: a cached script handle, the script itself, and the request dependency around it. */
module Limiting {
  import opened Rows
  import opened CacheKeys
  import opened SlidingWindow
  import G = RateGuarantees

  /** Where Redis may fail; an EVALSHA that reports an error may have run its script all the same. */
  datatype Outage = Up | LoadFails | EvalFails(ran: bool)

  ghost predicate Tracking(keys: map<string, ZSet>, log: map<string, seq<Call>>, window: nat) {
    keys.Keys == log.Keys && forall k :: k in log ==> keys[k] == After(log[k], window)
  }

  /** Running the script on a key and noting the call in its log keeps them in step. */
  lemma TrackingStep(keys: map<string, ZSet>, log: map<string, seq<Call>>, window: nat, key: string, call: Call)
    requires Tracking(keys, log, window)
    ensures var was, z := if key in log then log[key] else [], if key in keys then keys[key] else NO_KEY;
            var next := ZSet(Prune(Live(z, call.at), call.ts - Ms(window)) + {MemberOf(call)}, call.at + Ms(window + 1));
            && After(was + [call], window) == next
            && Tracking(keys[key := next], log[key := was + [call]], window)
  {
    hide Prune, Live;
    var was := if key in log then log[key] else [];
    G.AfterSnoc(was, call, window);
  }

  /** `log` remembers every call whose script ran, allowed or not, under its key. */
  class RateServer {
    var scripts: set<string>
    var keys: map<string, ZSet>
    ghost var log: map<string, seq<Call>>

    constructor ()
      ensures scripts == {} && keys == map[] && forall window :: Tracks(window)
    {
      scripts, keys, log := {}, map[], map[];
    }

    /** Every key holds what its log leaves behind. */
    ghost predicate Tracks(window: nat)
      reads this
    {
      Tracking(keys, log, window)
    }

    ghost function LogOf(key: string): seq<Call>
      reads this
    {
      if key in log then log[key] else []
    }

    function KeyOf(key: string): ZSet
      reads this
    {
      if key in keys then keys[key] else NO_KEY
    }

    method ScriptLoad(script: string) returns (sha: string)
      modifies `scripts
      ensures sha == script && scripts == old(scripts) + {script}
    {
      scripts := scripts + {script};
      sha := script;
    }

    /** The sliding-window script, one command after the other, atomic; None is Redis's NOSCRIPT error. */
    method EvalSha(sha: string, key: string, call: Call, windowMs: nat, ttl: nat) returns (count: Option<nat>)
      modifies `keys, `log
      ensures count.Some? <==> sha in scripts
      ensures count.None? ==> keys == old(keys) && log == old(log)
      ensures count.Some? ==> key in keys && count.value == |keys[key].members|
      ensures count.Some? ==> log == old(log)[key := old(LogOf(key)) + [call]]
      ensures count.Some? ==> keys == old(keys)[key :=
        ZSet(Prune(Live(old(KeyOf(key)), call.at), call.ts - windowMs) + {MemberOf(call)}, call.at + Ms(ttl))]
    {
      if sha !in scripts { return None; }
      var members := Live(KeyOf(key), call.at);
      members := Prune(members, call.ts - windowMs);
      members := members + {MemberOf(call)};
      count := Some(|members|);
      keys := keys[key := ZSet(members, call.at + Ms(ttl))];
      log := log[key := LogOf(key) + [call]];
    }
  }

  const SLIDING_WINDOW := "sliding window"

  class RateLimiter {
    const redis: RateServer
    var scriptSha: Option<string>

    constructor (redis: RateServer)
      ensures this.redis == redis && scriptSha == None
    {
      this.redis := redis;
      scriptSha := None;
    }

    /** Load the script on first use. */
    method EnsureScript(outage: Outage) returns (sha: Option<string>)
      modifies `scriptSha, redis`scripts
      ensures sha == if old(scriptSha).None? && outage.LoadFails? then None else scriptSha
      ensures scriptSha == if old(scriptSha).None? && !outage.LoadFails? then Some(SLIDING_WINDOW) else old(scriptSha)
      ensures old(scriptSha).None? && !outage.LoadFails? ==> SLIDING_WINDOW in redis.scripts
      ensures old(scriptSha).Some? ==> redis.scripts == old(redis.scripts)
    {
      if scriptSha.None? {
        if outage.LoadFails? { return None; }
        var loaded := redis.ScriptLoad(SLIDING_WINDOW);
        scriptSha := Some(loaded);
      }
      return scriptSha;
    }

    /** The server knows the script this limiter will ask for. */
    predicate Loadable(outage: Outage)
      reads this, redis
    {
      if scriptSha.None? then !outage.LoadFails? else scriptSha.value in redis.scripts
    }

    /** If the script ran and answered, the decision is the full log's; on any error the request passes.
        A handle the server has forgotten is such an error, and it is never loaded again. */
    method IsAllowed(key: string, limit: nat, windowSeconds: nat, call: Call, outage: Outage)
      returns (allowed: bool, retryAfter: nat)
      requires redis.Tracks(windowSeconds)
      modifies `scriptSha, redis
      ensures redis.Tracks(windowSeconds)
      ensures old(Loadable(outage)) && outage != EvalFails(false) ==>
        redis.log == old(redis.log)[key := old(redis.LogOf(key)) + [call]]
      ensures !old(Loadable(outage)) || outage == EvalFails(false) ==> redis.log == old(redis.log)
      ensures old(Loadable(outage)) && !outage.EvalFails? ==>
        (allowed <==> Allowed(redis.log[key], windowSeconds, limit))
      ensures !old(Loadable(outage)) || outage.EvalFails? ==> allowed
      ensures retryAfter == if allowed then 0 else windowSeconds
    {
      hide Allowed, Prune, Live, After, Tracking;
      var sha := EnsureScript(outage);
      if sha.None? || outage == EvalFails(false) { return true, 0; }
      TrackingStep(redis.keys, redis.log, windowSeconds, key, call);
      var count := redis.EvalSha(sha.value, key, call, Ms(windowSeconds), windowSeconds + 1);
      if count.None? || outage.EvalFails? { return true, 0; }
      AllowedIsCount(redis.log[key], windowSeconds, limit);
      allowed := count.value <= limit;
      retryAfter := if !allowed then windowSeconds else 0;
    }
  }

  lemma AllowedIsCount(calls: seq<Call>, window: nat, limit: nat)
    ensures Allowed(calls, window, limit) <==> |After(calls, window).members| <= limit
  {
  }

  datatype Verdict = Pass | TooMany(retryAfter: nat)

  /** The dependency put in front of an endpoint. It builds a limiter for each request, so the handle is loaded
      afresh each time and is never stale. */
  class RateLimit {
    const limit: nat
    const window: nat

    constructor (limit: nat, window: nat)
      ensures this.limit == limit && this.window == window
    {
      this.limit, this.window := limit, window;
    }

    method Check(redis: RateServer?, ip: string, path: string, call: Call, outage: Outage) returns (verdict: Verdict)
      requires redis != null ==> redis.Tracks(window)
      modifies redis
      ensures redis == null ==> verdict == Pass
      ensures redis != null ==> redis.Tracks(window)
      ensures redis != null ==> redis.log == if outage == EvalFails(false) || outage.LoadFails? then old(redis.log)
        else old(redis.log)[RateKey(ip, path) := old(redis.LogOf(RateKey(ip, path))) + [call]]
      ensures redis != null ==> forall ip': string, path': string ::
        Address(ip) && Address(ip') && RequestPath(path) && RequestPath(path') && (ip' != ip || path' != path)
        ==> redis.LogOf(RateKey(ip', path')) == old(redis.LogOf(RateKey(ip', path')))
      ensures verdict == if redis == null || !outage.Up? || Allowed(redis.log[RateKey(ip, path)], window, limit)
        then Pass else TooMany(window)
    {
      hide RateKey, Allowed, Address, RequestPath;
      if redis == null { return Pass; }
      forall ip': string, path': string {:trigger RateKey(ip', path')} |
        Address(ip) && Address(ip') && RequestPath(path) && RequestPath(path') && (ip' != ip || path' != path)
        ensures RateKey(ip', path') != RateKey(ip, path)
      {
        RateKeysCollide(ip, path, ip', path');
      }
      var limiter := new RateLimiter(redis);
      var allowed, retryAfter := limiter.IsAllowed(RateKey(ip, path), limit, window, call, outage);
      return if allowed then Pass else TooMany(retryAfter);
    }
  }
}
