/**
 * The in-memory, per-client, fixed-window rate limiter: a table from client
 * identifier to a window (`count`, `resetTime`), checked and updated on every
 * request, swept periodically, and keyed by the address read from proxy headers.
 * The clock is the explicit parameter `now` (milliseconds).
 */
module RateLimit {
  import opened JsRuntime

  /** One client's window: attempts counted so far and the instant the window ends. */
  datatype Entry = Entry(count: nat, resetTime: int)

  datatype Config = Config(maxRequests: int, windowMs: int)

  /** What `checkRateLimit` returns. */
  datatype Verdict = Verdict(isLimited: bool, remaining: int, resetTime: int)

  /** The default policy: 3 requests per 15 minutes. */
  const DefaultConfig := Config(3, 15 * 60 * 1000)

  /** The window of `id` is still open at `now`; expiry is strict, so `now == resetTime` is still open. */
  predicate Live(m: map<string, Entry>, id: string, now: int) {
    id in m && now <= m[id].resetTime
  }

  /**
   * The table and the verdict after one call for `id` at `now`: a missing or
   * expired window is replaced by a fresh one; a live window counts one more
   * attempt (limited or not) and keeps its end.
   */
  function Admit(m: map<string, Entry>, id: string, cfg: Config, now: nat): (r: (map<string, Entry>, Verdict))
    ensures id in r.0 && r.0 - {id} == m - {id}
    ensures !Live(m, id, now) ==> r.0[id] == Entry(1, now + cfg.windowMs)
    ensures Live(m, id, now) ==> r.0[id] == Entry(m[id].count + 1, m[id].resetTime)
    ensures r.1.isLimited <==> Live(m, id, now) && m[id].count + 1 > cfg.maxRequests
    ensures r.1.isLimited ==> r.1.remaining == 0
    ensures !r.1.isLimited ==> r.1.remaining == cfg.maxRequests - r.0[id].count
    ensures r.1.resetTime == r.0[id].resetTime
  {
    if id !in m || now > m[id].resetTime then
      var resetTime := now + cfg.windowMs;
      (m[id := Entry(1, resetTime)], Verdict(false, cfg.maxRequests - 1, resetTime))
    else
      var entry := m[id].(count := m[id].count + 1);
      var verdict :=
        if entry.count > cfg.maxRequests then Verdict(true, 0, entry.resetTime)
        else Verdict(false, cfg.maxRequests - entry.count, entry.resetTime);
      (m[id := entry], verdict)
  }

  /** Every window in the table has counted at least one attempt. */
  ghost predicate CountsPositive(m: map<string, Entry>) {
    forall k | k in m :: m[k].count >= 1
  }

  /** With at least one request allowed, `remaining` is never negative. */
  lemma RemainingNonNegative(m: map<string, Entry>, id: string, cfg: Config, now: nat)
    requires cfg.maxRequests >= 1
    ensures Admit(m, id, cfg, now).1.remaining >= 0
  {
  }

  /** At `now == resetTime` the old window is incremented, not replaced. */
  lemma ExpiryIsStrict(m: map<string, Entry>, id: string, cfg: Config)
    requires id in m && m[id].resetTime >= 0
    ensures var now := m[id].resetTime as nat;
      Admit(m, id, cfg, now).0[id] == Entry(m[id].count + 1, m[id].resetTime)
  {
  }

  /** The table after the sweep at `now`: exactly the entries with `now > resetTime` are gone. */
  function Swept(m: map<string, Entry>, now: nat): (r: map<string, Entry>)
    ensures forall k :: k in r <==> k in m && !(now > m[k].resetTime)
    ensures forall k | k in r :: r[k] == m[k]
  {
    map k | k in m && !(now > m[k].resetTime) :: m[k]
  }

  /**
   * Sweeping never changes what a later call decides: an entry removed at `t` had
   * already expired, so a call at `now >= t` would have opened a fresh window anyway.
   */
  lemma {:induction false} SweepIsInvisible(m: map<string, Entry>, t: nat, id: string, cfg: Config, now: nat)
    requires t <= now
    ensures Admit(Swept(m, t), id, cfg, now).1 == Admit(m, id, cfg, now).1
    ensures Admit(Swept(m, t), id, cfg, now).0[id] == Admit(m, id, cfg, now).0[id]
  {
    var s := Swept(m, t);
    assert Live(s, id, now) <==> Live(m, id, now);
    if Live(m, id, now) {
      assert s[id] == m[id];
    }
  }

  /** The in-memory store; `entries` is the process-wide `Map` of the source. */
  class RateLimitStore {
    var entries: map<string, Entry>

    ghost predicate Valid()
      reads this
    {
      CountsPositive(entries)
    }

    constructor ()
      ensures Valid() && entries == map[]
    {
      entries := map[];
    }

    /** `checkRateLimit(identifier, config)` at time `now`. */
    method CheckRateLimit(identifier: string, config: Config, now: nat) returns (verdict: Verdict)
      requires Valid()
      modifies this
      ensures Valid()
      ensures (entries, verdict) == Admit(old(entries), identifier, config, now)
    {
      if identifier !in entries || now > entries[identifier].resetTime {
        var resetTime := now + config.windowMs;
        entries := entries[identifier := Entry(1, resetTime)];
        return Verdict(false, config.maxRequests - 1, resetTime);
      }
      var entry := entries[identifier];
      entry := entry.(count := entry.count + 1);
      entries := entries[identifier := entry];
      if entry.count > config.maxRequests {
        return Verdict(true, 0, entry.resetTime);
      }
      return Verdict(false, config.maxRequests - entry.count, entry.resetTime);
    }

    /** The body of the periodic clean-up: delete every entry whose window ended before `now`. */
    method Sweep(now: nat)
      requires Valid()
      modifies this
      ensures Valid()
      ensures entries == Swept(old(entries), now)
    {
      var pending := entries.Keys;
      while pending != {}
        invariant pending <= old(entries).Keys
        invariant forall k :: k in entries <==> k in old(entries) && (k in pending || !(now > old(entries)[k].resetTime))
        invariant forall k | k in entries :: entries[k] == old(entries)[k]
        decreases pending
      {
        var key :| key in pending;
        if now > entries[key].resetTime {
          entries := entries - {key};
        }
        pending := pending - {key};
      }
    }
  }

  /** One call of `checkRateLimit`: who called and when. */
  datatype Call = Call(id: string, now: nat)

  /** The table and the verdicts after a sequence of calls, in order. */
  function Run(m: map<string, Entry>, cfg: Config, calls: seq<Call>): (r: (map<string, Entry>, seq<Verdict>))
    ensures |r.1| == |calls|
    decreases |calls|
  {
    if calls == [] then (m, [])
    else
      var step := Admit(m, calls[0].id, cfg, calls[0].now);
      var rest := Run(step.0, cfg, calls[1..]);
      (rest.0, [step.1] + rest.1)
  }

  /** How many of `calls` are for `id`. */
  function CountFor(calls: seq<Call>, id: string): nat {
    if calls == [] then 0 else (if calls[0].id == id then 1 else 0) + CountFor(calls[1..], id)
  }

  /** Calls for other identifiers leave the entry of `id` exactly as it was. */
  lemma {:induction false} OtherCallsLeaveEntry(m: map<string, Entry>, cfg: Config, calls: seq<Call>, id: string)
    requires forall j | 0 <= j < |calls| :: calls[j].id != id
    ensures var m' := Run(m, cfg, calls).0; (id in m' <==> id in m) && (id in m ==> m'[id] == m[id])
    decreases |calls|
  {
    if calls != [] {
      var m1 := Admit(m, calls[0].id, cfg, calls[0].now).0;
      assert m1 - {calls[0].id} == m - {calls[0].id};
      assert (id in m1 <==> id in m) && (id in m ==> m1[id] == m[id]);
      OtherCallsLeaveEntry(m1, cfg, calls[1..], id);
    }
  }

  /**
   * Inside a live window, whatever other clients do, each call for `id` adds one
   * to its count and keeps its end, and a call is limited exactly when the number
   * of attempts counted so far, this one included, exceeds `maxRequests`.
   */
  lemma {:induction false} RunWithinWindow(m: map<string, Entry>, cfg: Config, calls: seq<Call>, id: string)
    requires id in m
    requires forall j | 0 <= j < |calls| && calls[j].id == id :: calls[j].now <= m[id].resetTime
    ensures var r := Run(m, cfg, calls);
      && id in r.0 && r.0[id] == Entry(m[id].count + CountFor(calls, id), m[id].resetTime)
      && forall j | 0 <= j < |calls| && calls[j].id == id ::
           r.1[j].isLimited <==> m[id].count + CountFor(calls[..j + 1], id) > cfg.maxRequests
    decreases |calls|
  {
    if calls != [] {
      var step := Admit(m, calls[0].id, cfg, calls[0].now);
      var m1 := step.0;
      if calls[0].id == id {
        assert m1[id] == Entry(m[id].count + 1, m[id].resetTime);
      } else {
        assert m1 - {calls[0].id} == m - {calls[0].id};
        assert m1[id] == m[id];
      }
      forall j | 0 <= j < |calls[1..]| && calls[1..][j].id == id
        ensures calls[1..][j].now <= m1[id].resetTime
      {
        assert calls[1..][j] == calls[j + 1];
      }
      RunWithinWindow(m1, cfg, calls[1..], id);
      var r := Run(m, cfg, calls);
      var rest := Run(m1, cfg, calls[1..]);
      assert r.1 == [step.1] + rest.1;
      forall j | 0 <= j < |calls| && calls[j].id == id
        ensures r.1[j].isLimited <==> m[id].count + CountFor(calls[..j + 1], id) > cfg.maxRequests
      {
        assert calls[..j + 1][0] == calls[0];
        assert calls[..j + 1][1..] == calls[1..][..j];
        if j > 0 {
          assert calls[1..][j - 1] == calls[j];
          assert r.1[j] == rest.1[j - 1];
        }
      }
    }
  }

  /**
   * Within one window, the k-th call for `id` is admitted exactly when
   * `k <= maxRequests`, except that the call opening the window is always admitted.
   * The window is opened by `calls[0]` (no live entry for `id` at that time) and
   * every later call for `id` falls before its end.
   */
  lemma {:induction false} KthCallInWindow(m: map<string, Entry>, cfg: Config, calls: seq<Call>, id: string)
    requires calls != [] && calls[0].id == id && !Live(m, id, calls[0].now)
    requires forall j | 0 < j < |calls| && calls[j].id == id :: calls[j].now <= calls[0].now + cfg.windowMs
    ensures var verdicts := Run(m, cfg, calls).1;
      forall j | 0 <= j < |calls| && calls[j].id == id ::
        var k := CountFor(calls[..j + 1], id);
        !verdicts[j].isLimited <==> k <= cfg.maxRequests || k == 1
  {
    var step := Admit(m, id, cfg, calls[0].now);
    var m1 := step.0;
    assert m1[id] == Entry(1, calls[0].now + cfg.windowMs);
    forall j | 0 <= j < |calls[1..]| && calls[1..][j].id == id
      ensures calls[1..][j].now <= m1[id].resetTime
    {
      assert calls[1..][j] == calls[j + 1];
    }
    RunWithinWindow(m1, cfg, calls[1..], id);
    var r := Run(m, cfg, calls);
    var rest := Run(m1, cfg, calls[1..]);
    assert r.1 == [step.1] + rest.1;
    forall j | 0 <= j < |calls| && calls[j].id == id
      ensures var k := CountFor(calls[..j + 1], id); !r.1[j].isLimited <==> k <= cfg.maxRequests || k == 1
    {
      assert calls[..j + 1][0] == calls[0];
      assert calls[..j + 1][1..] == calls[1..][..j];
      var k := CountFor(calls[..j + 1], id);
      assert k == 1 + CountFor(calls[1..][..j], id);
      if j > 0 {
        assert calls[1..][j - 1] == calls[j];
        assert calls[1..][..j][j - 1] == calls[j];
        CountForPositive(calls[1..][..j], id, j - 1);
        assert r.1[j] == rest.1[j - 1];
      } else {
        assert calls[1..][..0] == [];
      }
    }
  }

  lemma {:induction false} CountForPositive(calls: seq<Call>, id: string, j: nat)
    requires j < |calls| && calls[j].id == id
    ensures CountFor(calls, id) >= 1
  {
    if j > 0 {
      CountForPositive(calls[1..], id, j - 1);
    }
  }

  /** A proxy header that is present and non-empty (`if (value)` in the source). */
  predicate Supplied(headers: map<string, string>, name: string) {
    name in headers && headers[name] != ""
  }

  /**
   * `getClientIp`: the first supplied of `cf-connecting-ip` and `x-real-ip`, else
   * the trimmed first comma-separated element of `x-forwarded-for`, else `unknown`.
   * Header names are the lower-case keys of `headers`.
   */
  function ClientIp(headers: map<string, string>): (ip: string)
    ensures Supplied(headers, "cf-connecting-ip") ==> ip == headers["cf-connecting-ip"]
    ensures !Supplied(headers, "cf-connecting-ip") && Supplied(headers, "x-real-ip") ==> ip == headers["x-real-ip"]
    ensures !Supplied(headers, "cf-connecting-ip") && !Supplied(headers, "x-real-ip") && Supplied(headers, "x-forwarded-for") ==>
      ip == Trim(FirstField(headers["x-forwarded-for"]))
    ensures !Supplied(headers, "cf-connecting-ip") && !Supplied(headers, "x-real-ip") && !Supplied(headers, "x-forwarded-for") ==>
      ip == "unknown"
  {
    if Supplied(headers, "cf-connecting-ip") then headers["cf-connecting-ip"]
    else if Supplied(headers, "x-real-ip") then headers["x-real-ip"]
    else if Supplied(headers, "x-forwarded-for") then Trim(FirstField(headers["x-forwarded-for"]))
    else "unknown"
  }

  /**
   * `ip` is the first hop of a forwarded-for list whose text before the first comma
   * is `first`: it holds no comma, has no white space at either end, sits inside
   * `first`, and is empty exactly when `first` is blank.
   */
  ghost predicate FirstHop(ip: string, first: string) {
    && ',' !in ip && Trimmed(ip)
    && (exists i, j | 0 <= i <= j <= |first| :: ip == first[i..j])
    && (ip == "" <==> IsBlank(first))
  }

  /** A key taken from `x-forwarded-for` is the first hop only, and may be empty. */
  lemma ForwardedForKey(headers: map<string, string>)
    requires !Supplied(headers, "cf-connecting-ip") && !Supplied(headers, "x-real-ip") && Supplied(headers, "x-forwarded-for")
    ensures FirstHop(ClientIp(headers), FirstField(headers["x-forwarded-for"]))
  {
    var first := FirstField(headers["x-forwarded-for"]);
    assert ClientIp(headers) == Trim(first);
    TrimOfFirstHop(first);
  }

  lemma TrimOfFirstHop(first: string)
    requires ',' !in first
    ensures FirstHop(Trim(first), first)
  {
    var ip := Trim(first);
    TrimIsInfix(first);
    TrimEmptyIffBlank(first);
    var i, j :| 0 <= i <= j <= |first| && ip == first[i..j] && AllSpace(first[..i]) && AllSpace(first[j..]);
    assert ',' !in ip by {
      forall k | 0 <= k < |ip| ensures ip[k] != ',' {
        assert ip[k] == first[i + k];
      }
    }
  }
}
