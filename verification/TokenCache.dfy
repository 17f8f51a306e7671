/**
  `McpCapabilityTokenCache`: the class over its ordered dictionary, with the loops that evict. Its ghost
  history is the list of calls so far, and the answers are stated against that history.
 */
module TokenCache {
  import opened Basics
  import opened Text
  import opened TokenHistory
  import opened TokenExact

  lemma {:induction false} FilterFilter<T>(p: T -> bool, q: T -> bool, r: T -> bool, s: seq<T>)
    requires forall y | y in s :: r(y) <==> p(y) && q(y)
    ensures Filter(p, Filter(q, s)) == Filter(r, s)
  {
    if s != [] {
      var front, x := s[..|s| - 1], s[|s| - 1];
      FilterFilter(p, q, r, front);
      assert x in s;
      if q(x) {
        FilterAppend(p, Filter(q, front), x);
        assert Filter(q, s) == Filter(q, front) + [x];
      } else {
        assert Filter(q, s) == Filter(q, front);
      }
    }
  }

  lemma FilterAppend<T>(p: T -> bool, s: seq<T>, x: T)
    ensures Filter(p, s + [x]) == Filter(p, s) + (if p(x) then [x] else [])
  {
    assert (s + [x])[..|s|] == s;
  }

  function NotAmong(keys: seq<string>): (p: Slot -> bool)
    ensures forall y :: p(y) <==> y.key !in keys
  {
    (y: Slot) => y.key !in keys
  }

  lemma {:induction false} FilterAll<T>(p: T -> bool, s: seq<T>)
    requires forall y | y in s :: p(y)
    ensures Filter(p, s) == s
  {
    if s != [] {
      FilterAll(p, s[..|s| - 1]);
      assert s == s[..|s| - 1] + [s[|s| - 1]];
    }
  }

  lemma {:induction false} FilterSame<T>(p: T -> bool, q: T -> bool, s: seq<T>)
    requires forall y | y in s :: p(y) <==> q(y)
    ensures Filter(p, s) == Filter(q, s)
  {
    if s != [] {
      FilterSame(p, q, s[..|s| - 1]);
    }
  }

  /** `d[key] = entry`: in place for a key already there, at the end otherwise. */
  function Assign(s: seq<Slot>, y: Slot): seq<Slot> {
    if HasKey(s, y.key) then Replace(s, y) else s + [y]
  }

  function Replace(s: seq<Slot>, y: Slot): seq<Slot> {
    if s == [] then []
    else if s[|s| - 1].key == y.key then s[..|s| - 1] + [y]
    else Replace(s[..|s| - 1], y) + [s[|s| - 1]]
  }

  /** `move_to_end(key)` */
  function MoveToEnd(s: seq<Slot>, key: string): seq<Slot>
    requires HasKey(s, key)
  {
    Delete(s, key) + [Find(s, key).value]
  }

  lemma {:induction false} Replaced(s: seq<Slot>, y: Slot)
    requires HasKey(s, y.key)
    ensures Delete(Replace(s, y), y.key) == Delete(s, y.key)
    ensures Find(Replace(s, y), y.key) == Some(y) && HasKey(Replace(s, y), y.key)
  {
    var front, x := s[..|s| - 1], s[|s| - 1];
    if x.key == y.key {
      DeleteAppend(front, y, y.key);
      DeleteAppend(front, x, y.key);
      assert front + [x] == s;
    } else {
      assert HasKey(front, y.key);
      Replaced(front, y);
      DeleteAppend(Replace(front, y), x, y.key);
    }
  }

  lemma DeleteAppend(s: seq<Slot>, x: Slot, key: string)
    ensures Delete(s + [x], key) == Delete(s, key) + (if x.key == key then [] else [x])
    ensures Find(s + [x], key) == if x.key == key then Some(x) else Find(s, key)
  {
    assert (s + [x])[..|s|] == s;
  }

  /** Assigning and moving to the end leaves the other entries in order, then the new one. */
  lemma AssignedAtEnd(s: seq<Slot>, y: Slot)
    ensures HasKey(Assign(s, y), y.key) && MoveToEnd(Assign(s, y), y.key) == Delete(s, y.key) + [y]
  {
    hide Replace, Delete, Find;
    if HasKey(s, y.key) {
      Replaced(s, y);
    } else {
      DeleteAppend(s, y, y.key);
      assert (s + [y])[|s|].key == y.key;
    }
  }

  lemma RunAppend(c: Config, h: seq<Event>, e: Event)
    ensures Run(c, h + [e]) == Step(c, Run(c, h), e)
  {
    hide Step;
    assert (h + [e])[..|h|] == h;
  }

  /** A store in terms of the dictionary before it. */
  lemma StoreEffect(c: Config, h: seq<Event>, id: string, token: string, sweep: real, now: real)
    ensures var s, t := Run(c, h), Run(c, h + [Store(id, token, sweep, now)]);
            var y := Slot(Strip(id), Strip(token), now);
            && |t| <= c.max
            && (if y.key == "" || y.token == "" then t == s
                else && t == Overflowed(c, Delete(Swept(c, sweep, s), y.key) + [y])
                     && (c.max > 0 ==> t != [] && t[|t| - 1] == y))
  {
    hide Run, Swept, Delete, Overflowed, HasKey;
    var e := Store(id, token, sweep, now);
    RunAppend(c, h, e);
    RunOrdered(c, h + [e]);
    if Touch(c, Run(c, h), e).Some? && c.max > 0 {
      TouchedLast(c, Run(c, h), e);
    }
  }

  /** The dictionary after a resolve that found `found` after its sweep. */
  function Resolved(c: Config, swept: seq<Slot>, key: string, found: Option<Slot>, now: real): seq<Slot> {
    if found.None? then swept
    else if Stale(c, now, found.value) then Delete(swept, key)
    else Delete(swept, key) + [found.value]
  }

  lemma ResolveStep(c: Config, s: seq<Slot>, id: string, sweep: real, now: real)
    ensures var swept := Swept(c, sweep, s);
            Step(c, s, Resolve(id, sweep, now)) == Resolved(c, swept, Strip(id), Find(swept, Strip(id)), now)
  {
    hide Swept, Delete, Stale, Strip, Find;
    var swept := Swept(c, sweep, s);
    if !HasKey(swept, Strip(id)) {
      DeleteAbsent(swept, Strip(id));
    }
  }

  /** A resolve in terms of the dictionary before it. */
  lemma ResolveEffect(c: Config, h: seq<Event>, id: string, sweep: real, now: real)
    ensures var e, swept := Resolve(id, sweep, now), Swept(c, sweep, Run(c, h));
            var found := Find(swept, Strip(id));
            && Touch(c, Run(c, h), e) == (if found.Some? && !Stale(c, now, found.value) then found else None)
            && Run(c, h + [e]) == Resolved(c, swept, Strip(id), found, now) && |Run(c, h + [e])| <= c.max
  {
    hide Run, Swept, Stale, Find, Resolved, Step;
    var e := Resolve(id, sweep, now);
    RunAppend(c, h, e);
    RunOrdered(c, h + [e]);
    ResolveStep(c, Run(c, h), id, sweep, now);
  }

  lemma DeleteAbsent(s: seq<Slot>, key: string)
    requires !HasKey(s, key)
    ensures Delete(s, key) == s
  {
    hide Filter;
    FilterAll(OtherThan(key), s);
  }

  class McpCapabilityTokenCache {
    const config: Config
    var entries: seq<Slot>
    ghost var history: seq<Event>

    /** The entries are what the calls so far leave. */
    ghost predicate Valid()
      reads this
    {
      entries == Run(config, history)
    }

    constructor (config: Config)
      ensures Valid() && this.config == config && entries == [] && history == []
    {
      this.config := config;
      entries := [];
      history := [];
    }

    method EvictExpired(now: real)
      requires DistinctKeys(entries)
      modifies this`entries
      ensures entries == Swept(config, now, old(entries))
    {
      hide Filter;
      var s := entries;
      var expired: seq<string> := [];
      for k := 0 to |s|
        invariant forall key :: key in expired <==> exists i | 0 <= i < k :: s[i].key == key && Stale(config, now, s[i])
      {
        if Stale(config, now, s[k]) {
          expired := expired + [s[k].key];
        }
      }
      FilterAll(NotAmong(expired[..0]), s);
      for k := 0 to |expired|
        invariant entries == Filter(NotAmong(expired[..k]), s)
      {
        FilterFilter(OtherThan(expired[k]), NotAmong(expired[..k]), NotAmong(expired[..k + 1]), s);
        entries := Delete(entries, expired[k]);
      }
      assert expired[..|expired|] == expired;
      FilterSame(NotAmong(expired), LiveAt(config, now), s);
    }

    method EvictOverflow()
      modifies this`entries
      ensures entries == Overflowed(config, old(entries))
    {
      var k := 0;
      while |entries| > config.max
        invariant 0 <= k <= |old(entries)| && entries == old(entries)[k..]
        invariant k == 0 || |entries| >= config.max
      {
        entries := entries[1..];
        k := k + 1;
      }
    }

    method StoreToken(intentId: string, token: string, sweep: real, now: real)
      requires Valid()
      modifies this`entries, this`history
      ensures Valid() && history == old(history) + [Store(intentId, token, sweep, now)]
      ensures |entries| <= config.max
      ensures Strip(intentId) == "" || Strip(token) == "" ==> entries == old(entries)
      ensures Strip(intentId) != "" && Strip(token) != "" && config.max > 0 ==>
                entries != [] && entries[|entries| - 1] == Slot(Strip(intentId), Strip(token), now)
    {
      hide Run, Swept, Delete, Overflowed, Assign, MoveToEnd, HasKey, Strip;
      RunDistinct(config, history);
      StoreEffect(config, history, intentId, token, sweep, now);
      history := history + [Store(intentId, token, sweep, now)];
      var key, value := Strip(intentId), Strip(token);
      if key == "" || value == "" {
        return;
      }
      EvictExpired(sweep);
      AssignedAtEnd(entries, Slot(key, value, now));
      entries := Assign(entries, Slot(key, value, now));
      entries := MoveToEnd(entries, key);
      EvictOverflow();
    }

    method ResolveToken(intentId: string, sweep: real, now: real) returns (token: Option<string>)
      requires Valid() && Clocked(history, sweep) && sweep <= now
      modifies this`entries, this`history
      ensures Valid() && history == old(history) + [Resolve(intentId, sweep, now)] && |entries| <= config.max
      ensures token.Some? ==>
                var last := LastStore(old(history), Strip(intentId));
                last.Some? && token.value == last.value.token && now - last.value.storedAt <= config.ttl
      ensures token.None? ==>
                var last := LastStore(old(history), Strip(intentId));
                last.None? || now - last.value.storedAt > config.ttl
                  || |Since(config, old(history), Strip(intentId))| >= config.max
      ensures token.Some? ==> |LiveSince(config, old(history), Strip(intentId), sweep)| < config.max
      ensures token.Some? <==>
                var last := LastStore(old(history), Strip(intentId));
                && last.Some? && now - last.value.storedAt <= config.ttl
                && NeverCrowded(config, old(history), Strip(intentId))
    {
      hide Run, Swept, Delete, Find, LastStore, Since, Clocked, LiveSince, Strip, Touch, HasKey, NeverCrowded;
      RunDistinct(config, history);
      ResolveExactly(config, history, intentId, sweep, now);
      ResolveEffect(config, history, intentId, sweep, now);
      Answered(config, history, intentId, sweep, now);
      history := history + [Resolve(intentId, sweep, now)];
      EvictExpired(sweep);
      var key := Strip(intentId);
      var entry := Find(entries, key);
      if entry.None? {
        return None;
      }
      if Stale(config, now, entry.value) {
        entries := Delete(entries, key);
        return None;
      }
      entries := MoveToEnd(entries, key);
      return Some(entry.value.token);
    }
  }
}
