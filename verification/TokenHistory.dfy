/**
  The capability token cache: an ordered dictionary with a time to live and a size limit, least recently
  touched entries first. Every operation reads the clock twice, once to sweep and once for itself; the two
  readings are parameters. What the cache answers is related to the history of all operations before.
 */
module TokenHistory {
  import opened Basics
  import opened Ordering
  import opened Text

  datatype Config = Config(ttl: real, max: nat)

  /** A key of the ordered dictionary with its entry. */
  datatype Slot = Slot(key: string, token: string, storedAt: real)

  predicate Stale(c: Config, now: real, y: Slot) {
    now - y.storedAt > c.ttl
  }

  predicate HasKey(s: seq<Slot>, key: string) {
    exists i | 0 <= i < |s| :: s[i].key == key
  }

  predicate DistinctKeys(s: seq<Slot>) {
    forall i, j :: 0 <= i < |s| && 0 <= j < |s| && s[i].key == s[j].key ==> i == j
  }

  // ----- The operations on values

  function Filter<T>(p: T -> bool, s: seq<T>): seq<T> {
    if s == [] then [] else Filter(p, s[..|s| - 1]) + (if p(s[|s| - 1]) then [s[|s| - 1]] else [])
  }

  function LiveAt(c: Config, now: real): (p: Slot -> bool)
    ensures forall y :: p(y) <==> !Stale(c, now, y)
  {
    y => !Stale(c, now, y)
  }

  function OtherThan(key: string): (p: Slot -> bool)
    ensures forall y :: p(y) <==> y.key != key
  {
    (y: Slot) => y.key != key
  }

  function Swept(c: Config, now: real, s: seq<Slot>): seq<Slot> {
    Filter(LiveAt(c, now), s)
  }

  function Delete(s: seq<Slot>, key: string): seq<Slot> {
    Filter(OtherThan(key), s)
  }

  function Overflowed(c: Config, s: seq<Slot>): seq<Slot> {
    if |s| > c.max then s[|s| - c.max..] else s
  }

  function Find(s: seq<Slot>, key: string): (r: Option<Slot>)
    ensures r.Some? ==> r.value in s && r.value.key == key
    ensures r.Some? <==> HasKey(s, key)
  {
    if s == [] then None
    else if s[|s| - 1].key == key then Some(s[|s| - 1])
    else Find(s[..|s| - 1], key)
  }

  /** One call with its two clock readings. */
  datatype Event =
    | Store(id: string, token: string, sweep: real, now: real)
    | Resolve(id: string, sweep: real, now: real)

  /** What the call puts at the end of the dictionary: the stored or the returned entry, if any. */
  function Touch(c: Config, s: seq<Slot>, e: Event): (r: Option<Slot>)
    ensures r.Some? ==> r.value.key == Strip(e.id)
  {
    match e
    case Store(id, token, sweep, now) =>
      if Strip(id) == "" || Strip(token) == "" then None else Some(Slot(Strip(id), Strip(token), now))
    case Resolve(id, sweep, now) =>
      var found := Find(Swept(c, sweep, s), Strip(id));
      if found.Some? && !Stale(c, now, found.value) then found else None
  }

  /** The dictionary after a call: `store` ignores blanks, `resolve` drops what expired between its two readings. */
  function Step(c: Config, s: seq<Slot>, e: Event): seq<Slot> {
    var touch := Touch(c, s, e);
    var swept := Swept(c, e.sweep, s);
    if touch.Some? then
      var touched := Delete(swept, Strip(e.id)) + [touch.value];
      if e.Store? then Overflowed(c, touched) else touched
    else if e.Store? then s
    else Delete(swept, Strip(e.id))
  }

  function Run(c: Config, h: seq<Event>): seq<Slot> {
    if h == [] then [] else Step(c, Run(c, h[..|h| - 1]), h[|h| - 1])
  }

  // ----- The history

  /** The entry of the most recent effective store under a key. */
  function LastStore(h: seq<Event>, key: string): Option<Slot> {
    if h == [] then None
    else
      var e := h[|h| - 1];
      if e.Store? && Strip(e.id) == key != "" && Strip(e.token) != "" then Some(Slot(key, Strip(e.token), e.now))
      else LastStore(h[..|h| - 1], key)
  }

  /** The distinct other keys stored or successfully resolved since the key itself last was. */
  function Since(c: Config, h: seq<Event>, key: string): (r: set<string>)
    ensures key !in r
  {
    if h == [] then {}
    else
      var touch := Touch(c, Run(c, h[..|h| - 1]), h[|h| - 1]);
      if touch.None? then Since(c, h[..|h| - 1], key)
      else if touch.value.key == key then {}
      else Since(c, h[..|h| - 1], key) + {touch.value.key}
  }

  /** Readings never go back, and none is later than `now`. */
  predicate Clocked(h: seq<Event>, now: real) {
    h == [] || (h[|h| - 1].sweep <= h[|h| - 1].now <= now && Clocked(h[..|h| - 1], h[|h| - 1].sweep))
  }

  // ----- Filters

  lemma {:induction false} FilterMember<T>(p: T -> bool, s: seq<T>, x: T)
    ensures x in Filter(p, s) <==> x in s && p(x)
  {
    if s != [] {
      FilterMember(p, s[..|s| - 1], x);
      assert s == s[..|s| - 1] + [s[|s| - 1]];
    }
  }

  lemma {:induction false} FilterSorted<T>(p: T -> bool, leq: (T, T) -> bool, s: seq<T>)
    requires Sorted(leq, s)
    ensures Sorted(leq, Filter(p, s))
    ensures |Filter(p, s)| <= |s|
  {
    if s != [] {
      var front, x := s[..|s| - 1], s[|s| - 1];
      FilterSorted(p, leq, front);
      forall i | 0 <= i < |Filter(p, front)| ensures leq(Filter(p, front)[i], x) {
        FilterMember(p, front, Filter(p, front)[i]);
      }
    }
  }

  lemma KeyFiltered(p: Slot -> bool, s: seq<Slot>, key: string)
    ensures HasKey(Filter(p, s), key) <==> exists i | 0 <= i < |s| :: s[i].key == key && p(s[i])
  {
    hide Filter;
    var t := Filter(p, s);
    if HasKey(t, key) {
      var i :| 0 <= i < |t| && t[i].key == key;
      FilterMember(p, s, t[i]);
    }
    if i :| 0 <= i < |s| && s[i].key == key && p(s[i]) {
      FilterMember(p, s, s[i]);
      var j :| 0 <= j < |t| && t[j] == s[i];
    }
  }

  // ----- One call

  /** The dictionary before eviction for size: survivors other than the touched key, then the touched entry. */
  function Renewed(c: Config, s: seq<Slot>, e: Event, y: Slot): seq<Slot> {
    Delete(Swept(c, e.sweep, s), y.key) + [y]
  }

  lemma Survivor(c: Config, now: real, s: seq<Slot>, key: string, y: Slot)
    ensures y in Delete(Swept(c, now, s), key) <==> y in s && !Stale(c, now, y) && y.key != key
  {
    hide Filter;
    FilterMember(LiveAt(c, now), s, y);
    FilterMember(OtherThan(key), Swept(c, now, s), y);
  }

  lemma OverflowedMember(c: Config, s: seq<Slot>, y: Slot)
    ensures y in Overflowed(c, s) ==> y in s
    ensures |s| <= c.max ==> Overflowed(c, s) == s
  {
  }

  lemma InAppended<T>(d: seq<T>, x: T, y: T)
    ensures y in d + [x] <==> y in d || y == x
  {
  }

  /** Where the entries after a call come from. */
  lemma StepMember(c: Config, s: seq<Slot>, e: Event, y: Slot)
    requires y in Step(c, s, e)
    ensures Touch(c, s, e) == Some(y) || (y in s && (Touch(c, s, e).Some? ==> y.key != Touch(c, s, e).value.key))
  {
    hide Delete, Swept, Touch, Overflowed, Stale;
    Survivor(c, e.sweep, s, Strip(e.id), y);
    var touch := Touch(c, s, e);
    if touch.Some? {
      var d := Delete(Swept(c, e.sweep, s), Strip(e.id));
      OverflowedMember(c, d + [touch.value], y);
      InAppended(d, touch.value, y);
    }
  }

  /** An entry that is neither touched, expired nor pushed out stays. */
  lemma StepKeeps(c: Config, s: seq<Slot>, e: Event, y: Slot)
    requires y in s && y !in Step(c, s, e) && e.sweep <= e.now
    ensures || Stale(c, e.now, y)
            || (Touch(c, s, e).Some? && y.key == Touch(c, s, e).value.key)
            || (e.Store? && Touch(c, s, e).Some? && y in Renewed(c, s, e, Touch(c, s, e).value)
                && |Renewed(c, s, e, Touch(c, s, e).value)| > c.max)
            || (e.Resolve? && Touch(c, s, e).None? && y.key == Strip(e.id))
  {
    hide Delete, Swept, Touch, Overflowed;
    Survivor(c, e.sweep, s, Strip(e.id), y);
    var touch := Touch(c, s, e);
    if touch.Some? {
      var d := Delete(Swept(c, e.sweep, s), Strip(e.id));
      OverflowedMember(c, d + [touch.value], y);
      InAppended(d, touch.value, y);
    }
  }

  lemma TouchedLast(c: Config, s: seq<Slot>, e: Event)
    requires Touch(c, s, e).Some? && (e.Store? ==> c.max > 0)
    ensures Step(c, s, e) != [] && Step(c, s, e)[|Step(c, s, e)| - 1] == Touch(c, s, e).value
    ensures HasKey(Step(c, s, e), Touch(c, s, e).value.key)
  {
    hide Delete, Swept, Touch, Overflowed, HasKey, Strip;
    var y := Touch(c, s, e).value;
    EndsWith(c, Delete(Swept(c, e.sweep, s), y.key), y);
  }

  lemma EndsWith(c: Config, s: seq<Slot>, y: Slot)
    ensures HasKey(s + [y], y.key)
    ensures c.max > 0 ==>
              var t := Overflowed(c, s + [y]);
              t != [] && t[|t| - 1] == y && HasKey(t, y.key)
  {
    var t := Overflowed(c, s + [y]);
    assert (s + [y])[|s|].key == y.key;
    if c.max > 0 {
      assert t[|t| - 1].key == y.key;
    }
  }

  // ----- Every run keeps the dictionary in order of last touch

  ghost function YoungerIn(c: Config, h: seq<Event>): (f: (Slot, Slot) -> bool)
    ensures forall a, b :: f(a, b) <==> b.key in Since(c, h, a.key)
  {
    (a: Slot, b: Slot) => b.key in Since(c, h, a.key)
  }

  lemma SinceGrows(c: Config, h: seq<Event>, key: string)
    requires h != []
    ensures var front, e := h[..|h| - 1], h[|h| - 1];
            var touch := Touch(c, Run(c, front), e);
            && (touch.None? ==> Since(c, h, key) == Since(c, front, key))
            && (touch.Some? && touch.value.key == key ==> Since(c, h, key) == {})
            && (touch.Some? && touch.value.key != key ==> Since(c, h, key) == Since(c, front, key) + {touch.value.key})
  {
    hide Touch, Run;
  }

  lemma {:induction false} NotBothYounger(c: Config, h: seq<Event>, a: string, b: string)
    ensures !(a in Since(c, h, b) && b in Since(c, h, a))
  {
    hide Touch, Run;
    if h != [] {
      NotBothYounger(c, h[..|h| - 1], a, b);
    }
  }

  lemma SweptSorted(c: Config, s: seq<Slot>, e: Event, key: string, leq: (Slot, Slot) -> bool)
    requires Sorted(leq, s)
    ensures Sorted(leq, Delete(Swept(c, e.sweep, s), key)) && Sorted(leq, Swept(c, e.sweep, s))
    ensures |Delete(Swept(c, e.sweep, s), key)| <= |Swept(c, e.sweep, s)| <= |s|
  {
    hide Filter, Sorted;
    FilterSorted(LiveAt(c, e.sweep), leq, s);
    FilterSorted(OtherThan(key), leq, Swept(c, e.sweep, s));
  }

  lemma DeletedOthers(s: seq<Slot>, key: string)
    ensures forall i | 0 <= i < |Delete(s, key)| :: Delete(s, key)[i].key != key
  {
    hide Filter;
    forall i | 0 <= i < |Delete(s, key)| ensures Delete(s, key)[i].key != key {
      FilterMember(OtherThan(key), s, Delete(s, key)[i]);
    }
  }

  lemma RenewedSorted(c: Config, h: seq<Event>)
    requires h != []
    requires var front := h[..|h| - 1]; Sorted(YoungerIn(c, front), Run(c, front))
    ensures var s, e := Run(c, h[..|h| - 1]), h[|h| - 1];
            Touch(c, s, e).Some? ==> Sorted(YoungerIn(c, h), Renewed(c, s, e, Touch(c, s, e).value))
  {
    hide Touch, Run, Delete, Swept, Since;
    var front, e := h[..|h| - 1], h[|h| - 1];
    var s := Run(c, front);
    if Touch(c, s, e).Some? {
      var y := Touch(c, s, e).value;
      var d := Delete(Swept(c, e.sweep, s), y.key);
      SweptSorted(c, s, e, y.key, YoungerIn(c, front));
      DeletedOthers(Swept(c, e.sweep, s), y.key);
      forall i | 0 <= i < |d| ensures YoungerIn(c, h)(d[i], y) {
        SinceGrows(c, h, d[i].key);
      }
      forall i, j | 0 <= i < j < |d| ensures YoungerIn(c, h)(d[i], d[j]) {
        SinceGrows(c, h, d[i].key);
        assert YoungerIn(c, front)(d[i], d[j]);
      }
      AppendSorted(YoungerIn(c, h), d, y);
    }
  }

  lemma AppendSorted<T>(leq: (T, T) -> bool, d: seq<T>, y: T)
    requires Sorted(leq, d) && forall i | 0 <= i < |d| :: leq(d[i], y)
    ensures Sorted(leq, d + [y])
  {
  }

  lemma SuffixSorted(c: Config, s: seq<Slot>, leq: (Slot, Slot) -> bool)
    requires Sorted(leq, s)
    ensures Sorted(leq, Overflowed(c, s)) && |Overflowed(c, s)| <= c.max
  {
  }

  lemma {:induction false} RunOrdered(c: Config, h: seq<Event>)
    ensures Sorted(YoungerIn(c, h), Run(c, h)) && |Run(c, h)| <= c.max
  {
    hide Touch, Swept, Delete, Sorted, Overflowed;
    if h == [] {
      EmptySorted(YoungerIn(c, h));
    } else {
      var front, e := h[..|h| - 1], h[|h| - 1];
      var s := Run(c, front);
      RunOrdered(c, front);
      RenewedSorted(c, h);
      SweptSorted(c, s, e, Strip(e.id), YoungerIn(c, front));
      if Touch(c, s, e).None? {
        UntouchedOrder(c, h, s);
        UntouchedOrder(c, h, Delete(Swept(c, e.sweep, s), Strip(e.id)));
      } else if e.Store? {
        SuffixSorted(c, Renewed(c, s, e, Touch(c, s, e).value), YoungerIn(c, h));
      } else {
        ResolvedShrinks(c, s, e);
      }
    }
  }

  lemma EmptySorted<T>(leq: (T, T) -> bool)
    ensures Sorted(leq, [])
  {
  }

  lemma UntouchedOrder(c: Config, h: seq<Event>, t: seq<Slot>)
    requires h != [] && Touch(c, Run(c, h[..|h| - 1]), h[|h| - 1]).None?
    requires Sorted(YoungerIn(c, h[..|h| - 1]), t)
    ensures Sorted(YoungerIn(c, h), t)
  {
    hide Touch, Run, Since;
    forall i, j | 0 <= i < j < |t| ensures YoungerIn(c, h)(t[i], t[j]) {
      SinceGrows(c, h, t[i].key);
      assert YoungerIn(c, h[..|h| - 1])(t[i], t[j]);
    }
  }

  lemma {:induction false} DeleteShrinks(s: seq<Slot>, key: string)
    ensures |Delete(s, key)| <= |s|
    ensures HasKey(s, key) ==> |Delete(s, key)| < |s|
  {
    if s != [] {
      var front := s[..|s| - 1];
      DeleteShrinks(front, key);
      assert HasKey(s, key) && s[|s| - 1].key != key ==> HasKey(front, key);
    }
  }

  lemma ResolvedShrinks(c: Config, s: seq<Slot>, e: Event)
    requires e.Resolve? && Touch(c, s, e).Some?
    requires |Swept(c, e.sweep, s)| <= |s|
    ensures |Step(c, s, e)| <= |s|
  {
    hide Filter;
    DeleteShrinks(Swept(c, e.sweep, s), Strip(e.id));
  }

  lemma RunDistinct(c: Config, h: seq<Event>)
    ensures DistinctKeys(Run(c, h))
  {
    hide Run, Since;
    RunOrdered(c, h);
    var s := Run(c, h);
    assert forall i, j :: 0 <= i < j < |s| ==> s[i].key != s[j].key;
  }

  // ----- Every entry is the last one stored under its key

  lemma {:induction false} RunCurrent(c: Config, h: seq<Event>, y: Slot)
    requires y in Run(c, h)
    ensures LastStore(h, y.key) == Some(y)
  {
    hide Step, Filter;
    var front, e := h[..|h| - 1], h[|h| - 1];
    var s := Run(c, front);
    StepMember(c, s, e, y);
    if y in s {
      RunCurrent(c, front, y);
    } else {
      assert Touch(c, s, e) == Some(y);
      if e.Resolve? {
        FilterMember(LiveAt(c, e.sweep), s, y);
      }
    }
  }

  // ----- Why a stored key can be absent

  function Keys(s: seq<Slot>): (r: set<string>)
    ensures forall key :: key in r <==> HasKey(s, key)
  {
    set i | 0 <= i < |s| :: s[i].key
  }

  lemma KeysStep(s: seq<Slot>)
    requires s != []
    ensures Keys(s) == Keys(s[..|s| - 1]) + {s[|s| - 1].key}
  {
    hide HasKey;
    assert s[|s| - 1].key in (set i | 0 <= i < |s| :: s[i].key);
  }

  lemma {:induction false} KeysSize(s: seq<Slot>)
    requires DistinctKeys(s)
    ensures |Keys(s)| == |s|
  {
    if s != [] {
      var front, last := s[..|s| - 1], s[|s| - 1].key;
      KeysSize(front);
      KeysStep(s);
      assert !HasKey(front, last);
    }
  }

  lemma SubsetSize<T>(a: set<T>, b: set<T>)
    requires a <= b
    ensures |a| <= |b|
  {
    assert b == a + (b - a);
  }

  lemma LastStoreStep(c: Config, h: seq<Event>, key: string)
    requires h != []
    requires var touch := Touch(c, Run(c, h[..|h| - 1]), h[|h| - 1]); touch.Some? ==> touch.value.key != key
    ensures LastStore(h, key) == LastStore(h[..|h| - 1], key)
  {
    hide Run, Find, Swept;
  }

  lemma MissedExpired(c: Config, s: seq<Slot>, e: Event, y: Slot)
    requires e.Resolve? && Touch(c, s, e).None? && y in s && y.key == Strip(e.id) && DistinctKeys(s) && e.sweep <= e.now
    ensures Stale(c, e.now, y)
  {
    hide Filter;
    var swept := Swept(c, e.sweep, s);
    KeyFiltered(LiveAt(c, e.sweep), s, y.key);
    var found := Find(swept, y.key);
    if found.Some? {
      FilterMember(LiveAt(c, e.sweep), s, found.value);
    }
  }

  /** A key pushed out for size saw as many other keys touched as the cache holds. */
  lemma PushedOut(c: Config, h: seq<Event>, y: Slot)
    requires h != [] && h[|h| - 1].Store?
    requires var s, e := Run(c, h[..|h| - 1]), h[|h| - 1];
             && Touch(c, s, e).Some? && y in Renewed(c, s, e, Touch(c, s, e).value)
             && |Renewed(c, s, e, Touch(c, s, e).value)| > c.max && y !in Step(c, s, e)
    ensures |Run(c, h)| == c.max && Keys(Run(c, h)) <= Since(c, h, y.key)
  {
    hide Touch, Since, Sorted, Run, Renewed, Step, Keys, YoungerIn, Overflowed;
    RunOrdered(c, h[..|h| - 1]);
    RenewedSorted(c, h);
    RunRenewed(c, h);
    var t := Renewed(c, Run(c, h[..|h| - 1]), h[|h| - 1], Touch(c, Run(c, h[..|h| - 1]), h[|h| - 1]).value);
    CutOff(c, t);
    AllYounger(c, h, t, |t| - c.max, y);
  }

  lemma CutOff(c: Config, t: seq<Slot>)
    requires |t| > c.max
    ensures Overflowed(c, t) == t[|t| - c.max..] && |Overflowed(c, t)| == c.max
  {
  }

  lemma AllYounger(c: Config, h: seq<Event>, t: seq<Slot>, k: nat, y: Slot)
    requires Sorted(YoungerIn(c, h), t) && k <= |t| && y in t && y !in t[k..]
    ensures Keys(t[k..]) <= Since(c, h, y.key)
  {
    hide Sorted, Since;
    DroppedPrefix(YoungerIn(c, h), t, k, y);
    var u := t[k..];
    forall key | key in Keys(u) ensures key in Since(c, h, y.key) {
      var i :| 0 <= i < |u| && u[i].key == key;
      assert YoungerIn(c, h)(y, u[i]);
    }
  }

  lemma RunRenewed(c: Config, h: seq<Event>)
    requires h != [] && h[|h| - 1].Store?
    ensures var s, e := Run(c, h[..|h| - 1]), h[|h| - 1];
            && Run(c, h) == Step(c, s, e)
            && (Touch(c, s, e).Some? ==> Run(c, h) == Overflowed(c, Renewed(c, s, e, Touch(c, s, e).value)))
  {
    hide Touch, Delete, Swept, Overflowed;
    TouchKey(c, Run(c, h[..|h| - 1]), h[|h| - 1]);
  }

  /** What is cut off the front of a sorted sequence is below all that remains. */
  lemma DroppedPrefix<T>(leq: (T, T) -> bool, t: seq<T>, k: nat, y: T)
    requires Sorted(leq, t) && k <= |t| && y in t && y !in t[k..]
    ensures forall z | z in t[k..] :: leq(y, z)
  {
    assert t == t[..k] + t[k..];
    var p :| 0 <= p < k && t[..k][p] == y;
    forall z | z in t[k..] ensures leq(y, z) {
      var i :| 0 <= i < |t| - k && t[k..][i] == z;
      assert leq(t[p], t[k + i]);
    }
  }

  lemma TouchKey(c: Config, s: seq<Slot>, e: Event)
    ensures Touch(c, s, e).Some? ==> Touch(c, s, e).value.key == Strip(e.id)
  {
  }

  /** If a present entry is not renewed and not there after the call, it expired or was pushed out. */
  lemma Dropped(c: Config, h: seq<Event>, y: Slot)
    requires h != [] && h[|h| - 1].sweep <= h[|h| - 1].now
    requires var s, e := Run(c, h[..|h| - 1]), h[|h| - 1];
             y in s && !HasKey(Run(c, h), y.key) && (Touch(c, s, e).Some? ==> Touch(c, s, e).value.key != y.key)
    ensures LastStore(h, y.key) == Some(y)
    ensures || Stale(c, h[|h| - 1].now, y)
            || (|Run(c, h)| == c.max && Keys(Run(c, h)) <= Since(c, h, y.key))
  {
    hide Touch, Since, Step, Renewed, Filter;
    var front, e := h[..|h| - 1], h[|h| - 1];
    var s := Run(c, front);
    RunCurrent(c, front, y);
    LastStoreStep(c, h, y.key);
    assert Run(c, h) == Step(c, s, e);
    assert y !in Run(c, h);
    StepKeeps(c, s, e, y);
    if !Stale(c, e.now, y) {
      if e.Store? {
        PushedOut(c, h, y);
      } else {
        RunDistinct(c, front);
        MissedExpired(c, s, e, y);
      }
    }
  }

  lemma LostNow(c: Config, h: seq<Event>, key: string)
    requires h != [] && h[|h| - 1].sweep <= h[|h| - 1].now
    requires var s, e := Run(c, h[..|h| - 1]), h[|h| - 1];
             HasKey(s, key) && !HasKey(Run(c, h), key) && (Touch(c, s, e).Some? ==> Touch(c, s, e).value.key != key)
    ensures LastStore(h, key).Some?
    ensures Stale(c, h[|h| - 1].now, LastStore(h, key).value) || |Since(c, h, key)| >= c.max
  {
    hide Touch, Since, Run, LastStore;
    var s := Run(c, h[..|h| - 1]);
    var i :| 0 <= i < |s| && s[i].key == key;
    Dropped(c, h, s[i]);
    RunDistinct(c, h);
    KeysSize(Run(c, h));
    if !Stale(c, h[|h| - 1].now, s[i]) {
      hide Stale;
      SubsetSize(Keys(Run(c, h)), Since(c, h, key));
    }
  }

  /** A stored key that is absent has expired, or at least `max` other keys were touched since. */
  lemma {:induction false} Lost(c: Config, h: seq<Event>, key: string, now: real)
    requires Clocked(h, now) && LastStore(h, key).Some? && !HasKey(Run(c, h), key)
    ensures Stale(c, now, LastStore(h, key).value) || |Since(c, h, key)| >= c.max
  {
    hide Touch, Since, Step, LastStore;
    if c.max > 0 && h != [] {
      var front, e := h[..|h| - 1], h[|h| - 1];
      var s := Run(c, front);
      var touch := Touch(c, s, e);
      SinceGrows(c, h, key);
      if touch.Some? && touch.value.key == key {
        TouchedLast(c, s, e);
      } else {
        LastStoreStep(c, h, key);
        if HasKey(s, key) {
          LostNow(c, h, key);
        } else {
          Lost(c, front, key, e.sweep);
          SubsetSize(Since(c, front, key), Since(c, h, key));
        }
      }
    } else if h == [] {
      NeverStored(key);
    }
  }

  lemma NeverStored(key: string)
    ensures LastStore([], key).None?
  {
  }

  lemma YoungerDropped(c: Config, h: seq<Event>, key: string, x: string)
    requires h != [] && h[|h| - 1].sweep <= h[|h| - 1].now && HasKey(Run(c, h), key) && x in Since(c, h, key)
    requires var s, e := Run(c, h[..|h| - 1]), h[|h| - 1];
             HasKey(s, x) && !HasKey(Run(c, h), x) && (Touch(c, s, e).Some? ==> Touch(c, s, e).value.key != x)
    ensures LastStore(h, x).Some? && Stale(c, h[|h| - 1].now, LastStore(h, x).value)
  {
    hide Touch, Since, Step, LastStore, Run, Stale;
    var s := Run(c, h[..|h| - 1]);
    var j :| 0 <= j < |s| && s[j].key == x;
    Dropped(c, h, s[j]);
    NotBothYounger(c, h, key, x);
    assert key in Keys(Run(c, h));
  }

  /** While a key is present, every other key touched since is present too, or has expired. */
  lemma {:induction false} YoungerPresent(c: Config, h: seq<Event>, key: string, x: string, now: real)
    requires Clocked(h, now) && HasKey(Run(c, h), key) && x in Since(c, h, key)
    ensures HasKey(Run(c, h), x) || (LastStore(h, x).Some? && Stale(c, now, LastStore(h, x).value))
  {
    hide Touch, Since, Step, LastStore;
    var front, e := h[..|h| - 1], h[|h| - 1];
    var s := Run(c, front);
    var touch := Touch(c, s, e);
    SinceGrows(c, h, key);
    RunOrdered(c, h);
    if touch.Some? && touch.value.key == x {
      TouchedLast(c, s, e);
    } else {
      LastStoreStep(c, h, x);
      var i :| 0 <= i < |Run(c, h)| && Run(c, h)[i].key == key;
      var y := Run(c, h)[i];
      StepMember(c, s, e, y);
      assert HasKey(s, key);
      YoungerPresent(c, front, key, x, e.sweep);
      if HasKey(s, x) && !HasKey(Run(c, h), x) {
        YoungerDropped(c, h, key, x);
      }
    }
  }

  // ----- Main results on histories

  /** An answer is the last token stored under the key and is not older than the TTL. */
  lemma ResolveSound(c: Config, h: seq<Event>, id: string, sweep: real, now: real)
    requires Touch(c, Run(c, h), Resolve(id, sweep, now)).Some?
    ensures var y := Touch(c, Run(c, h), Resolve(id, sweep, now)).value;
            LastStore(h, Strip(id)) == Some(y) && now - y.storedAt <= c.ttl
  {
    hide Touch, Run, LastStore, Strip;
    AnswerMember(c, Run(c, h), Resolve(id, sweep, now));
    RunCurrent(c, h, Touch(c, Run(c, h), Resolve(id, sweep, now)).value);
  }

  lemma AnswerMember(c: Config, s: seq<Slot>, e: Event)
    requires e.Resolve? && Touch(c, s, e).Some?
    ensures var y := Touch(c, s, e).value; y in s && y.key == Strip(e.id) && !Stale(c, e.now, y) && HasKey(s, y.key)
  {
    hide Filter, Strip;
    var y := Touch(c, s, e).value;
    FilterMember(LiveAt(c, e.sweep), s, y);
    var i :| 0 <= i < |s| && s[i] == y;
  }

  /** The last token is returned if it is not too old and fewer than `max` other keys were touched since. */
  lemma ResolveComplete(c: Config, h: seq<Event>, id: string, sweep: real, now: real)
    requires Clocked(h, sweep) && sweep <= now
    requires LastStore(h, Strip(id)).Some? && !Stale(c, now, LastStore(h, Strip(id)).value)
    requires |Since(c, h, Strip(id))| < c.max
    ensures Touch(c, Run(c, h), Resolve(id, sweep, now)) == LastStore(h, Strip(id))
  {
    hide Find, Touch, Run, LastStore, Since;
    var s, key := Run(c, h), Strip(id);
    if HasKey(s, key) {
      var i :| 0 <= i < |s| && s[i].key == key;
      RunCurrent(c, h, s[i]);
      RunDistinct(c, h);
      Found(c, s, Resolve(id, sweep, now), s[i]);
    } else {
      Lost(c, h, key, sweep);
    }
  }

  lemma Found(c: Config, s: seq<Slot>, e: Event, y: Slot)
    requires e.Resolve? && y in s && y.key == Strip(e.id) && DistinctKeys(s) && e.sweep <= e.now && !Stale(c, e.now, y)
    ensures Touch(c, s, e) == Some(y)
  {
    hide Filter;
    KeyFiltered(LiveAt(c, e.sweep), s, y.key);
    var found := Find(Swept(c, e.sweep, s), y.key).value;
    FilterMember(LiveAt(c, e.sweep), s, found);
  }

  /** The keys touched since, without those whose last token has expired. */
  function LiveSince(c: Config, h: seq<Event>, key: string, now: real): set<string> {
    set x | x in Since(c, h, key) && (LastStore(h, x).Some? ==> !Stale(c, now, LastStore(h, x).value)) :: x
  }

  /** Conversely, an answer is given only while fewer than `max` unexpired other keys were touched since. */
  lemma ResolveBounded(c: Config, h: seq<Event>, id: string, sweep: real, now: real)
    requires Clocked(h, sweep)
    requires Touch(c, Run(c, h), Resolve(id, sweep, now)).Some?
    ensures |LiveSince(c, h, Strip(id), sweep)| < c.max
  {
    hide Touch, Run, Since, Clocked, Strip, LiveSince, Keys;
    AnswerMember(c, Run(c, h), Resolve(id, sweep, now));
    RunOrdered(c, h);
    RunDistinct(c, h);
    KeysSize(Run(c, h));
    LivePresent(c, h, Strip(id), sweep);
    SubsetSize(LiveSince(c, h, Strip(id), sweep), Keys(Run(c, h)) - {Strip(id)});
  }

  lemma LivePresent(c: Config, h: seq<Event>, key: string, now: real)
    requires Clocked(h, now) && HasKey(Run(c, h), key)
    ensures key in Keys(Run(c, h)) && LiveSince(c, h, key, now) <= Keys(Run(c, h)) - {key}
  {
    hide Run, LastStore, Since, Clocked, HasKey, Stale;
    forall x | x in LiveSince(c, h, key, now) ensures x in Keys(Run(c, h)) - {key} {
      YoungerPresent(c, h, key, x, now);
    }
  }

  /** The three results above, about one answer. */
  lemma Answered(c: Config, h: seq<Event>, id: string, sweep: real, now: real)
    requires Clocked(h, sweep) && sweep <= now
    ensures var answer, last := Touch(c, Run(c, h), Resolve(id, sweep, now)), LastStore(h, Strip(id));
            && (answer.Some? ==> last == answer && now - last.value.storedAt <= c.ttl)
            && (answer.Some? ==> |LiveSince(c, h, Strip(id), sweep)| < c.max)
            && (answer.None? ==> last.None? || now - last.value.storedAt > c.ttl || |Since(c, h, Strip(id))| >= c.max)
  {
    hide Touch, Run, LastStore, Since, Clocked, LiveSince;
    var answer, last := Touch(c, Run(c, h), Resolve(id, sweep, now)), LastStore(h, Strip(id));
    if answer.Some? {
      ResolveSound(c, h, id, sweep, now);
      ResolveBounded(c, h, id, sweep, now);
    } else if last.Some? && !Stale(c, now, last.value) && |Since(c, h, Strip(id))| < c.max {
      ResolveComplete(c, h, id, sweep, now);
    }
  }
}
