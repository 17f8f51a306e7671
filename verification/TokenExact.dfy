/**
  Exactly when the cache answers: the last token stored under a key is returned if and only if it has not expired
  and no store since the last touch of the key found the cache crowded by other live keys touched since.
 */
module TokenExact {
  import opened Basics
  import opened Ordering
  import opened Text
  import opened TokenHistory

  /**
    At the last call, a store: the keys other than `key` touched since it was, live at the sweep, and the stored one.
   */
  function Crowd(c: Config, h: seq<Event>, key: string): set<string>
    requires h != []
  {
    var front, e := h[..|h| - 1], h[|h| - 1];
    LiveSince(c, front, key, e.sweep) + {Strip(e.id)}
  }

  /** No store since the last touch of the key filled the cache with others. */
  predicate NeverCrowded(c: Config, h: seq<Event>, key: string) {
    if h == [] then true
    else
      var front, e := h[..|h| - 1], h[|h| - 1];
      var touch := Touch(c, Run(c, front), e);
      if touch.None? then NeverCrowded(c, front, key)
      else if touch.value.key == key then e.Store? ==> c.max > 0
      else NeverCrowded(c, front, key) && (e.Store? ==> |Crowd(c, h, key)| < c.max)
  }

  /** The entries behind position p of the renewed dictionary are those of the crowd. */
  lemma BehindIsCrowd(c: Config, h: seq<Event>, t: seq<Slot>, p: nat)
    requires h != [] && h[|h| - 1].Store? && Clocked(h[..|h| - 1], h[|h| - 1].sweep)
    requires var s, e := Run(c, h[..|h| - 1]), h[|h| - 1];
             && Touch(c, s, e).Some? && t == Renewed(c, s, e, Touch(c, s, e).value)
             && p < |t| && t[p].key != Strip(e.id)
    ensures Keys(t[p + 1..]) == Crowd(c, h, t[p].key)
  {
    hide Touch, Since, Renewed, Run, Clocked, LiveSince;
    var front, e := h[..|h| - 1], h[|h| - 1];
    var s, key := Run(c, front), t[p].key;
    TouchKey(c, s, e);
    forall x | x in Keys(t[p + 1..]) ensures x in Crowd(c, h, key) {
      BehindInCrowd(c, h, t, p, x);
    }
    forall x | x in Crowd(c, h, key) ensures x in Keys(t[p + 1..]) {
      CrowdBehind(c, h, t, p, x);
    }
  }

  lemma RenewedMember(c: Config, s: seq<Slot>, e: Event, y: Slot, z: Slot)
    ensures z in Renewed(c, s, e, y) <==> z == y || (z in s && !Stale(c, e.sweep, z) && z.key != y.key)
  {
    hide Delete, Swept, Stale;
    Survivor(c, e.sweep, s, y.key, z);
    InAppended(Delete(Swept(c, e.sweep, s), y.key), y, z);
  }

  lemma BehindInCrowd(c: Config, h: seq<Event>, t: seq<Slot>, p: nat, x: string)
    requires h != [] && h[|h| - 1].Store?
    requires var s, e := Run(c, h[..|h| - 1]), h[|h| - 1];
             && Touch(c, s, e).Some? && t == Renewed(c, s, e, Touch(c, s, e).value)
             && p < |t| && t[p].key != Strip(e.id)
    requires x in Keys(t[p + 1..])
    ensures x in Crowd(c, h, t[p].key)
  {
    hide Touch, Since, Renewed, Run, Keys;
    var front, e := h[..|h| - 1], h[|h| - 1];
    var s := Run(c, front);
    var y := Touch(c, s, e).value;
    TouchKey(c, s, e);
    var i := PlaceOf(t, p + 1, x);
    RunOrdered(c, front);
    RenewedSorted(c, h);
    SinceGrows(c, h, t[p].key);
    InOrder(YoungerIn(c, h), t, p, i);
    RenewedMember(c, s, e, y, t[i]);
    if t[i] != y {
      RunCurrent(c, front, t[i]);
    }
  }

  lemma PlaceOf(t: seq<Slot>, from: nat, x: string) returns (i: nat)
    requires from <= |t| && x in Keys(t[from..])
    ensures from <= i < |t| && t[i].key == x
  {
    var u := t[from..];
    var j :| 0 <= j < |u| && u[j].key == x;
    i := from + j;
  }

  lemma CrowdBehind(c: Config, h: seq<Event>, t: seq<Slot>, p: nat, x: string)
    requires h != [] && h[|h| - 1].Store? && Clocked(h[..|h| - 1], h[|h| - 1].sweep)
    requires var s, e := Run(c, h[..|h| - 1]), h[|h| - 1];
             && Touch(c, s, e).Some? && t == Renewed(c, s, e, Touch(c, s, e).value)
             && p < |t| && t[p].key != Strip(e.id)
    requires x in Crowd(c, h, t[p].key)
    ensures x in Keys(t[p + 1..])
  {
    hide Touch, Since, Renewed, Run, Keys, Clocked, Sorted;
    var front, e := h[..|h| - 1], h[|h| - 1];
    var s, key := Run(c, front), t[p].key;
    var y := Touch(c, s, e).value;
    TouchKey(c, s, e);
    var z := CrowdSlot(c, h, t, p, x);
    RunOrdered(c, front);
    RenewedSorted(c, h);
    SinceGrows(c, h, key);
    var i :| 0 <= i < |t| && t[i] == z;
    YoungerBehind(c, h, t, p, i);
    KeyBehind(t, p + 1, i);
  }

  lemma YoungerBehind(c: Config, h: seq<Event>, t: seq<Slot>, p: nat, i: nat)
    requires Sorted(YoungerIn(c, h), t) && p < |t| && i < |t| && t[i].key in Since(c, h, t[p].key)
    ensures p < i
  {
    hide Since, Sorted;
    NotBothYounger(c, h, t[p].key, t[i].key);
    InOrder(YoungerIn(c, h), t, i, p);
  }

  lemma InOrder<T>(leq: (T, T) -> bool, t: seq<T>, i: nat, j: nat)
    requires Sorted(leq, t) && i < |t| && j < |t|
    ensures i < j ==> leq(t[i], t[j])
  {
  }

  lemma KeyBehind(t: seq<Slot>, from: nat, i: nat)
    requires from <= i < |t|
    ensures t[i].key in Keys(t[from..])
  {
    assert t[from..][i - from] == t[i];
  }

  lemma CrowdSlot(c: Config, h: seq<Event>, t: seq<Slot>, p: nat, x: string) returns (z: Slot)
    requires h != [] && h[|h| - 1].Store? && Clocked(h[..|h| - 1], h[|h| - 1].sweep)
    requires var s, e := Run(c, h[..|h| - 1]), h[|h| - 1];
             && Touch(c, s, e).Some? && t == Renewed(c, s, e, Touch(c, s, e).value)
             && p < |t| && t[p].key != Strip(e.id)
    requires x in Crowd(c, h, t[p].key)
    ensures z in t && z.key == x != t[p].key
  {
    hide Touch, Since, Renewed, Run, Clocked;
    var front, e := h[..|h| - 1], h[|h| - 1];
    var s, key := Run(c, front), t[p].key;
    var y := Touch(c, s, e).value;
    TouchKey(c, s, e);
    if x == Strip(e.id) {
      z := y;
    } else {
      RenewedMember(c, s, e, y, t[p]);
      assert HasKey(s, key);
      YoungerPresent(c, front, key, x, e.sweep);
      var i :| 0 <= i < |s| && s[i].key == x;
      z := s[i];
      RunCurrent(c, front, z);
    }
    RenewedMember(c, s, e, y, z);
  }

  /** Eviction for size keeps an entry exactly when fewer than max entries stand behind it. */
  lemma OverflowKeeps(c: Config, t: seq<Slot>, p: nat)
    requires DistinctKeys(t) && p < |t|
    ensures HasKey(Overflowed(c, t), t[p].key) <==> |Keys(t[p + 1..])| < c.max
  {
    DistinctSuffix(t, p + 1);
    KeysSize(t[p + 1..]);
    var u, k := Overflowed(c, t), if |t| > c.max then |t| - c.max else 0;
    assert u == t[k..];
    if p >= k {
      assert u[p - k].key == t[p].key;
    }
    if HasKey(u, t[p].key) {
      var i :| 0 <= i < |u| && u[i].key == t[p].key;
      assert t[k + i].key == t[p].key;
    }
  }

  lemma DistinctSuffix(t: seq<Slot>, k: nat)
    requires DistinctKeys(t) && k <= |t|
    ensures DistinctKeys(t[k..])
  {
    var u := t[k..];
    assert forall i | 0 <= i < |u| :: u[i] == t[k + i];
  }

  lemma SortedDistinct(c: Config, h: seq<Event>, t: seq<Slot>)
    requires Sorted(YoungerIn(c, h), t)
    ensures DistinctKeys(t)
  {
    hide Since;
    assert forall i, j :: 0 <= i < j < |t| ==> YoungerIn(c, h)(t[i], t[j]);
  }

  /** One store of another key: a present, live entry stays exactly when the crowd is smaller than the cache. */
  lemma StoreKeeps(c: Config, h: seq<Event>, y: Slot)
    requires h != [] && h[|h| - 1].Store? && Clocked(h[..|h| - 1], h[|h| - 1].sweep)
    requires var s, e := Run(c, h[..|h| - 1]), h[|h| - 1];
             && Touch(c, s, e).Some? && y in s && y.key != Strip(e.id) && !Stale(c, e.sweep, y)
    ensures HasKey(Run(c, h), y.key) <==> |Crowd(c, h, y.key)| < c.max
  {
    hide Touch, Since, Renewed, Run, Clocked, Crowd, Overflowed, HasKey, Stale, Keys, DistinctKeys, YoungerIn, Sorted;
    var front, e := h[..|h| - 1], h[|h| - 1];
    var s := Run(c, front);
    var t := Renewed(c, s, e, Touch(c, s, e).value);
    TouchKey(c, s, e);
    RenewedMember(c, s, e, Touch(c, s, e).value, y);
    var p :| 0 <= p < |t| && t[p] == y;
    RunOrdered(c, front);
    RenewedSorted(c, h);
    SortedDistinct(c, h, t);
    BehindIsCrowd(c, h, t, p);
    OverflowKeeps(c, t, p);
    RunRenewed(c, h);
  }

  /** An unexpired last token is in the cache exactly when the cache was never crowded since its last touch. */
  lemma {:induction false} PresentExactly(c: Config, h: seq<Event>, key: string, now: real)
    requires Clocked(h, now) && LastStore(h, key).Some? && !Stale(c, now, LastStore(h, key).value)
    ensures HasKey(Run(c, h), key) <==> NeverCrowded(c, h, key)
  {
    if h == [] {
      NeverStored(key);
    } else {
      var front, e := h[..|h| - 1], h[|h| - 1];
      var touch := Touch(c, Run(c, front), e);
      if touch.Some? && touch.value.key == key {
        PresentTouched(c, h);
      } else {
        LastStoreStep(c, h, key);
        hide LastStore, Run, Touch, Crowd;
        PresentExactly(c, front, key, e.sweep);
        PresentStep(c, h, key);
      }
    }
  }

  lemma PresentTouched(c: Config, h: seq<Event>)
    requires h != [] && Touch(c, Run(c, h[..|h| - 1]), h[|h| - 1]).Some?
    ensures var key := Touch(c, Run(c, h[..|h| - 1]), h[|h| - 1]).value.key;
            HasKey(Run(c, h), key) <==> (h[|h| - 1].Store? ==> c.max > 0)
  {
    hide Touch, Since, Step, HasKey;
    var s, e := Run(c, h[..|h| - 1]), h[|h| - 1];
    RunOrdered(c, h);
    EmptyLacks();
    if e.Store? ==> c.max > 0 {
      TouchedLast(c, s, e);
    }
  }

  lemma EmptyLacks()
    ensures forall key :: !HasKey([], key)
  {
  }

  /** What one call does to a key it does not touch and that is live when it is over. */
  lemma PresentStep(c: Config, h: seq<Event>, key: string)
    requires h != [] && Clocked(h, h[|h| - 1].now)
    requires LastStore(h, key).Some? && !Stale(c, h[|h| - 1].now, LastStore(h, key).value)
    requires var touch := Touch(c, Run(c, h[..|h| - 1]), h[|h| - 1]); touch.Some? ==> touch.value.key != key
    ensures HasKey(Run(c, h), key) <==>
            && HasKey(Run(c, h[..|h| - 1]), key)
            && (h[|h| - 1].Store? && Touch(c, Run(c, h[..|h| - 1]), h[|h| - 1]).Some? ==> |Crowd(c, h, key)| < c.max)
  {
    hide Touch, Since, Step, LastStore, Crowd, Renewed, Keys;
    var front, e := h[..|h| - 1], h[|h| - 1];
    var s := Run(c, front);
    LastStoreStep(c, h, key);
    TouchKey(c, s, e);
    if HasKey(s, key) {
      var i :| 0 <= i < |s| && s[i].key == key;
      RunCurrent(c, front, s[i]);
      if e.Store? && Touch(c, s, e).Some? {
        StoreKeeps(c, h, s[i]);
      } else {
        Unmoved(c, h, s[i]);
      }
    } else if HasKey(Run(c, h), key) {
      var i :| 0 <= i < |Run(c, h)| && Run(c, h)[i].key == key;
      StepMember(c, s, e, Run(c, h)[i]);
    }
  }

  lemma Unmoved(c: Config, h: seq<Event>, y: Slot)
    requires h != [] && h[|h| - 1].sweep <= h[|h| - 1].now && !Stale(c, h[|h| - 1].now, y)
    requires var s, e := Run(c, h[..|h| - 1]), h[|h| - 1];
             && y in s && (Touch(c, s, e).Some? ==> Touch(c, s, e).value.key != y.key)
             && !(e.Store? && Touch(c, s, e).Some?)
    ensures HasKey(Run(c, h), y.key)
  {
    hide Touch, Since, Step, Renewed, Stale;
    var s, e := Run(c, h[..|h| - 1]), h[|h| - 1];
    if y !in Step(c, s, e) {
      StepKeeps(c, s, e, y);
      RunDistinct(c, h[..|h| - 1]);
      MissedExpired(c, s, e, y);
    }
    var i :| 0 <= i < |Run(c, h)| && Run(c, h)[i] == y;
  }

  /**
    The last token stored under the key is returned if and only if it has not expired and at every store since the
    last touch of the key fewer than max other keys were live and touched since.
   */
  lemma ResolveExactly(c: Config, h: seq<Event>, id: string, sweep: real, now: real)
    requires Clocked(h, sweep) && sweep <= now
    ensures var last := LastStore(h, Strip(id));
            Touch(c, Run(c, h), Resolve(id, sweep, now))
            == if last.Some? && !Stale(c, now, last.value) && NeverCrowded(c, h, Strip(id)) then last else None
  {
    hide Touch, Run, LastStore, Since, Clocked, NeverCrowded;
    var s, key := Run(c, h), Strip(id);
    var e := Resolve(id, sweep, now);
    if Touch(c, s, e).Some? {
      ResolveSound(c, h, id, sweep, now);
      AnswerMember(c, s, e);
      StaleLater(c, sweep, now, LastStore(h, key).value);
      PresentExactly(c, h, key, sweep);
    } else if LastStore(h, key).Some? && !Stale(c, now, LastStore(h, key).value) {
      StaleLater(c, sweep, now, LastStore(h, key).value);
      PresentExactly(c, h, key, sweep);
      if HasKey(s, key) {
        var i :| 0 <= i < |s| && s[i].key == key;
        RunCurrent(c, h, s[i]);
        RunDistinct(c, h);
        Found(c, s, e, s[i]);
      }
    }
  }

  lemma StaleLater(c: Config, sweep: real, now: real, y: Slot)
    requires sweep <= now
    ensures Stale(c, sweep, y) ==> Stale(c, now, y)
  {
  }
}
