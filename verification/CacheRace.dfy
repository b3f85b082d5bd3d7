/** The cache under concurrency. Get reads the entry under the read lock, looks at the
    clock afterwards, and takes the write lock again to evict; Set and Delete of other
    goroutines may run in between. */
module CacheRace {
  import opened Prelude
  import opened Caching

  type Value = nat

  /** What a goroutine inside Get knows between its steps. was is what the ideal map held
      when it looked; no step reads it. */
  datatype Reading = Looked(key: string, entry: Option<Entry<Value>>, was: Option<(Value, int)>) | Evicting(key: string)

  /** One hit: the value handed out, when its expiry was checked, and what the ideal map held
      when it was looked up. */
  datatype Returned = Returned(key: string, value: Value, checkedAt: int, was: Option<(Value, int)>)

  /** ideal is the plain map the cache stands for: the last value set and not deleted
      under each key, with the time it was set. */
  datatype State = State(
    entries: map<string, Entry<Value>>,
    gets: map<nat, Reading>,
    clock: int,
    ideal: map<string, (Value, int)>,
    hits: seq<Returned>)

  datatype Action =
    | Tick(now: int)
    | SetStep(key: string, value: Value)
    | DeleteStep(key: string)
    | DeletePrefixStep(prefix: string)
    | Look(thread: nat, key: string)
    | Check(thread: nat)
    | Evict(thread: nat)

  function Init(): State { State(map[], map[], 0, map[], []) }

  predicate Enabled(s: State, a: Action) {
    match a
    case Tick(now) => s.clock <= now
    case SetStep(_, _) => true
    case DeleteStep(_) => true
    case DeletePrefixStep(_) => true
    case Look(t, _) => t !in s.gets
    case Check(t) => t in s.gets && s.gets[t].Looked?
    case Evict(t) => t in s.gets && s.gets[t].Evicting?
  }

  function Lookup<V>(m: map<string, V>, k: string): Option<V> { if k in m then Some(m[k]) else None }

  function Step(ttl: int, s: State, a: Action): State
    requires Enabled(s, a)
  {
    match a
    case Tick(now) => s.(clock := now)
    case SetStep(k, v) =>
      s.(entries := Stored(s.entries, k, v, s.clock, ttl), ideal := s.ideal[k := (v, s.clock)])
    case DeleteStep(k) => s.(entries := s.entries - {k}, ideal := s.ideal - {k})
    case DeletePrefixStep(prefix) =>
      s.(entries := map k | k in s.entries && !(prefix <= k) :: s.entries[k],
         ideal := map k | k in s.ideal && !(prefix <= k) :: s.ideal[k])
    case Look(t, k) =>
      s.(gets := s.gets[t := Looked(k, Lookup(s.entries, k), Lookup(s.ideal, k))])
    case Check(t) =>
      var k, e, was := s.gets[t].key, s.gets[t].entry, s.gets[t].was;
      if e.None? then s.(gets := s.gets - {t})
      else if s.clock > e.value.expiresAt then s.(gets := s.gets[t := Evicting(k)])
      else s.(gets := s.gets - {t}, hits := s.hits + [Returned(k, e.value.value, s.clock, was)])
    case Evict(t) => s.(entries := s.entries - {s.gets[t].key}, gets := s.gets - {t})
  }

  ghost predicate Legal(ttl: int, s: State, run: seq<Action>)
    decreases |run|
  {
    run == [] || (Enabled(s, run[0]) && Legal(ttl, Step(ttl, s, run[0]), run[1..]))
  }

  function Run(ttl: int, s: State, run: seq<Action>): State
    requires Legal(ttl, s, run)
    decreases |run|
  {
    if run == [] then s else Run(ttl, Step(ttl, s, run[0]), run[1..])
  }

  /** Stored entries form a subset of the ideal map. */
  ghost predicate Subset(ttl: int, s: State) {
    forall k :: k in s.entries ==>
      k in s.ideal && s.entries[k].value == s.ideal[k].0 && s.entries[k].expiresAt == s.ideal[k].1 + ttl
  }

  /** A hit returns exactly what the ideal map held when it was looked up, and that had been
      set no more than ttl before its expiry was checked. */
  ghost predicate HitTrue(ttl: int, r: Returned) {
    r.was.Some? && r.was.value.0 == r.value && r.was.value.1 <= r.checkedAt <= r.was.value.1 + ttl
  }

  ghost predicate LookedTrue(ttl: int, s: State, g: Reading) {
    g.Looked? && g.entry.Some? ==>
      g.was == Some((g.entry.value.value, g.entry.value.expiresAt - ttl)) && g.entry.value.expiresAt - ttl <= s.clock
  }

  ghost predicate Inv(ttl: int, s: State) {
    && Subset(ttl, s)
    && (forall k :: k in s.ideal ==> s.ideal[k].1 <= s.clock)
    && (forall t :: t in s.gets ==> LookedTrue(ttl, s, s.gets[t]))
    && (forall r :: r in s.hits ==> HitTrue(ttl, r))
  }

  lemma StepKeepsInv(ttl: int, s: State, a: Action)
    requires Inv(ttl, s) && Enabled(s, a)
    ensures Inv(ttl, Step(ttl, s, a))
  {
  }

  /** Over every interleaving, the cache never holds what the ideal map does not, and every
      hit returns the ideal map's value of the moment it looked, no older than the ttl. */
  lemma {:induction false} LossyRefinement(ttl: int, s: State, run: seq<Action>)
    requires Inv(ttl, s) && Legal(ttl, s, run)
    ensures Inv(ttl, Run(ttl, s, run))
    decreases |run|
  {
    if run != [] {
      StepKeepsInv(ttl, s, run[0]);
      LossyRefinement(ttl, Step(ttl, s, run[0]), run[1..]);
    }
  }

  lemma InitInv(ttl: int)
    ensures Inv(ttl, Init())
  {
  }

  // ---- What gets lost, and when ----

  predicate Sets(a: Action, k: string) { a.SetStep? && a.key == k }

  ghost predicate NeverSets(run: seq<Action>, k: string) { forall i :: 0 <= i < |run| ==> !Sets(run[i], k) }

  predicate Evicts(s: State, a: Action, k: string) {
    a.Evict? && a.thread in s.gets && s.gets[a.thread] == Evicting(k)
  }

  /** Some eviction of k comes after the last time that the run sets k. */
  ghost predicate EvictedLast(ttl: int, s: State, run: seq<Action>, k: string)
    requires Legal(ttl, s, run)
    decreases |run|
  {
    run != [] &&
    ((Evicts(s, run[0], k) && NeverSets(run[1..], k)) || EvictedLast(ttl, Step(ttl, s, run[0]), run[1..], k))
  }

  lemma {:induction false} EvictedAfterSet(ttl: int, s: State, run: seq<Action>, k: string)
    requires Legal(ttl, s, run)
    ensures k in Run(ttl, s, run).ideal ==>
      (k !in Run(ttl, s, run).entries <==>
         EvictedLast(ttl, s, run, k) || (k !in s.entries && NeverSets(run, k)))
    decreases |run|
  {
    if run != [] {
      var s1 := Step(ttl, s, run[0]);
      EvictedAfterSet(ttl, s1, run[1..], k);
      assert NeverSets(run, k) <==> !Sets(run[0], k) && NeverSets(run[1..], k) by {
        assert forall i :: 0 < i < |run| ==> run[i] == run[1..][i - 1];
        assert forall i :: 0 <= i < |run| - 1 ==> run[1..][i] == run[i + 1];
      }
      if NeverSets(run[1..], k) && k in Run(ttl, s, run).ideal {
        StillIdeal(ttl, s1, run[1..], k);
      }
    }
  }

  lemma {:induction false} StillIdeal(ttl: int, s: State, run: seq<Action>, k: string)
    requires Legal(ttl, s, run) && NeverSets(run, k)
    ensures k in Run(ttl, s, run).ideal ==> k in s.ideal
    decreases |run|
  {
    if run != [] {
      assert forall i :: 0 <= i < |run| - 1 ==> run[1..][i] == run[i + 1];
      StillIdeal(ttl, Step(ttl, s, run[0]), run[1..], k);
    }
  }

  /** Exactly what gets lost: over every interleaving, the cache misses a value that the ideal
      map has if and only if some Get evicted the key after it was last set. */
  lemma LostIffEvicted(ttl: int, run: seq<Action>, k: string)
    requires Legal(ttl, Init(), run) && k in Run(ttl, Init(), run).ideal
    ensures k !in Run(ttl, Init(), run).entries <==> EvictedLast(ttl, Init(), run, k)
  {
    EvictedAfterSet(ttl, Init(), run, k);
    if NeverSets(run, k) {
      StillIdeal(ttl, Init(), run, k);
    }
  }

  /** Thread t is in a Get that saw entry e, which is still the one stored, if any is. */
  ghost predicate Following(s: State, t: nat, k: string, e: Option<Entry<Value>>) {
    && (k in s.entries ==> e == Some(s.entries[k]))
    && (t in s.gets ==>
          var g := s.gets[t];
          if g.Looked? then g.key == k && g.entry == e else g.key == k && e.Some? && s.clock > e.value.expiresAt)
  }

  ghost predicate NeverLooks(run: seq<Action>, t: nat) {
    forall i :: 0 <= i < |run| ==> !(run[i].Look? && run[i].thread == t)
  }

  lemma {:induction false} StillFollowing(ttl: int, s: State, run: seq<Action>, t: nat, k: string,
      e: Option<Entry<Value>>)
    requires Legal(ttl, s, run) && Following(s, t, k, e) && NeverSets(run, k) && NeverLooks(run, t)
    ensures Following(Run(ttl, s, run), t, k, e)
    decreases |run|
  {
    if run != [] {
      assert forall i :: 0 <= i < |run| - 1 ==> run[1..][i] == run[i + 1];
      StillFollowing(ttl, Step(ttl, s, run[0]), run[1..], t, k, e);
    }
  }

  /** A guard that a reader can check: if nobody sets the key between a Get's look and its
      eviction, then what that eviction removes has expired. */
  lemma EvictedHadExpired(ttl: int, s: State, t: nat, k: string, run: seq<Action>)
    requires Enabled(s, Look(t, k)) && Legal(ttl, Step(ttl, s, Look(t, k)), run)
    requires NeverSets(run, k) && NeverLooks(run, t)
    ensures
      var s' := Run(ttl, Step(ttl, s, Look(t, k)), run);
      Evicts(s', Evict(t), k) && k in s'.entries ==> s'.clock > s'.entries[k].expiresAt
  {
    StillFollowing(ttl, Step(ttl, s, Look(t, k)), run, t, k, Lookup(s.entries, k));
  }

  /** And without that guard it fails: a slow Get evicts a value that was set after it
      looked, although that value has not expired. */
  lemma EvictionLosesFreshValue()
    ensures
      var run := [SetStep("k", 1), Tick(11), Look(0, "k"), Check(0), SetStep("k", 2), Evict(0)];
      && Legal(10, Init(), run)
      && var s := Run(10, Init(), run);
      "k" !in s.entries && "k" in s.ideal && s.ideal["k"] == (2, 11) && s.clock <= 11 + 10
  {
  }
}
