/** Conversation grouping of the proxy: `RunGrouper.resolve` and its eviction, over any sequence of calls. */
module RunGrouper {

  const WINDOW_MS: int := 30 * 60 * 1000
  const MAX_ENTRIES: nat := 1024
  /** Ten per cent of the maximum, rounded down. */
  const DROP_COUNT: nat := 102

  /** `handle` is the identity of the entry object. */
  datatype Entry = Entry(handle: nat, runId: string, provider: string, stepCount: nat, messages: nat, lastSeen: int)

  /** One request; an absent provider or explicit run id is the empty string, as in the source. */
  datatype Call = Call(explicitId: string, provider: string, model: string, system: string, firstUser: string,
                       messages: nat, now: int, uuid: string)

  datatype Outcome = Outcome(runId: string, isNew: bool, sequence: nat, entry: Entry)

  /** The insertion-ordered `Map` of entries, and how many entry objects were made. */
  datatype State = State(keys: seq<string>, entries: map<string, Entry>, made: nat) {
    ghost predicate Valid() {
      && (forall j, k | 0 <= j < k < |keys| :: keys[j] != keys[k])
      && (forall k :: k in keys <==> k in entries)
    }
  }

  const EMPTY := State([], map[], 0)

  /** The digest of the seed text. */
  type Hash = string -> string

  function SeedText(provider: string, model: string, system: string, firstUser: string): string {
    Scoped(provider, model + "\n" + system + "\n" + firstUser)
  }

  function Scoped(provider: string, id: string): string {
    provider + "\n" + id
  }

  function SeedOf(c: Call): string {
    SeedText(c.provider, c.model, c.system, c.firstUser)
  }

  /** The key a request is looked up under. */
  function KeyFor(s: State, c: Call, sha: Hash): string {
    if c.explicitId == "" then sha(SeedOf(c))
    else if c.explicitId in s.entries && s.entries[c.explicitId].provider != c.provider then
      Scoped(c.provider, c.explicitId)
    else c.explicitId
  }

  /** The request continues the entry under `key`. */
  predicate Continues(s: State, c: Call, key: string) {
    && key in s.entries
    && (c.explicitId != "" || (c.now - s.entries[key].lastSeen < WINDOW_MS && c.messages >= s.entries[key].messages))
  }

  function Advanced(e: Entry, c: Call): Entry {
    e.(stepCount := e.stepCount + 1, messages := c.messages, lastSeen := c.now)
  }

  function Made(s: State, c: Call, key: string): Entry {
    Entry(s.made, if key == c.explicitId && key != "" then c.explicitId else "run_" + c.uuid, c.provider, 1, c.messages,
          c.now)
  }

  /** `Map.set`: a key already there keeps its place. */
  function Put(s: State, key: string, e: Entry): State {
    State(if key in s.entries then s.keys else s.keys + [key], s.entries[key := e], s.made)
  }

  // ----- Eviction -----

  function PositionOf(keys: seq<string>, key: string): (at: nat)
    ensures at <= |keys| && (at < |keys| <==> key in keys) && (at < |keys| ==> keys[at] == key)
  {
    if keys == [] || keys[0] == key then 0 else 1 + PositionOf(keys[1..], key)
  }

  /** `a` was seen longer ago than `b`, or as long ago and entered before it. */
  predicate Older(s: State, a: string, b: string)
    requires a in s.entries && b in s.entries
  {
    s.entries[a].lastSeen < s.entries[b].lastSeen
    || (s.entries[a].lastSeen == s.entries[b].lastSeen && PositionOf(s.keys, a) < PositionOf(s.keys, b))
  }

  function Without(keys: seq<string>, gone: set<string>): (left: seq<string>)
    ensures forall k :: k in left <==> k in keys && k !in gone
  {
    if keys == [] then [] else (if keys[0] in gone then [] else [keys[0]]) + Without(keys[1..], gone)
  }

  /** `gone` is the `DROP_COUNT` least recently seen keys. */
  ghost predicate Oldest(s: State, gone: set<string>) {
    && |gone| == DROP_COUNT && gone <= s.entries.Keys
    && forall d, k | d in gone && k in s.entries.Keys - gone :: Older(s, d, k)
  }

  function Drop(s: State, gone: set<string>): State {
    State(Without(s.keys, gone), s.entries - gone, s.made)
  }

  ghost predicate EvictsTo(s: State, t: State) {
    if |s.entries| <= MAX_ENTRIES then t == s
    else exists gone :: Oldest(s, gone) && t == Drop(s, gone)
  }

  lemma OlderOneWay(s: State, a: set<string>, b: set<string>, d: string)
    requires s.Valid() && Oldest(s, a) && Oldest(s, b) && d in a && d !in b
    ensures b <= a
  {
    forall e | e in b ensures e in a {
      assert Older(s, e, d);
      assert e !in a ==> Older(s, d, e);
    }
  }

  lemma SameSize(a: set<string>, b: set<string>)
    requires b <= a && |a| == |b|
    ensures a == b
  {
    assert |a - b| == |a| - |b|;
  }

  /** The keys to drop are determined. */
  lemma OldestIsUnique(s: State, a: set<string>, b: set<string>)
    requires s.Valid() && Oldest(s, a) && Oldest(s, b)
    ensures a == b
  {
    forall d | d in a ensures d in b {
      if d !in b {
        OlderOneWay(s, a, b, d);
        SameSize(a, b);
      }
    }
    SameSize(b, a);
  }

  // ----- Eviction in place -----

  lemma {:induction false} KeyCount(keys: seq<string>, all: set<string>)
    requires forall j, k | 0 <= j < k < |keys| :: keys[j] != keys[k]
    requires forall k :: k in keys <==> k in all
    ensures |keys| == |all|
  {
    if keys != [] {
      assert forall k :: k in keys <==> k == keys[0] || k in keys[1..];
      KeyCount(keys[1..], all - {keys[0]});
    } else {
      assert all == {};
    }
  }

  lemma {:induction false} WithoutNone(keys: seq<string>)
    ensures Without(keys, {}) == keys
  {
    if keys != [] { WithoutNone(keys[1..]); }
  }

  lemma {:induction false} WithoutTwice(keys: seq<string>, gone: set<string>, k: string)
    ensures Without(Without(keys, gone), {k}) == Without(keys, gone + {k})
  {
    if keys != [] {
      WithoutTwice(keys[1..], gone, k);
      var rest := Without(keys[1..], gone);
      if keys[0] !in gone { assert ([keys[0]] + rest)[1..] == rest; } else { assert [] + rest == rest; }
    }
  }

  lemma {:induction false} PositionIs(keys: seq<string>, k: nat)
    requires k < |keys| && forall j | 0 <= j < k :: keys[j] != keys[k]
    ensures PositionOf(keys, keys[k]) == k
  {
    if k > 0 { PositionIs(keys[1..], k - 1); }
  }

  /** The entries in ascending order of `last_seen_ms`, ties in insertion order. */
  ghost predicate InOrder(s: State, sorted: seq<string>) {
    && (forall k | k in sorted :: k in s.entries)
    && forall j, k | 0 <= j < k < |sorted| :: Older(s, sorted[j], sorted[k])
  }

  /** The stable sort of the entries by `last_seen_ms`. */
  method SortByLastSeen(s: State) returns (sorted: seq<string>)
    requires s.Valid()
    ensures |sorted| == |s.keys| && InOrder(s, sorted) && forall k :: k in sorted <==> k in s.keys
  {
    hide Older, PositionOf;
    sorted := [];
    for i := 0 to |s.keys|
      invariant |sorted| == i && InOrder(s, sorted) && forall k :: k in sorted <==> k in s.keys[..i]
    {
      var key := s.keys[i];
      var at: nat := |sorted|;
      while at > 0 && s.entries[sorted[at - 1]].lastSeen > s.entries[key].lastSeen
        invariant 0 <= at <= |sorted|
        invariant forall j | at <= j < |sorted| ::
                    sorted[j] in s.entries && s.entries[sorted[j]].lastSeen > s.entries[key].lastSeen
      {
        at := at - 1;
      }
      assert s.keys[..i + 1] == s.keys[..i] + [key];
      Slots(s, sorted, i, at);
      sorted := sorted[..at] + [key] + sorted[at..];
    }
    assert s.keys[..|s.keys|] == s.keys;
  }

  lemma Slots(s: State, sorted: seq<string>, i: nat, at: nat)
    requires s.Valid() && i < |s.keys| && at <= |sorted|
    requires InOrder(s, sorted) && forall k :: k in sorted <==> k in s.keys[..i]
    requires forall j | at <= j < |sorted| ::
               sorted[j] in s.entries && s.entries[sorted[j]].lastSeen > s.entries[s.keys[i]].lastSeen
    requires at > 0 ==> s.entries[sorted[at - 1]].lastSeen <= s.entries[s.keys[i]].lastSeen
    ensures InOrder(s, sorted[..at] + [s.keys[i]] + sorted[at..])
    ensures forall k :: k in sorted[..at] + [s.keys[i]] + sorted[at..] <==> k in sorted || k == s.keys[i]
  {
    var key := s.keys[i];
    assert key in s.keys;
    assert sorted == sorted[..at] + sorted[at..];
    forall j | 0 <= j < at ensures sorted[j] in s.entries && Older(s, sorted[j], key) {
      assert j < at - 1 ==> Older(s, sorted[j], sorted[at - 1]);
      SeenEarlier(s, sorted, i, sorted[j]);
    }
    Inserted(s, sorted, key, at);
  }

  lemma SeenEarlier(s: State, sorted: seq<string>, i: nat, k: string)
    requires s.Valid() && i < |s.keys| && k in s.keys[..i]
    ensures k in s.entries && PositionOf(s.keys, k) < PositionOf(s.keys, s.keys[i])
  {
  }

  lemma Inserted(s: State, sorted: seq<string>, key: string, at: nat)
    requires at <= |sorted| && InOrder(s, sorted) && key in s.entries
    requires forall j | 0 <= j < at :: Older(s, sorted[j], key)
    requires forall j | at <= j < |sorted| :: Older(s, key, sorted[j])
    ensures InOrder(s, sorted[..at] + [key] + sorted[at..])
  {
  }

  /** The first `i` of the sorted keys. */
  ghost predicate First(sorted: seq<string>, i: nat, gone: set<string>) {
    i <= |sorted| && |gone| == i && forall k :: k in gone <==> k in sorted[..i]
  }

  lemma NoneGone(sorted: seq<string>)
    ensures First(sorted, 0, {})
  {
  }

  lemma OneMoreGone(s: State, sorted: seq<string>, i: nat, gone: set<string>)
    requires InOrder(s, sorted) && First(sorted, i, gone) && i < |sorted|
    ensures First(sorted, i + 1, gone + {sorted[i]})
    ensures Without(Without(s.keys, gone), {sorted[i]}) == Without(s.keys, gone + {sorted[i]})
  {
    assert sorted[..i + 1] == sorted[..i] + [sorted[i]];
    forall j | 0 <= j < i ensures sorted[j] != sorted[i] { assert Older(s, sorted[j], sorted[i]); }
    WithoutTwice(s.keys, gone, sorted[i]);
  }

  // ----- One call -----

  /** What `resolve` does to the entries and what it returns. */
  ghost predicate Resolves(s: State, c: Call, sha: Hash, t: State, out: Outcome) {
    var key := KeyFor(s, c, sha);
    if Continues(s, c, key) then
      var e := Advanced(s.entries[key], c);
      && t == Put(s, key, e)
      && out == Outcome(e.runId, false, s.entries[key].stepCount, e)
    else
      var e := Made(s, c, key);
      && EvictsTo(Put(s, key, e).(made := s.made + 1), t)
      && out == Outcome(e.runId, true, 0, e)
  }

  class Grouper {
    const sha: Hash
    var keys: seq<string>
    var entries: map<string, Entry>
    var made: nat

    constructor (sha: Hash)
      ensures this.sha == sha && Value() == EMPTY
    {
      this.sha := sha;
      keys := [];
      entries := map[];
      made := 0;
    }

    ghost function Value(): State
      reads this
    {
      State(keys, entries, made)
    }

    method Set(key: string, e: Entry)
      modifies this
      ensures Value() == Put(old(Value()), key, e)
    {
      if key !in entries { keys := keys + [key]; }
      entries := entries[key := e];
    }

    /** `_fresh`, followed by `set` and `_evictIfNeeded`. */
    method Enter(key: string, runId: string, c: Call) returns (e: Entry)
      requires Value().Valid()
      modifies this
      ensures e == Entry(old(made), runId, c.provider, 1, c.messages, c.now)
      ensures EvictsTo(Put(old(Value()), key, e).(made := old(made) + 1), Value())
    {
      e := Entry(made, runId, c.provider, 1, c.messages, c.now);
      made := made + 1;
      Set(key, e);
      EvictIfNeeded();
    }

    /** `resolve`. */
    method Resolve(c: Call) returns (out: Outcome)
      requires Value().Valid()
      modifies this
      ensures Resolves(old(Value()), c, sha, Value(), out)
    {
      hide EvictsTo;
      if c.explicitId != "" {
        var key := c.explicitId;
        if key in entries && entries[key].provider != c.provider {
          key := c.provider + "\n" + c.explicitId;
        }
        if key in entries {
          var existing := Advanced(entries[key], c);
          Set(key, existing);
          return Outcome(existing.runId, false, existing.stepCount - 1, existing);
        }
        var runId := if key == c.explicitId then c.explicitId else "run_" + c.uuid;
        var e := Enter(key, runId, c);
        return Outcome(runId, true, 0, e);
      }
      var seed := sha(SeedOf(c));
      if seed in entries && c.now - entries[seed].lastSeen < WINDOW_MS && c.messages >= entries[seed].messages {
        var existing := Advanced(entries[seed], c);
        Set(seed, existing);
        return Outcome(existing.runId, false, existing.stepCount - 1, existing);
      }
      var e := Enter(seed, "run_" + c.uuid, c);
      return Outcome(e.runId, true, 0, e);
    }

    /** `_evictIfNeeded`. */
    method EvictIfNeeded()
      requires Value().Valid()
      modifies this
      ensures EvictsTo(old(Value()), Value())
    {
      if |entries| <= MAX_ENTRIES {
        return;
      }
      var sorted := SortByLastSeen(State(keys, entries, made));
      KeyCount(keys, entries.Keys);
      ghost var gone := Delete(sorted);
    }

    method Delete(sorted: seq<string>) returns (ghost gone: set<string>)
      requires InOrder(Value(), sorted) && |sorted| >= DROP_COUNT
      modifies this
      ensures First(sorted, DROP_COUNT, gone) && Value() == Drop(old(Value()), gone)
    {
      hide InOrder, First;
      ghost var was := Value();
      WithoutNone(keys);
      gone := {};
      NoneGone(sorted);
      for i := 0 to DROP_COUNT
        invariant First(sorted, i, gone) && Value() == Drop(was, gone)
      {
        OneMoreGone(was, sorted, i, gone);
        keys := Without(keys, {sorted[i]});
        entries := entries - {sorted[i]};
        gone := gone + {sorted[i]};
      }
    }
  }

  // ----- Runs of calls -----

  datatype Run = Run(states: seq<State>, calls: seq<Call>, outs: seq<Outcome>) {
    /** Any sequence of calls on a new grouper. */
    ghost predicate Valid(sha: Hash) {
      && |states| == |calls| + 1 && |outs| == |calls| && states[0] == EMPTY
      && forall i | 0 <= i < |calls| :: Resolves(states[i], calls[i], sha, states[i + 1], outs[i])
    }
  }

  /** What holds between calls: a bounded map of entry objects, each under one key. */
  ghost predicate Bounded(s: State) {
    && s.Valid() && |s.entries| <= MAX_ENTRIES
    && (forall k | k in s.entries :: s.entries[k].handle < s.made)
    && (forall j, k | j in s.entries && k in s.entries && j != k :: s.entries[j].handle != s.entries[k].handle)
  }

  lemma DropIsValid(s: State, gone: set<string>)
    requires s.Valid() && gone <= s.entries.Keys
    ensures Drop(s, gone).Valid()
  {
    WithoutIsDistinct(s.keys, gone);
    var t := Drop(s, gone);
    assert forall j, k | 0 <= j < k < |t.keys| :: t.keys[j] != t.keys[k];
  }

  lemma {:induction false} WithoutIsDistinct(keys: seq<string>, gone: set<string>)
    requires forall j, k | 0 <= j < k < |keys| :: keys[j] != keys[k]
    ensures forall j, k | 0 <= j < k < |Without(keys, gone)| :: Without(keys, gone)[j] != Without(keys, gone)[k]
  {
    if keys != [] {
      WithoutIsDistinct(keys[1..], gone);
      assert keys[0] !in keys[1..];
      assert keys[0] !in Without(keys[1..], gone);
    }
  }

  lemma PutIsValid(s: State, key: string, e: Entry)
    requires s.Valid()
    ensures Put(s, key, e).Valid() && |Put(s, key, e).entries| <= |s.entries| + 1
  {
  }

  lemma CallKeepsValid(s: State, c: Call, sha: Hash, t: State, out: Outcome)
    requires s.Valid() && |s.entries| <= MAX_ENTRIES && Resolves(s, c, sha, t, out)
    ensures t.Valid() && |t.entries| <= MAX_ENTRIES
  {
    var key := KeyFor(s, c, sha);
    PutIsValid(s, key, out.entry);
    if Continues(s, c, key) {
      assert s.entries[key := out.entry].Keys == s.entries.Keys;
    } else {
      EvictionShrinks(Put(s, key, out.entry).(made := s.made + 1), t);
    }
  }

  lemma EvictionShrinks(mid: State, t: State)
    requires mid.Valid() && |mid.entries| <= MAX_ENTRIES + 1 && EvictsTo(mid, t)
    ensures t.Valid() && |t.entries| <= MAX_ENTRIES
  {
    if |mid.entries| > MAX_ENTRIES {
      var gone :| Oldest(mid, gone) && t == Drop(mid, gone);
      DropIsValid(mid, gone);
    }
  }

  /** A call leaves entries alone, but for the one it returns; that one is new or one of the map advanced. */
  ghost predicate Moves(s: State, t: State, out: Outcome) {
    && s.made <= t.made && out.entry.handle < t.made && out.runId == out.entry.runId
    && (forall k | k in t.entries :: t.entries[k] == out.entry ||
          (k in s.entries && t.entries[k] == s.entries[k] && s.entries[k].handle != out.entry.handle))
    && (if out.isNew then out.sequence == 0 && out.entry.stepCount == 1 && out.entry.handle == s.made
        else exists k :: k in s.entries && AdvancedFrom(s.entries[k], out))
  }

  ghost predicate AdvancedFrom(e: Entry, out: Outcome) {
    && e.handle == out.entry.handle && e.runId == out.entry.runId && e.provider == out.entry.provider
    && e.stepCount == out.sequence && out.entry.stepCount == out.sequence + 1
  }

  lemma CallMoves(s: State, c: Call, sha: Hash, t: State, out: Outcome)
    requires Bounded(s) && Resolves(s, c, sha, t, out)
    ensures Moves(s, t, out)
  {
  }

  lemma EvictionKeeps(mid: State, t: State)
    requires EvictsTo(mid, t)
    ensures t.made == mid.made && forall k | k in t.entries :: k in mid.entries && t.entries[k] == mid.entries[k]
  {
  }

  lemma MovesKeepHandles(s: State, t: State, out: Outcome, c: Call, sha: Hash)
    requires Bounded(s) && Resolves(s, c, sha, t, out)
    ensures forall j, k | j in t.entries && k in t.entries && j != k :: t.entries[j].handle != t.entries[k].handle
  {
  }

  lemma {:induction false} RunIsBounded(r: Run, sha: Hash, n: nat)
    requires r.Valid(sha) && n <= |r.calls|
    ensures Bounded(r.states[n])
  {
    if n > 0 {
      RunIsBounded(r, sha, n - 1);
      BoundedStep(r.states[n - 1], r.calls[n - 1], sha, r.states[n], r.outs[n - 1]);
    }
  }

  lemma BoundedStep(s: State, c: Call, sha: Hash, t: State, out: Outcome)
    requires Bounded(s) && Resolves(s, c, sha, t, out)
    ensures Bounded(t)
  {
    CallKeepsValid(s, c, sha, t, out);
    CallMoves(s, c, sha, t, out);
    MovesKeepHandles(s, t, out, c, sha);
  }

  // ----- Step numbers -----

  /** How many of the first `n` calls returned the entry object. */
  function Uses(outs: seq<Outcome>, handle: nat, n: nat): nat
    requires n <= |outs|
  {
    if n == 0 then 0 else Uses(outs, handle, n - 1) + (if outs[n - 1].entry.handle == handle then 1 else 0)
  }

  /** Every entry in the map has counted its uses, under one run id and provider. */
  ghost predicate Counted(s: State, outs: seq<Outcome>, n: nat)
    requires n <= |outs|
  {
    && (forall j | 0 <= j < n :: outs[j].entry.handle < s.made)
    && (forall k | k in s.entries :: Tallied(outs, n, s.entries[k]))
  }

  ghost predicate Tallied(outs: seq<Outcome>, n: nat, e: Entry)
    requires n <= |outs|
  {
    && e.stepCount == Uses(outs, e.handle, n)
    && forall j | 0 <= j < n && outs[j].entry.handle == e.handle ::
         outs[j].runId == e.runId && outs[j].entry.provider == e.provider
  }

  lemma {:induction false} NewObjectUnused(outs: seq<Outcome>, handle: nat, n: nat)
    requires n <= |outs| && forall j | 0 <= j < n :: outs[j].entry.handle < handle
    ensures Uses(outs, handle, n) == 0
  {
    if n > 0 { NewObjectUnused(outs, handle, n - 1); }
  }

  lemma ReturnedIsTallied(s: State, t: State, outs: seq<Outcome>, n: nat)
    requires n < |outs| && Counted(s, outs, n) && Moves(s, t, outs[n])
    ensures Tallied(outs, n + 1, outs[n].entry) && outs[n].sequence == Uses(outs, outs[n].entry.handle, n)
  {
    hide Tallied, Uses;
    if outs[n].isNew {
      FreshIsTallied(outs, n);
    } else {
      var k :| k in s.entries && AdvancedFrom(s.entries[k], outs[n]);
      AdvancedIsTallied(outs, n, s.entries[k]);
    }
  }

  lemma FreshIsTallied(outs: seq<Outcome>, n: nat)
    requires n < |outs| && outs[n].isNew && outs[n].sequence == 0 && outs[n].entry.stepCount == 1
    requires outs[n].runId == outs[n].entry.runId && forall j | 0 <= j < n ::
               outs[j].entry.handle < outs[n].entry.handle
    ensures Tallied(outs, n + 1, outs[n].entry) && outs[n].sequence == Uses(outs, outs[n].entry.handle, n)
  {
    NewObjectUnused(outs, outs[n].entry.handle, n);
  }

  lemma AdvancedIsTallied(outs: seq<Outcome>, n: nat, e: Entry)
    requires n < |outs| && Tallied(outs, n, e) && AdvancedFrom(e, outs[n]) && outs[n].runId == outs[n].entry.runId
    ensures Tallied(outs, n + 1, outs[n].entry) && outs[n].sequence == Uses(outs, outs[n].entry.handle, n)
  {
  }

  lemma CountedStep(s: State, t: State, outs: seq<Outcome>, n: nat)
    requires n < |outs| && Counted(s, outs, n) && Moves(s, t, outs[n])
    ensures Counted(t, outs, n + 1)
  {
    ReturnedIsTallied(s, t, outs, n);
    forall k | k in t.entries ensures Tallied(outs, n + 1, t.entries[k]) {
      assert t.entries[k] == outs[n].entry || Tallied(outs, n, s.entries[k]);
    }
  }

  lemma {:induction false} RunIsCounted(r: Run, sha: Hash, n: nat)
    requires r.Valid(sha) && n <= |r.calls|
    ensures Counted(r.states[n], r.outs, n)
  {
    if n > 0 {
      RunIsCounted(r, sha, n - 1);
      RunMoves(r, sha, n - 1);
      CountedStep(r.states[n - 1], r.states[n], r.outs, n - 1);
    }
  }

  lemma RunMoves(r: Run, sha: Hash, n: nat)
    requires r.Valid(sha) && n < |r.calls|
    ensures Moves(r.states[n], r.states[n + 1], r.outs[n])
  {
    RunIsBounded(r, sha, n);
    CallMoves(r.states[n], r.calls[n], sha, r.states[n + 1], r.outs[n]);
  }

  /** Over any calls the map never exceeds its maximum, and each entry keeps its run id and provider and
      numbers its steps 0, 1, 2, ... for as long as it is returned. */
  lemma StepsAreNumbered(r: Run, sha: Hash)
    requires r.Valid(sha)
    ensures forall n | 0 <= n <= |r.calls| :: |r.states[n].entries| <= MAX_ENTRIES
    ensures forall i | 0 <= i < |r.calls| :: r.outs[i].sequence == Uses(r.outs, r.outs[i].entry.handle, i)
    ensures forall i, j | 0 <= i < j < |r.calls| && r.outs[i].entry.handle == r.outs[j].entry.handle ::
              r.outs[i].runId == r.outs[j].runId && r.outs[i].entry.provider == r.outs[j].entry.provider
  {
    forall n | 0 <= n <= |r.calls| ensures |r.states[n].entries| <= MAX_ENTRIES {
      RunIsBounded(r, sha, n);
    }
    forall j | 0 <= j < |r.calls|
      ensures r.outs[j].sequence == Uses(r.outs, r.outs[j].entry.handle, j) && Tallied(r.outs, j + 1, r.outs[j].entry)
              && r.outs[j].runId == r.outs[j].entry.runId {
      RunIsCounted(r, sha, j);
      RunMoves(r, sha, j);
      ReturnedIsTallied(r.states[j], r.states[j + 1], r.outs, j);
    }
  }

  // ----- When a run's numbers repeat -----

  /** One of the first `n` calls made the entry object. */
  ghost predicate MadeBy(outs: seq<Outcome>, n: nat, handle: nat)
    requires n <= |outs|
  {
    exists i :: 0 <= i < n && outs[i].isNew && outs[i].entry.handle == handle
  }

  lemma {:induction false} EntriesAreMade(r: Run, sha: Hash, n: nat)
    requires r.Valid(sha) && n <= |r.calls|
    ensures forall k | k in r.states[n].entries :: MadeBy(r.outs, n, r.states[n].entries[k].handle)
  {
    if n > 0 {
      hide Resolves, Moves, MadeBy;
      EntriesAreMade(r, sha, n - 1);
      RunMoves(r, sha, n - 1);
      MadeStep(r.states[n - 1], r.states[n], r.outs, n - 1);
    }
  }

  lemma MadeStep(s: State, t: State, outs: seq<Outcome>, n: nat)
    requires n < |outs| && Moves(s, t, outs[n])
    requires forall k | k in s.entries :: MadeBy(outs, n, s.entries[k].handle)
    ensures forall k | k in t.entries :: MadeBy(outs, n + 1, t.entries[k].handle)
    ensures MadeBy(outs, n + 1, outs[n].entry.handle)
  {
    OutcomeIsMade(s, t, outs, n);
    forall k | k in t.entries ensures MadeBy(outs, n + 1, t.entries[k].handle) {
      if t.entries[k] != outs[n].entry {
        assert MadeBy(outs, n, s.entries[k].handle);
      }
    }
  }

  lemma OutcomeIsMade(s: State, t: State, outs: seq<Outcome>, n: nat)
    requires n < |outs| && Moves(s, t, outs[n])
    requires forall k | k in s.entries :: MadeBy(outs, n, s.entries[k].handle)
    ensures MadeBy(outs, n + 1, outs[n].entry.handle)
  {
    if !outs[n].isNew {
      var k :| k in s.entries && AdvancedFrom(s.entries[k], outs[n]);
      assert MadeBy(outs, n, s.entries[k].handle);
    }
  }

  /** The call that made the entry object call j returned. */
  lemma Maker(r: Run, sha: Hash, j: nat) returns (i: nat)
    requires r.Valid(sha) && j < |r.calls|
    ensures i <= j && r.outs[i].isNew && r.outs[i].entry.handle == r.outs[j].entry.handle
            && r.outs[i].runId == r.outs[j].runId
  {
    hide Resolves, Moves;
    EntriesAreMade(r, sha, j);
    RunMoves(r, sha, j);
    OutcomeIsMade(r.states[j], r.states[j + 1], r.outs, j);
    i :| 0 <= i < j + 1 && r.outs[i].isNew && r.outs[i].entry.handle == r.outs[j].entry.handle;
    StepsAreNumbered(r, sha);
  }

  lemma {:induction false} UsesGrow(outs: seq<Outcome>, handle: nat, m: nat, n: nat)
    requires m <= n <= |outs|
    ensures Uses(outs, handle, m) <= Uses(outs, handle, n)
    decreases n
  {
    if m < n { UsesGrow(outs, handle, m, n - 1); }
  }

  lemma UsedOnceMore(outs: seq<Outcome>, i: nat, j: nat)
    requires i < j <= |outs|
    ensures Uses(outs, outs[i].entry.handle, i) < Uses(outs, outs[i].entry.handle, j)
  {
    UsesGrow(outs, outs[i].entry.handle, i + 1, j);
  }

  /** Random ids differ, and no explicit id is one of them. */
  ghost predicate FreshUuids(r: Run) {
    && (forall i, j | 0 <= i < j < |r.calls| :: r.calls[i].uuid != r.calls[j].uuid)
    && (forall i, j | 0 <= i < |r.calls| && 0 <= j < |r.calls| :: r.calls[i].explicitId != "run_" + r.calls[j].uuid)
  }

  /** Call j enters an explicit id anew that call i had entered: it was evicted in between. */
  ghost predicate Reentered(r: Run, i: nat, j: nat)
    requires i < |r.calls| && j < |r.calls| && |r.calls| < |r.states|
  {
    var id := r.calls[j].explicitId;
    && i < j && id != "" && r.calls[i].explicitId == id
    && id !in r.states[i].entries && id !in r.states[j].entries
  }

  /** A call that makes an entry is told the id the entry was made under. */
  lemma NewRunId(s: State, c: Call, sha: Hash, t: State, out: Outcome)
    requires Resolves(s, c, sha, t, out) && out.isNew
    ensures out.sequence == 0
    ensures out.runId == if c.explicitId != "" && c.explicitId !in s.entries then c.explicitId else "run_" + c.uuid
  {
    if c.explicitId != "" && c.explicitId in s.entries {
      assert s.entries[c.explicitId].provider != c.provider;
      assert Scoped(c.provider, c.explicitId) != c.explicitId by {
        assert |Scoped(c.provider, c.explicitId)| > |c.explicitId|;
      }
    } else if c.explicitId != "" {
      assert KeyFor(s, c, sha) == c.explicitId;
    }
  }

  lemma ReenteredRepeats(r: Run, sha: Hash, i: nat, j: nat)
    requires r.Valid(sha) && i < |r.calls| && j < |r.calls| && Reentered(r, i, j)
    ensures r.outs[i].runId == r.outs[j].runId && r.outs[i].sequence == r.outs[j].sequence
  {
    NewRunId(r.states[i], r.calls[i], sha, r.states[i + 1], r.outs[i]);
    NewRunId(r.states[j], r.calls[j], sha, r.states[j + 1], r.outs[j]);
  }

  /** Two calls that get the same number of the same run got different entry objects. */
  lemma RepeatedAreApart(r: Run, sha: Hash, i: nat, j: nat)
    requires r.Valid(sha) && i < j < |r.calls| && r.outs[i].sequence == r.outs[j].sequence
    ensures r.outs[i].entry.handle != r.outs[j].entry.handle
  {
    hide Resolves, Uses;
    StepsAreNumbered(r, sha);
    UsedOnceMore(r.outs, i, j);
  }

  lemma NewRunOf(r: Run, sha: Hash, i: nat)
    requires r.Valid(sha) && i < |r.calls| && r.outs[i].isNew
    ensures r.outs[i].runId == if r.calls[i].explicitId != "" && r.calls[i].explicitId !in r.states[i].entries
                               then r.calls[i].explicitId else "run_" + r.calls[i].uuid
  {
    hide Resolves;
    NewRunId(r.states[i], r.calls[i], sha, r.states[i + 1], r.outs[i]);
  }

  lemma RepeatedIsReentered(r: Run, sha: Hash, i: nat, j: nat) returns (a: nat, b: nat)
    requires r.Valid(sha) && FreshUuids(r) && i < j < |r.calls|
    requires r.outs[i].runId == r.outs[j].runId && r.outs[i].sequence == r.outs[j].sequence
    ensures a < |r.calls| && b < |r.calls| && Reentered(r, a, b)
  {
    RepeatedAreApart(r, sha, i, j);
    var m := Maker(r, sha, i);
    var n := Maker(r, sha, j);
    a, b := if m < n then m else n, if m < n then n else m;
    TwoMakers(r, sha, a, b);
  }

  lemma TwoMakers(r: Run, sha: Hash, a: nat, b: nat)
    requires r.Valid(sha) && FreshUuids(r) && a < b < |r.calls|
    requires r.outs[a].isNew && r.outs[b].isNew && r.outs[a].runId == r.outs[b].runId
    ensures Reentered(r, a, b)
  {
    hide Resolves;
    NewRunOf(r, sha, a);
    NewRunOf(r, sha, b);
    SameSuffix("run_", r.calls[a].uuid, r.calls[b].uuid);
  }

  lemma SameSuffix(p: string, x: string, y: string)
    ensures p + x == p + y ==> x == y
  {
    assert (p + x)[|p|..] == x && (p + y)[|p|..] == y;
  }

  /** Over any calls with fresh random ids, two steps of one run get the same number exactly when an
      explicit id is entered again after its entry was evicted. */
  lemma NumbersRepeatIffReentered(r: Run, sha: Hash)
    requires r.Valid(sha) && FreshUuids(r)
    ensures (exists i, j ::
               0 <= i < j < |r.calls| && r.outs[i].runId == r.outs[j].runId && r.outs[i].sequence == r.outs[j].sequence)
       <==> (exists i, j :: 0 <= i < j < |r.calls| && Reentered(r, i, j))
  {
    if i, j :| 0 <= i < j < |r.calls| && r.outs[i].runId == r.outs[j].runId
               && r.outs[i].sequence == r.outs[j].sequence {
      var a, b := RepeatedIsReentered(r, sha, i, j);
    }
    if i, j :| 0 <= i < j < |r.calls| && Reentered(r, i, j) {
      ReenteredRepeats(r, sha, i, j);
    }
  }

  // ----- Eviction under a clock that never goes back -----

  /** The newest key outlives an eviction. */
  lemma NewestStays(mid: State, t: State, key: string)
    requires mid.Valid() && EvictsTo(mid, t) && key in mid.entries
    requires forall k | k in mid.entries && k != key :: Older(mid, k, key)
    ensures key in t.entries
  {
    if |mid.entries| > MAX_ENTRIES {
      var gone :| Oldest(mid, gone) && t == Drop(mid, gone);
      var rest := mid.entries.Keys - gone;
      assert |rest| > 0;
      var k: string :| k in rest;
      assert k != key ==> Older(mid, k, key);
      assert key in gone ==> Older(mid, key, k);
    }
  }

  ghost predicate SeenBy(s: State, now: int) {
    forall k | k in s.entries :: s.entries[k].lastSeen <= now
  }

  /** While the clock does not go back, the entry a call returns is in the map after it, newest of all. */
  lemma ReturnedStays(s: State, c: Call, sha: Hash, t: State, out: Outcome)
    requires Bounded(s) && Resolves(s, c, sha, t, out) && SeenBy(s, c.now)
    ensures SeenBy(t, c.now) && KeyFor(s, c, sha) in t.entries && t.entries[KeyFor(s, c, sha)] == out.entry
  {
    hide EvictsTo, KeyFor;
    var key := KeyFor(s, c, sha);
    if !Continues(s, c, key) {
      var mid := Put(s, key, out.entry).(made := s.made + 1);
      EvictionKeeps(mid, t);
      EnteredStays(s, key, out.entry, mid, t);
    }
  }

  lemma EnteredStays(s: State, key: string, e: Entry, mid: State, t: State)
    requires Bounded(s) && SeenBy(s, e.lastSeen) && mid == Put(s, key, e).(made := s.made + 1) && EvictsTo(mid, t)
    ensures key in t.entries
  {
    PutIsValid(s, key, e);
    if key !in s.entries {
      hide EvictsTo, Older;
      NewKeyIsNewest(s, key, e);
      SameOrder(Put(s, key, e), mid, key);
      NewestStays(mid, t, key);
    } else {
      assert s.entries[key := e].Keys == s.entries.Keys;
    }
  }

  /** The count of made objects does not matter to the order. */
  lemma SameOrder(a: State, b: State, key: string)
    requires a.keys == b.keys && a.entries == b.entries && key in a.entries
    requires forall k | k in a.entries && k != key :: Older(a, k, key)
    ensures forall k | k in b.entries && k != key :: Older(b, k, key)
  {
    forall k | k in b.entries && k != key ensures Older(b, k, key) {
      assert Older(a, k, key);
    }
  }

  lemma NewKeyIsNewest(s: State, key: string, e: Entry)
    requires s.Valid() && SeenBy(s, e.lastSeen) && key !in s.entries
    ensures forall k | k in Put(s, key, e).entries && k != key :: Older(Put(s, key, e), k, key)
  {
  }

  /** The entry returned by the call of index `n` is in the map after it. */
  ghost predicate Stays(r: Run, sha: Hash, n: nat)
    requires n < |r.calls| < |r.states| && n < |r.outs|
  {
    var key := KeyFor(r.states[n], r.calls[n], sha);
    key in r.states[n + 1].entries && r.states[n + 1].entries[key] == r.outs[n].entry
  }

  lemma StepStays(r: Run, sha: Hash, n: nat)
    requires r.Valid(sha) && n < |r.calls| && SeenBy(r.states[n], r.calls[n].now)
    ensures Stays(r, sha, n) && SeenBy(r.states[n + 1], r.calls[n].now)
  {
    RunIsBounded(r, sha, n);
    ReturnedStays(r.states[n], r.calls[n], sha, r.states[n + 1], r.outs[n]);
  }

  /** With a non-decreasing clock no call loses the entry it just made or advanced. */
  lemma {:induction false} NothingNewIsEvicted(r: Run, sha: Hash, n: nat)
    requires r.Valid(sha) && n < |r.calls|
    requires forall i, j | 0 <= i < j < |r.calls| :: r.calls[i].now <= r.calls[j].now
    ensures Stays(r, sha, n) && SeenBy(r.states[n + 1], r.calls[n].now)
  {
    if n > 0 {
      NothingNewIsEvicted(r, sha, n - 1);
    }
    StepStays(r, sha, n);
  }

  // ----- Ownership -----

  predicate OneLine(text: string) {
    '\n' !in text
  }

  /** Digests are hexadecimal and do not collide. */
  ghost predicate Digest(sha: Hash) {
    && (forall t :: OneLine(sha(t)))
    && (forall t, u :: sha(t) == sha(u) ==> t == u)
  }

  lemma {:induction false} ScopeSplits(p: string, x: string, q: string, y: string)
    requires OneLine(p) && OneLine(q) && Scoped(p, x) == Scoped(q, y)
    ensures p == q && x == y
  {
    var t := Scoped(p, x);
    assert t[|p|] == '\n' && t[|q|] == '\n';
    assert forall i | 0 <= i < |p| :: t[i] == p[i] && p[i] in p;
    assert forall i | 0 <= i < |q| :: t[i] == q[i] && q[i] in q;
    assert |p| == |q|;
    assert p == t[..|p|] && q == t[..|q|];
    assert x == t[|p| + 1..] && y == t[|q| + 1..];
  }

  /** Each scoped key, and each digest key, holds an entry of the provider it names. */
  ghost predicate Labelled(s: State, sha: Hash) {
    && (forall p, x | OneLine(p) && Scoped(p, x) in s.entries :: s.entries[Scoped(p, x)].provider == p)
    && (forall p, m, y, u | OneLine(p) && sha(SeedText(p, m, y, u)) in s.entries ::
          s.entries[sha(SeedText(p, m, y, u))].provider == p)
  }

  /** A request with a provider and an explicit id free of newlines. */
  ghost predicate Plain(c: Call) {
    OneLine(c.provider) && OneLine(c.explicitId)
  }

  /** The id is no digest of a seed text. */
  ghost predicate NoDigest(id: string, sha: Hash) {
    forall p, m, y, u | OneLine(p) :: id != sha(SeedText(p, m, y, u))
  }

  lemma LabelledStep(s: State, c: Call, sha: Hash, t: State, out: Outcome)
    requires Digest(sha) && Labelled(s, sha) && Resolves(s, c, sha, t, out)
    requires Plain(c) && (c.explicitId != "" ==> NoDigest(c.explicitId, sha))
    ensures Labelled(t, sha) && out.entry.provider == c.provider
  {
    var key := KeyFor(s, c, sha);
    KeyNames(s, c, sha);
    var mid := Put(s, key, out.entry);
    if !Continues(s, c, key) {
      EvictionKeeps(mid.(made := s.made + 1), t);
    }
  }

  /** The looked-up key names no provider but the caller's, and an entry found there is the caller's. */
  lemma KeyNames(s: State, c: Call, sha: Hash)
    requires Digest(sha) && Labelled(s, sha) && Plain(c) && (c.explicitId != "" ==> NoDigest(c.explicitId, sha))
    ensures Names(KeyFor(s, c, sha), c.provider, sha)
    ensures KeyFor(s, c, sha) in s.entries ==> s.entries[KeyFor(s, c, sha)].provider == c.provider
  {
    var key := KeyFor(s, c, sha);
    var rest := c.model + "\n" + c.system + "\n" + c.firstUser;
    assert SeedOf(c) == Scoped(c.provider, rest) && OneLine(sha(SeedOf(c)));
    forall p, x | OneLine(p) && key == Scoped(p, x) ensures p == c.provider {
      if key == Scoped(c.provider, c.explicitId) { ScopeSplits(p, x, c.provider, c.explicitId); }
    }
    forall p, m, y, u | OneLine(p) && key == sha(SeedText(p, m, y, u)) ensures p == c.provider {
      if c.explicitId == "" { ScopeSplits(p, m + "\n" + y + "\n" + u, c.provider, rest); }
    }
  }

  ghost predicate Names(key: string, provider: string, sha: Hash) {
    && (forall p, x | OneLine(p) && key == Scoped(p, x) :: p == provider)
    && (forall p, m, y, u | OneLine(p) && key == sha(SeedText(p, m, y, u)) :: p == provider)
  }

  /** Providers and explicit ids are free of newlines, and the ids are drawn from `ids`. */
  ghost predicate Speaks(r: Run, ids: iset<string>) {
    forall i | 0 <= i < |r.calls| :: Plain(r.calls[i]) && (r.calls[i].explicitId == "" || r.calls[i].explicitId in ids)
  }

  ghost predicate AllOwned(r: Run)
    requires |r.outs| == |r.calls|
  {
    forall i | 0 <= i < |r.calls| :: r.outs[i].entry.provider == r.calls[i].provider
  }

  lemma {:induction false} RunIsLabelled(r: Run, sha: Hash, ids: iset<string>, n: nat)
    requires Digest(sha) && r.Valid(sha) && Speaks(r, ids) && n <= |r.calls|
    requires forall id | id in ids :: NoDigest(id, sha)
    ensures Labelled(r.states[n], sha)
  {
    if n > 0 {
      RunIsLabelled(r, sha, ids, n - 1);
      LabelledStep(r.states[n - 1], r.calls[n - 1], sha, r.states[n], r.outs[n - 1]);
    }
  }

  /** An explicit id that is the digest of another provider's conversation takes that conversation over. */
  lemma DigestIdIsShared(id: string, p: string, model: string, system: string, firstUser: string, sha: Hash)
    returns (r: Run)
    requires OneLine(p) && OneLine(id) && id != "" && id == sha(SeedText(p, model, system, firstUser))
    ensures r.Valid(sha) && Speaks(r, iset{id}) && !AllOwned(r)
  {
    var c := Call(id, p + "x", "", "", "", 0, 0, "");
    var d := Call("", p, model, system, firstUser, 0, 0, "");
    var e := Entry(0, id, p + "x", 1, 0, 0);
    var s := State([id], map[id := e], 1);
    var f := Advanced(e, d);
    r := Run([EMPTY, s, Put(s, id, f)], [c, d], [Outcome(id, true, 0, e), Outcome(id, false, 1, f)]);
    assert Resolves(EMPTY, c, sha, s, r.outs[0]) by {
      assert KeyFor(EMPTY, c, sha) == id;
      assert EMPTY.entries[id := e] == map[id := e];
      assert Put(EMPTY, id, e).(made := 1) == s;
    }
    assert KeyFor(s, d, sha) == id;
    assert Continues(s, d, id);
    assert r.outs[1].entry.provider != r.calls[1].provider;
  }

  /** Every call of every run gets an entry of its own provider exactly when no explicit id in use is the
      digest of a conversation seed. */
  lemma OwnedUnlessIdIsDigest(ids: iset<string>, sha: Hash)
    requires Digest(sha) && forall id | id in ids :: OneLine(id) && id != ""
    ensures (forall r: Run | r.Valid(sha) && Speaks(r, ids) :: AllOwned(r)) <==>
              (forall id | id in ids :: NoDigest(id, sha))
  {
    if forall id | id in ids :: NoDigest(id, sha) {
      forall r: Run | r.Valid(sha) && Speaks(r, ids) ensures AllOwned(r) {
        NoDigestOwned(r, sha, ids);
      }
    } else {
      var id :| id in ids && !NoDigest(id, sha);
      var p, m, y, u :| OneLine(p) && id == sha(SeedText(p, m, y, u));
      var r := DigestIdIsShared(id, p, m, y, u, sha);
      assert Speaks(r, ids);
    }
  }

  lemma NoDigestOwned(r: Run, sha: Hash, ids: iset<string>)
    requires Digest(sha) && r.Valid(sha) && Speaks(r, ids) && forall id | id in ids :: NoDigest(id, sha)
    ensures AllOwned(r)
  {
    forall i | 0 <= i < |r.calls| ensures r.outs[i].entry.provider == r.calls[i].provider {
      RunIsLabelled(r, sha, ids, i);
      LabelledStep(r.states[i], r.calls[i], sha, r.states[i + 1], r.outs[i]);
    }
  }
}
