/** Draining a stash record: finding the step it belongs to and inserting its deltas as rows. */
module StashDrain {
  import opened Wrappers
  import opened ChangeLog
  import opened Replay
  import opened HookCapture

  // ----- Attribution -----

  /** A step of the session's run; `input` is the canonical JSON of its tool input. */
  datatype Candidate = Candidate(at: Step, isToolCall: bool, tool: string, input: string, command: Option<string>,
                                 time: int)

  datatype Record = Record(tool: string, input: string, command: Option<string>, observed: int, deltas: seq<Delta>)

  const FUTURE_SLACK := 30_000
  const TEMPORAL_MIN_AGE := 60_000
  const TEMPORAL_WINDOW := 900_000

  datatype Tier = Exact | Command | Temporal

  function Rank(tier: Tier): nat {
    match tier
    case Exact => 3
    case Command => 2
    case Temporal => 1
  }

  function Gap(step: Candidate, record: Record): nat {
    if step.time <= record.observed then record.observed - step.time else step.time - record.observed
  }

  /** How a step can claim a record at time `now`, if at all. */
  function TierOf(step: Candidate, record: Record, now: int): Option<Tier> {
    if !step.isToolCall || step.tool != record.tool || step.time - record.observed > FUTURE_SLACK then None
    else if step.input == record.input then Some(Exact)
    else if record.command.Some? && step.command == record.command then Some(Command)
    else if now - record.observed >= TEMPORAL_MIN_AGE && Gap(step, record) <= TEMPORAL_WINDOW then Some(Temporal)
    else None
  }

  /** Higher tier first, then nearer in time. */
  predicate Beats(rank1: nat, gap1: nat, rank2: nat, gap2: nat) {
    rank1 > rank2 || (rank1 == rank2 && gap1 < gap2)
  }

  /** Step k claims the record, no step claims it better, and no earlier one claims it as well. */
  ghost predicate BestClaim(steps: seq<Candidate>, record: Record, now: int, k: nat, tier: Tier) {
    && k < |steps| && TierOf(steps[k], record, now) == Some(tier)
    && forall i | 0 <= i < |steps| && TierOf(steps[i], record, now).Some? ::
         var rank := Rank(TierOf(steps[i], record, now).value);
         && !Beats(rank, Gap(steps[i], record), Rank(tier), Gap(steps[k], record))
         && (i < k ==> Beats(Rank(tier), Gap(steps[k], record), rank, Gap(steps[i], record)))
  }

  /** `findStep`: a running best over the steps of the run. */
  method FindStep(steps: seq<Candidate>, record: Record, now: int) returns (found: Option<(nat, Tier)>)
    ensures found.None? <==> forall i | 0 <= i < |steps| :: TierOf(steps[i], record, now).None?
    ensures found.Some? ==> BestClaim(steps, record, now, found.value.0, found.value.1)
  {
    found := None;
    for i := 0 to |steps|
      invariant found.None? <==> forall k | 0 <= k < i :: TierOf(steps[k], record, now).None?
      invariant found.Some? ==> found.value.0 < i && BestClaim(steps[..i], record, now, found.value.0, found.value.1)
    {
      var step := steps[i];
      var gap := Gap(step, record);
      var temporalAllowed := now - record.observed >= TEMPORAL_MIN_AGE;
      var tier: Option<Tier> := None;
      if step.isToolCall && step.tool == record.tool && step.time - record.observed <= FUTURE_SLACK {
        if step.input == record.input {
          tier := Some(Exact);
        } else if record.command.Some? && step.command == record.command {
          tier := Some(Command);
        } else if temporalAllowed && gap <= TEMPORAL_WINDOW {
          tier := Some(Temporal);
        }
      }
      assert tier == TierOf(step, record, now);
      if tier.Some?
         && (found.None? || Beats(Rank(tier.value), gap, Rank(found.value.1), Gap(steps[found.value.0], record))) {
        found := Some((i, tier.value));
      }
    }
    assert steps[..|steps|] == steps;
  }

  /** A record too young for the temporal tier is never claimed by a step that matches neither its
      input nor its command, so a lagging transcript keeps its exact claim. */
  lemma YoungRecordsWait(steps: seq<Candidate>, record: Record, now: int, k: nat, tier: Tier)
    requires now - record.observed < TEMPORAL_MIN_AGE && BestClaim(steps, record, now, k, tier)
    ensures steps[k].input == record.input || (record.command.Some? && steps[k].command == record.command)
    ensures (exists i :: 0 <= i < |steps| && TierOf(steps[i], record, now) == Some(Exact)) ==>
              steps[k].input == record.input
  {
  }

  /** Steps ingested later take the record over exactly when one of them claims it better. */
  lemma ClaimIsKept(steps: seq<Candidate>, more: seq<Candidate>, record: Record, now: int, later: int, k: nat,
                    tier: Tier)
    requires BestClaim(steps, record, now, k, tier) && now <= later
    ensures BestClaim(steps + more, record, later, k, tier) <==>
            forall i | 0 <= i < |more| && TierOf(more[i], record, later).Some? ::
              !Beats(Rank(TierOf(more[i], record, later).value), Gap(more[i], record), Rank(tier),
                     Gap(steps[k], record))
  {
    var all := steps + more;
    assert forall i | 0 <= i < |more| :: all[|steps| + i] == more[i];
    forall i | 0 <= i < |steps| && TierOf(steps[i], record, later).Some?
      ensures TierOf(steps[i], record, now) == TierOf(steps[i], record, later)
              || (Rank(tier) > 1 && TierOf(steps[i], record, later) == Some(Temporal))
    {
      assert TierOf(steps[k], record, now) == Some(tier);
    }
  }

  /** A tool call of the same tool, not dated half a minute after the observation. */
  predicate SameTool(step: Candidate, record: Record) {
    step.isToolCall && step.tool == record.tool && step.time <= record.observed + 30_000
  }

  predicate SameInput(step: Candidate, record: Record) {
    SameTool(step, record) && step.input == record.input
  }

  predicate SameCommand(step: Candidate, record: Record) {
    SameTool(step, record) && record.command.Some? && step.command == record.command
  }

  /** Within a quarter of an hour of an observation made a minute ago or more. */
  predicate NearInTime(step: Candidate, record: Record, now: int) {
    && SameTool(step, record) && now - record.observed >= 60_000
    && -900_000 <= step.time - record.observed <= 900_000
  }

  /** Among two steps, the one dated nearer the observation, the earlier in the run when equally near. */
  predicate Nearest(steps: seq<Candidate>, record: Record, k: nat, i: nat)
    requires k < |steps| && i < |steps|
  {
    Distance(steps[k], record) < Distance(steps[i], record)
    || (Distance(steps[k], record) == Distance(steps[i], record) && k <= i)
  }

  function Distance(step: Candidate, record: Record): int {
    if step.time > record.observed then step.time - record.observed else record.observed - step.time
  }

  /** How well a step stands: 3 by its input, 2 by its command, 1 by its time, 0 not at all. */
  function Level(step: Candidate, record: Record, now: int): nat {
    if SameInput(step, record) then 3
    else if SameCommand(step, record) then 2
    else if NearInTime(step, record, now) then 1 else 0
  }

  function Standing(step: Candidate, record: Record, now: int): nat {
    if TierOf(step, record, now).Some? then Rank(TierOf(step, record, now).value) else 0
  }

  lemma StandingIs(step: Candidate, record: Record, now: int)
    ensures Standing(step, record, now) == Level(step, record, now)
  {
  }

  lemma BestStands(steps: seq<Candidate>, record: Record, now: int, k: nat)
    requires k < |steps|
    ensures (exists tier :: BestClaim(steps, record, now, k, tier)) <==>
              && Standing(steps[k], record, now) > 0
              && forall i | 0 <= i < |steps| && Standing(steps[i], record, now) > 0 ::
                   Standing(steps[i], record, now) < Standing(steps[k], record, now)
                   || (Standing(steps[i], record, now) == Standing(steps[k], record, now)
                       && Nearest(steps, record, k, i))
  {
    hide TierOf;
    assert forall i | 0 <= i < |steps| :: Gap(steps[i], record) == Distance(steps[i], record);
    if Standing(steps[k], record, now) > 0
       && forall i | 0 <= i < |steps| && Standing(steps[i], record, now) > 0 ::
            Standing(steps[i], record, now) < Standing(steps[k], record, now)
            || (Standing(steps[i], record, now) == Standing(steps[k], record, now) && Nearest(steps, record, k, i)) {
      assert BestClaim(steps, record, now, k, TierOf(steps[k], record, now).value);
    }
  }

  /** What the best claim is: the nearest step with the record's input, if there is one; else the
      nearest with its command; else, once the record is old enough, the nearest of the tool. */
  lemma ClaimIsNearestOfBestKind(steps: seq<Candidate>, record: Record, now: int, k: nat)
    requires k < |steps|
    ensures (exists tier :: BestClaim(steps, record, now, k, tier)) <==>
              if exists i :: 0 <= i < |steps| && SameInput(steps[i], record) then
                SameInput(steps[k], record)
                && forall i | 0 <= i < |steps| && SameInput(steps[i], record) :: Nearest(steps, record, k, i)
              else if exists i :: 0 <= i < |steps| && SameCommand(steps[i], record) then
                SameCommand(steps[k], record)
                && forall i | 0 <= i < |steps| && SameCommand(steps[i], record) :: Nearest(steps, record, k, i)
              else
                NearInTime(steps[k], record, now)
                && forall i | 0 <= i < |steps| && NearInTime(steps[i], record, now) :: Nearest(steps, record, k, i)
  {
    forall i | 0 <= i < |steps| ensures Standing(steps[i], record, now) == Level(steps[i], record, now) {
      StandingIs(steps[i], record, now);
    }
    BestStands(steps, record, now, k);
    hide TierOf, BestClaim, SameInput, SameCommand, NearInTime, Nearest, Standing;
    if exists tier :: BestClaim(steps, record, now, k, tier) {
      assert Level(steps[k], record, now) > 0;
    }
  }

  lemma BestIsUnique(steps: seq<Candidate>, record: Record, now: int, k: nat, tier: Tier, k': nat, tier': Tier)
    requires BestClaim(steps, record, now, k, tier) && BestClaim(steps, record, now, k', tier')
    ensures k == k' && tier == tier'
  {
  }

  /** The step a record goes to: the one with the best claim, or none. */
  ghost function Claimed(steps: seq<Candidate>, record: Record, now: int): Option<Step> {
    if exists k: nat, tier :: BestClaim(steps, record, now, k, tier) then
      var k: nat, tier :| BestClaim(steps, record, now, k, tier);
      Some(steps[k].at)
    else None
  }

  lemma ClaimedIs(steps: seq<Candidate>, record: Record, now: int, k: nat, tier: Tier)
    requires BestClaim(steps, record, now, k, tier)
    ensures Claimed(steps, record, now) == Some(steps[k].at)
  {
    var k': nat, tier' :| BestClaim(steps, record, now, k', tier') && Claimed(steps, record, now) == Some(steps[k'].at);
    BestIsUnique(steps, record, now, k, tier, k', tier');
  }

  /** A record is claimed exactly when some step has its input, its command or, once it is old enough,
      its tool and time. */
  lemma ClaimedIff(steps: seq<Candidate>, record: Record, now: int)
    ensures Claimed(steps, record, now).Some? <==>
              exists i :: 0 <= i < |steps| && Level(steps[i], record, now) > 0
  {
    forall i | 0 <= i < |steps| ensures Standing(steps[i], record, now) == Level(steps[i], record, now) {
      StandingIs(steps[i], record, now);
    }
    if |steps| > 0 && exists i :: 0 <= i < |steps| && Standing(steps[i], record, now) > 0 {
      var k := BestExists(steps, record, now);
    }
    if k: nat, tier :| BestClaim(steps, record, now, k, tier) {
      assert Standing(steps[k], record, now) > 0;
    }
  }

  /** Some step stands best. */
  lemma {:induction false} BestExists(steps: seq<Candidate>, record: Record, now: int) returns (k: nat)
    requires exists i :: 0 <= i < |steps| && Standing(steps[i], record, now) > 0
    ensures k < |steps| && exists tier :: BestClaim(steps, record, now, k, tier)
  {
    hide TierOf, BestClaim, Standing;
    var n := |steps| - 1;
    if exists i :: 0 <= i < n && Standing(steps[..n][i], record, now) > 0 {
      k := BestExists(steps[..n], record, now);
      BestStands(steps[..n], record, now, k);
      var rank, rank', gap, gap' := Standing(steps[k], record, now), Standing(steps[n], record, now),
                                    Distance(steps[k], record), Distance(steps[n], record);
      if rank' > rank || (rank' == rank && gap' < gap) {
        k := n;
      }
    } else {
      assert forall i | 0 <= i < n :: Standing(steps[..n][i], record, now) == Standing(steps[i], record, now);
      k := n;
    }
    assert forall i | 0 <= i < n :: steps[..n][i] == steps[i];
    BestStands(steps, record, now, k);
  }

  // ----- Row insertion -----

  /** The matched step carries the delta already; the delta's own refs are compared, partial or not. */
  predicate Duplicates(existing: seq<LogRow>, step: Step, d: Delta) {
    Covered(existing, step, TransitionOf(FullRow(d)))
  }

  function Novel(existing: seq<LogRow>, step: Step, deltas: seq<Delta>): seq<Delta> {
    if deltas == [] then []
    else
      var last := deltas[|deltas| - 1];
      Novel(existing, step, deltas[..|deltas| - 1]) + (if Duplicates(existing, step, last) then [] else [last])
  }

  /** `insertDeltas`: one watch row per delta the step does not carry yet, numbered on from the
      highest sequence in use, so no row lands on a taken (step, sequence) slot. */
  method InsertDeltas(existing: seq<LogRow>, step: Step, deltas: seq<Delta>) returns (rows: seq<LogRow>)
    ensures |rows| == |Novel(existing, step, deltas)|
    ensures forall i | 0 <= i < |rows| ::
              rows[i] == LogRow(step, NextSeq(existing, step) + i, Watch, RowOf(Novel(existing, step, deltas)[i]))
    ensures UniqueSlots(existing) ==> UniqueSlots(existing + rows)
  {
    var next := NextSeq(existing, step);
    rows := [];
    for k := 0 to |deltas|
      invariant next == NextSeq(existing, step) + |rows| && |rows| == |Novel(existing, step, deltas[..k])|
      invariant forall i | 0 <= i < |rows| ::
          rows[i] == LogRow(step, NextSeq(existing, step) + i, Watch, RowOf(Novel(existing, step, deltas[..k])[i]))
    {
      var d := deltas[k];
      assert deltas[..k + 1][..k] == deltas[..k];
      if !Duplicates(existing, step, d) {
        var change := if d.partial then Change(d.op, d.path, None, None, None, None, true)
                      else Change(d.op, d.path, None, d.before, d.after, None, false);
        rows := rows + [LogRow(step, next, Watch, change)];
        next := next + 1;
      }
    }
    assert deltas[..|deltas|] == deltas;
  }

  /** The rows one insertion adds. */
  ghost predicate Drained(existing: seq<LogRow>, step: Step, deltas: seq<Delta>, rows: seq<LogRow>) {
    && |rows| == |Novel(existing, step, deltas)|
    && forall i | 0 <= i < |rows| ::
         rows[i] == LogRow(step, NextSeq(existing, step) + i, Watch, RowOf(Novel(existing, step, deltas)[i]))
  }

  /** The rows one pass over a record adds: those of the step found for it, or none. */
  ghost predicate Passed(existing: seq<LogRow>, steps: seq<Candidate>, record: Record, now: int, rows: seq<LogRow>) {
    var at := Claimed(steps, record, now);
    if at.None? then rows == [] else Drained(existing, at.value, record.deltas, rows)
  }

  datatype Outcome = Inserted | Pending | Expired

  /** The pass of `drainStash` over one record, after its transcript was ingested. */
  method DrainRecord(existing: seq<LogRow>, steps: seq<Candidate>, record: Record, now: int, ttl: int)
    returns (outcome: Outcome, rows: seq<LogRow>)
    ensures Passed(existing, steps, record, now, rows)
    ensures outcome.Inserted? <==> Claimed(steps, record, now).Some?
    ensures outcome.Expired? <==> Claimed(steps, record, now).None? && now - record.observed > ttl
    ensures UniqueSlots(existing) ==> UniqueSlots(existing + rows)
  {
    var found := FindStep(steps, record, now);
    if found.None? {
      assert existing + [] == existing;
      return (if now - record.observed > ttl then Expired else Pending), [];
    }
    ClaimedIs(steps, record, now, found.value.0, found.value.1);
    rows := InsertDeltas(existing, steps[found.value.0].at, record.deltas);
    outcome := Inserted;
  }

  /** A delta whose row keeps every ref the delta has: only a partial delta with a captured side loses one. */
  predicate KeepsRefs(d: Delta) {
    d.partial ==> d.before.None? && d.after.None?
  }

  lemma {:induction false} NovelMembers(existing: seq<LogRow>, step: Step, deltas: seq<Delta>)
    ensures forall d | d in deltas :: d in Novel(existing, step, deltas) <==> !Duplicates(existing, step, d)
    ensures forall d | d in Novel(existing, step, deltas) :: d in deltas
    ensures Novel(existing, step, deltas) == [] <==> forall d | d in deltas :: Duplicates(existing, step, d)
  {
    if deltas != [] {
      var n := |deltas| - 1;
      NovelMembers(existing, step, deltas[..n]);
      assert deltas == deltas[..n] + [deltas[n]];
    }
  }

  /** Two passes over one record, each with a fresh ingest and its own search for the step, with other
      writers' rows between them: the second inserts nothing exactly when it finds no step, or every
      delta is carried by the step it finds without the first pass, or keeps its refs in a row the
      first pass left at that very step. */
  lemma SecondDrainInsertsNothing(existing: seq<LogRow>, others: seq<LogRow>, record: Record,
                                  steps: seq<Candidate>, now: int, rows: seq<LogRow>,
                                  steps': seq<Candidate>, now': int, rows': seq<LogRow>)
    requires forall i, j | 0 <= i < j < |record.deltas| :: record.deltas[i].path != record.deltas[j].path
    requires Passed(existing, steps, record, now, rows)
    requires Passed(existing + rows + others, steps', record, now', rows')
    ensures var at, at' := Claimed(steps, record, now), Claimed(steps', record, now');
            rows' == [] <==>
              (at'.Some? ==>
                forall d | d in record.deltas ::
                  Duplicates(existing + others, at'.value, d) || (at == at' && KeepsRefs(d)))
  {
    hide Claimed, Duplicates, KeepsRefs;
    var at, at' := Claimed(steps, record, now), Claimed(steps', record, now');
    if at'.Some? {
      NovelMembers(existing + rows + others, at'.value, record.deltas);
      forall d | d in record.deltas
        ensures Duplicates(existing + rows + others, at'.value, d) <==>
                Duplicates(existing + others, at'.value, d) || (at == at' && KeepsRefs(d))
      {
        DuplicateAfterPass(existing, others, record, at, rows, at'.value, d);
      }
    }
  }

  lemma DuplicateAfterPass(existing: seq<LogRow>, others: seq<LogRow>, record: Record, at: Option<Step>,
                           rows: seq<LogRow>, step: Step, d: Delta)
    requires forall i, j | 0 <= i < j < |record.deltas| :: record.deltas[i].path != record.deltas[j].path
    requires if at.None? then rows == [] else Drained(existing, at.value, record.deltas, rows)
    requires d in record.deltas
    ensures Duplicates(existing + rows + others, step, d) <==>
            Duplicates(existing + others, step, d) || (at == Some(step) && KeepsRefs(d))
  {
    hide Covered;
    var t := TransitionOf(FullRow(d));
    CoveredConcat(existing + rows, others, step, t);
    CoveredConcat(existing, rows, step, t);
    CoveredConcat(existing, others, step, t);
    if at.Some? {
      DrainedCovers(existing, at.value, record.deltas, rows, step, d);
    } else {
      NoneCovered(step, t);
    }
  }

  lemma NoneCovered(step: Step, t: Transition)
    ensures !Covered([], step, t)
  {
  }

  /** The rows of an insertion carry a delta exactly at the step they went to, when the delta was novel
      there and keeps its refs. */
  lemma DrainedCovers(existing: seq<LogRow>, at: Step, deltas: seq<Delta>, rows: seq<LogRow>, step: Step, d: Delta)
    requires forall i, j | 0 <= i < j < |deltas| :: deltas[i].path != deltas[j].path
    requires Drained(existing, at, deltas, rows) && d in deltas
    ensures Covered(rows, step, TransitionOf(FullRow(d))) <==>
              step == at && !Duplicates(existing, at, d) && KeepsRefs(d)
  {
    hide Duplicates, NextSeq;
    NovelMembers(existing, at, deltas);
    var novel, t := Novel(existing, at, deltas), TransitionOf(FullRow(d));
    if Covered(rows, step, t) {
      var i :| 0 <= i < |rows| && Covers(rows[i], step, t);
      assert novel[i] in deltas && novel[i].path == d.path;
    }
    if step == at && !Duplicates(existing, at, d) && KeepsRefs(d) {
      var k :| 0 <= k < |novel| && novel[k] == d;
      assert Covers(rows[k], step, t);
    }
  }

  /** A step ingested between two passes can take the record over: its own step comes after a sibling
      claimed it by time alone, and even a full delta is inserted again. */
  lemma LateExactStepDrainsAgain(sibling: Candidate, exact: Candidate, record: Record, now: int, d: Delta)
    requires TierOf(sibling, record, now) == Some(Temporal) && TierOf(exact, record, now) == Some(Exact)
    requires sibling.at != exact.at && record.deltas == [d]
    ensures Claimed([sibling], record, now) == Some(sibling.at)
            && Claimed([sibling, exact], record, now) == Some(exact.at)
    ensures var first := [LogRow(sibling.at, WATCH_BASE, Watch, RowOf(d))];
            && Passed([], [sibling], record, now, first)
            && Passed(first, [sibling, exact], record, now, [LogRow(exact.at, WATCH_BASE, Watch, RowOf(d))])
  {
    assert BestClaim([sibling], record, now, 0, Temporal) && BestClaim([sibling, exact], record, now, 1, Exact);
    ClaimedIs([sibling], record, now, 0, Temporal);
    ClaimedIs([sibling, exact], record, now, 1, Exact);
    hide Claimed;
    NovelMembers([], sibling.at, [d]);
    var first := [LogRow(sibling.at, WATCH_BASE, Watch, RowOf(d))];
    assert Novel([], sibling.at, [d]) == [d] && Novel(first, exact.at, [d]) == [d] by {
      assert [d][..0] == [];
    }
    assert first[..0] == [];
  }

  /** A captured file that grew past the cap: drained twice, its row is there twice. */
  lemma OversizeGrowthDrainsTwice(step: Step, path: Path, content: string, size: nat, grown: nat)
    ensures var d := Delta(path, Modify, Some(BlobRef(content)), None, Some(size), Some(grown), true);
            && DeltaOf(path, Some(Entry(size, 0, Some(BlobRef(content)))), Some(Entry(grown, 1, None))) == Some(d)
            && Novel([LogRow(step, NextSeq([], step), Watch, RowOf(d))], step, [d]) == [d]
  {
  }
}
