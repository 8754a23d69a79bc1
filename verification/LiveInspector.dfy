/** The live inspector: two announcing paths over shared per-run cursors. */
module LiveInspector {
  import opened Wrappers
  import StepTable

  type RunId = StepTable.RunId

  datatype Status = InProgress | Ok | Error | Abandoned

  predicate Terminal(status: Option<Status>) {
    status == Some(Ok) || status == Some(Error)
  }

  /** One look at a run: its status and its step sequences in ascending order, bands included. */
  datatype View = View(run: RunId, status: Status, steps: seq<nat>, silent: bool)

  datatype Emit = Created | Updated(newSteps: seq<nat>) | Completed

  /** What the inspector remembers of a run: highest announced walk sequence (-1 for none), whether
      it has been seen, and its last status. */
  datatype Cursor = Cursor(floor: int, known: bool, status: Option<Status>)

  const FRESH := Cursor(-1, false, None)

  predicate Ascending(s: seq<nat>) {
    forall i, j | 0 <= i < j < |s| :: s[i] < s[j]
  }

  /** The walk-range sequences of a view. */
  function WalkOf(steps: seq<nat>): seq<nat> {
    Above(steps, -1)
  }

  /** Walk-range sequences past a floor. */
  function Above(steps: seq<nat>, floor: int): seq<nat> {
    if steps == [] then []
    else
      var last := steps[|steps| - 1];
      Above(steps[..|steps| - 1], floor) + (if floor < last < StepTable.HOOK_BASE then [last] else [])
  }

  lemma {:induction false} AboveAre(steps: seq<nat>, floor: int)
    ensures forall s :: s in Above(steps, floor) <==> s in steps && floor < s < StepTable.HOOK_BASE
    ensures Ascending(steps) ==> Ascending(Above(steps, floor))
  {
    if steps != [] {
      var front, last := steps[..|steps| - 1], steps[|steps| - 1];
      AboveAre(front, floor);
      assert Above(steps, floor) == Above(front, floor) + (if floor < last < StepTable.HOOK_BASE then [last] else []);
      assert forall s :: s in steps <==> s in front || s == last by {
        assert steps == front + [last];
      }
      if Ascending(steps) {
        AscendingSnoc(Above(front, floor), last);
      }
    }
  }

  lemma AscendingSnoc(s: seq<nat>, last: nat)
    ensures Ascending(s) && (forall x | x in s :: x < last) ==> Ascending(s + [last])
  {
    assert forall i | 0 <= i < |s| :: (s + [last])[i] == s[i] && s[i] in s;
  }

  function LastOr(walk: seq<nat>): int {
    if walk == [] then -1 else walk[|walk| - 1]
  }

  /** Highest walk sequence of a view, -1 when it has none. */
  function Top(steps: seq<nat>): int {
    LastOr(WalkOf(steps))
  }

  // ----- One observation -----

  predicate Rewinds(c: Cursor, v: View) {
    Top(v.steps) < c.floor
  }

  function NewSteps(c: Cursor, v: View): seq<nat> {
    if Rewinds(c, v) then [] else Above(v.steps, c.floor)
  }

  function CursorAfter(c: Cursor, v: View): Cursor {
    Cursor(Top(v.steps), true, Some(v.status))
  }

  function LookEmits(v: View, newSteps: seq<nat>, wasKnown: bool, prevStatus: Option<Status>): seq<Emit> {
    if v.silent then []
    else
      (if !wasKnown then [Created] else if newSteps != [] then [Updated(newSteps)] else [])
      + (if Terminal(Some(v.status)) && !Terminal(prevStatus) then [Completed] else [])
  }

  function Emits(c: Cursor, v: View): seq<Emit> {
    LookEmits(v, NewSteps(c, v), c.known, c.status)
  }

  // ----- The inspector -----

  /** A run's cursor after a list of observations of it, and everything emitted for it. */
  ghost function After(views: seq<View>): Cursor {
    if views == [] then FRESH else CursorAfter(After(views[..|views| - 1]), views[|views| - 1])
  }

  ghost function EmittedAt(views: seq<View>, k: nat): seq<Emit>
    requires k < |views|
  {
    Emits(After(views[..k]), views[k])
  }

  ghost function Emitted(views: seq<View>): seq<Emit> {
    if views == [] then [] else Emitted(views[..|views| - 1]) + EmittedAt(views, |views| - 1)
  }

  ghost function ViewsOf(history: seq<View>, run: RunId): seq<View> {
    if history == [] then []
    else
      var last := history[|history| - 1];
      ViewsOf(history[..|history| - 1], run) + (if last.run == run then [last] else [])
  }

  datatype LiveEvent = LiveEvent(run: RunId, emit: Emit)

  function EventsOf(log: seq<LiveEvent>, run: RunId): seq<Emit> {
    if log == [] then []
    else EventsOf(log[..|log| - 1], run) + (if log[|log| - 1].run == run then [log[|log| - 1].emit] else [])
  }

  function CursorIn(maxSeqs: map<RunId, int>, counts: map<RunId, nat>, statuses: map<RunId, Status>,
                    run: RunId): Cursor {
    Cursor(if run in maxSeqs then maxSeqs[run] else -1, run in counts,
           if run in statuses then Some(statuses[run]) else None)
  }

  class Inspector {
    var lastMaxSeq: map<RunId, int>
    var lastStepCounts: map<RunId, nat>
    var lastStatus: map<RunId, Status>
    var log: seq<LiveEvent>
    ghost var history: seq<View>
    ghost var boot: nat

    constructor ()
      ensures Valid() && history == [] && log == [] && boot == 0
    {
      lastMaxSeq, lastStepCounts, lastStatus, log, history, boot := map[], map[], map[], [], [], 0;
    }

    function CursorOf(run: RunId): Cursor
      reads this
    {
      CursorIn(lastMaxSeq, lastStepCounts, lastStatus, run)
    }

    /** Every cursor and every emitted event is what the observations so far make it. */
    ghost predicate Valid()
      reads this
    {
      && log == LogOf(history)
      && forall run: RunId :: CursorOf(run) == After(ViewsOf(history, run))
    }

    /** `start`: every stored run is seeded, which is a silent look at it, then the first tick is silent. */
    method Start(stored: seq<View>, own: seq<View>, scanned: seq<View>)
      requires Valid() && history == [] && log == [] && boot == 0
      requires DistinctRuns(stored) && AllAscending(stored) && AllSilent(stored, true)
      requires AllAscending(own) && AllSilent(own, true) && AllAscending(scanned) && AllSilent(scanned, true)
      modifies this
      ensures Valid() && history == stored + own + scanned && log == [] && boot == |history|
    {
      SeedCursors(stored);
      EmitLoop(own);
      DetectStepArrivals(scanned);
      boot := |history|;
      SilentLog(history);
    }

    method SeedCursors(stored: seq<View>)
      requires Valid() && history == [] && log == [] && DistinctRuns(stored) && AllAscending(stored)
               && AllSilent(stored, true)
      modifies this`lastMaxSeq, this`lastStepCounts, this`lastStatus, this`history
      ensures Valid() && history == stored
    {
      SeedStatus(stored);
      SeedFloors(stored);
      SilentLog(stored);
      history := stored;
    }

    method SeedStatus(stored: seq<View>)
      requires DistinctRuns(stored) && forall run: RunId :: CursorOf(run) == FRESH
      modifies this`lastStepCounts, this`lastStatus
      ensures forall run: RunId :: CursorOf(run) == After(ViewsOf(stored, run)).(floor := -1)
    {
      forall run: RunId
        ensures CursorIn(lastMaxSeq, lastStepCounts, lastStatus, run) == After(ViewsOf(stored[..0], run)).(floor := -1)
      {
        assert CursorOf(run) == FRESH && ViewsOf(stored[..0], run) == [];
      }
      for i := 0 to |stored|
        invariant forall run: RunId ::
                    CursorIn(lastMaxSeq, lastStepCounts, lastStatus, run) ==
                      After(ViewsOf(stored[..i], run)).(floor := -1)
      {
        ghost var counts, statuses := lastStepCounts, lastStatus;
        lastStepCounts := lastStepCounts[stored[i].run := |stored[i].steps|];
        lastStatus := lastStatus[stored[i].run := stored[i].status];
        forall run: RunId
          ensures CursorIn(lastMaxSeq, lastStepCounts, lastStatus, run) ==
                    After(ViewsOf(stored[..i + 1], run)).(floor := -1)
        {
          SeedOneMore(stored, i, run);
          assert CursorIn(lastMaxSeq, counts, statuses, run) == After(ViewsOf(stored[..i], run)).(floor := -1);
        }
      }
      assert stored[..|stored|] == stored;
    }

    /** One MAX per run with walk steps. */
    method SeedFloors(stored: seq<View>)
      requires DistinctRuns(stored) && forall run: RunId :: CursorOf(run) == After(ViewsOf(stored, run)).(floor := -1)
      modifies this`lastMaxSeq
      ensures forall run: RunId :: CursorOf(run) == After(ViewsOf(stored, run))
    {
      forall run: RunId
        ensures CursorIn(lastMaxSeq, lastStepCounts, lastStatus, run) ==
                  After(ViewsOf(stored, run)).(floor := FRESH.floor)
      {
        assert CursorOf(run) == After(ViewsOf(stored, run)).(floor := -1);
      }
      for i := 0 to |stored|
        invariant forall run: RunId :: CursorIn(lastMaxSeq, lastStepCounts, lastStatus, run)
                    == After(ViewsOf(stored, run)).(floor := After(ViewsOf(stored[..i], run)).floor)
      {
        ghost var floors := lastMaxSeq;
        if Top(stored[i].steps) >= 0 {
          lastMaxSeq := lastMaxSeq[stored[i].run := Top(stored[i].steps)];
        }
        forall run: RunId
          ensures CursorIn(lastMaxSeq, lastStepCounts, lastStatus, run)
               == After(ViewsOf(stored, run)).(floor := After(ViewsOf(stored[..i + 1], run)).floor)
        {
          SeedOneMore(stored, i, run);
          assert CursorIn(floors, lastStepCounts, lastStatus, run)
              == After(ViewsOf(stored, run)).(floor := After(ViewsOf(stored[..i], run)).floor);
        }
      }
      assert stored[..|stored|] == stored;
    }

    /** `collectNewSteps`: walk steps past the cursor; a shrunken walk resets the cursor and yields none. */
    method CollectNewSteps(v: View) returns (newSteps: seq<nat>)
      requires Ascending(v.steps)
      modifies this`lastMaxSeq
      ensures newSteps == NewSteps(old(CursorOf(v.run)), v)
      ensures lastMaxSeq == if Rewinds(old(CursorOf(v.run)), v) then old(lastMaxSeq)[v.run := Top(v.steps)]
                            else old(lastMaxSeq)
    {
      var floor := if v.run in lastMaxSeq then lastMaxSeq[v.run] else -1;
      var currentMax := -1;
      for i := 0 to |v.steps|
        invariant currentMax == Top(v.steps[..i]) && lastMaxSeq == old(lastMaxSeq)
      {
        TopGrows(v.steps, i);
        if v.steps[i] < StepTable.HOOK_BASE && v.steps[i] > currentMax {
          currentMax := v.steps[i];
        }
      }
      assert v.steps[..|v.steps|] == v.steps;
      if currentMax < floor {
        lastMaxSeq := lastMaxSeq[v.run := currentMax];
        return [];
      }
      newSteps := Above(v.steps, floor);
    }

    /** What both paths do once they know the new steps: remember the look and emit it. */
    method RememberAndEmit(v: View, newSteps: seq<nat>, ghost before: Cursor)
      requires newSteps == NewSteps(before, v) && before.floor >= -1 && Ascending(v.steps)
      requires CursorOf(v.run) == (if Rewinds(before, v) then before.(floor := Top(v.steps)) else before)
      modifies this`lastMaxSeq, this`lastStepCounts, this`lastStatus, this`log
      ensures CursorOf(v.run) == CursorAfter(before, v)
      ensures forall run: RunId | run != v.run :: CursorOf(run) == old(CursorOf(run))
      ensures log == old(log) + Tagged(v.run, Emits(before, v))
    {
      var wasKnown, prevStatus := Remember(v, newSteps, before);
      EmitLook(v, newSteps, wasKnown, prevStatus);
    }

    /** The cursor writes that come before the emits. */
    method Remember(v: View, newSteps: seq<nat>, ghost before: Cursor)
      returns (wasKnown: bool, prevStatus: Option<Status>)
      requires newSteps == NewSteps(before, v) && before.floor >= -1 && Ascending(v.steps)
      requires CursorOf(v.run) == (if Rewinds(before, v) then before.(floor := Top(v.steps)) else before)
      modifies this`lastMaxSeq, this`lastStepCounts, this`lastStatus
      ensures CursorOf(v.run) == CursorAfter(before, v)
      ensures forall run: RunId | run != v.run :: CursorOf(run) == old(CursorOf(run))
      ensures wasKnown == before.known && prevStatus == before.status
    {
      FloorAfter(before, v);
      wasKnown := v.run in lastStepCounts;
      prevStatus := if v.run in lastStatus then Some(lastStatus[v.run]) else None;
      lastStepCounts := lastStepCounts[v.run := |v.steps|];
      lastStatus := lastStatus[v.run := v.status];
      if |newSteps| > 0 {
        lastMaxSeq := lastMaxSeq[v.run := newSteps[|newSteps| - 1]];
      }
    }

    method EmitLook(v: View, newSteps: seq<nat>, wasKnown: bool, prevStatus: Option<Status>)
      modifies this`log
      ensures log == old(log) + Tagged(v.run, LookEmits(v, newSteps, wasKnown, prevStatus))
    {
      if v.silent {
        return;
      }
      if !wasKnown {
        log := log + [LiveEvent(v.run, Created)];
      } else if |newSteps| > 0 {
        log := log + [LiveEvent(v.run, Updated(newSteps))];
      }
      if Terminal(Some(v.status)) && !Terminal(prevStatus) {
        log := log + [LiveEvent(v.run, Completed)];
      }
    }

    /** Own ingest: one run of a session's fan-out, the body of `tick`'s emit loop. */
    method AnnounceOwn(v: View)
      requires Ascending(v.steps) && CursorOf(v.run).floor >= -1
      modifies this`lastMaxSeq, this`lastStepCounts, this`lastStatus, this`log
      ensures CursorOf(v.run) == CursorAfter(old(CursorOf(v.run)), v)
      ensures forall run: RunId | run != v.run :: CursorOf(run) == old(CursorOf(run))
      ensures log == old(log) + Tagged(v.run, Emits(old(CursorOf(v.run)), v))
    {
      ghost var before := CursorOf(v.run);
      var newSteps := CollectNewSteps(v);
      RememberAndEmit(v, newSteps, before);
    }

    /** Out-of-band arrivals: the highest walk sequence is probed first and the delta materialised
        only when it moved; a known run with nothing new is passed over. */
    method AnnounceArrival(v: View, currentMax: int)
      requires Ascending(v.steps) && CursorOf(v.run).floor >= -1 && currentMax == Top(v.steps)
      modifies this`lastMaxSeq, this`lastStepCounts, this`lastStatus, this`log
      ensures CursorOf(v.run) == CursorAfter(old(CursorOf(v.run)), v)
      ensures forall run: RunId | run != v.run :: CursorOf(run) == old(CursorOf(run))
      ensures log == old(log) + Tagged(v.run, Emits(old(CursorOf(v.run)), v))
    {
      ghost var before := CursorOf(v.run);
      FloorAfter(before, v);
      var wasKnown := v.run in lastStepCounts;
      var prevStatus := if v.run in lastStatus then Some(lastStatus[v.run]) else None;
      var floor := if v.run in lastMaxSeq then lastMaxSeq[v.run] else -1;
      var newSteps: seq<nat> := [];
      if currentMax != floor {
        newSteps := CollectNewSteps(v);
      }
      if wasKnown && |newSteps| == 0 && prevStatus == Some(v.status) {
        return;
      }
      RememberAndEmit(v, newSteps, before);
    }

    /** The look just taken joins the history. */
    ghost method Record(v: View)
      requires CursorOf(v.run) == CursorAfter(After(ViewsOf(history, v.run)), v)
      requires forall run: RunId | run != v.run :: CursorOf(run) == After(ViewsOf(history, run))
      requires log == LogOf(history) + Tagged(v.run, Emits(After(ViewsOf(history, v.run)), v))
      modifies this`history
      ensures Valid() && history == old(history) + [v]
    {
      assert (history + [v])[..|history|] == history;
      forall run: RunId ensures CursorOf(run) == After(ViewsOf(history + [v], run)) {
        LookAppended(history, v, run);
      }
      history := history + [v];
    }

    method LookOwn(v: View)
      requires Valid() && Ascending(v.steps)
      modifies this`lastMaxSeq, this`lastStepCounts, this`lastStatus, this`log, this`history
      ensures Valid() && history == old(history) + [v]
    {
      AfterFloor(ViewsOf(history, v.run));
      AnnounceOwn(v);
      Record(v);
    }

    method LookArrival(v: View)
      requires Valid() && Ascending(v.steps)
      modifies this`lastMaxSeq, this`lastStepCounts, this`lastStatus, this`log, this`history
      ensures Valid() && history == old(history) + [v]
    {
      AfterFloor(ViewsOf(history, v.run));
      AnnounceArrival(v, Top(v.steps));
      Record(v);
    }

    /** One tick after the boot: the fan-out of this process's own ingests first, then the scan for
        steps other processes stored. */
    method Tick(own: seq<View>, scanned: seq<View>)
      requires Valid() && BootThenLoud(history, boot)
      requires AllAscending(own) && AllSilent(own, false) && AllAscending(scanned) && AllSilent(scanned, false)
      modifies this
      ensures Valid() && history == old(history) + own + scanned && boot == old(boot) && BootThenLoud(history, boot)
    {
      StaysLoud(history, own, boot);
      EmitLoop(own);
      StaysLoud(history, scanned, boot);
      DetectStepArrivals(scanned);
    }

    method EmitLoop(own: seq<View>)
      requires Valid() && AllAscending(own)
      modifies this`lastMaxSeq, this`lastStepCounts, this`lastStatus, this`log, this`history
      ensures Valid() && history == old(history) + own
    {
      ghost var before := history;
      for i := 0 to |own|
        invariant Valid() && history == before + own[..i]
      {
        OneMoreLook(before, own, i);
        LookOwn(own[i]);
      }
      assert own[..|own|] == own;
    }

    method DetectStepArrivals(scanned: seq<View>)
      requires Valid() && AllAscending(scanned)
      modifies this`lastMaxSeq, this`lastStepCounts, this`lastStatus, this`log, this`history
      ensures Valid() && history == old(history) + scanned
    {
      ghost var before := history;
      for i := 0 to |scanned|
        invariant Valid() && history == before + scanned[..i]
      {
        OneMoreLook(before, scanned, i);
        LookArrival(scanned[i]);
      }
      assert scanned[..|scanned|] == scanned;
    }
  }

  lemma OneMoreLook(before: seq<View>, views: seq<View>, i: nat)
    requires i < |views|
    ensures before + views[..i] + [views[i]] == before + views[..i + 1]
  {
  }

  predicate AllSilent(views: seq<View>, silent: bool) {
    forall i | 0 <= i < |views| :: views[i].silent == silent
  }

  predicate DistinctRuns(views: seq<View>) {
    forall i, j | 0 <= i < j < |views| :: views[i].run != views[j].run
  }

  /** The boot's looks are silent, all later ones loud. */
  predicate BootThenLoud(history: seq<View>, boot: nat) {
    boot <= |history| && forall i | 0 <= i < |history| :: history[i].silent <==> i < boot
  }

  lemma StaysLoud(history: seq<View>, later: seq<View>, boot: nat)
    requires BootThenLoud(history, boot) && AllSilent(later, false)
    ensures BootThenLoud(history + later, boot)
  {
  }

  /** Seeding view i: only its own run is touched, and that run was not seeded before. */
  ghost predicate CursorAfterSeed(stored: seq<View>, i: nat, run: RunId)
    requires i < |stored|
  {
    && After(ViewsOf(stored[..i + 1], run))
       == (if stored[i].run == run then CursorAfter(FRESH, stored[i]) else After(ViewsOf(stored[..i], run)))
    && (stored[i].run == run ==> After(ViewsOf(stored[..i], run)) == FRESH)
  }

  lemma SeedOneMore(stored: seq<View>, i: nat, run: RunId)
    requires i < |stored| && DistinctRuns(stored)
    ensures CursorAfterSeed(stored, i, run)
  {
    var before, v := stored[..i], stored[i];
    assert stored[..i + 1] == before + [v];
    LookAppended(before, v, run);
    if v.run == run {
      forall j | 0 <= j < |before| ensures before[j].run != run {
        assert before[j] == stored[j];
      }
      NotViewed(before, run);
    }
  }

  lemma {:induction false} NotViewed(history: seq<View>, run: RunId)
    requires forall i | 0 <= i < |history| :: history[i].run != run
    ensures ViewsOf(history, run) == []
  {
    if history != [] {
      NotViewed(history[..|history| - 1], run);
    }
  }

  lemma {:induction false} SilentLog(history: seq<View>)
    requires AllSilent(history, true)
    ensures LogOf(history) == []
  {
    if history != [] {
      SilentLog(history[..|history| - 1]);
    }
  }

  predicate AllAscending(views: seq<View>) {
    forall i | 0 <= i < |views| :: Ascending(views[i].steps)
  }

  function Tagged(run: RunId, emits: seq<Emit>): (events: seq<LiveEvent>)
    ensures |events| == |emits| && forall i | 0 <= i < |emits| :: events[i] == LiveEvent(run, emits[i])
  {
    seq(|emits|, i requires 0 <= i < |emits| => LiveEvent(run, emits[i]))
  }

  lemma AfterFloor(views: seq<View>)
    ensures After(views).floor >= -1
  {
  }

  lemma LookAppended(history: seq<View>, v: View, run: RunId)
    ensures ViewsOf(history + [v], run) == ViewsOf(history, run) + (if v.run == run then [v] else [])
    ensures v.run == run ==> After(ViewsOf(history + [v], run)) == CursorAfter(After(ViewsOf(history, run)), v)
    ensures v.run == run ==>
              Emitted(ViewsOf(history + [v], run)) ==
                Emitted(ViewsOf(history, run)) + Emits(After(ViewsOf(history, run)), v)
    ensures v.run != run ==> ViewsOf(history + [v], run) == ViewsOf(history, run)
  {
  }

  /** Everything emitted so far, look by look. */
  ghost function LogOf(history: seq<View>): seq<LiveEvent> {
    if history == [] then []
    else
      var n := |history| - 1;
      LogOf(history[..n]) + Tagged(history[n].run, Emits(After(ViewsOf(history[..n], history[n].run)), history[n]))
  }

  lemma LogGrows(history: seq<View>, v: View)
    ensures LogOf(history + [v]) == LogOf(history) + Tagged(v.run, Emits(After(ViewsOf(history, v.run)), v))
  {
  }

  /** Runs do not mix: the events logged for a run are those its own looks emit. */
  lemma {:induction false} LogByRun(history: seq<View>, run: RunId)
    ensures EventsOf(LogOf(history), run) == Emitted(ViewsOf(history, run))
  {
    if history != [] {
      var before, v := history[..|history| - 1], history[|history| - 1];
      assert history == before + [v];
      LogByRun(before, run);
      LogGrows(before, v);
      TaggedEvents(LogOf(before), v.run, Emits(After(ViewsOf(before, v.run)), v), run);
      LookAppended(before, v, run);
    }
  }

  lemma TaggedEvents(log: seq<LiveEvent>, tag: RunId, emits: seq<Emit>, run: RunId)
    ensures EventsOf(log + Tagged(tag, emits), run) == EventsOf(log, run) + (if tag == run then emits else [])
  {
    EventsConcat(log, Tagged(tag, emits), run);
    TaggedAre(tag, emits, run);
  }

  lemma {:induction false} EventsConcat(x: seq<LiveEvent>, y: seq<LiveEvent>, run: RunId)
    ensures EventsOf(x + y, run) == EventsOf(x, run) + EventsOf(y, run)
    decreases |y|
  {
    if y == [] {
      assert x + y == x;
    } else {
      assert (x + y)[..|x + y| - 1] == x + y[..|y| - 1];
      EventsConcat(x, y[..|y| - 1], run);
    }
  }

  lemma {:induction false} TaggedAre(tag: RunId, emits: seq<Emit>, run: RunId)
    ensures EventsOf(Tagged(tag, emits), run) == if tag == run then emits else []
  {
    if emits != [] {
      var n := |emits| - 1;
      assert Tagged(tag, emits)[..n] == Tagged(tag, emits[..n]);
      TaggedAre(tag, emits[..n], run);
    }
  }

  lemma TopGrows(steps: seq<nat>, i: nat)
    requires i < |steps| && Ascending(steps)
    ensures Top(steps[..i]) < steps[i]
    ensures Top(steps[..i + 1]) == if steps[i] < StepTable.HOOK_BASE then steps[i] else Top(steps[..i])
  {
    assert steps[..i + 1][..i] == steps[..i];
    AboveAre(steps[..i], -1);
    var walk := WalkOf(steps[..i]);
    if walk != [] {
      assert walk[|walk| - 1] in walk;
    }
  }

  /** Whichever branch sets it, the cursor ends on the highest walk sequence seen. */
  lemma FloorAfter(c: Cursor, v: View)
    requires Ascending(v.steps) && c.floor >= -1
    ensures Top(v.steps) == if Rewinds(c, v) then Top(v.steps)
                            else if NewSteps(c, v) != [] then NewSteps(c, v)[|NewSteps(c, v)| - 1] else c.floor
    ensures Top(v.steps) == c.floor ==> NewSteps(c, v) == []
    ensures Top(v.steps) >= -1
  {
    AboveAre(v.steps, -1);
    AboveAre(v.steps, c.floor);
    var walk, above := WalkOf(v.steps), Above(v.steps, c.floor);
    if walk != [] {
      assert walk[|walk| - 1] in walk;
      assert Top(v.steps) > c.floor ==> walk[|walk| - 1] in above;
    }
    if above != [] {
      assert above[|above| - 1] in above && above[|above| - 1] in walk;
      var k :| 0 <= k < |walk| && walk[k] == above[|above| - 1];
      if Top(v.steps) > c.floor {
        var m :| 0 <= m < |above| && above[m] == walk[|walk| - 1];
        assert above[m] <= above[|above| - 1];
      }
    }
  }

  // ----- What the looks at one run announce -----

  lemma CursorIsLastLook(views: seq<View>, k: nat)
    requires 0 < k <= |views|
    ensures After(views[..k]) == Cursor(Top(views[k - 1].steps), true, Some(views[k - 1].status))
  {
  }

  lemma {:induction false} TopsNeverFall(views: seq<View>, i: nat, j: nat)
    requires i <= j < |views|
    requires forall k | i < k <= j :: !Rewinds(After(views[..k]), views[k])
    ensures Top(views[i].steps) <= Top(views[j].steps)
    decreases j
  {
    if i < j {
      TopsNeverFall(views, i, j - 1);
      CursorIsLastLook(views, j);
    }
  }

  lemma UpdatedCarriesNewSteps(views: seq<View>, i: nat, xs: seq<nat>)
    requires i < |views| && Updated(xs) in EmittedAt(views, i)
    ensures xs == NewSteps(After(views[..i]), views[i])
  {
  }

  /** Between rewinds announced sequences strictly increase: within one announcement and from any
      announcement to any later one. No step is announced twice. */
  lemma AnnouncementsIncrease(views: seq<View>, i: nat, j: nat, xs: seq<nat>, ys: seq<nat>)
    requires AllAscending(views) && i < j < |views|
    requires Updated(xs) in EmittedAt(views, i) && Updated(ys) in EmittedAt(views, j)
    requires forall k | i < k <= j :: !Rewinds(After(views[..k]), views[k])
    ensures Ascending(xs) && Ascending(ys)
    ensures forall x, y | x in xs && y in ys :: x < y
  {
    UpdatedCarriesNewSteps(views, i, xs);
    UpdatedCarriesNewSteps(views, j, ys);
    TopsNeverFall(views, i, j - 1);
    NewStepsBounds(After(views[..i]), views[i]);
    CursorIsLastLook(views, j);
    NewStepsBounds(After(views[..j]), views[j]);
    AfterFloor(views[..i]);
    AfterFloor(views[..j]);
  }

  lemma NewStepsBounds(c: Cursor, v: View)
    requires Ascending(v.steps)
    ensures Ascending(NewSteps(c, v))
    ensures c.floor >= -1 ==> forall s | s in NewSteps(c, v) :: c.floor < s <= Top(v.steps)
  {
    AboveAre(v.steps, -1);
    AboveAre(v.steps, c.floor);
  }

  /** The walk only grows at its end from one look to the next. */
  ghost predicate AppendOnly(views: seq<View>) {
    forall k | 0 < k < |views| :: Extends(views, k)
  }

  ghost predicate Extends(views: seq<View>, k: nat)
    requires 0 < k < |views|
  {
    WalkOf(views[k - 1].steps) <= WalkOf(views[k].steps)
  }

  function StepsIn(emits: seq<Emit>): seq<nat> {
    if emits == [] then []
    else StepsIn(emits[..|emits| - 1]) + (if emits[|emits| - 1].Updated? then emits[|emits| - 1].newSteps else [])
  }

  /** The steps each look announces. */
  ghost function Announcements(views: seq<View>): (parts: seq<seq<nat>>)
    ensures |parts| == |views|
  {
    if views == [] then []
    else Announcements(views[..|views| - 1]) + [StepsIn(EmittedAt(views, |views| - 1))]
  }

  lemma {:induction false} AnnouncementAt(views: seq<View>, k: nat)
    requires k < |views|
    ensures Announcements(views)[k] == StepsIn(EmittedAt(views, k))
  {
    if k < |views| - 1 {
      AnnouncementAt(views[..|views| - 1], k);
      assert views[..|views| - 1][..k] == views[..k];
    }
  }

  function Flatten(parts: seq<seq<nat>>): seq<nat> {
    if parts == [] then [] else Flatten(parts[..|parts| - 1]) + parts[|parts| - 1]
  }

  /** All steps announced by the looks after s, up to k, in order. */
  ghost function AnnouncedFrom(views: seq<View>, s: nat, k: nat): seq<nat>
    requires s <= k < |views|
  {
    Flatten(Announcements(views)[s + 1..k + 1])
  }

  lemma NothingAbove(steps: seq<nat>, floor: int)
    requires Ascending(steps) && steps != [] && steps[|steps| - 1] <= floor
    ensures Above(steps, floor) == []
    ensures forall k | 0 <= k < |WalkOf(steps)| :: WalkOf(steps)[k] <= floor
  {
    AboveAre(steps, floor);
    AboveAre(steps, -1);
    var walk := WalkOf(steps);
    forall s | s in steps ensures s <= floor {
      var k :| 0 <= k < |steps| && steps[k] == s;
    }
    assert forall k | 0 <= k < |walk| :: walk[k] in walk;
  }

  /** Walk sequences past a floor are the end of the walk. */
  lemma {:induction false} AboveIsSuffix(steps: seq<nat>, floor: int) returns (m: nat)
    requires Ascending(steps) && floor >= -1
    ensures m <= |WalkOf(steps)| && Above(steps, floor) == WalkOf(steps)[m..]
    ensures forall k | 0 <= k < |WalkOf(steps)| :: k < m <==> WalkOf(steps)[k] <= floor
  {
    if steps == [] {
      m := 0;
    } else if steps[|steps| - 1] <= floor {
      NothingAbove(steps, floor);
      m := |WalkOf(steps)|;
    } else {
      var front, last := steps[..|steps| - 1], steps[|steps| - 1];
      assert forall i | 0 <= i < |front| :: front[i] == steps[i];
      m := AboveIsSuffix(front, floor);
      SuffixGrows(WalkOf(front), Above(front, floor), m, floor, last);
    }
  }

  lemma SuffixGrows(walk: seq<nat>, above: seq<nat>, m: nat, floor: int, last: nat)
    requires m <= |walk| && above == walk[m..] && last > floor
    requires forall k | 0 <= k < |walk| :: k < m <==> walk[k] <= floor
    ensures above + [last] == (walk + [last])[m..]
    ensures forall k | 0 <= k < |walk + [last]| :: k < m <==> (walk + [last])[k] <= floor
  {
  }

  lemma AppendedWalk(older: seq<nat>, newer: seq<nat>)
    requires Ascending(newer) && WalkOf(older) <= WalkOf(newer)
    ensures WalkOf(newer) == WalkOf(older) + Above(newer, Top(older)) && Top(older) <= Top(newer)
  {
    var top := LastOr(WalkOf(older));
    AboveAre(newer, -1);
    var m := AboveIsSuffix(newer, top);
    PrefixSplit(WalkOf(older), WalkOf(newer), top, m);
  }

  lemma PrefixSplit(prefix: seq<nat>, whole: seq<nat>, top: int, m: nat)
    requires Ascending(whole) && prefix <= whole && m <= |whole|
    requires top == LastOr(prefix)
    requires forall k | 0 <= k < |whole| :: k < m <==> whole[k] <= top
    ensures m == |prefix| && whole == prefix + whole[m..]
    ensures top <= LastOr(whole)
  {
    if prefix != [] {
      assert whole[|prefix| - 1] == top;
      assert |prefix| < |whole| ==> whole[|prefix| - 1] < whole[|prefix|];
    }
    assert |prefix| < |whole| ==> (|prefix| < m <==> whole[|prefix|] <= top);
  }

  /** A loud look announces exactly what the walk grew by. */
  lemma LoudLookExtends(views: seq<View>, k: nat)
    requires 0 < k < |views| && !views[k].silent && Ascending(views[k - 1].steps) && Ascending(views[k].steps)
    requires Extends(views, k)
    ensures WalkOf(views[k].steps) == WalkOf(views[k - 1].steps) + StepsIn(EmittedAt(views, k))
  {
    AppendedWalk(views[k - 1].steps, views[k].steps);
    LookAnnouncesTheRest(views, k);
  }

  /** Exactly once: from any look on after which all are loud, under append-only growth, what that
      look saw followed by every later announcement is the whole walk, in order, each step once. */
  lemma AnnouncedExactlyOnce(views: seq<View>, s: nat, k: nat)
    requires s <= k < |views| && AllAscending(views) && AppendOnly(views)
    requires forall m | s < m <= k :: !views[m].silent
    ensures WalkOf(views[s].steps) + AnnouncedFrom(views, s, k) == WalkOf(views[k].steps)
  {
    hide Announcements, WalkOf, EmittedAt;
    var walks := seq(|views|, i requires 0 <= i < |views| => WalkOf(views[i].steps));
    forall m | s < m <= k ensures GrowsBy(walks, Announcements(views), m) {
      LoudLookExtends(views, m);
      AnnouncementAt(views, m);
    }
    Telescope(walks, Announcements(views), s, k);
  }

  ghost predicate GrowsBy(walks: seq<seq<nat>>, parts: seq<seq<nat>>, m: nat)
    requires 0 < m < |walks| == |parts|
  {
    walks[m] == walks[m - 1] + parts[m]
  }

  lemma {:induction false} Telescope(walks: seq<seq<nat>>, parts: seq<seq<nat>>, s: nat, k: nat)
    requires s <= k < |walks| == |parts|
    requires forall m | s < m <= k :: GrowsBy(walks, parts, m)
    ensures walks[s] + Flatten(parts[s + 1..k + 1]) == walks[k]
    decreases k
  {
    if k != s {
      Telescope(walks, parts, s, k - 1);
      assert GrowsBy(walks, parts, k);
      assert parts[s + 1..k + 1][..k - s - 1] == parts[s + 1..k];
    }
  }

  /** The last silent look at a run, or its first look when none was silent. */
  ghost function BaseLook(history: seq<View>, boot: nat, run: RunId): View
    requires boot <= |history| && ViewsOf(history, run) != []
  {
    var silent := ViewsOf(history[..boot], run);
    if silent != [] then silent[|silent| - 1] else ViewsOf(history, run)[0]
  }

  /** The same of what is logged: however the looks at other runs interleave, the walk a run had when
      the boot last saw it, or when it was created, followed by the steps of its logged events is
      the walk it was last seen with. */
  lemma LogAnnouncesOnce(history: seq<View>, boot: nat, run: RunId)
    requires BootThenLoud(history, boot) && ViewsOf(history, run) != []
    requires AllAscending(ViewsOf(history, run)) && AppendOnly(ViewsOf(history, run))
    ensures var views := ViewsOf(history, run);
            WalkOf(BaseLook(history, boot, run).steps) + StepsIn(EventsOf(LogOf(history), run)) ==
              WalkOf(views[|views| - 1].steps)
  {
    var s := BootLooks(history, boot, run);
    LogByRun(history, run);
    EmittedIsFlat(ViewsOf(history, run));
    LooksAnnounceOnce(ViewsOf(history, run), s);
  }

  lemma LooksAnnounceOnce(views: seq<View>, s: nat)
    requires s < |views| && AllAscending(views) && AppendOnly(views)
    requires forall m | 0 < m < |views| :: views[m].silent <==> m <= s
    ensures WalkOf(views[s].steps) + Flatten(Announcements(views)) == WalkOf(views[|views| - 1].steps)
  {
    hide *;
    AllAnnounced(views, s);
    AnnouncedExactlyOnce(views, s, |views| - 1);
  }

  lemma AllAnnounced(views: seq<View>, s: nat)
    requires s < |views|
    requires forall m | 0 < m <= s :: views[m].silent
    ensures Flatten(Announcements(views)) == AnnouncedFrom(views, s, |views| - 1)
  {
    hide Announcements;
    var parts := Announcements(views);
    forall m | 0 <= m <= s ensures parts[m] == [] {
      QuietLook(views, m);
    }
    FlattenSkips(parts, s + 1);
    assert parts[s + 1..|parts|] == parts[s + 1..];
  }

  /** A run's events carry its announcements. */
  lemma {:induction false} EmittedIsFlat(views: seq<View>)
    ensures StepsIn(Emitted(views)) == Flatten(Announcements(views))
  {
    if views != [] {
      var n := |views| - 1;
      EmittedIsFlat(views[..n]);
      StepsInConcat(Emitted(views[..n]), EmittedAt(views, n));
      assert Announcements(views)[..n] == Announcements(views[..n]);
    }
  }

  lemma {:induction false} FlattenSkips(parts: seq<seq<nat>>, n: nat)
    requires n <= |parts| && forall i | 0 <= i < n :: parts[i] == []
    ensures Flatten(parts) == Flatten(parts[n..])
    decreases |parts|
  {
    if n == |parts| {
      if n != 0 {
        FlattenSkips(parts[..n - 1], n - 1);
      }
    } else {
      var last := |parts| - 1;
      FlattenSkips(parts[..last], n);
      assert parts[n..][..last - n] == parts[..last][n..];
    }
  }

  /** Silent looks and a creating one announce no steps. */
  lemma QuietLook(views: seq<View>, k: nat)
    requires k < |views| && (k == 0 || views[k].silent)
    ensures Announcements(views)[k] == []
  {
    AnnouncementAt(views, k);
    if !views[k].silent {
      CreationCarriesNoSteps(FRESH, views[0]);
    }
  }

  /** The looks at one run are silent up to the base look and loud after it. */
  lemma BootLooks(history: seq<View>, boot: nat, run: RunId) returns (s: nat)
    requires BootThenLoud(history, boot) && ViewsOf(history, run) != []
    ensures s < |ViewsOf(history, run)| && BaseLook(history, boot, run) == ViewsOf(history, run)[s]
    ensures forall m | 0 < m < |ViewsOf(history, run)| :: ViewsOf(history, run)[m].silent <==> m <= s
  {
    var silent, loud := ViewsOf(history[..boot], run), ViewsOf(history[boot..], run);
    assert history == history[..boot] + history[boot..];
    ViewsConcat(history[..boot], history[boot..], run);
    ViewsAre(history[..boot], run, true);
    ViewsAre(history[boot..], run, false);
    s := if silent == [] then 0 else |silent| - 1;
  }

  lemma CreationCarriesNoSteps(c: Cursor, v: View)
    requires !c.known
    ensures StepsIn(Emits(c, v)) == []
  {
    var completed := if Terminal(Some(v.status)) && !Terminal(c.status) then [Completed] else [];
    StepsInConcat([Created], completed);
    assert StepsIn([Created]) == [] by {
      assert [Created][..0] == [];
    }
    assert completed != [] ==> completed[..0] == [];
  }

  lemma {:induction false} StepsInConcat(x: seq<Emit>, y: seq<Emit>)
    ensures StepsIn(x + y) == StepsIn(x) + StepsIn(y)
    decreases |y|
  {
    if y == [] {
      assert x + y == x;
    } else {
      assert (x + y)[..|x + y| - 1] == x + y[..|y| - 1];
      StepsInConcat(x, y[..|y| - 1]);
    }
  }

  lemma {:induction false} ViewsConcat(x: seq<View>, y: seq<View>, run: RunId)
    ensures ViewsOf(x + y, run) == ViewsOf(x, run) + ViewsOf(y, run)
    decreases |y|
  {
    if y == [] {
      assert x + y == x;
    } else {
      assert (x + y)[..|x + y| - 1] == x + y[..|y| - 1];
      ViewsConcat(x, y[..|y| - 1], run);
    }
  }

  lemma {:induction false} ViewsAre(history: seq<View>, run: RunId, silent: bool)
    requires AllSilent(history, silent)
    ensures AllSilent(ViewsOf(history, run), silent)
  {
    if history != [] {
      ViewsAre(history[..|history| - 1], run, silent);
    }
  }

  /** A run's first loud look creates it. */
  lemma FirstLookCreates(views: seq<View>)
    requires views != [] && !views[0].silent
    ensures EmittedAt(views, 0)[..1] == [Created]
  {
  }

  lemma LookAnnouncesTheRest(views: seq<View>, k: nat)
    requires 0 < k < |views| && !views[k].silent && Top(views[k - 1].steps) <= Top(views[k].steps)
    ensures StepsIn(EmittedAt(views, k)) == Above(views[k].steps, Top(views[k - 1].steps))
  {
    CursorIsLastLook(views, k);
    var c, v := After(views[..k]), views[k];
    StepsInLook(NewSteps(c, v), if Terminal(Some(v.status)) && !Terminal(c.status) then [Completed] else []);
  }

  lemma StepsInLook(newSteps: seq<nat>, completed: seq<Emit>)
    requires completed == [] || completed == [Completed]
    ensures StepsIn((if newSteps != [] then [Updated(newSteps)] else []) + completed) == newSteps
  {
    var first := if newSteps != [] then [Updated(newSteps)] else [];
    assert StepsIn(first) == newSteps by {
      assert first != [] ==> first[..0] == [];
    }
    if completed != [] {
      assert (first + completed)[..|first|] == first;
    } else {
      assert first + completed == first;
    }
  }

  /** Two completions of a run are separated by a look that saw it in a non-terminal status. */
  lemma CompletionsSeparated(views: seq<View>, i: nat, j: nat)
    requires i < j < |views| && Completed in EmittedAt(views, i) && Completed in EmittedAt(views, j)
    ensures exists m :: i < m < j && !Terminal(Some(views[m].status))
  {
  }

  // ----- When a look announces what, from the looks alone -----

  /** A status the source calls terminal. */
  predicate Finished(v: View) {
    v.status == Ok || v.status == Error
  }

  /** A look announces completion exactly when it is loud, sees the run finished, well or not, and is
      the first look or follows one that did not; and then once. */
  lemma CompletedIff(views: seq<View>, k: nat)
    requires k < |views|
    ensures Completed in EmittedAt(views, k) <==>
              !views[k].silent && Finished(views[k]) && (k > 0 ==> !Finished(views[k - 1]))
    ensures multiset(EmittedAt(views, k))[Completed] <= 1
  {
    if k > 0 {
      CursorIsLastLook(views, k);
    }
  }

  /** A look announces creation exactly when it is loud and the first look at the run. */
  lemma CreatedIff(views: seq<View>, k: nat)
    requires k < |views|
    ensures Created in EmittedAt(views, k) <==> !views[k].silent && k == 0
    ensures multiset(EmittedAt(views, k))[Created] <= 1
  {
    if k > 0 {
      CursorIsLastLook(views, k);
    }
  }

  /** A walk step of the look lies past every walk step of the look before it. */
  predicate IsNews(views: seq<View>, k: nat, s: nat)
    requires 0 < k < |views|
  {
    var earlier := views[k - 1].steps;
    && s in views[k].steps && s < StepTable.HOOK_BASE
    && forall t | t in earlier && t < StepTable.HOOK_BASE :: t < s
  }

  /** A look announces steps exactly when it is loud, not the first one, and has news; and then it
      announces the news, all of it, in order. */
  lemma UpdatedIff(views: seq<View>, k: nat, xs: seq<nat>)
    requires AllAscending(views) && k < |views|
    ensures Updated(xs) in EmittedAt(views, k) ==>
              !views[k].silent && k > 0 && xs != [] && Ascending(xs) && forall s :: s in xs <==> IsNews(views, k, s)
    ensures !views[k].silent && k > 0 && (exists s :: IsNews(views, k, s)) ==>
              exists ys :: Updated(ys) in EmittedAt(views, k)
  {
    if k > 0 {
      CursorIsLastLook(views, k);
      NewsIsAbove(views, k);
      var c, v := After(views[..k]), views[k];
      AboveAre(v.steps, c.floor);
      if !v.silent && NewSteps(c, v) != [] {
        assert EmittedAt(views, k)[0] == Updated(NewSteps(c, v));
      }
    }
  }

  lemma NewsIsAbove(views: seq<View>, k: nat)
    requires AllAscending(views) && 0 < k < |views|
    ensures forall s :: s in NewSteps(Cursor(Top(views[k - 1].steps), true, Some(views[k - 1].status)), views[k]) <==>
                      IsNews(views, k, s)
  {
    var c, v := Cursor(Top(views[k - 1].steps), true, Some(views[k - 1].status)), views[k];
    AboveAre(v.steps, c.floor);
    TopIsHighest(views[k - 1].steps);
    TopIsHighest(v.steps);
  }

  /** The top is the highest walk sequence of a look, and one of them unless there is none. */
  lemma TopIsHighest(steps: seq<nat>)
    requires Ascending(steps)
    ensures forall s | s in steps && s < StepTable.HOOK_BASE :: s <= Top(steps)
    ensures Top(steps) == -1 || exists s | s in steps && s < StepTable.HOOK_BASE :: s == Top(steps)
  {
    AboveAre(steps, -1);
    var walk := WalkOf(steps);
    if walk != [] {
      assert walk[|walk| - 1] in walk;
    }
    forall s | s in steps && s < StepTable.HOOK_BASE ensures s <= Top(steps) {
      assert s in walk;
      var i :| 0 <= i < |walk| && walk[i] == s;
    }
  }
}
