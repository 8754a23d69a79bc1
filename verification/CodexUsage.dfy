/** Token and patch attribution of the Codex CLI adapter (`buildSteps`). */
module CodexUsage {
  import opened Wrappers
  import Replay

  // ----- Records -----

  /** `last_token_usage`: cached input is a part of input. */
  datatype Usage = Usage(input: nat, cached: nat, output: nat, reasoning: nat) {
    function Add(u: Usage): Usage {
      Usage(input + u.input, cached + u.cached, output + u.output, reasoning + u.reasoning)
    }

    function Get(c: Counter): nat {
      match c
      case Input => input
      case Cached => cached
      case Output => output
      case Reasoning => reasoning
    }
  }

  datatype Counter = Input | Cached | Output | Reasoning

  const NO_USAGE := Usage(0, 0, 0, 0)

  datatype ChangeKind = Add | Delete | Update

  /** One entry of a patch event's changes map; an absent `move_path` is the empty string. */
  datatype PatchChange = PatchChange(path: string, kind: ChangeKind, hasContent: bool, movePath: string)

  /** A rollout record, reduced to what attribution reads; an absent call id is the empty string. */
  datatype Record =
    | SessionMeta(sessionId: string, cwd: string)
    | Assistant
    | ToolCall(callId: string)
    | TokenCount(usage: Option<Usage>)
    | PatchApplyEnd(patchCallId: string, changes: Option<seq<PatchChange>>)
    | Immaterial

  datatype Parsed = Parsed(record: Record, offset: nat)

  /** Record offsets ascend, as the parser yields them. */
  ghost predicate Ascending(records: seq<Parsed>) {
    forall j, k | 0 <= j < k < |records| :: records[j].offset < records[k].offset
  }

  predicate IsStep(r: Record) {
    r.Assistant? || r.ToolCall?
  }

  // ----- Identifiers: hashes, taken to be injective -----

  datatype RunId = RunId(key: string)
  datatype StepId = StepId(run: RunId, offset: nat)
  datatype ChangeId = ChangeId(step: StepId, path: string, sequence: nat)

  datatype Meta = Meta(sessionId: string, cwd: string)

  /** `inferMeta`: the first `session_meta` record. */
  function InferMeta(records: seq<Parsed>): Meta {
    if records == [] then Meta("", "")
    else if records[0].record.SessionMeta? then Meta(records[0].record.sessionId, records[0].record.cwd)
    else InferMeta(records[1..])
  }

  function RunOf(meta: Meta, path: string): RunId {
    RunId(if meta.sessionId != "" then meta.sessionId else path)
  }

  function TrimSlashes(s: string): string {
    if s != "" && s[|s| - 1] == '/' then TrimSlashes(s[..|s| - 1]) else s
  }

  function Forward(s: string): string {
    if s == "" then "" else [if s[0] == '\\' then '/' else s[0]] + Forward(s[1..])
  }

  /** `toRepoRelative`. */
  function RepoRelative(path: string, cwd: string): string {
    var root := TrimSlashes(cwd);
    if root != "" && path == root then ""
    else if root != "" && root + "/" <= path then Forward(path[|root| + 1..])
    else Forward(path)
  }

  lemma {:induction false} ForwardKeeps(s: string)
    requires '\\' !in s
    ensures Forward(s) == s
  {
    if s != "" {
      ForwardKeeps(s[1..]);
    }
  }

  /** A path beneath the working directory is named from there on; any other path is kept. */
  lemma RelativeToRoot(root: string, rest: string, path: string)
    requires root != "" && root[|root| - 1] != '/' && '\\' !in rest && '\\' !in path
    ensures RepoRelative(root + "/" + rest, root) == rest && RepoRelative(root + "/" + rest, root + "/") == rest
    ensures RepoRelative(root, root) == ""
    ensures path != root && !(root + "/" <= path) ==> RepoRelative(path, root) == path
  {
    ForwardKeeps(rest);
    ForwardKeeps(path);
    assert (root + "/")[..|root|] == root;
    assert (root + "/" + rest)[|root| + 1..] == rest;
  }

  // ----- Usage of a step -----

  function UsageIn(r: Record, c: Counter): nat {
    if r.TokenCount? && r.usage.Some? then r.usage.value.Get(c) else 0
  }

  /** A counter over the usage events in `records[from..to]` that come before the next step record. */
  function UntilNextStep(records: seq<Parsed>, from: nat, to: nat, c: Counter): nat
    requires from <= to <= |records|
    decreases |records| - from
  {
    if from == to || IsStep(records[from].record) then 0
    else UsageIn(records[from].record, c) + UntilNextStep(records, from + 1, to, c)
  }

  lemma {:induction false} UntilGrows(records: seq<Parsed>, from: nat, to: nat, c: Counter)
    requires from <= to < |records| && forall k | from <= k < to :: !IsStep(records[k].record)
    ensures UntilNextStep(records, from, to + 1, c) ==
              UntilNextStep(records, from, to, c) + UsageIn(records[to].record, c)
    decreases |records| - from
  {
    if from < to { UntilGrows(records, from + 1, to, c); }
  }

  lemma {:induction false} UntilStops(records: seq<Parsed>, from: nat, stop: nat, to: nat, c: Counter)
    requires from <= stop < to <= |records| && IsStep(records[stop].record)
    ensures UntilNextStep(records, from, to, c) == UntilNextStep(records, from, stop + 1, c)
    decreases |records| - from
  {
    if from < stop && !IsStep(records[from].record) { UntilStops(records, from + 1, stop, to, c); }
  }

  function At(usage: map<nat, Usage>, i: nat): Usage {
    if i in usage then usage[i] else NO_USAGE
  }

  /** After the first `i` records, with `last` the latest step record among them. */
  ghost predicate Anchored(records: seq<Parsed>, usage: map<nat, Usage>, last: int, i: nat)
    requires i <= |records|
  {
    && -1 <= last < i && (last >= 0 ==> IsStep(records[last].record))
    && (forall k | last < k < i :: !IsStep(records[k].record))
    && (forall k | k in usage :: k <= last)
    && (forall k: nat, c | k < i && IsStep(records[k].record) ::
          At(usage, k).Get(c) == UntilNextStep(records, k + 1, i, c))
  }

  lemma UntilTurn(records: seq<Parsed>, last: int, i: nat, k: nat, c: Counter)
    requires -1 <= last < i < |records| && (last >= 0 ==> IsStep(records[last].record))
    requires forall k | last < k < i :: !IsStep(records[k].record)
    requires k < i && IsStep(records[k].record)
    ensures UntilNextStep(records, k + 1, i + 1, c) ==
            UntilNextStep(records, k + 1, i, c) + (if k < last then 0 else UsageIn(records[i].record, c))
  {
    if k < last {
      UntilStops(records, k + 1, last, i + 1, c);
      UntilStops(records, k + 1, last, i, c);
    } else {
      UntilGrows(records, k + 1, i, c);
    }
  }

  /** `after` adds the usage in `r` to the latest step alone. */
  predicate Gains(usage: map<nat, Usage>, after: map<nat, Usage>, last: int, r: Record, k: nat, c: Counter) {
    At(after, k).Get(c) == At(usage, k).Get(c) + (if k == last then UsageIn(r, c) else 0)
  }

  /** One turn of the pre-pass on a record that is no step: its usage goes to the latest step. */
  lemma AnchorTurn(records: seq<Parsed>, usage: map<nat, Usage>, last: int, i: nat, after: map<nat, Usage>)
    requires i < |records| && Anchored(records, usage, last, i) && !IsStep(records[i].record)
    requires forall k | k in after :: k <= last
    requires forall k: nat, c: Counter :: Gains(usage, after, last, records[i].record, k, c)
    ensures Anchored(records, after, last, i + 1)
  {
    forall k: nat, c | k < i + 1 && IsStep(records[k].record)
      ensures At(after, k).Get(c) == UntilNextStep(records, k + 1, i + 1, c) {
      assert k <= last;
      UntilTurn(records, last, i, k, c);
      assert Gains(usage, after, last, records[i].record, k, c);
    }
  }

  lemma AnchorStep(records: seq<Parsed>, usage: map<nat, Usage>, last: int, i: nat)
    requires i < |records| && Anchored(records, usage, last, i) && IsStep(records[i].record)
    ensures Anchored(records, usage, i, i + 1)
  {
    forall k: nat, c | k < i + 1 && IsStep(records[k].record)
      ensures At(usage, k).Get(c) == UntilNextStep(records, k + 1, i + 1, c) {
      if k < i { UntilTurn(records, last, i, k, c); }
    }
  }

  /** The pre-pass: usage by the index of the nearest step record before it. */
  method AnchorUsage(records: seq<Parsed>) returns (usageByAnchor: map<nat, Usage>)
    ensures forall i: nat, c | i < |records| && IsStep(records[i].record) ::
              At(usageByAnchor, i).Get(c) == UntilNextStep(records, i + 1, |records|, c)
  {
    usageByAnchor := map[];
    var lastStepIdx := -1;
    for i := 0 to |records|
      invariant Anchored(records, usageByAnchor, lastStepIdx, i)
    {
      var r := records[i].record;
      if IsStep(r) {
        AnchorStep(records, usageByAnchor, lastStepIdx, i);
        lastStepIdx := i;
        continue;
      }
      ghost var before := usageByAnchor;
      if r.TokenCount? && lastStepIdx >= 0 && r.usage.Some? {
        var prev := At(usageByAnchor, lastStepIdx);
        usageByAnchor := usageByAnchor[lastStepIdx := prev.Add(r.usage.value)];
      }
      forall k: nat, c: Counter ensures Gains(before, usageByAnchor, lastStepIdx, r, k, c) {
      }
      AnchorTurn(records, before, lastStepIdx, i, usageByAnchor);
    }
  }

  // ----- Conservation -----

  /** A counter over all usage events of `records[from..]`. */
  function AllUsage(records: seq<Parsed>, from: nat, c: Counter): nat
    requires from <= |records|
    decreases |records| - from
  {
    if from == |records| then 0 else UsageIn(records[from].record, c) + AllUsage(records, from + 1, c)
  }

  /** What the steps of `records[from..]` get between them. */
  function StepUsage(records: seq<Parsed>, from: nat, c: Counter): nat
    requires from <= |records|
    decreases |records| - from
  {
    if from == |records| then 0
    else (if IsStep(records[from].record) then UntilNextStep(records, from + 1, |records|, c) else 0)
         + StepUsage(records, from + 1, c)
  }

  function FirstStep(records: seq<Parsed>, from: nat): (i: nat)
    requires from <= |records|
    ensures from <= i <= |records| && (i < |records| ==> IsStep(records[i].record))
    decreases |records| - from
  {
    if from == |records| || IsStep(records[from].record) then from else FirstStep(records, from + 1)
  }

  lemma {:induction false} NextStepTakesTheRest(records: seq<Parsed>, from: nat, c: Counter)
    requires from <= |records|
    ensures AllUsage(records, from, c) == UntilNextStep(records, from, |records|, c) + StepUsage(records, from, c)
    decreases |records| - from
  {
    if from < |records| { NextStepTakesTheRest(records, from + 1, c); }
  }

  /** Every counter summed over the steps is its sum over the usage events after the first step. */
  lemma {:induction false} UsageIsConserved(records: seq<Parsed>, from: nat, c: Counter)
    requires from <= |records|
    ensures StepUsage(records, from, c) == AllUsage(records, FirstStep(records, from), c)
    decreases |records| - from
  {
    if from < |records| {
      if IsStep(records[from].record) {
        NextStepTakesTheRest(records, from + 1, c);
      } else {
        UsageIsConserved(records, from + 1, c);
      }
    }
  }

  // ----- The walk -----

  datatype Row = Row(at: nat, id: StepId, parent: Option<StepId>, sequence: nat)
  datatype Change = Change(id: ChangeId, step: StepId, sequence: nat, path: string, oldPath: Option<string>,
                           op: Replay.FileOp, partial: bool)

  /** The variables of the main loop. */
  datatype Walk = Walk(rows: seq<Row>, changes: seq<Change>, byCall: map<string, StepId>, numbered: map<StepId, nat>) {
    function Next(step: StepId): nat {
      if step in numbered then numbered[step] else 0
    }
  }

  function LastId(rows: seq<Row>): Option<StepId> {
    if rows == [] then None else Some(rows[|rows| - 1].id)
  }

  const START := Walk([], [], map[], map[])

  /** The step a patch event is attributed to: that of its call, else the nearest step before it. */
  function Target(w: Walk, callId: string): Option<StepId> {
    if callId != "" && callId in w.byCall then Some(w.byCall[callId]) else LastId(w.rows)
  }

  function OpOf(c: PatchChange): Replay.FileOp {
    if c.kind.Add? then Replay.Create
    else if c.kind.Delete? then Replay.Delete
    else if c.movePath != "" then Replay.Rename else Replay.Modify
  }

  /** The row of one changed file. Only an added file comes with its content; any other row is partial
      and, when the file moved, carries the new path and keeps the old one beside it. The id is
      minted from the path the event names. */
  function RowFor(step: StepId, number: nat, c: PatchChange, cwd: string): Change {
    var named := RepoRelative(c.path, cwd);
    var full := c.kind.Add? && c.hasContent;
    var moved := !full && c.movePath != "";
    Change(ChangeId(step, named, number), step, number, if moved then RepoRelative(c.movePath, cwd) else named,
           if moved then Some(named) else None, OpOf(c), !full)
  }

  function WithChange(w: Walk, step: StepId, c: PatchChange, cwd: string): Walk {
    var number := w.Next(step);
    w.(changes := w.changes + [RowFor(step, number, c, cwd)], numbered := w.numbered[step := number + 1])
  }

  function WithChanges(w: Walk, step: StepId, changed: seq<PatchChange>, cwd: string): (v: Walk)
    ensures v.rows == w.rows && v.byCall == w.byCall
  {
    if changed == [] then w
    else WithChange(WithChanges(w, step, changed[..|changed| - 1], cwd), step, changed[|changed| - 1], cwd)
  }

  function WithStep(w: Walk, at: nat, id: StepId, callId: string): Walk {
    w.(rows := w.rows + [Row(at, id, LastId(w.rows), |w.rows|)],
       byCall := if callId != "" then w.byCall[callId := id] else w.byCall)
  }

  function PatchedBy(w: Walk, callId: string, changes: Option<seq<PatchChange>>, cwd: string): Walk {
    if changes.None? || Target(w, callId).None? then w
    else WithChanges(w, Target(w, callId).value, changes.value, cwd)
  }

  /** One turn of the main loop. */
  function Turn(w: Walk, r: Parsed, at: nat, run: RunId, cwd: string): Walk {
    match r.record
    case Assistant => WithStep(w, at, StepId(run, r.offset), "")
    case ToolCall(callId) => WithStep(w, at, StepId(run, r.offset), callId)
    case PatchApplyEnd(callId, changes) => PatchedBy(w, callId, changes, cwd)
    case SessionMeta(_, _) => w
    case TokenCount(_) => w
    case Immaterial => w
  }

  function Walked(records: seq<Parsed>, n: nat, run: RunId, cwd: string): (w: Walk)
    requires n <= |records|
    ensures forall row | row in w.rows :: row.at < n && IsStep(records[row.at].record)
  {
    if n == 0 then START else Turn(Walked(records, n - 1, run, cwd), records[n - 1], n - 1, run, cwd)
  }

  /** What a step stores: input without its cached part, never below zero. */
  datatype Tokens = Tokens(input: nat, cachedRead: nat, output: nat, reasoning: nat)

  function TokensOf(u: Usage): Tokens {
    Tokens(if u.input > u.cached then u.input - u.cached else 0, u.cached, u.output, u.reasoning)
  }

  datatype Built = Built(rows: seq<Row>, tokens: seq<Tokens>, changes: seq<Change>)

  /** A step is stored with the usage reported between it and the next step. */
  function StoredTokens(records: seq<Parsed>, row: Row): Tokens
    requires row.at < |records|
  {
    TokensOf(UsageAt(records, row.at))
  }

  function UsageAt(records: seq<Parsed>, at: nat): (u: Usage)
    requires at < |records|
    ensures forall c :: u.Get(c) == UntilNextStep(records, at + 1, |records|, c)
  {
    Usage(UntilNextStep(records, at + 1, |records|, Input), UntilNextStep(records, at + 1, |records|, Cached),
          UntilNextStep(records, at + 1, |records|, Output), UntilNextStep(records, at + 1, |records|, Reasoning))
  }

  lemma SameCounters(u: Usage, v: Usage)
    requires forall c :: u.Get(c) == v.Get(c)
    ensures u == v
  {
    assert u.Get(Input) == v.Get(Input) && u.Get(Cached) == v.Get(Cached);
    assert u.Get(Output) == v.Get(Output) && u.Get(Reasoning) == v.Get(Reasoning);
  }

  function TokensOfRows(records: seq<Parsed>, rows: seq<Row>): (tokens: seq<Tokens>)
    requires forall row | row in rows :: row.at < |records|
    ensures |tokens| == |rows| && forall k | 0 <= k < |rows| :: tokens[k] == StoredTokens(records, rows[k])
  {
    if rows == [] then []
    else TokensOfRows(records, rows[..|rows| - 1]) + [StoredTokens(records, rows[|rows| - 1])]
  }

  /** The built steps and changes as functions of the rollout. */
  function BuiltOf(records: seq<Parsed>, run: RunId, cwd: string): Built {
    var w := Walked(records, |records|, run, cwd);
    Built(w.rows, TokensOfRows(records, w.rows), w.changes)
  }

  lemma OneMoreRow(records: seq<Parsed>, usage: map<nat, Usage>, rows: seq<Row>, row: Row)
    requires (forall r | r in rows :: r.at < row.at) && row.at < |records|
    requires forall c :: At(usage, row.at).Get(c) == UntilNextStep(records, row.at + 1, |records|, c)
    ensures TokensOfRows(records, rows + [row]) == TokensOfRows(records, rows) + [TokensOf(At(usage, row.at))]
    ensures forall r | r in rows + [row] :: r.at < row.at + 1
  {
    SameCounters(At(usage, row.at), UsageAt(records, row.at));
    assert (rows + [row])[..|rows|] == rows;
  }

  /** `buildSteps`. */
  method BuildSteps(records: seq<Parsed>, run: RunId, meta: Meta) returns (built: Built)
    ensures built == BuiltOf(records, run, meta.cwd)
  {
    var usageByAnchor := AnchorUsage(records);
    var cwd := meta.cwd;
    var rows: seq<Row>, tokens: seq<Tokens>, changes: seq<Change> := [], [], [];
    var stepIdByCallId: map<string, StepId> := map[];
    var fcSeqByStep: map<StepId, nat> := map[];
    var prevStepId: Option<StepId> := None;
    for i := 0 to |records|
      invariant Walk(rows, changes, stepIdByCallId, fcSeqByStep) == Walked(records, i, run, cwd)
      invariant prevStepId == LastId(rows)
      invariant (forall row | row in rows :: row.at < i) && tokens == TokensOfRows(records, rows)
    {
      var r := records[i];
      if r.record.PatchApplyEnd? {
        changes, fcSeqByStep := PatchTurn(rows, changes, stepIdByCallId, fcSeqByStep, prevStepId, r.record, cwd);
      } else if IsStep(r.record) {
        var id := StepId(run, r.offset);
        var row := Row(i, id, prevStepId, |rows|);
        OneMoreRow(records, usageByAnchor, rows, row);
        rows := rows + [row];
        tokens := tokens + [TokensOf(At(usageByAnchor, i))];
        if r.record.ToolCall? && r.record.callId != "" {
          stepIdByCallId := stepIdByCallId[r.record.callId := id];
        }
        prevStepId := Some(id);
      }
    }
    built := Built(rows, tokens, changes);
  }

  /** The branch of the main loop for a patch event. */
  method PatchTurn(rows: seq<Row>, before: seq<Change>, stepIdByCallId: map<string, StepId>, numbered: map<StepId, nat>,
                   prevStepId: Option<StepId>, r: Record, cwd: string)
    returns (changes: seq<Change>, fcSeqByStep: map<StepId, nat>)
    requires r.PatchApplyEnd? && prevStepId == LastId(rows)
    ensures var w := Walk(rows, before, stepIdByCallId, numbered);
            Walk(rows, changes, stepIdByCallId, fcSeqByStep) == PatchedBy(w, r.patchCallId, r.changes, cwd)
  {
    var callId := r.patchCallId;
    var stepId := if callId != "" && callId in stepIdByCallId then Some(stepIdByCallId[callId]) else None;
    var targetStepId := if stepId.Some? then stepId else prevStepId;
    if targetStepId.None? || r.changes.None? {
      return before, numbered;
    }
    changes, fcSeqByStep := AddChanges(rows, before, stepIdByCallId, numbered, targetStepId.value, r.changes.value,
                                       cwd);
  }

  /** The inner loop over the changes of one patch event. */
  method AddChanges(ghost rows: seq<Row>, before: seq<Change>, ghost byCall: map<string, StepId>,
                    numbered: map<StepId, nat>, step: StepId, changed: seq<PatchChange>, cwd: string)
    returns (changes: seq<Change>, fcSeqByStep: map<StepId, nat>)
    ensures Walk(rows, changes, byCall, fcSeqByStep) ==
              WithChanges(Walk(rows, before, byCall, numbered), step, changed, cwd)
  {
    changes, fcSeqByStep := before, numbered;
    for k := 0 to |changed|
      invariant Walk(rows, changes, byCall, fcSeqByStep) ==
                  WithChanges(Walk(rows, before, byCall, numbered), step, changed[..k], cwd)
    {
      var c := changed[k];
      var number := if step in fcSeqByStep then fcSeqByStep[step] else 0;
      fcSeqByStep := fcSeqByStep[step := number + 1];
      assert changed[..k + 1][..k] == changed[..k];
      var row := AddChange(step, number, c, cwd);
      changes := changes + [row];
    }
    assert changed[..|changed|] == changed;
  }

  method AddChange(step: StepId, number: nat, c: PatchChange, cwd: string) returns (row: Change)
    ensures row == RowFor(step, number, c, cwd)
  {
    var relPath := RepoRelative(c.path, cwd);
    var op := if c.kind.Add? then Replay.Create
              else if c.kind.Delete? then Replay.Delete
              else if c.movePath != "" then Replay.Rename else Replay.Modify;
    var id := ChangeId(step, relPath, number);
    if c.kind.Add? && c.hasContent {
      row := Change(id, step, number, relPath, None, Replay.Create, false);
    } else {
      var path := if c.movePath != "" then RepoRelative(c.movePath, cwd) else relPath;
      row := Change(id, step, number, path, if c.movePath != "" then Some(relPath) else None, op, true);
    }
  }

  // ----- Change numbering -----

  /** How many changes belong to `step`. */
  function Count(changes: seq<Change>, step: StepId): nat {
    if changes == [] then 0
    else Count(changes[..|changes| - 1], step) + (if changes[|changes| - 1].step == step then 1 else 0)
  }

  /** Each change is numbered by how many changes before it share its step, and named after that. */
  ghost predicate InSequence(changes: seq<Change>) {
    changes == [] ||
    var front, last := changes[..|changes| - 1], changes[|changes| - 1];
    && InSequence(front)
    && last.sequence == Count(front, last.step)
    && last.id == ChangeId(last.step, last.oldPath.GetOr(last.path), last.sequence)
  }

  ghost predicate Numbered(w: Walk) {
    InSequence(w.changes) && forall step :: w.Next(step) == Count(w.changes, step)
  }

  lemma {:induction false} MoreChanges(w: Walk, step: StepId, changed: seq<PatchChange>, cwd: string)
    requires Numbered(w)
    ensures Numbered(WithChanges(w, step, changed, cwd))
  {
    if changed != [] {
      MoreChanges(w, step, changed[..|changed| - 1], cwd);
    }
  }

  /** The changes of each step are numbered 0, 1, 2, ... across all patch events. */
  lemma {:induction false} ChangesAreNumbered(records: seq<Parsed>, n: nat, run: RunId, cwd: string)
    requires n <= |records|
    ensures Numbered(Walked(records, n, run, cwd))
  {
    if n > 0 {
      ChangesAreNumbered(records, n - 1, run, cwd);
      var w, r := Walked(records, n - 1, run, cwd), records[n - 1].record;
      if r.PatchApplyEnd? && r.changes.Some? && Target(w, r.patchCallId).Some? {
        MoreChanges(w, Target(w, r.patchCallId).value, r.changes.value, cwd);
      }
    }
  }

  lemma {:induction false} NumberedBelowCount(changes: seq<Change>, j: nat)
    requires InSequence(changes) && j < |changes|
    ensures changes[j].sequence < Count(changes, changes[j].step)
  {
    if j < |changes| - 1 { NumberedBelowCount(changes[..|changes| - 1], j); }
  }

  /** Later changes of a step have larger numbers: `UNIQUE(step_id, sequence)` is never violated. */
  lemma {:induction false} NumbersClimb(changes: seq<Change>, j: nat, k: nat)
    requires InSequence(changes) && j < k < |changes| && changes[j].step == changes[k].step
    ensures changes[j].sequence < changes[k].sequence
  {
    if k < |changes| - 1 {
      NumbersClimb(changes[..|changes| - 1], j, k);
    } else {
      NumberedBelowCount(changes[..k], j);
    }
  }

  // ----- Conservation of the stored tokens -----

  function RowUsage(records: seq<Parsed>, rows: seq<Row>, c: Counter): nat
    requires forall row | row in rows :: row.at < |records|
  {
    if rows == [] then 0
    else RowUsage(records, rows[..|rows| - 1], c) + UsageAt(records, rows[|rows| - 1].at).Get(c)
  }

  lemma RowUsageGrows(records: seq<Parsed>, rows: seq<Row>, row: Row, c: Counter)
    requires (forall r | r in rows :: r.at < |records|) && row.at < |records|
    ensures forall r | r in rows + [row] :: r.at < |records|
    ensures RowUsage(records, rows + [row], c) ==
              RowUsage(records, rows, c) + UntilNextStep(records, row.at + 1, |records|, c)
  {
  }

  lemma WalkedTurn(records: seq<Parsed>, n: nat, run: RunId, cwd: string)
    requires 0 < n <= |records|
    ensures var rows, r := Walked(records, n - 1, run, cwd).rows, records[n - 1];
            Walked(records, n, run, cwd).rows ==
            if IsStep(r.record) then rows + [Row(n - 1, StepId(run, r.offset), LastId(rows), |rows|)] else rows
  {
  }

  /** The rows of the walk are the step records, each once and in order. */
  lemma {:induction false} RowsTakeStepUsage(records: seq<Parsed>, n: nat, run: RunId, cwd: string, c: Counter)
    requires n <= |records|
    ensures RowUsage(records, Walked(records, n, run, cwd).rows, c) + StepUsage(records, n, c) ==
              StepUsage(records, 0, c)
  {
    if n > 0 {
      RowsTakeStepUsage(records, n - 1, run, cwd, c);
      RowTurn(records, n, run, cwd, c);
    }
  }

  lemma RowTurn(records: seq<Parsed>, n: nat, run: RunId, cwd: string, c: Counter)
    requires 0 < n <= |records|
    ensures RowUsage(records, Walked(records, n, run, cwd).rows, c) ==
            RowUsage(records, Walked(records, n - 1, run, cwd).rows, c)
            + (if IsStep(records[n - 1].record) then UntilNextStep(records, n, |records|, c) else 0)
  {
    WalkedTurn(records, n, run, cwd);
    var rows, r := Walked(records, n - 1, run, cwd).rows, records[n - 1];
    if IsStep(r.record) {
      RowUsageGrows(records, rows, Row(n - 1, StepId(run, r.offset), LastId(rows), |rows|), c);
    }
  }

  function Sum(tokens: seq<Tokens>): Tokens {
    if tokens == [] then Tokens(0, 0, 0, 0)
    else
      var sum, last := Sum(tokens[..|tokens| - 1]), tokens[|tokens| - 1];
      Tokens(sum.input + last.input, sum.cachedRead + last.cachedRead, sum.output + last.output,
             sum.reasoning + last.reasoning)
  }

  /** No step has more cached input than input. */
  ghost predicate CachedWithinInput(records: seq<Parsed>, rows: seq<Row>)
    requires forall row | row in rows :: row.at < |records|
  {
    forall row | row in rows :: UsageAt(records, row.at).cached <= UsageAt(records, row.at).input
  }

  lemma {:induction false} StoredSums(records: seq<Parsed>, rows: seq<Row>)
    requires forall row | row in rows :: row.at < |records|
    ensures var sum := Sum(TokensOfRows(records, rows));
            && sum.cachedRead == RowUsage(records, rows, Cached)
            && sum.output == RowUsage(records, rows, Output)
            && sum.reasoning == RowUsage(records, rows, Reasoning)
            && sum.input + sum.cachedRead >= RowUsage(records, rows, Input)
            && (sum.input + sum.cachedRead == RowUsage(records, rows, Input) <==> CachedWithinInput(records, rows))
  {
    if rows != [] {
      hide UsageAt, CachedWithinInput, Sum;
      var front, last := rows[..|rows| - 1], rows[|rows| - 1];
      assert rows == front + [last];
      StoredSums(records, front);
      CachedWithinSnoc(records, front, last);
      SumSnoc(TokensOfRows(records, front), StoredTokens(records, last));
    }
  }

  lemma CachedWithinSnoc(records: seq<Parsed>, front: seq<Row>, last: Row)
    requires forall row | row in front + [last] :: row.at < |records|
    ensures CachedWithinInput(records, front + [last]) <==>
            CachedWithinInput(records, front) && UsageAt(records, last.at).cached <= UsageAt(records, last.at).input
  {
  }

  lemma SumSnoc(tokens: seq<Tokens>, last: Tokens)
    ensures var sum := Sum(tokens);
            Sum(tokens + [last]) == Tokens(sum.input + last.input, sum.cachedRead + last.cachedRead,
                                           sum.output + last.output, sum.reasoning + last.reasoning)
  {
    assert (tokens + [last])[..|tokens|] == tokens;
  }

  /** The stored tokens of a session add up to its usage events after the first step; input does exactly when no
      step reports more cached input than input. */
  lemma TokensAreConserved(records: seq<Parsed>, run: RunId, cwd: string)
    ensures var built, first := BuiltOf(records, run, cwd), FirstStep(records, 0);
            var sum := Sum(built.tokens);
            && sum.cachedRead == AllUsage(records, first, Cached)
            && sum.output == AllUsage(records, first, Output)
            && sum.reasoning == AllUsage(records, first, Reasoning)
            && (sum.input + sum.cachedRead == AllUsage(records, first, Input) <==>
                CachedWithinInput(records, Walked(records, |records|, run, cwd).rows))
  {
    var rows := Walked(records, |records|, run, cwd).rows;
    StoredSums(records, rows);
    forall c ensures RowUsage(records, rows, c) == AllUsage(records, FirstStep(records, 0), c) {
      RowsTakeStepUsage(records, |records|, run, cwd, c);
      UsageIsConserved(records, 0, c);
    }
  }

  /** One assistant step followed by more cached input than input: 0 is reported, 5 is stored. */
  lemma CachedBeyondInputAddsUp(run: RunId, cwd: string)
    ensures var records := [Parsed(Assistant, 0), Parsed(TokenCount(Some(Usage(0, 5, 0, 0))), 1)];
            && !CachedWithinInput(records, Walked(records, |records|, run, cwd).rows)
            && AllUsage(records, FirstStep(records, 0), Input) == 0
            && Sum(BuiltOf(records, run, cwd).tokens) == Tokens(0, 5, 0, 0)
  {
    var records := [Parsed(Assistant, 0), Parsed(TokenCount(Some(Usage(0, 5, 0, 0))), 1)];
    var row := Row(0, StepId(run, 0), None, 0);
    OneStepWalk(records, run, cwd);
    UsageAfterStep(records);
    StoredOne(records, row);
    assert row in Walked(records, 2, run, cwd).rows;
    assert AllUsage(records, 1, Input) == 0 && FirstStep(records, 0) == 0;
  }

  lemma OneStepWalk(records: seq<Parsed>, run: RunId, cwd: string)
    requires |records| == 2 && records[0].record.Assistant? && !IsStep(records[1].record)
    ensures Walked(records, 2, run, cwd).rows == [Row(0, StepId(run, records[0].offset), None, 0)]
  {
    hide Turn;
    WalkedTurn(records, 1, run, cwd);
    WalkedTurn(records, 2, run, cwd);
    assert Walked(records, 0, run, cwd).rows == [];
  }

  lemma UsageAfterStep(records: seq<Parsed>)
    requires |records| == 2 && records[1].record.TokenCount? && records[1].record.usage.Some?
    ensures UsageAt(records, 0) == records[1].record.usage.value
  {
    forall c ensures UsageAt(records, 0).Get(c) == records[1].record.usage.value.Get(c) {
      assert UntilNextStep(records, 2, 2, c) == 0;
      assert UntilNextStep(records, 1, 2, c) == UsageIn(records[1].record, c);
    }
    SameCounters(UsageAt(records, 0), records[1].record.usage.value);
  }

  lemma StoredOne(records: seq<Parsed>, row: Row)
    requires row.at < |records|
    ensures Sum(TokensOfRows(records, [row])) == StoredTokens(records, row)
  {
    hide StoredTokens, TokensOfRows;
    assert TokensOfRows(records, [row]) == [StoredTokens(records, row)];
    SumOne(StoredTokens(records, row));
  }

  lemma SumOne(t: Tokens)
    ensures Sum([t]) == t
  {
    assert [t][..0] == [];
  }

  // ----- Growth -----

  predicate HasMeta(records: seq<Parsed>) {
    exists r | r in records :: r.record.SessionMeta?
  }

  /** The walk over a prefix does not depend on what follows. */
  lemma {:induction false} WalkedKeeps(p: seq<Parsed>, q: seq<Parsed>, n: nat, run: RunId, cwd: string)
    requires p <= q && n <= |p|
    ensures Walked(q, n, run, cwd) == Walked(p, n, run, cwd)
  {
    if n > 0 { WalkedKeeps(p, q, n - 1, run, cwd); }
  }

  lemma {:induction false} WithChangesGrows(w: Walk, step: StepId, changed: seq<PatchChange>, cwd: string)
    ensures w.changes <= WithChanges(w, step, changed, cwd).changes
  {
    if changed != [] { WithChangesGrows(w, step, changed[..|changed| - 1], cwd); }
  }

  lemma TurnGrows(w: Walk, r: Parsed, at: nat, run: RunId, cwd: string)
    ensures w.rows <= Turn(w, r, at, run, cwd).rows && w.changes <= Turn(w, r, at, run, cwd).changes
  {
    var p := r.record;
    if p.PatchApplyEnd? && p.changes.Some? && Target(w, p.patchCallId).Some? {
      WithChangesGrows(w, Target(w, p.patchCallId).value, p.changes.value, cwd);
    }
  }

  lemma {:induction false} WalkedGrows(q: seq<Parsed>, n: nat, m: nat, run: RunId, cwd: string)
    requires n <= m <= |q|
    ensures Walked(q, n, run, cwd).rows <= Walked(q, m, run, cwd).rows
    ensures Walked(q, n, run, cwd).changes <= Walked(q, m, run, cwd).changes
    decreases m
  {
    hide Turn;
    if n < m {
      WalkedGrows(q, n, m - 1, run, cwd);
      TurnGrows(Walked(q, m - 1, run, cwd), q[m - 1], m - 1, run, cwd);
    }
  }

  lemma {:induction false} MetaKeeps(p: seq<Parsed>, q: seq<Parsed>)
    requires p <= q && HasMeta(p)
    ensures InferMeta(q) == InferMeta(p)
  {
    if !p[0].record.SessionMeta? {
      assert HasMeta(p[1..]);
      MetaKeeps(p[1..], q[1..]);
    }
  }

  /** What an ingest of the file names: the walk under the run and cwd its records give. */
  function Ingested(records: seq<Parsed>, path: string): Walk {
    var meta := InferMeta(records);
    Walked(records, |records|, RunOf(meta, path), meta.cwd)
  }

  /** The steps (ids, parents, sequences) and changes (ids, steps, sequences, paths) of `p` begin those of `q`. */
  ghost predicate Continues(p: seq<Parsed>, q: seq<Parsed>, path: string) {
    Ingested(p, path).rows <= Ingested(q, path).rows && Ingested(p, path).changes <= Ingested(q, path).changes
  }

  lemma GrowthContinues(p: seq<Parsed>, q: seq<Parsed>, path: string)
    requires p <= q && HasMeta(p)
    ensures Continues(p, q, path)
  {
    MetaKeeps(p, q);
    var meta := InferMeta(p);
    WalkedKeeps(p, q, |p|, RunOf(meta, path), meta.cwd);
    WalkedGrows(q, |p|, |q|, RunOf(meta, path), meta.cwd);
  }

  lemma {:induction false} NoStepNoChange(records: seq<Parsed>, n: nat, run: RunId, cwd: string)
    requires n <= |records| && Walked(records, n, run, cwd).rows == []
    ensures Walked(records, n, run, cwd) == START
  {
    if n > 0 { NoStepNoChange(records, n - 1, run, cwd); }
  }

  lemma {:induction false} NoMeta(p: seq<Parsed>, r: Parsed)
    requires !HasMeta(p) && r.record.SessionMeta?
    ensures InferMeta(p) == Meta("", "") && InferMeta(p + [r]) == Meta(r.record.sessionId, r.record.cwd)
  {
    if p != [] {
      assert p[0] in p;
      assert !HasMeta(p[1..]);
      assert (p + [r])[1..] == p[1..] + [r];
      NoMeta(p[1..], r);
    }
  }

  lemma {:induction false} RowsOfRun(records: seq<Parsed>, n: nat, run: RunId, cwd: string)
    requires n <= |records|
    ensures forall row | row in Walked(records, n, run, cwd).rows :: row.id.run == run
  {
    if n > 0 {
      RowsOfRun(records, n - 1, run, cwd);
      WalkedTurn(records, n, run, cwd);
    }
  }

  /** A file read before its `session_meta` is named by its path; the meta record renames every step. */
  lemma LateMetaRenames(p: seq<Parsed>, r: Parsed, path: string)
    requires !HasMeta(p) && r.record.SessionMeta? && r.record.sessionId != "" && r.record.sessionId != path
    requires Ingested(p, path).rows != []
    ensures !Continues(p, p + [r], path)
  {
    NoMeta(p, r);
    RowsOfRun(p, |p|, RunId(path), "");
    RowsOfRun(p + [r], |p + [r]|, RunId(r.record.sessionId), r.record.cwd);
    var now := Ingested(p + [r], path).rows;
    assert Ingested(p, path).rows[0].id.run == RunId(path);
    assert now != [] ==> now[0].id.run != RunId(path);
  }

  /** Ids of a prefix survive every growth of the file exactly when its `session_meta` was read, or no step was. */
  lemma IdsSurviveGrowth(p: seq<Parsed>, path: string)
    requires Ascending(p)
    ensures (forall q | Ascending(q) && p <= q :: Continues(p, q, path)) <==>
            (HasMeta(p) || forall r | r in p :: !IsStep(r.record))
  {
    StepsAreRows(p, |p|, RunOf(InferMeta(p), path), InferMeta(p).cwd);
    assert p[..|p|] == p;
    if HasMeta(p) {
      forall q | Ascending(q) && p <= q ensures Continues(p, q, path) { GrowthContinues(p, q, path); }
    } else if Ingested(p, path).rows == [] {
      NoStepNoChange(p, |p|, RunOf(InferMeta(p), path), InferMeta(p).cwd);
    } else {
      var r := Parsed(SessionMeta(path + "+", ""), p[|p| - 1].offset + 1);
      LateMetaRenames(p, r, path);
      assert Ascending(p + [r]) && p <= p + [r];
    }
  }

  lemma {:induction false} StepsAreRows(records: seq<Parsed>, n: nat, run: RunId, cwd: string)
    requires n <= |records|
    ensures Walked(records, n, run, cwd).rows == [] <==> forall r | r in records[..n] :: !IsStep(r.record)
  {
    if n > 0 {
      StepsAreRows(records, n - 1, run, cwd);
      WalkedTurn(records, n, run, cwd);
      assert records[..n] == records[..n - 1] + [records[n - 1]];
    }
  }
}
