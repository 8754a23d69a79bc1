/** Which calls the proxy takes for turns of one conversation, read off the calls alone. */
module GroupedTurns {
  import opened RunGrouper

  /** What tells unnamed conversations apart: provider, model, system prompt and first user message. */
  function Opening(c: Call): string {
    c.provider + "\n" + c.model + "\n" + c.system + "\n" + c.firstUser
  }

  lemma OpeningIsSeed(c: Call)
    ensures Opening(c) == SeedOf(c)
  {
  }

  /** A call leaves its entry under its key, unless eviction took it at once. */
  lemma LeavesEntry(s: State, c: Call, sha: Hash, t: State, out: Outcome)
    requires Resolves(s, c, sha, t, out) && KeyFor(s, c, sha) in t.entries
    ensures t.entries[KeyFor(s, c, sha)] == out.entry
    ensures out.entry.messages == c.messages && out.entry.lastSeen == c.now && out.entry.runId == out.runId
    ensures out.entry.stepCount == out.sequence + 1
  {
  }

  /** Of two unnamed calls, one after the other, the second is the next turn of the first exactly when
      it opens the same conversation, comes within half an hour, and has no shorter history. */
  lemma NextTurnIff(s: State, c: Call, t: State, out: Outcome, d: Call, u: State, next: Outcome, sha: Hash)
    requires Bounded(s) && Digest(sha) && c.explicitId == "" && d.explicitId == ""
    requires Resolves(s, c, sha, t, out) && Resolves(t, d, sha, u, next) && sha(SeedOf(c)) in t.entries
    ensures next.entry.handle == out.entry.handle <==>
              Opening(d) == Opening(c) && d.now - c.now < 30 * 60 * 1000 && d.messages >= c.messages
    ensures next.entry.handle == out.entry.handle ==>
              !next.isNew && next.runId == out.runId && next.sequence == out.sequence + 1
  {
    hide EvictsTo, SeedText;
    OpeningIsSeed(c);
    OpeningIsSeed(d);
    LeavesEntry(s, c, sha, t, out);
    BoundedStep(s, c, sha, t, out);
    assert sha(SeedOf(c)) == sha(SeedOf(d)) ==> SeedOf(c) == SeedOf(d);
  }

  /** Calls that name a run share it, however long ago and however short, when they are of one provider
      and the first of them found the name free or its own. */
  lemma NamedTurnsShareRun(s: State, c: Call, t: State, out: Outcome, d: Call, u: State, next: Outcome, sha: Hash)
    requires Resolves(s, c, sha, t, out) && Resolves(t, d, sha, u, next)
    requires c.explicitId != "" && d.explicitId == c.explicitId && d.provider == c.provider
    requires c.explicitId in s.entries ==> s.entries[c.explicitId].provider == c.provider
    requires c.explicitId in t.entries
    ensures !next.isNew && next.runId == out.runId && next.sequence == out.sequence + 1
    ensures c.explicitId !in s.entries ==> out.runId == c.explicitId && next.runId == c.explicitId
  {
    LeavesEntry(s, c, sha, t, out);
    assert t.entries[c.explicitId].provider == c.provider;
  }

  /** A name another provider uses is kept apart under the caller's own. */
  lemma TakenNameIsScoped(s: State, c: Call, t: State, out: Outcome, sha: Hash)
    requires Resolves(s, c, sha, t, out) && c.explicitId in s.entries && c.explicitId != ""
    requires s.entries[c.explicitId].provider != c.provider && (c.provider + "\n" + c.explicitId) !in s.entries
    ensures out.isNew && out.runId == "run_" + c.uuid && out.entry.provider == c.provider
    ensures c.explicitId in t.entries ==> t.entries[c.explicitId] == s.entries[c.explicitId]
  {
    assert (c.provider + "\n" + c.explicitId) != c.explicitId by {
      assert |c.provider + "\n" + c.explicitId| > |c.explicitId|;
    }
  }

  /** Of two splits of one text at a line break, the later one has more breaks before it. */
  lemma LaterSplitHasMore(p: string, x: string, q: string, y: string)
    requires Scoped(p, x) == Scoped(q, y)
    ensures |p| < |q| ==> multiset(p)['\n'] < multiset(q)['\n']
    ensures |p| == |q| ==> p == q && x == y
  {
    var t := Scoped(p, x);
    assert p == t[..|p|] && q == t[..|q|] && x == t[|p| + 1..] && y == t[|q| + 1..];
    if |p| < |q| {
      assert q == p + "\n" + t[|p| + 1..|q|];
    }
  }

  /** With providers and models of one line and system prompts of equally many, two openings are equal
      exactly when provider, model, system prompt and first user message all are. */
  lemma OpeningTells(c: Call, d: Call)
    requires OneLine(c.provider) && OneLine(c.model) && OneLine(d.provider) && OneLine(d.model)
    requires multiset(c.system)['\n'] == multiset(d.system)['\n']
    ensures Opening(c) == Opening(d) <==>
              c.provider == d.provider && c.model == d.model && c.system == d.system && c.firstUser == d.firstUser
  {
    if Opening(c) == Opening(d) {
      var cTail, dTail := Scoped(c.system, c.firstUser), Scoped(d.system, d.firstUser);
      assert Opening(c) == Scoped(c.provider, Scoped(c.model, cTail));
      assert Opening(d) == Scoped(d.provider, Scoped(d.model, dTail));
      ScopeSplits(c.provider, Scoped(c.model, cTail), d.provider, Scoped(d.model, dTail));
      ScopeSplits(c.model, cTail, d.model, dTail);
      LaterSplitHasMore(c.system, c.firstUser, d.system, d.firstUser);
      LaterSplitHasMore(d.system, d.firstUser, c.system, c.firstUser);
    }
  }

  /** A line break moved from the system prompt to the first message goes unnoticed: the two
      conversations are taken for one. */
  lemma MovedBreakIsUnnoticed(c: Call, d: Call)
    requires c.provider == d.provider && c.model == d.model
    requires c.system == "a" && c.firstUser == "b\nc" && d.system == "a\nb" && d.firstUser == "c"
    ensures Opening(c) == Opening(d)
  {
    var before := c.provider + "\n" + c.model + "\n";
    assert Opening(c) == before + "a\nb\nc" && Opening(d) == before + "a\nb\nc";
  }
}
