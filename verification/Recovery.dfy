/** From a placeholder in the conversation back to the result: read the file it names, page by page. */
module Recovery {
  import opened ByteText
  import opened Pieces
  import opened Conversation
  import opened ToolResultLedger
  import opened AgentLoop
  import opened LoopSafety
  import opened ReadFile

  /** The file of the j-th entry holds its result, and reading it page by page gives the result back
      (less one final newline when it takes several requests). */
  ghost predicate ReadsBack(run: Run, dir: string, j: nat, limits: nat -> nat, cap: nat)
    requires j < |run.inserted|
  {
    var path, content := SpillPath(dir, j), run.inserted[j];
    && FileHas(run.files, path, content)
    && Join(Texts(Follow(run.files[path], 1, limits, cap)), NL)
       == if Whole(content, 1, limits(1), cap) then content else Body(content)
  }

  ghost predicate ShortLines(content: bytes, cap: nat) {
    forall i | 0 <= i < |Lines(content)| :: |Lines(content)[i]| < cap
  }

  /** An elided result whose placeholder is not the bare one comes back from the file the placeholder
      names, with distinct call IDs, whatever writes failed and whatever limits the reader gives, if
      its lines are shorter than the read cap. */
  lemma PlaceholderReadsBack(env: Env, h: History, files: map<string, bytes>, requests: seq<Request>, turns: seq<Turn>,
                             n: nat, j: nat, run: Run, limits: nat -> nat, cap: nat)
    requires env.policy.keepRecent >= 0 && run == Rounds(env, Start(h, files, requests, turns), n)
    requires DistinctIds(run.entries) && j < |run.entries| && j < |run.inserted| && run.entries[j].elided
    requires j < |Own(run.history, |Results(h)|)| && Own(run.history, |Results(h)|)[j].Result?
    requires Own(run.history, |Results(h)|)[j].content != BareStub(run.entries[j].tool, |run.inserted[j]|)
    requires ShortLines(run.inserted[j], cap)
    ensures env.spill.Dir? && ReadsBack(run, env.spill.dir, j, limits, cap)
    ensures Own(run.history, |Results(h)|)[j].content
      == SpilledStub(run.entries[j].tool, |run.inserted[j]|, SpillPath(env.spill.dir, j))
  {
    ElisionIsRecoverable(env, h, files, requests, turns, n, j);
    PagesOfShortLines(run.inserted[j], limits, cap);
  }
}
