/** The references an agent engine publishes while it runs, and the adapters that publish them. */
module EngineRefs {
  import opened Text
  import opened Payloads

  datatype Execution = Execution(
    agentEngine: string, engineSessionRef: string, engineRunRef: string, legacyThreadID: string, legacyTurnID: string)

  const NOTHING := Execution("", "", "", "", "")

  function Later(earlier: string, later: string): string {
    if later != "" then later else earlier
  }

  function Merge(base: Execution, update: Execution): Execution {
    Execution(
      Later(base.agentEngine, update.agentEngine),
      Later(base.engineSessionRef, update.engineSessionRef),
      Later(base.engineRunRef, update.engineRunRef),
      Later(base.legacyThreadID, update.legacyThreadID),
      Later(base.legacyTurnID, update.legacyTurnID))
  }

  /** Merging is associative, has the empty value as identity on both sides, and forgets what is overwritten. */
  lemma MergeIsRightBiasedMonoid(a: Execution, b: Execution, c: Execution)
    ensures Merge(Merge(a, b), c) == Merge(a, Merge(b, c))
    ensures Merge(NOTHING, a) == a && Merge(a, NOTHING) == a
    ensures Merge(a, Merge(b, a)) == Merge(b, a)
  {
  }

  function MergeAll(base: Execution, updates: seq<Execution>): Execution {
    if updates == [] then base else Merge(MergeAll(base, updates[..|updates| - 1]), updates[|updates| - 1])
  }

  /** `b` repeats or replaces everything `a` says. */
  predicate Covers(b: Execution, a: Execution) {
    Merge(a, b) == b
  }

  /** Each published value covers the ones before it. */
  ghost predicate Cumulative(updates: seq<Execution>) {
    forall i, j :: 0 <= i < j < |updates| ==> Covers(updates[j], updates[i])
  }

  lemma CoversItself(a: Execution)
    ensures Covers(a, a)
  {
  }

  lemma CoversTransitive(a: Execution, b: Execution, c: Execution)
    requires Covers(b, a) && Covers(c, b)
    ensures Covers(c, a)
  {
  }

  /** A covering value makes every update merged before it irrelevant. */
  lemma {:induction false} CoveringValueDecides(base: Execution, updates: seq<Execution>, final: Execution)
    requires forall i :: 0 <= i < |updates| ==> Covers(final, updates[i])
    ensures Merge(MergeAll(base, updates), final) == Merge(base, final)
  {
    if updates != [] {
      var before, last := updates[..|updates| - 1], updates[|updates| - 1];
      CoveringValueDecides(base, before, final);
      MergeIsRightBiasedMonoid(MergeAll(base, before), last, final);
    }
  }

  /** The values an adapter published in one run, the last of which its result covers. */
  ghost predicate PublishedCumulatively(before: seq<Execution>, after: seq<Execution>, result: Execution) {
    before <= after && Cumulative(after[|before|..] + [result])
  }

  lemma ExtendCumulative(updates: seq<Execution>, previous: Execution, next: Execution)
    requires Cumulative(updates + [previous]) && Covers(next, previous)
    ensures Cumulative(updates + [next])
    ensures Cumulative(updates + [next] + [next])
  {
    var once := updates + [next];
    forall i, j | 0 <= i < j < |once| ensures Covers(once[j], once[i]) {
      if j == |updates| {
        assert Covers((updates + [previous])[j], (updates + [previous])[i]);
        CoversTransitive(updates[i], previous, next);
      } else {
        assert Covers((updates + [previous])[j], (updates + [previous])[i]);
      }
    }
    var twice := once + [next];
    forall i, j | 0 <= i < j < |twice| ensures Covers(twice[j], twice[i]) {
      if j == |once| && i < |updates| {
        assert Covers(once[|updates|], once[i]);
      } else if j < |once| {
        assert Covers(once[j], once[i]);
      }
    }
  }

  /** The references of one running session, shared between the adapter and the supervisor. */
  class Refs {
    var current: Execution
    ghost const initial: Execution
    ghost var published: seq<Execution>

    constructor (initial: Execution)
      ensures current == initial == this.initial && published == []
    {
      current, this.initial, published := initial, initial, [];
    }

    ghost predicate Valid()
      reads this
    {
      current == MergeAll(initial, published)
    }

    method Update(update: Execution)
      requires Valid()
      modifies this
      ensures Valid() && published == old(published) + [update] && current == Merge(old(current), update)
    {
      current := Merge(current, update);
      published := published + [update];
      assert published[..|published| - 1] == old(published);
    }

    /** Publishing a value that covers the adapter's previous one keeps its run cumulative. */
    method UpdateInRun(update: Execution, ghost before: seq<Execution>, ghost previous: Execution)
      requires Valid() && PublishedCumulatively(before, published, previous) && Covers(update, previous)
      modifies this
      ensures Valid() && PublishedCumulatively(before, published, update) && published == old(published) + [update]
    {
      Update(update);
      ExtendCumulative(old(published)[|before|..], previous, update);
      assert published[|before|..] == old(published)[|before|..] + [update];
    }
  }

  lemma RunStarts(published: seq<Execution>, execution: Execution)
    ensures PublishedCumulatively(published, published, execution)
  {
    assert published[|published|..] + [execution] == [execution];
  }

  /** A reference is kept only when it is short and cannot be read as a path. */
  function OpaqueEngineRef(value: string): string {
    var trimmed := TrimSpace(value);
    if trimmed == "" || |trimmed| > 512 || '\0' in trimmed || '/' in trimmed || '\\' in trimmed then "" else trimmed
  }

  // ---- Claude Code ----

  datatype ClaudeRead =
    | ClaudeEvent(kind: string, subtype: string, sessionID: string, uuid: string, isError: bool)
    | ClaudeUnreadable

  datatype Ending = Succeeded | EngineError(reason: string) | Cancelled

  predicate ClaudeTerminal(read: ClaudeRead) {
    read.ClaudeUnreadable? || read.kind == "result"
  }

  function ClaudeEnding(read: ClaudeRead): Ending
    requires ClaudeTerminal(read)
  {
    if read.ClaudeUnreadable? then EngineError("unreadable output")
    else if read.isError || Contains(Lower(read.subtype), "error") then EngineError("error result")
    else Succeeded
  }

  function AfterClaudeEvent(execution: Execution, read: ClaudeRead): Execution {
    if read.ClaudeUnreadable? then execution
    else execution.(
      engineSessionRef := Later(execution.engineSessionRef, OpaqueEngineRef(read.sessionID)),
      engineRunRef := Later(execution.engineRunRef, OpaqueEngineRef(read.uuid)))
  }

  lemma ClaudeEventCovers(execution: Execution, read: ClaudeRead)
    ensures Covers(AfterClaudeEvent(execution, read), execution)
    ensures read.ClaudeUnreadable? ==> AfterClaudeEvent(execution, read) == execution && ClaudeTerminal(read)
  {
  }

  function AfterClaudeEvents(start: Execution, events: seq<ClaudeRead>): Execution {
    if events == [] then start
    else AfterClaudeEvent(AfterClaudeEvents(start, events[..|events| - 1]), events[|events| - 1])
  }

  lemma NoClaudeEvents(start: Execution, events: seq<ClaudeRead>)
    ensures AfterClaudeEvents(start, events[..0]) == start
  {
  }

  lemma OneMoreClaudeEvent(start: Execution, events: seq<ClaudeRead>, i: nat)
    requires i < |events|
    ensures AfterClaudeEvents(start, events[..i + 1])
            == AfterClaudeEvent(AfterClaudeEvents(start, events[..i]), events[i])
  {
    assert events[..i + 1][..i] == events[..i];
  }

  /**
    Where the loop ends: at the first terminal event, at a cancellation noticed before it, or at the end of the stream.
   */
  ghost predicate ClaudeEnded(events: seq<ClaudeRead>, cancelAt: Option<nat>, handled: nat, ending: Ending)
    requires handled <= |events|
  {
    && (forall i :: 0 <= i < handled - 1 ==> !ClaudeTerminal(events[i]))
    && if handled > 0 && ClaudeTerminal(events[handled - 1]) then ending == ClaudeEnding(events[handled - 1])
       else if cancelAt == Some(handled) then ending == Cancelled
       else handled == |events| && ending == EngineError("no terminal result")
  }

  /** The event loop of the Claude Code adapter. */
  method ClaudeExecute(refs: Refs, events: seq<ClaudeRead>, cancelAt: Option<nat>)
    returns (execution: Execution, ending: Ending, handled: nat)
    requires refs.Valid()
    modifies refs
    ensures refs.Valid() && PublishedCumulatively(old(refs.published), refs.published, execution)
    ensures handled <= |events|
    ensures execution == AfterClaudeEvents(NOTHING.(agentEngine := CLAUDE_CODE), events[..handled])
    ensures ClaudeEnded(events, cancelAt, handled, ending)
  {
    hide PublishedCumulatively, AfterClaudeEvents, AfterClaudeEvent, ClaudeEnding, ClaudeTerminal;
    hide MergeAll, Merge, Covers;
    ghost var start := NOTHING.(agentEngine := CLAUDE_CODE);
    NoClaudeEvents(start, events);
    execution := NOTHING.(agentEngine := CLAUDE_CODE);
    handled := 0;
    var outcome: Option<Ending> := None;
    RunStarts(refs.published, execution);
    while outcome == None
      invariant refs.Valid() && PublishedCumulatively(old(refs.published), refs.published, execution)
      invariant handled <= |events| && execution == AfterClaudeEvents(start, events[..handled])
      invariant outcome == None ==> forall k :: 0 <= k < handled ==> !ClaudeTerminal(events[k])
      invariant outcome.Some? ==> ClaudeEnded(events, cancelAt, handled, outcome.value)
      decreases |events| - handled, outcome == None
    {
      if cancelAt == Some(handled) {
        outcome := Some(Cancelled);
      } else if handled == |events| {
        outcome := Some(EngineError("no terminal result"));
      } else {
        var read := events[handled];
        OneMoreClaudeEvent(start, events, handled);
        ClaudeEventCovers(execution, read);
        if !read.ClaudeUnreadable? {
          refs.UpdateInRun(AfterClaudeEvent(execution, read), old(refs.published), execution);
        }
        execution := AfterClaudeEvent(execution, read);
        handled := handled + 1;
        if ClaudeTerminal(read) {
          outcome := Some(ClaudeEnding(read));
        }
      }
    }
    ending := outcome.value;
  }

  // ---- Pi ----

  datatype PiRead =
    | PiEvent(kind: string, command: string, success: Option<bool>, sessionID: string, dataSessionID: string)
    | PiUnreadable

  predicate PiResponse(read: PiRead, command: string) {
    read.PiEvent? && read.kind == "response" && read.command == command
  }

  function PiSessionRef(read: PiRead): string
    requires read.PiEvent?
  {
    Later(OpaqueEngineRef(read.dataSessionID), OpaqueEngineRef(read.sessionID))
  }

  predicate PiTerminal(read: PiRead) {
    || read.PiUnreadable?
    || ((PiResponse(read, "get_state") || PiResponse(read, "prompt")) && read.success == Some(false))
    || read.kind == "agent_end" || read.kind == "error"
  }

  function PiEnding(read: PiRead): Ending
    requires PiTerminal(read)
  {
    if read.PiUnreadable? then EngineError("unreadable output")
    else if PiResponse(read, "get_state") || PiResponse(read, "prompt") then EngineError("request failed")
    else if read.kind == "agent_end" then Succeeded
    else EngineError("error event")
  }

  predicate PublishesPi(read: PiRead) {
    PiResponse(read, "get_state") && read.success != Some(false) && PiSessionRef(read) != ""
  }

  function AfterPiEvent(execution: Execution, read: PiRead): Execution {
    if PublishesPi(read) then execution.(engineSessionRef := PiSessionRef(read)) else execution
  }

  lemma PiEventCovers(execution: Execution, read: PiRead)
    ensures Covers(AfterPiEvent(execution, read), execution)
    ensures !PublishesPi(read) ==> AfterPiEvent(execution, read) == execution
  {
    hide OpaqueEngineRef;
  }

  function AfterPiEvents(start: Execution, events: seq<PiRead>): Execution {
    if events == [] then start else AfterPiEvent(AfterPiEvents(start, events[..|events| - 1]), events[|events| - 1])
  }

  lemma NoPiEvents(start: Execution, events: seq<PiRead>)
    ensures AfterPiEvents(start, events[..0]) == start
  {
  }

  lemma OneMorePiEvent(start: Execution, events: seq<PiRead>, i: nat)
    requires i < |events|
    ensures AfterPiEvents(start, events[..i + 1]) == AfterPiEvent(AfterPiEvents(start, events[..i]), events[i])
  {
    assert events[..i + 1][..i] == events[..i];
  }

  ghost predicate PiEnded(events: seq<PiRead>, cancelAt: Option<nat>, handled: nat, ending: Ending)
    requires handled <= |events|
  {
    && (forall i :: 0 <= i < handled - 1 ==> !PiTerminal(events[i]))
    && if handled > 0 && PiTerminal(events[handled - 1]) then ending == PiEnding(events[handled - 1])
       else if cancelAt == Some(handled) then ending == Cancelled
       else handled == |events| && ending == EngineError("no agent_end")
  }

  /** The event loop of the Pi adapter; its run reference is known and published before the process starts. */
  method PiExecute(refs: Refs, runRef: string, events: seq<PiRead>, cancelAt: Option<nat>)
    returns (execution: Execution, ending: Ending, handled: nat)
    requires refs.Valid()
    modifies refs
    ensures refs.Valid() && PublishedCumulatively(old(refs.published), refs.published, execution)
    ensures var start := NOTHING.(agentEngine := PI, engineRunRef := OpaqueEngineRef(runRef));
            handled <= |events| && execution == AfterPiEvents(start, events[..handled])
    ensures PiEnded(events, cancelAt, handled, ending)
  {
    hide PublishedCumulatively, AfterPiEvents, AfterPiEvent, PiEnding, PiTerminal, PublishesPi;
    hide MergeAll, Merge, Covers, OpaqueEngineRef;
    execution := NOTHING.(agentEngine := PI, engineRunRef := OpaqueEngineRef(runRef));
    ghost var start := execution;
    RunStarts(refs.published, execution);
    NoPiEvents(start, events);
    CoversItself(execution);
    refs.UpdateInRun(execution, refs.published, execution);
    handled := 0;
    var outcome: Option<Ending> := None;
    while outcome == None
      invariant refs.Valid() && PublishedCumulatively(old(refs.published), refs.published, execution)
      invariant handled <= |events| && execution == AfterPiEvents(start, events[..handled])
      invariant outcome == None ==> forall k :: 0 <= k < handled ==> !PiTerminal(events[k])
      invariant outcome.Some? ==> PiEnded(events, cancelAt, handled, outcome.value)
      decreases |events| - handled, outcome == None
    {
      if cancelAt == Some(handled) {
        outcome := Some(Cancelled);
      } else if handled == |events| {
        outcome := Some(EngineError("no agent_end"));
      } else {
        var read := events[handled];
        OneMorePiEvent(start, events, handled);
        PiEventCovers(execution, read);
        if PublishesPi(read) {
          refs.UpdateInRun(AfterPiEvent(execution, read), old(refs.published), execution);
        }
        execution := AfterPiEvent(execution, read);
        handled := handled + 1;
        if PiTerminal(read) {
          outcome := Some(PiEnding(read));
        }
      }
    }
    ending := outcome.value;
  }

  // ---- Codex ----

  /** The Codex adapter publishes after the thread and again after the turn; either answer may be an error or empty. */
  method CodexExecute(refs: Refs, threadID: Option<string>, turnID: Option<string>, turn: Ending)
    returns (execution: Execution, ending: Ending)
    requires refs.Valid()
    modifies refs
    ensures refs.Valid() && PublishedCumulatively(old(refs.published), refs.published, execution)
    ensures var thread := threadID.Some? && TrimSpace(threadID.value) != "";
            var started := thread && turnID.Some? && TrimSpace(turnID.value) != "";
            && |refs.published| == |old(refs.published)| + (if thread then 1 else 0) + (if started then 1 else 0)
            && execution == Execution(CODEX,
                                      if thread then OpaqueEngineRef(threadID.value) else "",
                                      if started then OpaqueEngineRef(turnID.value) else "",
                                      if thread then threadID.value else "",
                                      if started then turnID.value else "")
            && (started ==> ending == turn) && (!started ==> ending.EngineError?)
  {
    hide Text.TrimSpace, OpaqueEngineRef, PublishedCumulatively;
    ghost var before := refs.published;
    execution := NOTHING.(agentEngine := CODEX);
    RunStarts(refs.published, execution);
    if threadID.None? || TrimSpace(threadID.value) == "" {
      return execution, EngineError("thread");
    }
    ghost var previous := execution;
    execution := execution.(engineSessionRef := OpaqueEngineRef(threadID.value), legacyThreadID := threadID.value);
    refs.UpdateInRun(execution, before, previous);
    if turnID.None? || TrimSpace(turnID.value) == "" {
      return execution, EngineError("turn");
    }
    previous := execution;
    execution := execution.(engineRunRef := OpaqueEngineRef(turnID.value), legacyTurnID := turnID.value);
    refs.UpdateInRun(execution, before, previous);
    return execution, turn;
  }
}
