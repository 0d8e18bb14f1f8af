/** Waiting for the answer of one Codex turn: a loop over the notification stream of the whole connection. */
module TurnReader {
  import opened Text
  import opened Payloads

  datatype Item = Item(kind: string, id: string, text: string, aggregatedOutput: Option<string>)

  /** A notification with decoded parameters; `Other` is every other method and every undecodable one. */
  datatype Notification =
    | Delta(threadID: string, turnID: string, itemID: string, delta: string)
    | ItemCompleted(threadID: string, turnID: string, item: Item)
    | ErrorReported(threadID: string, turnID: string, message: string, willRetry: bool)
    | TurnCompleted(threadID: string, turnID: string, status: string, error: string)
    | Other

  datatype Outcome = Message(text: string) | Cancelled | Failure(reason: string)

  /** The output logged for a finished command. */
  datatype Logged = Logged(itemID: string, output: string)

  /** The turn the reader waits for; an empty id accepts any. */
  datatype Turn = Turn(threadID: string, turnID: string)

  predicate SameTurn(turn: Turn, threadID: string, turnID: string) {
    (turn.threadID == "" || threadID == turn.threadID) && (turn.turnID == "" || turnID == turn.turnID)
  }

  predicate Relevant(turn: Turn, n: Notification) {
    !n.Other? && SameTurn(turn, n.threadID, n.turnID)
  }

  predicate Terminal(turn: Turn, n: Notification) {
    Relevant(turn, n) && (n.TurnCompleted? || (n.ErrorReported? && !n.willRetry))
  }

  /** The trimmed text of a completed agent message; empty for everything else. */
  function AgentText(n: Notification): string {
    if n.ItemCompleted? && n.item.kind == "agentMessage" then TrimSpace(n.item.text) else ""
  }

  predicate AgentMessage(turn: Turn, n: Notification) {
    Relevant(turn, n) && AgentText(n) != ""
  }

  predicate Completes(n: Notification) {
    n.TurnCompleted? && n.status == "completed"
  }

  const NO_MESSAGE := Failure("codex turn completed without an agent message")

  /** How a terminal notification ends the wait, given the last agent message before it. */
  function Verdict(n: Notification, last: string): Outcome
    requires n.TurnCompleted? || n.ErrorReported?
  {
    if n.ErrorReported? then
      Failure(if n.message == "" then "Codex app-server reported an unknown error." else n.message)
    else if n.status == "completed" then
      if last == "" then NO_MESSAGE else Message(last)
    else if n.status == "interrupted" then Cancelled
    else if n.status == "failed" then Failure(if n.error != "" then n.error else "codex turn failed")
    else Failure("codex turn ended with status " + n.status)
  }

  datatype Progress = Waiting(last: string) | Ended(outcome: Outcome)

  /** What a prefix of the stream has settled. */
  function Fold(turn: Turn, s: seq<Notification>): Progress {
    if s == [] then Waiting("")
    else
      var before, n := Fold(turn, s[..|s| - 1]), s[|s| - 1];
      if before.Ended? then before
      else if Terminal(turn, n) then Ended(Verdict(n, before.last))
      else if AgentMessage(turn, n) then Waiting(AgentText(n))
      else before
  }

  // ---- What the fold means ----

  /** Position k holds the last agent message of the turn in the stream. */
  ghost predicate LastAgentMessage(turn: Turn, s: seq<Notification>, k: nat) {
    && k < |s| && AgentMessage(turn, s[k])
    && forall j :: k < j < |s| ==> !AgentMessage(turn, s[j])
  }

  /** The first terminal notification of the turn completes it, and m is the last agent message before that. */
  ghost predicate IsAnswer(turn: Turn, s: seq<Notification>, m: string) {
    exists t, k :: IsAnswerAt(turn, s, m, t, k)
  }

  ghost predicate IsAnswerAt(turn: Turn, s: seq<Notification>, m: string, t: int, k: nat) {
    && 0 <= t < |s| && Terminal(turn, s[t]) && Completes(s[t])
    && (forall j :: 0 <= j < t ==> !Terminal(turn, s[j]))
    && LastAgentMessage(turn, s[..t], k) && m == AgentText(s[k])
  }

  lemma {:induction false} FoldWaits(turn: Turn, s: seq<Notification>)
    ensures Fold(turn, s).Waiting? <==> forall j :: 0 <= j < |s| ==> !Terminal(turn, s[j])
    ensures Fold(turn, s).Waiting? ==>
              && (Fold(turn, s).last == "" <==> forall j :: 0 <= j < |s| ==> !AgentMessage(turn, s[j]))
              && (Fold(turn, s).last != "" ==>
                    exists k: nat :: LastAgentMessage(turn, s, k) && Fold(turn, s).last == AgentText(s[k]))
  {
    hide AgentText, Verdict;
    if s != [] {
      var n := |s| - 1;
      var before := s[..n];
      FoldWaits(turn, before);
      if Fold(turn, s).Waiting? {
        if AgentMessage(turn, s[n]) {
          assert LastAgentMessage(turn, s, n);
        } else if Fold(turn, before).last != "" {
          var k: nat :| LastAgentMessage(turn, before, k) && Fold(turn, before).last == AgentText(before[k]);
          assert LastAgentMessage(turn, s, k);
        }
      }
    }
  }

  lemma VerdictIsMessage(n: Notification, last: string, m: string)
    requires n.TurnCompleted? || n.ErrorReported?
    ensures Verdict(n, last) == Message(m) <==> Completes(n) && last == m && m != ""
  {
  }

  /** Only the verdict of a completed turn looks at the last agent message. */
  lemma VerdictLooksAtMessage(n: Notification, last: string)
    requires n.TurnCompleted? || n.ErrorReported?
    ensures Verdict(n, last) ==
            if !Completes(n) then Verdict(n, "") else if last == "" then NO_MESSAGE else Message(last)
  {
  }

  lemma LastAgentMessageIsUnique(turn: Turn, s: seq<Notification>, i: nat, j: nat)
    requires LastAgentMessage(turn, s, i) && LastAgentMessage(turn, s, j)
    ensures i == j
  {
  }

  lemma {:induction false} FoldGivesAnswer(turn: Turn, s: seq<Notification>, m: string)
    requires Fold(turn, s) == Ended(Message(m))
    ensures IsAnswer(turn, s, m)
  {
    hide AgentText, Verdict, Completes, Relevant;
    var n := |s| - 1;
    var before := s[..n];
    if Fold(turn, before).Ended? {
      FoldGivesAnswer(turn, before, m);
      var t, k :| IsAnswerAt(turn, before, m, t, k);
      assert before[..t] == s[..t];
      assert IsAnswerAt(turn, s, m, t, k);
    } else {
      FoldWaits(turn, before);
      VerdictIsMessage(s[n], Fold(turn, before).last, m);
      var k: nat :| LastAgentMessage(turn, before, k) && Fold(turn, before).last == AgentText(before[k]);
      assert IsAnswerAt(turn, s, m, n, k);
    }
  }

  lemma {:induction false} AnswerGivesFold(turn: Turn, s: seq<Notification>, m: string, t: int, k: nat)
    requires IsAnswerAt(turn, s, m, t, k)
    ensures Fold(turn, s) == Ended(Message(m))
  {
    hide AgentText, Verdict, Completes, Relevant;
    var n := |s| - 1;
    var before := s[..n];
    if t < n {
      assert before[..t] == s[..t];
      AnswerGivesFold(turn, before, m, t, k);
    } else {
      FoldWaits(turn, before);
      VerdictIsMessage(s[n], m, m);
      assert Fold(turn, before).last != "";
      var k': nat :| LastAgentMessage(turn, before, k') && Fold(turn, before).last == AgentText(before[k']);
      LastAgentMessageIsUnique(turn, before, k, k');
    }
  }

  /** The wait returns m exactly when the stream says so. */
  lemma FoldAnswersExactly(turn: Turn, s: seq<Notification>, m: string)
    ensures Fold(turn, s) == Ended(Message(m)) <==> IsAnswer(turn, s, m)
  {
    if Fold(turn, s) == Ended(Message(m)) {
      FoldGivesAnswer(turn, s, m);
    }
    if IsAnswer(turn, s, m) {
      var t, k :| IsAnswerAt(turn, s, m, t, k);
      AnswerGivesFold(turn, s, m, t, k);
    }
  }

  function OfTurn(turn: Turn, s: seq<Notification>): seq<Notification> {
    if s == [] then []
    else OfTurn(turn, s[..|s| - 1]) + if Relevant(turn, s[|s| - 1]) then [s[|s| - 1]] else []
  }

  /** Deleting the notifications of other turns changes neither the outcome nor the log. */
  lemma {:induction false} OtherTurnsDoNotMatter(turn: Turn, s: seq<Notification>)
    ensures Fold(turn, OfTurn(turn, s)) == Fold(turn, s)
    ensures forall id :: BufferOf(turn, OfTurn(turn, s), id) == BufferOf(turn, s, id)
    ensures CommandLog(turn, OfTurn(turn, s)) == CommandLog(turn, s)
  {
    hide AgentText, Verdict;
    if s != [] {
      var before, last := s[..|s| - 1], s[|s| - 1];
      OtherTurnsDoNotMatter(turn, before);
      if Relevant(turn, last) {
        assert OfTurn(turn, s)[..|OfTurn(turn, s)| - 1] == OfTurn(turn, before);
      } else {
        assert OfTurn(turn, s) == OfTurn(turn, before);
      }
    }
  }

  // ---- Command output ----

  predicate DeltaFor(turn: Turn, n: Notification, id: string) {
    Relevant(turn, n) && n.Delta? && n.itemID == id
  }

  predicate CompletionOf(turn: Turn, n: Notification, id: string) {
    Relevant(turn, n) && n.ItemCompleted? && n.item.id == id
  }

  /** The buffered output of an item after a prefix of the stream. */
  function BufferOf(turn: Turn, s: seq<Notification>, id: string): string {
    if s == [] then ""
    else
      var before, n := BufferOf(turn, s[..|s| - 1], id), s[|s| - 1];
      if DeltaFor(turn, n, id) then before + n.delta
      else if CompletionOf(turn, n, id) then ""
      else before
  }

  /** Position after the last completion of the item, or the start. */
  function SinceCompletion(turn: Turn, s: seq<Notification>, id: string): (k: nat)
    ensures k <= |s|
    ensures forall j :: k <= j < |s| ==> !CompletionOf(turn, s[j], id)
    ensures k > 0 ==> CompletionOf(turn, s[k - 1], id)
  {
    if s == [] then 0
    else if CompletionOf(turn, s[|s| - 1], id) then |s|
    else SinceCompletion(turn, s[..|s| - 1], id)
  }

  function Deltas(turn: Turn, s: seq<Notification>, id: string): string {
    if s == [] then ""
    else Deltas(turn, s[..|s| - 1], id) + if DeltaFor(turn, s[|s| - 1], id) then s[|s| - 1].delta else ""
  }

  /** A buffer is the concatenation of the item's deltas since its last completion. */
  lemma {:induction false} BufferIsDeltasSinceCompletion(turn: Turn, s: seq<Notification>, id: string)
    ensures BufferOf(turn, s, id) == Deltas(turn, s[SinceCompletion(turn, s, id)..], id)
  {
    if s != [] {
      var before := s[..|s| - 1];
      BufferIsDeltasSinceCompletion(turn, before, id);
      var k := SinceCompletion(turn, s, id);
      if k < |s| {
        assert s[k..][..|s| - k - 1] == before[k..];
      }
    }
  }

  /** The outputs logged for the finished commands of a prefix, in order. */
  function CommandLog(turn: Turn, s: seq<Notification>): seq<Logged> {
    if s == [] then []
    else
      var before, n := s[..|s| - 1], s[|s| - 1];
      if !Relevant(turn, n) || !n.ItemCompleted? then CommandLog(turn, before)
      else CommandLog(turn, before) + LoggedFor(n.item, BufferOf(turn, before, n.item.id))
  }

  function LoggedFor(item: Item, buffered: string): seq<Logged> {
    if item.kind != "commandExecution" then []
    else [Logged(item.id, if item.aggregatedOutput.Some? then item.aggregatedOutput.value else buffered)]
  }

  // ---- The loop ----

  class Waiter {
    const turn: Turn
    var outputBuffers: map<string, string>
    var log: seq<Logged>

    constructor (turn: Turn)
      ensures this.turn == turn && outputBuffers == map[] && log == []
    {
      this.turn := turn;
      outputBuffers, log := map[], [];
    }

    function Buffered(id: string): string
      reads this
    {
      if id in outputBuffers then outputBuffers[id] else ""
    }

    /** The buffers and the log agree with the notifications handled so far. */
    ghost predicate Follows(s: seq<Notification>)
      reads this
    {
      (forall id :: Buffered(id) == BufferOf(turn, s, id)) && log == CommandLog(turn, s)
    }

    lemma FollowsFromStart()
      requires outputBuffers == map[] && log == []
      ensures Follows([])
    {
    }

    /** `err` is meaningful when the notification ended the wait; `None` is then a completed turn. */
    method HandleCodexNotification(n: Notification, ghost s: seq<Notification>)
      returns (done: bool, err: Option<Outcome>)
      requires Follows(s)
      modifies this
      ensures Follows(s + [n])
      ensures done <==> Terminal(turn, n)
      ensures done && Completes(n) ==> err == None
      ensures done && !Completes(n) ==> (n.TurnCompleted? || n.ErrorReported?) && err == Some(Verdict(n, ""))
    {
      assert (s + [n])[..|s|] == s;
      done, err := false, None;
      if Relevant(turn, n) {
        match n {
          case Delta(_, _, itemID, delta) =>
            outputBuffers := outputBuffers[itemID := Buffered(itemID) + delta];
          case ItemCompleted(_, _, item) =>
            log := log + LoggedFor(item, Buffered(item.id));
            outputBuffers := outputBuffers - {item.id};
          case ErrorReported(_, _, _, willRetry) =>
            done, err := !willRetry, Some(Verdict(n, ""));
          case TurnCompleted(_, _, status, _) =>
            done, err := true, if status == "completed" then None else Some(Verdict(n, ""));
        }
      }
    }

    /** The stream ends when the connection closes; a cancellation may be noticed before any notification. */
    method WaitCodexTurnMessage(stream: seq<Notification>, cancelAt: Option<nat>) returns (r: Outcome, handled: nat)
      requires outputBuffers == map[] && log == []
      modifies this
      ensures handled <= |stream| && Follows(stream[..handled])
      ensures WaitEnds(turn, stream, cancelAt, r, handled)
    {
      assert stream[..0] == [] && Fold(turn, []) == Progress.Waiting("");
      assert |Readable(stream, cancelAt)| <= |stream|;
      hide *;
      var lastAgentMessage := "";
      var outcome: Option<Outcome> := None;
      handled := 0;
      FollowsFromStart();
      while outcome.None?
        invariant handled <= |Readable(stream, cancelAt)| <= |stream|
        invariant Follows(stream[..handled])
        invariant outcome.None? ==> Fold(turn, stream[..handled]) == Progress.Waiting(lastAgentMessage)
        invariant outcome.Some? ==> WaitEnds(turn, stream, cancelAt, outcome.value, handled)
        decreases |stream| - handled, outcome.None?
      {
        if cancelAt == Some(handled) || handled == |stream| {
          NothingLeft(turn, stream, cancelAt, handled);
          outcome := Some(if cancelAt == Some(handled) then Cancelled else STREAM_CLOSED);
        } else {
          var n := stream[handled];
          OneMoreNotification(turn, stream, cancelAt, handled);
          assert stream[..handled + 1] == stream[..handled] + [n];
          var done, err := HandleCodexNotification(n, stream[..handled]);
          if AgentMessage(turn, n) {
            lastAgentMessage := AgentText(n);
          }
          handled := handled + 1;
          if done {
            VerdictLooksAtMessage(n, lastAgentMessage);
            if err.Some? {
              outcome := err;
            } else {
              outcome := Some(if lastAgentMessage == "" then NO_MESSAGE else Message(lastAgentMessage));
            }
          }
        }
      }
      r := outcome.value;
    }
  }

  const STREAM_CLOSED := Failure("codex app-server exited before the turn completed")

  /** The notifications the loop can see before a cancellation. */
  function Readable(stream: seq<Notification>, cancelAt: Option<nat>): seq<Notification> {
    if cancelAt.Some? && cancelAt.value <= |stream| then stream[..cancelAt.value] else stream
  }

  /** The wait ends as the fold over the readable stream says, or, when that is still waiting, after all of it. */
  ghost predicate WaitEnds(turn: Turn, stream: seq<Notification>, cancelAt: Option<nat>, r: Outcome, handled: nat) {
    var readable := Readable(stream, cancelAt);
    && handled <= |readable|
    && match Fold(turn, readable)
       case Ended(outcome) => r == outcome
       case Waiting(_) => handled == |readable| && r == if cancelAt == Some(handled) then Cancelled else STREAM_CLOSED
  }

  lemma NothingLeft(turn: Turn, stream: seq<Notification>, cancelAt: Option<nat>, k: nat)
    requires k <= |Readable(stream, cancelAt)| && Fold(turn, stream[..k]).Waiting?
    requires cancelAt == Some(k) || k == |stream|
    ensures WaitEnds(turn, stream, cancelAt, if cancelAt == Some(k) then Cancelled else STREAM_CLOSED, k)
  {
    hide Terminal, Verdict, AgentMessage;
    assert Readable(stream, cancelAt) == stream[..k];
  }

  /** One more notification ends the wait for good or moves the last agent message. */
  lemma OneMoreNotification(turn: Turn, stream: seq<Notification>, cancelAt: Option<nat>, k: nat)
    requires k <= |Readable(stream, cancelAt)| && Fold(turn, stream[..k]).Waiting?
    requires cancelAt != Some(k) && k < |stream|
    ensures k < |Readable(stream, cancelAt)|
    ensures var last, n := Fold(turn, stream[..k]).last, stream[k];
            && (Terminal(turn, n) ==> (n.TurnCompleted? || n.ErrorReported?))
            && (Terminal(turn, n) ==> !AgentMessage(turn, n))
            && (Terminal(turn, n) ==> WaitEnds(turn, stream, cancelAt, Verdict(n, last), k + 1))
            && (!Terminal(turn, n) ==>
                  Fold(turn, stream[..k + 1]) == Waiting(if AgentMessage(turn, n) then AgentText(n) else last))
  {
    hide Verdict;
    var readable := Readable(stream, cancelAt);
    assert stream[..k + 1][..k] == stream[..k];
    if Terminal(turn, stream[k]) {
      assert readable[..k + 1] == stream[..k + 1];
      FoldEndsOnce(turn, readable, k + 1);
    }
  }

  /** Nothing after the end changes the outcome. */
  lemma {:induction false} FoldEndsOnce(turn: Turn, s: seq<Notification>, k: nat)
    requires k <= |s| && Fold(turn, s[..k]).Ended?
    ensures Fold(turn, s) == Fold(turn, s[..k])
  {
    if k == |s| {
      assert s[..k] == s;
    } else {
      var before := s[..|s| - 1];
      assert before[..k] == s[..k];
      FoldEndsOnce(turn, before, k);
    }
  }
}
