/** Every interleaving of the sender's submissions, requests, answers, waits and
    cancellations. */
module SenderRuns {
  import opened Bytes
  import opened Messages
  import opened Answers
  import opened Sender

  /** The queue's reply to a request: the indices that failed, or an error. */
  datatype Reply = Answer(failed: seq<int>) | Refusal(permanent: bool, cancellation: bool)

  /** InFlight: a request is out. Waiting: backing off before the next attempt. */
  datatype Phase = InFlight | Waiting | Sent | Broken(cancellation: bool)

  datatype Task = Task(batch: seq<Message>, pending: seq<Message>, confirmed: seq<Message>, attempt: nat, phase: Phase)

  const ATTEMPTS := 3

  function NewTask(batch: seq<Message>): Task { Task(batch, batch, [], 0, InFlight) }

  function OnReply(t: Task, reply: Reply): Task {
    match reply
    case Answer(failed) =>
      t.(confirmed := t.confirmed + Accepted(t.pending, failed, |t.pending|),
         pending := Again(t.pending, failed),
         phase := if failed == [] then Sent else Waiting)
    case Refusal(permanent, cancellation) =>
      t.(phase := if permanent || t.attempt == ATTEMPTS - 1 then Broken(cancellation) else Waiting)
  }

  // The wait ends: with the context cancelled, with the next attempt, or with
  // the error that there is none left.
  function OnWake(t: Task, cancelled: bool): Task {
    if cancelled then t.(phase := Broken(true))
    else if t.attempt + 1 < ATTEMPTS then t.(attempt := t.attempt + 1, phase := InFlight)
    else t.(phase := Broken(false))
  }

  /** limit: the concurrency. The three counters are what counts() returns. */
  datatype State = State(
    limit: nat, tasks: seq<Task>, cancelled: bool, firstErr: bool, cancellationErr: bool,
    messages: nat, events: nat, calls: nat)

  function NewState(concurrency: int): State {
    State(if concurrency < 1 then 1 else concurrency, [], false, false, false, 0, 0, 0)
  }

  datatype Step =
    | Submit(batch: seq<Message>)
    | Receive(i: nat, reply: Reply)
    | Wake(i: nat, stop: bool)
    | Cancel

  predicate IsActive(t: Task) { t.phase.InFlight? || t.phase.Waiting? }

  function Active(tasks: seq<Task>): nat {
    if tasks == [] then 0 else Active(tasks[..|tasks| - 1]) + if IsActive(tasks[|tasks| - 1]) then 1 else 0
  }

  // A task's goroutine returned an error: the first real one cancels the rest.
  function Record(s: State, phase: Phase): State {
    if !phase.Broken? then s
    else if phase.cancellation then s.(cancellationErr := true)
    else s.(firstErr := true, cancelled := s.cancelled || !s.firstErr)
  }

  function Gain(t: Task, reply: Reply): (seq<Message>, nat) {
    if reply.Answer? then (Accepted(t.pending, reply.failed, |t.pending|), 1) else ([], 0)
  }

  /** None where the step is not possible. A submission takes a slot; its check
      for an earlier error is made before that and so excludes nothing here. */
  function Next(s: State, step: Step): Option<State> {
    match step
    case Submit(batch) =>
      if batch != [] && Active(s.tasks) < s.limit then Some(s.(tasks := s.tasks + [NewTask(batch)])) else None
    case Receive(i, reply) =>
      if i >= |s.tasks| || !s.tasks[i].phase.InFlight? then None else
      var t := OnReply(s.tasks[i], reply);
      var gain := Gain(s.tasks[i], reply);
      var messages, events, calls := s.messages + |gain.0|, s.events + Events(gain.0), s.calls + gain.1;
      Some(Record(s.(tasks := s.tasks[i := t], messages := messages, events := events, calls := calls), t.phase))
    case Wake(i, stop) =>
      if i >= |s.tasks| || !s.tasks[i].phase.Waiting? || (stop && !s.cancelled) then None else
      var t := OnWake(s.tasks[i], stop);
      Some(Record(s.(tasks := s.tasks[i := t]), t.phase))
    case Cancel => Some(s.(cancelled := true))
  }

  /** The queue answers with distinct indices of the request. */
  predicate Honest(s: State, step: Step) {
    step.Receive? && step.i < |s.tasks| && step.reply.Answer? ==>
      NoneTwice(step.reply.failed, |s.tasks[step.i].pending|)
  }

  function After(s: State, steps: seq<Step>): Option<State>
    decreases steps
  {
    if steps == [] then Some(s)
    else if Next(s, steps[0]).None? then None
    else After(Next(s, steps[0]).value, steps[1..])
  }

  predicate AllHonest(s: State, steps: seq<Step>)
    decreases steps
  {
    steps == [] || (Honest(s, steps[0]) && (Next(s, steps[0]).Some? ==> AllHonest(Next(s, steps[0]).value, steps[1..])))
  }

  // ---- Sums over tasks -----------------------------------------------------------------

  function Confirmed(tasks: seq<Task>): seq<Message> {
    if tasks == [] then [] else Confirmed(tasks[..|tasks| - 1]) + tasks[|tasks| - 1].confirmed
  }

  function Submitted(tasks: seq<Task>): seq<Message> {
    if tasks == [] then [] else Submitted(tasks[..|tasks| - 1]) + tasks[|tasks| - 1].batch
  }

  lemma {:induction false} EventsConcat(a: seq<Message>, b: seq<Message>)
    ensures Events(a + b) == Events(a) + Events(b)
  {
    if b == [] {
      assert a + b == a;
    } else {
      EventsConcat(a, b[..|b| - 1]);
      assert (a + b)[..|a + b| - 1] == a + b[..|b| - 1];
    }
  }

  // One task changed: it confirmed some more, perhaps, and may have stopped.
  lemma {:induction false} TaskChanged(tasks: seq<Task>, i: nat, t: Task, more: seq<Message>)
    requires i < |tasks| && t.confirmed == tasks[i].confirmed + more && IsActive(tasks[i])
    ensures |Confirmed(tasks[i := t])| == |Confirmed(tasks)| + |more|
    ensures Events(Confirmed(tasks[i := t])) == Events(Confirmed(tasks)) + Events(more)
    ensures Active(tasks[i := t]) <= Active(tasks)
  {
    var front, last := tasks[..|tasks| - 1], tasks[|tasks| - 1];
    EventsConcat(Confirmed(front), last.confirmed);
    if i == |tasks| - 1 {
      assert tasks[i := t][..|tasks| - 1] == front;
      EventsConcat(Confirmed(front), t.confirmed);
      EventsConcat(last.confirmed, more);
    } else {
      assert tasks[i := t][..|tasks| - 1] == front[i := t];
      TaskChanged(front, i, t, more);
      EventsConcat(Confirmed(front[i := t]), last.confirmed);
    }
  }

  // ---- What every reachable state satisfies --------------------------------------------

  ghost predicate TaskDivided(t: Task) { multiset(t.confirmed) + multiset(t.pending) == multiset(t.batch) }

  predicate TaskReported(s: State, t: Task) {
    && (t.phase.Broken? ==> if t.phase.cancellation then s.cancellationErr else s.firstErr)
    && (t.phase.Sent? ==> t.pending == [])
  }

  ghost predicate Inv(s: State) {
    && Active(s.tasks) <= s.limit
    && s.messages == |Confirmed(s.tasks)| && s.events == Events(Confirmed(s.tasks))
    && (forall i :: 0 <= i < |s.tasks| ==> TaskReported(s, s.tasks[i]))
  }

  ghost predicate Divided(s: State) { forall i :: 0 <= i < |s.tasks| ==> TaskDivided(s.tasks[i]) }

  lemma SubmitKeeps(s: State, batch: seq<Message>)
    requires Inv(s) && Next(s, Submit(batch)).Some?
    ensures Inv(Next(s, Submit(batch)).value)
    ensures Divided(s) ==> Divided(Next(s, Submit(batch)).value)
  {
    var tasks := s.tasks + [NewTask(batch)];
    assert tasks[..|tasks| - 1] == s.tasks;
    assert Confirmed(s.tasks) + [] == Confirmed(s.tasks);
    assert multiset(NewTask(batch).confirmed) == multiset{};
  }

  lemma ReceiveKeeps(s: State, i: nat, reply: Reply)
    requires Inv(s) && Next(s, Receive(i, reply)).Some?
    ensures Inv(Next(s, Receive(i, reply)).value)
  {
    var t := OnReply(s.tasks[i], reply);
    var gain := Gain(s.tasks[i], reply);
    assert s.tasks[i].confirmed + [] == s.tasks[i].confirmed;
    TaskChanged(s.tasks, i, t, gain.0);
    EventsConcat(Confirmed(s.tasks), gain.0);
    AllReported(s, Next(s, Receive(i, reply)).value, i, t);
  }

  // Errors, once recorded, stay.
  lemma AllReported(s: State, s': State, i: nat, t: Task)
    requires i < |s.tasks| && s'.tasks == s.tasks[i := t] && TaskReported(s', t)
    requires (s.firstErr ==> s'.firstErr) && (s.cancellationErr ==> s'.cancellationErr)
    requires forall k :: 0 <= k < |s.tasks| ==> TaskReported(s, s.tasks[k])
    ensures forall k :: 0 <= k < |s'.tasks| ==> TaskReported(s', s'.tasks[k])
  {
    forall k | 0 <= k < |s'.tasks| ensures TaskReported(s', s'.tasks[k]) {
      assert k != i ==> TaskReported(s, s.tasks[k]);
    }
  }

  lemma WakeKeeps(s: State, i: nat, stop: bool)
    requires Inv(s) && Next(s, Wake(i, stop)).Some?
    ensures Inv(Next(s, Wake(i, stop)).value)
  {
    var t := OnWake(s.tasks[i], stop);
    assert s.tasks[i].confirmed + [] == s.tasks[i].confirmed;
    TaskChanged(s.tasks, i, t, []);
    AllReported(s, Next(s, Wake(i, stop)).value, i, t);
  }

  /** An honest answer moves messages from pending to confirmed and loses none. */
  lemma ReceiveDivides(s: State, i: nat, reply: Reply)
    requires Divided(s) && Next(s, Receive(i, reply)).Some? && Honest(s, Receive(i, reply))
    ensures Divided(Next(s, Receive(i, reply)).value)
  {
    assert TaskDivided(s.tasks[i]);
    ReplyDivides(s.tasks[i], reply);
    var s' := Next(s, Receive(i, reply)).value;
    forall k | 0 <= k < |s'.tasks| ensures TaskDivided(s'.tasks[k]) { assert k != i ==> TaskDivided(s.tasks[k]); }
  }

  lemma ReplyDivides(t: Task, reply: Reply)
    requires TaskDivided(t) && (reply.Answer? ==> NoneTwice(reply.failed, |t.pending|))
    ensures TaskDivided(OnReply(t, reply))
  {
    if reply.Answer? { AnswerDividesIff(t.pending, reply.failed); }
  }

  lemma WakeDivides(s: State, i: nat, stop: bool)
    requires Divided(s) && Next(s, Wake(i, stop)).Some?
    ensures Divided(Next(s, Wake(i, stop)).value)
  {
    var s' := Next(s, Wake(i, stop)).value;
    forall k | 0 <= k < |s'.tasks| ensures TaskDivided(s'.tasks[k]) { assert TaskDivided(s.tasks[k]); }
  }

  lemma NextKeeps(s: State, step: Step)
    requires Inv(s) && Next(s, step).Some?
    ensures Inv(Next(s, step).value)
    ensures Divided(s) && Honest(s, step) ==> Divided(Next(s, step).value)
  {
    match step
    case Submit(batch) => SubmitKeeps(s, batch);
    case Receive(i, reply) =>
      ReceiveKeeps(s, i, reply);
      if Divided(s) && Honest(s, step) { ReceiveDivides(s, i, reply); }
    case Wake(i, stop) =>
      WakeKeeps(s, i, stop);
      if Divided(s) { WakeDivides(s, i, stop); }
    case Cancel =>
  }

  lemma {:induction false} AfterKeeps(s: State, steps: seq<Step>)
    requires Inv(s) && After(s, steps).Some?
    ensures Inv(After(s, steps).value)
    ensures Divided(s) && AllHonest(s, steps) ==> Divided(After(s, steps).value)
    decreases steps
  {
    if steps != [] {
      NextKeeps(s, steps[0]);
      AfterKeeps(Next(s, steps[0]).value, steps[1..]);
    }
  }

  ghost predicate Reaches(concurrency: int, steps: seq<Step>, s: State) {
    After(NewState(concurrency), steps) == Some(s) && AllHonest(NewState(concurrency), steps)
  }

  // What wait() returns, once no task is active.
  predicate WaitsNil(s: State) { Active(s.tasks) == 0 && !s.firstErr && !s.cancellationErr }

  lemma {:induction false} NoneActive(tasks: seq<Task>)
    requires Active(tasks) == 0
    ensures forall i :: 0 <= i < |tasks| ==> !IsActive(tasks[i])
  {
    if tasks != [] { NoneActive(tasks[..|tasks| - 1]); }
  }

  /** At every point of every run: requests in flight stay within the limit, the
      confirmed and pending messages of each batch are the batch, and the counters
      are those of the confirmed messages. */
  lemma SenderInvariant(concurrency: int, steps: seq<Step>, s: State)
    requires Reaches(concurrency, steps, s)
    ensures Active(s.tasks) <= if concurrency < 1 then 1 else concurrency
    ensures forall i :: 0 <= i < |s.tasks| ==> TaskDivided(s.tasks[i])
    ensures s.messages == |Confirmed(s.tasks)| && s.events == Events(Confirmed(s.tasks))
  {
    AfterKeeps(NewState(concurrency), steps);
    LimitStays(NewState(concurrency), steps);
  }

  lemma {:induction false} LimitStays(s: State, steps: seq<Step>)
    requires After(s, steps).Some?
    ensures After(s, steps).value.limit == s.limit
    decreases steps
  {
    if steps != [] { LimitStays(Next(s, steps[0]).value, steps[1..]); }
  }

  /** When wait returns nil, every submitted message was confirmed exactly as
      often as it was submitted, batch by batch, and the counters say so. */
  lemma NilMeansAllConfirmed(concurrency: int, steps: seq<Step>, s: State)
    requires Reaches(concurrency, steps, s) && WaitsNil(s)
    ensures forall i :: 0 <= i < |s.tasks| ==> multiset(s.tasks[i].confirmed) == multiset(s.tasks[i].batch)
    ensures s.messages == |Submitted(s.tasks)| && s.events == Events(Submitted(s.tasks))
  {
    AfterKeeps(NewState(concurrency), steps);
    NoneActive(s.tasks);
    forall i | 0 <= i < |s.tasks| ensures multiset(s.tasks[i].confirmed) == multiset(s.tasks[i].batch) {
      assert TaskReported(s, s.tasks[i]) && TaskDivided(s.tasks[i]);
    }
    ConfirmedIsSubmitted(s.tasks);
  }

  lemma {:induction false} ConfirmedIsSubmitted(tasks: seq<Task>)
    requires forall i :: 0 <= i < |tasks| ==> multiset(tasks[i].confirmed) == multiset(tasks[i].batch)
    ensures |Confirmed(tasks)| == |Submitted(tasks)| && Events(Confirmed(tasks)) == Events(Submitted(tasks))
  {
    if tasks != [] {
      var front, last := tasks[..|tasks| - 1], tasks[|tasks| - 1];
      ConfirmedIsSubmitted(front);
      EventsConcat(Confirmed(front), last.confirmed);
      EventsConcat(Submitted(front), last.batch);
      assert |multiset(last.confirmed)| == |last.confirmed| && |multiset(last.batch)| == |last.batch|;
      EventsUnordered(last.confirmed, last.batch);
    }
  }

  lemma Remainders(a: seq<Message>, left: seq<Message>, m: Message, right: seq<Message>)
    requires multiset(a + [m]) == multiset(left + [m] + right)
    ensures multiset(a) == multiset(left + right)
  {
    assert multiset(a) == multiset(a + [m]) - multiset{m};
    assert multiset(left + right) == multiset(left + [m] + right) - multiset{m};
  }

  lemma {:induction false} EventsUnordered(a: seq<Message>, b: seq<Message>)
    requires multiset(a) == multiset(b)
    ensures Events(a) == Events(b)
  {
    if a == [] {
      assert |multiset(b)| == 0;
    } else {
      var front, m := a[..|a| - 1], a[|a| - 1];
      assert a == front + [m];
      assert m in multiset(b);
      var i :| 0 <= i < |b| && b[i] == m;
      assert b == b[..i] + [m] + b[i + 1..];
      Remainders(front, b[..i], m, b[i + 1..]);
      EventsUnordered(front, b[..i] + b[i + 1..]);
      EventsConcat(b[..i], b[i + 1..]);
      EventsConcat(b[..i], [m]);
      EventsConcat(b[..i] + [m], b[i + 1..]);
      EventsConcat(front, [m]);
    }
  }

  // ---- Errors and calls ------------------------------------------------------------------

  /** An error was recorded only by a task that ended with one, and the first real one
      cancels the context. */
  ghost predicate ErrorsTrue(s: State) {
    && (s.firstErr ==> s.cancelled && exists i :: 0 <= i < |s.tasks| && s.tasks[i].phase == Broken(false))
    && (s.cancellationErr ==> exists i :: 0 <= i < |s.tasks| && s.tasks[i].phase == Broken(true))
  }

  lemma BrokenStays(s: State, s': State, i: nat, cancellation: bool)
    requires i < |s.tasks| && s.tasks[i].phase == Broken(cancellation)
    requires exists step :: Next(s, step) == Some(s')
    ensures i < |s'.tasks| && s'.tasks[i].phase == Broken(cancellation)
  {
  }

  lemma NextErrors(s: State, step: Step)
    requires ErrorsTrue(s) && Next(s, step).Some?
    ensures ErrorsTrue(Next(s, step).value)
  {
    var s' := Next(s, step).value;
    if s.firstErr {
      var i :| 0 <= i < |s.tasks| && s.tasks[i].phase == Broken(false);
      BrokenStays(s, s', i, false);
    }
    if s.cancellationErr {
      var i :| 0 <= i < |s.tasks| && s.tasks[i].phase == Broken(true);
      BrokenStays(s, s', i, true);
    }
    if step.Receive? { assert s'.tasks[step.i] == OnReply(s.tasks[step.i], step.reply); }
    if step.Wake? { assert s'.tasks[step.i] == OnWake(s.tasks[step.i], step.stop); }
  }

  lemma {:induction false} ErrorsAfter(s: State, steps: seq<Step>)
    requires ErrorsTrue(s) && After(s, steps).Some?
    ensures ErrorsTrue(After(s, steps).value)
    decreases steps
  {
    if steps != [] {
      NextErrors(s, steps[0]);
      ErrorsAfter(Next(s, steps[0]).value, steps[1..]);
    }
  }

  /** Once no task is active, wait returns nil exactly when every batch was sent. */
  lemma NilIffAllSent(concurrency: int, steps: seq<Step>, s: State)
    requires After(NewState(concurrency), steps) == Some(s) && Active(s.tasks) == 0
    ensures WaitsNil(s) <==> forall i :: 0 <= i < |s.tasks| ==> s.tasks[i].phase.Sent?
    ensures s.firstErr ==> s.cancelled
  {
    AfterKeeps(NewState(concurrency), steps);
    ErrorsAfter(NewState(concurrency), steps);
    NoneActive(s.tasks);
    forall i | 0 <= i < |s.tasks| ensures !IsActive(s.tasks[i]) && TaskReported(s, s.tasks[i]) {}
  }

  // The requests of a run that the queue answered, whatever the answer.
  function Answered(steps: seq<Step>): nat {
    if steps == [] then 0 else Answered(steps[1..]) + if steps[0].Receive? && steps[0].reply.Answer? then 1 else 0
  }

  /** The calls counted are the answered requests; refused ones do not count. */
  lemma {:induction false} CallsAreAnswers(s: State, steps: seq<Step>)
    requires After(s, steps).Some?
    ensures After(s, steps).value.calls == s.calls + Answered(steps)
    decreases steps
  {
    if steps != [] { CallsAreAnswers(Next(s, steps[0]).value, steps[1..]); }
  }

  // ---- One batch ---------------------------------------------------------------------------

  /** The goroutine of one batch, given what the queue replies to each attempt and
      whether the context is cancelled during each wait. */
  method Send(batch: seq<Message>, replies: seq<Reply>, stops: seq<bool>) returns (t: Task)
    requires |replies| == |stops| == ATTEMPTS
    ensures t == Course(NewTask(batch), replies, stops)
    ensures !IsActive(t)
    ensures t.phase.Sent? <==> exists k :: 0 <= k < 3 && AnsweredAt(replies, stops, k)
    ensures t.phase == Broken(true) <==> exists k :: 0 <= k < 3 && CancelledAt(replies, stops, k)
  {
    t := NewTask(batch);
    while IsActive(t)
      invariant IsActive(t) ==> t.phase.InFlight?
      invariant IsActive(t) ==> Course(NewTask(batch), replies, stops) == Course(t, replies, stops)
      invariant t.attempt < ATTEMPTS && forall k :: 0 <= k < t.attempt ==> Retried(replies, stops, k)
      invariant !IsActive(t) ==> t == Course(NewTask(batch), replies, stops)
      invariant t.phase.Sent? ==> replies[t.attempt] == Answer([])
      invariant !IsActive(t) ==> !Retried(replies, stops, t.attempt)
      invariant t.phase.Broken? ==>
          replies[t.attempt] != Answer([]) && (t.phase.cancellation <==> CancelledAt(replies, stops, t.attempt))
      decreases IsActive(t), ATTEMPTS - t.attempt
    {
      t := OnReply(t, replies[t.attempt]);
      if t.phase.Waiting? { t := OnWake(t, stops[t.attempt]); }
    }
    EndsOnce(replies, stops, t.attempt);
  }

  // Attempt k failed in a way, and its wait ended, so that another was made.
  predicate Retried(replies: seq<Reply>, stops: seq<bool>, k: nat)
    requires |replies| == |stops| == ATTEMPTS
  {
    && k < ATTEMPTS - 1 && !stops[k]
    && (replies[k].Answer? ==> replies[k].failed != [])
    && (replies[k].Refusal? ==> !replies[k].permanent)
  }

  // Attempts 0 to k-1 were retried, and k was answered without a failure.
  ghost predicate AnsweredAt(replies: seq<Reply>, stops: seq<bool>, k: nat)
    requires |replies| == |stops| == ATTEMPTS
  {
    k < 3 && replies[k] == Answer([]) && forall i :: 0 <= i < k ==> Retried(replies, stops, i)
  }

  // Attempts 0 to k-1 were retried; k failed, and what ended it there is a cancellation.
  ghost predicate CancelledAt(replies: seq<Reply>, stops: seq<bool>, k: nat)
    requires |replies| == |stops| == ATTEMPTS
  {
    && k < 3 && (forall i :: 0 <= i < k ==> Retried(replies, stops, i))
    && match replies[k]
       case Answer(failed) => failed != [] && stops[k]
       case Refusal(permanent, cancellation) => if permanent || k == 2 then cancellation else stops[k]
  }

  // The attempt that is not retried is the last.
  lemma EndsOnce(replies: seq<Reply>, stops: seq<bool>, last: nat)
    requires |replies| == |stops| == ATTEMPTS && last < ATTEMPTS
    requires !Retried(replies, stops, last) && forall i :: 0 <= i < last ==> Retried(replies, stops, i)
    ensures forall k: nat :: AnsweredAt(replies, stops, k) <==> k == last && replies[k] == Answer([])
    ensures forall k: nat :: CancelledAt(replies, stops, k) ==> k == last
  {
    forall k: nat | k < ATTEMPTS && k != last
      ensures !AnsweredAt(replies, stops, k) && !CancelledAt(replies, stops, k)
    {
      assert k < last ==> Retried(replies, stops, k);
    }
  }

  function Course(t: Task, replies: seq<Reply>, stops: seq<bool>): Task
    requires |replies| == |stops| == ATTEMPTS
    decreases ATTEMPTS - t.attempt, t.phase.Waiting?
  {
    if !t.phase.InFlight? || t.attempt >= ATTEMPTS then t else
    var u := OnReply(t, replies[t.attempt]);
    if !u.phase.Waiting? then u
    else if stops[u.attempt] || u.attempt + 1 >= ATTEMPTS then OnWake(u, stops[u.attempt])
    else Course(OnWake(u, stops[u.attempt]), replies, stops)
  }
}
