/** The loop of a waiting client, told from whole runs: what it does next follows from what it last saw, so it
    asks while there is time, withdraws early only from a daemon that looked dead, and gives up only after its
    deadline (src/memline/bridge.py). */
module ClientLoop {
  import opened Strings
  import opened Bridge
  import opened BridgeProtocol

  /** The client takes the step. */
  predicate Own(step: Step, c: ClientId)
  {
    match step
    case Admit(d) => d == c
    case Send(d, _, _, _) => d == c
    case Test(d) => d == c
    case Poll(d) => d == c
    case Acknowledge(d) => d == c
    case Cancel(d) => d == c
    case TimeOut(d) => d == c
    case Vanish(d) => d == c
    case _ => false
  }

  /** Step `j` is the client's last one before step `n`. */
  predicate LastOwn(steps: seq<Step>, c: ClientId, j: nat, n: nat)
    requires n <= |steps|
  {
    j < n && Own(steps[j], c) && forall k :: j < k < n ==> !Own(steps[k], c)
  }

  /** The heartbeat as the client reads it: ready, and no more than five seconds old. */
  predicate FreshBeat(s: State)
  {
    s.heartbeat.ready && s.now <= s.heartbeat.at + 5000
  }

  predicate NoAnswer(s: State, id: RequestId)
  {
    id in s.rows ==> s.rows[id].status == Queued || s.rows[id].status == Processing
  }

  /** What the client's last step, taken in state `s`, was and saw if it now stands where it does. */
  predicate CameFrom(s: State, step: Step, c: ClientId, cl: Client)
  {
    match cl.state
    case Waiting(AtPoll) => step == Test(c) && WaitingAt(s, c, AtDeadline) && s.now < cl.deadline
    case Waiting(AtGiveUp) => step == Test(c) && WaitingAt(s, c, AtDeadline) && s.now >= cl.deadline
    case Waiting(AtHeartbeat) => step == Poll(c) && NoAnswer(s, cl.id)
    case Waiting(AtCancel) => step == Test(c) && WaitingAt(s, c, AtHeartbeat) && !FreshBeat(s)
    case Waiting(AtDeadline) =>
      || (step.Send? && step == Send(c, cl.id, cl.payload, step.timeout) && cl.deadline == s.now + step.timeout)
      || (step == Test(c) && WaitingAt(s, c, AtHeartbeat) && FreshBeat(s))
      || (step == Cancel(c) && !IsQueued(s, cl.id))
    case Answered(r) => step == Poll(c) && ResponseOf(s.rows, cl.id) == Some(r)
    case Returned(r) => step == Acknowledge(c) && c in s.clients && s.clients[c].state == Answered(r)
    case Unavailable(cancelled) =>
      || (step == TimeOut(c) && WaitingAt(s, c, AtGiveUp) && cancelled == IsQueued(s, cl.id))
      || (step == Cancel(c) && WaitingAt(s, c, AtCancel) && cancelled && IsQueued(s, cl.id))
    case Vanished => step == Vanish(c)
  }

  /** A step of somebody else leaves the client where it is. */
  lemma OthersLeave(s: State, step: Step, c: ClientId)
    requires Enabled(s, step) && !Own(step, c)
    ensures c in Do(s, step).clients <==> c in s.clients
    ensures c in s.clients ==> Do(s, step).clients[c] == s.clients[c]
  {
    if !ClientStep(step) {
      hide *;
      DaemonLeaves(s, step);
    } else {
      hide Recovered, Purged, Completed, Claimed, Enqueued, Cancelled, Acknowledged, ResponseOf, IsNext, IsQueued, Ready, DoRecover,
           DoPurge, DoSelect, DoClaim, DoComplete, DoCrash;
    }
  }

  /** The daemon and its workers touch no client. */
  lemma DaemonLeaves(s: State, step: Step)
    requires Enabled(s, step) && !ClientStep(step)
    ensures Do(s, step).clients == s.clients
  {
    hide Recovered, Purged, Completed, Claimed, IsNext;
  }

  lemma OwnStepSees(s: State, step: Step, c: ClientId)
    requires Enabled(s, step) && Own(step, c) && c in Do(s, step).clients
    ensures CameFrom(s, step, c, Do(s, step).clients[c])
    ensures c in s.clients ==> Do(s, step).clients[c] == s.clients[c].(state := Do(s, step).clients[c].state)
  {
    hide Recovered, Purged, Completed, Claimed, Enqueued, Cancelled, Acknowledged, IsNext, DoRecover, DoPurge, DoSelect,
         DoClaim, DoComplete, DoCrash;
  }

  /** Where a client stands follows from the last step it took and what it saw then, in every run, whatever
      the others have done since. */
  lemma {:induction false} LastStepDecides(ss: seq<State>, steps: seq<Step>, n: nat, c: ClientId) returns (j: nat)
    requires Run(ss, steps) && n <= |steps| && c in ss[n].clients
    ensures LastOwn(steps, c, j, n) && CameFrom(ss[j], steps[j], c, ss[n].clients[c])
  {
    hide Do, Enabled, CameFrom, Own;
    NoneAtFirst(ss, steps);
    if Own(steps[n - 1], c) {
      j := n - 1;
      OwnStepSees(ss[j], steps[j], c);
    } else {
      OthersLeave(ss[n - 1], steps[n - 1], c);
      j := LastStepDecides(ss, steps, n - 1, c);
    }
  }

  lemma NoneAtFirst(ss: seq<State>, steps: seq<Step>)
    requires Run(ss, steps)
    ensures ss[0].clients == map[] && ss[0].admitted == {}
  {
  }

  lemma StepClock(s: State, step: Step)
    requires Enabled(s, step)
    ensures s.now <= Do(s, step).now
  {
    hide Recovered, Purged, Completed, Claimed, Enqueued, Cancelled, Acknowledged, ResponseOf, IsNext, IsQueued, Ready;
  }

  lemma {:induction false} ClockRuns(ss: seq<State>, steps: seq<Step>, m: nat, n: nat)
    requires Run(ss, steps) && m <= n <= |steps|
    ensures ss[m].now <= ss[n].now
    decreases n
  {
    hide Do, Enabled;
    if m < n {
      ClockRuns(ss, steps, m, n - 1);
      StepClock(ss[n - 1], steps[n - 1]);
    }
  }

  lemma KeptStep(s: State, step: Step, c: ClientId)
    requires Enabled(s, step) && c in Do(s, step).clients
    ensures if c in s.clients
            then Do(s, step).clients[c] == s.clients[c].(state := Do(s, step).clients[c].state)
            else step.Send? && step == Send(c, Do(s, step).clients[c].id, Do(s, step).clients[c].payload, step.timeout)
                 && Do(s, step).clients[c].deadline == s.now + step.timeout && c in s.admitted
  {
    if Own(step, c) {
      OwnStepSees(s, step, c);
    } else {
      OthersLeave(s, step, c);
    }
  }

  /** A client has sent its request once, and its deadline is the time it sent it plus its timeout. */
  lemma {:induction false} DeadlineFromSend(ss: seq<State>, steps: seq<Step>, n: nat, c: ClientId) returns (j: nat)
    requires Run(ss, steps) && n <= |steps| && c in ss[n].clients
    ensures j < n && steps[j].Send? && steps[j] == Send(c, ss[n].clients[c].id, ss[n].clients[c].payload, steps[j].timeout)
    ensures ss[n].clients[c].deadline == ss[j].now + steps[j].timeout && c in ss[j].admitted
  {
    hide Do, Enabled;
    NoneAtFirst(ss, steps);
    KeptStep(ss[n - 1], steps[n - 1], c);
    if c in ss[n - 1].clients {
      j := DeadlineFromSend(ss, steps, n - 1, c);
    } else {
      j := n - 1;
    }
  }

  lemma AdmittedStep(s: State, step: Step, c: ClientId)
    requires Enabled(s, step) && c in Do(s, step).admitted && c !in s.admitted
    ensures step == Admit(c) && FreshBeat(s)
  {
  }

  /** It sent its request after a look that found the heartbeat fresh. */
  lemma {:induction false} AdmittedFresh(ss: seq<State>, steps: seq<Step>, n: nat, c: ClientId) returns (j: nat)
    requires Run(ss, steps) && n <= |steps| && c in ss[n].admitted
    ensures j < n && steps[j] == Admit(c) && FreshBeat(ss[j])
  {
    hide Do, Enabled, FreshBeat;
    NoneAtFirst(ss, steps);
    if c in ss[n - 1].admitted {
      j := AdmittedFresh(ss, steps, n - 1, c);
    } else {
      AdmittedStep(ss[n - 1], steps[n - 1], c);
      j := n - 1;
    }
  }

  lemma TimesOutWaiting(s: State, c: ClientId)
    requires Enabled(s, TimeOut(c))
    ensures c in s.clients && s.clients[c].state == Waiting(AtGiveUp)
  {
  }

  lemma CancelsWaiting(s: State, c: ClientId)
    requires Enabled(s, Cancel(c))
    ensures c in s.clients && s.clients[c].state == Waiting(AtCancel)
  {
  }

  lemma PollsWaiting(s: State, c: ClientId)
    requires Enabled(s, Poll(c))
    ensures c in s.clients && s.clients[c].state == Waiting(AtPoll)
  {
  }

  /** The loop over every run. A client times out only once the time it gave itself when it sent its request has
      passed; it withdraws early only if the last thing it did was a look at the heartbeat that found it stale or
      not ready; and it asks for its response only if the last thing it did was a look at the clock that found
      time left. */
  lemma LoopKeepsTime(ss: seq<State>, steps: seq<Step>, i: nat, c: ClientId)
    requires Run(ss, steps) && i < |steps|
    ensures steps[i] == TimeOut(c) ==>
              exists j :: 0 <= j < i && SentAt(ss, steps, j, c) && ss[i].now >= ss[j].now + steps[j].timeout
    ensures steps[i] == Cancel(c) ==>
              exists j :: 0 <= j < i && LastOwn(steps, c, j, i) && steps[j] == Test(c)
                          && (!ss[j].heartbeat.ready || ss[j].now > ss[j].heartbeat.at + HEARTBEAT_STALE_MS)
    ensures steps[i] == Poll(c) ==>
              exists j :: 0 <= j < i && LastOwn(steps, c, j, i) && steps[j] == Test(c)
                          && c in ss[i].clients && ss[j].now < ss[i].clients[c].deadline
  {
    hide Do, Enabled, LastOwn;
    if steps[i] == TimeOut(c) {
      TimesOutWaiting(ss[i], c);
      var look := LastStepDecides(ss, steps, i, c);
      EarlierThan(steps, c, look, i);
      var j := DeadlineFromSend(ss, steps, i, c);
      ClockRuns(ss, steps, look, i);
      assert SentAt(ss, steps, j, c);
    } else if steps[i] == Cancel(c) {
      CancelsWaiting(ss[i], c);
      var j := LastStepDecides(ss, steps, i, c);
      EarlierThan(steps, c, j, i);
    } else if steps[i] == Poll(c) {
      PollsWaiting(ss[i], c);
      var j := LastStepDecides(ss, steps, i, c);
      EarlierThan(steps, c, j, i);
    }
  }

  lemma EarlierThan(steps: seq<Step>, c: ClientId, j: nat, n: nat)
    requires n <= |steps| && LastOwn(steps, c, j, n)
    ensures j < n
  {
  }

  predicate SentAt(ss: seq<State>, steps: seq<Step>, j: nat, c: ClientId)
    requires j < |steps|
  {
    steps[j].Send? && steps[j].c == c
  }

  /** A client that reports the daemon unavailable did so for one of two reasons: its time was up, or the daemon
      looked dead and the request had not been claimed. It knows whether it withdrew the request: exactly then
      the request counts as cancelled, and it will never run. */
  lemma UnavailableForReason(ss: seq<State>, steps: seq<Step>, n: nat, c: ClientId)
    requires Run(ss, steps) && n <= |steps| && c in ss[n].clients && ss[n].clients[c].state.Unavailable?
    ensures ss[n].clients[c].state.cancelled <==> ss[n].clients[c].id in ss[n].cancelled
    ensures ss[n].clients[c].state.cancelled ==> ss[n].clients[c].id !in ss[n].claims
    ensures exists i :: 0 <= i < n && GaveUp(ss, steps, i, c, ss[n].clients[c])
  {
    hide Do, Enabled;
    RunInv(ss, steps, n);
    assert ClientOk(ss[n], ss[n].clients[c]);
    var i := LastStepDecides(ss, steps, n, c);
    var look := LastStepDecides(ss, steps, i, c);
    ClockRuns(ss, steps, look, i);
    SameDeadline(ss, steps, i, n, c);
    assert GaveUp(ss, steps, i, c, ss[n].clients[c]);
  }

  predicate GaveUp(ss: seq<State>, steps: seq<Step>, i: nat, c: ClientId, cl: Client)
    requires Run(ss, steps) && i < |steps|
  {
    || (steps[i] == TimeOut(c) && ss[i].now >= cl.deadline)
    || (steps[i] == Cancel(c) && IsQueued(ss[i], cl.id)
        && exists j :: 0 <= j < i && LastOwn(steps, c, j, i) && steps[j] == Test(c) && !FreshBeat(ss[j]))
  }

  lemma {:induction false} SameDeadline(ss: seq<State>, steps: seq<Step>, m: nat, n: nat, c: ClientId)
    requires Run(ss, steps) && m <= n <= |steps| && c in ss[m].clients
    ensures c in ss[n].clients && ss[n].clients[c].deadline == ss[m].clients[c].deadline && ss[n].clients[c].id == ss[m].clients[c].id
    decreases n
  {
    hide Do, Enabled;
    if m < n {
      SameDeadline(ss, steps, m, n - 1, c);
      StaysClient(ss[n - 1], steps[n - 1], c);
      KeptStep(ss[n - 1], steps[n - 1], c);
    }
  }

  lemma StaysClient(s: State, step: Step, c: ClientId)
    requires Enabled(s, step) && c in s.clients
    ensures c in Do(s, step).clients
  {
    hide Recovered, Purged, Completed, Claimed, Enqueued, Cancelled, Acknowledged, ResponseOf, IsNext, IsQueued, Ready;
  }

  /** What a waiting client can do, apart from vanishing, is just the one thing it stands before. */
  lemma WaitingMoves(s: State, step: Step, c: ClientId)
    requires c in s.clients && s.clients[c].state.Waiting? && c !in s.admitted && Own(step, c)
    ensures Enabled(s, step) <==>
              step == Vanish(c) || step == (match s.clients[c].state.next
                                            case AtDeadline => Test(c)
                                            case AtPoll => Poll(c)
                                            case AtHeartbeat => Test(c)
                                            case AtCancel => Cancel(c)
                                            case AtGiveUp => TimeOut(c))
  {
  }

  lemma AcknowledgingDeletes(s: State, c: ClientId)
    requires Enabled(s, Acknowledge(c)) && s.clients[c].id in s.sent
    requires NoAnswer(s, s.clients[c].id) ==> s.clients[c].id !in s.rows
    ensures Progress(Do(s, Acknowledge(c)), s.clients[c].id) == 4
  {
  }

  lemma AnswerThere(s: State, t: State, id: RequestId, r: Response)
    requires ResponseOf(s.rows, id) == Some(r) && id in s.sent && LaterAt(s, t, id)
    ensures NoAnswer(t, id) ==> id !in t.rows
  {
  }

  /** Once a client has returned its response the mailbox holds the request no more, and never will again. */
  lemma ReturnedIsGone(ss: seq<State>, steps: seq<Step>, n: nat, c: ClientId)
    requires Run(ss, steps) && n <= |steps| && c in ss[n].clients && ss[n].clients[c].state.Returned?
    ensures ss[n].clients[c].id !in ss[n].rows
  {
    hide Do, Enabled, LaterAt, Progress, Inv;
    var i := LastStepDecides(ss, steps, n, c);
    var j := LastStepDecides(ss, steps, i, c);
    SameDeadline(ss, steps, i, n, c);
    var id := ss[n].clients[c].id;
    RunLater(ss, steps, j, i);
    RunLater(ss, steps, i + 1, n);
    RowsSent(ss, steps, j, id);
    RowsSent(ss, steps, i, id);
    SentAlways(ss[j], ss[i], id);
    AnswerThere(ss[j], ss[i], id, ss[n].clients[c].state.response);
    AcknowledgingDeletes(ss[i], c);
    GoneForGood(ss[i + 1], ss[n], id);
  }

  lemma RowsSent(ss: seq<State>, steps: seq<Step>, n: nat, id: RequestId)
    requires Run(ss, steps) && n <= |steps|
    ensures id in ss[n].rows ==> id in ss[n].sent
  {
    hide Do, Enabled, ClaimsOk, WorkersOk, AnswersOk;
    RunInv(ss, steps, n);
  }

  lemma SentAlways(s: State, t: State, id: RequestId)
    requires Later(s, t)
    ensures LaterAt(s, t, id) && (id in s.sent ==> id in t.sent)
  {
  }

  lemma GoneForGood(s: State, t: State, id: RequestId)
    requires Later(s, t) && Progress(s, id) == 4
    ensures id !in t.rows
  {
    assert LaterAt(s, t, id);
  }
}
