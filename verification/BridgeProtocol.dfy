/** The mailbox protocol as a transition system: any number of clients and workers, daemon crashes and
    restarts, one step per SQL statement or test of a clock (src/memline/bridge.py, src/memline/daemon.py). */
module BridgeProtocol {
  import opened Strings
  import opened Bridge

  type WorkerId = nat
  type ClientId = nat

  /** A worker between its statements: it has read a row, and runs the handler once it has claimed it.
      Idle workers are absent. */
  datatype Worker = Worker(id: RequestId, payload: Json, handling: bool)

  /** What a waiting client does next: look at its deadline, ask for the response, look at the heartbeat,
      withdraw from a daemon that looked dead, or give up after the deadline. */
  datatype Next = AtDeadline | AtPoll | AtHeartbeat | AtCancel | AtGiveUp

  datatype ClientState =
    | Waiting(next: Next)
    | Answered(response: Response)  // response read, not yet acknowledged
    | Returned(response: Response)
    | Unavailable(cancelled: bool)
    | Vanished

  /** One call of `request`. */
  datatype Client = Client(id: RequestId, payload: Json, deadline: nat, state: ClientState)

  /** The daemon holds the lifetime lock except when down; workers only run once it is up. */
  datatype Phase = Down | Starting | Up

  datatype Heartbeat = Heartbeat(ready: bool, at: nat)

  datatype Sent = Sent(payload: Json, client: ClientId)

  /** Who last claimed a request, and how often it was claimed. */
  datatype Claims = Claims(worker: WorkerId, times: nat)

  /** `admitted` holds the clients that have seen a fresh heartbeat and are about to enqueue; `sent`,
      `claims`, `produced` and `cancelled` record history. */
  datatype State = State(
    rows: Rows, phase: Phase, heartbeat: Heartbeat, now: nat, admitted: set<ClientId>,
    workers: map<WorkerId, Worker>, clients: map<ClientId, Client>,
    sent: map<RequestId, Sent>, claims: map<RequestId, Claims>, produced: map<RequestId, Response>,
    cancelled: set<RequestId>)

  predicate Ready(s: State)
  {
    s.heartbeat.ready && s.now <= s.heartbeat.at + HEARTBEAT_STALE_MS
  }

  predicate WaitingAt(s: State, c: ClientId, next: Next)
  {
    c in s.clients && s.clients[c].state == Waiting(next)
  }

  predicate IsQueued(s: State, id: RequestId)
  {
    id in s.rows && s.rows[id].status == Queued
  }

  function Moved(s: State, c: ClientId, state: ClientState): map<ClientId, Client>
    requires c in s.clients
  {
    s.clients[c := s.clients[c].(state := state)]
  }

  // ---------------------------------------------------------------------------
  // The steps of a client
  // ---------------------------------------------------------------------------

  predicate CanAdmit(s: State, c: ClientId)
  {
    c !in s.clients && c !in s.admitted && Ready(s)
  }

  /** The heartbeat is fresh; whether it still is when the client enqueues is not known. */
  function DoAdmit(s: State, c: ClientId): State
    requires CanAdmit(s, c)
  {
    s.(admitted := s.admitted + {c})
  }

  predicate CanSend(s: State, c: ClientId, id: RequestId)
  {
    c in s.admitted && c !in s.clients && id !in s.sent
  }

  function DoSend(s: State, c: ClientId, id: RequestId, payload: Json, timeout: nat): State
    requires CanSend(s, c, id)
  {
    s.(rows := Enqueued(s.rows, id, payload, s.now), sent := s.sent[id := Sent(payload, c)],
       admitted := s.admitted - {c},
       clients := s.clients[c := Client(id, payload, s.now + timeout, Waiting(AtDeadline))])
  }

  predicate CanTest(s: State, c: ClientId)
  {
    WaitingAt(s, c, AtDeadline) || WaitingAt(s, c, AtHeartbeat)
  }

  /** One look at the clock or at the heartbeat; the statement it leads to is a step of its own. */
  function DoTest(s: State, c: ClientId): State
    requires CanTest(s, c)
  {
    s.(clients := Moved(s, c, Waiting(
      if s.clients[c].state.next.AtDeadline?
      then if s.now < s.clients[c].deadline then AtPoll else AtGiveUp
      else if Ready(s) then AtDeadline else AtCancel)))
  }

  predicate CanPoll(s: State, c: ClientId)
  {
    WaitingAt(s, c, AtPoll)
  }

  function DoPoll(s: State, c: ClientId): State
    requires CanPoll(s, c)
  {
    var r := ResponseOf(s.rows, s.clients[c].id);
    s.(clients := Moved(s, c, if r.Some? then Answered(r.value) else Waiting(AtHeartbeat)))
  }

  predicate CanAcknowledge(s: State, c: ClientId)
  {
    c in s.clients && s.clients[c].state.Answered?
  }

  function DoAcknowledge(s: State, c: ClientId): State
    requires CanAcknowledge(s, c)
  {
    s.(rows := Bridge.Acknowledged(s.rows, s.clients[c].id),
       clients := Moved(s, c, Returned(s.clients[c].state.response)))
  }

  predicate CanCancel(s: State, c: ClientId)
  {
    WaitingAt(s, c, AtCancel)
  }

  /** The daemon looked dead: give up if the request is still queued, else keep waiting. */
  function DoCancel(s: State, c: ClientId): State
    requires CanCancel(s, c)
  {
    var id := s.clients[c].id;
    if IsQueued(s, id)
    then s.(rows := Cancelled(s.rows, id, StoppedUnclaimed, s.now), cancelled := s.cancelled + {id},
            clients := Moved(s, c, Unavailable(true)))
    else s.(clients := Moved(s, c, Waiting(AtDeadline)))
  }

  predicate CanTimeOut(s: State, c: ClientId)
  {
    WaitingAt(s, c, AtGiveUp)
  }

  function DoTimeOut(s: State, c: ClientId): State
    requires CanTimeOut(s, c)
  {
    var id := s.clients[c].id;
    s.(rows := Cancelled(s.rows, id, TimedOut, s.now),
       cancelled := if IsQueued(s, id) then s.cancelled + {id} else s.cancelled,
       clients := Moved(s, c, Unavailable(IsQueued(s, id))))
  }

  predicate CanVanish(s: State, c: ClientId)
  {
    c in s.clients
  }

  function DoVanish(s: State, c: ClientId): State
    requires CanVanish(s, c)
  {
    s.(clients := Moved(s, c, Vanished))
  }

  // ---------------------------------------------------------------------------
  // The steps of the daemon and its workers
  // ---------------------------------------------------------------------------

  /** Startup order: recovery comes before the first worker. */
  function DoRecover(s: State): State
  {
    s.(rows := Recovered(s.rows, s.now), phase := Up)
  }

  function DoPurge(s: State, cutoff: nat): State
  {
    s.(rows := Purged(s.rows, cutoff))
  }

  predicate CanSelect(s: State, w: WorkerId, id: RequestId)
  {
    s.phase.Up? && w !in s.workers && IsNext(s.rows, id)
  }

  function DoSelect(s: State, w: WorkerId, id: RequestId): State
    requires CanSelect(s, w, id)
  {
    s.(workers := s.workers[w := Worker(id, s.rows[id].payload, false)])
  }

  predicate CanClaim(s: State, w: WorkerId)
  {
    w in s.workers && !s.workers[w].handling
  }

  /** The conditional update; the handler starts if it hit the row. */
  function DoClaim(s: State, w: WorkerId): State
    requires CanClaim(s, w)
  {
    var id := s.workers[w].id;
    if IsQueued(s, id)
    then
      var times := if id in s.claims then s.claims[id].times else 0;
      s.(rows := Claimed(s.rows, id, s.now), claims := s.claims[id := Claims(w, times + 1)],
         workers := s.workers[w := s.workers[w].(handling := true)])
    else s.(workers := s.workers - {w})
  }

  predicate CanComplete(s: State, w: WorkerId)
  {
    w in s.workers && s.workers[w].handling
  }

  function DoComplete(s: State, w: WorkerId, response: Response): State
    requires CanComplete(s, w)
  {
    var id := s.workers[w].id;
    s.(rows := Completed(s.rows, id, response, s.now), produced := s.produced[id := response],
       workers := s.workers - {w})
  }

  /** The process dies: its workers are gone, the table stays. */
  function DoCrash(s: State): State
  {
    s.(phase := Down, workers := map[])
  }

  datatype Step =
    | Tick(ms: nat)
    | Admit(c: ClientId)
    | Send(c: ClientId, id: RequestId, payload: Json, timeout: nat)
    | Test(c: ClientId)
    | Poll(c: ClientId)
    | Acknowledge(c: ClientId)
    | Cancel(c: ClientId)
    | TimeOut(c: ClientId)
    | Vanish(c: ClientId)
    | Start
    | Recover
    | Purge(cutoff: nat)
    | MarkReady
    | Beat
    | MarkStopped
    | Select(w: WorkerId, id: RequestId)
    | Claim(w: WorkerId)
    | Complete(w: WorkerId, response: Response)
    | Crash

  predicate Enabled(s: State, step: Step)
  {
    match step
    case Tick(_) => true
    case Admit(c) => CanAdmit(s, c)
    case Send(c, id, _, _) => CanSend(s, c, id)
    case Test(c) => CanTest(s, c)
    case Poll(c) => CanPoll(s, c)
    case Acknowledge(c) => CanAcknowledge(s, c)
    case Cancel(c) => CanCancel(s, c)
    case TimeOut(c) => CanTimeOut(s, c)
    case Vanish(c) => CanVanish(s, c)
    case Start => s.phase.Down?
    case Recover => s.phase.Starting?
    case Purge(_) => !s.phase.Down?
    case MarkReady => s.phase.Up?
    case Beat => s.phase.Up? && s.heartbeat.ready
    case MarkStopped => s.phase.Up?
    case Select(w, id) => CanSelect(s, w, id)
    case Claim(w) => CanClaim(s, w)
    case Complete(w, _) => CanComplete(s, w)
    case Crash => true
  }

  function Do(s: State, step: Step): State
    requires Enabled(s, step)
  {
    match step
    case Tick(ms) => s.(now := s.now + ms)
    case Admit(c) => DoAdmit(s, c)
    case Send(c, id, payload, timeout) => DoSend(s, c, id, payload, timeout)
    case Test(c) => DoTest(s, c)
    case Poll(c) => DoPoll(s, c)
    case Acknowledge(c) => DoAcknowledge(s, c)
    case Cancel(c) => DoCancel(s, c)
    case TimeOut(c) => DoTimeOut(s, c)
    case Vanish(c) => DoVanish(s, c)
    case Start => s.(phase := Starting)
    case Recover => DoRecover(s)
    case Purge(cutoff) => DoPurge(s, cutoff)
    case MarkReady => s.(heartbeat := Heartbeat(true, s.now))
    case Beat => s.(heartbeat := Heartbeat(true, s.now))
    case MarkStopped => s.(heartbeat := Heartbeat(false, s.now))
    case Select(w, id) => DoSelect(s, w, id)
    case Claim(w) => DoClaim(s, w)
    case Complete(w, response) => DoComplete(s, w, response)
    case Crash => DoCrash(s)
  }

  predicate Init(s: State)
  {
    s.rows == map[] && s.phase.Down? && s.workers == map[] && s.clients == map[] && s.admitted == {}
    && s.sent == map[] && s.claims == map[] && s.produced == map[] && s.cancelled == {}
  }

  // ---------------------------------------------------------------------------
  // The invariant
  // ---------------------------------------------------------------------------

  /** Rows, workers and clients belong to requests that were sent, with the payload that was sent, and each
      request has one client. */
  ghost predicate PayloadsOk(s: State)
  {
    && (forall id :: id in s.rows ==> id in s.sent && s.rows[id].payload == s.sent[id].payload && !s.rows[id].acknowledged)
    && (forall w :: w in s.workers ==> s.workers[w].id in s.sent && s.workers[w].payload == s.sent[s.workers[w].id].payload)
    && (forall c :: c in s.clients ==> s.clients[c].id in s.sent && s.sent[s.clients[c].id] == Sent(s.clients[c].payload, c))
  }

  /** Each request is claimed at most once; a claimed request is not queued, a cancelled one not claimed. */
  ghost predicate ClaimsOk(s: State)
  {
    && (forall id :: id in s.claims ==> s.claims[id].times == 1)
    && (forall id :: id in s.claims ==> id in s.sent && id !in s.cancelled && !IsQueued(s, id))
    && (forall id :: id in s.produced ==> id in s.claims)
  }

  /** The worker that claimed a request is handling it. */
  predicate Handled(s: State, id: RequestId)
  {
    && id in s.claims && s.claims[id].worker in s.workers
    && s.workers[s.claims[id].worker].id == id && s.workers[s.claims[id].worker].handling
  }

  /** A handling worker owns a row in `processing`, alone; while the daemon is up every such row has its worker. */
  ghost predicate WorkersOk(s: State)
  {
    && (s.workers != map[] ==> s.phase.Up?)
    && (forall w :: w in s.workers && s.workers[w].handling ==>
          && s.workers[w].id in s.rows && s.rows[s.workers[w].id].status == Processing
          && s.workers[w].id in s.claims && s.claims[s.workers[w].id].worker == w
          && s.workers[w].id !in s.produced)
    && (forall id :: id in s.rows && s.rows[id].status == Processing ==> id in s.claims && (s.phase.Up? ==> Handled(s, id)))
  }

  /** The only answers a request can get: what its own handler produced, or, after it was claimed, the notice
      that its outcome is unknown. */
  predicate Legitimate(s: State, id: RequestId, r: Response)
  {
    (id in s.produced && s.produced[id] == r) || (r == RESTARTED && id in s.claims)
  }

  predicate ClientOk(s: State, c: Client)
  {
    match c.state
    case Waiting(_) => c.id !in s.cancelled
    case Answered(r) => Legitimate(s, c.id, r)
    case Returned(r) => Legitimate(s, c.id, r)
    case Unavailable(cancelled) => cancelled <==> c.id in s.cancelled
    case Vanished => true
  }

  /** Finished rows carry a legitimate answer unless they were cancelled. */
  ghost predicate AnswersOk(s: State)
  {
    && (forall id :: id in s.rows && Finished(s.rows[id].status) && id !in s.cancelled ==>
          s.rows[id].response.Some? && Legitimate(s, id, s.rows[id].response.value))
    && (forall id :: id in s.cancelled ==> id in s.sent && (id in s.rows ==> s.rows[id].status == ErrorStatus))
    && (forall c :: c in s.clients ==> ClientOk(s, s.clients[c]))
  }

  ghost predicate Inv(s: State)
  {
    PayloadsOk(s) && ClaimsOk(s) && WorkersOk(s) && AnswersOk(s)
  }

  lemma AdmitKeeps(s: State, c: ClientId)
    requires Inv(s) && CanAdmit(s, c)
    ensures Inv(DoAdmit(s, c))
  {
  }

  /** A client that only changes its own state, to one it may have, disturbs nobody. */
  lemma MovedKeeps(s: State, c: ClientId, state: ClientState)
    requires Inv(s) && c in s.clients && ClientOk(s, s.clients[c].(state := state))
    ensures Inv(s.(clients := Moved(s, c, state)))
  {
    var t := s.(clients := Moved(s, c, state));
    assert forall id, r :: Legitimate(t, id, r) <==> Legitimate(s, id, r);
    hide Legitimate;
    assert ClaimsOk(t) && WorkersOk(t);
  }

  lemma TestKeeps(s: State, c: ClientId)
    requires Inv(s) && CanTest(s, c)
    ensures Inv(DoTest(s, c))
  {
    assert ClientOk(s, s.clients[c]);
    hide Inv, Legitimate;
    MovedKeeps(s, c, DoTest(s, c).clients[c].state);
  }

  lemma PollKeeps(s: State, c: ClientId)
    requires Inv(s) && CanPoll(s, c)
    ensures Inv(DoPoll(s, c))
  {
    assert ClientOk(s, s.clients[c]);
    MovedKeeps(s, c, DoPoll(s, c).clients[c].state);
  }

  lemma AcknowledgeKeepsAnswers(s: State, c: ClientId)
    requires AnswersOk(s) && CanAcknowledge(s, c)
    ensures AnswersOk(DoAcknowledge(s, c))
  {
    assert ClientOk(s, s.clients[c]);
  }

  lemma AcknowledgeKeeps(s: State, c: ClientId)
    requires Inv(s) && CanAcknowledge(s, c)
    ensures Inv(DoAcknowledge(s, c))
  {
    AcknowledgeKeepsAnswers(s, c);
    hide AnswersOk;
  }

  lemma VanishKeeps(s: State, c: ClientId)
    requires Inv(s) && CanVanish(s, c)
    ensures Inv(DoVanish(s, c))
  {
    hide Inv;
    MovedKeeps(s, c, Vanished);
  }

  lemma RecoverKeeps(s: State)
    requires Inv(s) && s.phase.Starting?
    ensures Inv(DoRecover(s))
  {
  }

  lemma PurgeKeeps(s: State, cutoff: nat)
    requires Inv(s)
    ensures Inv(DoPurge(s, cutoff))
  {
  }

  lemma SelectKeeps(s: State, w: WorkerId, id: RequestId)
    requires Inv(s) && CanSelect(s, w, id)
    ensures Inv(DoSelect(s, w, id))
  {
  }

  lemma CrashKeeps(s: State)
    requires Inv(s)
    ensures Inv(DoCrash(s))
  {
  }

  lemma SendKeepsClaims(s: State, c: ClientId, id: RequestId, payload: Json, timeout: nat)
    requires Inv(s) && CanSend(s, c, id)
    ensures PayloadsOk(DoSend(s, c, id, payload, timeout)) && ClaimsOk(DoSend(s, c, id, payload, timeout))
  {
  }

  lemma SendKeepsWorkers(s: State, c: ClientId, id: RequestId, payload: Json, timeout: nat)
    requires PayloadsOk(s) && ClaimsOk(s) && WorkersOk(s) && CanSend(s, c, id)
    ensures WorkersOk(DoSend(s, c, id, payload, timeout))
  {
  }

  lemma SendKeepsAnswers(s: State, c: ClientId, id: RequestId, payload: Json, timeout: nat)
    requires PayloadsOk(s) && ClaimsOk(s) && AnswersOk(s) && CanSend(s, c, id)
    ensures AnswersOk(DoSend(s, c, id, payload, timeout))
  {
  }

  lemma CancelKeepsClaims(s: State, c: ClientId)
    requires PayloadsOk(s) && ClaimsOk(s) && CanCancel(s, c)
    ensures PayloadsOk(DoCancel(s, c)) && ClaimsOk(DoCancel(s, c))
  {
    CancelKeepsPayloads(s, c);
    hide PayloadsOk;
  }

  lemma CancelKeepsPayloads(s: State, c: ClientId)
    requires PayloadsOk(s) && CanCancel(s, c)
    ensures PayloadsOk(DoCancel(s, c))
  {
  }

  lemma CancelKeepsWorkers(s: State, c: ClientId)
    requires PayloadsOk(s) && ClaimsOk(s) && WorkersOk(s) && CanCancel(s, c)
    ensures WorkersOk(DoCancel(s, c))
  {
  }

  lemma LateCancelKeepsAnswers(s: State, c: ClientId)
    requires AnswersOk(s) && CanCancel(s, c) && !IsQueued(s, s.clients[c].id)
    ensures AnswersOk(DoCancel(s, c))
  {
    var t := DoCancel(s, c);
    assert ClientOk(s, s.clients[c]);
    assert forall id, r :: Legitimate(t, id, r) <==> Legitimate(s, id, r);
  }

  lemma CancelKeepsAnswers(s: State, c: ClientId)
    requires PayloadsOk(s) && ClaimsOk(s) && AnswersOk(s) && CanCancel(s, c)
    ensures AnswersOk(DoCancel(s, c))
  {
    if !IsQueued(s, s.clients[c].id) {
      hide AnswersOk, PayloadsOk, ClaimsOk;
      LateCancelKeepsAnswers(s, c);
    }
  }

  lemma TimeOutKeepsClaims(s: State, c: ClientId)
    requires Inv(s) && CanTimeOut(s, c)
    ensures PayloadsOk(DoTimeOut(s, c)) && ClaimsOk(DoTimeOut(s, c))
  {
  }

  lemma TimeOutKeepsWorkers(s: State, c: ClientId)
    requires PayloadsOk(s) && ClaimsOk(s) && WorkersOk(s) && CanTimeOut(s, c)
    ensures WorkersOk(DoTimeOut(s, c))
  {
  }

  lemma TimeOutKeepsAnswers(s: State, c: ClientId)
    requires PayloadsOk(s) && ClaimsOk(s) && AnswersOk(s) && CanTimeOut(s, c)
    ensures AnswersOk(DoTimeOut(s, c))
  {
  }

  lemma ClaimKeepsPayloads(s: State, w: WorkerId)
    requires PayloadsOk(s) && CanClaim(s, w)
    ensures PayloadsOk(DoClaim(s, w))
  {
  }

  lemma ClaimKeepsClaims(s: State, w: WorkerId)
    requires PayloadsOk(s) && ClaimsOk(s) && AnswersOk(s) && CanClaim(s, w)
    ensures ClaimsOk(DoClaim(s, w))
  {
  }

  /** Without a row to claim the worker goes idle again. */
  lemma LostClaimKeepsWorkers(s: State, w: WorkerId)
    requires WorkersOk(s) && CanClaim(s, w) && !IsQueued(s, s.workers[w].id)
    ensures WorkersOk(DoClaim(s, w))
  {
  }

  lemma WonClaimKeepsWorkers(s: State, w: WorkerId)
    requires ClaimsOk(s) && WorkersOk(s) && CanClaim(s, w) && IsQueued(s, s.workers[w].id)
    ensures WorkersOk(DoClaim(s, w))
  {
    var t, id := DoClaim(s, w), s.workers[w].id;
    assert id !in s.claims && id !in s.produced;
    assert forall k :: k in t.rows && k != id ==> t.rows[k] == s.rows[k];
    assert forall v :: v in t.workers && v != w ==> t.workers[v] == s.workers[v];
  }

  lemma ClaimKeepsWorkers(s: State, w: WorkerId)
    requires ClaimsOk(s) && WorkersOk(s) && CanClaim(s, w)
    ensures WorkersOk(DoClaim(s, w))
  {
    hide ClaimsOk, WorkersOk;
    if IsQueued(s, s.workers[w].id) {
      WonClaimKeepsWorkers(s, w);
    } else {
      LostClaimKeepsWorkers(s, w);
    }
  }

  lemma ClaimKeepsAnswers(s: State, w: WorkerId)
    requires PayloadsOk(s) && ClaimsOk(s) && AnswersOk(s) && CanClaim(s, w)
    ensures AnswersOk(DoClaim(s, w))
  {
  }

  lemma CompleteKeepsClaims(s: State, w: WorkerId, response: Response)
    requires Inv(s) && CanComplete(s, w)
    ensures PayloadsOk(DoComplete(s, w, response)) && ClaimsOk(DoComplete(s, w, response))
  {
  }

  lemma CompleteKeepsWorkers(s: State, w: WorkerId, response: Response)
    requires PayloadsOk(s) && ClaimsOk(s) && WorkersOk(s) && CanComplete(s, w)
    ensures WorkersOk(DoComplete(s, w, response))
  {
  }

  lemma CompleteKeepsAnswers(s: State, w: WorkerId, response: Response)
    requires ClaimsOk(s) && WorkersOk(s) && AnswersOk(s) && CanComplete(s, w)
    ensures AnswersOk(DoComplete(s, w, response))
  {
  }

  predicate ClientStep(step: Step)
  {
    step.Admit? || step.Send? || step.Test? || step.Poll? || step.Acknowledge? || step.Cancel? || step.TimeOut? || step.Vanish?
  }

  predicate WorkerStep(step: Step)
  {
    step.Select? || step.Claim? || step.Complete?
  }

  lemma ClientStepKeeps(s: State, step: Step)
    requires Inv(s) && Enabled(s, step) && ClientStep(step)
    ensures Inv(Do(s, step))
  {
    match step
    case Admit(c) => AdmitKeeps(s, c);
    case Test(c) => TestKeeps(s, c);
    case Send(c, id, payload, timeout) =>
      SendKeepsClaims(s, c, id, payload, timeout);
      SendKeepsWorkers(s, c, id, payload, timeout);
      SendKeepsAnswers(s, c, id, payload, timeout);
    case Cancel(c) =>
      CancelKeepsClaims(s, c);
      CancelKeepsWorkers(s, c);
      CancelKeepsAnswers(s, c);
    case TimeOut(c) =>
      TimeOutKeepsClaims(s, c);
      TimeOutKeepsWorkers(s, c);
      TimeOutKeepsAnswers(s, c);
    case Poll(c) => PollKeeps(s, c);
    case Acknowledge(c) => AcknowledgeKeeps(s, c);
    case Vanish(c) => VanishKeeps(s, c);
  }

  lemma WorkerStepKeeps(s: State, step: Step)
    requires Inv(s) && Enabled(s, step) && WorkerStep(step)
    ensures Inv(Do(s, step))
  {
    match step
    case Select(w, id) => SelectKeeps(s, w, id);
    case Claim(w) =>
      ClaimKeepsPayloads(s, w);
      ClaimKeepsClaims(s, w);
      ClaimKeepsWorkers(s, w);
      ClaimKeepsAnswers(s, w);
    case Complete(w, response) =>
      CompleteKeepsClaims(s, w, response);
      CompleteKeepsWorkers(s, w, response);
      CompleteKeepsAnswers(s, w, response);
  }

  /** Clock, heartbeat and a start attempt leave the tables alone. */
  lemma QuietKeeps(s: State, t: State)
    requires Inv(s) && t == s.(now := t.now, heartbeat := t.heartbeat, phase := t.phase)
    requires t.phase == s.phase || (s.phase.Down? && t.phase.Starting?)
    ensures Inv(t)
  {
  }

  lemma DaemonStepKeeps(s: State, step: Step)
    requires Inv(s) && Enabled(s, step) && !ClientStep(step) && !WorkerStep(step)
    ensures Inv(Do(s, step))
  {
    if step.Recover? {
      RecoverKeeps(s);
    } else if step.Purge? {
      PurgeKeeps(s, step.cutoff);
    } else if step.Crash? {
      CrashKeeps(s);
    } else {
      QuietKeeps(s, Do(s, step));
    }
  }

  lemma StepKeepsInv(s: State, step: Step)
    requires Inv(s) && Enabled(s, step)
    ensures Inv(Do(s, step))
  {
    if ClientStep(step) {
      ClientStepKeeps(s, step);
    } else if WorkerStep(step) {
      WorkerStepKeeps(s, step);
    } else {
      DaemonStepKeeps(s, step);
    }
  }

  // ---------------------------------------------------------------------------
  // Over every run
  // ---------------------------------------------------------------------------

  ghost predicate Run(ss: seq<State>, steps: seq<Step>)
  {
    && |ss| == |steps| + 1 && Init(ss[0])
    && forall i :: 0 <= i < |steps| ==> Enabled(ss[i], steps[i]) && ss[i + 1] == Do(ss[i], steps[i])
  }

  lemma {:induction false} RunInv(ss: seq<State>, steps: seq<Step>, n: nat)
    requires Run(ss, steps) && n <= |steps|
    ensures Inv(ss[n])
  {
    if n > 0 {
      RunInv(ss, steps, n - 1);
      StepKeepsInv(ss[n - 1], steps[n - 1]);
    }
  }

  /** A request is unsent, or its row has a status, or the row is gone. */
  datatype Place = Unsent | Row(status: Status) | Gone

  function PlaceOf(s: State, id: RequestId): Place
  {
    if id in s.rows then Place.Row(s.rows[id].status) else if id in s.sent then Gone else Unsent
  }

  /** The moves of the protocol: sent into the queue; claimed, which the record of claims shows, or withdrawn,
      which the set of cancelled requests shows; finished, well or with an error; deleted. */
  predicate Edge(s: State, t: State, id: RequestId)
  {
    match (PlaceOf(s, id), PlaceOf(t, id))
    case (Unsent, Row(Queued)) => id !in s.claims
    case (Row(Queued), Row(Processing)) => id !in s.claims && id in t.claims
    case (Row(Queued), Row(ErrorStatus)) => id !in s.cancelled && id in t.cancelled
    case (Row(Processing), Row(DoneStatus)) => id in t.produced && t.produced[id].ok
    case (Row(Processing), Row(ErrorStatus)) => (id in t.produced && !t.produced[id].ok) || s.phase.Starting?
    case (Row(DoneStatus), Gone) => true
    case (Row(ErrorStatus), Gone) => true
    case (p, q) => p == q
  }

  /** Where a request stands; a run only moves it forward. */
  function Progress(s: State, id: RequestId): nat
  {
    if id !in s.sent then 0
    else if id !in s.rows then 4
    else match s.rows[id].status
      case Queued => 1
      case Processing => 2
      case _ => 3
  }

  /** History only grows, a request only moves forward, and a finished row never changes any more. */
  predicate LaterAt(s: State, t: State, id: RequestId)
  {
    && (id in s.sent ==> id in t.sent && t.sent[id] == s.sent[id])
    && Progress(s, id) <= Progress(t, id)
    && (Progress(s, id) == 3 && id in t.rows ==> t.rows[id] == s.rows[id])
    && (id in s.claims ==> id in t.claims)
    && (id in s.produced ==> id in t.produced && t.produced[id] == s.produced[id])
    && (id in s.cancelled ==> id in t.cancelled)
  }

  ghost predicate Later(s: State, t: State)
  {
    forall id :: LaterAt(s, t, id)
  }

  lemma ClaimEdge(s: State, w: WorkerId, id: RequestId)
    requires Inv(s) && CanClaim(s, w)
    ensures Edge(s, DoClaim(s, w), id)
  {
  }

  lemma CompleteEdge(s: State, w: WorkerId, response: Response, id: RequestId)
    requires Inv(s) && CanComplete(s, w)
    ensures Edge(s, DoComplete(s, w, response), id)
  {
  }

  /** Steps that leave the table and the set of sent requests alone move nothing. */
  lemma QuietEdge(s: State, t: State, id: RequestId)
    requires t.rows == s.rows && t.sent == s.sent
    ensures Edge(s, t, id)
  {
  }

  lemma SendEdge(s: State, c: ClientId, request: RequestId, payload: Json, timeout: nat, id: RequestId)
    requires PayloadsOk(s) && ClaimsOk(s) && CanSend(s, c, request)
    ensures Edge(s, DoSend(s, c, request, payload, timeout), id)
  {
  }

  lemma AcknowledgeEdge(s: State, c: ClientId, id: RequestId)
    requires PayloadsOk(s) && CanAcknowledge(s, c)
    ensures Edge(s, DoAcknowledge(s, c), id)
  {
  }

  predicate Withdrawable(s: State, id: RequestId)
  {
    IsQueued(s, id) ==> id !in s.cancelled
  }

  lemma QueuedWithdrawable(s: State, id: RequestId)
    requires AnswersOk(s)
    ensures Withdrawable(s, id)
  {
  }

  lemma CancelEdge(s: State, c: ClientId, id: RequestId)
    requires Withdrawable(s, id) && CanCancel(s, c)
    ensures Edge(s, DoCancel(s, c), id)
  {
  }

  lemma TimeOutEdge(s: State, c: ClientId, id: RequestId)
    requires Withdrawable(s, id) && CanTimeOut(s, c)
    ensures Edge(s, DoTimeOut(s, c), id)
  {
  }

  lemma ClientStepEdge(s: State, step: Step, id: RequestId)
    requires Inv(s) && Enabled(s, step) && ClientStep(step)
    ensures Edge(s, Do(s, step), id)
  {
    hide PayloadsOk, ClaimsOk, WorkersOk, AnswersOk, Edge;
    QueuedWithdrawable(s, id);
    if step.Send? {
      SendEdge(s, step.c, step.id, step.payload, step.timeout, id);
    } else if step.Acknowledge? {
      AcknowledgeEdge(s, step.c, id);
    } else if step.Cancel? {
      CancelEdge(s, step.c, id);
    } else if step.TimeOut? {
      TimeOutEdge(s, step.c, id);
    } else {
      QuietEdge(s, Do(s, step), id);
    }
  }

  lemma RecoverEdge(s: State, id: RequestId)
    requires s.phase.Starting?
    ensures Edge(s, DoRecover(s), id)
  {
  }

  lemma PurgeEdge(s: State, cutoff: nat, id: RequestId)
    requires PayloadsOk(s)
    ensures Edge(s, DoPurge(s, cutoff), id)
  {
  }

  lemma OtherStepEdge(s: State, step: Step, id: RequestId)
    requires Inv(s) && Enabled(s, step) && !ClientStep(step) && !step.Claim? && !step.Complete?
    ensures Edge(s, Do(s, step), id)
  {
    hide PayloadsOk, ClaimsOk, WorkersOk, AnswersOk, Edge;
    if step.Recover? {
      RecoverEdge(s, id);
    } else if step.Purge? {
      PurgeEdge(s, step.cutoff, id);
    } else {
      QuietEdge(s, Do(s, step), id);
    }
  }

  /** No step takes a request along any other edge: a queued or processing row is never deleted, nothing
      queued is done before it was claimed, and a finished row is only ever deleted. */
  lemma StepEdge(s: State, step: Step, id: RequestId)
    requires Inv(s) && Enabled(s, step)
    ensures Edge(s, Do(s, step), id)
  {
    hide Edge, PayloadsOk, ClaimsOk, WorkersOk, AnswersOk;
    if step.Claim? {
      ClaimEdge(s, step.w, id);
    } else if step.Complete? {
      CompleteEdge(s, step.w, step.response, id);
    } else if ClientStep(step) {
      ClientStepEdge(s, step, id);
    } else {
      OtherStepEdge(s, step, id);
    }
  }

  lemma ClaimLater(s: State, w: WorkerId, id: RequestId)
    requires Inv(s) && CanClaim(s, w)
    ensures LaterAt(s, DoClaim(s, w), id)
  {
  }

  lemma CompleteLater(s: State, w: WorkerId, response: Response, id: RequestId)
    requires Inv(s) && CanComplete(s, w)
    ensures LaterAt(s, DoComplete(s, w, response), id)
  {
  }

  lemma SendLater(s: State, c: ClientId, request: RequestId, payload: Json, timeout: nat, id: RequestId)
    requires PayloadsOk(s) && CanSend(s, c, request)
    ensures LaterAt(s, DoSend(s, c, request, payload, timeout), id)
  {
  }

  lemma WithdrawLater(s: State, step: Step, id: RequestId)
    requires Enabled(s, step) && (step.Cancel? || step.TimeOut?)
    ensures LaterAt(s, Do(s, step), id)
  {
  }

  lemma AcknowledgeLater(s: State, c: ClientId, id: RequestId)
    requires PayloadsOk(s) && CanAcknowledge(s, c)
    ensures LaterAt(s, DoAcknowledge(s, c), id)
  {
  }

  lemma QuietLater(s: State, t: State, id: RequestId)
    requires t.rows == s.rows && t.sent == s.sent && t.claims == s.claims && t.produced == s.produced
    requires t.cancelled == s.cancelled
    ensures LaterAt(s, t, id)
  {
  }

  lemma ClientStepLater(s: State, step: Step, id: RequestId)
    requires PayloadsOk(s) && Enabled(s, step) && ClientStep(step)
    ensures LaterAt(s, Do(s, step), id)
  {
    hide PayloadsOk, LaterAt;
    if step.Send? {
      SendLater(s, step.c, step.id, step.payload, step.timeout, id);
    } else if step.Acknowledge? {
      AcknowledgeLater(s, step.c, id);
    } else if step.Cancel? || step.TimeOut? {
      WithdrawLater(s, step, id);
    } else {
      QuietLater(s, Do(s, step), id);
    }
  }

  lemma OtherStepLater(s: State, step: Step, id: RequestId)
    requires PayloadsOk(s) && Enabled(s, step) && !ClientStep(step) && !step.Claim? && !step.Complete?
    ensures LaterAt(s, Do(s, step), id)
  {
  }

  lemma StepLater(s: State, step: Step)
    requires Inv(s) && Enabled(s, step)
    ensures Later(s, Do(s, step))
  {
    var t := Do(s, step);
    forall id: RequestId ensures LaterAt(s, t, id) {
      hide Enabled, LaterAt, PayloadsOk, ClaimsOk, WorkersOk, AnswersOk;
      if step.Claim? {
        ClaimLater(s, step.w, id);
      } else if step.Complete? {
        CompleteLater(s, step.w, step.response, id);
      } else if ClientStep(step) {
        ClientStepLater(s, step, id);
      } else {
        OtherStepLater(s, step, id);
      }
    }
  }

  lemma LaterTransitive(s: State, t: State, u: State)
    requires Later(s, t) && Later(t, u)
    ensures Later(s, u)
  {
    forall id ensures LaterAt(s, u, id) {
      assert LaterAt(s, t, id) && LaterAt(t, u, id);
    }
  }

  lemma SameLater(s: State)
    ensures Later(s, s)
  {
  }

  lemma RunStepLater(ss: seq<State>, steps: seq<Step>, n: nat)
    requires Run(ss, steps) && n < |steps|
    ensures Later(ss[n], ss[n + 1])
  {
    hide Inv, LaterAt, Init, Later, Do, Enabled;
    RunInv(ss, steps, n);
    StepLater(ss[n], steps[n]);
  }

  lemma {:induction false} RunLater(ss: seq<State>, steps: seq<Step>, m: nat, n: nat)
    requires Run(ss, steps) && m <= n <= |steps|
    ensures Later(ss[m], ss[n])
    decreases n
  {
    hide Later, Do, Enabled, Init;
    if m < n {
      RunLater(ss, steps, m, n - 1);
      RunStepLater(ss, steps, n - 1);
      LaterTransitive(ss[m], ss[n - 1], ss[n]);
    } else {
      SameLater(ss[m]);
    }
  }

  ghost predicate AlongEdges(s: State, t: State)
  {
    forall id :: Edge(s, t, id)
  }

  ghost predicate StepsAlongEdges(ss: seq<State>, i: nat)
    requires i + 1 < |ss|
  {
    AlongEdges(ss[i], ss[i + 1])
  }

  lemma RunEdge(ss: seq<State>, steps: seq<Step>, i: nat)
    requires Run(ss, steps) && i < |steps|
    ensures StepsAlongEdges(ss, i)
  {
    hide Edge, Inv, Init, Enabled, Do;
    RunInv(ss, steps, i);
    var s, t := ss[i], ss[i + 1];
    forall id: RequestId ensures Edge(s, t, id) {
      StepEdge(s, steps[i], id);
    }
  }

  /** Safety of the mailbox over every interleaving of clients, workers, cancels, purges, crashes and restarts:
      every step takes each request along an edge of the protocol or leaves it where it is, a request only
      moves forward, its finished answer is never overwritten, and its handler runs at most
      once, on the payload that was sent. */
  lemma MailboxSafe(ss: seq<State>, steps: seq<Step>, m: nat, n: nat)
    requires Run(ss, steps) && m <= n <= |steps|
    ensures Later(ss[m], ss[n])
    ensures forall i :: 0 <= i < |steps| ==> StepsAlongEdges(ss, i)
    ensures forall id :: id in ss[n].claims ==> ss[n].claims[id].times == 1 && id in ss[n].sent
    ensures forall w :: w in ss[n].workers ==>
              var worker := ss[n].workers[w];
              worker.id in ss[n].sent && worker.payload == ss[n].sent[worker.id].payload
  {
    RunLater(ss, steps, m, n);
    forall i | 0 <= i < |steps| ensures StepsAlongEdges(ss, i) {
      RunEdge(ss, steps, i);
    }
    RunInv(ss, steps, n);
  }

  /** A client that was told its request was cancelled can rely on it: the handler has not run and never will. */
  lemma CancelledNeverRuns(ss: seq<State>, steps: seq<Step>, m: nat, n: nat, c: ClientId)
    requires Run(ss, steps) && m <= n <= |steps|
    requires c in ss[m].clients && ss[m].clients[c].state == Unavailable(true)
    ensures ss[m].clients[c].id !in ss[n].claims && ss[m].clients[c].id !in ss[n].produced
  {
    RunInv(ss, steps, m);
    RunLater(ss, steps, m, n);
    RunInv(ss, steps, n);
    assert ClientOk(ss[m], ss[m].clients[c]);
    assert LaterAt(ss[m], ss[n], ss[m].clients[c].id);
  }

  /** A client only receives the answer its own payload produced, or the notice that the daemon restarted
      after claiming it; no other client ever shares its request. */
  lemma OwnAnswerOnly(ss: seq<State>, steps: seq<Step>, n: nat, c: ClientId)
    requires Run(ss, steps) && n <= |steps| && c in ss[n].clients && ss[n].clients[c].state.Returned?
    ensures var cl := ss[n].clients[c];
            && cl.id in ss[n].sent && ss[n].sent[cl.id] == Sent(cl.payload, c) && cl.id in ss[n].claims
            && ((cl.id in ss[n].produced && ss[n].produced[cl.id] == cl.state.response) || cl.state.response == RESTARTED)
    ensures forall d :: d in ss[n].clients && d != c ==> ss[n].clients[d].id != ss[n].clients[c].id
  {
    RunInv(ss, steps, n);
    assert ClientOk(ss[n], ss[n].clients[c]);
  }

  /** While the daemon is up no request is stuck in `processing`: its handler is running, in exactly one worker. */
  lemma ProcessingIsHandled(ss: seq<State>, steps: seq<Step>, n: nat, id: RequestId)
    requires Run(ss, steps) && n <= |steps| && ss[n].phase.Up?
    requires id in ss[n].rows && ss[n].rows[id].status == Processing
    ensures Handled(ss[n], id) && ss[n].workers[ss[n].claims[id].worker].payload == ss[n].rows[id].payload
    ensures forall w :: w in ss[n].workers && ss[n].workers[w].handling && ss[n].workers[w].id == id
              ==> w == ss[n].claims[id].worker
  {
    RunInv(ss, steps, n);
  }

  // ---------------------------------------------------------------------------
  // First sent, first picked up
  // ---------------------------------------------------------------------------

  /** The step sends the request. */
  predicate Sends(step: Step, id: RequestId)
  {
    step.Send? && step.id == id
  }

  /** A row keeps the time it was created and the version it was sent with. */
  lemma RowsKeepBirth(s: State, step: Step, id: RequestId)
    requires Enabled(s, step) && id in Do(s, step).rows && id !in s.rows
    ensures Sends(step, id) && Do(s, step).rows[id].createdAt == s.now && Do(s, step).rows[id].version == PROTOCOL_VERSION
  {
    hide Ready, ResponseOf, IsNext;
  }

  lemma RowsKeepTheirs(s: State, step: Step, id: RequestId)
    requires Enabled(s, step) && id in Do(s, step).rows && id in s.rows
    ensures Do(s, step).rows[id].createdAt == s.rows[id].createdAt && Do(s, step).rows[id].version == s.rows[id].version
  {
    hide Ready, ResponseOf, IsNext;
  }

  /** Every row was created by the step that sent it, at the time of that step. */
  lemma {:induction false} CreatedWhenSent(ss: seq<State>, steps: seq<Step>, n: nat, id: RequestId) returns (j: nat)
    requires Run(ss, steps) && n <= |steps| && id in ss[n].rows
    ensures j < n && Sends(steps[j], id) && ss[n].rows[id].createdAt == ss[j].now && ss[n].rows[id].version == PROTOCOL_VERSION
  {
    hide Do, Enabled, Sends;
    NoRowsAtFirst(ss, steps);
    if id in ss[n - 1].rows {
      j := CreatedWhenSent(ss, steps, n - 1, id);
      RowsKeepTheirs(ss[n - 1], steps[n - 1], id);
    } else {
      RowsKeepBirth(ss[n - 1], steps[n - 1], id);
      j := n - 1;
    }
  }

  lemma NoRowsAtFirst(ss: seq<State>, steps: seq<Step>)
    requires Run(ss, steps)
    ensures ss[0].rows == map[]
  {
  }

  /** A worker never passes over a request for one that was sent later: at the time it picks a row up, every
      request that is waiting was sent no earlier. */
  lemma FirstSentFirst(ss: seq<State>, steps: seq<Step>, i: nat, id: RequestId, other: RequestId) returns (a: nat, b: nat)
    requires Run(ss, steps) && i < |steps| && steps[i].Select? && steps[i].id == id && IsQueued(ss[i], other)
    ensures a < i && Sends(steps[a], id) && b < i && Sends(steps[b], other) && ss[a].now <= ss[b].now
  {
    hide Do, Sends;
    a := CreatedWhenSent(ss, steps, i, id);
    b := CreatedWhenSent(ss, steps, i, other);
  }
}
