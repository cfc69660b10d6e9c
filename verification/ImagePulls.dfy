/** The table of background image pulls: src/sek8s/sek8s/system_manager/images/manager.py. */
module ImagePulls {
  import opened Text
  import opened OrderedDict

  // ---------------------------------------------------------------------------
  // The state machine
  // ---------------------------------------------------------------------------

  /** How far the coroutine of a pull has come: not yet scheduled, awaiting cosign, awaiting the pull. */
  datatype Stage = Created | Verifying | Pulling

  datatype Pull = Pull(ref: string, stage: Stage)

  datatype Result = Completed | Failed(error: string)

  /** The two dictionaries, the unfinished coroutines by task, and the number of tasks made so far. A task
      in `tasks` is done when it is no longer in `live`. */
  datatype State = State(tasks: Dict<nat>, results: Dict<Result>, live: map<nat, Pull>, made: nat)

  const IDLE: State := State(Dict([], map[]), Dict([], map[]), map[], 0)

  datatype VerifyAnswer = Verified(ok: bool) | VerifyTimeout | VerifyError(message: string)

  datatype PullAnswer = Exit(code: int, out: string, err: string) | PullTimeout | PullError(message: string)

  /** A start call with an allowed reference, once the image list has arrived, or one step of a coroutine. */
  datatype Event =
    | Start(ref: string, listed: bool)
    | Begin(id: nat)
    | VerifyDone(id: nat, verified: VerifyAnswer)
    | PullDone(id: nat, pulled: PullAnswer)
    | Cancel(id: nat)

  datatype Reply = Present | InProgressAlready | Started

  const UNSIGNED := "Cosign verification failed: image is not signed or signature invalid"

  function TimedOut(timeout: string): Result {
    Failed("Pull timed out after " + timeout + "s")
  }

  function PullResult(a: PullAnswer, timeout: string): Result {
    match a
    case Exit(code, out, err) =>
      if code == 0 then Completed
      else if err != "" then Failed(err)
      else if out != "" then Failed(out)
      else Failed("Pull failed with exit code " + IntText(code))
    case PullTimeout => TimedOut(timeout)
    case PullError(message) => Failed(message)
  }

  predicate InFlight(s: State, ref: string) {
    ref in s.tasks.at && s.tasks.at[ref] in s.live
  }

  function ReplyTo(s: State, ref: string, listed: bool): Reply {
    if listed then Present
    else if InFlight(s, ref) then InProgressAlready
    else if ref in s.results.at && s.results.at[ref].Completed? then Present
    else Started
  }

  function Launch(s: State, ref: string): State {
    State(Put(s.tasks, ref, s.made), if ref in s.results.at then Pop(s.results, ref) else s.results,
          s.live[s.made := Pull(ref, Created)], s.made + 1)
  }

  function Advance(s: State, id: nat, stage: Stage): State
    requires id in s.live
  {
    s.(live := s.live[id := s.live[id].(stage := stage)])
  }

  /** The coroutine ends: it may store a result, and always removes its reference from the table. */
  function Finish(s: State, id: nat, result: Option<Result>): State
    requires id in s.live
  {
    var ref := s.live[id].ref;
    State(Pop(s.tasks, ref), if result.Some? then Put(s.results, ref, result.value) else s.results,
          s.live - {id}, s.made)
  }

  function Next(s: State, e: Event, timeout: string): State {
    match e
    case Start(ref, listed) => if ReplyTo(s, ref, listed) == Started then Launch(s, ref) else s
    case Begin(id) => if id in s.live && s.live[id].stage == Created then Advance(s, id, Verifying) else s
    case VerifyDone(id, a) =>
      if id !in s.live || s.live[id].stage != Verifying then s
      else (match a
            case Verified(ok) => if ok then Advance(s, id, Pulling) else Finish(s, id, Some(Failed(UNSIGNED)))
            case VerifyTimeout => Finish(s, id, Some(TimedOut(timeout)))
            case VerifyError(message) => Finish(s, id, Some(Failed(message))))
    case PullDone(id, a) =>
      if id !in s.live || s.live[id].stage != Pulling then s else Finish(s, id, Some(PullResult(a, timeout)))
    case Cancel(id) =>
      if id !in s.live then s
      else if s.live[id].stage == Created then s.(live := s.live - {id})
      else Finish(s, id, None)
  }

  // ---------------------------------------------------------------------------
  // The invariant
  // ---------------------------------------------------------------------------

  /** Task numbers are used once. */
  ghost predicate Numbered(s: State) {
    && (forall id :: id in s.live ==> id < s.made)
    && (forall r :: r in s.tasks.at ==> s.tasks.at[r] < s.made)
  }

  /** Every unfinished pull is the table's entry for its own reference, which has no result. */
  ghost predicate Linked(s: State) {
    && (forall id :: id in s.live ==> s.live[id].ref in s.tasks.at && s.tasks.at[s.live[id].ref] == id)
    && (forall r :: InFlight(s, r) ==> s.live[s.tasks.at[r]].ref == r)
    && (forall id :: id in s.live ==> s.live[id].ref !in s.results.at)
  }

  ghost predicate Inv(s: State) {
    s.tasks.Valid() && s.results.Valid() && Numbered(s) && Linked(s)
  }

  lemma LaunchLinks(s: State, ref: string)
    requires Numbered(s) && Linked(s) && !InFlight(s, ref)
    ensures Linked(Launch(s, ref))
  {
    assert forall id :: id in s.live ==> s.live[id].ref != ref;
    assert forall r :: r != ref && InFlight(Launch(s, ref), r) ==> InFlight(s, r);
  }

  lemma LaunchKeepsInv(s: State, ref: string)
    requires Inv(s) && !InFlight(s, ref)
    ensures Inv(Launch(s, ref))
  {
    LaunchLinks(s, ref);
  }

  lemma FinishKeepsInv(s: State, id: nat, result: Option<Result>)
    requires Inv(s) && id in s.live
    ensures Inv(Finish(s, id, result))
  {
    assert forall i :: i in s.live && i != id ==> s.live[i].ref != s.live[id].ref;
    assert forall r :: InFlight(Finish(s, id, result), r) ==> InFlight(s, r);
  }

  lemma AdvanceKeepsInv(s: State, id: nat, stage: Stage)
    requires Inv(s) && id in s.live
    ensures Inv(Advance(s, id, stage))
  {
    var t := Advance(s, id, stage);
    assert forall i :: i in t.live ==> i in s.live && t.live[i].ref == s.live[i].ref;
    assert forall r :: InFlight(t, r) ==> InFlight(s, r);
  }

  lemma DropKeepsInv(s: State, id: nat)
    requires Inv(s) && id in s.live
    ensures Inv(s.(live := s.live - {id}))
  {
    var t := s.(live := s.live - {id});
    assert forall r :: InFlight(t, r) ==> InFlight(s, r);
  }

  lemma VerifyKeepsInv(s: State, id: nat, a: VerifyAnswer, timeout: string)
    requires Inv(s)
    ensures Inv(Next(s, VerifyDone(id, a), timeout))
  {
    if id in s.live && s.live[id].stage == Verifying {
      match a
      case Verified(ok) =>
        AdvanceKeepsInv(s, id, Pulling);
        FinishKeepsInv(s, id, Some(Failed(UNSIGNED)));
      case VerifyTimeout => FinishKeepsInv(s, id, Some(TimedOut(timeout)));
      case VerifyError(message) => FinishKeepsInv(s, id, Some(Failed(message)));
    }
  }

  lemma PullKeepsInv(s: State, id: nat, a: PullAnswer, timeout: string)
    requires Inv(s)
    ensures Inv(Next(s, PullDone(id, a), timeout))
  {
    if id in s.live {
      FinishKeepsInv(s, id, Some(PullResult(a, timeout)));
    }
  }

  lemma CancelKeepsInv(s: State, id: nat, timeout: string)
    requires Inv(s)
    ensures Inv(Next(s, Cancel(id), timeout))
  {
    if id in s.live {
      DropKeepsInv(s, id);
      FinishKeepsInv(s, id, None);
    }
  }

  lemma StepKeepsInv(s: State, e: Event, timeout: string)
    requires Inv(s)
    ensures Inv(Next(s, e, timeout))
  {
    match e
    case Start(ref, listed) => if ReplyTo(s, ref, listed) == Started { LaunchKeepsInv(s, ref); }
    case Begin(id) => if id in s.live { AdvanceKeepsInv(s, id, Verifying); }
    case VerifyDone(id, a) => VerifyKeepsInv(s, id, a, timeout);
    case PullDone(id, a) => PullKeepsInv(s, id, a, timeout);
    case Cancel(id) => CancelKeepsInv(s, id, timeout);
  }

  // ---------------------------------------------------------------------------
  // Runs
  // ---------------------------------------------------------------------------

  ghost predicate Trace(states: seq<State>, events: seq<Event>, timeout: string) {
    && |states| == |events| + 1 && states[0] == IDLE
    && forall i :: 0 <= i < |events| ==> states[i + 1] == Next(states[i], events[i], timeout)
  }

  lemma {:induction false} RunKeepsInv(states: seq<State>, events: seq<Event>, timeout: string, n: nat)
    requires Trace(states, events, timeout) && n < |states|
    ensures Inv(states[n])
  {
    if n > 0 {
      RunKeepsInv(states, events, timeout, n - 1);
      StepKeepsInv(states[n - 1], events[n - 1], timeout);
    }
  }

  /** In every run at most one pull of a reference is in flight, it is the one the table knows, and the
      reference has no stored result. */
  lemma OnePullPerReference(states: seq<State>, events: seq<Event>, timeout: string, n: nat, a: nat, b: nat)
    requires Trace(states, events, timeout) && n < |states|
    requires a in states[n].live && b in states[n].live && states[n].live[a].ref == states[n].live[b].ref
    ensures a == b && InFlight(states[n], states[n].live[a].ref) && states[n].live[a].ref !in states[n].results.at
  {
    RunKeepsInv(states, events, timeout, n);
  }

  /** The start call that made pull `id` of `ref`, at step `i`. */
  ghost predicate StartedAt(states: seq<State>, events: seq<Event>, i: nat, id: nat, ref: string) {
    i < |events| && i < |states| && events[i] == Start(ref, false) && states[i].made == id
    && ReplyTo(states[i], ref, false) == Started
  }

  ghost predicate VerifiedAt(states: seq<State>, events: seq<Event>, i: nat, id: nat, ref: string) {
    i < |events| && i < |states| && events[i] == VerifyDone(id, Verified(true))
    && id in states[i].live && states[i].live[id] == Pull(ref, Verifying)
  }

  ghost predicate PulledAt(states: seq<State>, events: seq<Event>, i: nat, id: nat, ref: string) {
    i < |events| && i < |states| && events[i].PullDone? && events[i].id == id
    && events[i].pulled.Exit? && events[i].pulled.code == 0
    && id in states[i].live && states[i].live[id] == Pull(ref, Pulling)
  }

  lemma StepLive(s: State, e: Event, timeout: string, id: nat)
    requires Inv(s) && id in Next(s, e, timeout).live
    ensures var ref := Next(s, e, timeout).live[id].ref;
            if id in s.live then s.live[id].ref == ref
            else e == Start(ref, false) && ReplyTo(s, ref, false) == Started && id == s.made
  {
  }

  lemma StepPulling(s: State, e: Event, timeout: string, id: nat)
    requires Inv(s) && id in Next(s, e, timeout).live && Next(s, e, timeout).live[id].stage == Pulling
    ensures id in s.live && s.live[id].ref == Next(s, e, timeout).live[id].ref
    ensures s.live[id].stage == Pulling || (s.live[id].stage == Verifying && e == VerifyDone(id, Verified(true)))
  {
  }

  lemma {:induction false} LiveStarted(states: seq<State>, events: seq<Event>, timeout: string, n: nat, id: nat)
    returns (i: nat)
    requires Trace(states, events, timeout) && n < |states| && id in states[n].live
    ensures i < n && StartedAt(states, events, i, id, states[n].live[id].ref)
  {
    RunKeepsInv(states, events, timeout, n - 1);
    StepLive(states[n - 1], events[n - 1], timeout, id);
    if id in states[n - 1].live {
      i := LiveStarted(states, events, timeout, n - 1, id);
    } else {
      i := n - 1;
    }
  }

  lemma {:induction false} PullingVerified(states: seq<State>, events: seq<Event>, timeout: string, n: nat, id: nat)
    returns (i: nat)
    requires Trace(states, events, timeout) && n < |states| && id in states[n].live
             && states[n].live[id].stage == Pulling
    ensures i < n && VerifiedAt(states, events, i, id, states[n].live[id].ref)
  {
    RunKeepsInv(states, events, timeout, n - 1);
    StepPulling(states[n - 1], events[n - 1], timeout, id);
    if states[n - 1].live[id].stage == Pulling {
      i := PullingVerified(states, events, timeout, n - 1, id);
    } else {
      i := n - 1;
    }
  }

  predicate IsCompleted(s: State, ref: string) {
    ref in s.results.at && s.results.at[ref] == Completed
  }

  lemma StepCompleted(s: State, e: Event, timeout: string, ref: string)
    requires IsCompleted(Next(s, e, timeout), ref)
    ensures IsCompleted(s, ref)
         || (&& e.PullDone? && e.pulled.Exit? && e.pulled.code == 0
             && e.id in s.live && s.live[e.id] == Pull(ref, Pulling))
  {
  }

  /** Every completed result follows, in one and the same pull task of that reference, a start, a
      successful verification and a successful pull, in this order. */
  lemma {:induction false} CompletedIsBacked(states: seq<State>, events: seq<Event>, timeout: string, n: nat,
                                             ref: string)
    returns (id: nat, i: nat, j: nat, k: nat)
    requires Trace(states, events, timeout) && n < |states| && IsCompleted(states[n], ref)
    ensures i < j < k < n
    ensures StartedAt(states, events, i, id, ref)
    ensures VerifiedAt(states, events, j, id, ref)
    ensures PulledAt(states, events, k, id, ref)
  {
    StepCompleted(states[n - 1], events[n - 1], timeout, ref);
    if IsCompleted(states[n - 1], ref) {
      id, i, j, k := CompletedIsBacked(states, events, timeout, n - 1, ref);
    } else {
      k, id := n - 1, events[n - 1].id;
      j := PullingVerified(states, events, timeout, k, id);
      i := LiveStarted(states, events, timeout, j, id);
    }
  }

  lemma StepKeepsCompleted(s: State, e: Event, timeout: string, ref: string)
    requires Inv(s) && IsCompleted(s, ref)
    ensures IsCompleted(Next(s, e, timeout), ref)
  {
  }

  /** A completed result is final: whatever happens later, also a removal of the image, the reference is
      never pulled again and start calls answer that it is present. */
  lemma {:induction false} CompletedIsFinal(states: seq<State>, events: seq<Event>, timeout: string, n: nat, later: nat,
                                            ref: string, listed: bool)
    requires Trace(states, events, timeout) && n <= later < |states| && IsCompleted(states[n], ref)
    ensures IsCompleted(states[later], ref) && !InFlight(states[later], ref)
    ensures ReplyTo(states[later], ref, listed) == Present
  {
    if n < later {
      CompletedIsFinal(states, events, timeout, n, later - 1, ref, listed);
      RunKeepsInv(states, events, timeout, later - 1);
      StepKeepsCompleted(states[later - 1], events[later - 1], timeout, ref);
    }
    RunKeepsInv(states, events, timeout, later);
    NotInFlight(states[later], ref);
  }

  lemma StepPulled(states: seq<State>, events: seq<Event>, timeout: string, k: nat, id: nat, ref: string)
    requires Trace(states, events, timeout) && PulledAt(states, events, k, id, ref)
    ensures IsCompleted(states[k + 1], ref)
  {
    assert states[k + 1] == Next(states[k], events[k], timeout);
  }

  ghost predicate EverPulled(states: seq<State>, events: seq<Event>, n: nat, ref: string) {
    exists k: nat, id :: k < n && PulledAt(states, events, k, id, ref)
  }

  /** Exactly when a start call answers that an unlisted image is present: at any earlier point of the run
      a pull of the reference succeeded, whether or not the image is still there. */
  lemma PresentIff(states: seq<State>, events: seq<Event>, timeout: string, n: nat, ref: string)
    requires Trace(states, events, timeout) && n < |states|
    ensures ReplyTo(states[n], ref, false) == Present <==> EverPulled(states, events, n, ref)
  {
    if IsCompleted(states[n], ref) {
      var id, i, j, k := CompletedIsBacked(states, events, timeout, n, ref);
    }
    if EverPulled(states, events, n, ref) {
      var k: nat, id :| k < n && PulledAt(states, events, k, id, ref);
      StepPulled(states, events, timeout, k, id, ref);
      CompletedIsFinal(states, events, timeout, k + 1, n, ref, false);
    }
  }

  /** A pull of any reference from the start; the image is then removed, so that no list shows it, and the
      next start call still answers that it is present. */
  lemma RemovedStaysPresent(ref: string, timeout: string)
    ensures var s := Next(Next(IDLE, Start(ref, false), timeout), Begin(0), timeout);
            var done := Next(Next(s, VerifyDone(0, Verified(true)), timeout), PullDone(0, Exit(0, "", "")), timeout);
            ReplyTo(IDLE, ref, false) == Started && ReplyTo(done, ref, false) == Present
  {
    var s := Next(Next(IDLE, Start(ref, false), timeout), Begin(0), timeout);
    assert s.live == map[0 := Pull(ref, Verifying)];
    var pulling := Next(s, VerifyDone(0, Verified(true)), timeout);
    assert pulling.live == map[0 := Pull(ref, Pulling)];
  }

  // ---------------------------------------------------------------------------
  // Status
  // ---------------------------------------------------------------------------

  datatype Status = InProgress | Stored(result: Result) | Pending

  datatype Snapshot = Snapshot(ref: string, status: Status)

  function StatusOf(s: State, ref: string): Status {
    if InFlight(s, ref) then InProgress
    else if ref in s.results.at then Stored(s.results.at[ref])
    else Pending
  }

  /** No reference twice, each with the status it has on its own. */
  ghost predicate Right(s: State, list: seq<Snapshot>) {
    && (forall i, j :: 0 <= i < j < |list| ==> list[i].ref != list[j].ref)
    && (forall i :: 0 <= i < |list| ==> list[i].status == StatusOf(s, list[i].ref) && list[i].status != Pending)
  }

  /** A status list that tells of every reference exactly what asking for it alone tells. */
  ghost predicate Agrees(s: State, list: seq<Snapshot>) {
    && Right(s, list)
    && (forall ref :: StatusOf(s, ref) != Pending ==> Mentions(list, ref))
  }

  ghost predicate Mentions(list: seq<Snapshot>, ref: string) {
    exists i :: 0 <= i < |list| && list[i].ref == ref
  }

  lemma MentionsAppend(list: seq<Snapshot>, x: Snapshot, ref: string)
    ensures Mentions(list + [x], ref) <==> Mentions(list, ref) || x.ref == ref
  {
    var l := list + [x];
    assert l[|list|] == x;
    assert forall i :: 0 <= i < |list| ==> l[i] == list[i];
  }

  lemma RightAppend(s: State, list: seq<Snapshot>, x: Snapshot)
    requires Right(s, list) && !Mentions(list, x.ref) && x.status == StatusOf(s, x.ref) && x.status != Pending
    ensures Right(s, list + [x])
  {
    assert forall i :: 0 <= i < |list| ==> list[i].ref != x.ref;
  }

  /** The list after some of the tasks and results: right, and complete so far. */
  ghost predicate Partial(s: State, list: seq<Snapshot>, tasks: seq<string>, results: seq<string>) {
    && Right(s, list)
    && (forall ref :: Mentions(list, ref) <==> (ref in tasks && InFlight(s, ref)) || ref in results)
  }

  lemma PartialTask(s: State, list: seq<Snapshot>, keys: seq<string>, k: string)
    requires Inv(s) && Partial(s, list, keys, []) && k !in keys
    ensures Partial(s, if InFlight(s, k) then list + [Snapshot(k, InProgress)] else list, keys + [k], [])
  {
    if InFlight(s, k) {
      RightAppend(s, list, Snapshot(k, InProgress));
      forall ref { MentionsAppend(list, Snapshot(k, InProgress), ref); }
    }
  }

  lemma PartialResult(s: State, list: seq<Snapshot>, tasks: seq<string>, keys: seq<string>, k: string)
    requires Inv(s) && Partial(s, list, tasks, keys) && k !in keys && k in s.results.at
    requires forall r :: InFlight(s, r) ==> r in tasks
    ensures Partial(s, list + [Snapshot(k, Stored(s.results.at[k]))], tasks, keys + [k])
  {
    var x := Snapshot(k, Stored(s.results.at[k]));
    NotInFlight(s, k);
    RightAppend(s, list, x);
    forall ref { MentionsAppend(list, x, ref); }
  }

  lemma NotInFlight(s: State, k: string)
    requires Inv(s) && k in s.results.at
    ensures !InFlight(s, k)
  {
  }

  // ---------------------------------------------------------------------------
  // The status is the latest news
  // ---------------------------------------------------------------------------

  ghost function FirstNonEmpty(texts: seq<string>): string {
    if texts == [] then "" else if texts[0] != "" then texts[0] else FirstNonEmpty(texts[1..])
  }

  /** A failed pull is explained by the first text there is: the error output, the output, the exit code. */
  ghost function Explanation(code: int, out: string, err: string): string {
    FirstNonEmpty([err, out, "Pull failed with exit code " + IntText(code)])
  }

  lemma ResultOfPull(code: int, out: string, err: string, timeout: string)
    ensures PullResult(Exit(code, out, err), timeout)
         == if code == 0 then Completed else Failed(Explanation(code, out, err))
  {
    var last := "Pull failed with exit code " + IntText(code);
    FirstOf(err, [out, last]);
    FirstOf(out, [last]);
    FirstOf(last, []);
    assert [err] + [out, last] == [err, out, last] && [out] + [last] == [out, last] && [last] + [] == [last];
  }

  lemma FirstOf(x: string, rest: seq<string>)
    ensures FirstNonEmpty([x] + rest) == if x != "" then x else FirstNonEmpty(rest)
  {
    assert ([x] + rest)[1..] == rest;
  }

  /** What a step reports about a reference, if anything: a pull of it has been started, its task has been
      cancelled, or its task has ended with a result. A signature that does not verify, an exception and a
      timeout are failures; the end of the pull command is one unless its exit code is 0. */
  ghost function News(s: State, e: Event, timeout: string, ref: string): Option<Status> {
    match e
    case Start(r, listed) => if r == ref && ReplyTo(s, ref, listed) == Started then Some(InProgress) else None
    case Begin(_) => None
    case VerifyDone(id, a) =>
      if id !in s.live || s.live[id] != Pull(ref, Verifying) || a == Verified(true) then None
      else Some(Stored(Failed(match a
                              case Verified(_) => UNSIGNED
                              case VerifyTimeout => TimedOut(timeout).error
                              case VerifyError(message) => message)))
    case PullDone(id, a) =>
      if id !in s.live || s.live[id] != Pull(ref, Pulling) then None
      else Some(Stored(match a
                       case Exit(code, out, err) =>
                         if code == 0 then Completed else Failed(Explanation(code, out, err))
                       case PullTimeout => TimedOut(timeout)
                       case PullError(message) => Failed(message)))
    case Cancel(id) => if id in s.live && s.live[id].ref == ref then Some(Pending) else None
  }

  /** The status after the steps that change the table, for a pull in the table and for any other reference. */
  lemma FinishStatus(s: State, id: nat, result: Option<Result>, ref: string)
    requires Inv(s) && id in s.live
    ensures StatusOf(Finish(s, id, result), ref)
         == if s.live[id].ref != ref then StatusOf(s, ref)
            else if result.Some? then Stored(result.value) else Pending
  {
  }

  lemma AdvanceStatus(s: State, id: nat, stage: Stage, ref: string)
    requires Inv(s) && id in s.live
    ensures StatusOf(Advance(s, id, stage), ref) == StatusOf(s, ref)
  {
  }

  lemma LaunchStatus(s: State, r: string, ref: string)
    requires Inv(s) && !InFlight(s, r)
    ensures StatusOf(Launch(s, r), ref) == if r == ref then InProgress else StatusOf(s, ref)
  {
  }

  lemma CancelStatus(s: State, id: nat, timeout: string, ref: string)
    requires Inv(s) && id in s.live
    ensures StatusOf(Next(s, Cancel(id), timeout), ref) == if s.live[id].ref == ref then Pending else StatusOf(s, ref)
  {
    FinishStatus(s, id, None, ref);
    if s.live[id].stage == Created {
      assert InFlight(s, ref) && s.live[id].ref != ref ==> s.tasks.at[ref] != id;
    }
  }

  /** One step: the status of a reference changes exactly by its news. */
  ghost predicate Newsworthy(s: State, e: Event, timeout: string, ref: string) {
    StatusOf(Next(s, e, timeout), ref)
    == if News(s, e, timeout, ref).Some? then News(s, e, timeout, ref).value else StatusOf(s, ref)
  }

  lemma VerifyStatus(s: State, id: nat, a: VerifyAnswer, timeout: string, ref: string)
    requires Inv(s)
    ensures Newsworthy(s, VerifyDone(id, a), timeout, ref)
  {
    if id in s.live && s.live[id].stage == Verifying {
      match a
      case Verified(ok) =>
        AdvanceStatus(s, id, Pulling, ref);
        FinishStatus(s, id, Some(Failed(UNSIGNED)), ref);
      case VerifyTimeout => FinishStatus(s, id, Some(TimedOut(timeout)), ref);
      case VerifyError(message) => FinishStatus(s, id, Some(Failed(message)), ref);
    }
  }

  lemma PullStatus(s: State, id: nat, a: PullAnswer, timeout: string, ref: string)
    requires Inv(s)
    ensures Newsworthy(s, PullDone(id, a), timeout, ref)
  {
    if id in s.live && s.live[id].stage == Pulling {
      FinishStatus(s, id, Some(PullResult(a, timeout)), ref);
      if a.Exit? {
        ResultOfPull(a.code, a.out, a.err, timeout);
      }
    }
  }

  lemma StepStatus(s: State, e: Event, timeout: string, ref: string)
    requires Inv(s)
    ensures Newsworthy(s, e, timeout, ref)
  {
    match e
    case Start(r, listed) => if ReplyTo(s, r, listed) == Started { LaunchStatus(s, r, ref); }
    case Begin(id) => if id in s.live { AdvanceStatus(s, id, Verifying, ref); }
    case VerifyDone(id, a) => VerifyStatus(s, id, a, timeout, ref);
    case PullDone(id, a) => PullStatus(s, id, a, timeout, ref);
    case Cancel(id) => if id in s.live { CancelStatus(s, id, timeout, ref); }
  }

  /** The latest news of a run about a reference; none is "pending". */
  ghost function LatestNews(states: seq<State>, events: seq<Event>, timeout: string, n: nat, ref: string): Status
    requires n <= |events| < |states|
  {
    if n == 0 then Pending
    else
      var news := News(states[n - 1], events[n - 1], timeout, ref);
      if news.Some? then news.value else LatestNews(states, events, timeout, n - 1, ref)
  }

  /** At every point of every run the status of a reference is the latest news about it. */
  lemma {:induction false} StatusIsLatest(states: seq<State>, events: seq<Event>, timeout: string, n: nat, ref: string)
    requires Trace(states, events, timeout) && n < |states|
    ensures StatusOf(states[n], ref) == LatestNews(states, events, timeout, n, ref)
  {
    if n > 0 {
      StatusIsLatest(states, events, timeout, n - 1, ref);
      RunKeepsInv(states, events, timeout, n - 1);
      StepStatus(states[n - 1], events[n - 1], timeout, ref);
    }
  }

  /** A cancelled task leaves its table entry behind exactly when its coroutine never ran. */
  lemma CancelledEntryIff(s: State, id: nat, timeout: string)
    requires Inv(s) && id in s.live
    ensures var after := Next(s, Cancel(id), timeout);
            id !in after.live && (s.live[id].ref in after.tasks.at <==> s.live[id].stage == Created)
  {
  }

  // ---------------------------------------------------------------------------
  // The manager
  // ---------------------------------------------------------------------------

  class ImageManager {
    const timeout: string
    var tasks: Dict<nat>
    var results: Dict<Result>
    var live: map<nat, Pull>
    var made: nat

    constructor (timeout: string)
      ensures this.timeout == timeout && Current() == IDLE
    {
      this.timeout := timeout;
      tasks, results, live, made := Dict([], map[]), Dict([], map[]), map[], 0;
    }

    function Current(): State
      reads this
    {
      State(tasks, results, live, made)
    }

    /** `start_pull`, from the arrival of the image list. */
    method StartPull(ref: string, listed: bool) returns (reply: Reply)
      modifies this
      ensures Current() == Next(old(Current()), Start(ref, listed), timeout)
      ensures reply == ReplyTo(old(Current()), ref, listed)
    {
      if listed {
        return Present;
      }
      if ref in tasks.at && tasks.at[ref] in live {
        return InProgressAlready;
      }
      if ref in results.at {
        if results.at[ref].Completed? {
          return Present;
        }
        results := Pop(results, ref);
      }
      tasks := Put(tasks, ref, made);
      live := live[made := Pull(ref, Created)];
      made := made + 1;
      return Started;
    }

    /** The coroutine of task `id` starts to run. */
    method BeginPull(id: nat)
      requires id in live && live[id].stage == Created
      modifies this
      ensures Current() == Next(old(Current()), Begin(id), timeout)
    {
      live := live[id := live[id].(stage := Verifying)];
    }

    method EndPull(id: nat, result: Option<Result>)
      requires id in live
      modifies this
      ensures Current() == Finish(old(Current()), id, result)
    {
      var ref := live[id].ref;
      if result.Some? {
        results := Put(results, ref, result.value);
      }
      tasks := Pop(tasks, ref);
      live := live - {id};
    }

    /** Cosign answers, raises or times out. */
    method ResumeVerified(id: nat, a: VerifyAnswer)
      requires id in live && live[id].stage == Verifying
      modifies this
      ensures Current() == Next(old(Current()), VerifyDone(id, a), timeout)
    {
      match a
      case Verified(ok) =>
        if ok {
          live := live[id := live[id].(stage := Pulling)];
        } else {
          EndPull(id, Some(Failed(UNSIGNED)));
        }
      case VerifyTimeout => EndPull(id, Some(TimedOut(timeout)));
      case VerifyError(message) => EndPull(id, Some(Failed(message)));
    }

    /** The pull command ends, raises or times out. */
    method ResumePulled(id: nat, a: PullAnswer)
      requires id in live && live[id].stage == Pulling
      modifies this
      ensures Current() == Next(old(Current()), PullDone(id, a), timeout)
    {
      EndPull(id, Some(PullResult(a, timeout)));
    }

    /** The task is cancelled: one that never ran leaves its table entry behind. */
    method CancelPull(id: nat)
      requires id in live
      modifies this
      ensures Current() == Next(old(Current()), Cancel(id), timeout)
    {
      if live[id].stage == Created {
        live := live - {id};
      } else {
        EndPull(id, None);
      }
    }

    /** `get_pull_status` for one reference. */
    method GetPullStatus(ref: string) returns (r: seq<Snapshot>)
      ensures r == [Snapshot(ref, StatusOf(Current(), ref))]
    {
      if ref in tasks.at {
        if tasks.at[ref] in live {
          return [Snapshot(ref, InProgress)];
        }
      }
      if ref in results.at {
        return [Snapshot(ref, Stored(results.at[ref]))];
      }
      return [Snapshot(ref, Pending)];
    }

    /** `get_pull_status` for all: each reference at most once, with the status it has on its own. */
    method GetAllPullStatus() returns (r: seq<Snapshot>)
      requires Inv(Current())
      ensures Agrees(Current(), r)
    {
      r := [];
      ghost var s := Current();
      var i := 0;
      while i < |tasks.keys|
        invariant 0 <= i <= |tasks.keys| && Partial(s, r, tasks.keys[..i], [])
      {
        var k := tasks.keys[i];
        PartialTask(s, r, tasks.keys[..i], k);
        assert tasks.keys[..i + 1] == tasks.keys[..i] + [k];
        if tasks.at[k] in live {
          r := r + [Snapshot(k, InProgress)];
        }
        i := i + 1;
      }
      assert tasks.keys[..i] == tasks.keys;
      i := 0;
      while i < |results.keys|
        invariant 0 <= i <= |results.keys| && Partial(s, r, tasks.keys, results.keys[..i])
      {
        var k := results.keys[i];
        PartialResult(s, r, tasks.keys, results.keys[..i], k);
        assert results.keys[..i + 1] == results.keys[..i] + [k];
        r := r + [Snapshot(k, Stored(results.at[k]))];
        i := i + 1;
      }
      assert results.keys[..i] == results.keys;
    }
  }
}
