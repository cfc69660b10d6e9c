/** The complete and stale marker files of a cached model, as `reconcile` in
    src/sek8s/sek8s/system_manager/cache/manager.py and the download pipeline in
    src/sek8s/sek8s/system_manager/cache/download.py write them. */
module CacheMarkers {
  import opened Text
  import opened CacheVerify

  // ---------------------------------------------------------------------------
  // The state machine
  // ---------------------------------------------------------------------------

  datatype Identity = Identity(repo: string, revision: string)

  datatype StaleMark = StaleMark(id: Identity, reason: string)

  /** What the validator says a chute runs. */
  datatype Info = Info(repo: string, revision: Option<string>)

  /** Where a `reconcile` call (first two) or a download pipeline (the others) is waiting. */
  datatype Activity =
    | Fetching | Verifying(id: Identity)
    | Downloading(id: Identity) | Checking(id: Identity) | Writing(id: Identity) | Tidying(id: Identity)

  datatype State = State(complete: Option<Identity>, stale: Option<StaleMark>, active: map<nat, Activity>,
                         reconciled: bool)

  /** What `reconcile` concludes from the outcome of `verify_cache`. */
  datatype Finding = Present | Outdated(reason: string) | Undecided

  function FindingOf(outcome: Outcome): (f: Finding)
    ensures f.Present? <==> outcome.Passed?
  {
    match outcome
    case Passed(_, _, _) => Present
    case Rejected(error) => var reading := Read(error); if reading.Stale? then Outdated(reading.reason) else Undecided
    case Crashed => Undecided
  }

  datatype Event =
    | Reconcile(a: nat, present: bool)
    | Fetched(a: nat, answer: Option<Info>)
    | Verified(a: nat, finding: Finding)
    | Download(a: nat, id: Identity)
    | Downloaded(a: nat, ok: bool)
    | Checked(a: nat, outcome: Outcome)
    | WriteComplete(a: nat)
    | RemoveStale(a: nat)
    | Kill(a: nat)
    | Delete

  /** The repository to verify against, if the validator names one; no revision means "main". */
  function Wanted(answer: Option<Info>): Option<Identity> {
    if answer.None? || answer.value.repo == "" then None
    else Some(Identity(answer.value.repo,
                       if answer.value.revision.None? || answer.value.revision.value == "" then "main"
                       else answer.value.revision.value))
  }

  predicate In(s: State, a: nat, stage: Activity) {
    a in s.active && s.active[a] == stage
  }

  function Go(s: State, a: nat, stage: Activity): State {
    s.(active := s.active[a := stage])
  }

  function End(s: State, a: nat): State {
    s.(active := s.active - {a})
  }

  /** The end of `reconcile` after `verify_cache`. */
  function Conclude(s: State, id: Identity, finding: Finding): State {
    match finding
    case Present => s.(complete := Some(id), reconciled := true)
    case Outdated(reason) => s.(stale := Some(StaleMark(id, reason)), reconciled := true)
    case Undecided => s
  }

  function Next(s: State, e: Event): State {
    match e
    case Reconcile(a, present) =>
      if a in s.active then s else if !present then s.(reconciled := true) else Go(s, a, Fetching)
    case Fetched(a, answer) =>
      if !In(s, a, Fetching) then s
      else if Wanted(answer).None? then End(s, a)
      else Go(s, a, Verifying(Wanted(answer).value)).(complete := None, stale := None)
    case Verified(a, finding) =>
      if a !in s.active || !s.active[a].Verifying? then s else Conclude(End(s, a), s.active[a].id, finding)
    case Download(a, id) => if a in s.active then s else Go(s, a, Downloading(id))
    case Downloaded(a, ok) =>
      if a !in s.active || !s.active[a].Downloading? then s
      else if ok then Go(s, a, Checking(s.active[a].id)) else End(s, a)
    case Checked(a, outcome) =>
      if a !in s.active || !s.active[a].Checking? then s
      else if outcome.Passed? then Go(s, a, Writing(s.active[a].id)) else End(s, a)
    case WriteComplete(a) =>
      if a !in s.active || !s.active[a].Writing? then s
      else Go(s, a, Tidying(s.active[a].id)).(complete := Some(s.active[a].id))
    case RemoveStale(a) =>
      if a !in s.active || !s.active[a].Tidying? then s else End(s, a).(stale := None)
    case Kill(a) => End(s, a)
    case Delete => s.(complete := None, stale := None)
  }

  predicate Both(s: State) {
    s.complete.Some? && s.stale.Some?
  }

  ghost predicate AtRest(s: State) {
    s.active == map[]
  }

  ghost predicate Trace(states: seq<State>, events: seq<Event>) {
    && |states| == |events| + 1 && AtRest(states[0]) && !Both(states[0])
    && forall i :: 0 <= i < |events| ==> states[i + 1] == Next(states[i], events[i])
  }

  // ---------------------------------------------------------------------------
  // A complete marker is earned
  // ---------------------------------------------------------------------------

  /** At step `k`, `verify_cache` passed for this repository and revision. */
  ghost predicate PassedAt(states: seq<State>, events: seq<Event>, k: nat, id: Identity) {
    && k < |events| && k < |states|
    && ((events[k].Verified? && events[k].finding.Present? && In(states[k], events[k].a, Verifying(id)))
        || (events[k].Checked? && events[k].outcome.Passed? && In(states[k], events[k].a, Checking(id))))
  }

  lemma StepWriting(s: State, e: Event, a: nat, id: Identity)
    requires In(Next(s, e), a, Writing(id))
    ensures In(s, a, Writing(id)) || (e.Checked? && e.a == a && e.outcome.Passed? && In(s, a, Checking(id)))
  {
  }

  lemma {:induction false} WritingPassed(states: seq<State>, events: seq<Event>, n: nat, a: nat, id: Identity)
    returns (k: nat)
    requires Trace(states, events) && n < |states| && In(states[n], a, Writing(id))
    ensures k < n && PassedAt(states, events, k, id)
  {
    StepWriting(states[n - 1], events[n - 1], a, id);
    if In(states[n - 1], a, Writing(id)) {
      k := WritingPassed(states, events, n - 1, a, id);
    } else {
      k := n - 1;
    }
  }

  lemma StepComplete(s: State, e: Event, id: Identity)
    requires Next(s, e).complete == Some(id)
    ensures s.complete == Some(id) || (e.Verified? && e.finding.Present? && In(s, e.a, Verifying(id)))
         || (e.WriteComplete? && In(s, e.a, Writing(id)))
  {
  }

  /** Under every interleaving a complete marker names a repository and revision whose check passed, or
      was there before the run. */
  lemma {:induction false} CompleteIsEarned(states: seq<State>, events: seq<Event>, n: nat, id: Identity)
    returns (k: nat)
    requires Trace(states, events) && n < |states| && states[n].complete == Some(id) && states[0].complete != Some(id)
    ensures k < n && PassedAt(states, events, k, id)
  {
    StepComplete(states[n - 1], events[n - 1], id);
    if states[n - 1].complete == Some(id) {
      k := CompleteIsEarned(states, events, n - 1, id);
    } else if events[n - 1].WriteComplete? {
      k := WritingPassed(states, events, n - 1, events[n - 1].a, id);
    } else {
      k := n - 1;
    }
  }

  // ---------------------------------------------------------------------------
  // Where a download's marker comes from
  // ---------------------------------------------------------------------------

  lemma {:induction false} CheckingDownloaded(states: seq<State>, events: seq<Event>, n: nat, a: nat, id: Identity)
    returns (j: nat)
    requires Trace(states, events) && n < |states| && In(states[n], a, Checking(id))
    ensures j < n && events[j] == Downloaded(a, true) && In(states[j], a, Downloading(id))
  {
    if In(states[n - 1], a, Checking(id)) {
      j := CheckingDownloaded(states, events, n - 1, a, id);
    } else {
      j := n - 1;
    }
  }

  lemma {:induction false} DownloadingStarted(states: seq<State>, events: seq<Event>, n: nat, a: nat, id: Identity)
    returns (i: nat)
    requires Trace(states, events) && n < |states| && In(states[n], a, Downloading(id))
    ensures i < n && events[i] == Download(a, id)
  {
    if In(states[n - 1], a, Downloading(id)) {
      i := DownloadingStarted(states, events, n - 1, a, id);
    } else {
      i := n - 1;
    }
  }

  lemma {:induction false} WritingChecked(states: seq<State>, events: seq<Event>, n: nat, a: nat, id: Identity)
    returns (k: nat)
    requires Trace(states, events) && n < |states| && In(states[n], a, Writing(id))
    ensures k < n && events[k].Checked? && events[k].a == a && events[k].outcome.Passed?
    ensures In(states[k], a, Checking(id))
  {
    StepWriting(states[n - 1], events[n - 1], a, id);
    if In(states[n - 1], a, Writing(id)) {
      k := WritingChecked(states, events, n - 1, a, id);
    } else {
      k := n - 1;
    }
  }

  /** A pipeline writes the complete marker only after its own start, its successful download and its passed
      check, in this order and for the repository and revision it was started with. */
  lemma DownloadIsEarned(states: seq<State>, events: seq<Event>, n: nat, a: nat, id: Identity)
    returns (i: nat, j: nat, k: nat)
    requires Trace(states, events) && n < |events| && events[n] == WriteComplete(a) && In(states[n], a, Writing(id))
    ensures i < j < k < n && events[i] == Download(a, id) && events[j] == Downloaded(a, true)
    ensures events[k].Checked? && events[k].a == a && events[k].outcome.Passed?
    ensures states[n + 1].complete == Some(id)
  {
    k := WritingChecked(states, events, n, a, id);
    j := CheckingDownloaded(states, events, k, a, id);
    i := DownloadingStarted(states, events, j, a, id);
  }

  // ---------------------------------------------------------------------------
  // When a chute counts as reconciled
  // ---------------------------------------------------------------------------

  /** The step settles the question: nothing is on disk, or the check passes or finds the wrong files. Missing
      files, an unreachable validator and other failures settle nothing. */
  ghost predicate Settles(s: State, e: Event) {
    || (e.Reconcile? && e.a !in s.active && !e.present)
    || (e.Verified? && e.a in s.active && s.active[e.a].Verifying? && !e.finding.Undecided?)
  }

  /** A chute counts as reconciled if and only if some step of its run has settled the question. */
  lemma {:induction false} ReconciledIff(states: seq<State>, events: seq<Event>, n: nat)
    requires Trace(states, events) && n < |states| && states[0] == EMPTY
    ensures states[n].reconciled <==> exists k :: 0 <= k < n && Settles(states[k], events[k])
  {
    if n > 0 {
      ReconciledIff(states, events, n - 1);
      StepReconciled(states[n - 1], events[n - 1]);
    }
  }

  lemma StepReconciled(s: State, e: Event)
    ensures Next(s, e).reconciled <==> s.reconciled || Settles(s, e)
  {
  }

  /** The revision to verify is the one that the validator names, else "main". */
  lemma WantedRevision(repo: string, revision: string)
    requires repo != "" && revision != ""
    ensures Wanted(Some(Info(repo, Some(revision)))) == Some(Identity(repo, revision))
    ensures Wanted(Some(Info(repo, None))) == Wanted(Some(Info(repo, Some("")))) == Some(Identity(repo, "main"))
    ensures Wanted(Some(Info("", Some(revision)))) == Wanted(None) == None
  {
  }

  // ---------------------------------------------------------------------------
  // Two files, one register
  // ---------------------------------------------------------------------------

  /** The one value that the two marker files stand for. */
  datatype Mark = Nothing | Complete(id: Identity) | Stale(mark: StaleMark)

  function Decode(s: State): Mark {
    if s.complete.Some? then Complete(s.complete.value)
    else if s.stale.Some? then Mark.Stale(s.stale.value) else Nothing
  }

  predicate Encodes(s: State, m: Mark) {
    && s.complete == (if m.Complete? then Some(m.id) else None)
    && s.stale == (if m.Stale? then Some(m.mark) else None)
  }

  /** What a step does to that value: clear it, or overwrite it with the latest finding. */
  function Assign(m: Mark, s: State, e: Event): Mark {
    match e
    case Fetched(a, answer) => if In(s, a, Fetching) && Wanted(answer).Some? then Nothing else m
    case Verified(a, finding) =>
      if a !in s.active || !s.active[a].Verifying? then m
      else (match finding
            case Present => Complete(s.active[a].id)
            case Outdated(reason) => Mark.Stale(StaleMark(s.active[a].id, reason))
            case Undecided => m)
    case WriteComplete(a) => if a in s.active && s.active[a].Writing? then Complete(s.active[a].id) else m
    case Delete => Nothing
    case _ => m
  }

  ghost function Register(states: seq<State>, events: seq<Event>, n: nat): Mark
    requires n < |states| <= |events| + 1
  {
    if n == 0 then Decode(states[0]) else Assign(Register(states, events, n - 1), states[n - 1], events[n - 1])
  }

  /** No `reconcile`, download or deletion of the chute starts while another is under way. */
  ghost predicate Serial(states: seq<State>, events: seq<Event>)
    requires Trace(states, events)
  {
    forall i :: 0 <= i < |events| && (events[i].Reconcile? || events[i].Download? || events[i].Delete?) ==>
                  AtRest(states[i])
  }

  /** No pipeline dies between writing one marker and removing the other. */
  ghost predicate Unbroken(states: seq<State>, events: seq<Event>)
    requires Trace(states, events)
  {
    forall i :: 0 <= i < |events| && events[i].Kill? && events[i].a in states[i].active ==>
                  !states[i].active[events[i].a].Tidying?
  }

  ghost predicate Alone(s: State) {
    forall a, b :: a in s.active && b in s.active ==> a == b
  }

  lemma StepAlone(s: State, e: Event)
    requires Alone(s)
    requires e.Reconcile? || e.Download? || e.Delete? ==> AtRest(s)
    ensures Alone(Next(s, e))
  {
  }

  /** The files encode the value, except that an old stale marker waits for the pipeline to remove it. */
  ghost predicate Tracks(s: State, m: Mark) {
    && Alone(s)
    && (forall a :: a in s.active && s.active[a].Verifying? ==> m == Nothing)
    && (forall a :: a in s.active && s.active[a].Tidying? ==> m == Complete(s.active[a].id) && s.complete == Some(m.id))
    && (Encodes(s, m) || exists a :: a in s.active && s.active[a].Tidying?)
  }

  lemma VerifiedTracks(s: State, m: Mark, a: nat, finding: Finding)
    requires Tracks(s, m)
    ensures Tracks(Next(s, Verified(a, finding)), Assign(m, s, Verified(a, finding)))
  {
    if a in s.active && s.active[a].Verifying? {
      assert forall b :: b in s.active ==> b == a;
    }
  }

  lemma StepTracks(s: State, m: Mark, e: Event)
    requires Tracks(s, m)
    requires e.Reconcile? || e.Download? || e.Delete? ==> AtRest(s)
    requires e.Kill? && e.a in s.active ==> !s.active[e.a].Tidying?
    ensures Tracks(Next(s, e), Assign(m, s, e))
  {
    if e.Verified? {
      VerifiedTracks(s, m, e.a, e.finding);
    } else if e.WriteComplete? {
      WriteTracks(s, m, e.a);
    } else if e.RemoveStale? {
      RemoveTracks(s, m, e.a);
    } else {
      StepAlone(s, e);
      var t := Next(s, e);
      assert forall a :: a in s.active && s.active[a].Tidying? ==> a in t.active && t.active[a].Tidying?;
    }
  }

  lemma RemoveTracks(s: State, m: Mark, a: nat)
    requires Tracks(s, m)
    ensures Tracks(Next(s, RemoveStale(a)), Assign(m, s, RemoveStale(a)))
  {
  }

  lemma WriteTracks(s: State, m: Mark, a: nat)
    requires Tracks(s, m)
    ensures Tracks(Next(s, WriteComplete(a)), Assign(m, s, WriteComplete(a)))
  {
    if a in s.active && s.active[a].Writing? {
      var t := Next(s, WriteComplete(a));
      assert a in t.active && t.active[a].Tidying?;
    }
  }

  lemma {:induction false} RunTracks(states: seq<State>, events: seq<Event>, n: nat)
    requires Trace(states, events) && Serial(states, events) && Unbroken(states, events) && n < |states|
    ensures Tracks(states[n], Register(states, events, n))
  {
    if n > 0 {
      RunTracks(states, events, n - 1);
      StepTracks(states[n - 1], Register(states, events, n - 1), events[n - 1]);
    }
  }

  /** In every serial, unbroken run, a chute at rest holds in its two files exactly the latest finding; so
      it never holds both. */
  lemma TwoFilesOneRegister(states: seq<State>, events: seq<Event>, n: nat)
    requires Trace(states, events) && Serial(states, events) && Unbroken(states, events)
    requires n < |states| && AtRest(states[n])
    ensures Encodes(states[n], Register(states, events, n)) && !Both(states[n])
  {
    RunTracks(states, events, n);
  }

  // ---------------------------------------------------------------------------
  // Exactly when both files exist
  // ---------------------------------------------------------------------------

  /** A step writes one marker while the other is there. */
  predicate Clash(s: State, e: Event) {
    match e
    case Verified(a, finding) =>
      && a in s.active && s.active[a].Verifying?
      && ((finding.Present? && s.stale.Some?) || (finding.Outdated? && s.complete.Some?))
    case WriteComplete(a) => a in s.active && s.active[a].Writing? && s.stale.Some?
    case _ => false
  }

  /** A step removes a marker. */
  predicate Clears(s: State, e: Event) {
    match e
    case Fetched(a, answer) => In(s, a, Fetching) && Wanted(answer).Some?
    case RemoveStale(a) => a in s.active && s.active[a].Tidying?
    case Delete => true
    case _ => false
  }

  lemma StepBoth(s: State, e: Event)
    ensures Both(Next(s, e)) <==> Clash(s, e) || (Both(s) && !Clears(s, e))
  {
  }

  ghost predicate ClashedAt(states: seq<State>, events: seq<Event>, n: nat, k: nat)
    requires n < |states| <= |events| + 1
  {
    k < n && Clash(states[k], events[k]) && forall j :: k < j < n ==> !Clears(states[j], events[j])
  }

  lemma {:induction false} BothClashed(states: seq<State>, events: seq<Event>, n: nat) returns (k: nat)
    requires Trace(states, events) && n < |states| && Both(states[n])
    ensures ClashedAt(states, events, n, k)
  {
    StepBoth(states[n - 1], events[n - 1]);
    if Clash(states[n - 1], events[n - 1]) {
      k := n - 1;
    } else {
      k := BothClashed(states, events, n - 1);
    }
  }

  // ---------------------------------------------------------------------------
  // The schedules that cause it
  // ---------------------------------------------------------------------------

  predicate WritesComplete(s: State, e: Event) {
    || (e.Verified? && e.finding.Present? && e.a in s.active && s.active[e.a].Verifying?)
    || (e.WriteComplete? && e.a in s.active && s.active[e.a].Writing?)
  }

  predicate WritesStale(s: State, e: Event) {
    e.Verified? && e.finding.Outdated? && e.a in s.active && s.active[e.a].Verifying?
  }

  /** The step removes both markers: the start of a verification, or a deletion. */
  predicate Wipes(s: State, e: Event) {
    e.Delete? || (e.Fetched? && In(s, e.a, Fetching) && Wanted(e.answer).Some?)
  }

  /** Step `j` writes the complete marker, and nothing removes it before `n`. */
  ghost predicate CompleteStands(states: seq<State>, events: seq<Event>, j: nat, n: nat)
    requires n < |states| <= |events| + 1
  {
    j < n && WritesComplete(states[j], events[j]) && forall t :: j < t < n ==> !Wipes(states[t], events[t])
  }

  ghost predicate StaleStands(states: seq<State>, events: seq<Event>, j: nat, n: nat)
    requires n < |states| <= |events| + 1
  {
    j < n && WritesStale(states[j], events[j]) && forall t :: j < t < n ==> !Clears(states[t], events[t])
  }

  /** A `reconcile` call verifies from its step `i` to its step `k`. */
  ghost predicate Window(states: seq<State>, events: seq<Event>, a: nat, i: nat, k: nat)
    requires k < |events| && |states| == |events| + 1
  {
    && i < k && Wipes(states[i], events[i]) && events[i].Fetched? && events[i].a == a
    && events[k].Verified? && events[k].a == a
    && forall t :: i < t <= k ==> a in states[t].active && states[t].active[a].Verifying?
  }

  /** While the call `a` verifies, at step `j` another activity writes the marker that `a` does not write
      at step `k`, and both markers stay. */
  ghost predicate Overlap(states: seq<State>, events: seq<Event>, n: nat, a: nat, i: nat, j: nat, k: nat)
    requires n < |states| == |events| + 1
  {
    && i < j < k < n && Window(states, events, a, i, k)
    && (events[j].Verified? || events[j].WriteComplete?) && events[j].a != a
    && (|| (CompleteStands(states, events, j, n) && StaleStands(states, events, k, n))
        || (StaleStands(states, events, j, n) && CompleteStands(states, events, k, n)))
  }

  /** The pipeline `a` writes the complete marker beside a stale one and is killed before it removes that
      one, and nothing else removes a marker. */
  ghost predicate Killed(states: seq<State>, events: seq<Event>, n: nat, a: nat, j: nat, k: nat)
    requires n < |states| == |events| + 1
  {
    && j < k < n && events[j] == WriteComplete(a) && WritesComplete(states[j], events[j]) && states[j].stale.Some?
    && events[k] == Kill(a) && (forall t :: j < t <= k ==> a in states[t].active && states[t].active[a].Tidying?)
    && forall t :: j < t < n ==> !Clears(states[t], events[t])
  }

  lemma StepMarkers(s: State, e: Event)
    ensures s.complete.Some? && !Wipes(s, e) ==> Next(s, e).complete.Some?
    ensures WritesComplete(s, e) ==> Next(s, e).complete.Some?
    ensures s.stale.Some? && !Clears(s, e) ==> Next(s, e).stale.Some?
    ensures WritesStale(s, e) ==> Next(s, e).stale.Some?
    ensures s.complete.None? && !WritesComplete(s, e) ==> Next(s, e).complete.None?
    ensures s.stale.None? && !WritesStale(s, e) ==> Next(s, e).stale.None?
    ensures Wipes(s, e) ==> Next(s, e).complete.None? && Next(s, e).stale.None? && Clears(s, e)
  {
  }

  lemma {:induction false} CompleteStays(states: seq<State>, events: seq<Event>, j: nat, n: nat)
    requires Trace(states, events) && n < |states| && CompleteStands(states, events, j, n)
    ensures states[n].complete.Some?
  {
    StepMarkers(states[n - 1], events[n - 1]);
    if j < n - 1 {
      CompleteStays(states, events, j, n - 1);
    }
  }

  lemma {:induction false} StaleStays(states: seq<State>, events: seq<Event>, j: nat, n: nat)
    requires Trace(states, events) && j <= n < |states| && states[j].stale.Some?
    requires forall t :: j <= t < n ==> !Clears(states[t], events[t])
    ensures states[n].stale.Some?
  {
    if j < n {
      StaleStays(states, events, j, n - 1);
      StepMarkers(states[n - 1], events[n - 1]);
    }
  }

  lemma StaleStandsStays(states: seq<State>, events: seq<Event>, j: nat, n: nat)
    requires Trace(states, events) && n < |states| && StaleStands(states, events, j, n)
    ensures states[n].stale.Some?
  {
    StepMarkers(states[j], events[j]);
    StaleStays(states, events, j + 1, n);
  }

  lemma CauseLeavesBoth(states: seq<State>, events: seq<Event>, n: nat, a: nat, i: nat, j: nat, k: nat)
    requires Trace(states, events) && n < |states|
    requires Overlap(states, events, n, a, i, j, k) || Killed(states, events, n, a, j, k)
    ensures Both(states[n])
  {
    if Killed(states, events, n, a, j, k) {
      assert forall t :: 0 <= t < |events| && Wipes(states[t], events[t]) ==> Clears(states[t], events[t]);
      CompleteStays(states, events, j, n);
      StaleStays(states, events, j, n);
    } else if CompleteStands(states, events, j, n) && StaleStands(states, events, k, n) {
      CompleteStays(states, events, j, n);
      StaleStandsStays(states, events, k, n);
    } else {
      CompleteStays(states, events, k, n);
      StaleStandsStays(states, events, j, n);
    }
  }

  lemma StepVerifying(s: State, e: Event, a: nat)
    requires a in Next(s, e).active && Next(s, e).active[a].Verifying?
    ensures (a in s.active && s.active[a].Verifying?) || (Wipes(s, e) && e.Fetched? && e.a == a)
  {
  }

  /** Every verification has a beginning. */
  lemma {:induction false} WindowOf(states: seq<State>, events: seq<Event>, a: nat, k: nat) returns (i: nat)
    requires Trace(states, events) && k < |states| && a in states[k].active && states[k].active[a].Verifying?
    ensures i < k && Wipes(states[i], events[i]) && events[i].Fetched? && events[i].a == a
    ensures forall t :: i < t <= k ==> a in states[t].active && states[t].active[a].Verifying?
  {
    StepVerifying(states[k - 1], events[k - 1], a);
    if a in states[k - 1].active && states[k - 1].active[a].Verifying? {
      i := WindowOf(states, events, a, k - 1);
    } else {
      i := k - 1;
    }
  }

  lemma {:induction false} CompleteWritten(states: seq<State>, events: seq<Event>, i: nat, k: nat) returns (j: nat)
    requires Trace(states, events) && i <= k < |states| && states[i].complete.None? && states[k].complete.Some?
    ensures i <= j && CompleteStands(states, events, j, k)
  {
    StepMarkers(states[k - 1], events[k - 1]);
    if WritesComplete(states[k - 1], events[k - 1]) {
      j := k - 1;
    } else {
      j := CompleteWritten(states, events, i, k - 1);
    }
  }

  lemma StaleNotCleared(s: State, e: Event)
    requires Next(s, e).stale.Some? && !WritesStale(s, e)
    ensures s.stale.Some? && !Clears(s, e)
  {
  }

  lemma {:induction false} StaleWritten(states: seq<State>, events: seq<Event>, i: nat, k: nat) returns (j: nat)
    requires Trace(states, events) && i <= k < |states| && states[i].stale.None? && states[k].stale.Some?
    ensures i <= j && StaleStands(states, events, j, k)
  {
    if WritesStale(states[k - 1], events[k - 1]) {
      j := k - 1;
    } else {
      StaleNotCleared(states[k - 1], events[k - 1]);
      j := StaleWritten(states, events, i, k - 1);
    }
  }

  /** A marker that is written while a call verifies is written by another activity. */
  lemma WriterIsOther(states: seq<State>, events: seq<Event>, a: nat, j: nat)
    requires Trace(states, events) && j < |events|
    requires WritesComplete(states[j], events[j]) || WritesStale(states[j], events[j])
    requires a in states[j].active && states[j].active[a].Verifying? && a in states[j + 1].active
    ensures (events[j].Verified? || events[j].WriteComplete?) && events[j].a != a
  {
    assert states[j + 1] == Next(states[j], events[j]);
  }

  lemma OverlapFound(states: seq<State>, events: seq<Event>, n: nat, k: nat) returns (a: nat, i: nat, j: nat)
    requires Trace(states, events) && n < |states| && ClashedAt(states, events, n, k) && events[k].Verified?
    ensures Overlap(states, events, n, a, i, j, k)
  {
    a := events[k].a;
    i := WindowOf(states, events, a, k);
    StepMarkers(states[i], events[i]);
    assert forall t :: 0 <= t < |events| && Wipes(states[t], events[t]) ==> Clears(states[t], events[t]);
    if events[k].finding.Present? {
      j := StaleWritten(states, events, i + 1, k);
    } else {
      j := CompleteWritten(states, events, i + 1, k);
    }
    WriterIsOther(states, events, a, j);
  }

  lemma StepTidying(s: State, e: Event, a: nat)
    requires a in s.active && s.active[a].Tidying? && !Clears(s, e)
    ensures (a in Next(s, e).active && Next(s, e).active[a].Tidying?) || e == Kill(a)
  {
  }

  /** A tidying pipeline that clears nothing and is gone at `n` was killed. */
  lemma {:induction false} KillFound(states: seq<State>, events: seq<Event>, n: nat, a: nat, j: nat) returns (k: nat)
    requires Trace(states, events) && j <= n < |states| && AtRest(states[n])
    requires a in states[j].active && states[j].active[a].Tidying?
    requires forall t :: j <= t < n ==> !Clears(states[t], events[t])
    ensures j <= k < n && events[k] == Kill(a)
    ensures forall t :: j <= t <= k ==> a in states[t].active && states[t].active[a].Tidying?
    decreases n - j
  {
    StepTidying(states[j], events[j], a);
    if events[j] == Kill(a) {
      k := j;
    } else {
      k := KillFound(states, events, n, a, j + 1);
    }
  }

  ghost predicate HasCause(states: seq<State>, events: seq<Event>, n: nat)
    requires n < |states| == |events| + 1
  {
    || (exists a: nat, i: nat, j: nat, k: nat :: Overlap(states, events, n, a, i, j, k))
    || (exists a: nat, j: nat, k: nat :: Killed(states, events, n, a, j, k))
  }

  /** Under every interleaving a chute at rest has both markers if and only if, with no marker removed
      since, another activity wrote the opposite marker while a `reconcile` call was verifying, or a
      pipeline was killed between writing the complete marker and removing a stale one. */
  lemma BothAtRestIff(states: seq<State>, events: seq<Event>, n: nat)
    requires Trace(states, events) && n < |states| && AtRest(states[n])
    ensures Both(states[n]) <==> HasCause(states, events, n)
  {
    if Both(states[n]) {
      var k := BothClashed(states, events, n);
      if events[k].Verified? {
        var a, i, j := OverlapFound(states, events, n, k);
      } else {
        var a := events[k].a;
        assert states[k + 1] == Next(states[k], events[k]);
        var kill := KillFound(states, events, n, a, k + 1);
        assert Killed(states, events, n, a, k, kill);
      }
    }
    if a: nat, i: nat, j: nat, k: nat :| Overlap(states, events, n, a, i, j, k) {
      CauseLeavesBoth(states, events, n, a, i, j, k);
    }
    if a: nat, j: nat, k: nat :| Killed(states, events, n, a, j, k) {
      CauseLeavesBoth(states, events, n, a, 0, j, k);
    }
  }

  // ---------------------------------------------------------------------------
  // Two runs that end with both
  // ---------------------------------------------------------------------------

  const EMPTY: State := State(None, None, map[], false)

  /** A `reconcile` call up to its verification. */
  function AfterFetch(s: State, a: nat, id: Identity): State {
    Next(Next(s, Reconcile(a, true)), Fetched(a, Some(Info(id.repo, Some(id.revision)))))
  }

  lemma AfterFetchIs(s: State, a: nat, id: Identity)
    requires a !in s.active && id.repo != "" && id.revision != ""
    ensures AfterFetch(s, a, id) == State(None, None, s.active[a := Verifying(id)], s.reconciled)
  {
    assert Next(s, Reconcile(a, true)) == Go(s, a, Fetching);
  }

  /** A download pipeline whose check passes, up to the write of the complete marker. */
  function AfterWrite(s: State, a: nat, id: Identity): State {
    Next(Next(Next(Next(s, Download(a, id)), Downloaded(a, true)), Checked(a, Passed(1, 0, 1))), WriteComplete(a))
  }

  lemma AfterWriteIs(s: State, a: nat, id: Identity)
    requires a !in s.active
    ensures AfterWrite(s, a, id) == State(Some(id), s.stale, s.active[a := Tidying(id)], s.reconciled)
  {
    var s1, s2 := Next(s, Download(a, id)), Next(Next(s, Download(a, id)), Downloaded(a, true));
    assert In(s1, a, Downloading(id)) && In(s2, a, Checking(id));
  }

  /** A file on disk that one manifest accepts and another finds too small. */
  lemma OneFileTwoManifests(path: string, hash: string)
    requires '/' !in path && !Hidden(path) && |hash| != 40
    ensures var disk := map[path := Local(None, Some(1))];
            && CheckFile(disk, path, Expected(Some(hash), Some(1))) == Good
            && CheckFile(disk, path, Expected(Some(hash), Some(2))) == Bad(SizeMismatch(path, 2, 1))
  {
    assert Split(path, '/') == [path];
  }

  /** A `reconcile` call for revision `new_` verifies; meanwhile a download of revision `old_` finishes and
      passes; the verification then finds a file too small: both markers are left. */
  lemma OverlapLeavesBoth(old_: Identity, new_: Identity, path: string)
    requires new_.repo != "" && new_.revision != "" && ' ' !in path
    ensures var s := Next(AfterWrite(AfterFetch(EMPTY, 0, new_), 1, old_), RemoveStale(1));
            var end := Next(s, Verified(0, FindingOf(Rejected(SizeMismatch(path, 2, 1)))));
            AtRest(end) && Both(end)
  {
    NotMisleading(path);
    SizeMismatchStaleIff(path, 2, 1);
    OverlapOf(old_, new_, FindingOf(Rejected(SizeMismatch(path, 2, 1))));
  }

  lemma OverlapOf(old_: Identity, new_: Identity, finding: Finding)
    requires new_.repo != "" && new_.revision != "" && finding.Outdated?
    ensures var s := Next(AfterWrite(AfterFetch(EMPTY, 0, new_), 1, old_), RemoveStale(1));
            var end := Next(s, Verified(0, finding));
            AtRest(end) && Both(end)
  {
    var s1 := AfterFetch(EMPTY, 0, new_);
    AfterFetchIs(EMPTY, 0, new_);
    AfterWriteIs(s1, 1, old_);
    var s := Next(AfterWrite(s1, 1, old_), RemoveStale(1));
    assert s.active == map[0 := Verifying(new_)];
    assert End(s, 0).active == map[];
  }

  /** So does a pipeline that is killed between its last two steps, when a stale marker was there. */
  lemma KillLeavesBoth(id: Identity, old_: StaleMark)
    ensures var end := Next(AfterWrite(State(None, Some(old_), map[], true), 0, id), Kill(0));
            AtRest(end) && Both(end)
  {
    AfterWriteIs(State(None, Some(old_), map[], true), 0, id);
  }

  // ---------------------------------------------------------------------------
  // The program
  // ---------------------------------------------------------------------------

  class Chute {
    var complete: Option<Identity>
    var stale: Option<StaleMark>
    var active: map<nat, Activity>
    var reconciled: bool

    constructor ()
      ensures Current() == EMPTY
    {
      complete, stale, active, reconciled := None, None, map[], false;
    }

    function Current(): State
      reads this
    {
      State(complete, stale, active, reconciled)
    }

    /** `reconcile`, up to the question to the validator. */
    method BeginReconcile(a: nat, present: bool)
      requires a !in active
      modifies this
      ensures Current() == Next(old(Current()), Reconcile(a, present))
    {
      if !present {
        reconciled := true;
      } else {
        active := active[a := Fetching];
      }
    }

    /** The validator answers or cannot be reached; with an identity, both markers go. */
    method ResumeFetched(a: nat, answer: Option<Info>)
      requires In(Current(), a, Fetching)
      modifies this
      ensures Current() == Next(old(Current()), Fetched(a, answer))
    {
      if answer.None? || answer.value.repo == "" {
        active := active - {a};
        return;
      }
      var revision := "main";
      if answer.value.revision.Some? && answer.value.revision.value != "" {
        revision := answer.value.revision.value;
      }
      complete := None;
      stale := None;
      active := active[a := Verifying(Identity(answer.value.repo, revision))];
    }

    /** `verify_cache` runs on what is on disk now, and its outcome sets the markers. */
    method FinishReconcile(a: nat, manifest: Option<seq<Item>>, dir: string, exists_: bool, disk: map<string, Local>)
      returns (outcome: Outcome)
      requires a in active && active[a].Verifying?
      modifies this
      ensures Current() == Next(old(Current()), Verified(a, FindingOf(outcome)))
      ensures outcome.Passed? <==> manifest.Some? && exists_ && AllOk(manifest.value, disk)
    {
      outcome := VerifyCache(manifest, dir, exists_, disk);
      var id := active[a].id;
      active := active - {a};
      if outcome.Passed? {
        complete := Some(id);
        reconciled := true;
      } else if outcome.Rejected? {
        var text := Message(outcome.error);
        if Contains(text, "Missing file") || Contains(text, "not found") {
        } else if Contains(text, "verification failed") {
        } else {
          stale := Some(StaleMark(id, text));
          reconciled := true;
        }
      }
    }

    method CheckDownload(a: nat, manifest: Option<seq<Item>>, dir: string, exists_: bool, disk: map<string, Local>)
      returns (outcome: Outcome)
      requires a in active && active[a].Checking?
      modifies this
      ensures Current() == Next(old(Current()), Checked(a, outcome))
      ensures outcome.Passed? <==> manifest.Some? && exists_ && AllOk(manifest.value, disk)
    {
      outcome := VerifyCache(manifest, dir, exists_, disk);
      if outcome.Passed? {
        active := active[a := Writing(active[a].id)];
      } else {
        active := active - {a};
      }
    }

    method FinishDownload(a: nat)
      requires a in active && active[a].Writing?
      modifies this
      ensures Current() == Next(Next(old(Current()), WriteComplete(a)), RemoveStale(a))
    {
      complete := Some(active[a].id);
      active := active[a := Tidying(active[a].id)];
      if stale.Some? {
        stale := None;
      }
      active := active - {a};
    }
  }
}
