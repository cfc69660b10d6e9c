/** The two caches and the back-off of CosignValidator, src/sek8s/sek8s/validators/cosign.py.

    A verification is cut at its only `await`, the call of cosign: `Begin` is everything before it and
    `Complete` everything after, so that verifications interleave. Each reading of `time.monotonic` is
    an input, and consecutive readings do not decrease. */
module CosignCache {
  import opened Text
  import opened ImageRef
  import opened CosignConfig

  const RATE_LIMIT_BACKOFF := 300.0
  const TRANSIENT_SECONDS := 30.0
  const CACHE_MAX_SIZE := 2048

  /** The `valid` and `error` fields of a cache entry. */
  datatype Verdict = Valid | BadSignature | Transient(error: string)

  datatype Entry = Entry(verdict: Verdict, expiresAt: real)

  datatype Pin = Pin(digest: string, verifiedAt: real, ttl: nat) {
    function ExpiresAt(): real {
      verifiedAt + ttl as real
    }
  }

  datatype Caches = Caches(entries: map<string, Entry>, pins: map<string, Pin>, limitedUntil: real)

  /** How the call of cosign ends. */
  datatype Answer =
    | Answered(valid: bool, digest: Option<string>)
    | Unavailable(error: string)
    | RateLimited
    | Crashed
  {
    predicate IsSuccess() {
      Answered? && valid
    }

    predicate IsFailure() {
      (Answered? && !valid) || Crashed?
    }
  }

  /** How a verification ends. */
  datatype Result = Returned(valid: bool) | RaisedUnavailable(error: string) | RaisedRateLimit

  /** What a verification ends with when cosign gives this answer. */
  ghost function AnswerOf(a: Answer): Result {
    match a
    case Answered(valid, _) => Returned(valid)
    case Crashed => Returned(false)
    case Unavailable(error) => RaisedUnavailable(error)
    case RateLimited => RaisedRateLimit
  }

  datatype Started = Finished(result: Result) | AwaitingCosign

  /** The clock readings after the await: for the pin or the back-off, for the purge, for the entry. */
  datatype Reads = Reads(first: real, purge: real, put: real) {
    predicate Ordered() {
      first <= purge <= put
    }
  }

  // ---------------------------------------------------------------------------
  // What the code computes
  // ---------------------------------------------------------------------------

  function Cached(entries: map<string, Entry>, image: string, now: real): Option<Result> {
    if image !in entries || now >= entries[image].expiresAt then None
    else
      match entries[image].verdict
      case Transient(error) => Some(RaisedUnavailable(error))
      case BadSignature => Some(Returned(false))
      case Valid => if IsDigestPinned(image) then Some(Returned(true)) else None
  }

  function Begin(c: Caches, image: string, lookupAt: real, checkAt: real): Started {
    var hit := Cached(c.entries, image, lookupAt);
    if hit.Some? then Finished(hit.value)
    else if c.limitedUntil != 0.0 && checkAt < c.limitedUntil then Finished(RaisedRateLimit)
    else AwaitingCosign
  }

  function Purged(entries: map<string, Entry>, now: real): map<string, Entry> {
    if |entries| >= CACHE_MAX_SIZE
    then map k | k in entries && entries[k].expiresAt > now :: entries[k]
    else entries
  }

  function Put(entries: map<string, Entry>, key: string, verdict: Verdict, ttl: real, t: Reads): map<string, Entry> {
    Purged(entries, t.purge)[key := Entry(verdict, t.put + ttl)]
  }

  /** The pin that a successful answer for a tag leaves, if any. */
  function NewPin(s: Settings, image: string, a: Answer, now: real): Option<Pin> {
    if IsDigestPinned(image) || !a.IsSuccess() || a.digest.None? || a.digest.value == "" then None
    else
      var ttl := PinTtl(s.pinWhitelist, StripTag(image));
      if ttl.None? then None else Some(Pin(a.digest.value, now, ttl.value))
  }

  function Complete(s: Settings, c: Caches, image: string, a: Answer, t: Reads): (Caches, Result) {
    match a
    case Unavailable(error) =>
      (c.(entries := Put(c.entries, image, Transient(error), TRANSIENT_SECONDS, t)), RaisedUnavailable(error))
    case RateLimited =>
      (c.(limitedUntil := t.first + RATE_LIMIT_BACKOFF), RaisedRateLimit)
    case _ =>
      var valid := a.IsSuccess();
      var pin := NewPin(s, image, a, t.first);
      if IsDigestPinned(image) then
        var ttl := if valid then s.successTtl else s.failureTtl;
        var verdict := if valid then Valid else BadSignature;
        (c.(entries := Put(c.entries, image, verdict, ttl as real, t)), Returned(valid))
      else if !valid then
        (if s.tagFailureTtl > 0
         then c.(entries := Put(c.entries, image, BadSignature, s.tagFailureTtl as real, t))
         else c,
         Returned(false))
      else if pin.Some? then
        var ref := PinnedRef(image, pin.value.digest);
        (c.(pins := c.pins[image := pin.value],
            entries := Put(c.entries, ref, Valid, pin.value.ttl as real, t)),
         Returned(true))
      else
        (c, Returned(true))
  }

  function PinnedDigest(pins: map<string, Pin>, image: string, now: real): Option<string> {
    if image in pins && now < pins[image].ExpiresAt() then Some(pins[image].digest) else None
  }

  /** After a put the cache is within its bound, or the purge left nothing expired to drop. */
  lemma PutBound(entries: map<string, Entry>, key: string, verdict: Verdict, ttl: real, t: Reads)
    ensures var r := Put(entries, key, verdict, ttl, t);
            |r| <= 2048 || forall k :: k in r && k != key ==> r[k].expiresAt > t.purge
    ensures forall k :: k in entries && k != key && k !in Put(entries, key, verdict, ttl, t) ==>
              entries[k].expiresAt <= t.purge
  {
    var kept := Purged(entries, t.purge);
    var r := Put(entries, key, verdict, ttl, t);
    assert r.Keys == kept.Keys + {key};
    assert |r| == |r.Keys| && |kept| == |kept.Keys|;
  }

  // ---------------------------------------------------------------------------
  // Interleaved runs
  // ---------------------------------------------------------------------------

  /** What cosign said, to which question, and when the answer was stored. */
  datatype Record = Record(image: string, answer: Answer, at: real)

  /** `inFlight` maps the verifications that wait for cosign to their images. `log` and `undisturbed`
      are history: every answer so far, and the images whose present pin was stored while no
      verification of the pinned reference was in flight. */
  datatype System = System(
    caches: Caches,
    now: real,
    inFlight: map<nat, string>,
    log: seq<Record>,
    undisturbed: set<string>)

  datatype Event =
    | BeginEvent(id: nat, image: string, lookupAt: real, checkAt: real)
    | CompleteEvent(id: nat, answer: Answer, clock: Reads)

  function Initial(start: real): System {
    System(Caches(map[], map[], 0.0), start, map[], [], {})
  }

  predicate Enabled(sys: System, e: Event) {
    match e
    case BeginEvent(id, _, lookupAt, checkAt) => id !in sys.inFlight && sys.now <= lookupAt <= checkAt
    case CompleteEvent(id, _, clock) => id in sys.inFlight && sys.now <= clock.first && clock.Ordered()
  }

  predicate InFlight(sys: System, image: string) {
    exists id :: id in sys.inFlight && sys.inFlight[id] == image
  }

  function Next(s: Settings, sys: System, e: Event): System
    requires Enabled(sys, e)
  {
    match e
    case BeginEvent(id, image, lookupAt, checkAt) =>
      if Begin(sys.caches, image, lookupAt, checkAt) == AwaitingCosign
      then sys.(now := checkAt, inFlight := sys.inFlight[id := image])
      else sys.(now := checkAt)
    case CompleteEvent(id, a, t) =>
      var image := sys.inFlight[id];
      var pin := NewPin(s, image, a, t.first);
      System(Complete(s, sys.caches, image, a, t).0,
             t.put,
             sys.inFlight - {id},
             sys.log + [Record(image, a, t.put)],
             if pin.None? then sys.undisturbed
             else if InFlight(sys, PinnedRef(image, pin.value.digest)) then sys.undisturbed - {image}
             else sys.undisturbed + {image})
  }

  /** The result a verification gets from the step, if it ends there. */
  function Output(s: Settings, sys: System, e: Event): Option<Result>
    requires Enabled(sys, e)
  {
    match e
    case BeginEvent(_, image, lookupAt, checkAt) =>
      var r := Begin(sys.caches, image, lookupAt, checkAt);
      if r.Finished? then Some(r.result) else None
    case CompleteEvent(id, a, t) => Some(Complete(s, sys.caches, sys.inFlight[id], a, t).1)
  }

  /** The state after a sequence of events from `from`, or None when some event is not possible. */
  function Run(s: Settings, from: System, events: seq<Event>): Option<System> {
    if events == [] then Some(from)
    else
      var before := Run(s, from, events[..|events| - 1]);
      var e := events[|events| - 1];
      if before.Some? && Enabled(before.value, e) then Some(Next(s, before.value, e)) else None
  }

  /** A state some run of the validator reaches. */
  ghost predicate Reachable(s: Settings, sys: System) {
    exists start: real, events :: start >= 0.0 && Run(s, Initial(start), events) == Some(sys)
  }

  // ---------------------------------------------------------------------------
  // Every entry is justified by what cosign said
  // ---------------------------------------------------------------------------

  /** A success of cosign that speaks for `image`: for that very reference, or for a whitelisted tag
      that cosign resolved to it. */
  ghost predicate SpeaksFor(s: Settings, r: Record, image: string) {
    && r.answer.IsSuccess()
    && (r.image == image
        || (!IsDigestPinned(r.image)
            && r.answer.digest.Some?
            && PinTtl(s.pinWhitelist, StripTag(r.image)).Some?
            && image == PinnedRef(r.image, r.answer.digest.value)))
  }

  /** How long such a success may be reused. */
  ghost function TtlOf(s: Settings, r: Record): real {
    var pinTtl := PinTtl(s.pinWhitelist, StripTag(r.image));
    if IsDigestPinned(r.image) || pinTtl.None? then s.successTtl as real else pinTtl.value as real
  }

  ghost predicate Justifies(s: Settings, r: Record, key: string, e: Entry) {
    match e.verdict
    case Valid =>
      SpeaksFor(s, r, key) && e.expiresAt == r.at + TtlOf(s, r)
    case BadSignature =>
      && r.image == key && r.answer.IsFailure()
      && e.expiresAt == r.at + (if IsDigestPinned(key) then s.failureTtl else s.tagFailureTtl) as real
    case Transient(error) =>
      r.image == key && r.answer == Unavailable(error) && e.expiresAt == r.at + TRANSIENT_SECONDS
  }

  ghost predicate Justified(s: Settings, log: seq<Record>, key: string, e: Entry) {
    exists i :: 0 <= i < |log| && Justifies(s, log[i], key, e)
  }

  ghost predicate EntriesJustified(s: Settings, sys: System) {
    forall k :: k in sys.caches.entries ==> Justified(s, sys.log, k, sys.caches.entries[k])
  }

  ghost predicate ClockSane(sys: System) {
    && 0.0 <= sys.now
    && sys.caches.limitedUntil <= sys.now + RATE_LIMIT_BACKOFF
    && (forall i :: 0 <= i < |sys.log| ==> sys.log[i].at <= sys.now)
  }

  lemma JustifiedGrows(s: Settings, log: seq<Record>, r: Record, key: string, e: Entry)
    requires Justified(s, log, key, e)
    ensures Justified(s, log + [r], key, e)
  {
    var i :| 0 <= i < |log| && Justifies(s, log[i], key, e);
    assert Justifies(s, (log + [r])[i], key, e);
  }

  /** A put of an entry that the newest answer justifies keeps all entries justified. */
  lemma PutJustified(s: Settings, sys: System, r: Record, key: string, verdict: Verdict, ttl: real, t: Reads)
    requires EntriesJustified(s, sys)
    requires Justifies(s, r, key, Entry(verdict, t.put + ttl))
    ensures var after := Put(sys.caches.entries, key, verdict, ttl, t);
            forall k :: k in after ==> Justified(s, sys.log + [r], k, after[k])
  {
    var log, after := sys.log + [r], Put(sys.caches.entries, key, verdict, ttl, t);
    forall k | k in after ensures Justified(s, log, k, after[k]) {
      if k == key {
        assert Justifies(s, log[|sys.log|], k, after[k]);
      } else {
        JustifiedGrows(s, sys.log, r, k, after[k]);
      }
    }
  }

  lemma NoPutJustified(s: Settings, sys: System, r: Record)
    requires EntriesJustified(s, sys)
    ensures forall k :: k in sys.caches.entries ==> Justified(s, sys.log + [r], k, sys.caches.entries[k])
  {
    forall k | k in sys.caches.entries ensures Justified(s, sys.log + [r], k, sys.caches.entries[k]) {
      JustifiedGrows(s, sys.log, r, k, sys.caches.entries[k]);
    }
  }

  lemma CompleteJustified(s: Settings, sys: System, e: Event)
    requires e.CompleteEvent? && Enabled(sys, e)
    requires EntriesJustified(s, sys)
    ensures EntriesJustified(s, Next(s, sys, e))
  {
    var image, a, t := sys.inFlight[e.id], e.answer, e.clock;
    var r := Record(image, a, t.put);
    var pin := NewPin(s, image, a, t.first);
    NoPutJustified(s, sys, r);
    if a.Unavailable? {
      PutJustified(s, sys, r, image, Transient(a.error), TRANSIENT_SECONDS, t);
    } else if a.RateLimited? {
    } else if IsDigestPinned(image) {
      var ttl := if a.IsSuccess() then s.successTtl else s.failureTtl;
      var verdict := if a.IsSuccess() then Valid else BadSignature;
      PutJustified(s, sys, r, image, verdict, ttl as real, t);
    } else if !a.IsSuccess() {
      if s.tagFailureTtl > 0 {
        PutJustified(s, sys, r, image, BadSignature, s.tagFailureTtl as real, t);
      }
    } else if pin.Some? {
      var ref := PinnedRef(image, pin.value.digest);
      PutJustified(s, sys, r, ref, Valid, pin.value.ttl as real, t);
    }
  }
}
