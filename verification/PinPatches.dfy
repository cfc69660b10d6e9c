/** The mutating webhook: `build_image_pin_patches` of src/sek8s/sek8s/services/admission_controller.py
    with the pins of the validator. */
module PinPatches {
  import opened Text
  import opened ImageRef
  import opened CosignConfig
  import opened CosignCache
  import opened CosignRuns
  import opened CosignAnswers
  import opened CosignValidator
  import opened ImagePatches

  /** The reference an image is rewritten to, if it is rewritten. */
  function Rewrite(pins: map<string, Pin>, now: real, image: string): Option<string> {
    if image == "" || IsDigestPinned(image) then None
    else
      var digest := PinnedDigest(pins, image, now);
      if digest.None? || digest.value == "" then None else Some(PinnedRef(image, digest.value))
  }

  function PinsAt(pins: map<string, Pin>, now: real): (f: Rewriting)
    ensures Proper(f)
  {
    image => Rewrite(pins, now, image)
  }

  method RewriteImage(v: Validator, image: string, now: real) returns (value: Option<string>)
    ensures value == PinsAt(v.tagCache, now)(image)
  {
    if image == "" || IsDigestPinned(image) {
      return None;
    }
    var digest := v.GetPinnedDigest(image, now);
    if digest.Some? && digest.value != "" {
      return Some(StripTag(image) + "@" + digest.value);
    }
    return None;
  }

  /** Each container with its own reading of the clock. */
  function PinsBy(pins: map<string, Pin>, clock: (Place, nat) -> real): (g: Timed)
    ensures LeavesEmpty(g)
  {
    var g: Timed := (place, index) => PinsAt(pins, clock(place, index));
    assert forall place, index: nat :: Proper(PinsAt(pins, clock(place, index)));
    g
  }

  method MaybePin(v: Validator, containers: seq<Container>, place: Place, clock: (Place, nat) -> real)
    returns (patches: seq<Patch>)
    ensures patches == ListPatches(PinsBy(v.tagCache, clock), containers, place, 0)
  {
    patches := [];
    ghost var g := PinsBy(v.tagCache, clock);
    var idx := 0;
    while idx < |containers|
      invariant 0 <= idx <= |containers|
      invariant patches + ListPatches(g, containers, place, idx) == ListPatches(g, containers, place, 0)
    {
      var value := RewriteImage(v, containers[idx].ImageText(), clock(place, idx));
      ListPatchesNext(g, containers, place, idx, patches, value);
      if value.Some? {
        patches := patches + [Patch(place, idx, value.value)];
      }
      idx := idx + 1;
    }
  }

  method CollectPatches(v: Validator, obj: Object, places: seq<Place>, clock: (Place, nat) -> real)
    returns (patches: seq<Patch>)
    ensures patches == PatchesFrom(PinsBy(v.tagCache, clock), obj, places, 0)
  {
    ghost var g := PinsBy(v.tagCache, clock);
    patches := [];
    var i := 0;
    while i < |places|
      invariant 0 <= i <= |places|
      invariant patches + PatchesFrom(g, obj, places, i) == PatchesFrom(g, obj, places, 0)
    {
      PatchesFromStep(g, obj, places, i, patches);
      if places[i] in obj {
        var more := MaybePin(v, obj[places[i]], places[i], clock);
        patches := patches + more;
      }
      i := i + 1;
    }
  }

  /** The patches apply cleanly and pin every container and init container whose pin is live when the
      clock is read for it, and nothing else. */
  method BuildImagePinPatches(v: Validator, obj: Object, clock: (Place, nat) -> real) returns (patches: seq<Patch>)
    ensures patches == Patches(PinsBy(v.tagCache, clock), obj)
    ensures ApplyAll(obj, patches) == Some(PinObject(PinsBy(v.tagCache, clock), obj))
  {
    patches := CollectPatches(v, obj, PLACES, clock);
    PatchesPinObject(PinsBy(v.tagCache, clock), obj);
  }

  /** No pin ends between two instants. */
  ghost predicate Steady(pins: map<string, Pin>, from: real, until: real) {
    forall image :: image in pins ==> pins[image].ExpiresAt() <= from || until < pins[image].ExpiresAt()
  }

  /** While no pin ends, the readings in between do not matter: the pass is one at a single instant. */
  lemma SteadyPass(pins: map<string, Pin>, clock: (Place, nat) -> real, from: real, until: real, obj: Object)
    requires Steady(pins, from, until) && forall place, i :: from <= clock(place, i) <= until
    ensures PinObject(PinsBy(pins, clock), obj) == PinObject(Always(PinsAt(pins, from)), obj)
  {
    forall place, i: nat, image ensures PinsAt(pins, clock(place, i))(image) == PinsAt(pins, from)(image) {
      assert from <= clock(place, i) <= until;
    }
    SamePins(PinsBy(pins, clock), Always(PinsAt(pins, from)), obj);
  }

  /** The rewritten text of `image` is digest-pinned, or has no live pin of its own. */
  predicate PinIsFinal(pins: map<string, Pin>, now: real, image: string) {
    var value := Rewrite(pins, now, image);
    value.Some? ==>
      IsShaDigest(PinnedDigest(pins, image, now).value) || PinnedDigest(pins, value.value, now) in [None, Some("")]
  }

  lemma SettledIff(pins: map<string, Pin>, now: real, image: string)
    ensures Settled(PinsAt(pins, now), image) <==> PinIsFinal(pins, now, image)
  {
    var value := Rewrite(pins, now, image);
    if value.Some? {
      PinnedRefIsDigestPinned(image, PinnedDigest(pins, image, now).value);
    }
  }

  predicate FinalAt(pins: map<string, Pin>, now: real, obj: Object, place: Place) {
    place in obj ==> forall i :: 0 <= i < |obj[place]| ==> PinIsFinal(pins, now, obj[place][i].ImageText())
  }

  /** A second pass at the same instant yields no patches if and only if every rewritten image got a
      sha256 or sha512 digest, or its new text has no live pin of its own. */
  lemma SecondPassIff(pins: map<string, Pin>, now: real, obj: Object)
    ensures Patches(Always(PinsAt(pins, now)), PinObject(Always(PinsAt(pins, now)), obj)) == []
            <==> forall i :: 0 <= i < |PLACES| ==> FinalAt(pins, now, obj, PLACES[i])
  {
    NoPatchesFromIff(PinsAt(pins, now), obj, PLACES);
    forall image ensures Settled(PinsAt(pins, now), image) <==> PinIsFinal(pins, now, image) {
      SettledIff(pins, now, image);
    }
  }

  /** Over every run of the validator an image is rewritten to its name with the digest of the latest success that
      pinned it, for exactly as long as that pin lasts. */
  lemma RewriteIsLatest(s: Settings, start: real, events: seq<Event>, image: string, now: real)
    requires Run(s, Initial(start), events).Some? && image != ""
    ensures Rewrite(Run(s, Initial(start), events).value.caches.pins, now, image)
         == var latest := LatestPin(s, Initial(start), events, image);
            if latest.Some? && now < latest.value.verifiedAt + latest.value.ttl as real
            then Some(StripTag(image) + "@" + latest.value.digest) else None
  {
    LatestPinIsRead(s, start, events, image, now);
    if LatestPin(s, Initial(start), events, image).Some? {
      LatestPinIsGood(s, Initial(start), events, image);
    }
  }

  /** A rewritten image passes signature verification from the cache alone, in every reachable state,
      until its pin ends. */
  lemma RewrittenImageValidates(s: Settings, sys: System, image: string, readAt: real, lookupAt: real, checkAt: real)
    requires Reachable(s, sys) && image in sys.undisturbed && sys.now <= readAt
    requires Rewrite(sys.caches.pins, readAt, image).Some? && IsShaDigest(sys.caches.pins[image].digest)
    requires sys.now <= lookupAt <= checkAt && lookupAt < sys.caches.pins[image].ExpiresAt()
    ensures Begin(sys.caches, PinText(PinsAt(sys.caches.pins, readAt), image), lookupAt, checkAt)
            == Finished(Returned(true))
  {
    PinnedDigestValidates(s, sys, image, readAt, lookupAt, checkAt);
  }
}
