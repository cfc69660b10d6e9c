# Verified model of sek8s and its host tools

sek8s guards a confidential-computing Kubernetes node: an admission webhook accepts only images whose
cosign signature verifies, a system manager pulls images and keeps a Hugging Face model cache, and host
tools launch the TDX guest with its GPUs. This project models the parts of it whose correctness is not
visible in any single function, and proves what they promise over all inputs and all runs.

| modules | what they model |
|---|---|
| `Text`, `OrderedDict` | string operations of Python, sorting of names, insertion-ordered dictionaries |
| `ImageRef`, `CosignConfig` | image references and the verification configuration that applies to them |
| `CosignCache`, `CosignRuns`, `CosignAnswers`, `CosignValidator` | the cosign result cache, the tag pins and the back-off: a specification, its safety over all interleaved runs, and the class whose methods are proved against it |
| `ImagePatches`, `PinPatches` | the mutating webhook that rewrites tags to digests |
| `AdmissionRules` | the rule sets of the cosign validator and the decision they lead to |
| `ChangelogLines` to `ChangelogScript` | the changelog parser, merger, printer and splicer, and when its batches agree |
| `PciTopology`, `PciPorts`, `PciBuses`, `PciPassthrough`, `Fingerprint` | the PCI/NUMA allocators and the fingerprint of a host |
| `CpuPinning` | pinning of vCPU and IO threads |
| `CacheCleanup`, `CacheVerify`, `CacheMarkers` | eviction from the model cache, verification against the manifest, and the marker files |
| `HostTuning` | CPU tuning of the host and its undo script |
| `ImagePulls` | the table of background pulls |

Concurrency is modelled as it is in the program. An asyncio coroutine is cut at its `await`s: the code
between two of them is one step of a state machine, the answer of the awaited call is part of the event,
and a run is any sequence of steps. The clock is a real number that does not go back between steps; each
reading of it inside a step is a separate input. Library calls such as `str.lower`, `int` and
`fnmatch.fnmatch` are arbitrary functions. What the network, subprocesses, sysfs and the file system
answer is an input everywhere, and error answers are among the inputs.

Where the source updates an object, the model is a class with the same fields, and each method's contract
gives the whole new state as a specification function of the old one. The run-level theorems are about
that function.

## What turned out not to hold as documented

The code is modelled as it is. For each of these there is a lemma with a concrete case and one that says
exactly when the promise holds.

- A tag pin is not always backed by a usable cache entry: a verification of the pinned digest that was
  already in flight when the pin was stored can overwrite the entry (`CosignRuns.OverlapLosesPin`,
  `CosignRuns.PinSurvivesIff`).
- "Most specific wins" in the cosign configuration: a registry pattern listed before an exact entry takes
  its place (`CosignConfig.PatternShadowsExact`, `CosignConfig.ExactEntryWins`).
- The validators see the init containers of a spec only when the spec has containers of its own, while the
  webhook rewrites them in any case (`ImagePatches.InitOnlyUnseen`, `ImagePatches.RewritableSeenIff`).
- The order of the cosign rules affects which violations are found when the verification is paused by a
  rate limit and another rule has something to report (`AdmissionRules.PauseDepends`,
  `AdmissionRules.ReportedOrderFreeIff`).
- Promoting fragments in two batches differs from promoting them together when the version has a closing
  bracket inside, when a bullet of the first batch looks like a heading, or when the changelog is only a
  preamble without a final line break (`ChangelogExamples.BracketExample`,
  `ChangelogExamples.HeadingBulletExample`, `ChangelogExamples.PreambleExample`). In that last case a
  heading-shaped bullet can also make the two agree by accident (`ChangelogExamples.LuckyExample`);
  `ChangelogExact.TwoBatchesIff` is exact.
- The fingerprint is finer than the launch arguments when devices have no known NUMA node
  (`Fingerprint.UnknownNodesLaunchFlat`, `Fingerprint.SameArgsIff`).
- Root port numbers repeat when devices with and without a known NUMA node mix
  (`PciPorts.MixedPairShares`, `PciPorts.PortNumbersUniqueIff`), and places on the root bus collide when
  there are too many flat devices (`PciTopology.RootBusLimitIsTight`, `PciTopology.NoCollisionIff`).
- A cache with a wrong file is documented to become stale. It stays incomplete when the file's own path, or
  a printed hash, holds one of the phrases the error text is searched for (`CacheVerify.MisleadingName`,
  `CacheVerify.SizeMismatchStaleIff`, `CacheVerify.HashMismatchStaleIff`).
- A manifest with a file below a directory whose name starts with an underscore never verifies
  (`CacheVerify.HiddenFileExample`, `CacheVerify.CanPassIff`).
- A chute can end up with both marker files (`CacheMarkers.OverlapLeavesBoth`,
  `CacheMarkers.KillLeavesBoth`, `CacheMarkers.BothAtRestIff`).
- Nothing keeps the bus numbers of the PXB bridges, 32 apart from 128 on, from meeting: a 32nd device behind
  a bridge reaches the next one, and a fifth bridge begins at 256 (`PciBuses.ThirtyTwoReach`,
  `PciBuses.BusesDisjointIff`, `PciBuses.BusesFitIff`).
- A restore is meant to return the values from before the host was tuned. The undo script saves tuned values
  as the original ones when an earlier apply tuned a file and left no script, because the script could not be
  written or a later write ended the apply (`HostTuning.OriginalLost`). And a restore that cannot remove its
  script leaves it for the next apply, which takes no new snapshot, so that a later restore replays values
  that are out of date (`HostTuning.OldScriptReplayed`). `HostTuning.RestoredIff` is exact for both.
- A pulled image stays "present" for start calls also after it has been removed
  (`ImagePulls.RemovedStaysPresent`, `ImagePulls.PresentIff`).

## Model

| member | source | states |
|---|---|---|
| `Text.LessIff` | scripts/promote_changelogs.py:75-133 | names are sorted by their first differing code point, a prefix first |
| `Text.DecimalReads` | src/sek8s/sek8s/services/admission_controller.py:306-321 | the printed index of a container, and any other number, reads back as itself, without a leading zero |
| `Text.IntTextReads` | src/sek8s/sek8s/system_manager/cache/util.py:204-216 | so does a printed size, behind a minus sign when it is negative |
| `ImageRef.NeverInvalid` | src/sek8s/sek8s/image_utils.py:63-101 | the parser's error branch is unreachable: every string parses |
| `ImageRef.ParseWellFormed` | src/sek8s/sek8s/image_utils.py:63-101 | what the parts of any parsed reference look like: where "/" and "@" can still occur |
| `ImageRef.ReferenceRoundTrip` | src/sek8s/sek8s/image_utils.py:63-101 | a reference written out in full with a tag reads back as its four parts, and stripping it leaves the first three |
| `ImageRef.TagIsCutOff` | src/sek8s/sek8s/image_utils.py:23-101 | for any name without a tag, appending one changes nothing but the tag, which is "latest" when there is none; so the stripped name stays the same |
| `ImageRef.DigestIsCutOff` | src/sek8s/sek8s/image_utils.py:23-101 | a digest behind the first "@" is cut off as it stands, a tag before it is not |
| `ImageRef.PartsOfOne` | src/sek8s/sek8s/image_utils.py:83-84 | a name of one component is an official image of Docker Hub |
| `ImageRef.PartsOfOrganization` | src/sek8s/sek8s/image_utils.py:86-101 | a first component without dot or colon other than "localhost" is an organization of Docker Hub |
| `ImageRef.PartsOfRegistry` | src/sek8s/sek8s/image_utils.py:86-96 | with a dot or a colon, or as "localhost", it is a registry |
| `ImageRef.PinnedRefParses` | src/sek8s/sek8s/image_utils.py:23-101 | for every string and digest, parsing the stripped string with "@" and the digest gives back registry, organization and repository of the original together with "@" and the digest |
| `ImageRef.StripTagOfPinned` | src/sek8s/sek8s/image_utils.py:23-33 | stripping a pinned reference gives the stripped original |
| `ImageRef.PinnedRefInjective` | src/sek8s/sek8s/image_utils.py:23-33 | two pinned references are equal only for equal stripped images and equal digests, so they can be cache keys |
| `ImageRef.PinnedRefIsDigestPinned` | src/sek8s/sek8s/image_utils.py:10-20 | a reference with a sha256 or sha512 digest counts as digest-pinned, whatever the image string |
| `ImageRef.DigestPinnedIff` | src/sek8s/sek8s/image_utils.py:10-20 | a reference is digest-pinned if and only if what follows its last "@" begins with "sha256:" or "sha512:" |
| `ImageRef.RegistriesAgree` | src/sek8s/sek8s/image_utils.py:44-101 | the registry the allowlist checks is the one the cosign lookup parses, if and only if the reference does not hide its first "/" behind an "@" |
| `CosignConfig.ChooseRegistry` | src/sek8s/sek8s/config.py:562-578 | for any lower-casing, the entry the scan picks is the first exact or pattern match, else the last bare wildcard, else none |
| `CosignConfig.FindRegistry` | src/sek8s/sek8s/config.py:562-578 | the loop makes exactly that choice |
| `CosignConfig.GetVerificationConfig` | src/sek8s/sek8s/config.py:527-627 | for every configuration and image the result is the one that `MostSpecificWins` describes |
| `CosignConfig.MostSpecificWins` | src/sek8s/sek8s/config.py:527-627 | by index: in the chosen registry entry, at the first exact key else the first matching pattern, the organization; in it, found the same way, the repository; the answer is the repository's configuration, without one the organization's own, without that the registry's own |
| `CosignConfig.ConfigOfReference` | src/sek8s/sek8s/config.py:527-627 | an image written out in full is looked up by its registry, organization and repository |
| `CosignConfig.RegistryPatterns` | src/sek8s/sek8s/config.py:641-672 | a pattern stands for a name and all below it, for a prefix, for a suffix or for itself, by where its star is |
| `CosignConfig.NamePatterns` | src/sek8s/sek8s/config.py:674-712 | the same for organizations and repositories, with the glob library for all other patterns |
| `CosignConfig.NormalizedRegistry` | src/sek8s/sek8s/config.py:629-639 | a registry is looked up without scheme and path, in lower case, and Docker Hub under one name |
| `CosignConfig.PickEntry` | src/sek8s/sek8s/config.py:588-618 | exact names first in list order, then patterns in list order |
| `CosignConfig.GetPinTtl` | src/sek8s/sek8s/config.py:516-525 | the lifetime of the first whitelist entry for the image, if any |
| `CosignConfig.PinTtlIs` | src/sek8s/sek8s/config.py:516-525 | an image is whitelisted if and only if an entry names it, and the first such entry counts |
| `CosignConfig.PinnedRefSameConfig` | src/sek8s/sek8s/config.py:527-627 | pinning an image never changes the configuration it is verified under |
| `CosignConfig.ExactEntryWins` | src/sek8s/sek8s/config.py:566-574 | an exact registry entry is chosen if and only if nothing before it matches |
| `CosignConfig.WildcardIsFallback` | src/sek8s/sek8s/config.py:562-578 | a bare wildcard entry is chosen if and only if no other entry matches and no further wildcard follows |
| `CosignConfig.PatternShadowsExact` | src/sek8s/sek8s/config.py:566-574 | a concrete configuration in which a pattern takes the place of the exact entry |
| `CosignCache.PutBound` | src/sek8s/sek8s/validators/cosign.py:461-473 | after a store the cache has at most 2048 entries, or every other entry was unexpired at the purge |
| `CosignCache.CompleteJustified` | src/sek8s/sek8s/validators/cosign.py:377-421 | every entry that a finished verification leaves behind is justified by an answer of cosign in the log |
| `CosignValidator.Validator.Store` | src/sek8s/sek8s/validators/cosign.py:461-473 | the new cache as a function of the old one: purge only when full, then the entry |
| `CosignValidator.Validator.ReadCache` | src/sek8s/sek8s/validators/cosign.py:342-355 | the cached result, with True only for digest-pinned references |
| `CosignValidator.Validator.BeginVerify` | src/sek8s/sek8s/validators/cosign.py:357-375 | the step up to the call of cosign |
| `CosignValidator.Validator.CompleteVerify` | src/sek8s/sek8s/validators/cosign.py:377-421 | the step from the answer on: both caches, the back-off, and the result, which is what cosign just said |
| `CosignValidator.Validator.GetPinnedDigest` | src/sek8s/sek8s/validators/cosign.py:423-433 | the digest of a live pin |
| `CosignRuns.StepSound` | src/sek8s/sek8s/validators/cosign.py:357-421 | every step of every interleaving keeps each cache entry justified by a logged answer, and the clock sane |
| `CosignRuns.RunSound` | src/sek8s/sek8s/validators/cosign.py:357-421 | so does every run |
| `CosignRuns.TrueIsBacked` | src/sek8s/sek8s/validators/cosign.py:342-421 | in every reachable state True comes from cosign in this very call, or the reference is digest-pinned and a success for it or for a tag of the same repository that resolved to it, under the same configuration, is younger than its lifetime; a tag never gets True from the cache |
| `CosignRuns.FailureIsBacked` | src/sek8s/sek8s/validators/cosign.py:342-421 | a cached False or outage goes back to a failure of cosign for the same reference within its lifetime |
| `CosignRuns.AgreesWithCosign` | src/sek8s/sek8s/validators/cosign.py:342-421 | while cosign's verdict on a digest does not change, the cached answer equals asking cosign |
| `CosignAnswers.AnswerIsReused` | src/sek8s/sek8s/validators/cosign.py:342-421 | a finished verification answers what cosign said; and until the lifetime of that answer ends, however the run goes on without other news of the reference, every verification of it gets the same answer without a call: a digest's success or failure, an outage for 30 seconds, a tag's failure when it has a lifetime |
| `CosignAnswers.LatestIsRecalled` | src/sek8s/sek8s/validators/cosign.py:342-421 | over every run the cache answers exactly the latest thing it was told about a reference, until its lifetime ends |
| `CosignAnswers.BeginIsDetermined` | src/sek8s/sek8s/validators/cosign.py:357-375 | over every run a verification begins with exactly what is remembered, else with the back-off of 300 seconds from the latest rate-limit answer, else with a call of cosign |
| `CosignAnswers.LatestPinIsRead` | src/sek8s/sek8s/validators/cosign.py:403-433 | over every run the digest read for a tag is that of the latest success that pinned it, until the pin ends |
| `CosignRuns.RunKeepsProtected` | src/sek8s/sek8s/validators/cosign.py:357-421 | however a run goes on, a protected digest reference stays answered until its deadline |
| `CosignRuns.PinSurvivesIff` | src/sek8s/sek8s/validators/cosign.py:403-433 | a stored sha pin is good for its whole lifetime under every continuation, if and only if no verification of the pinned reference was in flight when it was stored |
| `CosignRuns.InFlightBreaks` | src/sek8s/sek8s/validators/cosign.py:377-421 | a verification in flight can always overwrite the entry |
| `CosignRuns.OverlapLosesPin` | src/sek8s/sek8s/validators/cosign.py:403-433 | for every whitelisted tag and sha digest there is a run from the start that leaves a live pin whose reference is not answered True |
| `CosignRuns.StepKeepsPins` | src/sek8s/sek8s/validators/cosign.py:403-433 | every step keeps every undisturbed sha pin protected until it ends |
| `CosignRuns.PinnedDigestValidates` | src/sek8s/sek8s/validators/cosign.py:403-433 | in every reachable state an undisturbed pinned digest is backed by a live True entry under exactly the reference the webhook emits: validation before the pin ends succeeds without calling cosign |
| `CosignRuns.AtomicRunsUndisturbed` | src/sek8s/sek8s/validators/cosign.py:377-421 | without overlapping verifications every sha pin is undisturbed |
| `CosignRuns.BackoffMonotone` | src/sek8s/sek8s/validators/cosign.py:372-386 | over every run the back-off deadline never moves back |
| `CosignRuns.NoCallDuringBackoff` | src/sek8s/sek8s/validators/cosign.py:372-386 | no call of cosign starts before a deadline that was in force at any earlier point of the run |
| `CosignRuns.RateLimitSilences` | src/sek8s/sek8s/validators/cosign.py:372-386 | after a rate-limit answer every verification that starts within the back-off period ends without cosign, whatever ran between |
| `ImagePatches.PointerInjective` | src/sek8s/sek8s/services/admission_controller.py:306-360 | different image fields have different JSON pointers |
| `ImagePatches.PointerLeads` | src/sek8s/sek8s/services/admission_controller.py:306-360 | the pointer leads, key by key as RFC 6901 reads it, from the object to the container at the index and to its image |
| `ImagePatches.ApplyListPatches` | src/sek8s/sek8s/services/admission_controller.py:306-321 | the patches of one list, applied as replace operations of section 4.3 of RFC 6902, pin each container of it and keep order, count and everything else |
| `ImagePatches.PatchesPinObject` | src/sek8s/sek8s/services/admission_controller.py:296-360 | all patches apply without error and give the object with each container and init container pinned, nothing else changed |
| `ImagePatches.ExtractImagesOf` | src/sek8s/sek8s/validators/base.py:76-123 | the images are the non-empty image fields of the visited lists, in order; an image is among them if and only if some container has it in the lists of a template, in the main or init list of a job, or in a direct list while there are direct containers |
| `ImagePatches.ExtractedIff` | src/sek8s/sek8s/validators/base.py:76-123 | the same for the specification, list by list |
| `ImagePatches.ExtractedInOrder` | src/sek8s/sek8s/validators/base.py:76-123 | the images come list after list, in the order of the source |
| `ImagePatches.RewritableSeenIff` | src/sek8s/sek8s/services/admission_controller.py:296-360 | every image that the webhook can rewrite is seen by the validators, if and only if the spec has containers of its own or all images of its own init containers are seen elsewhere |
| `ImagePatches.InitOnlyUnseen` | src/sek8s/sek8s/validators/base.py:83-84 | an object with only init containers of its own has an image that is rewritten and not seen |
| `ImagePatches.PatchedPlaces` | src/sek8s/sek8s/services/admission_controller.py:296-360 | the lists that are rewritten are the main and the init containers at each level |
| `ImagePatches.ExtractCommutes` | src/sek8s/sek8s/validators/base.py:76-123 | extracting images from the patched object is pinning the extracted images, if and only if no image at an unpatched place would be rewritten |
| `ImagePatches.ExtractCommutesWithoutEphemeral` | src/sek8s/sek8s/validators/base.py:76-123 | so they commute for objects without ephemeral containers |
| `ImagePatches.NoPatchesFromIff` | src/sek8s/sek8s/services/admission_controller.py:296-360 | a second pass over given places yields nothing if and only if each rewritten reference is itself left alone |
| `PinPatches.RewriteImage` | src/sek8s/sek8s/services/admission_controller.py:306-321 | the reference an image is rewritten to, by the live pins |
| `PinPatches.MaybePin` | src/sek8s/sek8s/services/admission_controller.py:306-321 | the patches of one container list, each at its own index and by its own reading of the clock |
| `PinPatches.BuildImagePinPatches` | src/sek8s/sek8s/services/admission_controller.py:296-360 | the patches apply cleanly and pin exactly the images whose pin is live when the clock is read for them |
| `PinPatches.SteadyPass` | src/sek8s/sek8s/services/admission_controller.py:296-360 | while no pin ends, the pass is one at a single instant |
| `PinPatches.SecondPassIff` | src/sek8s/sek8s/services/admission_controller.py:296-360 | a second pass at the same instant yields no patches if and only if every digest pinned by the first one makes a final reference, which every sha256 and sha512 digest does |
| `PinPatches.RewriteIsLatest` | src/sek8s/sek8s/services/admission_controller.py:306-321 | over every run of the validator an image is rewritten to its name with the digest of the latest success that pinned it, exactly as long as that pin lasts |
| `PinPatches.RewrittenImageValidates` | src/sek8s/sek8s/services/admission_controller.py:306-321 | in every reachable state an image that the webhook rewrites by an undisturbed sha pin validates from the cache before the pin ends |
| `AdmissionRules.JudgeImages` | src/sek8s/sek8s/validators/cosign.py:221-336 | the loop of every rule judges each distinct image once, in order, up to the first exception that ends it |
| `AdmissionRules.RunRules` | src/sek8s/sek8s/validators/cosign.py:196-215 | exactly which violations the loop ends with: all messages of the rules in order, cut after a pause, replaced by an outage |
| `AdmissionRules.NothingCollectedIff` | src/sek8s/sek8s/validators/cosign.py:196-215 | there is no violation exactly when every rule in the list is quiet, also with the early exits |
| `AdmissionRules.ReportedOrderFreeIff` | src/sek8s/sek8s/validators/cosign.py:135-150 | which violations are found, as a multiset, is the same for every ordering of the rule set, if and only if the verification is not paused or every other rule passes |
| `AdmissionRules.PauseDepends` | src/sek8s/sek8s/validators/cosign.py:196-215 | two orderings that report different violations, whenever the verification is paused and another rule complains |
| `AdmissionRules.Validate` | src/sek8s/sek8s/validators/cosign.py:156-215 | a request is allowed if and only if its kind makes no pods, it deletes, it has no images, or its pod is accepted, which is spelled out for the chutes namespace and for others, whatever the order of the rules; a denial gives the collected messages |
| `AdmissionRules.AcceptedIff` | src/sek8s/sek8s/validators/cosign.py:119-336 | all rules of a namespace pass if and only if the pod is accepted: in the chutes namespace the key is set and each image verified under a configuration that asks for a signature by that key; elsewhere each image verified or has no configuration that asks for one |
| `AdmissionRules.VerifyEnds` | src/sek8s/sek8s/validators/cosign.py:287-336 | the verification rule ends with the outage or the pause of the first image that has one, and otherwise goes through all images |
| `AdmissionRules.OtherRulesEnd` | src/sek8s/sek8s/validators/cosign.py:221-285 | no other rule ends the loop early; the rule of the required key raises exactly when there is none |
| `AdmissionRules.ComplaintsName` | src/sek8s/sek8s/validators/cosign.py:221-336 | every message about an image names it |
| `AdmissionRules.ReportsName` | src/sek8s/sek8s/validators/cosign.py:196-211 | the report of an outage or of another exception gives its cause |
| `AdmissionRules.RulePassesIff` | src/sek8s/sek8s/validators/cosign.py:221-336 | a rule reports nothing exactly when every image passes it |
| `AdmissionRules.ChutesDecision` | src/sek8s/sek8s/validators/cosign.py:119-150 | a chutes pod passes if and only if the key path is set and each image has an enabled key-based configuration with that key and a True verification |
| `AdmissionRules.DefaultDecision` | src/sek8s/sek8s/validators/cosign.py:131-150 | elsewhere a pod passes if and only if each image with an enabled configuration verified |
| `AdmissionRules.AllowedChutesPodIsVouched` | src/sek8s/sek8s/validators/cosign.py:119-421 | in the very run whose verifications the decision used, cosign vouches for every image of a chutes pod that passes, at the step where its verification ended: in that call or by a fresh success for the same repository under the same configuration; and the image has an enabled key-based configuration with the required key |
| `AdmissionRules.ValidateInRun` | src/sek8s/sek8s/validators/cosign.py:156-421 | the same as a contract of the validation: it allows a chutes pod only if every image was vouched for at its step of the run |
| `ChangelogLines.ConcatLines` | scripts/promote_changelogs.py:145-193 | cutting any text into lines and joining them gives the text |
| `ChangelogLines.LinesConcat` | scripts/promote_changelogs.py:145-193 | joining lines and cutting again gives the lines |
| `ChangelogLines.BreakCodes` | scripts/promote_changelogs.py:145-193 | the code points at which a text is cut into lines |
| `ChangelogLines.SpaceCodes` | scripts/promote_changelogs.py:84-96 | the code points that stripping removes |
| `ChangelogLines.BlankIff` | scripts/promote_changelogs.py:84-96 | a line is blank if and only if it holds nothing else |
| `ChangelogLines.PrintedHeading` | scripts/promote_changelogs.py:136-142 | a printed heading is read back as its version |
| `ChangelogLines.PrintedCategory` | scripts/promote_changelogs.py:84-96 | a category line names its category, with or without its line break |
| `ChangelogProofs.CategoriesRoundTrip` | scripts/promote_changelogs.py:84-142 | parsing printed categories gives the same categories and bullets in the same order |
| `ChangelogHeadings.PrintedForm` | scripts/promote_changelogs.py:136-142 | a section is printed as its heading and a blank line, and for each category in order its heading, its bullets and a blank line |
| `ChangelogPromotion.MergeBatches` | scripts/promote_changelogs.py:99-133 | merging batch after batch is merging them together |
| `ChangelogPromotion.StandardOrder` | scripts/promote_changelogs.py:99-116 | every category is listed once, "Added" before "Changed" before "Fixed" before "Removed" before all others, which are sorted |
| `ChangelogPromotion.SectionFound` | scripts/promote_changelogs.py:156-193 | a printed section put between other lines is found, with its bounds and its categories |
| `ChangelogPromotion.PromotedSection` | scripts/promote_changelogs.py:136-207 | after an insertion or replacement parsing gives exactly the merged categories, the bounds are exactly the printed section, and all text outside is unchanged |
| `ChangelogPromotion.TwoBatches` | scripts/promote_changelogs.py:84-401 | promoting two batches one after the other gives exactly the text of promoting them together |
| `ChangelogLimits.LostSectionDiffers` | scripts/promote_changelogs.py:196-207 | a section that is not found again is written twice, and the text is longer |
| `ChangelogLimits.GluedHeading` | scripts/promote_changelogs.py:136-153 | a heading printed behind other text on its line is not read as the heading of a version without a bracket |
| `ChangelogHeadings.CutFound` | scripts/promote_changelogs.py:156-193 | a section with a heading-shaped bullet is found up to that bullet, and parses to what stands before it |
| `ChangelogHeadings.CombineExtra` | scripts/promote_changelogs.py:99-116 | how much longer a merge prints, by the names that are there already |
| `ChangelogHeadings.HeadingBulletsDiffer` | scripts/promote_changelogs.py:84-401 | a heading-shaped bullet in the first batch makes two promotions print more than one |
| `ChangelogExact.FoundAgainIff` | scripts/promote_changelogs.py:145-193 | behind a preamble without a final line break the first section is lost, unless the glued line or a bullet happens to read as the heading of the version |
| `ChangelogExact.PlainVersionLostIff` | scripts/promote_changelogs.py:145-193 | for a version without a closing bracket, a section glued to a preamble is found again if and only if a bullet reads as its heading |
| `ChangelogExact.GluedIff` | scripts/promote_changelogs.py:84-401 | for such a preamble, exactly when two promotions print what one prints: the printed heading is there again as the last bullet of a category, first of its version, no heading follows, and the second batch only has later categories |
| `ChangelogExact.TwoBatchesIff` | scripts/promote_changelogs.py:84-401 | for all texts, versions and non-empty batches: two promotions give the text of one if and only if the version has no inner bracket and, where the section can start on a line of its own, no bullet of the first batch looks like a heading, or else the case of the row above |
| `ChangelogExamples.TwoNamedBatchesIff` | scripts/promote_changelogs.py:75-401 | the same for two directories, all names of the first sorting before those of the second, against their union |
| `ChangelogExamples.HeadingBulletExample` | scripts/promote_changelogs.py:84-401 | a one-bullet fragment for which the batches differ, with any second batch |
| `ChangelogExamples.BracketExample` | scripts/promote_changelogs.py:65-72 | a version for which the batches always differ |
| `ChangelogExamples.PreambleExample` | scripts/promote_changelogs.py:145-153 | a one-line preamble for which the batches differ |
| `ChangelogExamples.LuckyExample` | scripts/promote_changelogs.py:145-207 | a one-line preamble and two fragments for which they agree although the section is glued |
| `ChangelogScript.ParseFragmentText` | scripts/promote_changelogs.py:84-96 | the line loop yields the ordered categories of the text |
| `ChangelogScript.MergeCategories` | scripts/promote_changelogs.py:99-116 | bullets of both, the older first, categories in standard order and then by name |
| `ChangelogScript.AggregateFragments` | scripts/promote_changelogs.py:119-133 | the categories of all fragments, bullets in fragment order |
| `ChangelogScript.BuildVersionSection` | scripts/promote_changelogs.py:136-142 | the printed section |
| `ChangelogScript.FindInsertPosition` | scripts/promote_changelogs.py:145-153 | the offset of the first heading, or the end of the text |
| `ChangelogScript.ChangelogHasVersion` | scripts/promote_changelogs.py:65-72 | whether some line is the heading of the version |
| `ChangelogScript.ParseChangelogSection` | scripts/promote_changelogs.py:156-193 | the categories of the section and the character offsets of its first and last line |
| `ChangelogScript.FragmentNameIff` | scripts/promote_changelogs.py:75-81 | a fragment's name ends in ".md" and is more than that |
| `ChangelogScript.CollectedBatches` | scripts/promote_changelogs.py:75-81 | when all names of one directory sort before those of another, the fragments of both together are those of the first and then those of the second |
| `ChangelogScript.TwoNamedBatches` | scripts/promote_changelogs.py:75-401 | so promoting the two directories one after the other, on one day, gives the text of promoting their union |
| `ChangelogScript.Component.CollectFragments` | scripts/promote_changelogs.py:75-81 | the fragment names, sorted |
| `ChangelogScript.Component.InsertNewSection` | scripts/promote_changelogs.py:196-200 | the new text is the splice at the insert position |
| `ChangelogScript.Component.ReplaceSection` | scripts/promote_changelogs.py:203-207 | the new text is the splice over the old section |
| `ChangelogScript.Component.Promote` | scripts/promote_changelogs.py:350-401 | the new changelog, and which files are left in the directory |
| `PciTopology.PortNameInjective` | host-tools/scripts/chutes/guest/passthrough.py:248-313 | different devices have different root port names |
| `PciTopology.BusNameInjective` | host-tools/scripts/chutes/guest/qemu.py:214-229 | different buses have different names |
| `PciTopology.PciTopologyState.AddDevice` | host-tools/scripts/chutes/guest/qemu.py:146-201 | the counters after k devices, and the arguments of the next one in closed form |
| `PciTopology.NumaPciTopologyState.AddDevice` | host-tools/scripts/chutes/guest/qemu.py:204-270 | the same for the bridged topology, by the multiset of nodes seen so far |
| `PciTopology.BuildPciTopology` | host-tools/scripts/chutes/guest/passthrough.py:248-313 | the whole argument list as a function of the nodes and devices, for both topologies |
| `PciTopology.IdsUnique` | host-tools/scripts/chutes/guest/passthrough.py:248-313 | root port ids are unique and chassis numbers count the devices |
| `PciPassthrough.EachDeviceOnItsPort` | host-tools/scripts/chutes/guest/passthrough.py:248-313 | for every placement, the k-th device argument names the k-th of the GPUs, then switches, then InfiniBand devices, on the k-th root port, with that device's port name and chassis k + 1, on the bridge of its node or the root bus; and the firmware hints are one for each GPU in order, or none |
| `PciTopology.NoTwoDevicesShareAPlace` | host-tools/scripts/chutes/guest/qemu.py:146-270 | for every sequence of at most 128 flat devices, at most 31 per bridge and nodes up to 7, no two devices share a slot and function on any bus, and flat ports, bridges and emulated devices use disjoint slots |
| `PciTopology.NoCollisionIff` | host-tools/scripts/chutes/guest/qemu.py:146-270 | for every device sequence, no two devices share a place if and only if the flat devices end before the slot of each bridge that is opened |
| `PciTopology.RootBusLimitIsTight` | host-tools/scripts/chutes/guest/qemu.py:146-229 | 129 flat devices and one on node 0 collide |
| `PciTopology.PcieRootPinning.DeviceSuffix` | host-tools/scripts/chutes/guest/qemu.py:84-100 | the next slot, or the error once the slots are used up |
| `PciTopology.PinEmulatedDevices` | host-tools/scripts/chutes/guest/__main__.py:133-170 | the emulated devices of a launch never use up the slots and stay below those of the ports |
| `PciTopology.NodeMemory` | host-tools/scripts/chutes/guest/qemu.py:114-143 | the guest memory is divided over the nodes without loss |
| `PciPorts.FunctionZeroFirst` | host-tools/scripts/chutes/guest/qemu.py:154-201 | for every device sequence a port at another function of a root bus slot comes after the multifunction port at its function 0 |
| `PciPorts.PortNumbersUniqueIff` | host-tools/scripts/chutes/guest/qemu.py:146-270 | the port numbers are unique if and only if devices with and without a known node do not mix |
| `PciPorts.MixedPairShares` | host-tools/scripts/chutes/guest/qemu.py:146-270 | a device without a node and one on node 0 get the same number |
| `PciBuses.BridgesNumbered` | host-tools/scripts/chutes/guest/qemu.py:204-229 | after any number of devices there is one bridge for each known node seen, and the bridge opened as number j, from 0, has bus number 128 + 32 j |
| `PciBuses.BusesDisjointIff` | host-tools/scripts/chutes/guest/qemu.py:204-270 | with one bus behind each port, the bus numbers of different bridges are disjoint if and only if every bridge but the last has at most 31 devices |
| `PciBuses.BusesFitIff` | host-tools/scripts/chutes/guest/qemu.py:204-270 | all bus numbers stay within 255 if and only if there are at most four bridges with at most 127, 95, 63 and 31 devices; with at most 31 devices each, exactly up to four bridges |
| `PciBuses.ThirtyTwoReach` | host-tools/scripts/chutes/guest/qemu.py:204-270 | 32 devices on one node and one on another make bus numbers meet |
| `Fingerprint.DeviceNumaLayout` | host-tools/scripts/chutes/guest/detection.py:271-281 | the nodes of the devices in the order of their sorted addresses |
| `Fingerprint.HostTopologyFingerprint` | host-tools/scripts/chutes/guest/detection.py:284-306 | the fingerprint, by the host's devices and the profile |
| `Fingerprint.Launch` | host-tools/scripts/chutes/guest/passthrough.py:248-313 | the arguments of a launch, by the same data |
| `Fingerprint.LaunchSeats` | host-tools/scripts/chutes/guest/passthrough.py:248-313 | a launch passes each GPU and each passed switch in sorted order, on the bridge of the node that its file names when the profile asks for NUMA and the host has exactly two nodes, else on the root bus |
| `Fingerprint.FingerprintTells` | host-tools/scripts/chutes/guest/detection.py:271-306 | what the fingerprint holds, by the files of the devices and by which switches are passed |
| `Fingerprint.ErasedLaunch` | host-tools/scripts/chutes/guest/passthrough.py:248-313 | once host addresses are erased, the arguments depend on the fingerprint alone |
| `Fingerprint.SameFingerprintSameArgs` | host-tools/scripts/chutes/guest/gpu/topology.py:3-21 | two hosts with equal fingerprints get the same arguments up to host addresses |
| `Fingerprint.SameArgsIff` | host-tools/scripts/chutes/guest/gpu/topology.py:3-21 | two hosts get the same arguments if and only if their fingerprints give the same placement |
| `Fingerprint.FingerprintIsExact` | host-tools/scripts/chutes/guest/gpu/topology.py:3-21 | when all nodes are known, equal fingerprints and equal arguments are the same thing |
| `Fingerprint.ShapeArgsInjective` | host-tools/scripts/chutes/guest/qemu.py:146-270 | different placements give different arguments |
| `Fingerprint.UnknownNodesLaunchFlat` | host-tools/scripts/chutes/guest/detection.py:271-306 | a two-node host without known nodes launches like a flat host under another fingerprint |
| `CpuPinning.ExpandCpulist` | host-tools/scripts/chutes/guest/post_launch.py:17-29 | for any text, `strip` and `int`: the expanded list without CPU 0, or the ValueError |
| `CpuPinning.ExpandedCpus` | host-tools/scripts/chutes/guest/post_launch.py:17-29 | it holds exactly the listed CPUs except CPU 0, increasing when the parts are |
| `CpuPinning.CpulistRoundTrip` | host-tools/scripts/chutes/guest/post_launch.py:17-29 | every list of ranges as sysfs prints it reads back as those ranges, low end first |
| `CpuPinning.PrintedNodeCpus` | host-tools/scripts/chutes/guest/post_launch.py:17-39 | so a node's usable CPUs are exactly the printed ones but CPU 0, in increasing order when the ranges are |
| `CpuPinning.ReadHost` | host-tools/scripts/chutes/guest/post_launch.py:32-39 | the usable CPUs of each node are those of its cpulist, none when it cannot be read |
| `CpuPinning.PinVcpuThreads` | host-tools/scripts/chutes/guest/post_launch.py:141-157 | the vCPU pins, thread by thread |
| `CpuPinning.PinIoThreads` | host-tools/scripts/chutes/guest/post_launch.py:172-184 | the IO pins, and the index error exactly when there are more threads than CPUs |
| `CpuPinning.IoOutcomeIs` | host-tools/scripts/chutes/guest/post_launch.py:164-184 | the IO threads go in order to the last CPUs but one of the first node, with an index error exactly when there are more threads than CPUs; the vCPU pins stay |
| `CpuPinning.PinQemuThreads` | host-tools/scripts/chutes/guest/post_launch.py:119-184 | the whole outcome, with the division by zero and the index error |
| `CpuPinning.VcpusDoNotShare` | host-tools/scripts/chutes/guest/post_launch.py:130-148 | when the cpulists are ascending, share no CPU and have enough CPUs besides CPU 0, no two vCPUs are pinned to one CPU and none to CPU 0 |
| `CpuPinning.PinnedApart` | host-tools/scripts/chutes/guest/post_launch.py:141-157 | on such lists a whole pass pins every thread, in order, each to a CPU of its own that is listed for its node, and never CPU 0 |
| `CpuPinning.TargetIsLocal` | host-tools/scripts/chutes/guest/post_launch.py:141-148 | on any host a vCPU goes to the node its number falls into, or the last one, and there to the CPU at its number modulo the count |
| `CpuPinning.ShortNodeShares` | host-tools/scripts/chutes/guest/post_launch.py:130-148 | a node with fewer usable CPUs than vCPUs makes two of them share one |
| `CpuPinning.IoApartIff` | host-tools/scripts/chutes/guest/post_launch.py:168-184 | IO threads and vCPUs share no CPU if and only if the first node has room for both and one CPU to spare |
| `CpuPinning.ReserveHoldsIoThreads` | host-tools/scripts/chutes/guest/gpu/profiles.py:100-126 | on a host with two equal sockets that is exactly up to half the reserve less two IO threads |
| `CacheCleanup.CacheManager.Pop` | src/sek8s/sek8s/system_manager/cache/manager.py:830-851 | the tracked chutes without the removed one |
| `CacheCleanup.CacheManager.RemoveOld` | src/sek8s/sek8s/system_manager/cache/manager.py:830-836 | the aged candidates go, their bytes are counted, their ids listed |
| `CacheCleanup.CacheManager.EvictLargest` | src/sek8s/sek8s/system_manager/cache/manager.py:843-854 | as many of the largest go as needed |
| `CacheCleanup.CacheManager.Cleanup` | src/sek8s/sek8s/system_manager/cache/manager.py:796-864 | freed bytes, removed ids and tracked chutes agree with one and the same list of removed chutes; the candidates still tracked and the bytes freed make up the candidates before; the candidates still tracked fit the limit; every chute too old goes, nothing that downloads, is empty or excluded goes, and while the others fit exactly those too old go |
| `CacheCleanup.RemovedByAge` | src/sek8s/sek8s/system_manager/cache/manager.py:806-836 | the same for the list of removed chutes: too old is last accessed more than that many days of 86400 seconds before now, with an unknown access as time 0 |
| `CacheCleanup.CacheManager.Sweep` | src/sek8s/sek8s/system_manager/cache/manager.py:817-854 | the removal by age and then by size, for given limits |
| `CacheCleanup.BySizeShape` | src/sek8s/sek8s/system_manager/cache/manager.py:843-846 | the order of eviction is a permutation of the candidates, largest first |
| `CacheCleanup.LargestAreHeaviest` | src/sek8s/sek8s/system_manager/cache/manager.py:843-854 | no choice of chutes outweighs as many of the largest ones |
| `CacheCleanup.EvictionIsOptimal` | src/sek8s/sek8s/system_manager/cache/manager.py:843-854 | what is left fits, dropping the last eviction breaks that, and no smaller set of chutes would do |
| `CacheCleanup.CleanupIsOptimal` | src/sek8s/sek8s/system_manager/cache/manager.py:796-864 | in terms of what stays tracked: it fits, with one eviction less it would not, and after the removal by age no set of fewer ids than were evicted would have made the tracked candidates fit |
| `CacheCleanup.FreedPlusLeft` | src/sek8s/sek8s/system_manager/cache/manager.py:796-864 | what stays tracked of the candidates and what is removed make up all candidates |
| `CacheCleanup.LeftFits` | src/sek8s/sek8s/system_manager/cache/manager.py:843-854 | the candidates that stay tracked fit the limit |
| `CacheCleanup.OnlyCandidatesRemoved` | src/sek8s/sek8s/system_manager/cache/manager.py:817-836 | nothing but candidates is ever removed |
| `CacheVerify.VerifyCache` | src/sek8s/sek8s/system_manager/cache/util.py:140-236 | it passes if and only if the manifest and the directory are there and the deciding item of every path is met on disk; verified and skipped add up to the number of distinct manifest paths; an error tells the truth about a manifest file |
| `CacheVerify.CheckFiles` | src/sek8s/sek8s/system_manager/cache/util.py:188-236 | the loop over the dictionary, with the number of skipped files |
| `CacheVerify.AllOkIff` | src/sek8s/sek8s/system_manager/cache/util.py:153-161 | checking the dictionary is checking the last item of each path of the manifest |
| `CacheVerify.LinkedFileIff` | src/sek8s/sek8s/system_manager/cache/util.py:130-229 | a manifest of one file that is a link on disk passes if and only if it gives no hash or one of 40 characters, or the size is right and a blob name of 64 characters is the hash: the sha256 of a large file, the blob id of any other |
| `CacheVerify.PlainFileIff` | src/sek8s/sek8s/system_manager/cache/util.py:188-229 | a file that is no link is checked by its size alone |
| `CacheVerify.LinkNameTrailing` | src/sek8s/sek8s/system_manager/cache/util.py:130-137 | a slash or "/." behind a link target changes nothing |
| `CacheVerify.HiddenPartIff` | src/sek8s/sek8s/system_manager/cache/util.py:173-178 | a path is left out of the listing if and only if an underscore stands at its start or behind a slash |
| `CacheVerify.HiddenPartNeverPasses` | src/sek8s/sek8s/system_manager/cache/util.py:153-181 | a manifest with a file below a hidden directory never passes |
| `CacheVerify.CanPassIff` | src/sek8s/sek8s/system_manager/cache/util.py:153-236 | some disk satisfies a manifest if and only if every item has a path, no deciding item lies below a hidden directory and no checked size is negative |
| `CacheVerify.HiddenFileExample` | src/sek8s/sek8s/system_manager/cache/util.py:153-181 | the manifest of one file "a/_b" never passes |
| `CacheVerify.AbsenceIsNotStale` | src/sek8s/sek8s/system_manager/cache/manager.py:491-508 | a missing manifest, directory or file is never read as stale, whatever the names |
| `CacheVerify.SizeMismatchStaleIff` | src/sek8s/sek8s/system_manager/cache/manager.py:491-513 | a wrong size makes the cache stale if and only if the path holds none of the searched phrases |
| `CacheVerify.HashMismatchStaleIff` | src/sek8s/sek8s/system_manager/cache/manager.py:491-513 | a wrong blob makes the cache stale if and only if neither the path nor the printed starts of the two hashes hold a searched phrase |
| `CacheVerify.MisleadingName` | src/sek8s/sek8s/system_manager/cache/manager.py:491-508 | a file called "not found.bin" never makes the cache stale |
| `CacheMarkers.CompleteIsEarned` | src/sek8s/sek8s/system_manager/cache/download.py:246-268 | under every interleaving of reconcile calls, downloads, kills and deletions, a complete marker names a repository and revision whose check passed in the run, or was there before |
| `CacheMarkers.DownloadIsEarned` | src/sek8s/sek8s/system_manager/cache/download.py:246-268 | a pipeline writes the complete marker only after its own start, a successful download and a passed check, in this order and for the same repository and revision |
| `CacheMarkers.ReconciledIff` | src/sek8s/sek8s/system_manager/cache/manager.py:411-520 | a chute counts as reconciled if and only if some step of the run settled the question: nothing on disk, a passed check or wrong files |
| `CacheMarkers.WantedRevision` | src/sek8s/sek8s/system_manager/cache/manager.py:431-448 | the revision to verify is the one the validator names, else "main"; without a repository there is nothing to verify |
| `CacheMarkers.TwoFilesOneRegister` | src/sek8s/sek8s/system_manager/cache/manager.py:461-520 | in every serial, unbroken run a chute at rest holds in its two files exactly the latest finding, and never both |
| `CacheMarkers.BothAtRestIff` | src/sek8s/sek8s/system_manager/cache/manager.py:461-520 | under every interleaving a chute at rest has both markers if and only if, with no marker removed since, another activity wrote the opposite marker while a reconcile call was verifying, or a pipeline was killed between writing the complete marker and removing a stale one |
| `CacheMarkers.OverlapLeavesBoth` | src/sek8s/sek8s/system_manager/cache/download.py:246-268 | a download of one revision that finishes while another revision is being verified leaves both markers, when that verification finds a file too small |
| `CacheMarkers.OneFileTwoManifests` | src/sek8s/sek8s/system_manager/cache/util.py:190-229 | a file on disk that the manifest of one revision accepts and that of another finds too small |
| `CacheMarkers.KillLeavesBoth` | src/sek8s/sek8s/system_manager/cache/download.py:263-268 | so does a pipeline killed between its last two steps |
| `CacheMarkers.Chute.BeginReconcile` | src/sek8s/sek8s/system_manager/cache/manager.py:424-429 | the step up to the question to the validator |
| `CacheMarkers.Chute.ResumeFetched` | src/sek8s/sek8s/system_manager/cache/manager.py:431-468 | without an identity nothing changes; with one both markers go |
| `CacheMarkers.Chute.FinishReconcile` | src/sek8s/sek8s/system_manager/cache/manager.py:477-520 | the markers after the check, which passes exactly when the files on disk meet the manifest |
| `CacheMarkers.Chute.CheckDownload` | src/sek8s/sek8s/system_manager/cache/download.py:255-259 | the pipeline goes on to its markers exactly when the files on disk meet the manifest |
| `CacheMarkers.Chute.FinishDownload` | src/sek8s/sek8s/system_manager/cache/download.py:263-268 | the markers after an unbroken end of the pipeline |
| `HostTuning.Host.Apply` | host-tools/scripts/chutes/host/tune.py:60-113 | the new files and script, with failed writes, the abort as root and a script that cannot be written |
| `HostTuning.Host.Restore` | host-tools/scripts/chutes/host/tune.py:116-124 | the new files and script after the script has run |
| `HostTuning.ApplyTunes` | host-tools/scripts/chutes/host/tune.py:60-94 | an apply that may write everything sets each governor to "performance", disables each C-state called C1E or C6, and changes no other file |
| `HostTuning.ScriptOrigin` | host-tools/scripts/chutes/host/tune.py:60-113 | a script in place at any point of any run is the snapshot of the state before one recorded apply and has been there ever since |
| `HostTuning.RestoreReturns` | host-tools/scripts/chutes/host/tune.py:60-124 | every effective restore of every run returns every tuned, readable file to its value before the recorded apply, whatever came between, and changes nothing else |
| `HostTuning.RestoredIff` | host-tools/scripts/chutes/host/tune.py:60-124 | for every effective restore of every run and every tuned file: it comes back to its value before the first apply since the previous effective restore if and only if, for a file that this restore does not write, that apply and all steps after it left it alone or at that value; for a script recorded by that apply or after it, the steps up to the recording did; and for an older script that a restore kept, the last foreign write after that restore wrote the saved value, or there was none and the restore wrote the file or found that value in it |
| `HostTuning.KeptScriptIff` | host-tools/scripts/chutes/host/tune.py:60-124 | the case of a kept script: the saved value is the value before the first apply after the restore exactly under that condition |
| `HostTuning.FirstApplyReturns` | host-tools/scripts/chutes/host/tune.py:60-124 | when every apply without a script records one, and every restore removes its script or writes all files with no foreign write before the next apply, each covered file that may be written comes back to its value before the first apply since the previous effective restore |
| `HostTuning.QuietIsReliable` | host-tools/scripts/chutes/host/tune.py:60-124 | so it does whenever nobody else writes, nothing is denied and scripts can be written, whether or not they can be removed |
| `HostTuning.OldScriptReplayed` | host-tools/scripts/chutes/host/tune.py:60-124 | on a host with two governors a kept script puts one of them back to "powersave" although it was at "ondemand" before the apply |
| `HostTuning.OriginalLost` | host-tools/scripts/chutes/host/tune.py:60-124 | on a host with two governors both kinds of such a run lose the original value |
| `ImagePulls.StepKeepsInv` | src/sek8s/sek8s/system_manager/images/manager.py:84-170 | every step keeps each unfinished pull the table's entry for its own reference, which has no stored result |
| `ImagePulls.OnePullPerReference` | src/sek8s/sek8s/system_manager/images/manager.py:84-170 | in every run at most one pull of a reference is in flight, and the reference has no stored result |
| `ImagePulls.CompletedIsBacked` | src/sek8s/sek8s/system_manager/images/manager.py:84-125 | every completed result follows a start, a successful verification and a successful pull of that reference, in this order and in one task |
| `ImagePulls.CompletedIsFinal` | src/sek8s/sek8s/system_manager/images/manager.py:143-170 | a completed reference is never pulled again |
| `ImagePulls.PresentIff` | src/sek8s/sek8s/system_manager/images/manager.py:143-170 | a start call answers that an unlisted image is present if and only if a pull of it succeeded at any earlier point of the run |
| `ImagePulls.StatusIsLatest` | src/sek8s/sek8s/system_manager/images/manager.py:84-190 | at every point of every run the status of a reference is the latest news of it: a start, a cancellation, a failure with its reason, or a completed pull |
| `ImagePulls.CancelledEntryIff` | src/sek8s/sek8s/system_manager/images/manager.py:124-125 | a cancelled task leaves its table entry behind exactly when it never ran |
| `ImagePulls.RemovedStaysPresent` | src/sek8s/sek8s/system_manager/images/manager.py:143-170 | a run after which a removed image is still said to be present |
| `ImagePulls.ImageManager.StartPull` | src/sek8s/sek8s/system_manager/images/manager.py:143-170 | the reply and the new tables |
| `ImagePulls.ImageManager.BeginPull` | src/sek8s/sek8s/system_manager/images/manager.py:84-94 | the step from the creation of the task to the call of cosign |
| `ImagePulls.ImageManager.ResumeVerified` | src/sek8s/sek8s/system_manager/images/manager.py:94-100 | the step after cosign's answer, exception or timeout |
| `ImagePulls.ImageManager.ResumePulled` | src/sek8s/sek8s/system_manager/images/manager.py:102-125 | the step after the pull's end, exception or timeout |
| `ImagePulls.ImageManager.CancelPull` | src/sek8s/sek8s/system_manager/images/manager.py:124-125 | a cancelled task removes its entry, unless it never ran |
| `ImagePulls.ImageManager.GetPullStatus` | src/sek8s/sek8s/system_manager/images/manager.py:172-190 | the status of one reference |
| `ImagePulls.ImageManager.GetAllPullStatus` | src/sek8s/sek8s/system_manager/images/manager.py:192-200 | the list names each reference at most once, names exactly those that are not pending, and agrees with asking for each alone |

## Left out

- cosign itself, signature cryptography and TDX quotes: cosign is an arbitrary answer to each call.
- HTTP servers, routers, OPA queries, the attestation proxy and metrics: no invariant of their own.
- Service account token patches, `evaluate_authorization_raw`, nonce windows and the hostname and seed validators: settled by reading a branch or two.
- The registry pattern branch for `*/*`: it cannot be reached in the code and is not modelled.
- The wording of violation messages: each names the rule's complaint and the image, without the details.
- QEMU arguments are records with the fields that the code computes, not command-line strings; names of ports and buses are strings and proved injective.
- InfiniBand devices in the fingerprint theorems: the fingerprint looks at physical functions while the launch passes virtual ones, and no profile enables them. `PciTopology` covers them.
- Results of `taskset`: the model says which CPU each thread is pinned to, not whether the command succeeded.
- Deletion failures and downloads that start during a cleanup: a cleanup is one step over a scanned snapshot. Whether the exclude pattern matches a repository is an input.
- `purge_stale_revisions`, download progress, retries of `snapshot_download` and the `DownloadProcess` lifecycle.
- Marker files hold a repository and revision as a record; two marker operations of one step are not split against the download subprocess.
- Shell quoting in the undo script, and a script that is only partly written: values are single words and a write of the script succeeds or fails as a whole.
- Resolution of short image names and the registry allowlist in `start_pull`: calls that it rejects change nothing.
