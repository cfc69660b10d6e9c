/** Workload objects and JSON Patch lists that rewrite their container images, for any rewriting `f`
    of image texts: the list building of `build_image_pin_patches`
    (src/sek8s/sek8s/services/admission_controller.py) and `extract_images`
    (src/sek8s/sek8s/validators/base.py). */
module ImagePatches {
  import opened Text

  /** Maps an image text to its replacement, if it is replaced. */
  type Rewriting = string -> Option<string>

  /** No container without an image gets one, and no image is emptied. */
  ghost predicate Proper(f: Rewriting) {
    f("") == None && forall image :: f(image) != Some("")
  }

  /** A rewriting for each container: what it says may change from one container to the next. */
  type Timed = (Place, nat) -> Rewriting

  /** The same rewriting for all. */
  function Always(f: Rewriting): Timed {
    (place, index) => f
  }

  ghost predicate LeavesEmpty(g: Timed) {
    forall place, index :: g(place, index)("") == None
  }

  /** A container: its image, when it has one, and everything else in it. */
  datatype Container = Container(image: Option<string>, rest: string) {
    function ImageText(): string {
      if image.Some? then image.value else ""
    }
  }

  /** Where an object holds a list of containers: in spec, in spec.template.spec or in
      spec.jobTemplate.spec.template.spec. */
  datatype Place =
    | DirectMain | DirectInit | DirectEphemeral
    | TemplateMain | TemplateInit | TemplateEphemeral
    | JobMain | JobInit | JobEphemeral

  /** The container lists an object has; a list that is absent is not in the map. */
  type Object = map<Place, seq<Container>>

  /** A JSON Patch replace operation on the image of one container. */
  datatype Patch = Patch(place: Place, index: nat, value: string)

  // ---------------------------------------------------------------------------
  // JSON Patch
  // ---------------------------------------------------------------------------

  function Prefix(place: Place): string {
    match place
    case DirectMain => "/spec/containers"
    case DirectInit => "/spec/initContainers"
    case DirectEphemeral => "/spec/ephemeralContainers"
    case TemplateMain => "/spec/template/spec/containers"
    case TemplateInit => "/spec/template/spec/initContainers"
    case TemplateEphemeral => "/spec/template/spec/ephemeralContainers"
    case JobMain => "/spec/jobTemplate/spec/template/spec/containers"
    case JobInit => "/spec/jobTemplate/spec/template/spec/initContainers"
    case JobEphemeral => "/spec/jobTemplate/spec/template/spec/ephemeralContainers"
  }

  /** The JSON Pointer of the image field a patch names. */
  function Pointer(place: Place, index: nat): string {
    Prefix(place) + "/" + Decimal(index) + "/image"
  }

  /** The pointer determines the container. */
  lemma PointerInjective(p: Place, i: nat, q: Place, j: nat)
    requires Pointer(p, i) == Pointer(q, j)
    ensures p == q && i == j
  {
    var a, b := Prefix(p) + ['/'] + Decimal(i), Prefix(q) + ['/'] + Decimal(j);
    assert Pointer(p, i) == a + "/image" && Pointer(q, j) == b + "/image";
    assert a == Pointer(p, i)[..|Pointer(p, i)| - 6] == b;
    NoSlashInDecimal(i);
    NoSlashInDecimal(j);
    AfterLastUnique(Prefix(p), '/', Decimal(i));
    AfterLastUnique(Prefix(q), '/', Decimal(j));
    DecimalInjective(i, j);
    assert |Prefix(p)| == |Prefix(q)|;
  }

  lemma NoSlashInDecimal(n: nat)
    ensures '/' !in Decimal(n)
  {
    assert '/' !in DIGITS;
  }

  /** The keys on the way from an object to a list of its containers. */
  ghost function Keys(place: Place): seq<string> {
    (if place.DirectMain? || place.DirectInit? || place.DirectEphemeral? then ["spec"]
     else if place.TemplateMain? || place.TemplateInit? || place.TemplateEphemeral? then ["spec", "template", "spec"]
     else ["spec", "jobTemplate", "spec", "template", "spec"])
    + [ListKey(place)]
  }

  ghost function ListKey(place: Place): string {
    if place.DirectMain? || place.TemplateMain? || place.JobMain? then "containers"
    else if place.DirectInit? || place.TemplateInit? || place.JobInit? then "initContainers"
    else "ephemeralContainers"
  }

  /** A JSON Pointer with these reference tokens, each behind a slash, as section 3 of RFC 6901 writes it. */
  ghost function PathText(tokens: seq<string>): string {
    if tokens == [] then "" else PathText(tokens[..|tokens| - 1]) + "/" + tokens[|tokens| - 1]
  }

  lemma PathNext(tokens: seq<string>, x: string)
    ensures PathText(tokens + [x]) == PathText(tokens) + "/" + x
  {
    assert (tokens + [x])[..|tokens|] == tokens;
  }

  /** The pointer leads from the object over these keys to the container at the index and to its image. */
  lemma PointerLeads(place: Place, index: nat)
    ensures Pointer(place, index) == PathText(Keys(place) + [Decimal(index)] + ["image"])
  {
    PrefixPath(place);
    PathNext(Keys(place), Decimal(index));
    PathNext(Keys(place) + [Decimal(index)], "image");
    assert "/" + "image" == "/image";
    AppendAssociative(Prefix(place) + "/" + Decimal(index), "/", "image");
  }

  lemma PrefixPath(place: Place)
    ensures Prefix(place) == PathText(Keys(place))
  {
    if place.DirectMain? || place.DirectInit? || place.DirectEphemeral? {
      SpecList(ListKey(place));
      DirectPrefixes();
    } else if place.TemplateMain? || place.TemplateInit? || place.TemplateEphemeral? {
      TemplateList(ListKey(place));
      TemplatePrefixes();
    } else {
      JobList(ListKey(place));
      JobPrefixes();
    }
  }

  lemma DirectPrefixes()
    ensures Prefix(DirectMain) == "/spec/" + "containers"
    ensures Prefix(DirectInit) == "/spec/" + "initContainers"
    ensures Prefix(DirectEphemeral) == "/spec/" + "ephemeralContainers"
  {
  }

  lemma TemplatePrefixes()
    ensures Prefix(TemplateMain) == "/spec/template/spec/" + "containers"
    ensures Prefix(TemplateInit) == "/spec/template/spec/" + "initContainers"
    ensures Prefix(TemplateEphemeral) == "/spec/template/spec/" + "ephemeralContainers"
  {
  }

  lemma JobPrefixes()
    ensures Prefix(JobMain) == "/spec/jobTemplate/spec/template/spec/" + "containers"
    ensures Prefix(JobInit) == "/spec/jobTemplate/spec/template/spec/" + "initContainers"
    ensures Prefix(JobEphemeral) == "/spec/jobTemplate/spec/template/spec/" + "ephemeralContainers"
  {
  }

  lemma SpecList(list: string)
    ensures PathText(["spec"] + [list]) == "/spec/" + list
  {
    SpecPath();
    PathNext(["spec"], list);
    assert "/spec" + "/" == "/spec/";
  }

  lemma TemplateList(list: string)
    ensures PathText(["spec", "template", "spec"] + [list]) == "/spec/template/spec/" + list
  {
    TemplatePath();
    PathNext(["spec", "template", "spec"], list);
    assert "/spec/template/spec" + "/" == "/spec/template/spec/";
  }

  lemma JobList(list: string)
    ensures PathText(["spec", "jobTemplate", "spec", "template", "spec"] + [list])
         == "/spec/jobTemplate/spec/template/spec/" + list
  {
    JobPath();
    PathNext(["spec", "jobTemplate", "spec", "template", "spec"], list);
    assert "/spec/jobTemplate/spec/template/spec" + "/" == "/spec/jobTemplate/spec/template/spec/";
  }

  lemma SpecPath()
    ensures PathText(["spec"]) == "/spec"
  {
    PathNext([], "spec");
    assert [] + ["spec"] == ["spec"];
  }

  lemma TemplatePath()
    ensures PathText(["spec", "template", "spec"]) == "/spec/template/spec"
  {
    SpecPath();
    PathNext(["spec"], "template");
    PathNext(["spec", "template"], "spec");
    assert ["spec"] + ["template"] == ["spec", "template"];
    assert ["spec", "template"] + ["spec"] == ["spec", "template", "spec"];
  }

  lemma JobPath()
    ensures PathText(["spec", "jobTemplate", "spec", "template", "spec"]) == "/spec/jobTemplate/spec/template/spec"
  {
    JobHalfPath();
    var a := ["spec", "jobTemplate", "spec"];
    PathNext(a, "template");
    PathNext(a + ["template"], "spec");
    assert a + ["template"] + ["spec"] == ["spec", "jobTemplate", "spec", "template", "spec"];
    assert "/spec/jobTemplate/spec" + "/" + "template" + "/" + "spec" == "/spec/jobTemplate/spec/template/spec";
  }

  lemma JobHalfPath()
    ensures PathText(["spec", "jobTemplate", "spec"]) == "/spec/jobTemplate/spec"
  {
    SpecPath();
    PathNext(["spec"], "jobTemplate");
    PathNext(["spec", "jobTemplate"], "spec");
    assert ["spec"] + ["jobTemplate"] == ["spec", "jobTemplate"];
    assert ["spec", "jobTemplate"] + ["spec"] == ["spec", "jobTemplate", "spec"];
  }

  /** The replace operation of section 4.3 of RFC 6902: the target location must exist. */
  function Replace(obj: Object, p: Patch): Option<Object> {
    if p.place !in obj || p.index >= |obj[p.place]| || obj[p.place][p.index].image.None? then None
    else
      var cs := obj[p.place];
      Some(obj[p.place := cs[p.index := cs[p.index].(image := Some(p.value))]])
  }

  function ApplyAll(obj: Object, patches: seq<Patch>): Option<Object>
    decreases |patches|
  {
    if |patches| == 0 then Some(obj)
    else
      var next := Replace(obj, patches[0]);
      if next.None? then None else ApplyAll(next.value, patches[1..])
  }

  lemma {:induction false} ApplyAppend(obj: Object, a: seq<Patch>, b: seq<Patch>)
    requires ApplyAll(obj, a).Some?
    ensures ApplyAll(obj, a + b) == ApplyAll(ApplyAll(obj, a).value, b)
    decreases |a|
  {
    if a == [] {
      assert a + b == b;
    } else {
      ApplyAppend(Replace(obj, a[0]).value, a[1..], b);
      assert (a + b)[1..] == a[1..] + b;
    }
  }

  // ---------------------------------------------------------------------------
  // Building the patches
  // ---------------------------------------------------------------------------

  function PatchOf(g: Timed, c: Container, place: Place, index: nat): seq<Patch> {
    var value := g(place, index)(c.ImageText());
    if value.Some? then [Patch(place, index, value.value)] else []
  }

  /** The patches of a list from index `i` on. */
  function ListPatches(g: Timed, cs: seq<Container>, place: Place, i: nat): seq<Patch>
    requires i <= |cs|
    decreases |cs| - i
  {
    if i == |cs| then [] else PatchOf(g, cs[i], place, i) + ListPatches(g, cs, place, i + 1)
  }

  /** One round of the loop that collects the patches of a list. */
  lemma ListPatchesNext(g: Timed, cs: seq<Container>, place: Place, i: nat, acc: seq<Patch>, value: Option<string>)
    requires i < |cs| && value == g(place, i)(cs[i].ImageText())
    ensures (if value.Some? then acc + [Patch(place, i, value.value)] else acc) + ListPatches(g, cs, place, i + 1)
         == acc + ListPatches(g, cs, place, i)
  {
    AddPatches(acc, PatchOf(g, cs[i], place, i), if value.Some? then [Patch(place, i, value.value)] else [],
               ListPatches(g, cs, place, i + 1));
  }

  lemma AddPatches(acc: seq<Patch>, here: seq<Patch>, same: seq<Patch>, rest: seq<Patch>)
    requires here == same
    ensures acc + same + rest == acc + (here + rest) && acc + [] == acc
  {
    AppendAssociative(acc, here, rest);
  }

  function PlacePatches(g: Timed, obj: Object, place: Place): seq<Patch> {
    if place in obj then ListPatches(g, obj[place], place, 0) else []
  }

  /** The lists the webhook rewrites, in its order. */
  const PLACES: seq<Place> := [DirectMain, DirectInit, TemplateMain, TemplateInit, JobMain, JobInit]

  function PatchesFrom(g: Timed, obj: Object, places: seq<Place>, i: nat): seq<Patch>
    requires i <= |places|
    decreases |places| - i
  {
    if i == |places| then [] else PlacePatches(g, obj, places[i]) + PatchesFrom(g, obj, places, i + 1)
  }

  lemma PatchesFromStep(g: Timed, obj: Object, places: seq<Place>, i: nat, acc: seq<Patch>)
    requires i < |places|
    ensures acc + PlacePatches(g, obj, places[i]) + PatchesFrom(g, obj, places, i + 1)
            == acc + PatchesFrom(g, obj, places, i)
  {
    AppendAssociative(acc, PlacePatches(g, obj, places[i]), PatchesFrom(g, obj, places, i + 1));
  }

  function Patches(g: Timed, obj: Object): seq<Patch> {
    PatchesFrom(g, obj, PLACES, 0)
  }

  // ---------------------------------------------------------------------------
  // What applying them does
  // ---------------------------------------------------------------------------

  function PinText(f: Rewriting, image: string): string {
    var value := f(image);
    if value.Some? then value.value else image
  }

  /** The container with its image pinned; nothing else in it changes. */
  function PinContainer(f: Rewriting, c: Container): (r: Container)
    ensures r.rest == c.rest && r.ImageText() == PinText(f, c.ImageText())
    ensures f(c.ImageText()).None? ==> r == c
  {
    if f(c.ImageText()).None? then c else c.(image := Some(PinText(f, c.ImageText())))
  }

  /** Order and count are kept; each container is pinned on its own. */
  function PinList(g: Timed, place: Place, cs: seq<Container>): (r: seq<Container>)
    ensures |r| == |cs|
    ensures forall i :: 0 <= i < |cs| ==> r[i] == PinContainer(g(place, i), cs[i])
  {
    seq(|cs|, i requires 0 <= i < |cs| => PinContainer(g(place, i), cs[i]))
  }

  /** The object with the lists at `places` pinned and every other list as it was. */
  function PinPlaces(g: Timed, obj: Object, places: seq<Place>): Object {
    map p | p in obj :: if p in places then PinList(g, p, obj[p]) else obj[p]
  }

  function PinObject(g: Timed, obj: Object): Object {
    PinPlaces(g, obj, PLACES)
  }

  /** The patch of one container, when it has one, pins that container. */
  lemma ApplyOne(g: Timed, obj: Object, place: Place, i: nat)
    requires LeavesEmpty(g) && place in obj && i < |obj[place]|
    ensures ApplyAll(obj, PatchOf(g, obj[place][i], place, i))
            == Some(obj[place := obj[place][i := PinContainer(g(place, i), obj[place][i])]])
  {
    var cs := obj[place];
    var value := g(place, i)(cs[i].ImageText());
    if value.Some? {
      var p := Patch(place, i, value.value);
      assert [p][1..] == [];
      assert Replace(obj, p) == Some(obj[place := cs[i := PinContainer(g(place, i), cs[i])]]);
    } else {
      assert cs[i := cs[i]] == cs;
      assert obj[place := cs] == obj;
    }
  }

  /** The containers at `place` are those of `cs`, the first `i` of them pinned. */
  ghost predicate Halfway(g: Timed, obj: Object, place: Place, cs: seq<Container>, i: nat) {
    && place in obj && i <= |cs| == |obj[place]|
    && (forall j :: 0 <= j < i ==> obj[place][j] == PinContainer(g(place, j), cs[j]))
    && (forall j :: i <= j < |cs| ==> obj[place][j] == cs[j])
  }

  lemma OneFurther(g: Timed, obj: Object, place: Place, cs: seq<Container>, i: nat)
    requires Halfway(g, obj, place, cs, i) && i < |cs|
    ensures Halfway(g, obj[place := obj[place][i := PinContainer(g(place, i), cs[i])]], place, cs, i + 1)
  {
  }

  lemma UpdateTwice(obj: Object, place: Place, a: seq<Container>, b: seq<Container>)
    ensures obj[place := a][place := b] == obj[place := b]
  {
  }

  /** The patches from index `i` on finish a list whose first `i` containers are pinned already. */
  ghost predicate Finishes(g: Timed, obj: Object, place: Place, cs: seq<Container>, i: nat)
    requires i <= |cs|
  {
    ApplyAll(obj, ListPatches(g, cs, place, i)) == Some(obj[place := PinList(g, place, cs)])
  }

  lemma AllPinned(g: Timed, obj: Object, place: Place, cs: seq<Container>)
    requires Halfway(g, obj, place, cs, |cs|)
    ensures Finishes(g, obj, place, cs, |cs|)
  {
    assert obj[place] == PinList(g, place, cs);
    assert obj[place := PinList(g, place, cs)] == obj;
  }

  /** The patches from container i on bring the list to its pinned form, one container each. */
  lemma {:induction false} ApplyListPatches(g: Timed, obj: Object, place: Place, cs: seq<Container>, i: nat)
    requires LeavesEmpty(g) && Halfway(g, obj, place, cs, i)
    ensures ApplyAll(obj, ListPatches(g, cs, place, i)) == Some(obj[place := PinList(g, place, cs)])
    decreases |cs| - i
  {
    if i == |cs| {
      AllPinned(g, obj, place, cs);
    } else {
      var one := obj[place][i := PinContainer(g(place, i), cs[i])];
      OneFurther(g, obj, place, cs, i);
      ApplyListPatches(g, obj[place := one], place, cs, i + 1);
      FinishesEarlier(g, obj, place, cs, i, one);
    }
    assert Finishes(g, obj, place, cs, i);
  }

  lemma FinishesEarlier(g: Timed, obj: Object, place: Place, cs: seq<Container>, i: nat, one: seq<Container>)
    requires LeavesEmpty(g) && Halfway(g, obj, place, cs, i) && i < |cs|
    requires one == obj[place][i := PinContainer(g(place, i), cs[i])]
    requires Finishes(g, obj[place := one], place, cs, i + 1)
    ensures Finishes(g, obj, place, cs, i)
  {
    ApplyFirst(g, obj, place, cs, i);
    UpdateTwice(obj, place, one, PinList(g, place, cs));
  }

  lemma ApplyFirst(g: Timed, obj: Object, place: Place, cs: seq<Container>, i: nat)
    requires LeavesEmpty(g) && Halfway(g, obj, place, cs, i) && i < |cs|
    ensures var one := obj[place][i := PinContainer(g(place, i), cs[i])];
            ApplyAll(obj, ListPatches(g, cs, place, i))
            == ApplyAll(obj[place := one], ListPatches(g, cs, place, i + 1))
  {
    ApplyOne(g, obj, place, i);
    ApplyAppend(obj, PatchOf(g, cs[i], place, i), ListPatches(g, cs, place, i + 1));
  }

  /** The patches of one more place pin that place too. */
  lemma ApplyPlace(g: Timed, orig: Object, before: seq<Place>, place: Place)
    requires LeavesEmpty(g) && place !in before
    ensures ApplyAll(PinPlaces(g, orig, before), PlacePatches(g, orig, place))
            == Some(PinPlaces(g, orig, before + [place]))
  {
    var obj, next := PinPlaces(g, orig, before), PinPlaces(g, orig, before + [place]);
    if place in orig {
      ApplyListPatches(g, obj, place, orig[place], 0);
      assert next == obj[place := PinList(g, place, orig[place])];
    } else {
      assert next == obj;
    }
  }

  lemma {:induction false} ApplyPlaces(g: Timed, orig: Object, places: seq<Place>, i: nat)
    requires LeavesEmpty(g) && i <= |places|
    requires forall a, b :: 0 <= a < b < |places| ==> places[a] != places[b]
    ensures ApplyAll(PinPlaces(g, orig, places[..i]), PatchesFrom(g, orig, places, i))
            == Some(PinPlaces(g, orig, places))
    decreases |places| - i
  {
    var obj := PinPlaces(g, orig, places[..i]);
    if i == |places| {
      assert places[..i] == places;
    } else {
      var place := places[i];
      assert place !in places[..i];
      assert places[..i + 1] == places[..i] + [place];
      ApplyPlace(g, orig, places[..i], place);
      ApplyAppend(obj, PlacePatches(g, orig, place), PatchesFrom(g, orig, places, i + 1));
      ApplyPlaces(g, orig, places, i + 1);
    }
  }

  /** The patches apply without error, in the order given, and the outcome is the object with each
      container and init container pinned and everything else untouched. */
  lemma PatchesPinObject(g: Timed, obj: Object)
    requires LeavesEmpty(g)
    ensures ApplyAll(obj, Patches(g, obj)) == Some(PinObject(g, obj))
  {
    ApplyPlaces(g, obj, PLACES, 0);
    assert PinPlaces(g, obj, PLACES[..0]) == obj;
  }

  /** Rewritings that agree on every container give the same object. */
  lemma SamePins(g: Timed, g': Timed, obj: Object)
    requires forall place, i :: place in PLACES && place in obj && 0 <= i < |obj[place]| ==>
               g(place, i)(obj[place][i].ImageText()) == g'(place, i)(obj[place][i].ImageText())
    ensures PinObject(g, obj) == PinObject(g', obj)
  {
    forall place | place in obj && place in PLACES
      ensures PinList(g, place, obj[place]) == PinList(g', place, obj[place]) {
      forall i | 0 <= i < |obj[place]|
        ensures PinContainer(g(place, i), obj[place][i]) == PinContainer(g'(place, i), obj[place][i])
      {
        assert g(place, i)(obj[place][i].ImageText()) == g'(place, i)(obj[place][i].ImageText());
      }
    }
  }

  // ---------------------------------------------------------------------------
  // The images the validators see
  // ---------------------------------------------------------------------------

  function ImageTexts(obj: Object, place: Place): (r: seq<string>)
    ensures |r| == if place in obj then |obj[place]| else 0
    ensures forall i :: 0 <= i < |r| ==> r[i] == obj[place][i].ImageText()
  {
    if place in obj then seq(|obj[place]|, i requires 0 <= i < |obj[place]| => obj[place][i].ImageText()) else []
  }

  function NonEmpty(images: seq<string>): seq<string> {
    if images == [] then []
    else (if images[0] != "" then [images[0]] else []) + NonEmpty(images[1..])
  }

  /** The places `extract_images` visits, in its order: the direct lists only when there are direct
      containers, and never the ephemeral containers of a job. */
  function Visited(obj: Object): seq<Place> {
    (if DirectMain in obj then [DirectMain, DirectInit, DirectEphemeral] else [])
    + [TemplateMain, TemplateInit, TemplateEphemeral, JobMain, JobInit]
  }

  function Gather(obj: Object, places: seq<Place>): seq<string> {
    if places == [] then [] else ImageTexts(obj, places[0]) + Gather(obj, places[1..])
  }

  function ExtractImages(obj: Object): seq<string> {
    NonEmpty(Gather(obj, Visited(obj)))
  }

  lemma GatherNext(obj: Object, places: seq<Place>, i: nat, before: seq<string>)
    requires i < |places|
    ensures before + Gather(obj, places[i..]) == before + ImageTexts(obj, places[i]) + Gather(obj, places[i + 1..])
  {
    assert places[i..][1..] == places[i + 1..];
    AppendAssociative(before, ImageTexts(obj, places[i]), Gather(obj, places[i + 1..]));
  }

  method GatherImages(obj: Object, places: seq<Place>) returns (images: seq<string>)
    ensures images == Gather(obj, places)
  {
    images := [];
    var i := 0;
    while i < |places|
      invariant 0 <= i <= |places|
      invariant images + Gather(obj, places[i..]) == Gather(obj, places)
    {
      GatherNext(obj, places, i, images);
      images := images + ImageTexts(obj, places[i]);
      i := i + 1;
    }
    assert places[i..] == [];
  }

  lemma NonEmptyStep(all: seq<string>, i: nat, before: seq<string>)
    requires i < |all|
    ensures before + NonEmpty(all[i..])
         == (if all[i] != "" then before + [all[i]] else before) + NonEmpty(all[i + 1..])
  {
    assert all[i..][1..] == all[i + 1..];
    AppendAssociative(before, [all[i]], NonEmpty(all[i + 1..]));
  }

  method DropEmpty(all: seq<string>) returns (images: seq<string>)
    ensures images == NonEmpty(all)
  {
    images := [];
    var i := 0;
    while i < |all|
      invariant 0 <= i <= |all|
      invariant images + NonEmpty(all[i..]) == NonEmpty(all)
    {
      NonEmptyStep(all, i, images);
      if all[i] != "" {
        images := images + [all[i]];
      }
      i := i + 1;
    }
    assert all[i..] == [];
  }

  // ---------------------------------------------------------------------------
  // Which images they see
  // ---------------------------------------------------------------------------

  /** Some container at the place has that image. */
  ghost predicate HasImage(obj: Object, place: Place, image: string) {
    place in obj && exists i :: 0 <= i < |obj[place]| && obj[place][i].image == Some(image)
  }

  /** Some container that the validators look at has that image: one of a template or of a job's template
      except the ephemeral ones of a job, or one directly in a spec that has containers. */
  ghost predicate IsSeen(obj: Object, image: string) {
    || HasImage(obj, TemplateMain, image) || HasImage(obj, TemplateInit, image)
    || HasImage(obj, TemplateEphemeral, image)
    || HasImage(obj, JobMain, image) || HasImage(obj, JobInit, image)
    || (DirectMain in obj
        && (HasImage(obj, DirectMain, image) || HasImage(obj, DirectInit, image)
            || HasImage(obj, DirectEphemeral, image)))
  }

  lemma TextAt(obj: Object, place: Place, image: string)
    requires image != ""
    ensures image in ImageTexts(obj, place) <==> HasImage(obj, place, image)
  {
    if HasImage(obj, place, image) {
      var i :| 0 <= i < |obj[place]| && obj[place][i].image == Some(image);
      assert ImageTexts(obj, place)[i] == image;
    }
  }

  lemma {:induction false} NonEmptyMember(images: seq<string>, image: string)
    ensures image in NonEmpty(images) <==> image != "" && image in images
  {
    if images != [] {
      NonEmptyMember(images[1..], image);
      assert images == [images[0]] + images[1..];
    }
  }

  lemma {:induction false} GatherMember(obj: Object, places: seq<Place>, image: string)
    requires image != ""
    ensures image in Gather(obj, places) <==> exists i :: 0 <= i < |places| && HasImage(obj, places[i], image)
    decreases |places|
  {
    if places != [] {
      TextAt(obj, places[0], image);
      GatherMember(obj, places[1..], image);
      assert forall i :: 1 <= i < |places| ==> places[i] == places[1..][i - 1];
      if image in Gather(obj, places[1..]) {
        var i :| 0 <= i < |places[1..]| && HasImage(obj, places[1..][i], image);
        assert HasImage(obj, places[i + 1], image);
      }
    }
  }

  /** An image is extracted if and only if it is not empty and some container that is looked at has it. */
  lemma ExtractedIff(obj: Object, image: string)
    ensures image in ExtractImages(obj) <==> image != "" && IsSeen(obj, image)
  {
    NonEmptyMember(Gather(obj, Visited(obj)), image);
    if image != "" {
      GatherMember(obj, Visited(obj), image);
      VisitedPlaces(obj, image);
    }
  }

  lemma VisitedPlaces(obj: Object, image: string)
    ensures (exists i :: 0 <= i < |Visited(obj)| && HasImage(obj, Visited(obj)[i], image)) <==> IsSeen(obj, image)
  {
    var places := Visited(obj);
    if DirectMain in obj {
      assert places == [DirectMain, DirectInit, DirectEphemeral, TemplateMain, TemplateInit, TemplateEphemeral,
                        JobMain, JobInit];
      assert places[0] == DirectMain && places[1] == DirectInit && places[2] == DirectEphemeral;
      assert places[3] == TemplateMain && places[4] == TemplateInit && places[5] == TemplateEphemeral;
      assert places[6] == JobMain && places[7] == JobInit;
    } else {
      assert places == [TemplateMain, TemplateInit, TemplateEphemeral, JobMain, JobInit];
      assert places[0] == TemplateMain && places[1] == TemplateInit && places[2] == TemplateEphemeral;
      assert places[3] == JobMain && places[4] == JobInit;
    }
  }

  /** The non-empty images of the lists, one list after the other. */
  ghost function InOrder(obj: Object, places: seq<Place>): seq<string> {
    if places == [] then [] else NonEmpty(ImageTexts(obj, places[0])) + InOrder(obj, places[1..])
  }

  lemma {:induction false} NonEmptyAppend(a: seq<string>, b: seq<string>)
    ensures NonEmpty(a + b) == NonEmpty(a) + NonEmpty(b)
  {
    if a == [] {
      assert a + b == b;
    } else {
      NonEmptyAppend(a[1..], b);
      assert (a + b)[1..] == a[1..] + b;
      AppendAssociative(if a[0] != "" then [a[0]] else [], NonEmpty(a[1..]), NonEmpty(b));
    }
  }

  lemma {:induction false} GatherInOrder(obj: Object, places: seq<Place>)
    ensures NonEmpty(Gather(obj, places)) == InOrder(obj, places)
    decreases |places|
  {
    if places != [] {
      GatherInOrder(obj, places[1..]);
      NonEmptyAppend(ImageTexts(obj, places[0]), Gather(obj, places[1..]));
    }
  }

  /** The images come in the order of the lists: direct ones first, then a template's, then a job's, and at each
      level the main containers before the init containers before the ephemeral ones. */
  lemma ExtractedInOrder(obj: Object)
    ensures ExtractImages(obj)
         == InOrder(obj, if DirectMain in obj
                         then [DirectMain, DirectInit, DirectEphemeral, TemplateMain, TemplateInit, TemplateEphemeral,
                               JobMain, JobInit]
                         else [TemplateMain, TemplateInit, TemplateEphemeral, JobMain, JobInit])
  {
    GatherInOrder(obj, Visited(obj));
    if DirectMain in obj {
      assert Visited(obj) == [DirectMain, DirectInit, DirectEphemeral, TemplateMain, TemplateInit, TemplateEphemeral,
                              JobMain, JobInit];
    } else {
      assert Visited(obj) == [TemplateMain, TemplateInit, TemplateEphemeral, JobMain, JobInit];
    }
  }

  /** Some container of one of the lists that the webhook rewrites has that image. */
  ghost predicate IsRewritable(obj: Object, image: string) {
    || HasImage(obj, DirectMain, image) || HasImage(obj, DirectInit, image)
    || HasImage(obj, TemplateMain, image) || HasImage(obj, TemplateInit, image)
    || HasImage(obj, JobMain, image) || HasImage(obj, JobInit, image)
  }

  /** Every image that the webhook can rewrite is among those the validators see, if and only if the spec has
      containers of its own or each image of its own init containers is seen elsewhere. */
  lemma RewritableSeenIff(obj: Object)
    ensures (forall image :: image != "" && IsRewritable(obj, image) ==> image in ExtractImages(obj))
       <==> DirectMain in obj
            || forall image :: image != "" && HasImage(obj, DirectInit, image) ==> IsSeen(obj, image)
  {
    forall image ensures image in ExtractImages(obj) <==> image != "" && IsSeen(obj, image) {
      ExtractedIff(obj, image);
    }
    if DirectMain !in obj && !(forall image :: image != "" && HasImage(obj, DirectInit, image) ==> IsSeen(obj, image)) {
      var image :| image != "" && HasImage(obj, DirectInit, image) && !IsSeen(obj, image);
      assert IsRewritable(obj, image);
    }
  }

  /** The lists that are rewritten are the main and init lists at each level. */
  lemma PatchedPlaces(g: Timed, obj: Object, place: Place)
    requires place in obj
    ensures PinObject(g, obj).Keys == obj.Keys
    ensures PinObject(g, obj)[place]
         == if place.DirectEphemeral? || place.TemplateEphemeral? || place.JobEphemeral? then obj[place]
            else PinList(g, place, obj[place])
  {
    if place !in PLACES {
      NotRewritten(place);
    }
    assert forall i :: 0 <= i < |PLACES| ==> PLACES[i] in PLACES;
    assert PLACES[0] == DirectMain && PLACES[1] == DirectInit && PLACES[2] == TemplateMain;
    assert PLACES[3] == TemplateInit && PLACES[4] == JobMain && PLACES[5] == JobInit;
  }

  /** Some object has only init containers of its own; its image is rewritten and never seen. */
  lemma InitOnlyUnseen(c: Container)
    requires c.image.Some? && c.image.value != ""
    ensures var obj: Object := map[DirectInit := [c]];
            IsRewritable(obj, c.image.value) && c.image.value !in ExtractImages(obj)
  {
    var obj: Object := map[DirectInit := [c]];
    assert obj[DirectInit][0].image == Some(c.image.value);
    assert HasImage(obj, DirectInit, c.image.value);
    ExtractedIff(obj, c.image.value);
  }

  method ExtractImagesOf(obj: Object) returns (images: seq<string>)
    ensures images == ExtractImages(obj)
    ensures forall image :: image in images <==> image != "" && IsSeen(obj, image)
  {
    forall image ensures image in ExtractImages(obj) <==> image != "" && IsSeen(obj, image) {
      ExtractedIff(obj, image);
    }
    var places := if DirectMain in obj then [DirectMain, DirectInit, DirectEphemeral] else [];
    places := places + [TemplateMain, TemplateInit, TemplateEphemeral, JobMain, JobInit];
    images := GatherImages(obj, places);
    images := DropEmpty(images);
  }

  function PinTexts(f: Rewriting, images: seq<string>): (r: seq<string>)
    ensures |r| == |images|
    ensures forall i :: 0 <= i < |r| ==> r[i] == PinText(f, images[i])
  {
    seq(|images|, i requires 0 <= i < |images| => PinText(f, images[i]))
  }

  lemma PinTextNonEmpty(f: Rewriting, image: string)
    requires Proper(f)
    ensures PinText(f, image) == "" <==> image == ""
  {
    assert f(image) != Some("");
  }

  lemma PinTextsAppend(f: Rewriting, a: seq<string>, b: seq<string>)
    ensures PinTexts(f, a + b) == PinTexts(f, a) + PinTexts(f, b)
  {
  }

  lemma {:induction false} NonEmptyCommutes(f: Rewriting, images: seq<string>)
    requires Proper(f)
    ensures NonEmpty(PinTexts(f, images)) == PinTexts(f, NonEmpty(images))
  {
    if images != [] {
      var t := images[1..];
      NonEmptyCommutes(f, t);
      PinTextNonEmpty(f, images[0]);
      assert PinTexts(f, images)[1..] == PinTexts(f, t);
      var h := if images[0] != "" then [images[0]] else [];
      PinTextsAppend(f, h, NonEmpty(t));
      assert PinTexts(f, h) == if images[0] != "" then [PinText(f, images[0])] else [];
    }
  }

  lemma {:induction false} NonEmptyInjective(a: seq<string>, b: seq<string>)
    requires SameBlanks(a, b)
    requires NonEmpty(a) == NonEmpty(b)
    ensures a == b
  {
    if a != [] {
      var na, nb := NonEmpty(a[1..]), NonEmpty(b[1..]);
      if a[0] == "" {
        assert [] + na == na && [] + nb == nb;
      } else {
        assert ([a[0]] + na)[0] == ([b[0]] + nb)[0];
        assert ([a[0]] + na)[1..] == na && ([b[0]] + nb)[1..] == nb;
      }
      NonEmptyInjective(a[1..], b[1..]);
      assert a == [a[0]] + a[1..] && b == [b[0]] + b[1..];
    }
  }

  /** Pinning would leave alone every image at a place the webhook does not rewrite. */
  ghost predicate Untouched(f: Rewriting, obj: Object, places: seq<Place>) {
    forall i, k :: 0 <= i < |places| && places[i] !in PLACES && 0 <= k < |ImageTexts(obj, places[i])| ==>
      PinText(f, ImageTexts(obj, places[i])[k]) == ImageTexts(obj, places[i])[k]
  }

  lemma TextsAfter(f: Rewriting, obj: Object, place: Place)
    ensures ImageTexts(PinObject(Always(f), obj), place)
            == if place in PLACES then PinTexts(f, ImageTexts(obj, place)) else ImageTexts(obj, place)
  {
  }

  ghost predicate SameBlanks(a: seq<string>, b: seq<string>) {
    |a| == |b| && forall i :: 0 <= i < |a| ==> (a[i] == "" <==> b[i] == "")
  }

  lemma SameBlanksAppend(a: seq<string>, b: seq<string>, c: seq<string>, d: seq<string>)
    requires SameBlanks(a, b) && SameBlanks(c, d)
    ensures SameBlanks(a + c, b + d)
  {
  }

  /** Position by position the gathered texts are pinned, except at the places left alone. */
  lemma {:induction false} GatherAfter(f: Rewriting, obj: Object, places: seq<Place>)
    requires Proper(f)
    ensures var a, b := Gather(PinObject(Always(f), obj), places), PinTexts(f, Gather(obj, places));
            SameBlanks(a, b) && (a == b <==> Untouched(f, obj, places))
    decreases |places|
  {
    if places != [] {
      var h, t := ImageTexts(obj, places[0]), places[1..];
      TextsAfter(f, obj, places[0]);
      GatherAfter(f, obj, t);
      PinTextsAppend(f, h, Gather(obj, t));
      var ha := ImageTexts(PinObject(Always(f), obj), places[0]);
      GatherStep(f, ha, PinTexts(f, h), Gather(PinObject(Always(f), obj), t), PinTexts(f, Gather(obj, t)));
      forall i | 0 <= i < |h| ensures ha[i] == "" <==> PinTexts(f, h)[i] == "" {
        PinTextNonEmpty(f, h[i]);
      }
      SameBlanksAppend(ha, PinTexts(f, h), Gather(PinObject(Always(f), obj), t), PinTexts(f, Gather(obj, t)));
      UntouchedStep(f, obj, places);
    }
  }

  lemma GatherStep(f: Rewriting, h: seq<string>, h': seq<string>, t: seq<string>, t': seq<string>)
    requires |h| == |h'|
    ensures h + t == h' + t' <==> h == h' && t == t'
  {
    if h + t == h' + t' {
      assert h == (h + t)[..|h|] && h' == (h' + t')[..|h|];
      assert t == (h + t)[|h|..] && t' == (h' + t')[|h|..];
    }
  }

  lemma UntouchedStep(f: Rewriting, obj: Object, places: seq<Place>)
    requires places != []
    ensures Untouched(f, obj, places) <==>
              && Untouched(f, obj, places[1..])
              && (places[0] !in PLACES ==> PinTexts(f, ImageTexts(obj, places[0])) == ImageTexts(obj, places[0]))
  {
    var h := ImageTexts(obj, places[0]);
    if Untouched(f, obj, places[1..]) && (places[0] !in PLACES ==> PinTexts(f, h) == h) {
      forall i, k | 0 <= i < |places| && places[i] !in PLACES && 0 <= k < |ImageTexts(obj, places[i])|
        ensures PinText(f, ImageTexts(obj, places[i])[k]) == ImageTexts(obj, places[i])[k]
      {
        if i == 0 {
          assert PinTexts(f, h)[k] == h[k];
        } else {
          assert places[i] == places[1..][i - 1];
        }
      }
    }
    if Untouched(f, obj, places) {
      forall i, k | 0 <= i < |places[1..]| && places[1..][i] !in PLACES && 0 <= k < |ImageTexts(obj, places[1..][i])|
        ensures PinText(f, ImageTexts(obj, places[1..][i])[k]) == ImageTexts(obj, places[1..][i])[k]
      {
        assert places[1..][i] == places[i + 1];
      }
    }
  }

  /** Extracting images commutes with pinning if and only if pinning would leave alone the image of
      every ephemeral container that the validators see: the webhook does not rewrite those. */
  lemma ExtractCommutes(f: Rewriting, obj: Object)
    requires Proper(f)
    ensures ExtractImages(PinObject(Always(f), obj)) == PinTexts(f, ExtractImages(obj))
            <==> Untouched(f, obj, Visited(obj))
  {
    var places := Visited(obj);
    assert Visited(PinObject(Always(f), obj)) == places;
    var a, b := Gather(PinObject(Always(f), obj), places), PinTexts(f, Gather(obj, places));
    GatherAfter(f, obj, places);
    NonEmptyCommutes(f, Gather(obj, places));
    if NonEmpty(a) == NonEmpty(b) {
      NonEmptyInjective(a, b);
    }
  }

  /** In particular it commutes for every object without ephemeral containers. */
  lemma ExtractCommutesWithoutEphemeral(f: Rewriting, obj: Object)
    requires Proper(f) && DirectEphemeral !in obj && TemplateEphemeral !in obj
    ensures ExtractImages(PinObject(Always(f), obj)) == PinTexts(f, ExtractImages(obj))
  {
    ExtractCommutes(f, obj);
    var places := Visited(obj);
    forall i | 0 <= i < |places| && places[i] !in PLACES ensures ImageTexts(obj, places[i]) == [] {
      assert places[i] in [DirectEphemeral, TemplateEphemeral] by { NotRewritten(places[i]); }
    }
  }

  lemma NotRewritten(p: Place)
    requires p !in PLACES
    ensures p in [DirectEphemeral, TemplateEphemeral, JobEphemeral]
  {
    assert PLACES[0] == DirectMain && PLACES[1] == DirectInit && PLACES[2] == TemplateMain;
    assert PLACES[3] == TemplateInit && PLACES[4] == JobMain && PLACES[5] == JobInit;
  }

  // ---------------------------------------------------------------------------
  // A second pass
  // ---------------------------------------------------------------------------

  /** Rewriting the text once is enough. */
  predicate Settled(f: Rewriting, image: string) {
    f(PinText(f, image)).None?
  }

  predicate SettledAt(f: Rewriting, obj: Object, place: Place) {
    place in obj ==> forall i :: 0 <= i < |obj[place]| ==> Settled(f, obj[place][i].ImageText())
  }

  ghost predicate SettledFrom(f: Rewriting, obj: Object, places: seq<Place>, i: nat) {
    forall j :: i <= j < |places| ==> SettledAt(f, obj, places[j])
  }

  lemma {:induction false} NoPatchesIff(f: Rewriting, cs: seq<Container>, place: Place, i: nat)
    requires i <= |cs|
    ensures ListPatches(Always(f), cs, place, i) == [] <==> forall j :: i <= j < |cs| ==> f(cs[j].ImageText()).None?
    decreases |cs| - i
  {
    if i < |cs| {
      NoPatchesIff(f, cs, place, i + 1);
    }
  }

  lemma PlaceSettledIff(f: Rewriting, obj: Object, places: seq<Place>, place: Place)
    requires place in places
    ensures PlacePatches(Always(f), PinPlaces(Always(f), obj, places), place) == [] <==> SettledAt(f, obj, place)
  {
    if place in obj {
      NoPatchesIff(f, PinList(Always(f), place, obj[place]), place, 0);
    }
  }

  lemma EmptyAppend(a: seq<Patch>, b: seq<Patch>)
    ensures a + b == [] <==> a == [] && b == []
  {
    assert a + b == [] ==> |a| + |b| == 0;
  }

  lemma NoneFrom(g: Timed, obj: Object, places: seq<Place>, i: nat)
    requires i < |places|
    ensures PatchesFrom(g, obj, places, i) == []
       <==> PlacePatches(g, obj, places[i]) == [] && PatchesFrom(g, obj, places, i + 1) == []
  {
    EmptyAppend(PlacePatches(g, obj, places[i]), PatchesFrom(g, obj, places, i + 1));
  }

  lemma NoPatchesFromIff(f: Rewriting, obj: Object, places: seq<Place>)
    ensures PatchesFrom(Always(f), PinPlaces(Always(f), obj, places), places, 0) == []
            <==> forall j :: 0 <= j < |places| ==> SettledAt(f, obj, places[j])
  {
    NoneLeftIff(f, obj, PinPlaces(Always(f), obj, places), places, 0);
  }

  ghost predicate NoneLeft(f: Rewriting, pinned: Object, places: seq<Place>, i: nat)
    requires i <= |places|
  {
    PatchesFrom(Always(f), pinned, places, i) == []
  }

  lemma {:induction false} NoneLeftIff(f: Rewriting, obj: Object, pinned: Object, places: seq<Place>, i: nat)
    requires i <= |places| && pinned == PinPlaces(Always(f), obj, places)
    ensures NoneLeft(f, pinned, places, i) <==> SettledFrom(f, obj, places, i)
    decreases |places| - i
  {
    if i < |places| {
      NoneLeftIff(f, obj, pinned, places, i + 1);
      OnePlaceMoreIff(f, obj, pinned, places, i);
    }
  }

  lemma OnePlaceMoreIff(f: Rewriting, obj: Object, pinned: Object, places: seq<Place>, i: nat)
    requires i < |places| && pinned == PinPlaces(Always(f), obj, places)
    requires NoneLeft(f, pinned, places, i + 1) <==> SettledFrom(f, obj, places, i + 1)
    ensures NoneLeft(f, pinned, places, i) <==> SettledFrom(f, obj, places, i)
  {
    PlaceSettledIff(f, obj, places, places[i]);
    NoneFrom(Always(f), pinned, places, i);
    SettledNext(f, obj, places, i);
  }

  lemma SettledNext(f: Rewriting, obj: Object, places: seq<Place>, i: nat)
    requires i < |places|
    ensures SettledFrom(f, obj, places, i) <==> SettledAt(f, obj, places[i]) && SettledFrom(f, obj, places, i + 1)
  {
  }
}
