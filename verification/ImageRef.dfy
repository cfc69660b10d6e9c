/** Image references: src/sek8s/sek8s/image_utils.py. */
module ImageRef {
  import opened Text

  /** What `parse_image_reference` returns, or the ValueError of its error branch. */
  datatype Parsed =
    | Reference(registry: string, organization: string, repository: string, tagOrDigest: string)
    | Invalid(original: string)

  const DOCKER_HUB := "docker.io"
  const LIBRARY := "library"

  predicate HasDigestPrefix(s: string) {
    "sha256:" <= s || "sha512:" <= s
  }

  predicate IsDigestPinned(image: string) {
    '@' in image && HasDigestPrefix(AfterLast(image, '@'))
  }

  predicate LooksLikeRegistry(first: string) {
    '.' in first || ':' in first || first == "localhost"
  }

  /** The name part and the tag or digest part of a reference. */
  function SplitReference(image: string): (string, string) {
    if '@' in image then
      (Before(image, '@'), "@" + After(image, '@'))
    else if ':' in AfterLast(image, '/') then
      AfterLastColon(image);
      (BeforeLast(image, ':'), AfterLast(image, ':'))
    else
      (image, "latest")
  }

  lemma {:induction false} AfterLastColon(image: string)
    requires ':' in AfterLast(image, '/')
    ensures ':' in image
  {
    if image[|image| - 1] != ':' && image[|image| - 1] != '/' {
      AfterLastColon(image[..|image| - 1]);
    }
  }

  function ParseName(name: string, tagOrDigest: string, original: string): Parsed {
    if '/' !in name then
      Reference(DOCKER_HUB, LIBRARY, name, tagOrDigest)
    else
      var parts := Split(name, '/');
      if LooksLikeRegistry(parts[0]) then
        var remaining := parts[1..];
        if |remaining| == 0 then Invalid(original)
        else if |remaining| == 1 then Reference(parts[0], LIBRARY, remaining[0], tagOrDigest)
        else Reference(parts[0], remaining[0], Join(remaining[1..], '/'), tagOrDigest)
      else if |parts| == 1 then Reference(DOCKER_HUB, LIBRARY, name, tagOrDigest)
      else Reference(DOCKER_HUB, parts[0], Join(parts[1..], '/'), tagOrDigest)
  }

  function Parse(image: string): Parsed {
    var (name, tagOrDigest) := SplitReference(image);
    ParseName(name, tagOrDigest, image)
  }

  function ExtractRegistry(image: string): string {
    if '/' !in image then DOCKER_HUB
    else
      var first := Split(image, '/')[0];
      if LooksLikeRegistry(first) then first else DOCKER_HUB
  }

  /** The name without tag or digest; total because the error branch is never taken. */
  function StripTag(image: string): string {
    NeverInvalid(image);
    var p := Parse(image);
    p.registry + "/" + p.organization + "/" + p.repository
  }

  /** `f"{image_no_tag}@{digest}"`, the reference the webhook emits. */
  function PinnedRef(image: string, digest: string): string {
    StripTag(image) + "@" + digest
  }

  /** The parts of a name, read off its first two slashes. */
  lemma NameParts(name: string)
    requires '/' in name
    ensures var parts := Split(name, '/');
            && |parts| >= 2
            && parts[0] == Before(name, '/')
            && parts[1..] == Split(After(name, '/'), '/')
  {
  }

  /** The ValueError branch of the parser is unreachable. */
  lemma NeverInvalid(image: string)
    ensures Parse(image).Reference?
  {
    var (name, _) := SplitReference(image);
    if '/' in name {
      NameParts(name);
    }
  }

  // ---------------------------------------------------------------------------
  // What the parts of a reference are
  // ---------------------------------------------------------------------------

  /** A reference names fixed content if and only if what stands behind its last "@" begins with "sha256:" or
      "sha512:". */
  lemma DigestPinnedIff(name: string, digest: string)
    requires '@' !in digest
    ensures IsDigestPinned(name + "@" + digest)
       <==> (exists rest :: digest == "sha256:" + rest) || (exists rest :: digest == "sha512:" + rest)
    ensures '@' !in name ==> !IsDigestPinned(name)
  {
    var image := name + ['@'] + digest;
    assert image == name + "@" + digest && image[|name|] == '@';
    AfterLastUnique(name, '@', digest);
    PrefixRest("sha256:", digest);
    PrefixRest("sha512:", digest);
  }

  lemma PrefixRest(p: string, s: string)
    ensures p <= s <==> exists rest :: s == p + rest
  {
    if p <= s {
      assert s == p + s[|p|..];
    }
  }

  /** A name without tag or digest: the last component has no colon. */
  ghost predicate IsUntagged(name: string) {
    '@' !in name && ':' !in AfterLast(name, '/')
  }

  ghost predicate IsTag(tag: string) {
    '@' !in tag && '/' !in tag && ':' !in tag
  }

  lemma SplitTagged(name: string, tag: string)
    requires IsUntagged(name) && IsTag(tag)
    ensures SplitReference(name + ":" + tag) == (name, tag)
  {
    var image := name + [':'] + tag;
    assert image == name + ":" + tag;
    AfterLastUnique(name, ':', tag);
    assert image[|name|] == ':';
    LastWithColon(name, tag);
  }

  /** The colon before the tag is in the last component. */
  lemma LastWithColon(name: string, tag: string)
    requires '/' !in tag
    ensures ':' in AfterLast(name + [':'] + tag, '/')
  {
    if '/' in name {
      AroundLast(name, '/');
      var a, b := BeforeLast(name, '/'), AfterLast(name, '/');
      LastComponent(a, b, tag);
      AfterLastUnique(a, '/', b + [':'] + tag);
    } else {
      assert (name + [':'] + tag)[|name|] == ':';
    }
  }

  lemma LastComponent(a: string, b: string, tag: string)
    ensures a + ['/'] + b + [':'] + tag == a + ['/'] + (b + [':'] + tag) && ':' in b + [':'] + tag
  {
    assert (b + [':'] + tag)[|b|] == ':';
  }

  /** A tag is cut off: the tagged reference has the parts of the name, and the tag. */
  lemma TagIsCutOff(name: string, tag: string)
    requires IsUntagged(name) && IsTag(tag)
    ensures Parse(name).Reference? && Parse(name).tagOrDigest == "latest"
    ensures Parse(name + ":" + tag) == Parse(name).(tagOrDigest := tag)
    ensures StripTag(name + ":" + tag) == StripTag(name)
  {
    NeverInvalid(name);
    NeverInvalid(name + ":" + tag);
    SplitTagged(name, tag);
  }

  /** So is a digest, but not a tag before it. */
  lemma DigestIsCutOff(name: string, digest: string)
    requires '@' !in name
    ensures Parse(name + "@" + digest) == ParseName(name, "@" + digest, name + "@" + digest)
    ensures IsUntagged(name) ==> StripTag(name + "@" + digest) == StripTag(name)
  {
    var image := name + ['@'] + digest;
    assert image == name + "@" + digest && image[|name|] == '@';
    BeforeUnique(name, '@', digest);
    NeverInvalid(name);
    NeverInvalid(image);
  }

  /** A component with a dot or a colon, or "localhost", names a registry. */
  lemma PartsOfThree(registry: string, organization: string, repository: string)
    requires '.' in registry || ':' in registry || registry == "localhost"
    requires '/' !in registry && '/' !in organization && '@' !in registry && '@' !in organization
    requires IsUntagged(repository)
    ensures Parse(registry + "/" + organization + "/" + repository)
         == Reference(registry, organization, repository, "latest")
  {
    var p := Reference(registry, organization, repository, "latest");
    var name := registry + "/" + organization + "/" + repository;
    assert name == (registry + "/" + organization) + ['/'] + repository;
    AfterLastPrepend(registry + "/" + organization, '/', repository);
    ParseNameInverse(p, "latest", name);
  }

  lemma PartsOfRegistry(registry: string, repository: string)
    requires '.' in registry || ':' in registry || registry == "localhost"
    requires '/' !in registry && '@' !in registry && '/' !in repository && IsUntagged(repository)
    ensures Parse(registry + "/" + repository) == Reference(registry, "library", repository, "latest")
  {
    TwoParts(registry, repository);
    assert Split(repository, '/') == [repository];
  }

  lemma PartsOfOrganization(organization: string, repository: string)
    requires '.' !in organization && ':' !in organization && organization != "localhost"
    requires '/' !in organization && '@' !in organization && IsUntagged(repository)
    ensures Parse(organization + "/" + repository) == Reference("docker.io", organization, repository, "latest")
  {
    TwoParts(organization, repository);
    JoinSplit(repository, '/');
  }

  lemma TwoParts(first: string, rest: string)
    requires '/' !in first && '@' !in first && IsUntagged(rest)
    ensures SplitReference(first + "/" + rest) == (first + "/" + rest, "latest") && '/' in first + "/" + rest
    ensures Split(first + "/" + rest, '/') == [first] + Split(rest, '/')
  {
    var name := first + ['/'] + rest;
    assert name == first + "/" + rest && name[|first|] == '/';
    AfterLastPrepend(first, '/', rest);
    BeforeUnique(first, '/', rest);
  }

  /** A name of one component is an official image of Docker Hub. */
  lemma PartsOfOne(repository: string)
    requires '/' !in repository && IsUntagged(repository)
    ensures Parse(repository) == Reference("docker.io", "library", repository, "latest")
  {
  }

  /** Every reference written out in full with a tag reads back as its four parts. */
  lemma ReferenceRoundTrip(registry: string, organization: string, repository: string, tag: string)
    requires '.' in registry || ':' in registry || registry == "localhost"
    requires '/' !in registry && '/' !in organization && '@' !in registry && '@' !in organization
    requires IsUntagged(repository) && IsTag(tag)
    ensures Parse(registry + "/" + organization + "/" + repository + ":" + tag)
         == Reference(registry, organization, repository, tag)
    ensures StripTag(registry + "/" + organization + "/" + repository + ":" + tag)
         == registry + "/" + organization + "/" + repository
  {
    var name := registry + "/" + organization + "/" + repository;
    assert name == (registry + "/" + organization) + ['/'] + repository;
    AfterLastPrepend(registry + "/" + organization, '/', repository);
    TagIsCutOff(name, tag);
    PartsOfThree(registry, organization, repository);
  }

  /** What every parse result satisfies: no `@` in its name parts, no slash in registry or
      organization, and a registry the parser would recognise as one again. */
  ghost predicate WellFormed(p: Parsed) {
    && p.Reference?
    && '@' !in p.registry && '@' !in p.organization && '@' !in p.repository
    && '/' !in p.registry && '/' !in p.organization
    && LooksLikeRegistry(p.registry)
  }

  lemma SplitTail(s: string)
    requires '/' in s
    ensures Split(s, '/')[0] == Before(s, '/')
    ensures Join(Split(s, '/')[1..], '/') == After(s, '/')
  {
    NameParts(s);
    JoinSplit(After(s, '/'), '/');
  }

  lemma ParseNameWellFormed(name: string, t: string, original: string)
    requires '@' !in name
    ensures WellFormed(ParseName(name, t, original))
  {
    assert '.' == DOCKER_HUB[6];
    if '/' in name {
      SplitTail(name);
      var rest := After(name, '/');
      assert forall c :: c in rest ==> c in name;
      if '/' in rest {
        SplitTail(rest);
        NameParts(name);
        assert Split(name, '/')[1..][1..] == Split(rest, '/')[1..];
        assert forall c :: c in After(rest, '/') ==> c in rest;
      }
    }
  }

  lemma ParseWellFormed(image: string)
    ensures WellFormed(Parse(image))
  {
    var (name, t) := SplitReference(image);
    assert '@' !in name;
    ParseNameWellFormed(name, t, image);
  }

  /** Reading back three well-formed name parts. */
  lemma ParseNameInverse(p: Parsed, t: string, original: string)
    requires WellFormed(p)
    ensures ParseName(p.registry + "/" + p.organization + "/" + p.repository, t, original)
            == p.(tagOrDigest := t)
  {
    var rest := p.organization + ['/'] + p.repository;
    var name := p.registry + "/" + p.organization + "/" + p.repository;
    assert name == p.registry + ['/'] + rest;
    BeforeUnique(p.registry, '/', rest);
    BeforeUnique(p.organization, '/', p.repository);
    assert name[|p.registry|] == '/' && rest[|p.organization|] == '/';
    NameParts(name);
    SplitTail(rest);
  }

  /** For every reference and every digest, parsing the pinned reference gives back the registry,
      organization and repository of the original, with the digest. */
  lemma PinnedRefParses(image: string, digest: string)
    ensures Parse(PinnedRef(image, digest)) == Parse(image).(tagOrDigest := "@" + digest)
  {
    ParseWellFormed(image);
    var p := Parse(image);
    var base := StripTag(image);
    var ref := PinnedRef(image, digest);
    StripTagNoAt(image);
    assert ref == base + ['@'] + digest;
    assert ref[|base|] == '@';
    BeforeUnique(base, '@', digest);
    ParseNameInverse(p, "@" + digest, ref);
  }

  lemma StripTagNoAt(image: string)
    ensures '@' !in StripTag(image)
  {
    ParseWellFormed(image);
  }

  /** Stripping a pinned reference gives the stripped original: pinning is stable. */
  lemma StripTagOfPinned(image: string, digest: string)
    ensures StripTag(PinnedRef(image, digest)) == StripTag(image)
  {
    PinnedRefParses(image, digest);
  }

  /** A pinned reference determines the stripped name and the digest it was made from. */
  lemma PinnedRefInjective(image: string, digest: string, image': string, digest': string)
    requires PinnedRef(image, digest) == PinnedRef(image', digest')
    ensures StripTag(image) == StripTag(image') && digest == digest'
  {
    StripTagNoAt(image);
    StripTagNoAt(image');
    BeforeUnique(StripTag(image), '@', digest);
    BeforeUnique(StripTag(image'), '@', digest');
    assert PinnedRef(image, digest) == StripTag(image) + ['@'] + digest;
    assert PinnedRef(image', digest') == StripTag(image') + ['@'] + digest';
  }

  /** A digest that makes any pinned reference digest-pinned: a sha256 or sha512 one. */
  predicate IsShaDigest(digest: string) {
    HasDigestPrefix(AfterLast(digest, '@'))
  }

  /** Whether a pinned reference counts as digest-pinned depends on the digest alone. */
  lemma PinnedRefIsDigestPinned(image: string, digest: string)
    ensures IsDigestPinned(PinnedRef(image, digest)) <==> IsShaDigest(digest)
  {
    var base := StripTag(image);
    assert PinnedRef(image, digest) == base + ['@'] + digest;
    assert PinnedRef(image, digest)[|base|] == '@';
    AfterLastPrepend(base, '@', digest);
  }

  /** The references on which the two registry readers disagree: the text before the first `@` has no
      slash, a slash follows, and what precedes that slash looks like a registry. */
  predicate RegistryHiddenInDigest(image: string) {
    && '@' in image
    && '/' in image
    && '/' !in Before(image, '@')
    && LooksLikeRegistry(Before(image, '/'))
  }

  /** The registry that the allowlist checks is the registry that the cosign lookup parses, except
      exactly on the references with a registry-like name hidden in the digest part. */
  lemma RegistriesAgree(image: string)
    ensures ExtractRegistry(image) == Parse(image).registry <==> !RegistryHiddenInDigest(image)
  {
    NeverInvalid(image);
    var (name, t) := SplitReference(image);
    if '/' in image {
      NameParts(image);
      if '/' in name {
        NameParts(name);
        SameFirstPart(image);
      } else if '@' in image {
        HiddenFirstPart(image);
      } else {
        TagKeepsSlash(image);
      }
    }
  }

  lemma PrefixFirstPart(a: string, s: string, c: char)
    requires a <= s && c in a
    ensures Before(a, c) == Before(s, c)
  {
    var h, t := Before(a, c), After(a, c);
    assert s == h + [c] + (t + s[|a|..]);
    BeforeUnique(h, c, t + s[|a|..]);
  }

  lemma SameFirstPart(image: string)
    requires '/' in SplitReference(image).0
    ensures Before(SplitReference(image).0, '/') == Before(image, '/')
  {
    var name := SplitReference(image).0;
    assert name <= image;
    PrefixFirstPart(name, image, '/');
  }

  lemma HiddenFirstPart(image: string)
    requires '@' in image && '/' in image && '/' !in Before(image, '@')
    ensures '@' in Before(image, '/')
    ensures DOCKER_HUB != Before(image, '/')
  {
    var h := Before(image, '@');
    var f := Before(image, '/');
    assert |f| > |h| by {
      assert forall i :: 0 <= i < |h| ==> image[i] == h[i] != '/';
      assert image[|f|] == '/' && image[|h|] == '@';
    }
    assert f[|h|] == '@';
  }

  /** Cutting a tag off keeps every slash, since the tag's colon comes after the last one. */
  lemma TagKeepsSlash(image: string)
    requires '@' !in image && '/' in image
    ensures '/' in SplitReference(image).0
  {
    if ':' in AfterLast(image, '/') {
      AroundLast(image, '/');
      var a, b := BeforeLast(image, '/'), AfterLast(image, '/');
      AroundLast(b, ':');
      var m := BeforeLast(b, ':');
      assert image == (a + ['/'] + m) + [':'] + AfterLast(b, ':');
      AfterLastUnique(a + ['/'] + m, ':', AfterLast(b, ':'));
      AfterLastColon(image);
      assert (a + ['/'] + m)[|a|] == '/';
    }
  }
}
