/** The verification settings and their lookup: src/sek8s/sek8s/config.py, class CosignConfig. */
module CosignConfig {
  import opened Text
  import opened ImageRef

  datatype Method = Key | Keyless | Disabled

  datatype VerificationConfig =
    VerificationConfig(requireSignature: bool, verifyMethod: Method, publicKey: Option<string>)
  {
    predicate IsDisabled() {
      verifyMethod == Disabled || !requireSignature
    }
  }

  /** Dictionaries keep their insertion order, so they are sequences of pairs. */
  datatype OrganizationConfig =
    OrganizationConfig(own: VerificationConfig, repositories: seq<(string, VerificationConfig)>)

  datatype RegistryConfig =
    RegistryConfig(registry: string, own: VerificationConfig,
                   organizations: seq<(string, OrganizationConfig)>)

  datatype PinEntry = PinEntry(image: string, ttl: nat)

  /** The library calls `str.lower` and `fnmatch.fnmatch`, whatever they compute. */
  datatype Library = Library(lower: string -> string, glob: (string, string) -> bool)

  datatype Settings = Settings(
    registries: seq<RegistryConfig>,
    pinWhitelist: seq<PinEntry>,
    successTtl: nat,
    failureTtl: nat,
    tagFailureTtl: nat,
    lib: Library)

  // ---------------------------------------------------------------------------
  // Matchers
  // ---------------------------------------------------------------------------

  predicate EndsWith(s: string, suffix: string) {
    |suffix| <= |s| && s[|s| - |suffix|..] == suffix
  }

  function NetLoc(url: string): string {
    Before(Before(Before(url, '/'), '?'), '#')
  }

  function NormalizeRegistry(lib: Library, registry: string): string {
    var r :=
      if "http://" <= registry then NetLoc(registry[7..])
      else if "https://" <= registry then NetLoc(registry[8..])
      else registry;
    if r in ["docker.io", "registry-1.docker.io", "index.docker.io"] then DOCKER_HUB else lib.lower(r)
  }

  predicate MatchesRegistry(lib: Library, registry: string, pattern: string) {
    if pattern == "*" then true
    else
      var r, p := lib.lower(registry), lib.lower(pattern);
      if '*' in p && EndsWith(p, "/*") then
        (p[..|p| - 2] + "/") <= r || r == p[..|p| - 2]
      else if '*' in p && EndsWith(p, "*") then
        p[..|p| - 1] <= r
      else if '*' in p && "*" <= p then
        EndsWith(r, p[1..])
      else
        r == p
  }

  predicate MatchesName(lib: Library, name: string, pattern: string) {
    if pattern == "*" then true
    else
      var v, p := lib.lower(name), lib.lower(pattern);
      if '*' !in p then v == p
      else if EndsWith(p, "/*") then (p[..|p| - 2] + "/") <= v || v == p[..|p| - 2]
      else if "*/" <= p then EndsWith(v, "/" + p[2..]) || v == p[2..]
      else lib.glob(v, p)
  }

  ghost predicate StartsWith(v: string, x: string) {
    exists rest :: v == x + rest
  }

  ghost predicate EndsIn(v: string, x: string) {
    exists before :: v == before + x
  }

  lemma PrefixIff(v: string, x: string)
    ensures x <= v <==> StartsWith(v, x)
  {
    if x <= v {
      assert v == x + v[|x|..];
    }
  }

  lemma SuffixIff(v: string, x: string)
    ensures EndsWith(v, x) <==> EndsIn(v, x)
  {
    if EndsIn(v, x) {
      var before :| v == before + x;
      assert v[|before|..] == x;
    }
    if EndsWith(v, x) {
      assert v == v[..|v| - |x|] + x;
    }
  }

  lemma LastStar(p: string)
    ensures EndsWith(p, "/*") ==> EndsWith(p, "*")
    ensures EndsWith(p, "*") || "*" <= p ==> '*' in p
  {
    if EndsWith(p, "/*") {
      assert p[|p| - 1..] == p[|p| - 2..][1..] == "*";
    }
    if EndsWith(p, "*") {
      assert p[|p| - 1] == p[|p| - 1..][0];
    }
  }

  lemma SlashStarLast(x: string)
    ensures EndsWith(x + "/*", "/*") && (x + "/*")[..|x|] == x
  {
    assert (x + "/*")[|x|..] == "/*";
  }

  lemma StarLast(x: string)
    ensures EndsWith(x + "*", "*") && (x + "*")[..|x|] == x
    ensures EndsWith(x + "*", "/*") ==> EndsWith(x, "/")
  {
    var p := x + "*";
    assert p[|x|..] == "*";
    if EndsWith(p, "/*") {
      assert p[|p| - 2] == p[|p| - 2..][0] == '/';
      assert x[|x| - 1..] == "/";
    }
  }

  lemma StarFirst(x: string)
    ensures "*" <= "*" + x && ("*" + x)[1..] == x
    ensures x != "" && EndsWith("*" + x, "*") ==> EndsWith(x, "*")
  {
    var p := "*" + x;
    if x != "" && EndsWith(p, "*") {
      assert x[|x| - 1..] == p[|p| - 1..];
    }
  }

  lemma SubtreePattern(lib: Library, registry: string, pattern: string, x: string)
    requires pattern != "*" && lib.lower(pattern) == x + "/*"
    ensures MatchesRegistry(lib, registry, pattern)
       <==> lib.lower(registry) == x || StartsWith(lib.lower(registry), x + "/")
  {
    LastStar(x + "/*");
    SlashStarLast(x);
    PrefixIff(lib.lower(registry), x + "/");
  }

  lemma PrefixPattern(lib: Library, registry: string, pattern: string, x: string)
    requires pattern != "*" && lib.lower(pattern) == x + "*" && !EndsIn(x, "/")
    ensures MatchesRegistry(lib, registry, pattern) <==> StartsWith(lib.lower(registry), x)
  {
    LastStar(x + "*");
    StarLast(x);
    SuffixIff(x, "/");
    PrefixIff(lib.lower(registry), x);
  }

  lemma SuffixPattern(lib: Library, registry: string, pattern: string, x: string)
    requires pattern != "*" && lib.lower(pattern) == "*" + x && !EndsIn(x, "*") && x != ""
    ensures MatchesRegistry(lib, registry, pattern) <==> EndsIn(lib.lower(registry), x)
  {
    LastStar("*" + x);
    StarFirst(x);
    SuffixIff(x, "*");
    SuffixIff(lib.lower(registry), x);
  }

  lemma PlainPattern(lib: Library, registry: string, pattern: string)
    requires pattern != "*" && !StartsWith(lib.lower(pattern), "*") && !EndsIn(lib.lower(pattern), "*")
    ensures MatchesRegistry(lib, registry, pattern) <==> lib.lower(registry) == lib.lower(pattern)
  {
    LastStar(lib.lower(pattern));
    PrefixIff(lib.lower(pattern), "*");
    SuffixIff(lib.lower(pattern), "*");
  }

  /** The patterns of registries. With a slash and a star at the end a pattern stands for what precedes and
      everything below it, with a star at the end for a prefix, with a star at the start for a suffix, and
      otherwise for itself. A bare star stands for every registry. */
  lemma RegistryPatterns(lib: Library, registry: string, pattern: string, x: string)
    requires pattern != "*"
    ensures MatchesRegistry(lib, registry, "*")
    ensures var v, p := lib.lower(registry), lib.lower(pattern);
            && (p == x + "/*" ==> (MatchesRegistry(lib, registry, pattern) <==> v == x || StartsWith(v, x + "/")))
            && (p == x + "*" && !EndsIn(x, "/") ==> (MatchesRegistry(lib, registry, pattern) <==> StartsWith(v, x)))
            && (p == "*" + x && !EndsIn(x, "*") && x != "" ==>
                  (MatchesRegistry(lib, registry, pattern) <==> EndsIn(v, x)))
            && (!StartsWith(p, "*") && !EndsIn(p, "*") ==> (MatchesRegistry(lib, registry, pattern) <==> v == p))
  {
    var p := lib.lower(pattern);
    if p == x + "/*" {
      SubtreePattern(lib, registry, pattern, x);
    }
    if p == x + "*" && !EndsIn(x, "/") {
      PrefixPattern(lib, registry, pattern, x);
    }
    if p == "*" + x && !EndsIn(x, "*") && x != "" {
      SuffixPattern(lib, registry, pattern, x);
    }
    if !StartsWith(p, "*") && !EndsIn(p, "*") {
      PlainPattern(lib, registry, pattern);
    }
  }

  /** The patterns of organizations and repositories. With a slash and a star at the end they are as for
      registries; with a star and a slash at the start a pattern stands for what follows and everything that
      ends in it, without a star for itself, and otherwise for whatever the glob library says. A bare star stands
      for every name. */
  lemma NamePatterns(lib: Library, name: string, pattern: string, x: string)
    requires pattern != "*"
    ensures MatchesName(lib, name, "*")
    ensures var v, p := lib.lower(name), lib.lower(pattern);
            && (p == x + "/*" ==> (MatchesName(lib, name, pattern) <==> v == x || StartsWith(v, x + "/")))
            && (p == "*/" + x && !EndsIn(p, "/*") ==>
                  (MatchesName(lib, name, pattern) <==> v == x || EndsIn(v, "/" + x)))
            && ('*' !in p ==> (MatchesName(lib, name, pattern) <==> v == p))
            && ('*' in p && !EndsIn(p, "/*") && !StartsWith(p, "*/") ==>
                  (MatchesName(lib, name, pattern) <==> lib.glob(v, p)))
  {
    var v, p := lib.lower(name), lib.lower(pattern);
    LastStar(p);
    SuffixIff(p, "/*");
    PrefixIff(p, "*/");
    if p == x + "/*" {
      SlashStarLast(x);
      PrefixIff(v, x + "/");
    }
    if p == "*/" + x {
      SuffixIff(v, "/" + x);
      assert p[0] == '*' && p[2..] == x;
    }
  }

  /** A registry is looked up without its scheme and path, and Docker Hub under one name. */
  lemma NormalizedRegistry(lib: Library, host: string, path: string)
    requires '/' !in host && '?' !in host && '#' !in host
    requires path == "" || path[0] == '/' || path[0] == '?' || path[0] == '#'
    ensures NormalizeRegistry(lib, "http://" + (host + path)) == NormalizeRegistry(lib, host)
    ensures NormalizeRegistry(lib, "https://" + (host + path)) == NormalizeRegistry(lib, host)
    ensures NormalizeRegistry(lib, host)
         == if host in ["docker.io", "registry-1.docker.io", "index.docker.io"] then "docker.io" else lib.lower(host)
  {
    NetLocOf(host, path);
    Schemes(host, host + path);
  }

  lemma Schemes(host: string, rest: string)
    requires '/' !in host
    ensures !("http://" <= host) && !("https://" <= host)
    ensures "http://" <= "http://" + rest && ("http://" + rest)[7..] == rest
    ensures "https://" <= "https://" + rest && ("https://" + rest)[8..] == rest && !("http://" <= "https://" + rest)
  {
    assert "http://"[4] == ':' && ("https://" + rest)[4] == 's' && "http://"[5] == '/' && "https://"[6] == '/';
    NotPrefix("http://", "https://" + rest, 4);
    NotPrefix("http://", host, 5);
    NotPrefix("https://", host, 6);
  }

  lemma NotPrefix(a: string, s: string, i: nat)
    requires i < |a| && (i < |s| ==> s[i] != a[i])
    ensures !(a <= s)
  {
  }

  lemma NetLocOf(host: string, path: string)
    requires '/' !in host && '?' !in host && '#' !in host
    requires path == "" || path[0] == '/' || path[0] == '?' || path[0] == '#'
    ensures NetLoc(host + path) == host
  {
    var a := Before(path, '/');
    var b := Before(a, '?');
    BeforeAppend(host, '/', path);
    BeforeAppend(host, '?', a);
    BeforeAppend(host, '#', b);
    assert host + Before(b, '#') == host;
  }

  lemma BeforeAppend(a: string, c: char, b: string)
    requires c !in a
    ensures Before(a + b, c) == a + Before(b, c)
  {
    if c in b {
      assert a + b == (a + Before(b, c)) + [c] + After(b, c);
      BeforeUnique(a + Before(b, c), c, After(b, c));
    }
  }

  // ---------------------------------------------------------------------------
  // Lookup
  // ---------------------------------------------------------------------------

  /** Entry `i` decides for `registry`: exact name, or a pattern other than the bare wildcard. */
  predicate Decides(lib: Library, c: RegistryConfig, registry: string) {
    c.registry == registry || (c.registry != "*" && MatchesRegistry(lib, registry, c.registry))
  }

  predicate IsWildcard(c: RegistryConfig, registry: string) {
    c.registry == "*" && registry != "*"
  }

  /** The index of the entry a lookup uses: the first deciding one, else the last bare wildcard. */
  ghost predicate Chosen(lib: Library, configs: seq<RegistryConfig>, registry: string, r: Option<nat>) {
    match r
    case Some(i) =>
      && i < |configs|
      && if Decides(lib, configs[i], registry)
         then forall j :: 0 <= j < i ==> !Decides(lib, configs[j], registry)
         else IsWildcard(configs[i], registry)
              && (forall j :: 0 <= j < |configs| ==> !Decides(lib, configs[j], registry))
              && (forall j :: i < j < |configs| ==> !IsWildcard(configs[j], registry))
    case None =>
      forall j :: 0 <= j < |configs| ==>
        !Decides(lib, configs[j], registry) && !IsWildcard(configs[j], registry)
  }

  /** The same choice, as the scan makes it; `wildcard` is the last bare wildcard seen so far. */
  function Scan(lib: Library, configs: seq<RegistryConfig>, registry: string, from: nat,
                wildcard: Option<nat>): Option<nat>
    requires from <= |configs|
    decreases |configs| - from
  {
    if from == |configs| then wildcard
    else if Decides(lib, configs[from], registry) then Some(from)
    else if IsWildcard(configs[from], registry) then Scan(lib, configs, registry, from + 1, Some(from))
    else Scan(lib, configs, registry, from + 1, wildcard)
  }

  function ChooseRegistry(lib: Library, configs: seq<RegistryConfig>, registry: string): (r: Option<nat>)
    ensures Chosen(lib, configs, registry, r)
  {
    ScanChooses(lib, configs, registry, 0, None);
    Scan(lib, configs, registry, 0, None)
  }

  lemma {:induction false} ScanChooses(lib: Library, configs: seq<RegistryConfig>, registry: string, from: nat,
                                       w: Option<nat>)
    requires from <= |configs|
    requires forall j :: 0 <= j < from ==> !Decides(lib, configs[j], registry)
    requires w.Some? ==> w.value < from && IsWildcard(configs[w.value], registry)
    requires forall j :: (if w.Some? then w.value + 1 else 0) <= j < from ==> !IsWildcard(configs[j], registry)
    ensures Chosen(lib, configs, registry, Scan(lib, configs, registry, from, w))
    decreases |configs| - from
  {
    if from < |configs| && !Decides(lib, configs[from], registry) {
      ScanChooses(lib, configs, registry, from + 1,
        if IsWildcard(configs[from], registry) then Some(from) else w);
    }
  }

  /** A dictionary access followed by a scan of its patterns. */
  function PickNamed<T>(entries: seq<(string, T)>, name: string, lib: Library): Option<T> {
    var exact := FirstKey(entries, name);
    if exact.Some? then exact else FirstMatch(entries, name, lib)
  }

  function FirstKey<T>(entries: seq<(string, T)>, name: string): Option<T> {
    if entries == [] then None
    else if entries[0].0 == name then Some(entries[0].1)
    else FirstKey(entries[1..], name)
  }

  function FirstMatch<T>(entries: seq<(string, T)>, name: string, lib: Library): Option<T> {
    if entries == [] then None
    else if MatchesName(lib, name, entries[0].0) then Some(entries[0].1)
    else FirstMatch(entries[1..], name, lib)
  }

  function Lookup(s: Settings, registry: string, organization: string, repository: string): Option<VerificationConfig> {
    var index := ChooseRegistry(s.lib, s.registries, NormalizeRegistry(s.lib, registry));
    if index.None? then None
    else
      var rc := s.registries[index.value];
      var org := PickNamed(rc.organizations, organization, s.lib);
      if org.None? then Some(rc.own)
      else
        var repo := PickNamed(org.value.repositories, repository, s.lib);
        Some(if repo.Some? then repo.value else org.value.own)
  }

  function ConfigFor(s: Settings, image: string): Option<VerificationConfig> {
    NeverInvalid(image);
    var p := Parse(image);
    Lookup(s, p.registry, p.organization, p.repository)
  }

  /** The first whitelist entry for the stripped name. */
  function PinTtl(whitelist: seq<PinEntry>, imageNoTag: string): Option<nat> {
    if whitelist == [] then None
    else if whitelist[0].image == imageNoTag then Some(whitelist[0].ttl)
    else PinTtl(whitelist[1..], imageNoTag)
  }

  /** An image is whitelisted if and only if some entry names it, and the first such entry gives its lifetime. */
  lemma {:induction false} PinTtlIs(whitelist: seq<PinEntry>, imageNoTag: string) returns (i: nat)
    ensures i <= |whitelist| && forall j :: 0 <= j < i ==> whitelist[j].image != imageNoTag
    ensures if i < |whitelist| then whitelist[i].image == imageNoTag
                                    && PinTtl(whitelist, imageNoTag) == Some(whitelist[i].ttl)
            else PinTtl(whitelist, imageNoTag) == None
  {
    i := 0;
    if whitelist != [] && whitelist[0].image != imageNoTag {
      var k := PinTtlIs(whitelist[1..], imageNoTag);
      i := k + 1;
      assert forall j :: 1 <= j < |whitelist| ==> whitelist[j] == whitelist[1..][j - 1];
    }
  }

  method GetPinTtl(s: Settings, imageNoTag: string) returns (ttl: Option<nat>)
    ensures ttl == PinTtl(s.pinWhitelist, imageNoTag)
  {
    var i := 0;
    while i < |s.pinWhitelist|
      invariant 0 <= i <= |s.pinWhitelist|
      invariant PinTtl(s.pinWhitelist, imageNoTag) == PinTtl(s.pinWhitelist[i..], imageNoTag)
    {
      if s.pinWhitelist[i].image == imageNoTag {
        return Some(s.pinWhitelist[i].ttl);
      }
      i := i + 1;
    }
    return None;
  }

  method PickEntry<T>(entries: seq<(string, T)>, name: string, lib: Library) returns (r: Option<T>)
    ensures r == PickNamed(entries, name, lib)
  {
    var i := 0;
    while i < |entries|
      invariant 0 <= i <= |entries|
      invariant FirstKey(entries, name) == FirstKey(entries[i..], name)
    {
      if entries[i].0 == name {
        return Some(entries[i].1);
      }
      i := i + 1;
    }
    i := 0;
    while i < |entries|
      invariant 0 <= i <= |entries|
      invariant FirstMatch(entries, name, lib) == FirstMatch(entries[i..], name, lib)
    {
      if MatchesName(lib, name, entries[i].0) {
        return Some(entries[i].1);
      }
      i := i + 1;
    }
    return None;
  }

  /** The registry loop of `get_verification_config`. */
  method FindRegistry(lib: Library, configs: seq<RegistryConfig>, name: string) returns (found: Option<nat>)
    ensures found == ChooseRegistry(lib, configs, name)
  {
    var wildcard: Option<nat> := None;
    var i := 0;
    while i < |configs|
      invariant 0 <= i <= |configs|
      invariant Scan(lib, configs, name, 0, None) == Scan(lib, configs, name, i, wildcard)
    {
      if configs[i].registry == name {
        return Some(i);
      } else if configs[i].registry == "*" {
        wildcard := Some(i);
      } else if MatchesRegistry(lib, name, configs[i].registry) {
        return Some(i);
      }
      i := i + 1;
    }
    return wildcard;
  }

  method GetVerificationConfig(s: Settings, registry: string, organization: string, repository: string)
    returns (config: Option<VerificationConfig>)
    ensures config == Lookup(s, registry, organization, repository)
  {
    var found := FindRegistry(s.lib, s.registries, NormalizeRegistry(s.lib, registry));
    if found == None {
      return None;
    }
    var rc := s.registries[found.value];
    var org := PickEntry(rc.organizations, organization, s.lib);
    if org.None? {
      return Some(rc.own);
    }
    var repo := PickEntry(org.value.repositories, repository, s.lib);
    return Some(if repo.Some? then repo.value else org.value.own);
  }

  /** Where a dictionary of patterns finds an entry: at its first exact key, else at its first match. */
  ghost predicate Found<T>(lib: Library, entries: seq<(string, T)>, name: string, r: Option<nat>) {
    match r
    case Some(i) =>
      && i < |entries|
      && if entries[i].0 == name
         then forall j :: 0 <= j < i ==> entries[j].0 != name
         else MatchesName(lib, name, entries[i].0)
              && (forall j :: 0 <= j < |entries| ==> entries[j].0 != name)
              && (forall j :: 0 <= j < i ==> !MatchesName(lib, name, entries[j].0))
    case None =>
      forall j :: 0 <= j < |entries| ==> entries[j].0 != name && !MatchesName(lib, name, entries[j].0)
  }

  lemma {:induction false} FirstKeyAt<T>(entries: seq<(string, T)>, name: string) returns (r: Option<nat>)
    ensures r.Some? <==> FirstKey(entries, name).Some?
    ensures r.Some? ==> r.value < |entries| && entries[r.value].0 == name
                        && FirstKey(entries, name) == Some(entries[r.value].1)
    ensures forall j :: 0 <= j < (if r.Some? then r.value else |entries|) ==> entries[j].0 != name
  {
    r := None;
    if entries != [] {
      if entries[0].0 == name {
        r := Some(0);
      } else {
        var t := FirstKeyAt(entries[1..], name);
        if t.Some? {
          r := Some(t.value + 1);
        }
        assert forall j :: 1 <= j < |entries| ==> entries[j] == entries[1..][j - 1];
      }
    }
  }

  lemma {:induction false} FirstMatchAt<T>(entries: seq<(string, T)>, name: string, lib: Library)
    returns (r: Option<nat>)
    ensures r.Some? <==> FirstMatch(entries, name, lib).Some?
    ensures r.Some? ==> r.value < |entries| && MatchesName(lib, name, entries[r.value].0)
                        && FirstMatch(entries, name, lib) == Some(entries[r.value].1)
    ensures forall j :: 0 <= j < (if r.Some? then r.value else |entries|) ==> !MatchesName(lib, name, entries[j].0)
  {
    r := None;
    if entries != [] {
      if MatchesName(lib, name, entries[0].0) {
        r := Some(0);
      } else {
        var t := FirstMatchAt(entries[1..], name, lib);
        if t.Some? {
          r := Some(t.value + 1);
        }
        assert forall j :: 1 <= j < |entries| ==> entries[j] == entries[1..][j - 1];
      }
    }
  }

  lemma PickFinds<T>(entries: seq<(string, T)>, name: string, lib: Library) returns (r: Option<nat>)
    ensures Found(lib, entries, name, r)
    ensures PickNamed(entries, name, lib) == if r.Some? then Some(entries[r.value].1) else None
  {
    r := FirstKeyAt(entries, name);
    if r.None? {
      r := FirstMatchAt(entries, name, lib);
    }
  }

  /** The most specific level wins: the entry of the repository, else the organization's own configuration,
      else the registry's own, each found by exact name before any pattern. */
  lemma MostSpecificWins(s: Settings, registry: string, organization: string, repository: string)
    returns (i: Option<nat>, j: Option<nat>, k: Option<nat>)
    ensures Chosen(s.lib, s.registries, NormalizeRegistry(s.lib, registry), i)
    ensures i.None? ==> Lookup(s, registry, organization, repository) == None
    ensures i.Some? ==>
              var rc := s.registries[i.value];
              && Found(s.lib, rc.organizations, organization, j)
              && (j.None? ==> Lookup(s, registry, organization, repository) == Some(rc.own))
              && (j.Some? ==>
                    var org := rc.organizations[j.value].1;
                    && Found(s.lib, org.repositories, repository, k)
                    && (k.None? ==> Lookup(s, registry, organization, repository) == Some(org.own))
                    && (k.Some? ==>
                          Lookup(s, registry, organization, repository) == Some(org.repositories[k.value].1)))
  {
    i := ChooseRegistry(s.lib, s.registries, NormalizeRegistry(s.lib, registry));
    j, k := None, None;
    if i.Some? {
      var rc := s.registries[i.value];
      j := PickFinds(rc.organizations, organization, s.lib);
      if j.Some? {
        k := PickFinds(rc.organizations[j.value].1.repositories, repository, s.lib);
      }
    }
  }

  /** The configuration of an image is looked up by its registry, its organization and its repository. */
  lemma ConfigOfReference(s: Settings, registry: string, organization: string, repository: string, tag: string)
    requires '.' in registry || ':' in registry || registry == "localhost"
    requires '/' !in registry && '/' !in organization && '@' !in registry && '@' !in organization
    requires IsUntagged(repository) && IsTag(tag)
    ensures ConfigFor(s, registry + "/" + organization + "/" + repository + ":" + tag)
         == Lookup(s, registry, organization, repository)
  {
    ReferenceRoundTrip(registry, organization, repository, tag);
  }

  /** Pinning an image never changes the configuration it is verified under. */
  lemma PinnedRefSameConfig(s: Settings, image: string, digest: string)
    ensures ConfigFor(s, PinnedRef(image, digest)) == ConfigFor(s, image)
  {
    NeverInvalid(image);
    PinnedRefParses(image, digest);
  }

  /** "Most specific wins" holds for an exact registry entry if and only if no pattern before it
      matches: the scan stops at the first match of either kind. */
  lemma ExactEntryWins(lib: Library, configs: seq<RegistryConfig>, registry: string, i: nat)
    requires i < |configs| && configs[i].registry == registry
    ensures ChooseRegistry(lib, configs, registry) == Some(i)
            <==> forall j :: 0 <= j < i ==> !Decides(lib, configs[j], registry)
  {
    assert Decides(lib, configs[i], registry);
    var r := ChooseRegistry(lib, configs, registry);
    assert Chosen(lib, configs, registry, r);
  }

  /** A bare wildcard is used only when no other entry matches, wherever it stands, and then the last one. */
  lemma WildcardIsFallback(lib: Library, configs: seq<RegistryConfig>, registry: string, i: nat)
    requires i < |configs| && configs[i].registry == "*" && registry != "*"
    ensures ChooseRegistry(lib, configs, registry) == Some(i)
       <==> && (forall j :: 0 <= j < |configs| && configs[j].registry != "*" ==>
                  configs[j].registry != registry && !MatchesRegistry(lib, registry, configs[j].registry))
            && (forall j :: i < j < |configs| ==> configs[j].registry != "*")
  {
    var r := ChooseRegistry(lib, configs, registry);
    assert Chosen(lib, configs, registry, r) && IsWildcard(configs[i], registry);
    if r == Some(i) {
      forall j | 0 <= j < |configs| && configs[j].registry != "*"
        ensures configs[j].registry != registry && !MatchesRegistry(lib, registry, configs[j].registry)
      {
        assert !Decides(lib, configs[j], registry);
      }
      forall j | i < j < |configs| ensures configs[j].registry != "*" {
        assert !IsWildcard(configs[j], registry);
      }
    }
  }

  /** A pattern listed before the exact entry takes its place. */
  lemma PatternShadowsExact(lib: Library, c: VerificationConfig)
    requires lib.lower("*.gcr.io") == "*.gcr.io" && lib.lower("us.gcr.io") == "us.gcr.io"
    ensures var configs := [RegistryConfig("*.gcr.io", c, []), RegistryConfig("us.gcr.io", c, [])];
            ChooseRegistry(lib, configs, "us.gcr.io") == Some(0)
  {
    var configs := [RegistryConfig("*.gcr.io", c, []), RegistryConfig("us.gcr.io", c, [])];
    assert "*.gcr.io"[0] == '*' && "*.gcr.io"[7] == 'o' && "*"[0] == '*' && "/*"[1] == '*';
    assert "us.gcr.io"[2..] == ".gcr.io" == "*.gcr.io"[1..];
    assert MatchesRegistry(lib, "us.gcr.io", "*.gcr.io");
    assert Decides(lib, configs[0], "us.gcr.io");
  }
}
