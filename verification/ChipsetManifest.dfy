/** Parsing a chipset provider's manifest: trimming, checking and keeping identities apart. */
module ChipsetManifest {
  import opened Wrappers
  import opened Text
  import JsonDepth

  const MAX_DEPTH := 32
  const MAX_CHIPSETS := 64
  const MAX_RELEASES := 64
  const MAX_ENDPOINTS := 64
  const MAX_MODELS := 256
  const MAX_BOARDS := 64

  /** The library checks the parser calls: url.Parse giving an https address with a host and no user,
      time.Parse of an RFC 3339 time, and the four regular expressions. */
  datatype Checks = Checks(
    https: string -> bool, rfc3339: string -> bool, language: string -> bool,
    packageKey: string -> bool, modelPath: string -> bool, posterPath: string -> bool)
  {
    /** url.Parse refuses control bytes, so no accepted address holds a NUL. */
    ghost predicate NoNulInURLs() {
      forall u :: https(u) ==> '\0' !in u
    }
  }

  datatype Link = Link(
    kind: string, title: string, url: string, source: string, languages: seq<string>, verifiedAt: string, summary: string)

  datatype Dimensions = Dimensions(lengthMM: real, widthMM: real)
  datatype Spec = Spec(caption: string, value: string)
  datatype Model = Model(assetPath: string, posterPath: string, note: string)
  datatype Component = Component(key: string, name: string, description: string)

  datatype Board = Board(
    key: string, name: string, vendor: string, summary: string, dimensions: Option<Dimensions>,
    specs: seq<Spec>, resources: seq<Link>, model: Option<Model>, components: seq<Component>)

  datatype Release = Release(
    boardKeys: seq<string>, name: string, version: string, summary: string, recommended: bool,
    models: seq<string>, endpoints: seq<Link>)

  datatype Chipset = Chipset(
    key: string, icModel: string, vendor: string, name: string, family: string, description: string,
    boards: seq<Board>, resources: seq<Link>, releases: seq<Release>)

  datatype Manifest = Manifest(version: string, providerName: string, updatedAt: string, chipsets: seq<Chipset>)

  datatype Result = Parsed(chipsets: seq<Chipset>) | Invalid | VersionUnsupported

  // ----- the NUL join

  function Join(a: string, b: string): string { a + "\0" + b }

  /** Two joins coincide exactly when the parts do, or one first part runs on past a NUL into the other's second. */
  lemma JoinCollides(a: string, b: string, c: string, d: string)
    ensures Join(a, b) == Join(c, d) <==>
      || (a == c && b == d)
      || (exists x :: c == Join(a, x) && b == Join(x, d))
      || (exists x :: a == Join(c, x) && d == Join(x, b))
  {
    var s := Join(a, b);
    if s == Join(c, d) {
      if |a| == |c| {
        assert a == s[..|a|] && b == s[|a| + 1..] && c == s[..|c|] && d == s[|c| + 1..];
      } else if |a| < |c| {
        Continues(a, b, c, d);
      } else {
        Continues(c, d, a, b);
      }
    }
    forall x | c == Join(a, x) && b == Join(x, d) ensures s == Join(c, d) { Regroup(a, x, d); }
    forall x | a == Join(c, x) && d == Join(x, b) ensures s == Join(c, d) { Regroup(c, x, b); }
  }

  lemma Regroup(a: string, x: string, d: string)
    ensures Join(Join(a, x), d) == Join(a, Join(x, d))
  {}

  lemma Continues(a: string, b: string, c: string, d: string)
    requires Join(a, b) == Join(c, d) && |a| < |c|
    ensures exists x :: c == Join(a, x) && b == Join(x, d)
  {
    var s := Join(a, b);
    var x := c[|a| + 1..];
    assert c == s[..|c|] && b == s[|a| + 1..] && d == s[|c| + 1..];
    assert s[|a|] == '\0' && s[|c|] == '\0';
    assert c == Join(a, x);
    assert b == Join(x, d);
  }

  /** With no NUL in either second part the join is injective. */
  lemma JoinInjective(a: string, b: string, c: string, d: string)
    requires '\0' !in b && '\0' !in d
    ensures Join(a, b) == Join(c, d) <==> a == c && b == d
  {
    JoinCollides(a, b, c, d);
    forall x, y | y == Join(x, d) || y == Join(x, b) ensures '\0' in y { assert y[|x|] == '\0'; }
  }

  // ----- links

  function TrimAll(ss: seq<string>): (r: seq<string>)
    ensures |r| == |ss| && forall i :: 0 <= i < |ss| ==> r[i] == TrimSpace(ss[i])
  {
    seq(|ss|, i requires 0 <= i < |ss| => TrimSpace(ss[i]))
  }

  function TrimLink(l: Link): Link {
    Link(TrimSpace(l.kind), TrimSpace(l.title), TrimSpace(l.url), TrimSpace(l.source), TrimAll(l.languages),
      TrimSpace(l.verifiedAt), TrimSpace(l.summary))
  }

  predicate LinkOk(c: Checks, l: Link) {
    && l.kind != "" && l.title != "" && c.https(l.url)
    && l.source in {"", "official", "community"}
    && (forall i :: 0 <= i < |l.languages| ==> c.language(l.languages[i]))
    && (l.verifiedAt == "" || c.rfc3339(l.verifiedAt))
  }

  function LinkKey(l: Link): string { Join(l.kind, l.url) }

  function LinkKeys(ls: seq<Link>): (ks: seq<string>)
    ensures |ks| == |ls| && forall i :: 0 <= i < |ls| ==> ks[i] == LinkKey(ls[i])
  {
    seq(|ls|, i requires 0 <= i < |ls| => LinkKey(ls[i]))
  }

  predicate LinksOk(c: Checks, ls: seq<Link>) {
    (forall i :: 0 <= i < |ls| ==> LinkOk(c, ls[i])) && Distinct(LinkKeys(ls))
  }

  function TrimLinks(ls: seq<Link>): (r: seq<Link>)
    ensures |r| == |ls| && forall i :: 0 <= i < |ls| ==> r[i] == TrimLink(ls[i])
  {
    seq(|ls|, i requires 0 <= i < |ls| => TrimLink(ls[i]))
  }

  /** What normalizeChipsetLinks leaves behind; None for its error. */
  function NormalLinks(c: Checks, ls: seq<Link>): Option<seq<Link>> {
    if LinksOk(c, TrimLinks(ls)) then Some(TrimLinks(ls)) else None
  }

  /** The body of the loop up to the key check: one link trimmed, its languages one by one. */
  method NormalizeLink(c: Checks, given: Link) returns (ok: bool, l: Link)
    ensures ok <==> LinkOk(c, TrimLink(given))
    ensures ok ==> l == TrimLink(given)
  {
    hide TrimSpace;
    l := given.(kind := TrimSpace(given.kind), title := TrimSpace(given.title), url := TrimSpace(given.url));
    l := l.(source := TrimSpace(l.source), verifiedAt := TrimSpace(l.verifiedAt), summary := TrimSpace(l.summary));
    if l.kind == "" || l.title == "" || !c.https(l.url) { return false, l; }
    if l.source != "" && l.source != "official" && l.source != "community" { return false, l; }
    var languages := l.languages;
    for j := 0 to |languages|
      invariant |languages| == |given.languages|
      invariant forall k :: 0 <= k < j ==> languages[k] == TrimSpace(given.languages[k]) && c.language(languages[k])
      invariant forall k :: j <= k < |languages| ==> languages[k] == given.languages[k]
    {
      languages := languages[j := TrimSpace(languages[j])];
      if !c.language(languages[j]) {
        assert !c.language(TrimLink(given).languages[j]);
        return false, l;
      }
    }
    assert languages == TrimAll(given.languages);
    l := l.(languages := languages);
    ok := l.verifiedAt == "" || c.rfc3339(l.verifiedAt);
  }

  /** normalizeChipsetLinks: trims each link where it stands. */
  method NormalizeLinks(c: Checks, links: array<Link>) returns (ok: bool)
    modifies links
    ensures ok <==> NormalLinks(c, old(links[..])).Some?
    ensures ok ==> links[..] == NormalLinks(c, old(links[..])).value
  {
    hide TrimLink, LinkOk, LinkKey, Seen, Distinct;
    ghost var given := links[..];
    ghost var trimmed := TrimLinks(given);
    var seen: set<string> := {};
    SeenNone(LinkKeys(trimmed));
    for i := 0 to links.Length
      invariant forall k :: 0 <= k < i ==> links[k] == trimmed[k] && LinkOk(c, trimmed[k])
      invariant forall k :: i <= k < links.Length ==> links[k] == given[k]
      invariant Seen(LinkKeys(trimmed), i, seen)
    {
      var fine, l := NormalizeLink(c, links[i]);
      if !fine { return false; }
      links[i] := l;
      SeenOneMore(LinkKeys(trimmed), i, seen);
      if LinkKey(l) in seen { return false; }
      seen := seen + {LinkKey(l)};
    }
    SeenAll(LinkKeys(trimmed), seen);
    assert links[..] == trimmed;
    return true;
  }

  // ----- boards

  predicate Within(s: string, most: nat) { ByteLength(s) <= most }

  predicate SpecsOk(specs: seq<Spec>) {
    forall i :: 0 <= i < |specs| ==>
      !Blank(specs[i].caption) && !Blank(specs[i].value) && Within(specs[i].caption, 200) && Within(specs[i].value, 1000)
  }

  predicate ModelOk(c: Checks, m: Model) {
    c.modelPath(m.assetPath) && c.posterPath(m.posterPath) && !Blank(m.note) && Within(m.note, 1000)
  }

  predicate ComponentOk(c: Checks, m: Component) {
    && c.packageKey(m.key) && Within(m.key, 200) && !Blank(m.name) && Within(m.name, 200)
    && !Blank(m.description) && Within(m.description, 1000)
  }

  function ComponentKeys(ms: seq<Component>): (ks: seq<string>)
    ensures |ks| == |ms| && forall i :: 0 <= i < |ms| ==> ks[i] == ms[i].key
  {
    seq(|ms|, i requires 0 <= i < |ms| => ms[i].key)
  }

  predicate ComponentsOk(c: Checks, ms: seq<Component>) {
    (forall i :: 0 <= i < |ms| ==> ComponentOk(c, ms[i])) && Distinct(ComponentKeys(ms))
  }

  predicate IdentityOk(c: Checks, b: Board) {
    && c.packageKey(b.key) && Within(b.key, 200) && b.name != "" && Within(b.name, 200)
    && b.vendor != "" && Within(b.vendor, 200) && Within(b.summary, 4000)
  }

  predicate DimensionsOk(d: Dimensions) {
    0.0 < d.lengthMM <= 10000.0 && 0.0 < d.widthMM <= 10000.0
  }

  predicate BoardOk(c: Checks, b: Board) {
    && IdentityOk(c, b) && (b.dimensions.Some? ==> DimensionsOk(b.dimensions.value))
    && |b.specs| <= 64 && |b.components| <= 64 && |b.resources| <= 64
    && SpecsOk(b.specs) && LinksOk(c, b.resources)
    && (b.model.Some? ==> ModelOk(c, b.model.value)) && ComponentsOk(c, b.components)
  }

  function TrimBoard(b: Board): Board {
    b.(key := TrimSpace(b.key), name := TrimSpace(b.name), vendor := TrimSpace(b.vendor), resources := TrimLinks(b.resources))
  }

  function TrimBoards(bs: seq<Board>): (r: seq<Board>)
    ensures |r| == |bs| && forall i :: 0 <= i < |bs| ==> r[i] == TrimBoard(bs[i])
  {
    seq(|bs|, i requires 0 <= i < |bs| => TrimBoard(bs[i]))
  }

  function BoardKeys(bs: seq<Board>): (ks: seq<string>)
    ensures |ks| == |bs| && forall i :: 0 <= i < |bs| ==> ks[i] == bs[i].key
  {
    seq(|bs|, i requires 0 <= i < |bs| => bs[i].key)
  }

  /** The board references of one release. */
  predicate RefsOk(keys: seq<string>, refs: seq<string>) {
    |refs| <= 64 && (forall i :: 0 <= i < |refs| ==> refs[i] in keys) && Distinct(refs)
  }

  predicate BoardsOk(c: Checks, bs: seq<Board>, releases: seq<Release>) {
    && |bs| <= MAX_BOARDS && (forall i :: 0 <= i < |bs| ==> BoardOk(c, bs[i])) && Distinct(BoardKeys(bs))
    && forall r :: 0 <= r < |releases| ==> RefsOk(BoardKeys(bs), releases[r].boardKeys)
  }

  /** What normalizeChipsetBoards leaves behind; None for its error. */
  function NormalBoards(c: Checks, bs: seq<Board>, releases: seq<Release>): Option<seq<Board>> {
    if BoardsOk(c, TrimBoards(bs), releases) then Some(TrimBoards(bs)) else None
  }

  method CheckSpecs(specs: seq<Spec>) returns (ok: bool)
    ensures ok <==> SpecsOk(specs)
  {
    hide Blank, ByteLength;
    for i := 0 to |specs|
      invariant SpecsOk(specs[..i])
    {
      var spec := specs[i];
      if Blank(spec.caption) || Blank(spec.value) || ByteLength(spec.caption) > 200 || ByteLength(spec.value) > 1000 {
        return false;
      }
    }
    assert specs[..|specs|] == specs;
    return true;
  }

  method CheckComponents(c: Checks, ms: seq<Component>) returns (ok: bool)
    ensures ok <==> ComponentsOk(c, ms)
  {
    hide ComponentOk, Seen, Distinct;
    var seen: set<string> := {};
    SeenNone(ComponentKeys(ms));
    for i := 0 to |ms|
      invariant forall k :: 0 <= k < i ==> ComponentOk(c, ms[k])
      invariant Seen(ComponentKeys(ms), i, seen)
    {
      if !ComponentOk(c, ms[i]) { return false; }
      SeenOneMore(ComponentKeys(ms), i, seen);
      if ms[i].key in seen { return false; }
      seen := seen + {ms[i].key};
    }
    SeenAll(ComponentKeys(ms), seen);
    return true;
  }

  method CheckReferences(ghost keys: seq<string>, known: set<string>, releases: seq<Release>) returns (ok: bool)
    requires forall x :: x in known <==> x in keys
    ensures ok <==> forall r :: 0 <= r < |releases| ==> RefsOk(keys, releases[r].boardKeys)
  {
    hide Seen, Distinct;
    for r := 0 to |releases|
      invariant forall k :: 0 <= k < r ==> RefsOk(keys, releases[k].boardKeys)
    {
      var refs := releases[r].boardKeys;
      if |refs| > 64 { return false; }
      var seen: set<string> := {};
      SeenNone(refs);
      for i := 0 to |refs|
        invariant forall k :: 0 <= k < i ==> refs[k] in keys
        invariant Seen(refs, i, seen)
      {
        SeenOneMore(refs, i, seen);
        if refs[i] !in known || refs[i] in seen { return false; }
        seen := seen + {refs[i]};
      }
      SeenAll(refs, seen);
    }
    return true;
  }

  /** One board of normalizeChipsetBoards, its links trimmed where they stand. */
  method NormalizeBoard(c: Checks, b: Board) returns (ok: bool, out: Board)
    ensures ok <==> BoardOk(c, TrimBoard(b))
    ensures ok ==> out == TrimBoard(b)
  {
    hide TrimSpace, Blank, ByteLength, Join, SpecsOk, ComponentsOk, ModelOk, LinkOk;
    out := b.(key := TrimSpace(b.key), name := TrimSpace(b.name), vendor := TrimSpace(b.vendor));
    if !IdentityOk(c, out) { return false, out; }
    if out.dimensions.Some? && !DimensionsOk(out.dimensions.value) { return false, out; }
    if |out.specs| > 64 || |out.components| > 64 || |out.resources| > 64 { return false, out; }
    var specsOk := CheckSpecs(out.specs);
    if !specsOk { return false, out; }
    var resources := new Link[|b.resources|](i requires 0 <= i < |b.resources| => b.resources[i]);
    assert resources[..] == b.resources;
    var linksOk := NormalizeLinks(c, resources);
    if !linksOk { return false, out; }
    out := out.(resources := resources[..]);
    if out.model.Some? && !ModelOk(c, out.model.value) { return false, out; }
    ok := CheckComponents(c, out.components);
  }

  /** normalizeChipsetBoards: trims each board where it stands, then resolves every release's references. */
  method NormalizeBoards(c: Checks, boards: array<Board>, releases: seq<Release>) returns (ok: bool)
    modifies boards
    ensures ok <==> NormalBoards(c, old(boards[..]), releases).Some?
    ensures ok ==> boards[..] == NormalBoards(c, old(boards[..]), releases).value
  {
    hide TrimBoard, BoardOk, RefsOk, Seen, Distinct;
    ghost var given := boards[..];
    ghost var trimmed := TrimBoards(given);
    if boards.Length > 64 { return false; }
    var keys: set<string> := {};
    SeenNone(BoardKeys(trimmed));
    for i := 0 to boards.Length
      invariant forall k :: 0 <= k < i ==> boards[k] == trimmed[k] && BoardOk(c, trimmed[k])
      invariant forall k :: i <= k < boards.Length ==> boards[k] == given[k]
      invariant Seen(BoardKeys(trimmed), i, keys)
    {
      var fine, board := NormalizeBoard(c, boards[i]);
      if !fine { return false; }
      SeenOneMore(BoardKeys(trimmed), i, keys);
      if board.key in keys { return false; }
      boards[i] := board;
      keys := keys + {board.key};
    }
    SeenAll(BoardKeys(trimmed), keys);
    assert boards[..] == trimmed;
    ok := CheckReferences(BoardKeys(trimmed), keys, releases);
  }

  // ----- releases

  function TrimRelease(r: Release): Release {
    r.(name := TrimSpace(r.name), version := TrimSpace(r.version), models := TrimAll(r.models), endpoints := TrimLinks(r.endpoints))
  }

  function TrimReleases(rs: seq<Release>): (r: seq<Release>)
    ensures |r| == |rs| && forall i :: 0 <= i < |rs| ==> r[i] == TrimRelease(rs[i])
  {
    seq(|rs|, i requires 0 <= i < |rs| => TrimRelease(rs[i]))
  }

  predicate ReleaseOk(c: Checks, r: Release) {
    && r.name != "" && r.version != "" && |r.endpoints| <= MAX_ENDPOINTS && |r.models| <= MAX_MODELS
    && (forall i :: 0 <= i < |r.models| ==> r.models[i] != "")
    && LinksOk(c, r.endpoints)
  }

  function ReleaseKeys(rs: seq<Release>): (ks: seq<string>)
    ensures |ks| == |rs| && forall i :: 0 <= i < |rs| ==> ks[i] == Join(rs[i].name, rs[i].version)
  {
    seq(|rs|, i requires 0 <= i < |rs| => Join(rs[i].name, rs[i].version))
  }

  /** How many of the first n releases are recommended. */
  function Recommended(rs: seq<Release>, n: nat): nat
    requires n <= |rs|
  {
    if n == 0 then 0 else Recommended(rs, n - 1) + if rs[n - 1].recommended then 1 else 0
  }

  predicate ReleasesOk(c: Checks, rs: seq<Release>) {
    && (forall i :: 0 <= i < |rs| ==> ReleaseOk(c, rs[i])) && Distinct(ReleaseKeys(rs)) && Recommended(rs, |rs|) <= 1
  }

  method NormalizeModels(models: seq<string>) returns (ok: bool, out: seq<string>)
    ensures ok <==> forall i :: 0 <= i < |models| ==> TrimAll(models)[i] != ""
    ensures ok ==> out == TrimAll(models)
  {
    hide TrimSpace;
    out := models;
    for i := 0 to |models|
      invariant |out| == |models|
      invariant forall k :: 0 <= k < i ==> out[k] == TrimAll(models)[k] != ""
      invariant forall k :: i <= k < |models| ==> out[k] == models[k]
    {
      out := out[i := TrimSpace(out[i])];
      if out[i] == "" {
        assert TrimAll(models)[i] == "";
        return false, out;
      }
    }
    ok := true;
  }

  /** One release, its models and endpoints trimmed where they stand. */
  method NormalizeRelease(c: Checks, r: Release) returns (ok: bool, out: Release)
    ensures ok <==> ReleaseOk(c, TrimRelease(r))
    ensures ok ==> out == TrimRelease(r)
  {
    hide TrimSpace, Join, LinkOk;
    out := r.(name := TrimSpace(r.name), version := TrimSpace(r.version));
    if out.name == "" || out.version == "" || |out.endpoints| > MAX_ENDPOINTS || |out.models| > MAX_MODELS { return false, out; }
    var modelsOk, models := NormalizeModels(r.models);
    if !modelsOk { return false, out; }
    out := out.(models := models);
    var endpoints := new Link[|r.endpoints|](i requires 0 <= i < |r.endpoints| => r.endpoints[i]);
    assert endpoints[..] == r.endpoints;
    ok := NormalizeLinks(c, endpoints);
    if ok { out := out.(endpoints := endpoints[..]); }
  }

  /** The release loop of parseChipsetManifest. */
  method NormalizeReleases(c: Checks, releases: array<Release>) returns (ok: bool)
    modifies releases
    ensures ok <==> ReleasesOk(c, TrimReleases(old(releases[..])))
    ensures ok ==> releases[..] == TrimReleases(old(releases[..]))
  {
    hide TrimRelease, ReleaseOk, Join, Seen, Distinct;
    ghost var given := releases[..];
    ghost var trimmed := TrimReleases(given);
    var seen: set<string> := {};
    var recommended := 0;
    SeenNone(ReleaseKeys(trimmed));
    for i := 0 to releases.Length
      invariant forall k :: 0 <= k < i ==> releases[k] == trimmed[k] && ReleaseOk(c, trimmed[k])
      invariant forall k :: i <= k < releases.Length ==> releases[k] == given[k]
      invariant Seen(ReleaseKeys(trimmed), i, seen) && recommended == Recommended(trimmed, i)
    {
      var fine, release := NormalizeRelease(c, releases[i]);
      if !fine { return false; }
      assert release == trimmed[i];
      var key := Join(release.name, release.version);
      SeenOneMore(ReleaseKeys(trimmed), i, seen);
      if key in seen { return false; }
      releases[i] := release;
      seen := seen + {key};
      if release.recommended { recommended := recommended + 1; }
    }
    SeenAll(ReleaseKeys(trimmed), seen);
    assert releases[..] == trimmed;
    return recommended <= 1;
  }

  // ----- manifests

  function TrimChipset(s: Chipset): Chipset {
    Chipset(TrimSpace(s.key), TrimSpace(s.icModel), TrimSpace(s.vendor), TrimSpace(s.name), TrimSpace(s.family),
      TrimSpace(s.description), TrimBoards(s.boards), TrimLinks(s.resources), TrimReleases(s.releases))
  }

  /** The checks on one chipset as it stands in the manifest. */
  predicate ChipsetOk(c: Checks, s: Chipset) {
    && Within(s.icModel, 200) && !Blank(s.key) && !Blank(s.vendor) && !Blank(s.name)
    && |s.releases| <= MAX_RELEASES && |s.resources| <= MAX_ENDPOINTS
    && LinksOk(c, TrimLinks(s.resources)) && BoardsOk(c, TrimBoards(s.boards), s.releases)
    && ReleasesOk(c, TrimReleases(s.releases))
  }

  function ChipsetKeys(ss: seq<Chipset>): (ks: seq<string>)
    ensures |ks| == |ss| && forall i :: 0 <= i < |ss| ==> ks[i] == TrimSpace(ss[i].key)
  {
    seq(|ss|, i requires 0 <= i < |ss| => TrimSpace(ss[i].key))
  }

  function TrimChipsets(ss: seq<Chipset>): (r: seq<Chipset>)
    ensures |r| == |ss| && forall i :: 0 <= i < |ss| ==> r[i] == TrimChipset(ss[i])
  {
    seq(|ss|, i requires 0 <= i < |ss| => TrimChipset(ss[i]))
  }

  predicate ChipsetsOk(c: Checks, ss: seq<Chipset>) {
    && 0 < |ss| <= MAX_CHIPSETS && (forall i :: 0 <= i < |ss| ==> ChipsetOk(c, ss[i])) && Distinct(ChipsetKeys(ss))
  }

  predicate HeaderOk(c: Checks, m: Manifest) {
    !Blank(m.providerName) && !Blank(m.updatedAt) && c.rfc3339(m.updatedAt)
  }

  /** Raw bytes: the tokens they hold, whether reading tokens then fails, and the manifest they decode to. */
  datatype Raw = Raw(tokens: seq<JsonDepth.Token>, broken: bool, decoded: Option<Manifest>)

  /** What parseChipsetManifest answers. */
  function Parse(c: Checks, raw: Raw): Result {
    if raw.broken || !JsonDepth.Within(raw.tokens, MAX_DEPTH) || raw.decoded.None? then Invalid
    else
      var m := raw.decoded.value;
      if m.version != "1" then VersionUnsupported
      else if HeaderOk(c, m) && ChipsetsOk(c, m.chipsets) then Parsed(TrimChipsets(m.chipsets))
      else Invalid
  }

  /** One turn of the chipset loop, after its key has been found new. */
  method NormalizeChipset(c: Checks, s: Chipset) returns (ok: bool, out: Chipset)
    requires Within(s.icModel, 200) && !Blank(s.key) && !Blank(s.vendor) && !Blank(s.name) && |s.releases| <= MAX_RELEASES
    ensures ok <==> ChipsetOk(c, s)
    ensures ok ==> out == TrimChipset(s)
  {
    hide TrimSpace, ByteLength, Blank, Join, LinksOk, BoardsOk, ReleasesOk;
    out := s;
    if |s.resources| > MAX_ENDPOINTS { return false, out; }
    var resources := new Link[|s.resources|](i requires 0 <= i < |s.resources| => s.resources[i]);
    assert resources[..] == s.resources;
    var linksOk := NormalizeLinks(c, resources);
    if !linksOk { return false, out; }
    var boards := new Board[|s.boards|](i requires 0 <= i < |s.boards| => s.boards[i]);
    assert boards[..] == s.boards;
    var boardsOk := NormalizeBoards(c, boards, s.releases);
    if !boardsOk { return false, out; }
    var releases := new Release[|s.releases|](i requires 0 <= i < |s.releases| => s.releases[i]);
    assert releases[..] == s.releases;
    ok := NormalizeReleases(c, releases);
    if ok {
      out := Chipset(TrimSpace(s.key), TrimSpace(s.icModel), TrimSpace(s.vendor), TrimSpace(s.name), TrimSpace(s.family),
        TrimSpace(s.description), boards[..], resources[..], releases[..]);
    }
  }

  /** parseChipsetManifest. */
  method ParseChipsetManifest(c: Checks, raw: Raw) returns (r: Result)
    ensures r == Parse(c, raw)
  {
    hide TrimSpace, ByteLength, ChipsetOk, TrimChipset, Seen, Distinct;
    var shallow := JsonDepth.ValidateJSONDepth(raw.tokens, raw.broken, MAX_DEPTH);
    if !shallow { return Invalid; }
    if raw.decoded.None? { return Invalid; }
    var m := raw.decoded.value;
    if m.version != "1" { return VersionUnsupported; }
    if Blank(m.providerName) || Blank(m.updatedAt) || |m.chipsets| == 0 || |m.chipsets| > MAX_CHIPSETS { return Invalid; }
    if !c.rfc3339(m.updatedAt) { return Invalid; }
    var seen: set<string> := {};
    var result: seq<Chipset> := [];
    SeenNone(ChipsetKeys(m.chipsets));
    for i := 0 to |m.chipsets|
      invariant forall k :: 0 <= k < i ==> ChipsetOk(c, m.chipsets[k])
      invariant Seen(ChipsetKeys(m.chipsets), i, seen)
      invariant result == TrimChipsets(m.chipsets)[..i]
    {
      var source := m.chipsets[i];
      var key := TrimSpace(source.key);
      if ByteLength(source.icModel) > 200 || key == "" || Blank(source.vendor) || Blank(source.name)
        || |source.releases| > MAX_RELEASES
      {
        RefusedEarly(c, source);
        return Invalid;
      }
      SeenOneMore(ChipsetKeys(m.chipsets), i, seen);
      if key in seen { return Invalid; }
      seen := seen + {key};
      var ok, chipset := NormalizeChipset(c, source);
      if !ok { return Invalid; }
      result := result + [chipset];
    }
    SeenAll(ChipsetKeys(m.chipsets), seen);
    return Parsed(result);
  }

  lemma RefusedEarly(c: Checks, s: Chipset)
    requires ByteLength(s.icModel) > 200 || Blank(s.key) || Blank(s.vendor) || Blank(s.name) || |s.releases| > MAX_RELEASES
    ensures !ChipsetOk(c, s)
  {}

  // ----- what a parsed manifest guarantees

  /** No two links of a list share both type and address. */
  predicate LinksApart(ls: seq<Link>) {
    forall i, j :: 0 <= i < j < |ls| ==> ls[i].kind != ls[j].kind || ls[i].url != ls[j].url
  }

  /** For links the joined key loses nothing: with every address accepted, keys are distinct exactly when the pairs are. */
  lemma LinkKeysExact(c: Checks, ls: seq<Link>)
    requires c.NoNulInURLs() && forall i :: 0 <= i < |ls| ==> LinkOk(c, ls[i])
    ensures Distinct(LinkKeys(ls)) <==> LinksApart(ls)
  {
    hide Join;
    forall i, j | 0 <= i < j < |ls|
      ensures LinkKeys(ls)[i] == LinkKeys(ls)[j] <==> ls[i].kind == ls[j].kind && ls[i].url == ls[j].url
    {
      JoinInjective(ls[i].kind, ls[i].url, ls[j].kind, ls[j].url);
    }
  }

  /** The first release's version begins, after a NUL, where the second's longer name ends. */
  ghost predicate RunsOn(r: Release, s: Release) {
    exists x :: s.name == Join(r.name, x) && r.version == Join(x, s.version)
  }

  /** For releases it can lose something: keys are distinct exactly when no two releases agree in name and version
      and no release's name runs on past a NUL into another's version. */
  lemma ReleaseKeysExact(rs: seq<Release>)
    ensures Distinct(ReleaseKeys(rs)) <==> forall i, j :: 0 <= i < j < |rs| ==>
      && (rs[i].name != rs[j].name || rs[i].version != rs[j].version)
      && !RunsOn(rs[i], rs[j]) && !RunsOn(rs[j], rs[i])
  {
    hide Join, RunsOn;
    forall i, j | 0 <= i < j < |rs|
      ensures ReleaseKeys(rs)[i] == ReleaseKeys(rs)[j] <==>
        (rs[i].name == rs[j].name && rs[i].version == rs[j].version) || RunsOn(rs[i], rs[j]) || RunsOn(rs[j], rs[i])
    {
      SameReleaseKey(rs[i], rs[j]);
    }
  }

  lemma SameReleaseKey(r: Release, s: Release)
    ensures Join(r.name, r.version) == Join(s.name, s.version) <==>
      (r.name == s.name && r.version == s.version) || RunsOn(r, s) || RunsOn(s, r)
  {
    JoinCollides(r.name, r.version, s.name, s.version);
  }

  /** Two releases that differ in name and in version, each fine alone, refused together as duplicates. */
  lemma DistinctReleasesRefused(c: Checks)
    ensures var r := Release([], "a\0b", "c", "", false, [], []); var s := r.(name := "a", version := "b\0c");
      ReleasesOk(c, TrimReleases([r])) && ReleasesOk(c, TrimReleases([s])) && !ReleasesOk(c, TrimReleases([r, s]))
  {
    var r := Release([], "a\0b", "c", "", false, [], []);
    var s := r.(name := "a", version := "b\0c");
    assert TrimRelease(r) == r && TrimRelease(s) == s;
    assert Recommended([r], 0) == 0 && Recommended([s], 0) == 0;
    var keys := ReleaseKeys(TrimReleases([r, s]));
    assert keys[0] == "a\0b\0c" && keys[1] == "a\0b\0c";
  }

  lemma {:induction false} OneRecommended(rs: seq<Release>, i: nat, j: nat, n: nat)
    requires i < j < n <= |rs| && rs[i].recommended && rs[j].recommended
    ensures Recommended(rs, n) >= 2
  {
    if n - 1 > j {
      OneRecommended(rs, i, j, n - 1);
    } else {
      CountsRecommended(rs, i, n - 1);
    }
  }

  lemma {:induction false} CountsRecommended(rs: seq<Release>, i: nat, n: nat)
    requires i < n <= |rs| && rs[i].recommended
    ensures Recommended(rs, n) >= 1
  {
    if n - 1 > i { CountsRecommended(rs, i, n - 1); }
  }

  /** A reference names exactly one board. */
  ghost predicate Resolves(bs: seq<Board>, ref: string) {
    exists i :: 0 <= i < |bs| && bs[i].key == ref && forall j :: 0 <= j < |bs| && bs[j].key == ref ==> j == i
  }

  ghost predicate Sound(s: Chipset) {
    && s.key != "" && LinksApart(s.resources)
    && (forall b :: 0 <= b < |s.boards| ==> LinksApart(s.boards[b].resources))
    && Distinct(BoardKeys(s.boards))
    && (forall i, j :: 0 <= i < j < |s.releases| ==>
          s.releases[i].name != s.releases[j].name || s.releases[i].version != s.releases[j].version)
    && (forall i, j :: 0 <= i < j < |s.releases| ==> !(s.releases[i].recommended && s.releases[j].recommended))
    && (forall r :: 0 <= r < |s.releases| ==> LinksApart(s.releases[r].endpoints))
    && forall r, k :: 0 <= r < |s.releases| && 0 <= k < |s.releases[r].boardKeys| ==>
         Resolves(s.boards, s.releases[r].boardKeys[k])
  }

  lemma RefResolves(bs: seq<Board>, refs: seq<string>, k: nat)
    requires Distinct(BoardKeys(bs)) && RefsOk(BoardKeys(bs), refs) && k < |refs|
    ensures Resolves(bs, refs[k])
  {
    assert refs[k] in BoardKeys(bs);
    var i :| 0 <= i < |bs| && BoardKeys(bs)[i] == refs[k];
    forall j | 0 <= j < |bs| && bs[j].key == refs[k] ensures j == i {
      assert BoardKeys(bs)[j] == BoardKeys(bs)[i];
    }
  }

  lemma LinksOkApart(c: Checks, ls: seq<Link>)
    requires c.NoNulInURLs() && LinksOk(c, ls)
    ensures LinksApart(ls)
  {
    LinkKeysExact(c, ls);
  }

  lemma ChipsetSound(c: Checks, s: Chipset)
    requires c.NoNulInURLs() && ChipsetOk(c, s)
    ensures Sound(TrimChipset(s))
  {
    hide LinkOk, LinksApart, Join, TrimSpace, Resolves, ByteLength, RefsOk, IdentityOk, SpecsOk, ComponentsOk, ModelOk;
    var t := TrimChipset(s);
    LinksOkApart(c, t.resources);
    forall b | 0 <= b < |t.boards| ensures LinksApart(t.boards[b].resources) { LinksOkApart(c, t.boards[b].resources); }
    ReleaseKeysExact(t.releases);
    forall i, j | 0 <= i < j < |t.releases| ensures !(t.releases[i].recommended && t.releases[j].recommended) {
      if t.releases[i].recommended && t.releases[j].recommended { OneRecommended(t.releases, i, j, |t.releases|); }
    }
    forall r | 0 <= r < |t.releases| ensures LinksApart(t.releases[r].endpoints) {
      assert ReleaseOk(c, t.releases[r]);
      LinksOkApart(c, t.releases[r].endpoints);
    }
    forall r, k | 0 <= r < |t.releases| && 0 <= k < |t.releases[r].boardKeys|
      ensures Resolves(t.boards, t.releases[r].boardKeys[k])
    {
      assert t.releases[r] == TrimRelease(s.releases[r]);
      RefResolves(t.boards, s.releases[r].boardKeys, k);
    }
  }

  /** Every parsed manifest keeps its identities apart and its references whole: chipset keys, board keys, releases
      and links are distinct in their scope, at most one release of a chipset is recommended, and every board
      reference names exactly one board. */
  lemma ParsedIsSound(c: Checks, raw: Raw)
    requires c.NoNulInURLs() && Parse(c, raw).Parsed?
    ensures var ss := Parse(c, raw).chipsets;
      && (forall i :: 0 <= i < |ss| ==> Sound(ss[i]))
      && (forall i, j :: 0 <= i < j < |ss| ==> ss[i].key != ss[j].key)
  {
    hide Sound, ChipsetOk;
    var given := raw.decoded.value.chipsets;
    var ss := Parse(c, raw).chipsets;
    forall i | 0 <= i < |ss| ensures Sound(ss[i]) { ChipsetSound(c, given[i]); }
    forall i, j | 0 <= i < j < |ss| ensures ss[i].key != ss[j].key {
      assert ChipsetKeys(given)[i] != ChipsetKeys(given)[j];
    }
  }

  // ----- normalising again changes nothing

  lemma TrimLinksTwice(ls: seq<Link>)
    ensures TrimLinks(TrimLinks(ls)) == TrimLinks(ls)
  {
    hide TrimSpace;
    forall i | 0 <= i < |ls| ensures TrimLink(TrimLink(ls[i])) == TrimLink(ls[i]) { TrimLinkTwice(ls[i]); }
  }

  lemma TrimLinkTwice(l: Link)
    ensures TrimLink(TrimLink(l)) == TrimLink(l)
  {
    hide TrimSpace;
    TrimIdempotent(l.kind);
    TrimIdempotent(l.title);
    TrimIdempotent(l.url);
    TrimIdempotent(l.source);
    TrimIdempotent(l.verifiedAt);
    TrimIdempotent(l.summary);
    TrimAllTwice(l.languages);
  }

  lemma TrimAllTwice(ss: seq<string>)
    ensures TrimAll(TrimAll(ss)) == TrimAll(ss)
  {
    hide TrimSpace;
    forall i | 0 <= i < |ss| ensures TrimSpace(TrimSpace(ss[i])) == TrimSpace(ss[i]) { TrimIdempotent(ss[i]); }
  }

  lemma TrimBoardsTwice(bs: seq<Board>)
    ensures TrimBoards(TrimBoards(bs)) == TrimBoards(bs)
  {
    hide TrimSpace, TrimLinks;
    forall i | 0 <= i < |bs| ensures TrimBoard(TrimBoard(bs[i])) == TrimBoard(bs[i]) {
      TrimIdempotent(bs[i].key);
      TrimIdempotent(bs[i].name);
      TrimIdempotent(bs[i].vendor);
      TrimLinksTwice(bs[i].resources);
    }
  }

  lemma TrimReleasesTwice(rs: seq<Release>)
    ensures TrimReleases(TrimReleases(rs)) == TrimReleases(rs)
  {
    hide TrimSpace, TrimLinks, TrimAll;
    forall i | 0 <= i < |rs| ensures TrimRelease(TrimRelease(rs[i])) == TrimRelease(rs[i]) {
      TrimIdempotent(rs[i].name);
      TrimIdempotent(rs[i].version);
      TrimAllTwice(rs[i].models);
      TrimLinksTwice(rs[i].endpoints);
    }
  }

  /** Normalised links are accepted again and stay as they are. */
  lemma LinksNormalizeOnce(c: Checks, ls: seq<Link>)
    requires NormalLinks(c, ls).Some?
    ensures NormalLinks(c, NormalLinks(c, ls).value) == NormalLinks(c, ls)
  {
    TrimLinksTwice(ls);
  }

  /** So are normalised boards, under any releases that refer to the same boards. */
  lemma BoardsNormalizeOnce(c: Checks, bs: seq<Board>, rs: seq<Release>, again: seq<Release>)
    requires NormalBoards(c, bs, rs).Some?
    requires |again| == |rs| && forall r :: 0 <= r < |rs| ==> again[r].boardKeys == rs[r].boardKeys
    ensures NormalBoards(c, NormalBoards(c, bs, rs).value, again) == NormalBoards(c, bs, rs)
  {
    hide BoardOk, RefsOk, TrimBoard;
    TrimBoardsTwice(bs);
  }

  lemma ChipsetNormalizeOnce(c: Checks, s: Chipset)
    requires ChipsetOk(c, s)
    ensures ChipsetOk(c, TrimChipset(s)) && TrimChipset(TrimChipset(s)) == TrimChipset(s)
  {
    hide TrimSpace, ByteLength, LinksOk, BoardsOk, ReleasesOk;
    TrimShorter(s.icModel);
    TrimIdempotent(s.icModel);
    TrimIdempotent(s.key);
    TrimIdempotent(s.vendor);
    TrimIdempotent(s.name);
    TrimIdempotent(s.family);
    TrimIdempotent(s.description);
    TrimLinksTwice(s.resources);
    TrimBoardsTwice(s.boards);
    TrimReleasesTwice(s.releases);
    BoardsNormalizeOnce(c, s.boards, s.releases, TrimReleases(s.releases));
  }

  // ----- a rebuilt manifest as a document

  const ATOM := JsonDepth.Atom

  /** An object with these member values, each after its name. */
  function Members(vs: seq<JsonDepth.Value>): seq<JsonDepth.Value> {
    if vs == [] then [] else [ATOM, vs[0]] + Members(vs[1..])
  }

  function Obj(vs: seq<JsonDepth.Value>): JsonDepth.Value { JsonDepth.Nest(true, Members(vs)) }

  function List<T>(xs: seq<T>, f: T -> JsonDepth.Value): JsonDepth.Value {
    JsonDepth.Nest(false, seq(|xs|, i requires 0 <= i < |xs| => f(xs[i])))
  }

  function Str(s: string): JsonDepth.Value { ATOM }

  function LinkValue(l: Link): JsonDepth.Value {
    Obj([Str(l.kind), Str(l.title), Str(l.url), Str(l.source), List(l.languages, Str), Str(l.verifiedAt), Str(l.summary)])
  }

  function SpecValue(s: Spec): JsonDepth.Value { Obj([Str(s.caption), Str(s.value)]) }

  function ComponentValue(m: Component): JsonDepth.Value { Obj([Str(m.key), Str(m.name), Str(m.description)]) }

  function ModelValue(m: Model): JsonDepth.Value { Obj([Str(m.assetPath), Str(m.posterPath), Str(m.note)]) }

  function BoardValue(b: Board): JsonDepth.Value {
    Obj([Str(b.key), Str(b.name), Str(b.vendor), Str(b.summary), List(b.specs, SpecValue), List(b.resources, LinkValue),
         List(b.components, ComponentValue)]
        + (if b.dimensions.Some? then [Obj([ATOM, ATOM])] else [])
        + (if b.model.Some? then [ModelValue(b.model.value)] else []))
  }

  function ReleaseValue(r: Release): JsonDepth.Value {
    Obj([List(r.boardKeys, Str), Str(r.name), Str(r.version), Str(r.summary), ATOM, List(r.models, Str),
         List(r.endpoints, LinkValue)])
  }

  function ChipsetValue(s: Chipset): JsonDepth.Value {
    Obj([Str(s.icModel), List(s.boards, BoardValue), Str(s.key), Str(s.vendor), Str(s.name), Str(s.family),
         Str(s.description), List(s.resources, LinkValue), List(s.releases, ReleaseValue)])
  }

  /** The manifest as a JSON value. */
  function ManifestValue(m: Manifest): JsonDepth.Value {
    Obj([Str(m.version), Obj([Str(m.providerName), Str(m.updatedAt)]), List(m.chipsets, ChipsetValue)])
  }

  /** Every one of these values nests at most n deep. */
  ghost predicate AllWithin(vs: seq<JsonDepth.Value>, n: nat) {
    forall i :: 0 <= i < |vs| ==> JsonDepth.Nesting(vs[i]) <= n
  }

  lemma {:induction false} MembersWithin(vs: seq<JsonDepth.Value>, n: nat)
    requires AllWithin(vs, n)
    ensures AllWithin(Members(vs), n)
  {
    if vs != [] { MembersWithin(vs[1..], n); }
  }

  lemma ObjNests(vs: seq<JsonDepth.Value>, n: nat)
    requires AllWithin(vs, n)
    ensures JsonDepth.Nesting(Obj(vs)) <= n + 1
  {
    MembersWithin(vs, n);
    JsonDepth.NestingOfIsMaximum(Members(vs), n);
  }

  lemma ListNests<T>(xs: seq<T>, f: T -> JsonDepth.Value, n: nat)
    requires forall i :: 0 <= i < |xs| ==> JsonDepth.Nesting(f(xs[i])) <= n
    ensures JsonDepth.Nesting(List(xs, f)) <= n + 1
  {
    JsonDepth.NestingOfIsMaximum(List(xs, f).items, n);
  }

  lemma LinkNests(l: Link)
    ensures JsonDepth.Nesting(LinkValue(l)) <= 2
  {
    hide Obj, List;
    ListNests(l.languages, Str, 0);
    ObjNests([Str(l.kind), Str(l.title), Str(l.url), Str(l.source), List(l.languages, Str), Str(l.verifiedAt), Str(l.summary)], 1);
  }

  lemma LinksNest(ls: seq<Link>)
    ensures JsonDepth.Nesting(List(ls, LinkValue)) <= 3
  {
    forall i | 0 <= i < |ls| ensures JsonDepth.Nesting(LinkValue(ls[i])) <= 2 { LinkNests(ls[i]); }
    ListNests(ls, LinkValue, 2);
  }

  lemma BoardNests(b: Board)
    ensures JsonDepth.Nesting(BoardValue(b)) <= 4
  {
    hide Obj, List;
    forall i | 0 <= i < |b.specs| ensures JsonDepth.Nesting(SpecValue(b.specs[i])) <= 1 {
      ObjNests([Str(b.specs[i].caption), Str(b.specs[i].value)], 0);
    }
    ListNests(b.specs, SpecValue, 1);
    forall i | 0 <= i < |b.components| ensures JsonDepth.Nesting(ComponentValue(b.components[i])) <= 1 {
      ObjNests([Str(b.components[i].key), Str(b.components[i].name), Str(b.components[i].description)], 0);
    }
    ListNests(b.components, ComponentValue, 1);
    LinksNest(b.resources);
    var plain := [Str(b.key), Str(b.name), Str(b.vendor), Str(b.summary), List(b.specs, SpecValue), List(b.resources, LinkValue),
      List(b.components, ComponentValue)];
    var dimensions := if b.dimensions.Some? then [Obj([ATOM, ATOM])] else [];
    var model := if b.model.Some? then [ModelValue(b.model.value)] else [];
    ObjNests([ATOM, ATOM], 0);
    ObjNests([ATOM, ATOM, ATOM], 0);
    ObjNests(plain + dimensions + model, 3);
  }

  lemma ReleaseNests(r: Release)
    ensures JsonDepth.Nesting(ReleaseValue(r)) <= 4
  {
    hide Obj, List;
    ListNests(r.boardKeys, Str, 0);
    ListNests(r.models, Str, 0);
    LinksNest(r.endpoints);
    ObjNests([List(r.boardKeys, Str), Str(r.name), Str(r.version), Str(r.summary), ATOM, List(r.models, Str),
      List(r.endpoints, LinkValue)], 3);
  }

  lemma ChipsetNests(s: Chipset)
    ensures JsonDepth.Nesting(ChipsetValue(s)) <= 6
  {
    hide Obj, List;
    forall i | 0 <= i < |s.boards| ensures JsonDepth.Nesting(BoardValue(s.boards[i])) <= 4 { BoardNests(s.boards[i]); }
    ListNests(s.boards, BoardValue, 4);
    forall i | 0 <= i < |s.releases| ensures JsonDepth.Nesting(ReleaseValue(s.releases[i])) <= 4 { ReleaseNests(s.releases[i]); }
    ListNests(s.releases, ReleaseValue, 4);
    LinksNest(s.resources);
    ObjNests([Str(s.icModel), List(s.boards, BoardValue), Str(s.key), Str(s.vendor), Str(s.name), Str(s.family),
      Str(s.description), List(s.resources, LinkValue), List(s.releases, ReleaseValue)], 5);
  }

  /** A manifest without metadata nests at most eight deep, whatever it holds. */
  lemma ManifestNests(m: Manifest)
    ensures JsonDepth.Nesting(ManifestValue(m)) <= 8
  {
    hide Obj, List;
    forall i | 0 <= i < |m.chipsets| ensures JsonDepth.Nesting(ChipsetValue(m.chipsets[i])) <= 6 { ChipsetNests(m.chipsets[i]); }
    ListNests(m.chipsets, ChipsetValue, 6);
    ObjNests([Str(m.providerName), Str(m.updatedAt)], 0);
    ObjNests([Str(m.version), Obj([Str(m.providerName), Str(m.updatedAt)]), List(m.chipsets, ChipsetValue)], 7);
  }

  /** The document a manifest is written as. */
  function Document(m: Manifest): Raw {
    Raw(JsonDepth.TokensOf([ManifestValue(m)]), false, Some(m))
  }

  lemma DocumentIsShallow(m: Manifest)
    ensures JsonDepth.Within(Document(m).tokens, MAX_DEPTH)
  {
    ManifestNests(m);
    JsonDepth.DepthIsNesting([ManifestValue(m)], MAX_DEPTH);
  }

  /** A manifest rebuilt from what was parsed, and written out afresh, passes every check, its depth included, and
      parses to exactly the same chipsets. */
  lemma ParsesToItself(c: Checks, raw: Raw)
    requires Parse(c, raw).Parsed?
    ensures Parse(c, Document(raw.decoded.value.(chipsets := Parse(c, raw).chipsets))) == Parse(c, raw)
  {
    hide ChipsetOk, TrimChipset, TrimSpace, ManifestValue;
    var given := raw.decoded.value.chipsets;
    var ss := TrimChipsets(given);
    DocumentIsShallow(raw.decoded.value.(chipsets := ss));
    forall i | 0 <= i < |ss|
      ensures ChipsetOk(c, ss[i]) && TrimChipset(ss[i]) == ss[i] && TrimSpace(ss[i].key) == TrimSpace(given[i].key)
    {
      ChipsetNormalizeOnce(c, given[i]);
      TrimmedKey(given[i]);
    }
    assert ChipsetKeys(ss) == ChipsetKeys(given);
    assert TrimChipsets(ss) == ss;
  }

  lemma TrimmedKey(s: Chipset)
    ensures TrimSpace(TrimChipset(s).key) == TrimSpace(s.key)
  {
    TrimIdempotent(s.key);
  }
}
