/**
 `RepoAnalyzer.analyze`: the walk over a repository's directories, and the choice of a
 builder for each directory that holds a marker file.
 */
module RepoWalk {
  import opened Wrappers

  datatype File =
    | Dockerfile | PackageJson | RequirementsTxt | PyprojectToml | ManagePy | GoMod | PomXml
    | IndexHtml | ComposerJson | IndexPhp | Gemfile | ShipzenYaml | OtherFile(name: string)

  datatype Builder = ByDockerfile | Buildpacks | Railpack | Go | Maven | Static

  /** The `builder` key of a configuration. */
  datatype Choice = Auto | Fixed(builder: Builder)

  /** What reading `shipzen.yaml` gives, where there is one. */
  datatype Config = Invalid | Valid(builder: Option<Choice>)

  /** A directory.  It is listed twice: `readable` is false if the first listing, for the
      files, fails; `children` are the subdirectories that the second one yields, in its
      order, before it ends or fails. */
  datatype Dir = Dir(name: string, readable: bool, files: set<File>, config: Config, children: seq<Dir>)

  datatype Service = Service(name: string, path: seq<string>, builder: Builder, confidence: nat, config: Option<Config>)

  const EXCLUDED := {"node_modules", ".git", "__pycache__", "vendor", "dist", "build", ".next", "target"}

  predicate Skipped(name: string) {
    name in EXCLUDED || (name != "" && name[0] == '.')
  }

  // ---------------------------------------------------------------- the builder of one directory

  datatype Candidate = Candidate(builder: Builder, confidence: nat)

  predicate Python(files: set<File>) { RequirementsTxt in files || PyprojectToml in files || ManagePy in files }

  predicate PhpOrRuby(files: set<File>) { ComposerJson in files || IndexPhp in files || Gemfile in files }

  /** The builder the marker files call for; confidence decides, and Buildpacks goes before
      Railpack, which has the same. */
  function Preferred(files: set<File>): Option<Builder> {
    if Dockerfile in files then Some(ByDockerfile)
    else if GoMod in files then Some(Go)
    else if PomXml in files then Some(Maven)
    else if PackageJson in files || Python(files) then Some(Buildpacks)
    else if PhpOrRuby(files) then Some(Railpack)
    else if IndexHtml in files then Some(Static)
    else None
  }

  function Confidence(b: Builder): nat {
    match b
    case ByDockerfile => 100
    case Go => 90
    case Maven => 88
    case Buildpacks | Railpack => 85
    case Static => 70
  }

  /** Inserts before everything of the same confidence or lower. */
  function Insert(c: Candidate, sorted: seq<Candidate>): seq<Candidate> {
    if sorted == [] || sorted[0].confidence <= c.confidence then [c] + sorted
    else [sorted[0]] + Insert(c, sorted[1..])
  }

  /** The stable sort by descending confidence. */
  function Sort(cs: seq<Candidate>): seq<Candidate> {
    if cs == [] then [] else Insert(cs[0], Sort(cs[1..]))
  }

  predicate Descending(cs: seq<Candidate>) {
    |cs| > 1 ==> cs[0].confidence >= cs[1].confidence && Descending(cs[1..])
  }

  /** The candidates of one confidence, in order. */
  function OfConfidence(cs: seq<Candidate>, k: nat): seq<Candidate> {
    if cs == [] then []
    else (if cs[0].confidence == k then [cs[0]] else []) + OfConfidence(cs[1..], k)
  }

  lemma {:induction false} InsertIsStable(c: Candidate, sorted: seq<Candidate>, k: nat)
    requires Descending(sorted)
    ensures Descending(Insert(c, sorted))
    ensures OfConfidence(Insert(c, sorted), k) == OfConfidence([c], k) + OfConfidence(sorted, k)
  {
    assert OfConfidence([c], k) == if c.confidence == k then [c] else [];
    if sorted == [] || sorted[0].confidence <= c.confidence {
      assert ([c] + sorted)[1..] == sorted;
    } else {
      var rest := Insert(c, sorted[1..]);
      InsertIsStable(c, sorted[1..], k);
      assert Insert(c, sorted) == [sorted[0]] + rest && ([sorted[0]] + rest)[1..] == rest;
      assert rest[0] == c || rest[0] == sorted[1];
    }
  }

  /** The sort orders by confidence, and keeps the candidates of each confidence in their order. */
  lemma {:induction false} SortIsStable(cs: seq<Candidate>, k: nat)
    ensures Descending(Sort(cs)) && OfConfidence(Sort(cs), k) == OfConfidence(cs, k)
  {
    if cs != [] {
      SortIsStable(cs[1..], k);
      InsertIsStable(cs[0], Sort(cs[1..]), k);
      assert OfConfidence([cs[0]], k) == if cs[0].confidence == k then [cs[0]] else [];
    }
  }

  /** `i` is the first candidate of the highest confidence. */
  predicate FirstBest(cs: seq<Candidate>, i: nat) {
    && i < |cs|
    && (forall j | 0 <= j < |cs| :: cs[j].confidence <= cs[i].confidence)
    && (forall j | 0 <= j < i :: cs[j].confidence < cs[i].confidence)
  }

  /** So the head of the sorted list is the first of the best. */
  lemma {:induction false} SortedHead(cs: seq<Candidate>) returns (i: nat)
    requires cs != []
    ensures Sort(cs) != [] && FirstBest(cs, i) && Sort(cs)[0] == cs[i]
  {
    i := 0;
    if |cs| > 1 {
      var k := SortedHead(cs[1..]);
      if Sort(cs[1..])[0].confidence > cs[0].confidence { i := k + 1; }
      forall j | 0 <= j < |cs| ensures j > 0 ==> cs[j] == cs[1..][j - 1] {}
    } else {
      assert Sort(cs[1..]) == [];
    }
  }

  /** What the analyzer's list of candidates holds: the preferred builder, none better, and
      Railpack only at its end. */
  predicate Detected(cs: seq<Candidate>, files: set<File>) {
    match Preferred(files)
    case None => cs == []
    case Some(b) =>
      && Candidate(b, Confidence(b)) in cs
      && (forall c | c in cs :: c.confidence == Confidence(c.builder) && c.confidence <= Confidence(b))
      && (forall i | 0 <= i < |cs| - 1 :: cs[i].builder != Railpack)
      && (b == Railpack ==> forall c | c in cs :: c.builder != Buildpacks)
  }

  function Offer(cs: seq<Candidate>, marked: bool, b: Builder): (r: seq<Candidate>)
    ensures forall c :: c in r <==> c in cs || (marked && c == Candidate(b, Confidence(b)))
    ensures r == cs || (marked && r == cs + [Candidate(b, Confidence(b))])
  {
    if marked then cs + [Candidate(b, Confidence(b))] else cs
  }

  function UpToMaven(files: set<File>): seq<Candidate> {
    var docker := Offer([], Dockerfile in files, ByDockerfile);
    var node := Offer(docker, PackageJson in files || Python(files), Buildpacks);
    var go := Offer(node, GoMod in files && Dockerfile !in files, Go);
    Offer(go, PomXml in files && Dockerfile !in files && GoMod !in files, Maven)
  }

  /** The candidates in the order the analyzer appends them. */
  function Candidates(files: set<File>): seq<Candidate> {
    var page := Offer(UpToMaven(files),
      IndexHtml in files && PackageJson !in files && !Python(files) && GoMod !in files && PomXml !in files, Static);
    Offer(page, PhpOrRuby(files), Railpack)
  }

  lemma CandidatesDetected(files: set<File>)
    ensures Detected(Candidates(files), files)
  {
    hide Offer;
    assert forall c | c in UpToMaven(files) :: c.builder in {ByDockerfile, Buildpacks, Go, Maven};
  }

  lemma FirstBestIsPreferred(cs: seq<Candidate>, files: set<File>, i: nat)
    requires Detected(cs, files) && FirstBest(cs, i)
    ensures Some(cs[i].builder) == Preferred(files) && cs[i].confidence == Confidence(cs[i].builder)
  {
    var b := Preferred(files).value;
    assert cs[i] in cs;
    var j :| 0 <= j < |cs| && cs[j] == Candidate(b, Confidence(b));
    assert Confidence(cs[i].builder) == Confidence(b);
  }

  /** What the marker files call for, from the strongest marker to the weakest. */
  predicate Calls(files: set<File>, builder: Builder, confidence: nat) {
    var node := PackageJson in files || RequirementsTxt in files || PyprojectToml in files || ManagePy in files;
    var script := ComposerJson in files || IndexPhp in files || Gemfile in files;
    var stronger := Dockerfile in files || GoMod in files || PomXml in files;
    match builder
    case ByDockerfile => confidence == 100 && Dockerfile in files
    case Go => confidence == 90 && GoMod in files && Dockerfile !in files
    case Maven => confidence == 88 && PomXml in files && Dockerfile !in files && GoMod !in files
    case Buildpacks => confidence == 85 && node && !stronger
    case Railpack => confidence == 85 && script && !node && !stronger
    case Static => confidence == 70 && IndexHtml in files && !script && !node && !stronger
  }

  lemma PreferredCalls(files: set<File>)
    ensures Preferred(files).Some? ==> Calls(files, Preferred(files).value, Confidence(Preferred(files).value))
    ensures Preferred(files).None? ==> forall b, k :: !Calls(files, b, k)
  {
  }

  /** Appends a candidate for each marker, sorts, and takes the first. */
  method Detect(files: set<File>) returns (best: Option<Candidate>)
    ensures best.None? <==> Preferred(files) == None
    ensures best.Some? ==>
              best.value.builder == Preferred(files).value && best.value.confidence == Confidence(best.value.builder)
    ensures best.Some? ==> Calls(files, best.value.builder, best.value.confidence)
    ensures best.None? ==> forall b, k :: !Calls(files, b, k)
  {
    PreferredCalls(files);
    hide Detected, Sort, FirstBest, Python, PhpOrRuby, Calls;
    var cs := [];
    if Dockerfile in files { cs := cs + [Candidate(ByDockerfile, 100)]; }
    if PackageJson in files {
      cs := cs + [Candidate(Buildpacks, 85)];
    } else if Python(files) {
      cs := cs + [Candidate(Buildpacks, 85)];
    }
    if GoMod in files && Dockerfile !in files { cs := cs + [Candidate(Go, 90)]; }
    if PomXml in files && Dockerfile !in files && GoMod !in files { cs := cs + [Candidate(Maven, 88)]; }
    if IndexHtml in files && PackageJson !in files && !Python(files) && GoMod !in files && PomXml !in files {
      cs := cs + [Candidate(Static, 70)];
    }
    if PhpOrRuby(files) { cs := cs + [Candidate(Railpack, 85)]; }
    assert cs == Candidates(files);
    CandidatesDetected(files);
    if cs == [] { return None; }
    ghost var i := SortedHead(cs);
    FirstBestIsPreferred(cs, files, i);
    cs := Sort(cs);
    best := Some(cs[0]);
  }

  // ---------------------------------------------------------------- the walk

  /** The configuration that counts for a directory. */
  function ConfigOf(d: Dir): Option<Config> {
    if ShipzenYaml in d.files then Some(d.config) else None
  }

  predicate Faulty(d: Dir) { ConfigOf(d) == Some(Invalid) }

  /** The walk goes into this directory, and its configuration raises an error there. */
  predicate Raises(d: Dir, root: bool) { (root || !Skipped(d.name)) && d.readable && Faulty(d) }

  /** The walk goes into this directory and gets to look at its files. */
  predicate Open(d: Dir, root: bool) { (root || !Skipped(d.name)) && d.readable && !Faulty(d) }

  predicate Marked(d: Dir) { Preferred(d.files).Some? }

  /** The service of a marked directory: the preferred builder unless the configuration fixes one. */
  function ServiceOf(d: Dir, path: seq<string>): Service
    requires Marked(d)
  {
    var b := Preferred(d.files).value;
    match ConfigOf(d)
    case Some(Valid(Some(Fixed(fixed)))) => Service(d.name, path, fixed, 100, ConfigOf(d))
    case _ => Service(d.name, path, b, Confidence(b), ConfigOf(d))
  }

  /** The services of a tree in pre-order.  A faulty configuration cuts off its directory,
      and the walk of the parent's children ends with it. */
  function Services(d: Dir, path: seq<string>, root: bool): seq<Service>
    decreases d, |d.children| + 1
  {
    if !Open(d, root) then []
    else (if Marked(d) then [ServiceOf(d, path)] else []) + ServicesFrom(d, 0, path)
  }

  /** Those of the children from number `k` on. */
  function ServicesFrom(d: Dir, k: nat, path: seq<string>): seq<Service>
    requires k <= |d.children|
    decreases d, |d.children| - k
  {
    if k == |d.children| || Raises(d.children[k], false) then []
    else Services(d.children[k], path + [d.children[k].name], false) + ServicesFrom(d, k + 1, path)
  }

  class Analyzer {
    var services: seq<Service>

    /** `walk_path`: appends to the shared list, and raises on a faulty configuration. */
    method WalkPath(d: Dir, path: seq<string>, root: bool) returns (raised: bool)
      modifies this
      ensures raised <==> Raises(d, root)
      ensures services == old(services) + Services(d, path, root)
      decreases d
    {
      hide Preferred, Skipped, Calls;
      if !root && Skipped(d.name) { return false; }
      if !d.readable { return false; }
      if ShipzenYaml in d.files && d.config.Invalid? { return true; }
      var best := Detect(d.files);
      if best.Some? {
        var s := Service(d.name, path, best.value.builder, best.value.confidence, ConfigOf(d));
        if ShipzenYaml in d.files && d.config.builder.Some? && d.config.builder.value != Auto {
          s := s.(builder := d.config.builder.value.builder, confidence := 100);
        }
        services := services + [s];
      }
      ghost var here := services;
      assert here == old(services) + if Marked(d) then [ServiceOf(d, path)] else [];
      var k := 0;
      while k < |d.children|
        invariant 0 <= k <= |d.children|
        invariant here + ServicesFrom(d, 0, path) == services + ServicesFrom(d, k, path)
      {
        var cut := WalkPath(d.children[k], path + [d.children[k].name], false);
        if cut { break; }
        k := k + 1;
      }
      assert ServicesFrom(d, k, path) == [];
      assert here + ServicesFrom(d, 0, path) == services;
      raised := false;
    }

    /** `analyze`: an error in the root's own configuration is the only one that gets out. */
    method Analyze(root: Option<Dir>) returns (raised: bool)
      modifies this
      ensures raised <==> root.Some? && root.value.readable && ShipzenYaml in root.value.files
                          && root.value.config == Invalid
      ensures services == if root.Some? then Services(root.value, [], true) else []
    {
      services, raised := [], false;
      if root.Some? { raised := WalkPath(root.value, [], true); }
    }
  }

  // ---------------------------------------------------------------- which directories are listed

  /** The walk from `d` reaches the directory at index path `ip`: every directory on the way
      is open, and no earlier sibling on the way raises. */
  predicate Reached(d: Dir, ip: seq<nat>, root: bool) {
    && Open(d, root)
    && (ip != [] ==>
          && ip[0] < |d.children|
          && (forall j | 0 <= j < ip[0] :: !Raises(d.children[j], false))
          && Reached(d.children[ip[0]], ip[1..], false))
  }

  function At(d: Dir, ip: seq<nat>, root: bool): Dir
    requires Reached(d, ip, root)
  {
    if ip == [] then d else At(d.children[ip[0]], ip[1..], false)
  }

  /** The names on the way. */
  function PathTo(d: Dir, ip: seq<nat>, root: bool): seq<string>
    requires Reached(d, ip, root)
  {
    if ip == [] then [] else [d.children[ip[0]].name] + PathTo(d.children[ip[0]], ip[1..], false)
  }

  predicate Listed(d: Dir, ip: seq<nat>, root: bool) {
    Reached(d, ip, root) && Marked(At(d, ip, root))
  }

  /** Pre-order: a directory before what is below it, and siblings in their order. */
  predicate PreOrder(a: seq<nat>, b: seq<nat>) {
    b != [] && (a == [] || a[0] < b[0] || (a[0] == b[0] && PreOrder(a[1..], b[1..])))
  }

  /** `ips` lists, in pre-order, where the services come from. */
  predicate Sources(d: Dir, path: seq<string>, root: bool, services: seq<Service>, ips: seq<seq<nat>>) {
    && |ips| == |services|
    && (forall i | 0 <= i < |ips| :: Listed(d, ips[i], root)
          && services[i] == ServiceOf(At(d, ips[i], root), path + PathTo(d, ips[i], root)))
    && (forall i, j | 0 <= i < j < |ips| :: PreOrder(ips[i], ips[j]))
  }

  /** Nothing the walk reaches is missing from `ips`. */
  ghost predicate Complete(d: Dir, root: bool, ips: seq<seq<nat>>) {
    forall ip | Listed(d, ip, root) :: ip in ips
  }

  /** No child before number `k` cuts the walk off. */
  predicate ClearTo(d: Dir, k: nat)
    requires k <= |d.children|
  {
    forall j | 0 <= j < k :: !Raises(d.children[j], false)
  }

  /** What child `k` lists, `d` lists one level up. */
  lemma OneLevelUp(d: Dir, k: nat, ip: seq<nat>, path: seq<string>, root: bool)
    requires Open(d, root) && k < |d.children| && ClearTo(d, k) && Listed(d.children[k], ip, false)
    ensures var up := [k] + ip;
            && Listed(d, up, root) && At(d, up, root) == At(d.children[k], ip, false)
            && path + PathTo(d, up, root) == (path + [d.children[k].name]) + PathTo(d.children[k], ip, false)
  {
    assert ([k] + ip)[1..] == ip;
  }

  lemma PreOrderBelow(k: nat, a: seq<nat>, b: seq<nat>)
    requires PreOrder(a, b)
    ensures PreOrder([k] + a, [k] + b)
  {
    assert ([k] + a)[1..] == a && ([k] + b)[1..] == b;
  }

  function Lift(k: nat, ips: seq<seq<nat>>): (r: seq<seq<nat>>)
    ensures |r| == |ips| && forall i | 0 <= i < |r| :: r[i] == [k] + ips[i]
  {
    seq(|ips|, i requires 0 <= i < |ips| => [k] + ips[i])
  }

  lemma LiftSources(d: Dir, k: nat, path: seq<string>, root: bool, services: seq<Service>, ips: seq<seq<nat>>)
    requires Open(d, root) && k < |d.children| && ClearTo(d, k)
    requires Sources(d.children[k], path + [d.children[k].name], false, services, ips)
    ensures Sources(d, path, root, services, Lift(k, ips))
  {
    var up := Lift(k, ips);
    forall i | 0 <= i < |up|
      ensures Listed(d, up[i], root) && services[i] == ServiceOf(At(d, up[i], root), path + PathTo(d, up[i], root))
    {
      OneLevelUp(d, k, ips[i], path, root);
    }
    forall i, j | 0 <= i < j < |up| ensures PreOrder(up[i], up[j]) { PreOrderBelow(k, ips[i], ips[j]); }
  }

  lemma JoinSources(d: Dir, path: seq<string>, root: bool, s1: seq<Service>, p1: seq<seq<nat>>,
      s2: seq<Service>, p2: seq<seq<nat>>)
    requires Sources(d, path, root, s1, p1) && Sources(d, path, root, s2, p2)
    requires forall a, b | a in p1 && b in p2 :: PreOrder(a, b)
    ensures Sources(d, path, root, s1 + s2, p1 + p2)
  {
    var p := p1 + p2;
    forall i, j | 0 <= i < j < |p| ensures PreOrder(p[i], p[j]) {
      if i < |p1| <= j { assert p[i] in p1 && p[j] in p2; }
    }
  }

  lemma NotPastFault(d: Dir, k: nat, ip: seq<nat>, root: bool)
    requires k < |d.children| && Raises(d.children[k], false) && Reached(d, ip, root) && ip != []
    ensures ip[0] < k
  {
  }

  /** The services of the children from number `k` on, and where they come from. */
  lemma {:induction false} ChildSources(d: Dir, k: nat, path: seq<string>, root: bool) returns (ips: seq<seq<nat>>)
    requires Open(d, root) && k <= |d.children| && ClearTo(d, k)
    ensures Sources(d, path, root, ServicesFrom(d, k, path), ips)
    ensures forall ip | ip in ips :: ip != [] && ip[0] >= k
    ensures forall ip | Listed(d, ip, root) && ip != [] && ip[0] >= k :: ip in ips
    decreases d, |d.children| - k
  {
    ips := [];
    if k == |d.children| {
    } else if Raises(d.children[k], false) {
      forall ip | Listed(d, ip, root) && ip != [] ensures ip[0] < k { NotPastFault(d, k, ip, root); }
    } else {
      var child, below := d.children[k], path + [d.children[k].name];
      var sub := WalkSources(child, below, false);
      var rest := ChildSources(d, k + 1, path, root);
      LiftSources(d, k, path, root, Services(child, below, false), sub);
      JoinSources(d, path, root, Services(child, below, false), Lift(k, sub), ServicesFrom(d, k + 1, path), rest);
      ips := Lift(k, sub) + rest;
      hide Sources, Services, ServicesFrom, Lift, Raises, Open, Listed;
      forall ip | Listed(d, ip, root) && ip != [] && ip[0] >= k ensures ip in ips {
        if ip[0] == k { ListedBelow(d, k, sub, ip, root); }
      }
    }
  }

  /** What `d` lists by way of child `k` is among what the child lists, one level up. */
  lemma ListedBelow(d: Dir, k: nat, sub: seq<seq<nat>>, ip: seq<nat>, root: bool)
    requires k < |d.children| && Complete(d.children[k], false, sub)
    requires Listed(d, ip, root) && ip != [] && ip[0] == k
    ensures ip in Lift(k, sub)
  {
    assert Listed(d.children[k], ip[1..], false);
    var i :| 0 <= i < |sub| && sub[i] == ip[1..];
    assert ip == [k] + sub[i] == Lift(k, sub)[i];
  }

  /**
   The walk, characterised without the walk: its services are those of exactly the marked
   directories it reaches, each once, in pre-order.  `PreOrder` is strict, so no directory
   occurs twice.
   */
  lemma {:induction false} WalkSources(d: Dir, path: seq<string>, root: bool) returns (ips: seq<seq<nat>>)
    ensures Sources(d, path, root, Services(d, path, root), ips)
    ensures Complete(d, root, ips)
    decreases d, |d.children| + 1
  {
    ips := [];
    if Open(d, root) {
      var rest := ChildSources(d, 0, path, root);
      if Marked(d) {
        assert PathTo(d, [], root) == [] && path + [] == path;
        assert Sources(d, path, root, [ServiceOf(d, path)], [[]]);
        JoinSources(d, path, root, [ServiceOf(d, path)], [[]], ServicesFrom(d, 0, path), rest);
        ips := [[]] + rest;
      } else {
        assert [] + ServicesFrom(d, 0, path) == ServicesFrom(d, 0, path);
        ips := rest;
      }
    }
  }

  /** The service of each directory, field by field: a builder that its configuration fixes
      goes before the one its markers call for, and has full confidence. */
  lemma ServiceFields(d: Dir, path: seq<string>)
    requires Marked(d)
    ensures var s := ServiceOf(d, path);
            && s.name == d.name && s.path == path
            && s.config == (if ShipzenYaml in d.files then Some(d.config) else None)
            && (if ShipzenYaml in d.files && d.config.Valid? && d.config.builder.Some? && d.config.builder.value != Auto
                then s.builder == d.config.builder.value.builder && s.confidence == 100
                else Calls(d.files, s.builder, s.confidence))
  {
    PreferredCalls(d.files);
    hide Calls, Preferred, Confidence;
  }

  /** And so over a whole walk, together with where each service comes from. */
  lemma WalkFields(d: Dir, path: seq<string>, root: bool) returns (ips: seq<seq<nat>>)
    ensures |ips| == |Services(d, path, root)|
    ensures forall i | 0 <= i < |ips| :: Reached(d, ips[i], root) &&
              var s, at := Services(d, path, root)[i], At(d, ips[i], root);
              && s.name == at.name && s.path == path + PathTo(d, ips[i], root)
              && s.config == (if ShipzenYaml in at.files then Some(at.config) else None)
              && (if ShipzenYaml in at.files && at.config.Valid? && at.config.builder.Some?
                     && at.config.builder.value != Auto
                  then s.builder == at.config.builder.value.builder && s.confidence == 100
                  else Calls(at.files, s.builder, s.confidence))
    ensures forall ip | Reached(d, ip, root) && (exists b, k :: Calls(At(d, ip, root).files, b, k)) :: ip in ips
  {
    ips := WalkSources(d, path, root);
    hide Services, Reached, At, PathTo, Calls, Preferred;
    forall i | 0 <= i < |ips|
      ensures Listed(d, ips[i], root)
      ensures var at := At(d, ips[i], root);
              Services(d, path, root)[i] == ServiceOf(at, path + PathTo(d, ips[i], root)) && Marked(at)
    {
    }
    forall i | 0 <= i < |ips| { ServiceFields(At(d, ips[i], root), path + PathTo(d, ips[i], root)); }
    forall ip | Reached(d, ip, root) && (exists b, k :: Calls(At(d, ip, root).files, b, k)) ensures ip in ips {
      PreferredCalls(At(d, ip, root).files);
      assert Listed(d, ip, root);
    }
  }

  /** The path of a directory that is reached holds the names of the directories on the way. */
  lemma {:induction false} PathNames(d: Dir, ip: seq<nat>, root: bool, n: nat)
    requires Reached(d, ip, root) && n < |ip|
    ensures |PathTo(d, ip, root)| == |ip| && Reached(d, ip[..n + 1], root)
    ensures PathTo(d, ip, root)[n] == At(d, ip[..n + 1], root).name
  {
    var child := d.children[ip[0]];
    assert ip[..n + 1][1..] == ip[1..][..n];
    if n > 0 {
      PathNames(child, ip[1..], false, n - 1);
    } else if |ip| > 1 {
      PathNames(child, ip[1..], false, 0);
      assert At(d, ip[..1], root) == At(child, [], false);
    } else {
      assert At(d, ip[..1], root) == At(child, [], false);
    }
  }

  /** The walk goes from a directory it reaches into a child exactly if the child is visible
      and readable, its configuration is not faulty, and no earlier sibling's cut the walk off. */
  lemma {:induction false} ReachesExactly(d: Dir, ip: seq<nat>, k: nat, root: bool)
    requires Reached(d, ip, root)
    ensures Reached(d, ip + [k], root) <==>
              var at := At(d, ip, root);
              && k < |at.children|
              && !Ignored(at.children[k].name) && at.children[k].readable
              && !(ShipzenYaml in at.children[k].files && at.children[k].config == Invalid)
              && forall j | 0 <= j < k ::
                   !(!Ignored(at.children[j].name) && at.children[j].readable
                     && ShipzenYaml in at.children[j].files && at.children[j].config == Invalid)
  {
    if ip == [] {
      assert ([] + [k])[1..] == [];
    } else {
      assert (ip + [k])[1..] == ip[1..] + [k];
      ReachesExactly(d.children[ip[0]], ip[1..], k, false);
    }
  }

  /** Excluded by name, or hidden. */
  predicate Ignored(name: string) {
    || name in ["node_modules", ".git", "__pycache__", "vendor", "dist", "build", ".next", "target"]
    || "." <= name
  }

  /** Nothing is listed at or below a directory that is excluded or hidden, the root apart. */
  lemma {:induction false} NothingBelowSkipped(d: Dir, ip: seq<nat>, n: nat, root: bool)
    requires Reached(d, ip, root) && n <= |ip| && (n > 0 || !root)
    ensures Reached(d, ip[..n], root) && !Ignored(At(d, ip[..n], root).name)
  {
    if n > 0 {
      assert ip[..n][1..] == ip[1..][..n - 1];
      NothingBelowSkipped(d.children[ip[0]], ip[1..], n - 1, false);
    }
  }

  /**
   A faulty configuration below the root drops its own subtree and its parent's later
   children, and nothing else: everything before that child is listed as if the parent
   ended there.
   */
  lemma FaultyChildCutsOff(d: Dir, k: nat, path: seq<string>, root: bool)
    requires k < |d.children| && Raises(d.children[k], false)
    ensures Services(d, path, root) == Services(d.(children := d.children[..k]), path, root)
  {
    if Open(d, root) { CutFrom(d, k, 0, path); }
  }

  lemma {:induction false} CutFrom(d: Dir, k: nat, i: nat, path: seq<string>)
    requires i <= k < |d.children| && Raises(d.children[k], false)
    ensures ServicesFrom(d, i, path) == ServicesFrom(d.(children := d.children[..k]), i, path)
    decreases k - i
  {
    if i < k && !Raises(d.children[i], false) { CutFrom(d, k, i + 1, path); }
  }
}
