/**
 The hash watcher's event loop as functions on values: what each handler does to the table of hash
 states, to the computations it spawned and to the clients waiting for an answer.
 */
module HashState {
  import opened Basics
  import opened Globs
  import Debouncing
  import PackagePaths

  datatype InputGlobs = Default | DefaultWithExtras(extras: GlobSet) | Specific(globs: GlobSet)

  datatype HashSpec = HashSpec(packagePath: string, inputs: InputGlobs)

  predicate IsLocal(spec: HashSpec) {
    match spec.inputs
    case Default => true
    case DefaultWithExtras(extras) => IsPackageLocal(extras)
    case Specific(globs) => IsPackageLocal(globs)
  }

  /** The outcome of one read of the repository: which spec was read and when the read began. */
  datatype GitHashes = GitHashes(spec: HashSpec, readAt: nat)

  type HashResult = Result<GitHashes, string>

  /** A client waits on a sender; each query brings its own. */
  type Sender = nat

  datatype Reply =
    | Hashed(hashes: GitHashes)
    | HashingError(reason: string)
    | Unavailable(reason: string)
    | UnknownPackage
    | UnsupportedGlob

  /** The debouncer a pending entry shares with its computation is found under its version. */
  datatype HashState =
    | Hashes(hashes: GitHashes)
    | Pending(version: nat, waiters: seq<Sender>)
    | Failed(reason: string)

  datatype Phase =
    | Debouncing
    | Acquired
    | Reading(began: nat)
    | Sending(began: nat, outcome: HashResult)
    | Sent(began: nat, outcome: HashResult)

  datatype Computation = Computation(spec: HashSpec, debouncer: Debouncing.State, phase: Phase)

  datatype Update = Update(spec: HashSpec, version: nat, outcome: HashResult)

  /** Everything the event loop's thread reads or writes, debouncers included. */
  datatype Loop = Loop(
    entries: map<HashSpec, HashState>,
    nextVersion: nat,
    computations: map<nat, Computation>,
    replies: map<Sender, Reply>)

  /** A discovery value lists the packages, or says why there are none. */
  type Discovery = Option<Result<set<string>, string>>

  function Packages(data: Discovery): set<string> {
    if data.Some? && data.value.Ok? then data.value.value else {}
  }

  function PackagesOf(entries: map<HashSpec, HashState>): set<string> {
    set spec | spec in entries :: spec.packagePath
  }

  // Which specs a changed file touches

  function Within(package: string, file: string): string
    requires PackagePaths.Contains(package, file)
  {
    PackagePaths.ContainsAsStrings(package, file);
    if package == "" then file else if package == file then "" else file[|package| + 1..]
  }

  ghost predicate IsRelevant(matcher: Matcher, spec: HashSpec, file: string)
    requires PackagePaths.Contains(spec.packagePath, file)
  {
    spec.inputs.Specific? ==> Matches(matcher, spec.inputs.globs, Within(spec.packagePath, file))
  }

  /** The tracked specs of the package found for the file whose inputs the change is relevant to. */
  ghost function ChangedSpecs(matcher: Matcher, entries: map<HashSpec, HashState>, file: string): set<HashSpec> {
    match PackagePaths.Lookup(PackagesOf(entries), file)
    case None => {}
    case Some(p) =>
      PackagePaths.LookupIsSound(PackagesOf(entries), file);
      set spec | spec in entries && spec.packagePath == p && IsRelevant(matcher, spec, file)
  }

  ghost function AllChangedSpecs(matcher: Matcher, entries: map<HashSpec, HashState>,
      files: seq<string>): set<HashSpec> {
    set i, spec | 0 <= i < |files| && spec in ChangedSpecs(matcher, entries, files[i]) :: spec
  }

  // Handlers

  /** `queue_package_hash`: spawn a computation under a fresh version. */
  function Queue(l: Loop, spec: HashSpec, immediate: bool): Loop {
    var timeout := if immediate then 0 else Debouncing.DEFAULT_TIMEOUT;
    l.(nextVersion := l.nextVersion + 1,
       computations := l.computations[l.nextVersion := Computation(spec, Debouncing.New(timeout), Debouncing)])
  }

  /** Spawn a computation and let `spec` wait for it on behalf of `waiters`. */
  function QueueFor(l: Loop, spec: HashSpec, waiters: seq<Sender>, immediate: bool): Loop {
    var l' := Queue(l, spec, immediate);
    l'.(entries := l'.entries[spec := Pending(l.nextVersion, waiters)])
  }

  function Answer(l: Loop, who: Sender, reply: Reply): Loop {
    l.(replies := l.replies[who := reply])
  }

  function AnswerAll(l: Loop, who: seq<Sender>, reply: Reply): Loop {
    l.(replies := l.replies + map w | w in who :: reply)
  }

  function HandleQuery(l: Loop, spec: HashSpec, who: Sender): Loop {
    if !IsLocal(spec) then Answer(l, who, UnsupportedGlob)
    else if spec in l.entries then
      match l.entries[spec]
      case Hashes(hashes) => Answer(l, who, Hashed(hashes))
      case Pending(version, waiters) => l.(entries := l.entries[spec := Pending(version, waiters + [who])])
      case Failed(reason) => Answer(l, who, HashingError(reason))
    else if !spec.inputs.Default? && HashSpec(spec.packagePath, Default) in l.entries then
      QueueFor(l, spec, [who], true)
    else Answer(l, who, UnknownPackage)
  }

  /** An update counts only if the entry still waits for exactly that version. */
  function HandleUpdate(l: Loop, u: Update): Loop {
    if u.spec in l.entries && l.entries[u.spec].Pending? && l.entries[u.spec].version == u.version then
      var waiters := l.entries[u.spec].waiters;
      match u.outcome
      case Ok(hashes) =>
        AnswerAll(l, waiters, Hashed(hashes)).(entries := l.entries[u.spec := Hashes(hashes)])
      case Err(reason) =>
        AnswerAll(l, waiters, HashingError(reason)).(entries := l.entries[u.spec := Failed(reason)])
    else l
  }

  predicate CanBump(l: Loop, version: nat) {
    version in l.computations && Debouncing.Accepts(l.computations[version].debouncer)
  }

  function BumpVersion(l: Loop, version: nat, now: nat): Loop
    requires version in l.computations
  {
    var c := l.computations[version];
    l.(computations := l.computations[version := c.(debouncer := Debouncing.Bump(c.debouncer, now))])
  }

  /** What a file event does to one of the specs it changes. */
  function Touch(l: Loop, spec: HashSpec, now: nat): Loop {
    if spec in l.entries && l.entries[spec].Pending? then
      var Pending(version, waiters) := l.entries[spec];
      if CanBump(l, version) then BumpVersion(l, version, now) else QueueFor(l, spec, waiters, false)
    else QueueFor(l, spec, [], false)
  }

  function TouchAll(l: Loop, specs: seq<HashSpec>, now: nat): Loop {
    if specs == [] then l
    else Touch(TouchAll(l, specs[..|specs| - 1], now), specs[|specs| - 1], now)
  }

  /** The senders waiting for a spec of a package outside `keep`. */
  function WaitersOutside(entries: map<HashSpec, HashState>, keep: set<string>): set<Sender> {
    set spec, i | spec in entries && spec.packagePath !in keep && entries[spec].Pending?
                  && 0 <= i < |entries[spec].waiters| :: entries[spec].waiters[i]
  }

  /** `drop_matching`: forget every package outside `keep`, telling its waiters why. */
  function DropOutside(l: Loop, keep: set<string>, reason: string): Loop {
    l.(entries := map spec | spec in l.entries && spec.packagePath in keep :: l.entries[spec],
       replies := l.replies + map w | w in WaitersOutside(l.entries, keep) :: Unavailable(reason))
  }

  function AddPackage(l: Loop, package: string): Loop {
    var spec := HashSpec(package, Default);
    if spec in l.entries then l else QueueFor(l, spec, [], false)
  }

  function AddPackages(l: Loop, packages: seq<string>): Loop {
    if packages == [] then l
    else AddPackage(AddPackages(l, packages[..|packages| - 1]), packages[|packages| - 1])
  }

  /** `order` is the order in which the loop happens to visit the package set. */
  function HandlePackages(l: Loop, data: Discovery, order: seq<string>): Loop {
    if data.Some? && data.value.Ok?
    then AddPackages(DropOutside(l, data.value.value, "package was removed"), order)
    else DropOutside(l, {}, "package discovery is unavailable")
  }

  function FlushAndRehash(l: Loop, data: Discovery, reason: string, order: seq<string>): Loop {
    HandlePackages(DropOutside(l, {}, reason), data, order)
  }
}
