/**
 What a sandbox sees: the mounts of a command line, folded in order.  A path is what the latest
 mount at or above it makes of it.
 */
module Mounts {
  import opened Wrappers
  import opened Text
  import opened Bwrap

  /** A path as the names on the way to it. */
  type Path = seq<string>

  /** The names of a path; empty ones and `.` do not count. */
  function Names(path: string): Path
    decreases |path|
  {
    var i := IndexOf(path, '/');
    var rest := if i < |path| then Names(path[i + 1..]) else [];
    if path[..i] == "" || path[..i] == "." then rest else [path[..i]] + rest
  }

  function OneName(name: string): Path {
    if name == "" || name == "." then [] else [name]
  }

  lemma NamesUnfold(path: string)
    ensures var i := IndexOf(path, '/');
            Names(path) == OneName(path[..i]) + if i < |path| then Names(path[i + 1..]) else []
  {
  }

  /** The names of a path are those before and those after each of its slashes. */
  lemma {:induction false} NamesSplitAtSlash(before: string, after: string)
    ensures Names(before + ['/'] + after) == Names(before) + Names(after)
    decreases |before|
  {
    var i := IndexOf(before, '/');
    SlashIsFound(before, after);
    NamesUnfold(before);
    NamesUnfold(before + ['/'] + after);
    if i < |before| {
      SliceBeforeSlash(before, after, i);
      NamesSplitAtSlash(before[i + 1..], after);
      SnocAssociates(OneName(before[..i]), Names(before[i + 1..]), Names(after));
    } else {
      SliceAtSlash(before, after);
      assert before[..i] == before && OneName(before) + [] == OneName(before);
    }
  }

  lemma SliceBeforeSlash(before: string, after: string, i: nat)
    requires i < |before|
    ensures (before + ['/'] + after)[..i] == before[..i]
    ensures (before + ['/'] + after)[i + 1..] == before[i + 1..] + ['/'] + after
  {
  }

  lemma SliceAtSlash(before: string, after: string)
    ensures (before + ['/'] + after)[..|before|] == before
    ensures (before + ['/'] + after)[|before| + 1..] == after
  {
  }

  lemma SlashIsFound(before: string, after: string)
    ensures IndexOf(before + ['/'] + after, '/') == IndexOf(before, '/')
  {
    var path, i := before + ['/'] + after, IndexOf(before, '/');
    assert path[i] == '/';
    assert forall j :: 0 <= j < i ==> path[j] == before[j] != '/';
  }

  /** A path without a slash is one name, unless it is empty or a dot. */
  lemma NamesOfOne(name: string)
    requires '/' !in name
    ensures Names(name) == if name == "" || name == "." then [] else [name]
  {
    assert name[..|name|] == name;
  }

  datatype Object =
    | Nowhere
    | Scratch                             // in a tmpfs of the sandbox
    | Synthetic                           // in /proc or /dev
    | Host(path: Path, writable: bool)    // an object of the host

  predicate IsMount(o: Opt) {
    o.Tmpfs? || o.Proc? || o.Dev? || o.RoBind? || o.RoBindTry? || o.Bind?
  }

  /** `o` is mounted at or above `p`. */
  predicate Covers(o: Opt, p: Path) {
    IsMount(o) && Names(o.dest) <= p
  }

  function Provides(o: Opt, p: Path): Object
    requires Covers(o, p)
  {
    match o
    case Tmpfs(_) => Scratch
    case Proc(_) => Synthetic
    case Dev(_) => Synthetic
    case RoBind(src, dest) => Host(Names(src) + p[|Names(dest)|..], false)
    case RoBindTry(src, dest) => Host(Names(src) + p[|Names(dest)|..], false)
    case Bind(src, dest) => Host(Names(src) + p[|Names(dest)|..], true)
  }

  function Resolve(opts: seq<Opt>, p: Path): Object {
    if opts == [] then Nowhere
    else
      var last := opts[|opts| - 1];
      if Covers(last, p) then Provides(last, p) else Resolve(opts[..|opts| - 1], p)
  }

  /** The options without the tried binds whose source is not there. */
  function Effective(opts: seq<Opt>, present: string -> bool): (kept: seq<Opt>)
    ensures forall o :: o in kept ==> o in opts
  {
    if opts == [] then []
    else
      var last := opts[|opts| - 1];
      Effective(opts[..|opts| - 1], present) + if last.RoBindTry? && !present(last.src) then [] else [last]
  }

  /** What `p` is in a sandbox started with these options. */
  function Sees(opts: seq<Opt>, present: string -> bool, p: Path): Object {
    Resolve(Effective(opts, present), p)
  }

  // ---------------------------------------------------------------------------
  // Folding
  // ---------------------------------------------------------------------------

  lemma {:induction false} SeesLater(first: seq<Opt>, later: seq<Opt>, present: string -> bool, p: Path)
    ensures Sees(first + later, present, p) ==
              if Sees(later, present, p).Nowhere? then Sees(first, present, p) else Sees(later, present, p)
    decreases |later|
  {
    if later == [] {
      assert first + later == first;
    } else {
      var init, last := later[..|later| - 1], later[|later| - 1];
      assert (first + later)[..|first + later| - 1] == first + init;
      SeesLater(first, init, present, p);
      SeesLast(first + init, last, present, p);
      SeesLast(init, last, present, p);
      assert later == init + [last] && first + later == first + init + [last];
    }
  }

  lemma SeesLast(opts: seq<Opt>, last: Opt, present: string -> bool, p: Path)
    ensures Sees(opts + [last], present, p) ==
              if Covers(last, p) && (last.RoBindTry? ==> present(last.src)) then Provides(last, p)
              else Sees(opts, present, p)
  {
    var all := opts + [last];
    assert all[..|all| - 1] == opts;
    var kept := Effective(opts, present);
    if last.RoBindTry? && !present(last.src) {
      assert kept + [] == kept;
    } else {
      assert (kept + [last])[..|kept|] == kept;
    }
  }

  /** Whatever is seen is provided by one of the options. */
  lemma {:induction false} SeenIsProvided(opts: seq<Opt>, p: Path) returns (o: Opt)
    requires !Resolve(opts, p).Nowhere?
    ensures o in opts && Covers(o, p) && Provides(o, p) == Resolve(opts, p)
    decreases |opts|
  {
    o := opts[|opts| - 1];
    if !Covers(o, p) {
      o := SeenIsProvided(opts[..|opts| - 1], p);
    }
  }

  lemma {:induction false} UncoveredIsNowhere(opts: seq<Opt>, present: string -> bool, p: Path)
    requires forall o :: o in opts ==> !Covers(o, p)
    ensures Sees(opts, present, p) == Nowhere
  {
    if Sees(opts, present, p) != Nowhere {
      var o := SeenIsProvided(Effective(opts, present), p);
    }
  }

  // ---------------------------------------------------------------------------
  // Confinement
  // ---------------------------------------------------------------------------

  /** `real` is the canonical host path of a configured mount. */
  ghost predicate IsMounted(ms: seq<Mount>, canon: Canonicalize, root: string, container: string) {
    exists m :: m in ms && canon(m.host) == Some(root) && m.container == container
  }

  /**
   Everything writable on the host lies under the canonical host path of a configured writable
   mount, and is reached through its container path.
   */
  lemma WritableIsConfigured(runtime: string, harness: string, workDir: string, cfg: Config,
                             canon: Canonicalize, present: string -> bool, p: Path)
    requires Plan(runtime, harness, workDir, cfg, canon).Ok?
    ensures var seen := Sees(Plan(runtime, harness, workDir, cfg, canon).value, present, p);
            seen.Host? && seen.writable ==>
              exists root, container :: IsMounted(cfg.writableMounts, canon, root, container)
                                        && Names(root) <= seen.path && Names(container) <= p
  {
    var opts := Plan(runtime, harness, workDir, cfg, canon).value;
    var seen := Sees(opts, present, p);
    if seen.Host? && seen.writable {
      var o := SeenIsProvided(Effective(opts, present), p);
      PlanParts(runtime, harness, workDir, cfg, canon, o);
      assert IsMounted(cfg.writableMounts, canon, o.src, o.dest);
    }
  }

  /** The options of a list of mounts are binds of one kind, from canonical hosts to containers. */
  lemma MountSources(ms: seq<Mount>, writable: bool, canon: Canonicalize, o: Opt)
    requires MountOpts(ms, writable, canon).Ok? && o in MountOpts(ms, writable, canon).value
    ensures if writable then o.Bind? else o.RoBind?
    ensures IsMounted(ms, canon, o.src, o.dest)
  {
    var opts := MountOpts(ms, writable, canon).value;
    MountOptsAreInOrder(ms, writable, canon);
    var i :| 0 <= i < |opts| && opts[i] == o;
    assert Ok(opts[i]) == MountOpt(ms[i], writable, canon);
    assert ms[i] in ms;
  }

  lemma PayloadParts(runtime: string, harness: string, workDir: string, canon: Canonicalize, o: Opt)
    requires PayloadBinds(runtime, harness, workDir, canon).Ok?
    requires o in PayloadBinds(runtime, harness, workDir, canon).value
    ensures o.RoBind? && o.dest == o.src
    ensures canon(workDir) == Some(o.src) || canon(harness) == Some(o.src)
            || (IsAbsolute(runtime) && canon(runtime) == Some(o.src))
  {
  }

  /** Where each option of a plan comes from. */
  lemma PlanParts(runtime: string, harness: string, workDir: string, cfg: Config, canon: Canonicalize, o: Opt)
    requires Plan(runtime, harness, workDir, cfg, canon).Ok?
    requires o in Plan(runtime, harness, workDir, cfg, canon).value
    ensures o.Bind? ==> IsMounted(cfg.writableMounts, canon, o.src, o.dest)
    ensures o.RoBind? ==>
              || o.src in ["/usr", "/bin", "/lib", "/lib64"]
              || o in PayloadBinds(runtime, harness, workDir, canon).value
              || IsMounted(cfg.readonlyMounts, canon, o.src, o.dest)
    ensures o.RoBindTry? ==> o.src in ["/usr", "/bin", "/lib", "/lib64"]
  {
    var payload := PayloadBinds(runtime, harness, workDir, canon).value;
    var ro := MountOpts(cfg.readonlyMounts, false, canon).value;
    var rw := MountOpts(cfg.writableMounts, true, canon).value;
    assert o in BASE || o in payload || o in ro || o in rw || o in Flags(cfg);
    if o in payload {
      PayloadParts(runtime, harness, workDir, canon, o);
    }
    if o in ro {
      MountSources(cfg.readonlyMounts, false, canon, o);
    }
    if o in rw {
      MountSources(cfg.writableMounts, true, canon, o);
    }
  }

  /** The host directories and files that a configuration gives to the sandbox. */
  ghost predicate IsRoot(runtime: string, harness: string, workDir: string, cfg: Config,
                         canon: Canonicalize, root: string)
  {
    || root in ["/usr", "/bin", "/lib", "/lib64"]
    || canon(workDir) == Some(root)
    || canon(harness) == Some(root)
    || (IsAbsolute(runtime) && canon(runtime) == Some(root))
    || (exists m :: m in cfg.readonlyMounts + cfg.writableMounts && canon(m.host) == Some(root))
  }

  /** Everything of the host that is reachable at all lies under one of the roots. */
  lemma ReachableIsRooted(runtime: string, harness: string, workDir: string, cfg: Config,
                          canon: Canonicalize, present: string -> bool, p: Path)
    requires Plan(runtime, harness, workDir, cfg, canon).Ok?
    ensures var seen := Sees(Plan(runtime, harness, workDir, cfg, canon).value, present, p);
            seen.Host? ==> exists root :: IsRoot(runtime, harness, workDir, cfg, canon, root)
                                          && Names(root) <= seen.path
  {
    var opts := Plan(runtime, harness, workDir, cfg, canon).value;
    var seen := Sees(opts, present, p);
    if seen.Host? {
      var o := SeenIsProvided(Effective(opts, present), p);
      SourcesAreRoots(runtime, harness, workDir, cfg, canon, o);
    }
  }

  lemma SourcesAreRoots(runtime: string, harness: string, workDir: string, cfg: Config,
                        canon: Canonicalize, o: Opt)
    requires Plan(runtime, harness, workDir, cfg, canon).Ok?
    requires o in Plan(runtime, harness, workDir, cfg, canon).value
    requires o.RoBind? || o.RoBindTry? || o.Bind?
    ensures IsRoot(runtime, harness, workDir, cfg, canon, o.src)
  {
    PlanParts(runtime, harness, workDir, cfg, canon, o);
    if o in PayloadBinds(runtime, harness, workDir, canon).value {
      PayloadParts(runtime, harness, workDir, canon, o);
    }
  }

  // ---------------------------------------------------------------------------
  // Visibility
  // ---------------------------------------------------------------------------

  /** The binds of the configured mounts, in order. */
  function Configured(cfg: Config, canon: Canonicalize): seq<Opt>
    requires MountOpts(cfg.readonlyMounts, false, canon).Ok? && MountOpts(cfg.writableMounts, true, canon).Ok?
  {
    MountOpts(cfg.readonlyMounts, false, canon).value + MountOpts(cfg.writableMounts, true, canon).value
  }

  /** `p` is at or below the canonical work dir, harness or absolute runtime. */
  ghost predicate InPayload(runtime: string, harness: string, workDir: string, canon: Canonicalize, p: Path) {
    || (canon(workDir).Some? && Names(canon(workDir).value) <= p)
    || (canon(harness).Some? && Names(canon(harness).value) <= p)
    || (IsAbsolute(runtime) && canon(runtime).Some? && Names(canon(runtime).value) <= p)
  }

  lemma PrefixAndRest(prefix: Path, p: Path)
    requires prefix <= p
    ensures prefix + p[|prefix|..] == p
  {
  }

  /** A self-bind shows a path of the host as itself, read-only. */
  lemma SelfBindShowsItself(opts: seq<Opt>, root: string, present: string -> bool, p: Path)
    ensures Sees(opts + [RoBind(root, root)], present, p) ==
              if Names(root) <= p then Host(p, false) else Sees(opts, present, p)
  {
    SeesLast(opts, RoBind(root, root), present, p);
    if Names(root) <= p {
      PrefixAndRest(Names(root), p);
    }
  }

  lemma PayloadBindsShowThemselves(runtime: string, harness: string, workDir: string, canon: Canonicalize,
                                   present: string -> bool, p: Path)
    requires PayloadBinds(runtime, harness, workDir, canon).Ok?
    ensures Sees(PayloadBinds(runtime, harness, workDir, canon).value, present, p) ==
              if InPayload(runtime, harness, workDir, canon, p) then Host(p, false) else Nowhere
  {
    var wd, hp := canon(workDir).value, canon(harness).value;
    var one, two := [RoBind(wd, wd)], [RoBind(wd, wd), RoBind(hp, hp)];
    assert [] + one == one && one + [RoBind(hp, hp)] == two;
    assert Sees([], present, p) == Nowhere;
    SelfBindShowsItself([], wd, present, p);
    SelfBindShowsItself(one, hp, present, p);
    if IsAbsolute(runtime) {
      SelfBindShowsItself(two, canon(runtime).value, present, p);
    }
  }

  /**
   Everything in the work dir, the harness and an absolute runtime is itself, read-only, inside the
   sandbox, except where a configured mount covers it; no mount of the base hides it.
   */
  lemma PayloadIsVisible(runtime: string, harness: string, workDir: string, cfg: Config,
                         canon: Canonicalize, present: string -> bool, p: Path)
    requires Plan(runtime, harness, workDir, cfg, canon).Ok?
    requires InPayload(runtime, harness, workDir, canon, p)
    ensures var configured := Sees(Configured(cfg, canon), present, p);
            Sees(Plan(runtime, harness, workDir, cfg, canon).value, present, p) ==
              if configured.Nowhere? then Host(p, false) else configured
  {
    PlanSees(runtime, harness, workDir, cfg, canon, present, p);
    PayloadBindsShowThemselves(runtime, harness, workDir, canon, present, p);
  }

  /** `p` lies in one of the system directories that are bound. */
  predicate InSystem(present: string -> bool, p: Path) {
    || ["usr"] <= p
    || (["bin"] <= p && present("/bin"))
    || (["lib"] <= p && present("/lib"))
    || (["lib64"] <= p && present("/lib64"))
  }

  lemma NamesOfTopLevel(path: string, name: string)
    requires path == "/" + name && '/' !in name && name !in ["", "."]
    ensures Names(path) == [name]
  {
    assert path[..0] == "" && path[1..] == name;
    assert name[..|name|] == name;
  }

  lemma NamesOfSlash()
    ensures Names("/") == []
  {
    assert "/"[1..] == [];
  }

  lemma NamesOfUsr()
    ensures Names("/usr") == ["usr"]
  {
    NamesOfTopLevel("/usr", "usr");
  }

  lemma NamesOfBin()
    ensures Names("/bin") == ["bin"]
  {
    NamesOfTopLevel("/bin", "bin");
  }

  lemma NamesOfLib()
    ensures Names("/lib") == ["lib"]
  {
    NamesOfTopLevel("/lib", "lib");
  }

  lemma NamesOfLib64()
    ensures Names("/lib64") == ["lib64"]
  {
    NamesOfTopLevel("/lib64", "lib64");
  }

  /** Made by the sandbox itself. */
  predicate IsOwn(seen: Object) {
    seen.Scratch? || seen.Synthetic?
  }

  lemma OwnStays(opts: seq<Opt>, o: Opt, present: string -> bool, p: Path)
    requires IsOwn(Sees(opts, present, p)) && (o.Tmpfs? || o.Proc? || o.Dev?)
    ensures IsOwn(Sees(opts + [o], present, p))
  {
    SeesLast(opts, o, present, p);
  }

  const ROOT: seq<Opt> := [Tmpfs("/")] + [Tmpfs("/tmp")] + [Proc("/proc")] + [Dev("/dev")]

  lemma OwnStaysThrice(opts: seq<Opt>, o: Opt, o': Opt, o'': Opt, present: string -> bool, p: Path)
    requires IsOwn(Sees(opts, present, p)) && (o.Tmpfs? || o.Proc? || o.Dev?)
    requires (o'.Tmpfs? || o'.Proc? || o'.Dev?) && (o''.Tmpfs? || o''.Proc? || o''.Dev?)
    ensures IsOwn(Sees(opts + [o] + [o'] + [o''], present, p))
  {
    OwnStays(opts, o, present, p);
    OwnStays(opts + [o], o', present, p);
    OwnStays(opts + [o] + [o'], o'', present, p);
  }

  lemma TmpfsRootIsOwn(root: Opt, present: string -> bool, p: Path)
    requires root.Tmpfs? && Names(root.dest) == []
    ensures IsOwn(Sees([root], present, p))
  {
    SeesLast([], root, present, p);
    assert [] + [root] == [root];
  }

  lemma RootSees(present: string -> bool, p: Path)
    ensures IsOwn(Sees(ROOT, present, p))
  {
    NamesOfSlash();
    TmpfsRootIsOwn(Tmpfs("/"), present, p);
    OwnStaysThrice([Tmpfs("/")], Tmpfs("/tmp"), Proc("/proc"), Dev("/dev"), present, p);
  }

  lemma TriedBindShowsItself(opts: seq<Opt>, dir: string, present: string -> bool, p: Path)
    ensures Sees(opts + [RoBindTry(dir, dir)], present, p) ==
              if Names(dir) <= p && present(dir) then Host(p, false) else Sees(opts, present, p)
  {
    SeesLast(opts, RoBindTry(dir, dir), present, p);
    if Names(dir) <= p {
      PrefixAndRest(Names(dir), p);
    }
  }

  lemma SystemDirsShowThemselves(root: seq<Opt>, present: string -> bool, p: Path)
    ensures Sees(root + [RoBind("/usr", "/usr")] + [RoBindTry("/bin", "/bin")] + [RoBindTry("/lib", "/lib")]
                 + [RoBindTry("/lib64", "/lib64")], present, p) ==
              if InSystem(present, p) then Host(p, false) else Sees(root, present, p)
  {
    NamesOfUsr();
    NamesOfBin();
    NamesOfLib();
    NamesOfLib64();
    var usr := root + [RoBind("/usr", "/usr")];
    var bin := usr + [RoBindTry("/bin", "/bin")];
    var lib := bin + [RoBindTry("/lib", "/lib")];
    SelfBindShowsItself(root, "/usr", present, p);
    TriedBindShowsItself(usr, "/bin", present, p);
    TriedBindShowsItself(bin, "/lib", present, p);
    TriedBindShowsItself(lib, "/lib64", present, p);
  }

  /** The base shows the system directories as themselves, and nothing else of the host. */
  lemma BaseSees(present: string -> bool, p: Path)
    ensures var seen := Sees(BASE, present, p);
            if InSystem(present, p) then seen == Host(p, false) else IsOwn(seen)
  {
    RootSees(present, p);
    SystemDirsShowThemselves(ROOT, present, p);
    assert BASE == ROOT + [RoBind("/usr", "/usr")] + [RoBindTry("/bin", "/bin")] + [RoBindTry("/lib", "/lib")]
                   + [RoBindTry("/lib64", "/lib64")];
  }

  /**
   A path on which no configured mount lies shows the host's object of that name, read-only, if and
   only if it is in the canonical payload or in a system directory; else it shows nothing of the host.
   */
  lemma UnmountedPathShows(runtime: string, harness: string, workDir: string, cfg: Config,
                           canon: Canonicalize, present: string -> bool, p: Path)
    requires Plan(runtime, harness, workDir, cfg, canon).Ok?
    requires Sees(Configured(cfg, canon), present, p).Nowhere?
    ensures var seen := Sees(Plan(runtime, harness, workDir, cfg, canon).value, present, p);
            if InPayload(runtime, harness, workDir, canon, p) || InSystem(present, p) then seen == Host(p, false)
            else IsOwn(seen)
  {
    PlanSees(runtime, harness, workDir, cfg, canon, present, p);
    PayloadBindsShowThemselves(runtime, harness, workDir, canon, present, p);
    BaseSees(present, p);
  }

  /** `word` is the work dir, the harness or an absolute runtime, as the command line names it. */
  predicate IsPayloadWord(runtime: string, harness: string, workDir: string, word: string) {
    word == workDir || word == harness || (word == runtime && IsAbsolute(runtime))
  }

  /**
   The command line names the payload as the caller gave it, while what is bound is canonical.  On a
   path without configured mounts a word that is canonical leads to its object; any other word, say one
   that goes through a symbolic link, leads to the host's object of that name if and only if it lies in
   the payload or a system directory anyway, and else to nothing of the host.
   */
  lemma PayloadWordShows(runtime: string, harness: string, workDir: string, cfg: Config,
                         canon: Canonicalize, present: string -> bool, word: string)
    requires Plan(runtime, harness, workDir, cfg, canon).Ok?
    requires IsPayloadWord(runtime, harness, workDir, word)
    requires Sees(Configured(cfg, canon), present, Names(word)).Nowhere?
    ensures canon(word).Some?
    ensures var seen := Sees(Plan(runtime, harness, workDir, cfg, canon).value, present, Names(word));
            && (Names(word) == Names(canon(word).value) ==> seen == Host(Names(canon(word).value), false))
            && (seen == Host(Names(word), false) <==>
                  InPayload(runtime, harness, workDir, canon, Names(word)) || InSystem(present, Names(word)))
            && (seen.Host? ==> seen == Host(Names(word), false))
  {
    UnmountedPathShows(runtime, harness, workDir, cfg, canon, present, Names(word));
  }

  /** What the plan makes of a path: configured mounts over the payload over the base, and always something. */
  lemma PlanSees(runtime: string, harness: string, workDir: string, cfg: Config,
                 canon: Canonicalize, present: string -> bool, p: Path)
    requires Plan(runtime, harness, workDir, cfg, canon).Ok?
    ensures var configured := Sees(Configured(cfg, canon), present, p);
            var payload := Sees(PayloadBinds(runtime, harness, workDir, canon).value, present, p);
            var seen := Sees(Plan(runtime, harness, workDir, cfg, canon).value, present, p);
            && seen == (if !configured.Nowhere? then configured
                        else if !payload.Nowhere? then payload
                        else Sees(BASE, present, p))
            && !seen.Nowhere?
  {
    var payload := PayloadBinds(runtime, harness, workDir, canon).value;
    var ro := MountOpts(cfg.readonlyMounts, false, canon).value;
    var rw := MountOpts(cfg.writableMounts, true, canon).value;
    assert Plan(runtime, harness, workDir, cfg, canon).value == BASE + payload + ro + rw + Flags(cfg);
    FlagsCoverNothing(cfg, present, p);
    LayersFold(BASE, payload, ro, rw, Flags(cfg), present, p);
    BaseSees(present, p);
  }

  lemma FlagsCoverNothing(cfg: Config, present: string -> bool, p: Path)
    ensures Sees(Flags(cfg), present, p) == Nowhere
  {
    UncoveredIsNowhere(Flags(cfg), present, p);
  }

  lemma LayersFold(base: seq<Opt>, payload: seq<Opt>, ro: seq<Opt>, rw: seq<Opt>, flags: seq<Opt>,
                   present: string -> bool, p: Path)
    requires Sees(flags, present, p) == Nowhere
    ensures Sees(base + payload + ro + rw + flags, present, p) ==
              if !Sees(ro + rw, present, p).Nowhere? then Sees(ro + rw, present, p)
              else if !Sees(payload, present, p).Nowhere? then Sees(payload, present, p)
              else Sees(base, present, p)
  {
    SeesLater(base, payload, present, p);
    SeesLater(base + payload, ro + rw, present, p);
    SeesLater(base + payload + ro + rw, flags, present, p);
    assert base + payload + (ro + rw) == base + payload + ro + rw;
  }

  lemma MountOptShape(ms: seq<Mount>, writable: bool, canon: Canonicalize, i: nat)
    requires MountOpts(ms, writable, canon).Ok? && i < |ms|
    ensures |MountOpts(ms, writable, canon).value| == |ms| && canon(ms[i].host).Some?
    ensures MountOpts(ms, writable, canon).value[i] ==
              if writable then Bind(canon(ms[i].host).value, ms[i].container)
              else RoBind(canon(ms[i].host).value, ms[i].container)
  {
    MountOptsAreInOrder(ms, writable, canon);
    assert Ok(MountOpts(ms, writable, canon).value[i]) == MountOpt(ms[i], writable, canon);
  }

  lemma LastCoverDecides(opts: seq<Opt>, i: nat, present: string -> bool, p: Path)
    requires i < |opts| && !opts[i].RoBindTry? && Covers(opts[i], p)
    requires forall j :: i < j < |opts| ==> !Covers(opts[j], p)
    ensures Sees(opts, present, p) == Provides(opts[i], p)
  {
    var first, later := opts[..i], opts[i + 1..];
    UncoveredIsNowhere(later, present, p);
    MiddleDecides(first, opts[i], later, present, p);
    assert opts == first + [opts[i]] + later;
  }

  lemma MiddleDecides(first: seq<Opt>, o: Opt, later: seq<Opt>, present: string -> bool, p: Path)
    requires !o.RoBindTry? && Covers(o, p) && Sees(later, present, p).Nowhere?
    ensures Sees(first + [o] + later, present, p) == Provides(o, p)
  {
    SeesLast(first, o, present, p);
    SeesLater(first + [o], later, present, p);
  }

  /** Among configured mounts, the last one that covers a path decides. */
  lemma LastCoveringMountDecides(ms: seq<Mount>, writable: bool, canon: Canonicalize,
                                 present: string -> bool, i: nat, p: Path)
    requires MountOpts(ms, writable, canon).Ok?
    requires i < |ms| && Names(ms[i].container) <= p
    requires forall j :: i < j < |ms| ==> !(Names(ms[j].container) <= p)
    ensures canon(ms[i].host).Some?
    ensures Sees(MountOpts(ms, writable, canon).value, present, p) ==
              Host(Names(canon(ms[i].host).value) + p[|Names(ms[i].container)|..], writable)
  {
    var opts := MountOpts(ms, writable, canon).value;
    MountOptShape(ms, writable, canon, i);
    forall j | i < j < |opts| ensures !Covers(opts[j], p) {
      MountOptShape(ms, writable, canon, j);
    }
    LastCoverDecides(opts, i, present, p);
  }

  /** A writable mount is writable at and below its container path unless a later one covers it. */
  lemma WritableMountIsWritable(runtime: string, harness: string, workDir: string, cfg: Config,
                                canon: Canonicalize, present: string -> bool, i: nat, p: Path)
    requires Plan(runtime, harness, workDir, cfg, canon).Ok?
    requires i < |cfg.writableMounts| && Names(cfg.writableMounts[i].container) <= p
    requires forall j :: i < j < |cfg.writableMounts| ==> !(Names(cfg.writableMounts[j].container) <= p)
    ensures canon(cfg.writableMounts[i].host).Some?
    ensures Sees(Plan(runtime, harness, workDir, cfg, canon).value, present, p) ==
              Host(Names(canon(cfg.writableMounts[i].host).value)
                   + p[|Names(cfg.writableMounts[i].container)|..], true)
  {
    LastCoveringMountDecides(cfg.writableMounts, true, canon, present, i, p);
    SeesLater(MountOpts(cfg.readonlyMounts, false, canon).value,
              MountOpts(cfg.writableMounts, true, canon).value, present, p);
    PlanSees(runtime, harness, workDir, cfg, canon, present, p);
  }

  /** A read-only mount shows its host path read-only unless a later mount covers it. */
  lemma ReadonlyMountIsReadonly(runtime: string, harness: string, workDir: string, cfg: Config,
                                canon: Canonicalize, present: string -> bool, i: nat, p: Path)
    requires Plan(runtime, harness, workDir, cfg, canon).Ok?
    requires i < |cfg.readonlyMounts| && Names(cfg.readonlyMounts[i].container) <= p
    requires forall j :: i < j < |cfg.readonlyMounts| ==> !(Names(cfg.readonlyMounts[j].container) <= p)
    requires forall m :: m in cfg.writableMounts ==> !(Names(m.container) <= p)
    ensures canon(cfg.readonlyMounts[i].host).Some?
    ensures Sees(Plan(runtime, harness, workDir, cfg, canon).value, present, p) ==
              Host(Names(canon(cfg.readonlyMounts[i].host).value)
                   + p[|Names(cfg.readonlyMounts[i].container)|..], false)
  {
    var rw := MountOpts(cfg.writableMounts, true, canon).value;
    LastCoveringMountDecides(cfg.readonlyMounts, false, canon, present, i, p);
    forall o | o in rw ensures !Covers(o, p) {
      MountOptsAreInOrder(cfg.writableMounts, true, canon);
      var j :| 0 <= j < |rw| && rw[j] == o;
      MountOptShape(cfg.writableMounts, true, canon, j);
      assert cfg.writableMounts[j] in cfg.writableMounts;
    }
    UncoveredIsNowhere(rw, present, p);
    SeesLater(MountOpts(cfg.readonlyMounts, false, canon).value, rw, present, p);
    PlanSees(runtime, harness, workDir, cfg, canon, present, p);
  }
}
