/** The bubblewrap command in terms of its inputs alone: the words, the flags, and what is refused. */
module BwrapLaws {
  import opened Bwrap
  import opened Text
  import opened Wrappers
  import Env = Environment
  import Laws = EnvironmentLaws

  // ---------------------------------------------------------------------------
  // Isolation
  // ---------------------------------------------------------------------------

  lemma MountOptsAreBinds(ms: seq<Mount>, writable: bool, canon: Canonicalize)
    requires MountOpts(ms, writable, canon).Ok?
    ensures forall o :: o in MountOpts(ms, writable, canon).value ==> if writable then o.Bind? else o.RoBind?
  {
    var opts := MountOpts(ms, writable, canon).value;
    MountOptsAreInOrder(ms, writable, canon);
    forall o | o in opts ensures if writable then o.Bind? else o.RoBind? {
      var i :| 0 <= i < |opts| && opts[i] == o;
      assert Ok(opts[i]) == MountOpt(ms[i], writable, canon);
    }
  }

  /** The network is taken away exactly if localhost is not allowed; PIDs are, and the payload dies with its parent. */
  lemma PlanIsolates(runtime: string, harness: string, workDir: string, cfg: Config, canon: Canonicalize)
    requires Plan(runtime, harness, workDir, cfg, canon).Ok?
    ensures var opts := Plan(runtime, harness, workDir, cfg, canon).value;
            (UnshareNet in opts <==> !cfg.allowLocalhost) && UnsharePid in opts && DieWithParent in opts
  {
    var payload := PayloadBinds(runtime, harness, workDir, canon).value;
    MountOptsAreBinds(cfg.readonlyMounts, false, canon);
    MountOptsAreBinds(cfg.writableMounts, true, canon);
    assert forall o :: o in BASE + payload ==> o != UnshareNet;
    assert UnsharePid in Flags(cfg) && DieWithParent in Flags(cfg);
    assert UnshareNet in Flags(cfg) <==> !cfg.allowLocalhost;
  }

  // ---------------------------------------------------------------------------
  // The words
  // ---------------------------------------------------------------------------

  function SelfWords(path: string, canon: Canonicalize): seq<string> {
    match canon(path) case Some(path') => ["--ro-bind", path', path'] case None => []
  }

  function MountWords(flag: string, ms: seq<Mount>, canon: Canonicalize): seq<string> {
    if ms == [] then []
    else
      var m := ms[|ms| - 1];
      MountWords(flag, ms[..|ms| - 1], canon)
      + match canon(m.host) case Some(host) => [flag, host, m.container] case None => []
  }

  lemma RenderAppendsOne(first: seq<Opt>, init: seq<Opt>, last: Opt)
    requires RenderAll(first + init) == RenderAll(first) + RenderAll(init)
    ensures RenderAll(first + (init + [last])) == RenderAll(first) + RenderAll(init + [last])
  {
    SnocAssociates(first, init, [last]);
    RenderMore(first + init, last);
    RenderMore(init, last);
    SnocAssociates(RenderAll(first), RenderAll(init), Render(last));
  }

  lemma {:induction false} RenderAppends(first: seq<Opt>, later: seq<Opt>)
    ensures RenderAll(first + later) == RenderAll(first) + RenderAll(later)
    decreases |later|
  {
    if later == [] {
      assert first + later == first;
    } else {
      var init, last := later[..|later| - 1], later[|later| - 1];
      assert later == init + [last];
      RenderAppends(first, init);
      RenderAppendsOne(first, init, last);
    }
  }

  lemma RenderOne(o: Opt)
    ensures RenderAll([o]) == Render(o)
  {
    RenderMore([], o);
    assert [] + [o] == [o];
  }

  lemma RenderTwo(o: Opt, o': Opt)
    ensures RenderAll([o, o']) == Render(o) + Render(o')
  {
    RenderOne(o);
    RenderMore([o], o');
    assert [o] + [o'] == [o, o'];
  }

  const ROOT_WORDS: seq<string> := ["--tmpfs", "/", "--tmpfs", "/tmp", "--proc", "/proc", "--dev", "/dev"]

  lemma RootWords()
    ensures RenderAll([Tmpfs("/"), Tmpfs("/tmp")] + [Proc("/proc"), Dev("/dev")]) == ROOT_WORDS
  {
    RenderTwo(Tmpfs("/"), Tmpfs("/tmp"));
    RenderTwo(Proc("/proc"), Dev("/dev"));
    RenderAppends([Tmpfs("/"), Tmpfs("/tmp")], [Proc("/proc"), Dev("/dev")]);
  }

  const SYSTEM_WORDS: seq<string> := [
    "--ro-bind", "/usr", "/usr",
    "--ro-bind-try", "/bin", "/bin", "--ro-bind-try", "/lib", "/lib", "--ro-bind-try", "/lib64", "/lib64"]

  lemma SystemWords()
    ensures RenderAll([RoBind("/usr", "/usr"), RoBindTry("/bin", "/bin")]
                      + [RoBindTry("/lib", "/lib"), RoBindTry("/lib64", "/lib64")]) == SYSTEM_WORDS
  {
    RenderTwo(RoBind("/usr", "/usr"), RoBindTry("/bin", "/bin"));
    RenderTwo(RoBindTry("/lib", "/lib"), RoBindTry("/lib64", "/lib64"));
    RenderAppends([RoBind("/usr", "/usr"), RoBindTry("/bin", "/bin")],
                  [RoBindTry("/lib", "/lib"), RoBindTry("/lib64", "/lib64")]);
  }

  lemma FixedWords()
    ensures RenderAll(BASE) == ROOT_WORDS + SYSTEM_WORDS
  {
    RootWords();
    SystemWords();
    var root := [Tmpfs("/"), Tmpfs("/tmp")] + [Proc("/proc"), Dev("/dev")];
    var dirs := [RoBind("/usr", "/usr"), RoBindTry("/bin", "/bin")]
                + [RoBindTry("/lib", "/lib"), RoBindTry("/lib64", "/lib64")];
    RenderAppends(root, dirs);
    assert BASE == root + dirs;
  }

  lemma {:induction false} WordsOfMounts(ms: seq<Mount>, writable: bool, canon: Canonicalize)
    requires MountOpts(ms, writable, canon).Ok?
    ensures RenderAll(MountOpts(ms, writable, canon).value) ==
              MountWords(if writable then "--bind" else "--ro-bind", ms, canon)
    decreases |ms|
  {
    if ms != [] {
      var n := |ms| - 1;
      WordsOfMounts(ms[..n], writable, canon);
      RenderMore(MountOpts(ms[..n], writable, canon).value, MountOpt(ms[n], writable, canon).value);
    }
  }

  function PayloadWords(runtime: string, harness: string, workDir: string, canon: Canonicalize): seq<string> {
    SelfWords(workDir, canon) + SelfWords(harness, canon) + if "/" <= runtime then SelfWords(runtime, canon) else []
  }

  lemma WordsOfPayload(runtime: string, harness: string, workDir: string, canon: Canonicalize)
    requires PayloadBinds(runtime, harness, workDir, canon).Ok?
    ensures RenderAll(PayloadBinds(runtime, harness, workDir, canon).value) ==
              PayloadWords(runtime, harness, workDir, canon)
  {
    var wd := RoBind(canon(workDir).value, canon(workDir).value);
    var hp := RoBind(canon(harness).value, canon(harness).value);
    RenderTwo(wd, hp);
    assert [wd] + [hp] == [wd, hp];
    if IsAbsolute(runtime) {
      RenderMore([wd, hp], RoBind(canon(runtime).value, canon(runtime).value));
    }
  }

  function FlagWords(allowLocalhost: bool): seq<string> {
    if allowLocalhost then ["--unshare-pid", "--die-with-parent"]
    else ["--unshare-net", "--unshare-pid", "--die-with-parent"]
  }

  lemma WordsOfFlags(cfg: Config)
    ensures RenderAll(Flags(cfg)) == FlagWords(cfg.allowLocalhost)
  {
    RenderTwo(UnsharePid, DieWithParent);
    RenderOne(UnshareNet);
    if cfg.allowLocalhost {
      assert Flags(cfg) == [UnsharePid, DieWithParent];
    } else {
      RenderAppends([UnshareNet], [UnsharePid, DieWithParent]);
      assert Flags(cfg) == [UnshareNet] + [UnsharePid, DieWithParent];
    }
  }

  /** The options of the command line word for word. */
  lemma PlanWords(runtime: string, harness: string, workDir: string, cfg: Config, canon: Canonicalize)
    requires Plan(runtime, harness, workDir, cfg, canon).Ok?
    ensures RenderAll(Plan(runtime, harness, workDir, cfg, canon).value) ==
              ROOT_WORDS + SYSTEM_WORDS + PayloadWords(runtime, harness, workDir, canon)
              + MountWords("--ro-bind", cfg.readonlyMounts, canon) + MountWords("--bind", cfg.writableMounts, canon)
              + FlagWords(cfg.allowLocalhost)
  {
    var payload := PayloadBinds(runtime, harness, workDir, canon).value;
    var ro := MountOpts(cfg.readonlyMounts, false, canon).value;
    var rw := MountOpts(cfg.writableMounts, true, canon).value;
    FixedWords();
    WordsOfPayload(runtime, harness, workDir, canon);
    WordsOfMounts(cfg.readonlyMounts, false, canon);
    WordsOfMounts(cfg.writableMounts, true, canon);
    WordsOfFlags(cfg);
    RenderFive(BASE, payload, ro, rw, Flags(cfg));
  }

  lemma RenderFive(a: seq<Opt>, b: seq<Opt>, c: seq<Opt>, d: seq<Opt>, e: seq<Opt>)
    ensures RenderAll(a + b + c + d + e) == RenderAll(a) + RenderAll(b) + RenderAll(c) + RenderAll(d) + RenderAll(e)
  {
    RenderAppends(a, b);
    RenderAppends(a + b, c);
    RenderAppends(a + b + c, d);
    RenderAppends(a + b + c + d, e);
  }

  // ---------------------------------------------------------------------------
  // What is refused
  // ---------------------------------------------------------------------------

  /** The host of a configured mount can be bound. */
  predicate CanBind(m: Mount, canon: Canonicalize) {
    "/" <= m.host && canon(m.host).Some?
  }

  /** There is a plan exactly if every path it names resolves and every mount's host is absolute. */
  lemma PlanExistsExactly(runtime: string, harness: string, workDir: string, cfg: Config, canon: Canonicalize)
    ensures Plan(runtime, harness, workDir, cfg, canon).Ok? <==>
              && canon(workDir).Some? && canon(harness).Some? && ("/" <= runtime ==> canon(runtime).Some?)
              && (forall i :: 0 <= i < |cfg.readonlyMounts| ==> CanBind(cfg.readonlyMounts[i], canon))
              && (forall i :: 0 <= i < |cfg.writableMounts| ==> CanBind(cfg.writableMounts[i], canon))
  {
    MountsExistExactly(cfg.readonlyMounts, false, canon);
    MountsExistExactly(cfg.writableMounts, true, canon);
  }

  lemma MountsExistExactly(ms: seq<Mount>, writable: bool, canon: Canonicalize)
    ensures MountOpts(ms, writable, canon).Ok? <==> forall i :: 0 <= i < |ms| ==> CanBind(ms[i], canon)
  {
    MountOptsAreInOrder(ms, writable, canon);
    assert forall i :: 0 <= i < |ms| ==> (MountOpt(ms[i], writable, canon).Ok? <==> CanBind(ms[i], canon));
  }

  /** An error about a mount names the kind and the host of one that is to blame. */
  lemma {:induction false} MountErrorIsTrue(ms: seq<Mount>, writable: bool, canon: Canonicalize)
    requires MountOpts(ms, writable, canon).Err?
    ensures exists i :: 0 <= i < |ms| && !CanBind(ms[i], canon)
                        && (forall j :: 0 <= j < i ==> CanBind(ms[j], canon))
                        && MountOpts(ms, writable, canon).error ==
                             if "/" <= ms[i].host then CanonicalizationFailed(ms[i].host)
                             else MountHostNotAbsolute(if writable then "writable_mount" else "readonly_mount",
                                                       ms[i].host)
    decreases |ms|
  {
    var n := |ms| - 1;
    assert forall j :: 0 <= j < n ==> ms[..n][j] == ms[j];
    if MountOpts(ms[..n], writable, canon).Err? {
      MountErrorIsTrue(ms[..n], writable, canon);
    } else {
      MountsExistExactly(ms[..n], writable, canon);
      assert !CanBind(ms[n], canon);
    }
  }

  /** The plan fails over the first thing that is wrong: work dir, harness, runtime, then the mounts in their order. */
  lemma PlanErrorIsFirst(runtime: string, harness: string, workDir: string, cfg: Config, canon: Canonicalize)
    requires Plan(runtime, harness, workDir, cfg, canon).Err?
    ensures var error := Plan(runtime, harness, workDir, cfg, canon).error;
            var ro, rw := MountOpts(cfg.readonlyMounts, false, canon), MountOpts(cfg.writableMounts, true, canon);
            if canon(workDir).None? then error == CanonicalizationFailed(workDir)
            else if canon(harness).None? then error == CanonicalizationFailed(harness)
            else if "/" <= runtime && canon(runtime).None? then error == CanonicalizationFailed(runtime)
            else if ro.Err? then error == ro.error
            else rw.Err? && error == rw.error
  {
  }

  /** Before anything is planned: the work dir must be absolute, the harness given and absolute, the variables valid. */
  lemma RefusedFirst(runtime: string, harness: string, workDir: string, cfg: Config, canon: Canonicalize)
    ensures var checked := Checked(runtime, harness, workDir, cfg, canon);
            && (!("/" <= workDir) ==> checked == Err(WorkDirNotAbsolute(workDir)))
            && ("/" <= workDir && harness == "" ==> checked == Err(HarnessPathEmpty))
            && ("/" <= workDir && harness != "" && !("/" <= harness) ==>
                  checked == Err(HarnessPathNotAbsolute(harness)))
            && (checked.Ok? ==> "/" <= workDir && "/" <= harness)
            && (checked.Ok? ==>
                  forall i :: 0 <= i < |cfg.env.envSet| ==>
                    Laws.IsAcceptableName(cfg.env.envSet[i].0) && Laws.IsAcceptableValue(cfg.env.envSet[i].1))
            && ("/" <= workDir && "/" <= harness && Env.FirstError(cfg.env.envSet).None? ==>
                  checked == Plan(runtime, harness, workDir, cfg, canon))
  {
    if Env.FirstError(cfg.env.envSet).None? {
      Laws.AcceptedListIsAcceptable(cfg.env.envSet);
    }
  }
}
