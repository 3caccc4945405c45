/**
 The bubblewrap command: what `build_command` puts on the command line for this strategy, and an
 option parser that reads it back knowing only how many arguments each option takes.
 */
module Bwrap {
  import opened CommandBuilder
  import opened Text
  import opened Wrappers
  import Env = Environment

  // ---------------------------------------------------------------------------
  // Options and their rendering
  // ---------------------------------------------------------------------------

  datatype Opt =
    | Tmpfs(dest: string)
    | Proc(dest: string)
    | Dev(dest: string)
    | RoBind(src: string, dest: string)
    | RoBindTry(src: string, dest: string)
    | Bind(src: string, dest: string)
    | UnshareNet
    | UnsharePid
    | DieWithParent

  function Render(o: Opt): seq<string> {
    match o
    case Tmpfs(dest) => ["--tmpfs", dest]
    case Proc(dest) => ["--proc", dest]
    case Dev(dest) => ["--dev", dest]
    case RoBind(src, dest) => ["--ro-bind", src, dest]
    case RoBindTry(src, dest) => ["--ro-bind-try", src, dest]
    case Bind(src, dest) => ["--bind", src, dest]
    case UnshareNet => ["--unshare-net"]
    case UnsharePid => ["--unshare-pid"]
    case DieWithParent => ["--die-with-parent"]
  }

  function RenderAll(opts: seq<Opt>): seq<string> {
    if opts == [] then [] else RenderAll(opts[..|opts| - 1]) + Render(opts[|opts| - 1])
  }

  // ---------------------------------------------------------------------------
  // Reading a command line back
  // ---------------------------------------------------------------------------

  datatype Parsed = Parsed(opts: seq<Opt>, payload: seq<string>)

  /** One option with its arguments, and what follows it. */
  function ParseOne(args: seq<string>): (r: Option<(Opt, seq<string>)>)
    requires args != []
    ensures r.Some? ==> |r.value.1| < |args|
  {
    var name, n := args[0], |args|;
    if name == "--tmpfs" && n > 1 then Some((Tmpfs(args[1]), args[2..]))
    else if name == "--proc" && n > 1 then Some((Proc(args[1]), args[2..]))
    else if name == "--dev" && n > 1 then Some((Dev(args[1]), args[2..]))
    else if name == "--ro-bind" && n > 2 then Some((RoBind(args[1], args[2]), args[3..]))
    else if name == "--ro-bind-try" && n > 2 then Some((RoBindTry(args[1], args[2]), args[3..]))
    else if name == "--bind" && n > 2 then Some((Bind(args[1], args[2]), args[3..]))
    else if name == "--unshare-net" then Some((UnshareNet, args[1..]))
    else if name == "--unshare-pid" then Some((UnsharePid, args[1..]))
    else if name == "--die-with-parent" then Some((DieWithParent, args[1..]))
    else None
  }

  /** Options up to `--` or to the first word that is not one; None if an option is not known. */
  function Parse(args: seq<string>): Option<Parsed>
    decreases |args|
  {
    if args == [] then Some(Parsed([], []))
    else if args[0] == "--" then Some(Parsed([], args[1..]))
    else if !("--" <= args[0]) then Some(Parsed([], args))
    else
      match ParseOne(args)
      case None => None
      case Some((o, rest)) =>
        match Parse(rest)
        case None => None
        case Some(parsed) => Some(Parsed([o] + parsed.opts, parsed.payload))
  }

  lemma OneParses(o: Opt, rest: seq<string>)
    ensures "--" <= Render(o)[0] && Render(o)[0] != "--"
    ensures ParseOne(Render(o) + rest) == Some((o, rest))
  {
    var args := Render(o) + rest;
    assert args[|Render(o)|..] == rest;
    assert args[0] == Render(o)[0];
  }

  /** `args` reads as these options and this payload. */
  ghost predicate Reads(args: seq<string>, opts: seq<Opt>, payload: seq<string>) {
    Parse(args) == Some(Parsed(opts, payload))
  }

  lemma ReadsOneMore(o: Opt, tail: seq<string>, opts: seq<Opt>, payload: seq<string>)
    requires Reads(tail, opts, payload)
    ensures Reads(Render(o) + tail, [o] + opts, payload)
  {
    OneParses(o, tail);
    assert (Render(o) + tail)[0] == Render(o)[0];
  }

  lemma ReadsRegrouped(args: seq<string>, lastArgs: seq<string>, tail: seq<string>,
                       first: seq<Opt>, last: Opt, more: seq<Opt>, payload: seq<string>)
    requires Reads(args + (lastArgs + tail), first + ([last] + more), payload)
    ensures Reads(args + lastArgs + tail, first + [last] + more, payload)
  {
    SnocAssociates(args, lastArgs, tail);
    SnocAssociates(first, [last], more);
  }

  lemma {:induction false} ReadsAll(opts: seq<Opt>, tail: seq<string>, more: seq<Opt>, payload: seq<string>)
    requires Reads(tail, more, payload)
    ensures Reads(RenderAll(opts) + tail, opts + more, payload)
    decreases |opts|
  {
    if opts == [] {
      assert RenderAll(opts) + tail == tail && opts + more == more;
    } else {
      var first, last := opts[..|opts| - 1], opts[|opts| - 1];
      assert opts == first + [last];
      ReadsOneMore(last, tail, more, payload);
      ReadsAll(first, Render(last) + tail, [last] + more, payload);
      ReadsRegrouped(RenderAll(first), Render(last), tail, first, last, more, payload);
    }
  }

  /** Whatever the strings are, the parser recovers the options in order and the payload. */
  lemma RenderedParses(opts: seq<Opt>, payload: seq<string>)
    ensures Parse(RenderAll(opts) + ["--"] + payload) == Some(Parsed(opts, payload))
  {
    var tail := ["--"] + payload;
    assert tail[1..] == payload;
    ReadsAll(opts, tail, [], payload);
    SnocAssociates(RenderAll(opts), ["--"], payload);
    assert opts + [] == opts;
  }

  /** So two command lines are equal only if they say the same. */
  lemma RenderingIsInjective(opts: seq<Opt>, payload: seq<string>, opts': seq<Opt>, payload': seq<string>)
    requires RenderAll(opts) + ["--"] + payload == RenderAll(opts') + ["--"] + payload'
    ensures opts == opts' && payload == payload'
  {
    RenderedParses(opts, payload);
    RenderedParses(opts', payload');
  }

  // ---------------------------------------------------------------------------
  // The plan: which options, in which order
  // ---------------------------------------------------------------------------

  /** A configured mount: host path and path in the container. */
  datatype Mount = Mount(host: string, container: string)

  datatype Config = Config(
    runtimeArgs: seq<string>,
    readonlyMounts: seq<Mount>,
    writableMounts: seq<Mount>,
    allowLocalhost: bool,
    env: Env.Config)

  datatype BuildError =
    | WorkDirNotAbsolute(path: string)
    | HarnessPathEmpty
    | HarnessPathNotAbsolute(path: string)
    | BadEnvironment(error: Env.EnvError)
    | MountHostNotAbsolute(kind: string, path: string)
    | CanonicalizationFailed(path: string)

  predicate IsAbsolute(path: string) {
    "/" <= path
  }

  /** `canonicalize` on the host: None where it fails. */
  type Canonicalize = string -> Option<string>

  const BASE: seq<Opt> := [
    Tmpfs("/"), Tmpfs("/tmp"), Proc("/proc"), Dev("/dev"), RoBind("/usr", "/usr"),
    RoBindTry("/bin", "/bin"), RoBindTry("/lib", "/lib"), RoBindTry("/lib64", "/lib64")]

  /** The path on both sides, if it can be canonicalized. */
  function SelfBind(path: string, canon: Canonicalize): Result<seq<Opt>, BuildError> {
    match canon(path)
    case None => Err(CanonicalizationFailed(path))
    case Some(resolved) => Ok([RoBind(resolved, resolved)])
  }

  function MountOpt(m: Mount, writable: bool, canon: Canonicalize): Result<Opt, BuildError> {
    if !IsAbsolute(m.host) then
      Err(MountHostNotAbsolute(if writable then "writable_mount" else "readonly_mount", m.host))
    else
      match canon(m.host)
      case None => Err(CanonicalizationFailed(m.host))
      case Some(resolved) => Ok(if writable then Bind(resolved, m.container) else RoBind(resolved, m.container))
  }

  function MountOpts(ms: seq<Mount>, writable: bool, canon: Canonicalize): Result<seq<Opt>, BuildError> {
    if ms == [] then Ok([])
    else
      var first :- MountOpts(ms[..|ms| - 1], writable, canon);
      var last :- MountOpt(ms[|ms| - 1], writable, canon);
      Ok(first + [last])
  }

  /** One option for each mount, in order, exactly when every mount is acceptable. */
  lemma {:induction false} MountOptsAreInOrder(ms: seq<Mount>, writable: bool, canon: Canonicalize)
    ensures var r := MountOpts(ms, writable, canon);
            && (r.Ok? <==> forall i :: 0 <= i < |ms| ==> MountOpt(ms[i], writable, canon).Ok?)
            && (r.Ok? ==> |r.value| == |ms|
                          && forall i :: 0 <= i < |ms| ==> Ok(r.value[i]) == MountOpt(ms[i], writable, canon))
    decreases |ms|
  {
    if ms != [] {
      var n := |ms| - 1;
      MountOptsAreInOrder(ms[..n], writable, canon);
      assert forall i :: 0 <= i < n ==> ms[..n][i] == ms[i];
    }
  }

  /** The binds that make the payload runnable: work dir, harness, and an absolute runtime. */
  function PayloadBinds(runtime: string, harness: string, workDir: string, canon: Canonicalize)
    : Result<seq<Opt>, BuildError>
  {
    var wd :- SelfBind(workDir, canon);
    var hp :- SelfBind(harness, canon);
    if IsAbsolute(runtime) then
      var rt :- SelfBind(runtime, canon);
      Ok(wd + hp + rt)
    else Ok(wd + hp)
  }

  function Flags(cfg: Config): seq<Opt> {
    (if cfg.allowLocalhost then [] else [UnshareNet]) + [UnsharePid, DieWithParent]
  }

  /** Every option, or the first thing that is wrong. */
  function Plan(runtime: string, harness: string, workDir: string, cfg: Config, canon: Canonicalize)
    : Result<seq<Opt>, BuildError>
  {
    var payload :- PayloadBinds(runtime, harness, workDir, canon);
    var ro :- MountOpts(cfg.readonlyMounts, false, canon);
    var rw :- MountOpts(cfg.writableMounts, true, canon);
    Ok(BASE + payload + ro + rw + Flags(cfg))
  }

  // ---------------------------------------------------------------------------
  // Building the command in place
  // ---------------------------------------------------------------------------

  lemma RenderMore(opts: seq<Opt>, o: Opt)
    ensures RenderAll(opts + [o]) == RenderAll(opts) + Render(o)
  {
    assert (opts + [o])[..|opts|] == opts;
  }

  /** Adds the arguments of one option. */
  method Emit(cmd: Command, args: seq<string>, ghost opts: seq<Opt>, ghost o: Opt)
    requires cmd.args == RenderAll(opts) && args == Render(o)
    modifies cmd`args
    ensures cmd.args == RenderAll(opts + [o])
  {
    RenderMore(opts, o);
    cmd.Args(args);
  }

  /** The root, the synthetic file systems and the system directories. */
  method EmitBase(cmd: Command)
    requires cmd.args == []
    modifies cmd`args
    ensures cmd.args == RenderAll(BASE)
  {
    Emit(cmd, ["--tmpfs", "/"], Take(0), BASE[0]);
    Emit(cmd, ["--tmpfs", "/tmp"], Take(1), BASE[1]);
    Emit(cmd, ["--proc", "/proc"], Take(2), BASE[2]);
    Emit(cmd, ["--dev", "/dev"], Take(3), BASE[3]);
    Emit(cmd, ["--ro-bind", "/usr", "/usr"], Take(4), BASE[4]);
    EmitSystemDirs(cmd);
  }

  method EmitSystemDirs(cmd: Command)
    requires cmd.args == RenderAll(Take(5))
    modifies cmd`args
    ensures cmd.args == RenderAll(BASE)
  {
    var dirs := ["/bin", "/lib", "/lib64"];
    for i := 0 to |dirs|
      invariant cmd.args == RenderAll(Take(5 + i))
    {
      Emit(cmd, ["--ro-bind-try", dirs[i], dirs[i]], Take(5 + i), BASE[5 + i]);
    }
  }

  /** The first `n` options of the base. */
  ghost function Take(n: nat): (opts: seq<Opt>)
    requires n <= 8
    ensures n < 8 ==> Take(n) + [BASE[n]] == BASE[..n + 1]
    ensures n == 0 ==> opts == []
    ensures n == 8 ==> opts == BASE
    ensures opts == BASE[..n]
  {
    BASE[..n]
  }

  /** One loop of the builder over configured mounts. */
  method EmitMounts(cmd: Command, ms: seq<Mount>, writable: bool, canon: Canonicalize, ghost opts: seq<Opt>)
    returns (r: Result<(), BuildError>)
    requires cmd.args == RenderAll(opts)
    modifies cmd`args
    ensures match MountOpts(ms, writable, canon)
            case Ok(more) => r == Ok(()) && cmd.args == RenderAll(opts + more)
            case Err(e) => r == Err(e)
  {
    ghost var more: seq<Opt> := [];
    assert opts + [] == opts;
    for i := 0 to |ms|
      invariant MountOpts(ms[..i], writable, canon) == Ok(more)
      invariant cmd.args == RenderAll(opts + more)
    {
      MountOptsNext(ms, i, writable, canon);
      r := EmitMount(cmd, ms[i], writable, canon, opts + more);
      if r.Err? {
        FirstBadMount(ms, i, writable, canon);
        return;
      }
      ghost var o := MountOpt(ms[i], writable, canon).value;
      assert opts + more + [o] == opts + (more + [o]);
      more := more + [o];
    }
    assert ms[..|ms|] == ms;
    return Ok(());
  }

  method EmitMount(cmd: Command, m: Mount, writable: bool, canon: Canonicalize, ghost opts: seq<Opt>)
    returns (r: Result<(), BuildError>)
    requires cmd.args == RenderAll(opts)
    modifies cmd`args
    ensures match MountOpt(m, writable, canon)
            case Ok(o) => r == Ok(()) && cmd.args == RenderAll(opts + [o])
            case Err(e) => r == Err(e)
  {
    if !IsAbsolute(m.host) {
      return Err(MountHostNotAbsolute(if writable then "writable_mount" else "readonly_mount", m.host));
    }
    match canon(m.host)
    case None => return Err(CanonicalizationFailed(m.host));
    case Some(host) =>
      if writable {
        Emit(cmd, ["--bind", host, m.container], opts, Bind(host, m.container));
      } else {
        Emit(cmd, ["--ro-bind", host, m.container], opts, RoBind(host, m.container));
      }
      return Ok(());
  }

  lemma MountOptsNext(ms: seq<Mount>, i: nat, writable: bool, canon: Canonicalize)
    requires i < |ms| && MountOpts(ms[..i], writable, canon).Ok?
    ensures MountOpts(ms[..i + 1], writable, canon) ==
              (match MountOpt(ms[i], writable, canon)
               case Ok(o) => Ok(MountOpts(ms[..i], writable, canon).value + [o])
               case Err(e) => Err(e))
  {
    assert ms[..i + 1][..i] == ms[..i];
  }

  /** The first mount that is refused decides the error of the whole list. */
  lemma {:induction false} FirstBadMount(ms: seq<Mount>, i: nat, writable: bool, canon: Canonicalize)
    requires i < |ms| && MountOpts(ms[..i + 1], writable, canon).Err?
    ensures MountOpts(ms, writable, canon) == MountOpts(ms[..i + 1], writable, canon)
    decreases |ms|
  {
    if i + 1 == |ms| {
      assert ms[..i + 1] == ms;
    } else {
      assert ms[..|ms| - 1][..i + 1] == ms[..i + 1];
      FirstBadMount(ms[..|ms| - 1], i, writable, canon);
    }
  }

  /** Binds one path of the payload to itself, read-only. */
  method EmitSelfBind(cmd: Command, path: string, canon: Canonicalize, ghost opts: seq<Opt>)
    returns (r: Result<(), BuildError>)
    requires cmd.args == RenderAll(opts)
    modifies cmd`args
    ensures match SelfBind(path, canon)
            case Ok(more) => r == Ok(()) && cmd.args == RenderAll(opts + more)
            case Err(e) => r == Err(e)
  {
    match canon(path)
    case None => r := Err(CanonicalizationFailed(path));
    case Some(p) =>
      Emit(cmd, ["--ro-bind", p, p], opts, RoBind(p, p));
      r := Ok(());
  }

  method EmitPayloadBinds(cmd: Command, runtime: string, harness: string, workDir: string, canon: Canonicalize,
                          ghost opts: seq<Opt>)
    returns (r: Result<(), BuildError>)
    requires cmd.args == RenderAll(opts)
    modifies cmd`args
    ensures match PayloadBinds(runtime, harness, workDir, canon)
            case Ok(more) => r == Ok(()) && cmd.args == RenderAll(opts + more)
            case Err(e) => r == Err(e)
  {
    r := EmitSelfBind(cmd, workDir, canon, opts);
    if r.Err? { return; }
    ghost var one := SelfBind(workDir, canon).value;
    r := EmitSelfBind(cmd, harness, canon, opts + one);
    if r.Err? { return; }
    ghost var two := one + SelfBind(harness, canon).value;
    SnocAssociates(opts, one, SelfBind(harness, canon).value);
    if IsAbsolute(runtime) {
      r := EmitSelfBind(cmd, runtime, canon, opts + two);
      if r.Err? { return; }
      SnocAssociates(opts, two, SelfBind(runtime, canon).value);
    }
  }

  method EmitFlags(cmd: Command, cfg: Config, ghost opts: seq<Opt>)
    requires cmd.args == RenderAll(opts)
    modifies cmd`args
    ensures cmd.args == RenderAll(opts + Flags(cfg))
  {
    ghost var net := if cfg.allowLocalhost then [] else [UnshareNet];
    assert opts + [] == opts;
    if !cfg.allowLocalhost {
      Emit(cmd, ["--unshare-net"], opts, UnshareNet);
    }
    Emit(cmd, ["--unshare-pid"], opts + net, UnsharePid);
    Emit(cmd, ["--die-with-parent"], opts + net + [UnsharePid], DieWithParent);
    assert opts + net + [UnsharePid] + [DieWithParent] == opts + Flags(cfg);
  }

  /** Every option of the plan, or the first thing that is wrong. */
  method EmitPlan(cmd: Command, runtime: string, harness: string, workDir: string, cfg: Config, canon: Canonicalize)
    returns (r: Result<(), BuildError>)
    requires cmd.args == []
    modifies cmd`args
    ensures match Plan(runtime, harness, workDir, cfg, canon)
            case Ok(opts) => r == Ok(()) && cmd.args == RenderAll(opts)
            case Err(e) => r == Err(e)
  {
    EmitBase(cmd);
    r := EmitPayloadBinds(cmd, runtime, harness, workDir, canon, BASE);
    if r.Err? { return; }
    ghost var payload := BASE + PayloadBinds(runtime, harness, workDir, canon).value;
    r := EmitMounts(cmd, cfg.readonlyMounts, false, canon, payload);
    if r.Err? { return; }
    ghost var ro := payload + MountOpts(cfg.readonlyMounts, false, canon).value;
    r := EmitMounts(cmd, cfg.writableMounts, true, canon, ro);
    if r.Err? { return; }
    ghost var rw := ro + MountOpts(cfg.writableMounts, true, canon).value;
    EmitFlags(cmd, cfg, rw);
  }

  /** `build_bwrap_command`: the plan on a command line, then the runtime after `--`. */
  method BuildBwrapCommand(runtime: string, harness: string, workDir: string, cfg: Config, canon: Canonicalize)
    returns (r: Result<Command, BuildError>)
    ensures match Plan(runtime, harness, workDir, cfg, canon)
            case Ok(opts) =>
              && r.Ok? && fresh(r.value) && r.value.program == "bwrap"
              && r.value.args == RenderAll(opts) + ["--", runtime]
              && !r.value.clear && r.value.vars == map[]
            case Err(e) => r == Err(e)
  {
    var cmd := new Command("bwrap");
    var emitted := EmitPlan(cmd, runtime, harness, workDir, cfg, canon);
    if emitted.Err? {
      return Err(emitted.error);
    }
    cmd.Args(["--"]);
    cmd.Args([runtime]);
    r := Ok(cmd);
  }

  /** Everything `build_command` checks, in order; for this strategy the plan comes last. */
  function Checked(runtime: string, harness: string, workDir: string, cfg: Config, canon: Canonicalize)
    : Result<seq<Opt>, BuildError>
  {
    if !IsAbsolute(workDir) then Err(WorkDirNotAbsolute(workDir))
    else if harness == "" then Err(HarnessPathEmpty)
    else if !IsAbsolute(harness) then Err(HarnessPathNotAbsolute(harness))
    else
      match Env.FirstError(cfg.env.envSet)
      case Some(e) => Err(BadEnvironment(e))
      case None => Plan(runtime, harness, workDir, cfg, canon)
  }

  /** Runtime arguments, harness and work dir, after the runtime. */
  method EmitPayload(cmd: Command, runtime: string, harness: string, workDir: string, cfg: Config,
                     ghost options: seq<string>)
    requires cmd.args == options + ["--", runtime]
    modifies cmd`args
    ensures cmd.args == options + ["--"] + ([runtime] + cfg.runtimeArgs + [harness, workDir])
  {
    for i := 0 to |cfg.runtimeArgs|
      invariant cmd.args == options + ["--", runtime] + cfg.runtimeArgs[..i]
    {
      cmd.Args([cfg.runtimeArgs[i]]);
    }
    cmd.Args([harness]);
    cmd.Args([workDir]);
  }

  /**
   `build_command` for this strategy, called by a parent with `parent` as its environment.  The
   command line, read back by the option parser, is the plan and the payload, and the child's
   environment is the declarative map; a refusal is the first thing that is wrong.
   */
  method BuildCommand(runtime: string, harness: string, workDir: string, cfg: Config, canon: Canonicalize,
                      parent: seq<(string, string)>)
    returns (r: Result<Command, BuildError>)
    ensures match Checked(runtime, harness, workDir, cfg, canon)
            case Ok(opts) =>
              && r.Ok? && fresh(r.value) && r.value.program == "bwrap"
              && Parse(r.value.args) == Some(Parsed(opts, [runtime] + cfg.runtimeArgs + [harness, workDir]))
              && forall name :: r.value.ChildValue(parent, name) == Env.Wanted(parent, cfg.env, workDir, name)
            case Err(e) => r == Err(e)
  {
    if !IsAbsolute(workDir) {
      return Err(WorkDirNotAbsolute(workDir));
    }
    if harness == "" {
      return Err(HarnessPathEmpty);
    }
    if !IsAbsolute(harness) {
      return Err(HarnessPathNotAbsolute(harness));
    }
    var checked := Env.ValidateEnvironment(cfg.env.envSet);
    if checked.Err? {
      return Err(BadEnvironment(checked.error));
    }
    r := BuildBwrapCommand(runtime, harness, workDir, cfg, canon);
    if r.Ok? {
      ghost var opts := Plan(runtime, harness, workDir, cfg, canon).value;
      EmitPayload(r.value, runtime, harness, workDir, cfg, RenderAll(opts));
      ghost var payload := [runtime] + cfg.runtimeArgs + [harness, workDir];
      RenderedParses(opts, payload);
      Env.ApplyEnvironment(r.value, parent, cfg.env, workDir);
    }
  }
}
