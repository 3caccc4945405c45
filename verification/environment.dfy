/**
 The child's environment: the in-place edits that `apply_environment` makes on a command, against a
 declarative map, and the checks on the configured variables.
 */
module Environment {
  import opened CommandBuilder
  import opened Text
  import opened Wrappers
  import Utf8

  const DEFAULT_SECRET_ENV_VARS: seq<string> := [
    "AWS_ACCESS_KEY_ID", "AWS_SECRET_ACCESS_KEY", "AWS_SESSION_TOKEN", "GITHUB_TOKEN", "GH_TOKEN",
    "GITLAB_TOKEN", "NPM_TOKEN", "DATABASE_URL", "PGPASSWORD", "MYSQL_PWD", "REDIS_URL",
    "REDIS_PASSWORD", "SENTRY_DSN", "STRIPE_SECRET_KEY", "STRIPE_API_KEY", "OPENAI_API_KEY",
    "ANTHROPIC_API_KEY", "GOOGLE_API_KEY", "SLACK_TOKEN", "SLACK_BOT_TOKEN", "DISCORD_TOKEN",
    "TELEGRAM_BOT_TOKEN", "TWILIO_AUTH_TOKEN", "SENDGRID_API_KEY", "DOCKER_PASSWORD",
    "DOCKER_AUTH_CONFIG", "KUBECONFIG", "SSH_AUTH_SOCK", "GPG_PASSPHRASE", "PYPI_TOKEN",
    "CARGO_REGISTRY_TOKEN", "NUGET_API_KEY", "HEROKU_API_KEY", "DIGITALOCEAN_TOKEN", "VAULT_TOKEN",
    "CONSUL_TOKEN"]

  const DEFAULT_SECRET_ENV_PREFIXES: seq<string> := ["AWS_", "GCP_", "AZURE_"]

  const MAX_ENV_VALUE_BYTES: nat := 32 * 1024

  datatype EnvMode = Allowlist | StripSecrets | Blocklist

  /** The part of the configuration that shapes the environment. */
  datatype Config = Config(
    envMode: EnvMode,
    envPassthrough: set<string>,
    envSet: seq<(string, string)>,
    envStrip: set<string>,
    envStripSecrets: bool,
    maxMemoryBytes: nat,
    maxCpuSeconds: nat,
    maxFds: nat,
    maxProcesses: nat)

  type Env = map<string, string>

  // ---------------------------------------------------------------------------
  // Secrets
  // ---------------------------------------------------------------------------

  predicate IsSecret(cfg: Config, name: string) {
    || name in cfg.envStrip
    || (cfg.envStripSecrets &&
        (name in DEFAULT_SECRET_ENV_VARS
         || exists prefix :: prefix in DEFAULT_SECRET_ENV_PREFIXES && StartsWith(name, prefix)))
  }

  /** The listed names, the defaults among them; every secret name is one or has a secret prefix. */
  method StrippedEnvVars(cfg: Config) returns (stripped: set<string>)
    ensures stripped == cfg.envStrip + if cfg.envStripSecrets then set v | v in DEFAULT_SECRET_ENV_VARS else {}
    ensures forall name :: name in stripped ==> IsSecret(cfg, name)
    ensures forall name :: IsSecret(cfg, name) ==>
              || name in stripped
              || (cfg.envStripSecrets
                  && exists prefix :: prefix in DEFAULT_SECRET_ENV_PREFIXES && StartsWith(name, prefix))
  {
    stripped := cfg.envStrip;
    if cfg.envStripSecrets {
      for i := 0 to |DEFAULT_SECRET_ENV_VARS|
        invariant stripped == cfg.envStrip + set k | 0 <= k < i :: DEFAULT_SECRET_ENV_VARS[k]
      {
        stripped := stripped + {DEFAULT_SECRET_ENV_VARS[i]};
      }
      assert forall name :: name in DEFAULT_SECRET_ENV_VARS ==> name in stripped;
    }
  }

  // ---------------------------------------------------------------------------
  // The declarative map
  // ---------------------------------------------------------------------------

  const SANTH: set<string> :=
    {"SANTH_MAX_MEMORY", "SANTH_MAX_CPU", "SANTH_MAX_FDS", "SANTH_MAX_PROCESSES", "SANTH_WORK_DIR"}

  /** The control variables of the sandbox. */
  function Control(cfg: Config, workDir: string): seq<(string, string)> {
    [("SANTH_MAX_MEMORY", Decimal(cfg.maxMemoryBytes)),
     ("SANTH_MAX_CPU", Decimal(cfg.maxCpuSeconds)),
     ("SANTH_MAX_FDS", Decimal(cfg.maxFds)),
     ("SANTH_MAX_PROCESSES", Decimal(cfg.maxProcesses)),
     ("SANTH_WORK_DIR", workDir)]
  }

  /** Whether a variable of the parent is kept. */
  predicate Inherits(cfg: Config, name: string) {
    !IsSecret(cfg, name) && (cfg.envMode.Allowlist? ==> name in cfg.envPassthrough)
  }

  /** What `name` is to be in the child: control variables over configured over inherited ones. */
  function Wanted(parent: seq<(string, string)>, cfg: Config, workDir: string, name: string): Option<string> {
    if LastValue(Control(cfg, workDir), name).Some? then LastValue(Control(cfg, workDir), name)
    else if IsSecret(cfg, name) then None
    else if LastValue(cfg.envSet, name).Some? then LastValue(cfg.envSet, name)
    else if Inherits(cfg, name) then LastValue(parent, name)
    else None
  }

  lemma LastValueOfPrefix(pairs: seq<(string, string)>, i: nat, name: string)
    requires i < |pairs|
    ensures LastValue(pairs[..i + 1], name) ==
              if pairs[i].0 == name then Some(pairs[i].1) else LastValue(pairs[..i], name)
  {
    assert pairs[..i + 1][..i] == pairs[..i];
  }

  /** Step 1: what the parent's environment leaves. */
  method ApplyBase(cmd: Command, parent: seq<(string, string)>, cfg: Config)
    requires !cmd.clear && cmd.vars == map[]
    modifies cmd`clear, cmd`vars
    ensures forall name :: cmd.ChildValue(parent, name) ==
                           if Inherits(cfg, name) then LastValue(parent, name) else None
  {
    match cfg.envMode
    case Allowlist =>
      cmd.EnvClear();
      for i := 0 to |parent|
        invariant cmd.clear
        invariant forall name :: cmd.ChildValue(parent, name) ==
                                 if Inherits(cfg, name) then LastValue(parent[..i], name) else None
      {
        var (key, value) := parent[i];
        forall name {
          LastValueOfPrefix(parent, i, name);
        }
        if key in cfg.envPassthrough && !IsSecret(cfg, key) {
          cmd.Env(key, value);
        }
      }
      assert parent[..|parent|] == parent;
    case _ =>
      for i := 0 to |parent|
        invariant !cmd.clear
        invariant forall name :: name in cmd.vars ==> cmd.vars[name] == None && IsSecret(cfg, name)
        invariant forall name :: IsSecret(cfg, name) && LastValue(parent[..i], name).Some? ==> name in cmd.vars
      {
        var (key, _) := parent[i];
        forall name {
          LastValueOfPrefix(parent, i, name);
        }
        if IsSecret(cfg, key) {
          cmd.EnvRemove(key);
        }
      }
      assert parent[..|parent|] == parent;
  }

  /** What is left to do after the base and the first configured pairs. */
  ghost predicate HasConfigured(cmd: Command, parent: seq<(string, string)>, cfg: Config, done: nat)
    requires done <= |cfg.envSet|
    reads cmd
  {
    forall name :: cmd.ChildValue(parent, name) ==
                   if IsSecret(cfg, name) then None
                   else if LastValue(cfg.envSet[..done], name).Some? then LastValue(cfg.envSet[..done], name)
                   else if Inherits(cfg, name) then LastValue(parent, name)
                   else None
  }

  /** Step 2: the configured pairs, except those with a secret name. */
  method ApplyConfigured(cmd: Command, parent: seq<(string, string)>, cfg: Config)
    requires HasConfigured(cmd, parent, cfg, 0)
    modifies cmd`vars
    ensures HasConfigured(cmd, parent, cfg, |cfg.envSet|)
  {
    for i := 0 to |cfg.envSet|
      invariant HasConfigured(cmd, parent, cfg, i)
    {
      var (key, value) := cfg.envSet[i];
      forall name {
        LastValueOfPrefix(cfg.envSet, i, name);
      }
      if IsSecret(cfg, key) {
        continue;
      }
      cmd.Env(key, value);
    }
  }

  /** `after` is `before` with every name that has a value in `pairs` given that value. */
  ghost predicate Overlays(before: map<string, Option<string>>, pairs: seq<(string, string)>,
                           after: map<string, Option<string>>)
  {
    forall name :: if LastValue(pairs, name).Some? then name in after && after[name] == LastValue(pairs, name)
                   else (name in before <==> name in after) && (name in after ==> after[name] == before[name])
  }

  lemma OverlayOne(before: map<string, Option<string>>, pairs: seq<(string, string)>, i: nat,
                   after: map<string, Option<string>>)
    requires i < |pairs| && Overlays(before, pairs[..i], after)
    ensures Overlays(before, pairs[..i + 1], after[pairs[i].0 := Some(pairs[i].1)])
  {
    forall name {
      LastValueOfPrefix(pairs, i, name);
    }
  }

  method SetControl(cmd: Command, name: string, value: string, ghost before: map<string, Option<string>>,
                    ghost pairs: seq<(string, string)>, ghost i: nat)
    requires i < |pairs| && pairs[i] == (name, value) && Overlays(before, pairs[..i], cmd.vars)
    modifies cmd`vars
    ensures Overlays(before, pairs[..i + 1], cmd.vars)
  {
    OverlayOne(before, pairs, i, cmd.vars);
    cmd.Env(name, value);
  }

  /** Step 3: the control variables, after everything else. */
  method ApplyControl(cmd: Command, cfg: Config, workDir: string)
    modifies cmd`vars
    ensures Overlays(old(cmd.vars), Control(cfg, workDir), cmd.vars)
  {
    ghost var pairs, before := Control(cfg, workDir), cmd.vars;
    SetControl(cmd, "SANTH_MAX_MEMORY", Decimal(cfg.maxMemoryBytes), before, pairs, 0);
    SetControl(cmd, "SANTH_MAX_CPU", Decimal(cfg.maxCpuSeconds), before, pairs, 1);
    SetControl(cmd, "SANTH_MAX_FDS", Decimal(cfg.maxFds), before, pairs, 2);
    SetControl(cmd, "SANTH_MAX_PROCESSES", Decimal(cfg.maxProcesses), before, pairs, 3);
    SetControl(cmd, "SANTH_WORK_DIR", workDir, before, pairs, 4);
    assert pairs[..5] == pairs;
  }

  /** The in-place edits give exactly the declarative map. */
  method ApplyEnvironment(cmd: Command, parent: seq<(string, string)>, cfg: Config, workDir: string)
    requires !cmd.clear && cmd.vars == map[]
    modifies cmd`clear, cmd`vars
    ensures forall name :: cmd.ChildValue(parent, name) == Wanted(parent, cfg, workDir, name)
  {
    ApplyBase(cmd, parent, cfg);
    ApplyConfigured(cmd, parent, cfg);
    assert cfg.envSet[..|cfg.envSet|] == cfg.envSet;
    ApplyControl(cmd, cfg, workDir);
  }

  // ---------------------------------------------------------------------------
  // Relations between environments, over all inputs
  // ---------------------------------------------------------------------------

  /** The child's environment as a map. */
  ghost function ChildEnv(parent: seq<(string, string)>, cfg: Config, workDir: string): (env: Env)
    ensures forall name :: if name in env then Wanted(parent, cfg, workDir, name) == Some(env[name])
                           else Wanted(parent, cfg, workDir, name) == None
  {
    var names := SANTH + (set pair | pair in cfg.envSet :: pair.0) + (set pair | pair in parent :: pair.0);
    forall name | Wanted(parent, cfg, workDir, name).Some? ensures name in names {
      ControlNames(cfg, workDir, name);
      LastValueIsListed(cfg.envSet, name);
      LastValueIsListed(parent, name);
    }
    map name | name in names && Wanted(parent, cfg, workDir, name).Some? ::
      Wanted(parent, cfg, workDir, name).value
  }

  lemma {:induction false} LastValueIsListed(pairs: seq<(string, string)>, name: string)
    ensures LastValue(pairs, name).Some? ==> exists pair :: pair in pairs && pair.0 == name
    decreases |pairs|
  {
    if pairs != [] {
      var last := pairs[|pairs| - 1];
      assert last in pairs;
      LastValueIsListed(pairs[..|pairs| - 1], name);
    }
  }

  /** No secret name appears in the child, except a control variable that is called so. */
  lemma NoSecretAppears(parent: seq<(string, string)>, cfg: Config, workDir: string)
    ensures forall name :: name in ChildEnv(parent, cfg, workDir) && IsSecret(cfg, name) ==> name in SANTH
  {
    var env := ChildEnv(parent, cfg, workDir);
    forall name | name in env && IsSecret(cfg, name) ensures name in SANTH {
      assert Wanted(parent, cfg, workDir, name) == Some(env[name]);
      ControlNames(cfg, workDir, name);
    }
  }

  lemma ControlNames(cfg: Config, workDir: string, name: string)
    ensures LastValue(Control(cfg, workDir), name).Some? <==> name in SANTH
  {
    var pairs := Control(cfg, workDir);
    assert pairs[..5] == pairs && pairs[..0] == [];
    LastValueOfPrefix(pairs, 4, name);
    LastValueOfPrefix(pairs, 3, name);
    LastValueOfPrefix(pairs, 2, name);
    LastValueOfPrefix(pairs, 1, name);
    LastValueOfPrefix(pairs, 0, name);
  }

  lemma SameMode(parent: seq<(string, string)>, cfg: Config, workDir: string, name: string)
    ensures Wanted(parent, cfg.(envMode := StripSecrets), workDir, name) ==
            Wanted(parent, cfg.(envMode := Blocklist), workDir, name)
    ensures Wanted(parent, cfg.(envMode := Allowlist), workDir, name).Some? ==>
              Wanted(parent, cfg.(envMode := Allowlist), workDir, name) ==
              Wanted(parent, cfg.(envMode := StripSecrets), workDir, name)
  {
  }

  /** Two modes are the same; the third passes on no more than they do. */
  lemma ModesCompare(parent: seq<(string, string)>, cfg: Config, workDir: string)
    ensures var strip := ChildEnv(parent, cfg.(envMode := StripSecrets), workDir);
            && strip == ChildEnv(parent, cfg.(envMode := Blocklist), workDir)
            && ChildEnv(parent, cfg.(envMode := Allowlist), workDir).Items <= strip.Items
  {
    var strip := ChildEnv(parent, cfg.(envMode := StripSecrets), workDir);
    var block := ChildEnv(parent, cfg.(envMode := Blocklist), workDir);
    var allow := ChildEnv(parent, cfg.(envMode := Allowlist), workDir);
    forall name
      ensures name in strip <==> name in block
      ensures name in strip ==> strip[name] == block[name]
      ensures name in allow ==> name in strip && allow[name] == strip[name]
    {
      SameMode(parent, cfg, workDir, name);
    }
    forall item | item in allow.Items ensures item in strip.Items {
      assert item.0 in allow && allow[item.0] == item.1;
    }
  }

  lemma StripOne(parent: seq<(string, string)>, cfg: Config, workDir: string, more: set<string>, name: string)
    ensures Wanted(parent, cfg.(envStrip := cfg.envStrip + more), workDir, name) ==
              if name in more - SANTH then None else Wanted(parent, cfg, workDir, name)
  {
    ControlNames(cfg, workDir, name);
  }

  /** Stripping more names removes exactly those, never a control variable, and nothing else. */
  lemma StrippingMoreRemovesExactlyThat(parent: seq<(string, string)>, cfg: Config, workDir: string,
                                        more: set<string>)
    ensures ChildEnv(parent, cfg.(envStrip := cfg.envStrip + more), workDir) ==
            ChildEnv(parent, cfg, workDir) - (more - SANTH)
  {
    var before := ChildEnv(parent, cfg, workDir);
    var after := ChildEnv(parent, cfg.(envStrip := cfg.envStrip + more), workDir);
    forall name
      ensures name in after <==> name in before && name !in more - SANTH
      ensures name in after ==> after[name] == before[name]
    {
      StripOne(parent, cfg, workDir, more, name);
    }
  }

  // ---------------------------------------------------------------------------
  // Validation
  // ---------------------------------------------------------------------------

  datatype EnvError =
    | EmptyEnvName
    | InvalidEnvName(name: string)
    | EnvValueContainsNul(key: string)
    | EnvValueTooLarge(key: string, maxBytes: nat)

  /** The first check that an entry fails. */
  function EntryError(key: string, value: string): Option<EnvError> {
    if key == "" then Some(EmptyEnvName)
    else if '=' in key || '\0' in key || exists c :: c in key && IsWhitespace(c) then Some(InvalidEnvName(key))
    else if '\0' in value then Some(EnvValueContainsNul(key))
    else if |Utf8.Encode(value)| > MAX_ENV_VALUE_BYTES then Some(EnvValueTooLarge(key, MAX_ENV_VALUE_BYTES))
    else None
  }

  /** The first failing check of the first offending entry. */
  function FirstError(envSet: seq<(string, string)>): Option<EnvError> {
    if envSet == [] then None
    else if EntryError(envSet[0].0, envSet[0].1).Some? then EntryError(envSet[0].0, envSet[0].1)
    else FirstError(envSet[1..])
  }

  /** Accepts exactly the lists without an offending entry; else reports the first. */
  method ValidateEnvironment(envSet: seq<(string, string)>) returns (r: Result<(), EnvError>)
    ensures r.Ok? <==> forall i :: 0 <= i < |envSet| ==> EntryError(envSet[i].0, envSet[i].1) == None
    ensures r.Err? ==> exists i :: 0 <= i < |envSet| && EntryError(envSet[i].0, envSet[i].1) == Some(r.error)
                                   && forall j :: 0 <= j < i ==> EntryError(envSet[j].0, envSet[j].1) == None
    ensures r == match FirstError(envSet) case None => Ok(()) case Some(e) => Err(e)
  {
    for i := 0 to |envSet|
      invariant forall j :: 0 <= j < i ==> EntryError(envSet[j].0, envSet[j].1) == None
      invariant FirstError(envSet) == FirstError(envSet[i..])
    {
      var (key, value) := envSet[i];
      assert envSet[i..][0] == envSet[i] && envSet[i..][1..] == envSet[i + 1..];
      if key == "" {
        return Err(EmptyEnvName);
      }
      if '=' in key || '\0' in key || exists c :: c in key && IsWhitespace(c) {
        return Err(InvalidEnvName(key));
      }
      if '\0' in value {
        return Err(EnvValueContainsNul(key));
      }
      if |Utf8.Encode(value)| > MAX_ENV_VALUE_BYTES {
        return Err(EnvValueTooLarge(key, MAX_ENV_VALUE_BYTES));
      }
    }
    return Ok(());
  }

  // ---------------------------------------------------------------------------
  // The environment block
  // ---------------------------------------------------------------------------

  /** Each pair as `name=value` and a NUL. */
  function Encode(pairs: seq<(string, string)>): string {
    if pairs == [] then []
    else pairs[0].0 + "=" + pairs[0].1 + "\0" + Encode(pairs[1..])
  }

  /** The first entry, split at its first `=`, and what follows its NUL. */
  function DecodeOne(block: string): (r: Option<((string, string), string)>)
    ensures r.Some? ==> |r.value.1| < |block|
  {
    var n := IndexOf(block, '\0');
    var e := IndexOf(block, '=');
    if n == |block| || e > n then None else Some(((block[..e], block[e + 1..n]), block[n + 1..]))
  }

  /** Split at each NUL, and each entry at its first `=`. */
  function Decode(block: string): Option<seq<(string, string)>>
    decreases |block|
  {
    if block == [] then Some([])
    else
      var first := DecodeOne(block);
      if first.None? then None
      else
        var rest := Decode(first.value.1);
        if rest.None? then None else Some([first.value.0] + rest.value)
  }

  predicate IsClean(pair: (string, string)) {
    '=' !in pair.0 && '\0' !in pair.0 && '\0' !in pair.1
  }

  lemma {:induction false} IndexAfter(s: string, c: char, rest: string)
    requires c !in s
    ensures IndexOf(s + [c] + rest, c) == |s|
    decreases |s|
  {
    var t := s + [c] + rest;
    if s != [] {
      assert t[1..] == s[1..] + [c] + rest;
      assert t[0] == s[0] && s[0] in s;
      IndexAfter(s[1..], c, rest);
    }
  }

  lemma CleanPairDecodes(name: string, value: string, rest: string)
    requires IsClean((name, value))
    ensures DecodeOne(name + "=" + value + "\0" + rest) == Some(((name, value), rest))
  {
    var entry := name + "=" + value;
    var block := entry + ['\0'] + rest;
    assert '\0' !in entry;
    IndexAfter(entry, '\0', rest);
    assert block == name + ['='] + (value + ['\0'] + rest);
    IndexAfter(name, '=', value + ['\0'] + rest);
    BlockParts(name, value, rest);
  }

  lemma BlockParts(name: string, value: string, rest: string)
    ensures var n := |name| + 1 + |value|;
            var block := name + "=" + value + "\0" + rest;
            block[..|name|] == name && block[|name| + 1..n] == value && block[n + 1..] == rest
  {
  }

  lemma DecodesOneMore(block: string, first: (string, string), rest: string, tail: seq<(string, string)>)
    requires block != [] && DecodeOne(block) == Some((first, rest)) && Decode(rest) == Some(tail)
    ensures Decode(block) == Some([first] + tail)
  {
  }

  lemma {:induction false} CleanDecodes(pairs: seq<(string, string)>)
    requires forall pair :: pair in pairs ==> IsClean(pair)
    ensures Decode(Encode(pairs)) == Some(pairs)
    decreases |pairs|
  {
    if pairs != [] {
      var first, tail := pairs[0], pairs[1..];
      CleanDecodes(tail);
      CleanPairDecodes(first.0, first.1, Encode(tail));
      DecodesOneMore(first.0 + "=" + first.1 + "\0" + Encode(tail), first, Encode(tail), tail);
      assert pairs == [first] + tail;
    }
  }

  lemma {:induction false} DecodedIsClean(block: string)
    ensures Decode(block).Some? ==> forall pair :: pair in Decode(block).value ==> IsClean(pair)
    decreases |block|
  {
    if block != [] && Decode(block).Some? {
      DecodedIsClean(DecodeOne(block).value.1);
    }
  }

  /** A list is recovered from its block exactly when no name has a `=` or NUL and no value a NUL. */
  lemma BlockRoundTrip(pairs: seq<(string, string)>)
    ensures Decode(Encode(pairs)) == Some(pairs) <==> forall pair :: pair in pairs ==> IsClean(pair)
  {
    if forall pair :: pair in pairs ==> IsClean(pair) {
      CleanDecodes(pairs);
    } else {
      DecodedIsClean(Encode(pairs));
    }
  }

  /** So every list that validation accepts is recovered. */
  lemma AcceptedListIsRecovered(pairs: seq<(string, string)>)
    requires forall i :: 0 <= i < |pairs| ==> EntryError(pairs[i].0, pairs[i].1) == None
    ensures Decode(Encode(pairs)) == Some(pairs)
  {
    CleanDecodes(pairs);
  }
}
