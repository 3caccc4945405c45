/** The child's environment entry by entry, in terms of the configuration and the two lists alone. */
module EnvironmentLaws {
  import opened CommandBuilder
  import opened Environment
  import opened Text
  import opened Wrappers
  import Utf8

  /** The last pair with this name stands at `i`. */
  predicate LastAt(pairs: seq<(string, string)>, i: nat, name: string) {
    i < |pairs| && pairs[i].0 == name && forall j :: i < j < |pairs| ==> pairs[j].0 != name
  }

  predicate IsNamed(pairs: seq<(string, string)>, name: string) {
    exists i :: 0 <= i < |pairs| && pairs[i].0 == name
  }

  lemma {:induction false} LastValueIs(pairs: seq<(string, string)>, i: nat, name: string)
    requires LastAt(pairs, i, name)
    ensures LastValue(pairs, name) == Some(pairs[i].1)
    decreases |pairs|
  {
    var n := |pairs| - 1;
    if i < n {
      assert forall j :: 0 <= j < n ==> pairs[..n][j] == pairs[j];
      LastValueIs(pairs[..n], i, name);
    }
  }

  lemma {:induction false} UnnamedHasNoValue(pairs: seq<(string, string)>, name: string)
    requires !IsNamed(pairs, name)
    ensures LastValue(pairs, name) == None
    decreases |pairs|
  {
    if pairs != [] {
      var n := |pairs| - 1;
      assert forall j :: 0 <= j < n ==> pairs[..n][j] == pairs[j];
      UnnamedHasNoValue(pairs[..n], name);
    }
  }

  /** The names that are kept from the child: configured, or one of the defaults, or with one of three prefixes. */
  predicate IsKeptFromChild(cfg: Config, name: string) {
    || name in cfg.envStrip
    || (cfg.envStripSecrets
        && (name in DEFAULT_SECRET_ENV_VARS || "AWS_" <= name || "GCP_" <= name || "AZURE_" <= name))
  }

  predicate IsControl(name: string) {
    name in ["SANTH_MAX_MEMORY", "SANTH_MAX_CPU", "SANTH_MAX_FDS", "SANTH_MAX_PROCESSES", "SANTH_WORK_DIR"]
  }

  lemma KeptFromChild(cfg: Config, name: string)
    ensures IsKeptFromChild(cfg, name) <==> IsSecret(cfg, name)
  {
    var prefixes := DEFAULT_SECRET_ENV_PREFIXES;
    assert "AWS_" in prefixes && "GCP_" in prefixes && "AZURE_" in prefixes;
    if IsKeptFromChild(cfg, name) {
      assert "AWS_" <= name ==> StartsWith(name, "AWS_");
      assert "GCP_" <= name ==> StartsWith(name, "GCP_");
      assert "AZURE_" <= name ==> StartsWith(name, "AZURE_");
    }
  }

  /** Each control variable is there, with the limit it is named after. */
  lemma ControlVariablesAreSet(parent: seq<(string, string)>, cfg: Config, workDir: string)
    ensures var env := ChildEnv(parent, cfg, workDir);
            && "SANTH_MAX_MEMORY" in env && env["SANTH_MAX_MEMORY"] == Decimal(cfg.maxMemoryBytes)
            && "SANTH_MAX_CPU" in env && env["SANTH_MAX_CPU"] == Decimal(cfg.maxCpuSeconds)
            && "SANTH_MAX_FDS" in env && env["SANTH_MAX_FDS"] == Decimal(cfg.maxFds)
            && "SANTH_MAX_PROCESSES" in env && env["SANTH_MAX_PROCESSES"] == Decimal(cfg.maxProcesses)
            && "SANTH_WORK_DIR" in env && env["SANTH_WORK_DIR"] == workDir
  {
    var pairs := Control(cfg, workDir);
    LastValueIs(pairs, 0, "SANTH_MAX_MEMORY");
    LastValueIs(pairs, 1, "SANTH_MAX_CPU");
    LastValueIs(pairs, 2, "SANTH_MAX_FDS");
    LastValueIs(pairs, 3, "SANTH_MAX_PROCESSES");
    LastValueIs(pairs, 4, "SANTH_WORK_DIR");
  }

  lemma ControlIsNothingElse(cfg: Config, workDir: string, name: string)
    requires !IsControl(name)
    ensures LastValue(Control(cfg, workDir), name) == None
  {
    UnnamedHasNoValue(Control(cfg, workDir), name);
  }

  /** A name that is kept from the child is not there, wherever it came from. */
  lemma KeptNameIsAbsent(parent: seq<(string, string)>, cfg: Config, workDir: string, name: string)
    requires IsKeptFromChild(cfg, name) && !IsControl(name)
    ensures name !in ChildEnv(parent, cfg, workDir)
  {
    KeptFromChild(cfg, name);
    ControlIsNothingElse(cfg, workDir, name);
    assert Wanted(parent, cfg, workDir, name) == None;
  }

  /** The last value that the configuration sets is there, whatever the parent has. */
  lemma LastConfiguredValueWins(parent: seq<(string, string)>, cfg: Config, workDir: string, i: nat, name: string)
    requires LastAt(cfg.envSet, i, name) && !IsKeptFromChild(cfg, name) && !IsControl(name)
    ensures var env := ChildEnv(parent, cfg, workDir); name in env && env[name] == cfg.envSet[i].1
  {
    KeptFromChild(cfg, name);
    ControlIsNothingElse(cfg, workDir, name);
    LastValueIs(cfg.envSet, i, name);
    assert Wanted(parent, cfg, workDir, name) == Some(cfg.envSet[i].1);
  }

  /**
   A name that nothing else touches has the parent's value, unless the mode is Allowlist and the name is
   not listed; then it is not there.
   */
  lemma ParentValueIsInherited(parent: seq<(string, string)>, cfg: Config, workDir: string, i: nat, name: string)
    requires LastAt(parent, i, name) && !IsNamed(cfg.envSet, name)
    requires !IsKeptFromChild(cfg, name) && !IsControl(name)
    ensures var env := ChildEnv(parent, cfg, workDir);
            if cfg.envMode.Allowlist? && name !in cfg.envPassthrough then name !in env
            else name in env && env[name] == parent[i].1
  {
    KeptFromChild(cfg, name);
    ControlIsNothingElse(cfg, workDir, name);
    LastValueIs(parent, i, name);
    UnnamedHasNoValue(cfg.envSet, name);
    var env := ChildEnv(parent, cfg, workDir);
    assert if name in env then Wanted(parent, cfg, workDir, name) == Some(env[name])
           else Wanted(parent, cfg, workDir, name) == None;
  }

  /** In Allowlist mode nothing is there but control variables, configured ones and listed ones of the parent. */
  lemma AllowlistAdmitsNothingElse(parent: seq<(string, string)>, cfg: Config, workDir: string, name: string)
    requires cfg.envMode.Allowlist?
    ensures name in ChildEnv(parent, cfg, workDir) ==>
              IsControl(name) || IsNamed(cfg.envSet, name) || (name in cfg.envPassthrough && IsNamed(parent, name))
  {
    NothingIsInvented(parent, cfg, workDir, name);
    if !IsControl(name) && !IsNamed(cfg.envSet, name) && name !in cfg.envPassthrough {
      ControlIsNothingElse(cfg, workDir, name);
      UnnamedHasNoValue(cfg.envSet, name);
      assert Wanted(parent, cfg, workDir, name) == None;
    }
  }

  /** In every mode the child has nothing that none of the three brings in. */
  lemma NothingIsInvented(parent: seq<(string, string)>, cfg: Config, workDir: string, name: string)
    ensures name in ChildEnv(parent, cfg, workDir) ==>
              IsControl(name) || IsNamed(cfg.envSet, name) || IsNamed(parent, name)
  {
    if !IsControl(name) && !IsNamed(cfg.envSet, name) && !IsNamed(parent, name) {
      ControlIsNothingElse(cfg, workDir, name);
      UnnamedHasNoValue(cfg.envSet, name);
      UnnamedHasNoValue(parent, name);
      assert Wanted(parent, cfg, workDir, name) == None;
    }
  }

  // ---------------------------------------------------------------------------
  // What validation accepts
  // ---------------------------------------------------------------------------

  predicate IsAcceptableName(name: string) {
    name != "" && forall i :: 0 <= i < |name| ==> name[i] != '=' && name[i] != '\0' && !IsWhitespace(name[i])
  }

  predicate IsAcceptableValue(value: string) {
    '\0' !in value && |Utf8.Encode(value)| <= 32768
  }

  /** An entry passes exactly if both parts are acceptable; the name is blamed before the value, NUL before size. */
  lemma EntryPassesExactly(name: string, value: string)
    ensures EntryError(name, value) == None <==> IsAcceptableName(name) && IsAcceptableValue(value)
    ensures EntryError(name, value) == Some(EmptyEnvName) <==> name == ""
    ensures EntryError(name, value) == Some(InvalidEnvName(name)) <==> name != "" && !IsAcceptableName(name)
    ensures EntryError(name, value) == Some(EnvValueContainsNul(name)) <==>
              IsAcceptableName(name) && '\0' in value
    ensures EntryError(name, value) == Some(EnvValueTooLarge(name, 32768)) <==>
              IsAcceptableName(name) && '\0' !in value && |Utf8.Encode(value)| > 32768
  {
    assert MAX_ENV_VALUE_BYTES == 32768;
  }

  /** An accepted list has acceptable entries only. */
  lemma {:induction false} AcceptedListIsAcceptable(pairs: seq<(string, string)>)
    requires FirstError(pairs) == None
    ensures forall i :: 0 <= i < |pairs| ==> IsAcceptableName(pairs[i].0) && IsAcceptableValue(pairs[i].1)
    decreases |pairs|
  {
    if pairs != [] {
      EntryPassesExactly(pairs[0].0, pairs[0].1);
      AcceptedListIsAcceptable(pairs[1..]);
      assert forall i :: 0 < i < |pairs| ==> pairs[i] == pairs[1..][i - 1];
    }
  }
}
