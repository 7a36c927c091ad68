/**
 * The debug-flag configuration of hyperdiv: a boolean environment-variable
 * parser, the seven flags derived from it when the module is loaded, and the
 * logger levels chosen from those flags. The process environment is passed
 * in as a map from variable names to values.
 */
module Debug {
  import opened Wrappers
  import opened Ascii
  import opened Logging

  type Env = map<string, string>

  // ---------------------------------------------------------------------
  // get_bool_env_var
  // ---------------------------------------------------------------------

  /** A value read as False: after lower-casing, "0" or "false". */
  predicate IsFalseWord(s: string) {
    Lower(s) == "0" || Lower(s) == "false"
  }

  /** A value read as True: after lower-casing, "1" or "true". */
  predicate IsTrueWord(s: string) {
    Lower(s) == "1" || Lower(s) == "true"
  }

  predicate IsBoolWord(s: string) {
    IsFalseWord(s) || IsTrueWord(s)
  }

  /** What one call returns, and whether it logged the "Invalid value" warning. */
  datatype EnvRead = EnvRead(value: Option<bool>, warned: bool)

  /**
   * `get_bool_env_var(name, default)`: an absent variable gives `default`;
   * a recognised spelling gives its boolean whatever `default` is; any other
   * value is reported with a warning and gives `default`.
   */
  function GetBoolEnvVar(env: Env, name: string, default: Option<bool>): (r: EnvRead)
    ensures name !in env ==> r == EnvRead(default, false)
    ensures name in env && IsFalseWord(env[name]) ==> r == EnvRead(Some(false), false)
    ensures name in env && IsTrueWord(env[name]) ==> r == EnvRead(Some(true), false)
    ensures r.warned <==> name in env && !IsBoolWord(env[name])
    ensures r.warned ==> r.value == default
    ensures default.Some? ==> r.value.Some?
  {
    if name !in env then
      EnvRead(default, false)
    else
      var val := env[name];
      if Lower(val) in ["0", "false"] then
        EnvRead(Some(false), false)
      else if Lower(val) in ["1", "true"] then
        EnvRead(Some(true), false)
      else
        EnvRead(default, true)
  }

  /** The values read as False are exactly "0" and the case variants of "false". */
  lemma FalseSpellings(v: string)
    ensures IsFalseWord(v) <==> v == "0" || CaseVariant(v, "false")
  {
    LowerIsCaseVariant(v, "0");
    LowerIsCaseVariant(v, "false");
    DigitHasNoVariant(v, '0');
  }

  /** The values read as True are exactly "1" and the case variants of "true". */
  lemma TrueSpellings(v: string)
    ensures IsTrueWord(v) <==> v == "1" || CaseVariant(v, "true")
  {
    LowerIsCaseVariant(v, "1");
    LowerIsCaseVariant(v, "true");
    DigitHasNoVariant(v, '1');
  }

  /** A one-digit word has itself as its only case variant. */
  lemma DigitHasNoVariant(v: string, d: char)
    requires '0' <= d <= '9'
    ensures CaseVariant(v, [d]) <==> v == [d]
  {
    if CaseVariant(v, [d]) {
      assert v[0] == d;
    }
  }

  /** Upper- and mixed-case spellings are accepted, whatever the default. */
  lemma MixedCaseAccepted(name: string, default: Option<bool>)
    ensures GetBoolEnvVar(map[name := "FALSE"], name, default) == EnvRead(Some(false), false)
    ensures GetBoolEnvVar(map[name := "False"], name, default) == EnvRead(Some(false), false)
    ensures GetBoolEnvVar(map[name := "TRUE"], name, default) == EnvRead(Some(true), false)
    ensures GetBoolEnvVar(map[name := "True"], name, default) == EnvRead(Some(true), false)
  {
    FalseSpellings("FALSE");
    FalseSpellings("False");
    TrueSpellings("TRUE");
    TrueSpellings("True");
  }

  /** The empty string, "yes" and " true" are rejected: they give the default and warn. */
  lemma OtherValuesRejected(name: string, default: Option<bool>)
    ensures GetBoolEnvVar(map[name := ""], name, default) == EnvRead(default, true)
    ensures GetBoolEnvVar(map[name := "yes"], name, default) == EnvRead(default, true)
    ensures GetBoolEnvVar(map[name := " true"], name, default) == EnvRead(default, true)
  {
    FalseSpellings("");
    TrueSpellings("");
    FalseSpellings("yes");
    TrueSpellings("yes");
    FalseSpellings(" true");
    TrueSpellings(" true");
  }

  // ---------------------------------------------------------------------
  // The derived flag table
  // ---------------------------------------------------------------------

  const PRODUCTION_LOCAL_VAR: string := "HD_PRODUCTION_LOCAL"
  const PRODUCTION_VAR: string := "HD_PRODUCTION"
  const DEBUG_VAR: string := "HD_DEBUG"
  const PROFILE_RENDER_VAR: string := "HD_PROFILE_RENDER"
  const PROFILE_DIFF_VAR: string := "HD_PROFILE_DIFF"
  const PROFILE_RUN_VAR: string := "HD_PROFILE_RUN"
  const PRINT_OUTPUT_VAR: string := "HD_PRINT_OUTPUT"

  /** The four flags that only take effect in debug mode. */
  const DEBUG_ONLY_VARS: seq<string> :=
    [PROFILE_RENDER_VAR, PROFILE_DIFF_VAR, PROFILE_RUN_VAR, PRINT_OUTPUT_VAR]

  datatype Flags = Flags(
    productionLocal: bool,
    production: bool,
    debug: bool,
    profileRender: bool,
    profileDiff: bool,
    profileRun: bool,
    printOutput: bool)

  /** The flags and, in order, the variables whose values were reported as invalid. */
  datatype Config = Config(flags: Flags, warnings: seq<string>)

  /** The gating the flag table guarantees. */
  predicate Consistent(f: Flags) {
    && (f.productionLocal ==> f.production)
    && (f.production ==> !f.debug)
    && (!f.debug ==> !f.profileRender && !f.profileDiff && !f.profileRun && !f.printOutput)
  }

  /** The variable is present and spells True. */
  predicate IsSet(env: Env, name: string) {
    name in env && IsTrueWord(env[name])
  }

  /** The variable is present and is not a recognised spelling. */
  predicate IsInvalid(env: Env, name: string) {
    name in env && !IsBoolWord(env[name])
  }

  /** One module-level read, `get_bool_env_var(name, False)`, and the warning it may log. */
  datatype FlagRead = FlagRead(flag: bool, warnings: seq<string>)

  function ReadFlag(env: Env, name: string): (s: FlagRead)
    ensures s.flag <==> IsSet(env, name)
    ensures s.warnings == if IsInvalid(env, name) then [name] else []
  {
    var r := GetBoolEnvVar(env, name, Some(false));
    FlagRead(r.value.value, if r.warned then [name] else [])
  }

  /**
   * A read behind a gate: `name` is read only while `open`; otherwise the
   * flag is `fixed` and nothing is read, so nothing can warn.
   */
  function Gated(open: bool, fixed: bool, env: Env, name: string): (s: FlagRead)
    ensures s.flag == if open then IsSet(env, name) else fixed
    ensures s.warnings == if open && IsInvalid(env, name) then [name] else []
  {
    if open then ReadFlag(env, name) else FlagRead(fixed, [])
  }

  /**
   * The module-level constants, computed in source order. `or` and the
   * conditional expressions short-circuit, so a variable is read (and can
   * warn) only when the flags before it leave its value open.
   */
  function ReadConfig(env: Env): (c: Config)
    ensures Consistent(c.flags)
  {
    var productionLocal := ReadFlag(env, PRODUCTION_LOCAL_VAR);
    var production := Gated(!productionLocal.flag, true, env, PRODUCTION_VAR);
    var debug := Gated(!production.flag, false, env, DEBUG_VAR);
    var profileRender := Gated(debug.flag, false, env, PROFILE_RENDER_VAR);
    var profileDiff := Gated(debug.flag, false, env, PROFILE_DIFF_VAR);
    var profileRun := Gated(debug.flag, false, env, PROFILE_RUN_VAR);
    var printOutput := Gated(debug.flag, false, env, PRINT_OUTPUT_VAR);
    Config(
      Flags(productionLocal.flag, production.flag, debug.flag,
            profileRender.flag, profileDiff.flag, profileRun.flag, printOutput.flag),
      productionLocal.warnings + production.warnings + debug.warnings
      + profileRender.warnings + profileDiff.warnings + profileRun.warnings + printOutput.warnings)
  }

  /** Each flag in terms of the variables alone, independent of evaluation order. */
  lemma FlagsFromEnv(env: Env)
    ensures var f := ReadConfig(env).flags;
      && (f.productionLocal <==> IsSet(env, PRODUCTION_LOCAL_VAR))
      && (f.production <==> IsSet(env, PRODUCTION_LOCAL_VAR) || IsSet(env, PRODUCTION_VAR))
      && (f.debug <==> !f.production && IsSet(env, DEBUG_VAR))
      && (f.profileRender <==> f.debug && IsSet(env, PROFILE_RENDER_VAR))
      && (f.profileDiff <==> f.debug && IsSet(env, PROFILE_DIFF_VAR))
      && (f.profileRun <==> f.debug && IsSet(env, PROFILE_RUN_VAR))
      && (f.printOutput <==> f.debug && IsSet(env, PRINT_OUTPUT_VAR))
  {
  }

  /** In production, `DEBUG` is False and nothing depends on what HD_DEBUG says. */
  lemma ProductionIgnoresDebugVar(env: Env, v: string)
    requires ReadConfig(env).flags.production
    ensures !ReadConfig(env).flags.debug
    ensures ReadConfig(env[DEBUG_VAR := v]) == ReadConfig(env)
  {
  }

  /** The variables a configuration consulted: each one is read only when its gate is open. */
  predicate Consulted(f: Flags, name: string) {
    || name == PRODUCTION_LOCAL_VAR
    || (name == PRODUCTION_VAR && !f.productionLocal)
    || (name == DEBUG_VAR && !f.production)
    || (name in DEBUG_ONLY_VARS && f.debug)
  }

  /** A variable is reported exactly when it was consulted and its value is invalid. */
  lemma WarningsAreInvalidConsultedVars(env: Env, name: string)
    ensures var c := ReadConfig(env);
      name in c.warnings <==> Consulted(c.flags, name) && IsInvalid(env, name)
  {
    var f := ReadConfig(env).flags;
    WarningsFromReads(env, name);
    assert name in ReadFlag(env, PRODUCTION_LOCAL_VAR).warnings <==>
      name == PRODUCTION_LOCAL_VAR && IsInvalid(env, name);
    assert name in DEBUG_ONLY_VARS <==>
      name == PROFILE_RENDER_VAR || name == PROFILE_DIFF_VAR || name == PROFILE_RUN_VAR || name == PRINT_OUTPUT_VAR;
  }

  /** A name is among the warnings exactly when one of the seven reads reported it. */
  lemma WarningsFromReads(env: Env, name: string)
    ensures var f := ReadConfig(env).flags;
      name in ReadConfig(env).warnings <==>
      || name in ReadFlag(env, PRODUCTION_LOCAL_VAR).warnings
      || name in Gated(!f.productionLocal, true, env, PRODUCTION_VAR).warnings
      || name in Gated(!f.production, false, env, DEBUG_VAR).warnings
      || name in Gated(f.debug, false, env, PROFILE_RENDER_VAR).warnings
      || name in Gated(f.debug, false, env, PROFILE_DIFF_VAR).warnings
      || name in Gated(f.debug, false, env, PROFILE_RUN_VAR).warnings
      || name in Gated(f.debug, false, env, PRINT_OUTPUT_VAR).warnings
  {
    var f := ReadConfig(env).flags;
    var w0 := ReadFlag(env, PRODUCTION_LOCAL_VAR).warnings;
    var w1 := Gated(!f.productionLocal, true, env, PRODUCTION_VAR).warnings;
    var w2 := Gated(!f.production, false, env, DEBUG_VAR).warnings;
    var w3 := Gated(f.debug, false, env, PROFILE_RENDER_VAR).warnings;
    var w4 := Gated(f.debug, false, env, PROFILE_DIFF_VAR).warnings;
    var w5 := Gated(f.debug, false, env, PROFILE_RUN_VAR).warnings;
    var w6 := Gated(f.debug, false, env, PRINT_OUTPUT_VAR).warnings;
    assert ReadConfig(env).warnings == w0 + w1 + w2 + w3 + w4 + w5 + w6;
  }

  /** An environment that spells out a flag table with "1" and "0". */
  function EnvFor(f: Flags): Env {
    map[
      PRODUCTION_LOCAL_VAR := Spell(f.productionLocal),
      PRODUCTION_VAR := Spell(f.production),
      DEBUG_VAR := Spell(f.debug),
      PROFILE_RENDER_VAR := Spell(f.profileRender),
      PROFILE_DIFF_VAR := Spell(f.profileDiff),
      PROFILE_RUN_VAR := Spell(f.profileRun),
      PRINT_OUTPUT_VAR := Spell(f.printOutput)]
  }

  function Spell(b: bool): string {
    if b then "1" else "0"
  }

  /** Every consistent table is produced, without warnings, by the environment that spells it. */
  lemma ConsistentTableReachable(f: Flags)
    requires Consistent(f)
    ensures ReadConfig(EnvFor(f)) == Config(f, [])
  {
    var env := EnvFor(f);
    SpelledRead(env, PRODUCTION_LOCAL_VAR, f.productionLocal);
    SpelledRead(env, PRODUCTION_VAR, f.production);
    SpelledRead(env, DEBUG_VAR, f.debug);
    SpelledRead(env, PROFILE_RENDER_VAR, f.profileRender);
    SpelledRead(env, PROFILE_DIFF_VAR, f.profileDiff);
    SpelledRead(env, PROFILE_RUN_VAR, f.profileRun);
    SpelledRead(env, PRINT_OUTPUT_VAR, f.printOutput);
  }

  /** A variable spelled "1" or "0" reads as that boolean, without a warning. */
  lemma SpelledRead(env: Env, name: string, b: bool)
    requires name in env && env[name] == Spell(b)
    ensures ReadFlag(env, name) == FlagRead(b, [])
  {
    assert Lower("1") == "1" && Lower("0") == "0";
  }

  /** The tables the module can produce are exactly the consistent ones. */
  lemma ReachableIffConsistent(f: Flags)
    ensures (exists env :: ReadConfig(env).flags == f) <==> Consistent(f)
  {
    if Consistent(f) {
      ConsistentTableReachable(f);
      assert ReadConfig(EnvFor(f)).flags == f;
    }
  }

  // ---------------------------------------------------------------------
  // Log-level selection
  // ---------------------------------------------------------------------

  const HYPERDIV_LOGGER: string := "hyperdiv"
  const TORNADO_LOGGERS: seq<string> := ["tornado.access", "tornado.application", "tornado.general"]

  /** The level the hyperdiv logger ends with. */
  function SelectedLevel(f: Flags): int {
    if f.debug then DEBUG else if f.production then ERROR else INFO
  }

  /** The tornado loggers are silenced in the production branch only. */
  predicate QuietsTornado(f: Flags) {
    !f.debug && f.production
  }

  /** For a consistent table the three levels match the three modes, exclusively. */
  lemma SelectedLevelCases(f: Flags)
    requires Consistent(f)
    ensures SelectedLevel(f) == DEBUG <==> f.debug
    ensures SelectedLevel(f) == ERROR <==> f.production
    ensures SelectedLevel(f) == INFO <==> !f.debug && !f.production
    ensures QuietsTornado(f) <==> SelectedLevel(f) == ERROR
  {
  }

  /** `levels` with every name in `names` set to `level`, in list order. */
  function SetAll(levels: map<string, int>, names: seq<string>, level: int): (m: map<string, int>)
    ensures m.Keys == levels.Keys + set n | n in names
    ensures forall n :: n in names ==> m[n] == level
    ensures forall n :: n in levels && n !in names ==> m[n] == levels[n]
  {
    if names == [] then levels
    else SetAll(levels, names[..|names| - 1], level)[names[|names| - 1] := level]
  }

  /**
   * The logger levels after `ConfigureLogging`, from any prior levels: the
   * hyperdiv logger gets the selected level; the tornado loggers get ERROR in
   * the production branch and are untouched otherwise; no other logger changes.
   */
  function ConfiguredLevels(prior: map<string, int>, f: Flags): (m: map<string, int>)
    ensures HYPERDIV_LOGGER in m && m[HYPERDIV_LOGGER] == SelectedLevel(f)
    ensures forall n :: n in TORNADO_LOGGERS && QuietsTornado(f) ==> n in m && m[n] == ERROR
    ensures forall n :: n != HYPERDIV_LOGGER && !(n in TORNADO_LOGGERS && QuietsTornado(f)) ==>
      (n in m <==> n in prior) && (n in m ==> m[n] == prior[n])
  {
    var m := prior[HYPERDIV_LOGGER := SelectedLevel(f)];
    if QuietsTornado(f) then SetAll(m, TORNADO_LOGGERS, ERROR) else m
  }

  /** hyperdiv/debug.py, lines 42-48: set INFO, then override for debug or for production. */
  method ConfigureLogging(reg: Registry, f: Flags)
    modifies reg
    ensures reg.levels == ConfiguredLevels(old(reg.levels), f)
  {
    ghost var prior := reg.levels;
    reg.SetLevel(HYPERDIV_LOGGER, INFO);
    if f.debug {
      reg.SetLevel(HYPERDIV_LOGGER, DEBUG);
      assert reg.levels == prior[HYPERDIV_LOGGER := DEBUG];
    } else if f.production {
      reg.SetLevel(HYPERDIV_LOGGER, ERROR);
      ghost var base := reg.levels;
      assert base == prior[HYPERDIV_LOGGER := ERROR];
      for i := 0 to |TORNADO_LOGGERS|
        invariant reg.levels == SetAll(base, TORNADO_LOGGERS[..i], ERROR)
      {
        assert TORNADO_LOGGERS[..i + 1][..i] == TORNADO_LOGGERS[..i];
        reg.SetLevel(TORNADO_LOGGERS[i], ERROR);
      }
      assert TORNADO_LOGGERS[..|TORNADO_LOGGERS|] == TORNADO_LOGGERS;
    }
  }

  /**
   * Loading the module: read the flag table from the environment, then set
   * the logger levels. The hyperdiv logger ends at DEBUG exactly in debug
   * mode, at ERROR exactly in production and at INFO otherwise.
   */
  method Load(env: Env, reg: Registry) returns (c: Config)
    modifies reg
    ensures c == ReadConfig(env)
    ensures reg.levels == ConfiguredLevels(old(reg.levels), c.flags)
    ensures reg.levels[HYPERDIV_LOGGER] == DEBUG <==> c.flags.debug
    ensures reg.levels[HYPERDIV_LOGGER] == ERROR <==> c.flags.production
    ensures reg.levels[HYPERDIV_LOGGER] == INFO <==> !c.flags.debug && !c.flags.production
  {
    c := ReadConfig(env);
    ConfigureLogging(reg, c.flags);
    SelectedLevelCases(c.flags);
  }
}
