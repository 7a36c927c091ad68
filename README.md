# hyperdiv debug flags, modelled in Dafny

This project models hyperdiv's debug-flag configuration (`hyperdiv/debug.py`).
It has three parts:

- `get_bool_env_var` reads an environment variable as a boolean.
- Seven module-level flags are derived from those reads: `PRODUCTION_LOCAL`, `PRODUCTION`, `DEBUG`, `PROFILE_RENDER`, `PROFILE_DIFF`, `PROFILE_RUN` and `PRINT_OUTPUT`.
- The log levels of the `hyperdiv` logger and the three tornado loggers are chosen from those flags.

The process environment is a `map<string, string>` passed as a parameter.
The logging module's registry of named loggers is a class, `Logging.Registry`, whose `levels` map the configuration updates in place.
"A warning was logged" is a boolean in the parser's result.
A full load also returns the names of the variables that were reported as invalid, in order.

Files:

- `wrappers.dfy`: module `Wrappers`, the `Option` type. The parser's default may be Python's `None`.
- `ascii.dfy`: module `Ascii`, ASCII lower-casing, the stand-in for Python's `str.lower`.
- `logging.dfy`: module `Logging`, the numeric levels of Python's `logging` module and the logger registry.
- `debug.dfy`: module `Debug`, the parser, the flag table and log-level selection.

## Model

| member | source | states |
|---|---|---|
| `Ascii.Lower` | hyperdiv/debug.py:23 | lower-casing keeps the length, lower-cases each character, and leaves no upper-case letter |
| `Ascii.LowerIsCaseVariant` | hyperdiv/debug.py:23-26 | for a lower-case word w, `Lower(v) == w` holds exactly when v is w with any letters written in upper case |
| `Debug.GetBoolEnvVar` | hyperdiv/debug.py:17-30 | absent variable gives `default` and no warning; a false spelling gives False and a true spelling gives True whatever `default` is; the warning is logged exactly for a present value that is neither, and then the result is `default`; a boolean default always gives a boolean |
| `Debug.FalseSpellings` | hyperdiv/debug.py:23-24 | the values read as False are exactly "0" and the case variants of "false" |
| `Debug.TrueSpellings` | hyperdiv/debug.py:25-26 | the values read as True are exactly "1" and the case variants of "true" |
| `Debug.MixedCaseAccepted` | hyperdiv/debug.py:23-26 | "FALSE" and "False" give False, "TRUE" and "True" give True, without a warning, for every default |
| `Debug.OtherValuesRejected` | hyperdiv/debug.py:28-30 | "", "yes" and " true" give the default and log the warning |
| `Debug.ReadFlag` | hyperdiv/debug.py:33-39 | a read with default False is True exactly when the variable is present and spells True; it warns exactly when the value is present and invalid |
| `Debug.Gated` | hyperdiv/debug.py:34-39 | a read behind a closed gate yields the fixed value and no warning; behind an open gate the flag is `IsSet` and the warnings are exactly `[name]` when the value is invalid, as for `ReadFlag` |
| `Debug.ReadConfig` | hyperdiv/debug.py:33-39 | the derived table is always consistent: production-local implies production, production implies not debug, and not debug implies all four debug-only flags are off |
| `Debug.FlagsFromEnv` | hyperdiv/debug.py:33-39 | each flag in terms of the variables alone: production is local-or-production, debug is not-production-and-HD_DEBUG, and each debug-only flag is debug-and-its-own-variable |
| `Debug.ProductionIgnoresDebugVar` | hyperdiv/debug.py:34-35 | in production `DEBUG` is False, and replacing HD_DEBUG's value by any string changes neither the flags nor the warnings |
| `Debug.WarningsAreInvalidConsultedVars` | hyperdiv/debug.py:33-39 | a variable is reported exactly when its gate made the module read it and its value is invalid |
| `Debug.SpelledRead` | hyperdiv/debug.py:23-26 | a variable whose value is "1" or "0" reads as True or False, without a warning |
| `Debug.ConsistentTableReachable` | hyperdiv/debug.py:33-39 | every consistent table is produced, with no warnings, by the environment that spells it with "1" and "0" |
| `Debug.ReachableIffConsistent` | hyperdiv/debug.py:33-39 | the tables some environment produces are exactly the consistent ones |
| `Debug.SelectedLevelCases` | hyperdiv/debug.py:42-48 | for a consistent table, the hyperdiv level is DEBUG exactly in debug mode, ERROR exactly in production and INFO otherwise; the tornado loggers are silenced exactly in the ERROR case |
| `Debug.SetAll` | hyperdiv/debug.py:47-48 | setting a list of loggers to one level gives each listed logger that level and leaves every other logger as it was |
| `Debug.ConfiguredLevels` | hyperdiv/debug.py:42-48 | from any prior levels, hyperdiv gets the selected level, the tornado loggers get ERROR in the production branch only, and no other logger changes |
| `Debug.ConfigureLogging` | hyperdiv/debug.py:42-48 | the in-place updates, INFO first and then an override with the loop over the tornado loggers, leave the registry at `ConfiguredLevels` of its prior state |
| `Debug.Load` | hyperdiv/debug.py:33-48 | loading the module returns the table read from the environment and leaves hyperdiv at DEBUG exactly in debug mode, ERROR exactly in production and INFO otherwise |
| `Logging.Registry.SetLevel` | hyperdiv/debug.py:42 | `setLevel` changes the level of the named logger and of no other |

## Left out

- `Ascii.Lower`: Python's `str.lower` is Unicode-aware; the model lower-cases only A-Z. Outside ASCII, the only characters whose lower-case form contains an ASCII letter are U+0130 and U+212A (giving "i" and "k"). Neither letter occurs in "false" or "true", so values are classified the same way.
- `Debug.GetBoolEnvVar`: Python accepts any object as `default`; the model takes an `Option<bool>` (None or a boolean), which covers every call in the file.
- The text of the "Invalid value" warning and its delivery through the logging machinery. The model records only that a warning was issued, and for which variable.
- Logger hierarchy and effective levels: "tornado.access" is a child of "tornado" in Python's logging. The registry records only the level set on each named logger.
- `tornado.log.enable_pretty_logging()` (line 14), and the meter, histogram and tracer set up at lines 50-55. These are library wiring with no logic of their own.
- The `timing` context manager (lines 57-90). It uses wall-clock time, float arithmetic, cProfile/pstats, OpenTelemetry spans and terminal output, all of it I/O and foreign libraries.
- `frontend/src/shoelace.js`: it only imports vendor web components and calls their `setBasePath`. It has no logic of its own.
- The real process environment (`os.getenv`) is replaced by the `env` parameter. Module import happening once per process is modelled by `Debug.Load` being a single call.
