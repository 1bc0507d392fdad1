/**
 * The shared logging settings of src/utils/loggerConfig.js and
 * `configureLogger`, which sets their level from `NODE_ENV` and copies the
 * configured timezone onto them.
 */
module LoggerSettings {
  import opened Wrappers
  import opened JsonDoc
  import Logging

  /** `loggerConfig.defaultLevels`. */
  const DefaultLevels: map<string, int> := map["development" := Logging.Trace, "test" := Logging.Debug,
                                                "production" := Logging.Info, "docker" := Logging.Info]

  /** `loggerConfig.defaultLevels[env] || LogLevel.INFO`. */
  function LevelFor(env: string): (level: int)
    ensures Logging.IsLevel(level)
    ensures env in DefaultLevels ==> level == DefaultLevels[env]
    ensures env !in DefaultLevels ==> level == Logging.Info
  {
    if env in DefaultLevels && DefaultLevels[env] != 0 then DefaultLevels[env] else Logging.Info
  }

  /** The table here and the logger's own environments agree on every name. */
  lemma LevelsAgreeWithLogger(env: string)
    ensures LevelFor(env) == (if Logging.EnvironmentLevel(env).Some? then Logging.EnvironmentLevel(env).value else Logging.Info)
  {
  }

  /** The exported `loggerConfig` object; `level` and `timezone` exist once `configureLogger` has set them. */
  class LoggerConfig {
    const defaultLevels: map<string, int>
    var useColors: bool
    var showTimestamp: bool
    var modules: map<string, int>
    var level: Option<int>
    var timezone: Option<Json>

    constructor ()
      ensures defaultLevels == DefaultLevels
      ensures useColors && showTimestamp && modules == map[]
      ensures level == None && timezone == None
    {
      defaultLevels := DefaultLevels;
      useColors := true;
      showTimestamp := true;
      modules := map[];
      level := None;
      timezone := None;
    }

    /**
     * `configureLogger(appConfig)`: `configured` is
     * `appConfig?.settings?.logging?.timezone`. The level of `NODE_ENV`
     * (development when unset) is set, the timezone copied only when truthy,
     * and the same object handed back.
     */
    method ConfigureLogger(nodeEnv: string, configured: Option<Json>) returns (r: LoggerConfig)
      requires defaultLevels == DefaultLevels
      modifies this`level, this`timezone
      ensures r == this
      ensures level == Some(LevelFor(Logging.NodeEnv(nodeEnv)))
      ensures Truthy(configured) ==> timezone == configured
      ensures !Truthy(configured) ==> timezone == old(timezone)
    {
      var env := if nodeEnv != "" then nodeEnv else "development";
      var newLevel := if env in defaultLevels && defaultLevels[env] != 0 then defaultLevels[env] else Logging.Info;
      if Truthy(configured) {
        timezone := configured;
      }
      level := Some(newLevel);
      return this;
    }
  }
}
