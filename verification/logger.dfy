/**
 * The console logger of src/utils/logger.js: six levels, a global level
 * set from the environment, per-module overrides, the filter deciding what
 * is printed and the layout of a printed line. The clock and the colouring
 * are parameters.
 */
module Logging {
  import opened Wrappers
  import opened JsonDoc

  const Fatal := 0
  const Error := 1
  const Warn := 2
  const Info := 3
  const Debug := 4
  const Trace := 5

  predicate IsLevel(level: int) {
    Fatal <= level <= Trace
  }

  /** `LOG_LABELS[level]`: `None` (undefined) for anything but the six levels. */
  function Label(level: int): (name: Option<string>)
    ensures name.Some? <==> IsLevel(level)
    ensures name.Some? ==> 4 <= |name.value| <= 5
  {
    if level == Fatal then Some("FATAL")
    else if level == Error then Some("ERROR")
    else if level == Warn then Some("WARN")
    else if level == Info then Some("INFO")
    else if level == Debug then Some("DEBUG")
    else if level == Trace then Some("TRACE")
    else None
  }

  /** `this.environments[env].level` for the four known environments. */
  function EnvironmentLevel(env: string): (level: Option<int>)
    ensures level.Some? ==> IsLevel(level.value)
    ensures level.Some? <==> env in {"development", "test", "production", "docker"}
  {
    if env == "development" then Some(Trace)
    else if env == "test" then Some(Debug)
    else if env == "production" || env == "docker" then Some(Info)
    else None
  }

  /** `process.env.NODE_ENV || 'development'`. */
  function NodeEnv(nodeEnv: string): string {
    if nodeEnv != "" then nodeEnv else "development"
  }

  /** `s.padEnd(width, ' ')`. */
  function PadEnd(s: string, width: nat): (r: string)
    ensures |r| == if |s| < width then width else |s|
    ensures s <= r
    ensures forall i :: |s| <= i < |r| ==> r[i] == ' '
  {
    if |s| < width then s + seq(width - |s|, _ => ' ') else s
  }

  /** The optional third argument of a log call. */
  datatype Meta =
    | NoMeta
      /** An `Error`: its message and its stack, "" when it has none. */
    | ErrorMeta(message: string, stack: string)
      /** Any other object; `json` is what `JSON.stringify` gives, `None` when it throws. */
    | ObjectMeta(json: Option<string>)
      /** A primitive value. */
    | ValueMeta(value: Json)

  /** What the metadata adds at the end of the line. */
  function MetaText(level: int, meta: Meta): (text: string)
    ensures meta.ErrorMeta? ==> ": " + meta.message <= text
    ensures meta.ErrorMeta? && |text| > |meta.message| + 2 ==> (level == Error || level == Fatal) && meta.stack != ""
    ensures meta.NoMeta? || (meta.ValueMeta? && !Truthy(Some(meta.value))) ==> text == ""
  {
    match meta
    case NoMeta => ""
    case ErrorMeta(message, stack) =>
      ": " + message + (if stack != "" && (level == Error || level == Fatal) then "\n" + stack else "")
    case ObjectMeta(json) => if json.Some? then " " + json.value else " [Object]"
    case ValueMeta(v) => if Truthy(Some(v)) then " " + JsonText(v) else ""
  }

  /** The logger with its `config`; `modules` is `None` until a module level is first set. */
  class Logger {
    var level: int
    var useColors: bool
    var showTimestamp: bool
    var modules: Option<map<string, int>>

    /** Every level the logger holds is one of the six. */
    predicate Valid()
      reads this
    {
      IsLevel(level) && (modules.Some? ==> forall m :: m in modules.value ==> IsLevel(modules.value[m]))
    }

    /** `new Logger()`: INFO, colours and timestamps on, then the level of `NODE_ENV` (development when unset). */
    constructor (nodeEnv: string)
      ensures Valid()
      ensures level == (if EnvironmentLevel(NodeEnv(nodeEnv)).Some? then EnvironmentLevel(NodeEnv(nodeEnv)).value else Info)
      ensures nodeEnv == "" ==> level == Trace
      ensures useColors && showTimestamp && modules == None
    {
      level := Info;
      useColors := true;
      showTimestamp := true;
      modules := None;
      new;
      SetEnvironment(NodeEnv(nodeEnv));
    }

    /** `setEnvironment`: a known environment's level is merged in; any other name changes nothing. */
    method SetEnvironment(env: string)
      requires Valid()
      modifies this`level
      ensures Valid()
      ensures EnvironmentLevel(env).Some? ==> level == EnvironmentLevel(env).value
      ensures EnvironmentLevel(env).None? ==> level == old(level)
    {
      var known := EnvironmentLevel(env);
      if known.Some? {
        level := known.value;
      }
    }

    /** `setLevel`: only the six levels are accepted. */
    method SetLevel(newLevel: int)
      requires Valid()
      modifies this`level
      ensures Valid()
      ensures IsLevel(newLevel) ==> level == newLevel
      ensures !IsLevel(newLevel) ==> level == old(level)
    {
      if Fatal <= newLevel && newLevel <= Trace {
        level := newLevel;
      }
    }

    /** `getEffectiveLevel`: the module's own level when one was set, the global level otherwise. */
    function EffectiveLevel(moduleName: string): (effective: int)
      reads this
      requires Valid()
      ensures IsLevel(effective)
      ensures modules.None? || moduleName !in modules.value ==> effective == level
    {
      if modules.Some? && moduleName in modules.value then modules.value[moduleName] else level
    }

    /** `setModuleLevel`: the same range check; the table of modules is created on first use. */
    method SetModuleLevel(moduleName: string, newLevel: int)
      requires Valid()
      modifies this`modules
      ensures Valid()
      ensures IsLevel(newLevel) ==> EffectiveLevel(moduleName) == newLevel
      ensures IsLevel(newLevel) ==> forall m :: m != moduleName ==> EffectiveLevel(m) == old(EffectiveLevel(m))
      ensures !IsLevel(newLevel) ==> modules == old(modules)
    {
      if Fatal <= newLevel && newLevel <= Trace {
        if modules.None? {
          modules := Some(map[]);
        }
        modules := Some(modules.value[moduleName := newLevel]);
      }
    }

    /**
     * The layout of a line: the timestamp and a bar when timestamps are on
     * and there is one, the label padded to five characters (painted when
     * colours are on), a bar, the message and the metadata.
     */
    function Layout(lvl: int, message: string, meta: Meta, now: string, paint: (int, string) -> string): string
      reads this`showTimestamp, this`useColors
      requires IsLevel(lvl)
    {
      (if showTimestamp && now != "" then now + " | " else "")
      + (if useColors then paint(lvl, PadEnd(Label(lvl).value, 5)) else PadEnd(Label(lvl).value, 5))
      + " | " + message + MetaText(lvl, meta)
    }

    /**
     * `formatMessage`: `"<timestamp> | "` when timestamps are on, the label
     * padded to five characters (painted when colours are on), `" | "`, the
     * message and the metadata. A level without a label makes `padEnd` throw.
     * `now` is what `toISOString` gives; `paint` is the colouring of a level.
     */
    method FormatMessage(lvl: int, message: string, meta: Meta, now: string, paint: (int, string) -> string)
      returns (r: Result<string>)
      ensures r.Err? <==> !IsLevel(lvl)
      ensures r.Ok? ==> r.value == Layout(lvl, message, meta, now, paint)
    {
      var labelText := Label(lvl);
      var timestamp := if showTimestamp then now else "";
      if labelText.None? {
        return Err("Cannot read properties of undefined (reading 'padEnd')");
      }
      var paddedLabel := PadEnd(labelText.value, 5);
      ghost var head := if showTimestamp && now != "" then now + " | " else "";
      ghost var shown := if useColors then paint(lvl, paddedLabel) else paddedLabel;
      var formatted := "";
      if timestamp != "" {
        formatted := formatted + timestamp + " | ";
      }
      assert formatted == head;
      if useColors {
        formatted := formatted + paint(lvl, paddedLabel) + " | ";
        formatted := formatted + message;
      } else {
        formatted := formatted + paddedLabel + " | " + message;
      }
      assert formatted == head + shown + " | " + message;
      formatted := formatted + MetaText(lvl, meta);
      return Ok(formatted);
    }

    /**
     * `log`: the line printed, if any. The level of a named module decides,
     * the global level when no module is named ("").
     */
    method Log(lvl: int, message: string, meta: Meta, moduleName: string, now: string, paint: (int, string) -> string)
      returns (printed: Option<Result<string>>)
      requires Valid()
      ensures var effective := if moduleName != "" then EffectiveLevel(moduleName) else level;
        printed.Some? <==> lvl <= effective
      ensures printed.Some? ==> (printed.value.Err? <==> lvl < Fatal)
      ensures printed.Some? && printed.value.Ok? ==> printed.value.value == Layout(lvl, message, meta, now, paint)
      ensures lvl > Trace ==> printed.None?
    {
      var effective := if moduleName != "" then EffectiveLevel(moduleName) else level;
      if lvl <= effective {
        var line := FormatMessage(lvl, message, meta, now, paint);
        return Some(line);
      }
      return None;
    }
  }

  /** Every label, padded, is five characters wide. */
  lemma LabelsAligned(level: int)
    requires IsLevel(level)
    ensures |PadEnd(Label(level).value, 5)| == 5
  {
  }

  /**
   * The plain layout: with colours and timestamps off and no metadata, a
   * line reads `"INFO  | message"`.
   */
  method PlainLine(message: string) returns (r: Result<string>)
    ensures r == Ok("INFO  | " + message)
  {
    var logger := new Logger("");
    logger.useColors := false;
    logger.showTimestamp := false;
    r := logger.FormatMessage(Info, message, NoMeta, "2025-01-01T00:00:00.000Z", (l, s) => s);
    assert Label(Info) == Some("INFO") && PadEnd("INFO", 5) == "INFO ";
    assert "" + "INFO " + " | " + message + "" == "INFO  | " + message;
  }
}
