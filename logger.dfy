/**
 * src/utils/logger.js: a logger with a mutable level and prefix that
 * writes "timestamp [LABEL] [prefix] message" lines when the message's
 * severity is at least its level, its child loggers, and the global
 * instance. The console is an object holding the lines written so far;
 * the timestamp (a clock read) is a parameter and extra arguments passed
 * after the message are not modelled.
 */
module Logging {
  import opened Wrappers

  const DEBUG: int := 0
  const INFO: int := 1
  const WARN: int := 2
  const ERROR: int := 3
  const NONE: int := 99

  datatype Severity = Debug | Info | Warn | Error
  {
    /** The `LogLevel` value a method compares against. */
    function Value(): (v: int)
      ensures DEBUG <= v <= ERROR
    {
      match this
      case Debug => DEBUG
      case Info => INFO
      case Warn => WARN
      case Error => ERROR
    }

    function Label(): string
    {
      match this
      case Debug => "[DEBUG]"
      case Info => "[INFO]"
      case Warn => "[WARN]"
      case Error => "[ERROR]"
    }
  }

  /** `this.level <= LogLevel.X`: a logger at `level` emits messages of `severity`. */
  predicate Emits(level: int, severity: Severity)
  {
    level <= severity.Value()
  }

  /** NONE silences every severity; DEBUG lets every severity through. */
  lemma NoneSilencesDebugPassesAll(severity: Severity)
    ensures !Emits(NONE, severity)
    ensures Emits(DEBUG, severity)
  {
  }

  /** Lowering the level never hides a message that was shown, and a more severe message is shown whenever a milder one is. */
  lemma EmitsMonotone(level: int, lower: int, severity: Severity, graver: Severity)
    requires lower <= level && severity.Value() <= graver.Value()
    ensures Emits(level, severity) ==> Emits(lower, severity) && Emits(level, graver)
  {
  }

  /** "[prefix] " when there is a prefix, nothing otherwise. */
  function PrefixPart(prefix: string): (part: string)
    ensures prefix == "" ==> part == ""
    ensures prefix != "" ==> |part| == |prefix| + 3 && part[0] == '[' && part[1..|prefix| + 1] == prefix
  {
    if prefix != "" then "[" + prefix + "] " else ""
  }

  /** The line `_log` writes. */
  function LogLine(timestamp: string, severity: Severity, prefix: string, message: string): string
  {
    timestamp + " " + severity.Label() + " " + PrefixPart(prefix) + message
  }

  /** A line reads back its timestamp, label, prefix and message. */
  lemma LogLineParts(timestamp: string, severity: Severity, prefix: string, message: string)
    ensures var line := LogLine(timestamp, severity, prefix, message);
      var n := |timestamp| + 1 + |severity.Label()| + 1;
      line[..|timestamp|] == timestamp && line[|timestamp| + 1..n - 1] == severity.Label()
      && line[n..] == PrefixPart(prefix) + message && line[|line| - |message|..] == message
  {
    LineSlices(timestamp, severity.Label(), PrefixPart(prefix), message);
  }

  /** Where the four fields of "timestamp name part+message" sit. */
  lemma LineSlices(timestamp: string, name: string, part: string, message: string)
    ensures var line := timestamp + " " + name + " " + part + message;
      var n := |timestamp| + 1 + |name| + 1;
      line[..|timestamp|] == timestamp && line[|timestamp| + 1..n - 1] == name
      && line[n..] == part + message && line[|line| - |message|..] == message
  {
    var head := timestamp + " " + name + " ";
    var tail := part + message;
    assert timestamp + " " + name + " " + part + message == head + tail;
  }

  /** `child`'s prefix: "parent:child", or just "child" under an unprefixed parent. */
  function ChildPrefix(prefix: string, childPrefix: string): (p: string)
    ensures prefix == "" ==> p == childPrefix
    ensures prefix != "" ==> |p| == |prefix| + 1 + |childPrefix| && p[..|prefix|] == prefix && p[|prefix|] == ':'
  {
    if prefix != "" then prefix + ":" + childPrefix else childPrefix
  }

  /** A grandchild of the unprefixed logger carries both names joined by ':'. */
  lemma GrandchildPrefix(a: string, b: string)
    requires a != ""
    ensures ChildPrefix(ChildPrefix("", a), b) == a + ":" + b
  {
  }

  /** The lines written so far. */
  class Console {
    var lines: seq<string>

    constructor ()
      ensures lines == []
    {
      lines := [];
    }
  }

  class Logger {
    var level: int
    var prefix: string
    const console: Console

    constructor (console: Console, level: int, prefix: string)
      ensures this.console == console && this.level == level && this.prefix == prefix
    {
      this.console := console;
      this.level := level;
      this.prefix := prefix;
    }

    method SetLevel(level: int)
      modifies this
      ensures this.level == level && prefix == old(prefix)
    {
      this.level := level;
    }

    method GetLevel() returns (level: int)
      ensures level == this.level
    {
      level := this.level;
    }

    /** `debug`, `info`, `warn` and `error`: one line when the level lets the severity through. */
    method Log(severity: Severity, message: string, timestamp: string)
      modifies console
      ensures console.lines == old(console.lines)
        + (if Emits(level, severity) then [LogLine(timestamp, severity, prefix, message)] else [])
    {
      if level <= severity.Value() {
        console.lines := console.lines + [LogLine(timestamp, severity, prefix, message)];
      }
    }

    /** `child`: a new logger on the same console with the parent's current level. */
    method Child(childPrefix: string) returns (child: Logger)
      ensures fresh(child)
      ensures child.console == console && child.level == level && child.prefix == ChildPrefix(prefix, childPrefix)
    {
      child := new Logger(console, level, ChildPrefix(prefix, childPrefix));
    }
  }

  /** The module-level `_globalLogger`, initially unset. */
  class GlobalLogger {
    var instance: Option<Logger>
    const console: Console

    constructor (console: Console)
      ensures instance.None? && this.console == console
    {
      instance := None;
      this.console := console;
    }

    /** `getLogger`: the same instance on every call, created at INFO without a prefix on the first. */
    method GetLogger() returns (logger: Logger)
      modifies this
      ensures instance == Some(logger)
      ensures old(instance).Some? ==> logger == old(instance).value
      ensures old(instance).None? ==> fresh(logger) && logger.level == INFO && logger.prefix == "" && logger.console == console
    {
      if instance.None? {
        var created := new Logger(console, INFO, "");
        instance := Some(created);
      }
      logger := instance.value;
    }

    /** `setGlobalLogLevel`. */
    method SetGlobalLogLevel(level: int)
      modifies this, if instance.Some? then {instance.value} else {}
      ensures instance.Some? && instance.value.level == level
      ensures old(instance).Some? ==> instance == old(instance)
    {
      var logger := GetLogger();
      logger.SetLevel(level);
    }

    /** `getContextLogger`: a child of the global logger named after the context. */
    method GetContextLogger(context: string) returns (logger: Logger)
      modifies this
      ensures instance.Some? && fresh(logger)
      ensures logger.level == instance.value.level && logger.prefix == ChildPrefix(instance.value.prefix, context)
      ensures old(instance).Some? ==> instance == old(instance)
      ensures old(instance).None? ==> logger.level == INFO && logger.prefix == context
    {
      var global := GetLogger();
      logger := global.Child(context);
    }
  }
}
