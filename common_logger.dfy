/** proj/common/logger.py: the `Logger` backend, the class attributes
    `Logger.DEFAULT`/`Logger.CURRENT`, and the `session` context manager
    that swaps the current logger. */
module CommonLogger {
  import opened OrderedMaps
  import opened LogOutput

  class Logger {
    /** The diagnostics logged during this iteration, in first-logged order. */
    var name2val: Entries<string, LogValue>
    var level: int
    const dir: Option<string>
    const outputFormats: seq<OutputFormat>

    ghost predicate Valid()
      reads this
    {
      OrderedMaps.Valid(name2val) && Distinct(outputFormats)
    }

    constructor (dir: Option<string>, outputFormats: seq<OutputFormat>)
      requires Distinct(outputFormats)
      ensures Valid()
      ensures name2val == [] && level == INFO
      ensures this.outputFormats == outputFormats && GetDir() == dir
    {
      name2val := [];
      level := INFO;
      this.dir := dir;
      this.outputFormats := outputFormats;
    }

    /** `logkv`: the last value logged under a key wins; a key keeps the
        position of its first logging. */
    method LogKv(key: string, val: LogValue)
      requires Valid()
      modifies this
      ensures Valid() && level == old(level)
      ensures name2val == Put(old(name2val), key, val)
    {
      name2val := Put(name2val, key, val);
    }

    /** `dumpkvs`: every format, in list order, is handed the same dictionary,
        which is then cleared. A human format raises on an empty dictionary:
        the formats before it have written, the rest have not, and the
        dictionary is kept. */
    method DumpKvs(fmtG: real -> string, toJson: Entries<string, LogValue> -> string) returns (ok: bool)
      requires Valid()
      modifies this, set f | f in outputFormats
      ensures Valid() && level == old(level)
      ensures ok <==> FirstFailure(outputFormats, old(name2val)) == |outputFormats|
      ensures name2val == if ok then [] else old(name2val)
      ensures forall i :: 0 <= i < FirstFailure(outputFormats, old(name2val)) ==>
                outputFormats[i].written
                == old(outputFormats[i].written) + KvsText(outputFormats[i].kind, old(name2val), fmtG, toJson).value
      ensures forall i :: FirstFailure(outputFormats, old(name2val)) <= i < |outputFormats| ==>
                outputFormats[i].written == old(outputFormats[i].written)
    {
      ok := WriteKvsAll(outputFormats, name2val, fmtG, toJson);
      if ok {
        name2val := [];
      }
    }

    /** `log`: the timestamp followed by the arguments goes to every format
        exactly when the message's level reaches the logger's threshold. */
    method Log(args: seq<string>, level: int, timestamp: string)
      requires Valid()
      modifies set f | f in outputFormats
      ensures forall i :: 0 <= i < |outputFormats| ==>
                outputFormats[i].written
                == old(outputFormats[i].written)
                   + (if Passes(this.level, level) then SeqText(outputFormats[i].kind, [timestamp] + args) else "")
    {
      if this.level <= level {
        WriteSeqAll(outputFormats, [timestamp] + args);
      }
    }

    method SetLevel(level: int)
      modifies this
      ensures this.level == level && name2val == old(name2val)
    {
      this.level := level;
    }

    function GetDir(): Option<string>
      reads this
    {
      dir
    }
  }

  /** `Logger.DEFAULT` and `Logger.CURRENT`; the module-level functions
      `logkv`, `dumpkvs`, `log`, `set_level`, `get_level` and `get_dir`
      act on `current`. */
  class Loggers {
    const default: Logger
    var current: Logger

    ghost predicate Valid()
      reads this, current, default
    {
      current.Valid() && default.Valid()
    }

    /** The default logger writes to standard output only and has no directory. */
    constructor ()
      ensures Valid() && fresh(default) && current == default
      ensures default.name2val == [] && default.level == INFO && default.GetDir() == None
      ensures |default.outputFormats| == 1 && fresh(default.outputFormats[0])
      ensures default.outputFormats[0].kind == Human && default.outputFormats[0].stream == Stdout
    {
      var out := new OutputFormat(Human, Stdout);
      default := new Logger(None, [out]);
      current := default;
    }

    function GetLevel(): int
      reads this, current
    {
      current.level
    }

    function GetDir(): Option<string>
      reads this, current
    {
      current.GetDir()
    }

    method SetLevel(level: int)
      requires Valid()
      modifies current
      ensures Valid() && current == old(current)
      ensures GetLevel() == level && current.name2val == old(current.name2val)
    {
      current.SetLevel(level);
    }
  }

  /** A `session`: the output formats opened for `dir`, installed as a new
      current logger on entry. */
  class Session {
    const dir: string
    const outputFormats: seq<OutputFormat>

    constructor (dir: string, outputFormats: seq<OutputFormat>)
      requires Distinct(outputFormats)
      ensures this.dir == dir && this.outputFormats == outputFormats
    {
      this.dir := dir;
      this.outputFormats := outputFormats;
    }

    ghost predicate Valid()
      reads this
    {
      Distinct(outputFormats)
    }

    /** `session(dir, format_strs)`: one format per name, the default names
        being `['log', 'json']`; an unknown name raises. */
    static method Open(dir: string, formatStrs: Option<seq<string>>) returns (r: Option<Session>)
      ensures var names := if formatStrs.Some? then formatStrs.value else LOG_OUTPUT_FORMATS;
              r.Some? <==> forall i :: 0 <= i < |names| ==> FormatFor(names[i], dir).Some?
      ensures r.Some? ==> fresh(r.value) && r.value.Valid() && r.value.dir == dir
      ensures r.Some? ==>
                var names := if formatStrs.Some? then formatStrs.value else LOG_OUTPUT_FORMATS;
                |r.value.outputFormats| == |names|
                && forall i :: 0 <= i < |names| ==>
                     (r.value.outputFormats[i].kind, r.value.outputFormats[i].stream) == FormatFor(names[i], dir).value
    {
      var names := if formatStrs.Some? then formatStrs.value else LOG_OUTPUT_FORMATS;
      var fs := MakeOutputFormats(names, dir);
      if fs.None? {
        return None;
      }
      var s := new Session(dir, fs.value);
      r := Some(s);
    }

    /** `__enter__`: a fresh logger on this session's formats becomes current. */
    method Enter(loggers: Loggers)
      requires Valid() && loggers.Valid()
      modifies loggers
      ensures loggers.Valid() && fresh(loggers.current)
      ensures loggers.current.name2val == [] && loggers.current.level == INFO
      ensures loggers.current.GetDir() == Some(dir) && loggers.current.outputFormats == outputFormats
    {
      loggers.current := new Logger(Some(dir), outputFormats);
    }

    /** `__exit__`: closing the current logger closes each of its formats,
        which does nothing; the default logger becomes current again. */
    method Exit(loggers: Loggers)
      requires loggers.Valid()
      modifies loggers
      ensures loggers.Valid() && loggers.current == loggers.default
    {
      loggers.current := loggers.default;
    }
  }
}
