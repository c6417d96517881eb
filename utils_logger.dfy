/** proj/utils/logger.py: the same logger as proj/common/logger.py, whose
    directory is called `path`, which also carries an experiment name and a
    snapshot saver, and whose module-level API forwards saver calls. */
module UtilsLogger {
  import opened OrderedMaps
  import opened LogOutput

  /** The saver a logger holds: `Nop` when it has no path, whose every
      attribute is a function that does nothing and returns None; otherwise a
      `SnapshotSaver` on the path, which is not part of this model. */
  datatype Saver = Nop | Snapshot(path: string)

  function SaverFor(path: Option<string>): (s: Saver)
    ensures s.Nop? <==> path.None?
    ensures s.Snapshot? ==> s.path == path.value
  {
    match path
    case None => Nop
    case Some(p) => Snapshot(p)
  }

  class Logger {
    /** The diagnostics logged during this iteration, in first-logged order. */
    var name2val: Entries<string, LogValue>
    var level: int
    const path: Option<string>
    const outputFormats: seq<OutputFormat>
    const expName: Option<string>
    const saver: Saver

    ghost predicate Valid()
      reads this
    {
      OrderedMaps.Valid(name2val) && Distinct(outputFormats) && saver == SaverFor(path)
    }

    constructor (path: Option<string>, outputFormats: seq<OutputFormat>, expName: Option<string>)
      requires Distinct(outputFormats)
      ensures Valid()
      ensures name2val == [] && level == INFO
      ensures this.outputFormats == outputFormats && this.expName == expName
      ensures GetDir() == path && (saver.Nop? <==> path.None?)
    {
      name2val := [];
      level := INFO;
      this.path := path;
      this.outputFormats := outputFormats;
      this.expName := expName;
      saver := SaverFor(path);
    }

    /** `logkv`: the last value logged under a key wins; a key keeps the
        position of its first logging. */
    method LogKv(key: string, val: LogValue)
      requires Valid()
      modifies this
      ensures Valid() && level == old(level)
      ensures name2val == Put(old(name2val), key, val)
    {
      name2val := Put(name2val, key, val);
    }

    /** `dumpkvs`: as in proj/common/logger.py. */
    method DumpKvs(fmtG: real -> string, toJson: Entries<string, LogValue> -> string) returns (ok: bool)
      requires Valid()
      modifies this, set f | f in outputFormats
      ensures Valid() && level == old(level)
      ensures ok <==> FirstFailure(outputFormats, old(name2val)) == |outputFormats|
      ensures name2val == if ok then [] else old(name2val)
      ensures forall i :: 0 <= i < FirstFailure(outputFormats, old(name2val)) ==>
                outputFormats[i].written
                == old(outputFormats[i].written) + KvsText(outputFormats[i].kind, old(name2val), fmtG, toJson).value
      ensures forall i :: FirstFailure(outputFormats, old(name2val)) <= i < |outputFormats| ==>
                outputFormats[i].written == old(outputFormats[i].written)
    {
      ok := WriteKvsAll(outputFormats, name2val, fmtG, toJson);
      if ok {
        name2val := [];
      }
    }

    /** `log`: the timestamp followed by the arguments goes to every format
        exactly when the message's level reaches the logger's threshold. */
    method Log(args: seq<string>, level: int, timestamp: string)
      requires Valid()
      modifies set f | f in outputFormats
      ensures forall i :: 0 <= i < |outputFormats| ==>
                outputFormats[i].written
                == old(outputFormats[i].written)
                   + (if Passes(this.level, level) then SeqText(outputFormats[i].kind, [timestamp] + args) else "")
    {
      if this.level <= level {
        WriteSeqAll(outputFormats, [timestamp] + args);
      }
    }

    method SetLevel(level: int)
      modifies this
      ensures this.level == level && name2val == old(name2val)
    {
      this.level := level;
    }

    function GetDir(): Option<string>
      reads this
    {
      path
    }
  }

  /** `Logger.DEFAULT` and `Logger.CURRENT`, with the module-level functions
      that act on `current`, the saver forwards among them. */
  class Loggers {
    const default: Logger
    var current: Logger

    ghost predicate Valid()
      reads this, current, default
    {
      current.Valid() && default.Valid()
    }

    /** The default logger writes to standard output only, has no path and
        therefore a `Nop` saver. */
    constructor ()
      ensures Valid() && fresh(default) && current == default
      ensures default.name2val == [] && default.level == INFO
      ensures default.GetDir() == None && default.saver == Nop
      ensures |default.outputFormats| == 1 && fresh(default.outputFormats[0])
      ensures default.outputFormats[0].kind == Human && default.outputFormats[0].stream == Stdout
    {
      var out := new OutputFormat(Human, Stdout);
      default := new Logger(None, [out], None);
      current := default;
    }

    function GetLevel(): int
      reads this, current
    {
      current.level
    }

    function GetDir(): Option<string>
      reads this, current
    {
      current.GetDir()
    }

    method SetLevel(level: int)
      requires Valid()
      modifies current
      ensures Valid() && current == old(current)
      ensures GetLevel() == level && current.name2val == old(current.name2val)
    {
      current.SetLevel(level);
    }

    /** `save_state(index, state)`: the path of the snapshot saver the state
        is handed to, or None when the current saver is a `Nop`, which drops it. */
    method SaveState<S>(index: int, state: S) returns (target: Option<string>)
      requires Valid()
      ensures target.None? <==> current.path.None?
      ensures target.Some? ==> target == current.GetDir()
    {
      match current.saver
      case Nop =>
        target := None;
      case Snapshot(p) =>
        target := Some(p);
    }

    /** `get_state()`: None from a `Nop` saver; otherwise what the snapshot
        saver on the current path answers, given as `snapshotState`. */
    method GetState<S>(snapshotState: string -> Option<S>) returns (r: Option<S>)
      requires Valid()
      ensures current.path.None? ==> r.None?
      ensures current.path.Some? ==> r == snapshotState(current.path.value)
    {
      match current.saver
      case Nop =>
        r := None;
      case Snapshot(p) =>
        r := snapshotState(p);
    }

    /** `get_config()`: None from a `Nop` saver; otherwise what the snapshot
        saver on the current path answers, given as `snapshotConfig`. */
    method GetConfig<C>(snapshotConfig: string -> Option<C>) returns (r: Option<C>)
      requires Valid()
      ensures current.path.None? ==> r.None?
      ensures current.path.Some? ==> r == snapshotConfig(current.path.value)
    {
      match current.saver
      case Nop =>
        r := None;
      case Snapshot(p) =>
        r := snapshotConfig(p);
    }
  }

  /** A `session`: the output formats opened for `path`, installed as a new
      current logger on entry. */
  class Session {
    const path: string
    const expName: Option<string>
    const outputFormats: seq<OutputFormat>

    constructor (path: string, expName: Option<string>, outputFormats: seq<OutputFormat>)
      requires Distinct(outputFormats)
      ensures this.path == path && this.expName == expName && this.outputFormats == outputFormats
    {
      this.path := path;
      this.expName := expName;
      this.outputFormats := outputFormats;
    }

    ghost predicate Valid()
      reads this
    {
      Distinct(outputFormats)
    }

    /** `session(format_strs, path=..., exp_name=...)`: one format per name,
        the default names being `['log', 'json']`; an unknown name raises. */
    static method Open(path: string, expName: Option<string>, formatStrs: Option<seq<string>>)
      returns (r: Option<Session>)
      ensures var names := if formatStrs.Some? then formatStrs.value else LOG_OUTPUT_FORMATS;
              r.Some? <==> forall i :: 0 <= i < |names| ==> FormatFor(names[i], path).Some?
      ensures r.Some? ==> fresh(r.value) && r.value.Valid() && r.value.path == path && r.value.expName == expName
      ensures r.Some? ==>
                var names := if formatStrs.Some? then formatStrs.value else LOG_OUTPUT_FORMATS;
                |r.value.outputFormats| == |names|
                && forall i :: 0 <= i < |names| ==>
                     (r.value.outputFormats[i].kind, r.value.outputFormats[i].stream) == FormatFor(names[i], path).value
    {
      var names := if formatStrs.Some? then formatStrs.value else LOG_OUTPUT_FORMATS;
      var fs := MakeOutputFormats(names, path);
      if fs.None? {
        return None;
      }
      var s := new Session(path, expName, fs.value);
      r := Some(s);
    }

    /** `__enter__`: a fresh logger on this session's formats and path becomes
        current, with an empty dictionary, threshold INFO and a snapshot saver. */
    method Enter(loggers: Loggers)
      requires Valid() && loggers.Valid()
      modifies loggers
      ensures loggers.Valid() && fresh(loggers.current)
      ensures loggers.current.name2val == [] && loggers.current.level == INFO
      ensures loggers.current.GetDir() == Some(path) && loggers.current.saver == Snapshot(path)
      ensures loggers.current.outputFormats == outputFormats && loggers.current.expName == expName
    {
      loggers.current := new Logger(Some(path), outputFormats, expName);
    }

    /** `__exit__`: closing the current logger closes each of its formats,
        which does nothing; the default logger becomes current again. */
    method Exit(loggers: Loggers)
      requires loggers.Valid()
      modifies loggers
      ensures loggers.Valid() && loggers.current == loggers.default
    {
      loggers.current := loggers.default;
    }
  }
}
