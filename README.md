# pgtorch core, modelled in Dafny

This project models the parts of the pgtorch repository that change state step by step. Each part is modelled with contracts that the verifier proves.

- **The DDPG replay buffer** (`proj/algorithms/ddpg.py`). The buffer is a ring of five parallel arrays: first observations, actions, rewards, second observations and done flags. A write pointer wraps around the capacity. A sampler draws minibatches from the filled part. The model is the class `ReplayBuffers.ReplayBuffer`. Its arrays are updated in place. A ghost history of every stored transition lets the contracts say what the buffer holds. Slot `j mod capacity` holds the `j`-th transition whenever `j` is among the last `capacity` stores, and a full buffer overwrites its oldest transition.
- **The command-line front end** (`proj/run.py`). `parse_and_execute_grid_search` turns the tokens after an algorithm name into an experiment grid:
  - a first pass groups values under flags;
  - a second pass gives a bare flag the value `True`;
  - the run keys `log_dir` and `datestamp` are separated out;
  - the experiment name is taken out;
  - every `env` value must be a registered environment.

  The model keeps the source's loops as methods (`CollectFlags`, `FillBareFlags`, `ExtractRunKwargs`, `CheckEnvs`, `ParseAndExecuteGridSearch`). Each method is proved equal to a functional specification (`Collect`, `FillBare`, `TakeRunKeys`, `FirstUnregistered`, `Parse`). The lemmas characterise that specification independently. For example, every flag's values are the non-flag tokens after its last occurrence. The `__main__` dispatch is the function `RunScript`. It sends algorithm names to the parser and utility names to a script path.
- **The two loggers** (`proj/common/logger.py` and `proj/utils/logger.py`). The model covers:
  - the level threshold;
  - `_truncate`;
  - the human-readable table that `writekvs` writes;
  - `writeseq`;
  - `make_output_format`;
  - a `Logger` whose `logkv`, `dumpkvs`, `log` and `set_level` update its ordered dictionary, level and output formats in place;
  - the class-level `DEFAULT`/`CURRENT` loggers;
  - the `session` context manager that swaps `CURRENT`.

  The logger in `proj/utils/logger.py` also keeps a `path`, an experiment name and a saver. The saver is a `Nop` when there is no path and a snapshot saver otherwise. `save_state`, `get_state` and `get_config` are forwarded to that saver.

A Python dictionary is modelled as the sequence of its items in insertion order (module `OrderedMaps`). Assigning to an existing key keeps that key's position. `del` removes the item and keeps the order of the others. Output formats record everything they write in a `written` string.

Modules: `OrderedMaps` (ordered_maps.dfy), `LogOutput` (log_output.dfy), `CommonLogger` (common_logger.dfy), `UtilsLogger` (utils_logger.dfy), `ReplayBuffers` (replay_buffer.dfy), `GridSearchArgs` (grid_args.dfy).

## Model

| member | source | states |
|---|---|---|
| OrderedMaps.Put | proj/common/logger.py:222-223 | Assigning a key keeps the dictionary free of duplicates. An existing key keeps its position; a new key goes last. The key now maps to the value and every other key is unchanged. |
| OrderedMaps.Delete | proj/run.py:68 | `del d[k]` removes exactly `k`. The remaining keys keep their order and their values. |
| OrderedMaps.LastValue | proj/common/logger.py:72-75 | After a series of assignments, a key holds the value of its last assignment, and it is absent iff it was never assigned. |
| OrderedMaps.FromPairsSpec | proj/common/logger.py:72-75 | The dictionary built by assigning pairs in order has the keys in first-assignment order, and each key maps to its last assigned value. |
| OrderedMaps.DedupSpec | proj/common/logger.py:72-75 | First-assignment order has no duplicates and holds exactly the assigned keys. Keys are ordered by their first assignment. |
| LogOutput.Truncate | proj/common/logger.py:97-98 | A cell is at most 23 characters long. It is unchanged iff it already fits. Otherwise it is its first 20 characters followed by `...`. |
| LogOutput.TruncateIdempotent | proj/common/logger.py:97-98 | Truncating twice is the same as truncating once. |
| LogOutput.MaxLen | proj/common/logger.py:78-79 | The column width is at least every cell's length and equals the length of some cell. |
| LogOutput.KeyWidth | proj/common/logger.py:78 | The key column is at least as wide as every truncated key, and some key is exactly that wide: the longest one. |
| LogOutput.ValWidth | proj/common/logger.py:79 | The value column is at least as wide as every truncated value, and some value is exactly that wide: the longest one. |
| LogOutput.Key2StrSpec | proj/common/logger.py:72-75 | The table's rows are the truncated keys in first-logged order. When truncation makes two keys equal, the later value wins. |
| LogOutput.TableLines | proj/common/logger.py:70-95 | A human table exists iff the dictionary is non-empty. `max` of an empty sequence raises. |
| LogOutput.TableShape | proj/common/logger.py:82-91 | The table has one line per row plus two rules of dashes, and the first and last lines are equal. Every line is keywidth + valwidth + 7 wide. Row `i` shows key `i` after the opening bar, the column separator at the value column, then value `i`. |
| LogOutput.RowShape | proj/common/logger.py:85-90 | A row is keywidth + valwidth + 7 characters long. It holds an opening bar and space, the key, spaces up to the key width, the column separator (space, bar, space), the value, spaces up to the value width, and a closing space and bar. |
| LogOutput.KvsText | proj/common/logger.py:111-117 | Writing a dictionary fails exactly for a human format given an empty dictionary. A JSON format always writes. |
| LogOutput.OutputFormat.constructor | proj/common/logger.py:66-68 | A new format has its kind and stream and has written nothing. |
| LogOutput.OutputFormat.WriteKvs | proj/common/logger.py:70-95 | `writekvs` succeeds unless the format is human and the dictionary is empty. On success it appends the table, or the JSON line, to what was written; on failure it writes nothing. |
| LogOutput.OutputFormat.WriteSeq | proj/common/logger.py:100-104 | A human format appends the arguments with no separator, followed by a newline. A JSON format writes nothing, because it inherits the base `writeseq`. |
| LogOutput.FirstFailure | proj/common/logger.py:225-228 | This is the position of the first format that raises on the dictionary, or the number of formats when none raises. |
| LogOutput.WriteKvsAll | proj/common/logger.py:225-228 | The formats write in list order. Every format before the first failing one has appended its text. That format and the ones after it are unchanged. |
| LogOutput.WriteSeqAll | proj/common/logger.py:250-252 | Every format appends its `writeseq` text for the arguments. |
| LogOutput.FormatFor | proj/common/logger.py:120-131 | The accepted names are exactly `stdout`, `log` and `json`. Any other name raises. |
| LogOutput.MakeOutputFormat | proj/common/logger.py:120-131 | A fresh format is returned iff the name is accepted. `stdout` gives a human format on standard output, `log` a human format on `<dir>/log.txt`, and `json` a JSON format on `<dir>/progress.json`. |
| LogOutput.MakeOutputFormats | proj/common/logger.py:269-273 | One fresh, distinct format per name, in order, iff every name is accepted. |
| CommonLogger.Logger.constructor | proj/common/logger.py:214-218 | A new logger has an empty dictionary, level INFO, its directory and its formats. |
| CommonLogger.Logger.LogKv | proj/common/logger.py:222-223 | `logkv` assigns the value in the ordered dictionary and leaves the level unchanged. |
| CommonLogger.Logger.DumpKvs | proj/common/logger.py:225-228 | Each format writes the dictionary in order. The dictionary is cleared iff no format raised. If one raised, it and the later formats wrote nothing. |
| CommonLogger.Logger.Log | proj/common/logger.py:230-234 | When the message level reaches the threshold, every format gets the timestamp followed by the arguments. Otherwise nothing is written. |
| CommonLogger.Logger.SetLevel | proj/common/logger.py:238-239 | The threshold becomes the given level and the dictionary is unchanged. |
| CommonLogger.Loggers.constructor | proj/common/logger.py:257-259 | `DEFAULT` is a fresh logger with no directory and a single human format on standard output. `CURRENT` starts as `DEFAULT`. |
| CommonLogger.Loggers.SetLevel | proj/common/logger.py:181-192 | `set_level` changes the level of the current logger, which `get_level` then returns. The current logger stays current and its dictionary is unchanged. |
| CommonLogger.Session.Open | proj/common/logger.py:269-273 | A session opens one format per name, `['log', 'json']` by default. It fails iff some name is unknown. |
| CommonLogger.Session.Enter | proj/common/logger.py:275-277 | On entry, a fresh logger on the session's directory and formats becomes current, with an empty dictionary and level INFO. |
| CommonLogger.Session.Exit | proj/common/logger.py:279-281 | On exit, `DEFAULT` becomes current again. |
| UtilsLogger.Logger.constructor | proj/utils/logger.py:235-244 | A new logger has an empty dictionary, level INFO, its path, experiment name and formats. Its saver is a `Nop` iff the path is None. |
| UtilsLogger.Logger.LogKv | proj/utils/logger.py:248-249 | `logkv` assigns the value in the ordered dictionary. |
| UtilsLogger.Logger.DumpKvs | proj/utils/logger.py:251-254 | As in the common logger: formats write in order and the dictionary is cleared iff none raised. |
| UtilsLogger.Logger.Log | proj/utils/logger.py:256-260 | The timestamp and arguments reach every format iff the level passes the threshold. |
| UtilsLogger.Logger.SetLevel | proj/utils/logger.py:272-273 | The threshold becomes the given level. |
| UtilsLogger.Loggers.constructor | proj/utils/logger.py:291-293 | `DEFAULT` has no path, a `Nop` saver and one human format on standard output. It is current. |
| UtilsLogger.Loggers.SetLevel | proj/utils/logger.py:178-189 | `set_level` changes the level of the current logger, which `get_level` then returns. The current logger stays current and its dictionary is unchanged. |
| UtilsLogger.Loggers.SaveState | proj/utils/logger.py:210-211 | The state goes to the snapshot saver on the current path, or is dropped when there is no path. |
| UtilsLogger.Loggers.GetState | proj/utils/logger.py:214-215 | Returns None when there is no path; otherwise returns the snapshot saver's state for that path. |
| UtilsLogger.Loggers.GetConfig | proj/utils/logger.py:206-207 | Returns None when there is no path; otherwise returns the snapshot saver's config for that path. |
| UtilsLogger.Session.Open | proj/utils/logger.py:303-309 | One format per name, `['log', 'json']` by default, on the session's path. It fails iff a name is unknown. |
| UtilsLogger.Session.Enter | proj/utils/logger.py:311-319 | A fresh logger on the session's path, experiment name and formats becomes current. It has a snapshot saver on that path. |
| UtilsLogger.Session.Exit | proj/utils/logger.py:321-325 | `DEFAULT` becomes current again. |
| ReplayBuffers.RingHoldsLatest | proj/algorithms/ddpg.py:20-27 | After any history of stores, slot `j mod capacity` holds the `j`-th transition for each of the last `capacity` transitions. |
| ReplayBuffers.RingSlots | proj/algorithms/ddpg.py:20-27 | Every filled slot holds one of the last `capacity` transitions stored. |
| ReplayBuffers.OverwritesOldest | proj/algorithms/ddpg.py:20-27 | A store into a full buffer replaces exactly the oldest transition. Every other slot keeps its content. |
| ReplayBuffers.RingSnoc | proj/algorithms/ddpg.py:20-27 | A store appends while the buffer is not full, and replaces the slot at the pointer once it is. |
| ReplayBuffers.ReplayBuffer.constructor | proj/algorithms/ddpg.py:12-18 | A new buffer has five fresh arrays of the given capacity, pointer 0, size 0 and no history. |
| ReplayBuffers.ReplayBuffer.Store | proj/algorithms/ddpg.py:20-27 | `store` writes the transition into the five arrays at the pointer and changes nothing else in them. The pointer advances modulo the capacity and the size saturates at the capacity. With capacity 0 the write raises and nothing changes. |
| ReplayBuffers.ReplayBuffer.HoldsLatest | proj/algorithms/ddpg.py:20-27 | The buffer's rows hold the last `capacity` stored transitions at their ring positions. |
| ReplayBuffers.ReplayBuffer.RowsAreRecent | proj/algorithms/ddpg.py:29-39 | Every row in the filled part is one of the most recent transitions. |
| ReplayBuffers.ReplayBuffer.Sample | proj/algorithms/ddpg.py:29-39 | The sampler yields `num_mbs` minibatches of `mb_size` transitions, drawn with replacement from the filled rows, so each is a recent transition. It fails iff the buffer is empty or a count is not positive. |
| GridSearchArgs.StripDashesSpec | proj/run.py:46 | `lstrip('-')` removes exactly the leading dashes: the result is a suffix that does not start with a dash. |
| GridSearchArgs.LastFlag | proj/run.py:42-49 | The last position of a flag for a key: no later token is a flag for that key. It is None iff no token is. |
| GridSearchArgs.RunSpec | proj/run.py:42-49 | The values after a flag are the longest prefix of non-flag tokens. They stop at the next flag. |
| GridSearchArgs.Collect | proj/run.py:41-49 | The first pass yields a duplicate-free dictionary, and the current flag is one of its keys. |
| GridSearchArgs.Step | proj/run.py:42-49 | One token fails the pass iff it is a value with no flag before it. |
| GridSearchArgs.CollectFails | proj/run.py:43-44 | The first pass fails iff the first token is not a flag. |
| GridSearchArgs.CollectKeys | proj/run.py:41-49 | The dictionary's keys are the flags' keys in order of first appearance. A repeated flag keeps its first position. |
| GridSearchArgs.CollectCur | proj/run.py:45-47 | The current key is the key of the last flag so far. |
| GridSearchArgs.ValuesOfFlag | proj/run.py:45-47 | A flag resets its key's list to empty. Other keys are unaffected. |
| GridSearchArgs.ValuesOfValueCur | proj/run.py:48-49 | A value token is appended, evaluated, to the current key's list. |
| GridSearchArgs.ValuesOfValueOther | proj/run.py:48-49 | A value token leaves every other key's list unchanged. |
| GridSearchArgs.CollectValues | proj/run.py:41-49 | Each key maps to the evaluated values after its last flag, up to the next flag. |
| GridSearchArgs.CollectFlags | proj/run.py:41-49 | The first-pass loop fails iff the specification fails, and otherwise returns its dictionary. |
| GridSearchArgs.FillBare | proj/run.py:54-56 | The keys and their order are kept, and no list is left empty. |
| GridSearchArgs.FillBareGet | proj/run.py:54-56 | A flag with no values gets `[True]`; every other list is unchanged. |
| GridSearchArgs.FillBareFlags | proj/run.py:54-56 | The second-pass loop computes `FillBare`. |
| GridSearchArgs.TakeRunKeys | proj/run.py:61-68 | The third pass keeps both dictionaries free of duplicates. It fails only on one of the keys checked. |
| GridSearchArgs.TakeRunKeysOutcome | proj/run.py:62-66 | The pass succeeds iff every run key present has exactly one value. Otherwise it reports the first run key that does not. |
| GridSearchArgs.TakeRunKeysDict | proj/run.py:62-68 | On success, the run keys are deleted from the flag dictionary. The other keys keep their order and values. |
| GridSearchArgs.TakeRunKeysKwargKeys | proj/run.py:61-67 | The run arguments hold the present run keys in `RUN_KEYS` order. |
| GridSearchArgs.TakeRunKeysKwargs | proj/run.py:61-67 | Each present run key's single value becomes its run argument. |
| GridSearchArgs.RunKeysSpec | proj/run.py:61-68 | With `RUN_KEYS`, on success `log_dir` and `datestamp` leave the dictionary and their first values become run arguments. |
| GridSearchArgs.RunKeysOk | proj/run.py:62-66 | The pass fails iff `log_dir` or `datestamp` has more than one value. It names `log_dir` first. |
| GridSearchArgs.ExtractRunKwargs | proj/run.py:61-68 | The third-pass loop computes `TakeRunKeys`. |
| GridSearchArgs.TakeExpName | proj/run.py:72-78 | `exp_name` with more than one value fails. Otherwise it is deleted and its value becomes the name. When absent, the name is `cmd_<cmd>`. Every other key is unchanged. |
| GridSearchArgs.FirstUnregisteredSpec | proj/run.py:85-99 | The check passes iff every `env` value is registered. Otherwise it reports the first value that is not. |
| GridSearchArgs.CheckEnvs | proj/run.py:85-99 | The loop over the `env` values reports the first unregistered one. |
| GridSearchArgs.ArgDictSpec | proj/run.py:41-56 | The flag dictionary exists iff the first token is a flag. Its keys are the flags in first-appearance order. Each maps to its values, or to `[True]` when it has none. |
| GridSearchArgs.ParseLaunches | proj/run.py:18-106 | The grid is launched iff no help token is given, the first token is a flag, each special key has at most one value, and `env` is given with every value registered. |
| GridSearchArgs.SpecialPasses | proj/run.py:61-78 | The run-key and `exp_name` passes both succeed iff each special key has at most one value. `env` passes through untouched. |
| GridSearchArgs.ParseGrid | proj/run.py:102-106 | The grid gets every flag except `log_dir`, `datestamp` and `exp_name`, in first-appearance order and with its values. |
| GridSearchArgs.ParseName | proj/run.py:72-78 | The experiment name is the single `exp_name` value, or `cmd_<cmd>` when there is none. |
| GridSearchArgs.ParseRunKwargs | proj/run.py:61-68 | The run arguments are exactly the present run keys with their single values. |
| GridSearchArgs.ParseFailures | proj/run.py:41-99 | Parsing fails with "no first flag" iff there is no help token and the first token is not a flag. A missing `env` fails. An unregistered value fails naming a value of `env`. |
| GridSearchArgs.ParseEnvFailures | proj/run.py:80-99 | Once the special keys pass, parsing fails with `NoEnv` iff `env` is absent. It fails on an environment iff some `env` value is unregistered, and it names the first such value in order. |
| GridSearchArgs.ParseAndExecuteGridSearch | proj/run.py:18-106 | The help scan and the passes, as the source runs them, give exactly the outcome `Parse` specifies. |
| GridSearchArgs.RunScriptCommand | proj/run.py:109-119 | A missing command fails. A name that is neither an algorithm nor a utility is refused. An algorithm's remaining arguments are parsed. A utility gets the command line `UtilityArgv` builds. |
| GridSearchArgs.UtilityArgvSpec | proj/run.py:121-129 | The utility's command line names an interpreter, `python` when none is known. The script is `<here>/utils/<name>.py`, joined as one relative path (`plot` runs `viskit/frontend`). The remaining arguments follow unchanged. |
| LogOutput.PathJoinAssoc | proj/run.py:124-126 | Joining a directory and then a name under it gives the same path as joining the directory with `sub/name`, for any directory. |

## Left out

- `eval`: evaluating a value token is the parameter `process`. Its result is an opaque value, a string or a boolean. A token whose evaluation raises is kept as a string, which is what `process` returns for it.
- The gym registry: the registered environment ids are the parameter `envs`. Only a string value can match one.
- `ExperimentGrid`: the grid is not built and `eg.run` is not executed. The model stops at the name, flag dictionary and run arguments that would be passed to them.
- Printing the algorithm's docstring and `sys.exit`: these become the outcome `ShowHelp`.
- `subprocess.check_call`: the utility command line is the result, not a process.
- `sys.executable` and the script's own directory are the parameters `executable` and `here`.
- The `friendly_err` messages are not modelled. The error cases are the `ParseError` values.
- The `%-8.5g` number format is the parameter `fmtG`.
- `json.dumps` is the parameter `toJson`.
- The JSON format's in-place conversion of tensor values to floats is not modelled.
- Date and time formatting of the log timestamp: the timestamp is a parameter of `Log`.
- File and console I/O: each format records the text it appends in `written`. Flushing, `os.makedirs` and file opening are not modelled.
- `close`: it does nothing for every format in the source, so `Exit` only swaps `CURRENT`.
- `evaluation_dir` is not modelled. It only returns the session's directory, which `Enter` uses.
- The module-level `logkv`, `dumpkvs` and `log` forward to `CURRENT`; in the model they are calls on `Loggers.current`.
- `debug`, `info`, `warn` and `error` are `log` at the fixed levels DEBUG, INFO, WARN and ERROR. Their effect is what `Logger.Log` states for those levels.
- `save_config` and `convert_json` write JSON files and are not modelled.
- `tqdm` redirection in the session is not modelled.
- The snapshot saver's own behaviour is not modelled. The model keeps only the path it is created on, and `get_state`/`get_config` answers are parameters.
- `SnapshotSaver` keyword arguments beyond the path and experiment name are not modelled.
- The session of `proj/utils/logger.py` requires a `path` string: a missing or None path raises in the source before a logger is made, and the model takes a string.
- `CommonLogger.Loggers.GetDir`, `UtilsLogger.Loggers.GetDir`, `CommonLogger.Loggers.GetLevel` and `UtilsLogger.Loggers.GetLevel` carry no contract of their own. What they return is stated by the constructor, `SetLevel`, `Enter` and `Exit` contracts.
- `ReplayBuffers.ReplayBuffer.Sample`: torch's random sampler is modelled as an arbitrary choice among the filled rows, so the model states which rows can be drawn but not their distribution.
- `ReplayBuffers.ReplayBuffer.Sample`: the `DataLoader`'s lazy iteration is drawn eagerly into a list of minibatches, and tensors are rows of the five arrays.
- `ReplayBuffers.ReplayBuffer.Sample`: the errors torch raises for an empty buffer or a non-positive count become `None`.
- Observation and action shapes are abstracted to one element type each, and tensor element types are `real`.
- `GridSearchArgs.Parse` does not model `eval('proj.algorithms.'+cmd)` at `proj/run.py:20`. That lookup runs before the help check and raises when no algorithm module of that name is loaded. The model assumes every name in `VALID_ALGOS` (`a2c`, `ppo` and `acktr` included) resolves, and `RunScript` parses their arguments without that failure.
- `LogOutput.LogValue` admits only numbers and strings. In the source a value without `__float__` reaches `_truncate` unchanged. `None` makes `len` raise there, and a list is truncated as a list. The model does not capture these values or that failure.
- `CommonLogger.Logger.Log`, `UtilsLogger.Logger.Log` and `LogOutput.OutputFormat.WriteSeq` take only strings. In the source, `self.file.write(arg)` raises on a non-string argument after the earlier arguments were written; that partial write is not modelled.
- The TRPO, natural-gradient, vanilla and DDPG training loops are not modelled. The experiment scripts are not part of this model.
