/** The output side shared by both loggers (proj/common/logger.py and
    proj/utils/logger.py define it identically): logging levels, the
    human-readable table, the JSON line, and the output-format objects
    that append text to their stream. */
module LogOutput {
  import opened OrderedMaps

  const DEBUG: int := 10
  const INFO: int := 20
  const WARN: int := 30
  const ERROR: int := 40
  const DISABLED: int := 50

  /** The format names a session opens when it is given none. */
  const LOG_OUTPUT_FORMATS: seq<string> := ["log", "json"]

  /** A message logged at `level` reaches the formats of a logger whose
      threshold is `threshold`. */
  predicate Passes(threshold: int, level: int) {
    threshold <= level
  }

  /** A diagnostic value: a number (anything with `__float__`) or a string. */
  datatype LogValue = Num(x: real) | Text(s: string)

  const MAX_CELL: nat := 23

  /** `HumanOutputFormat._truncate`: long cells are cut to 20 characters
      followed by an ellipsis. */
  function Truncate(s: string): (r: string)
    ensures |r| <= MAX_CELL
    ensures r == s <==> |s| <= MAX_CELL
    ensures |s| > MAX_CELL ==> |r| == MAX_CELL && r[..20] == s[..20] && r[20..] == "..."
  {
    if |s| > MAX_CELL then s[..20] + "..." else s
  }

  lemma TruncateIdempotent(s: string)
    ensures Truncate(Truncate(s)) == Truncate(s)
  {
  }

  /** The text of a value: numbers go through the `%-8.5g` formatter `fmtG`,
      strings are used as they are. */
  function ValStr(v: LogValue, fmtG: real -> string): string {
    match v
    case Num(x) => fmtG(x)
    case Text(s) => s
  }

  /** The truncated (key, value) cells, one per logged item, in order. */
  function Cells(kvs: Entries<string, LogValue>, fmtG: real -> string): seq<(string, string)> {
    seq(|kvs|, i requires 0 <= i < |kvs| => (Truncate(kvs[i].0), Truncate(ValStr(kvs[i].1, fmtG))))
  }

  /** `key2str`: the cells assigned one after another into an ordered dictionary. */
  function Key2Str(kvs: Entries<string, LogValue>, fmtG: real -> string): Entries<string, string> {
    FromPairs(Cells(kvs, fmtG))
  }

  function Values<K, V>(d: Entries<K, V>): seq<V> {
    seq(|d|, i requires 0 <= i < |d| => d[i].1)
  }

  /** `max(map(len, ss))`. */
  function MaxLen(ss: seq<string>): (m: nat)
    requires |ss| > 0
    ensures forall i :: 0 <= i < |ss| ==> |ss[i]| <= m
    ensures exists i :: 0 <= i < |ss| && |ss[i]| == m
  {
    if |ss| == 1 then |ss[0]|
    else
      var m := MaxLen(ss[1..]);
      assert forall i :: 1 <= i < |ss| ==> ss[i] == ss[1..][i - 1];
      if |ss[0]| >= m then |ss[0]| else m
  }

  function Repeat(c: char, n: nat): string {
    seq(n, _ => c)
  }

  lemma RepeatOnly(c: char, n: nat)
    ensures |Repeat(c, n)| == n && forall x :: x in Repeat(c, n) ==> x == c
  {
  }

  /** `'| %s%s | %s%s |'`: a key and a value, each padded to its column width. */
  function TableRow(key: string, val: string, keyWidth: nat, valWidth: nat): string
    requires |key| <= keyWidth && |val| <= valWidth
  {
    "| " + key + Repeat(' ', keyWidth - |key|) + " | " + val + Repeat(' ', valWidth - |val|) + " |"
  }

  /** The lines `HumanOutputFormat.writekvs` writes: a dash rule, one row per
      cell of `key2str`, a dash rule. There is none for an empty dictionary,
      where `max` of an empty sequence raises. */
  function TableLines(kvs: Entries<string, LogValue>, fmtG: real -> string): (r: Option<seq<string>>)
    ensures r.None? <==> kvs == []
  {
    if kvs == [] then None else Some(Table(Key2Str(kvs, fmtG)))
  }

  /** The column widths of a non-empty `key2str`. */
  function KeyWidth(cells: Entries<string, string>): (w: nat)
    requires cells != []
    ensures forall i :: 0 <= i < |cells| ==> |cells[i].0| <= w
    ensures exists i :: 0 <= i < |cells| && |cells[i].0| == w
  {
    assert forall i :: 0 <= i < |cells| ==> Keys(cells)[i] == cells[i].0;
    MaxLen(Keys(cells))
  }

  function ValWidth(cells: Entries<string, string>): (w: nat)
    requires cells != []
    ensures forall i :: 0 <= i < |cells| ==> |cells[i].1| <= w
    ensures exists i :: 0 <= i < |cells| && |cells[i].1| == w
  {
    assert forall i :: 0 <= i < |cells| ==> Values(cells)[i] == cells[i].1;
    MaxLen(Values(cells))
  }

  function Table(cells: Entries<string, string>): seq<string>
    requires cells != []
  {
    var dashes := Repeat('-', KeyWidth(cells) + ValWidth(cells) + 7);
    [dashes] + Rows(cells, KeyWidth(cells), ValWidth(cells)) + [dashes]
  }

  /** One row per cell, in the dictionary's order. */
  function Rows(cells: Entries<string, string>, keyWidth: nat, valWidth: nat): seq<string>
    requires forall i :: 0 <= i < |cells| ==> |cells[i].0| <= keyWidth && |cells[i].1| <= valWidth
  {
    seq(|cells|, i requires 0 <= i < |cells| => TableRow(cells[i].0, cells[i].1, keyWidth, valWidth))
  }

  /** The table has a dash rule above and below and one row per cell of
      `key2str`, in order, showing its key in the first column and its value
      in the second; every line is exactly as wide as the rule, whose width
      is the two column widths plus 7. */
  lemma TableShape(cells: Entries<string, string>)
    requires cells != []
    ensures var lines := Table(cells);
            && |lines| == |cells| + 2
            && lines[|lines| - 1] == lines[0]
            && (forall c :: c in lines[0] ==> c == '-')
            && (forall i :: 0 <= i < |lines| ==> |lines[i]| == |lines[0]|)
            && |lines[0]| == KeyWidth(cells) + ValWidth(cells) + 7
            && (forall i :: 0 <= i < |cells| ==> ShowsCell(lines[i + 1], cells[i].0, cells[i].1, KeyWidth(cells)))
  {
    TableRule(cells);
    TableWidths(cells);
    TableCells(cells);
  }

  /** `line` shows `key` in a first column `keyWidth` wide and `val` at the
      start of the second: `| `, the key, then ` | ` and the value. */
  predicate ShowsCell(line: string, key: string, val: string, keyWidth: nat)
  {
    |key| <= keyWidth && |line| >= keyWidth + 5 + |val|
    && line[..2] == "| " && line[2..2 + |key|] == key
    && line[keyWidth + 2..keyWidth + 5] == " | " && line[keyWidth + 5..keyWidth + 5 + |val|] == val
  }

  lemma TableRule(cells: Entries<string, string>)
    requires cells != []
    ensures var lines := Table(cells);
            && |lines| == |cells| + 2
            && lines[|lines| - 1] == lines[0]
            && (forall c :: c in lines[0] ==> c == '-')
            && |lines[0]| == KeyWidth(cells) + ValWidth(cells) + 7
  {
    RepeatOnly('-', KeyWidth(cells) + ValWidth(cells) + 7);
  }

  lemma TableWidths(cells: Entries<string, string>)
    requires cells != []
    ensures var lines := Table(cells);
            forall i :: 0 <= i < |lines| ==> |lines[i]| == KeyWidth(cells) + ValWidth(cells) + 7
  {
    var keyWidth, valWidth := KeyWidth(cells), ValWidth(cells);
    var dashes := Repeat('-', keyWidth + valWidth + 7);
    var rows := Rows(cells, keyWidth, valWidth);
    var lines := Table(cells);
    assert lines == [dashes] + rows + [dashes];
    forall i | 0 <= i < |lines|
      ensures |lines[i]| == |dashes|
    {
      if 0 < i < |lines| - 1 {
        assert lines[i] == rows[i - 1];
        RowKey(cells[i - 1].0, cells[i - 1].1, keyWidth, valWidth);
      }
    }
  }

  lemma TableCells(cells: Entries<string, string>)
    requires cells != []
    ensures var lines := Table(cells);
            |lines| == |cells| + 2
            && forall i :: 0 <= i < |cells| ==> ShowsCell(lines[i + 1], cells[i].0, cells[i].1, KeyWidth(cells))
  {
    var keyWidth, valWidth := KeyWidth(cells), ValWidth(cells);
    var dashes := Repeat('-', keyWidth + valWidth + 7);
    var rows := Rows(cells, keyWidth, valWidth);
    var lines := Table(cells);
    assert lines == [dashes] + rows + [dashes];
    forall i | 0 <= i < |cells|
      ensures ShowsCell(lines[i + 1], cells[i].0, cells[i].1, keyWidth)
    {
      assert lines[i + 1] == rows[i];
      RowShape(cells[i].0, cells[i].1, keyWidth, valWidth);
    }
  }

  /** The rows of the table: one per distinct truncated key, in the order those
      keys were first logged, each holding the value logged last under it. */
  lemma Key2StrSpec(kvs: Entries<string, LogValue>, fmtG: real -> string)
    ensures Keys(Key2Str(kvs, fmtG)) == Dedup(Keys(Cells(kvs, fmtG)))
    ensures forall k :: Get(Key2Str(kvs, fmtG), k) == LastValue(Cells(kvs, fmtG), k)
  {
    FromPairsSpec(Cells(kvs, fmtG));
  }

  /** A row is as wide as the rule. The key comes first, padded with spaces
      to the key column's width; then the separator; then the value, padded
      with spaces to the value column's width; then the closing bar. */
  lemma RowShape(key: string, val: string, keyWidth: nat, valWidth: nat)
    requires |key| <= keyWidth && |val| <= valWidth
    ensures var row := TableRow(key, val, keyWidth, valWidth);
            |row| == keyWidth + valWidth + 7
            && row[..2] == "| " && row[2..2 + |key|] == key
            && (forall j :: 2 + |key| <= j < 2 + keyWidth ==> row[j] == ' ')
            && row[keyWidth + 2..keyWidth + 5] == " | "
            && row[keyWidth + 5..keyWidth + 5 + |val|] == val
            && (forall j :: keyWidth + 5 + |val| <= j < keyWidth + 5 + valWidth ==> row[j] == ' ')
            && row[keyWidth + 5 + valWidth..] == " |"
  {
    RowKey(key, val, keyWidth, valWidth);
    RowValue(key, val, keyWidth, valWidth);
  }

  lemma RowKey(key: string, val: string, keyWidth: nat, valWidth: nat)
    requires |key| <= keyWidth && |val| <= valWidth
    ensures var row := TableRow(key, val, keyWidth, valWidth);
            |row| == keyWidth + valWidth + 7
            && row[..2] == "| " && row[2..2 + |key|] == key
            && (forall j :: 2 + |key| <= j < 2 + keyWidth ==> row[j] == ' ')
  {
    var head := "| " + key;
    var pad := Repeat(' ', keyWidth - |key|);
    var rest := " | " + val + Repeat(' ', valWidth - |val|) + " |";
    var row := TableRow(key, val, keyWidth, valWidth);
    assert row == "| " + key + (pad + rest);
    PartAt(row, "| ", key, pad + rest);
    assert row == head + (pad + rest);
    forall j | 2 + |key| <= j < 2 + keyWidth
      ensures row[j] == ' '
    {
      assert row[j] == (pad + rest)[j - |head|] == pad[j - |head|];
    }
  }

  lemma RowValue(key: string, val: string, keyWidth: nat, valWidth: nat)
    requires |key| <= keyWidth && |val| <= valWidth
    ensures var row := TableRow(key, val, keyWidth, valWidth);
            |row| == keyWidth + valWidth + 7
            && row[keyWidth + 2..keyWidth + 5] == " | "
            && row[keyWidth + 5..keyWidth + 5 + |val|] == val
            && (forall j :: keyWidth + 5 + |val| <= j < keyWidth + 5 + valWidth ==> row[j] == ' ')
            && row[keyWidth + 5 + valWidth..] == " |"
  {
    var keyCol := "| " + key + Repeat(' ', keyWidth - |key|);
    var front := keyCol + " | ";
    var pad := Repeat(' ', valWidth - |val|);
    var row := TableRow(key, val, keyWidth, valWidth);
    assert row == front + val + pad + " |";
    AppendAssoc(front + val, pad, " |");
    PartAt(row, front, val, pad + " |");
    AppendAssoc(front, val, pad + " |");
    PartAt(row, keyCol, " | ", val + (pad + " |"));
    PartAt(row, front + val + pad, " |", []);
    forall j | keyWidth + 5 + |val| <= j < keyWidth + 5 + valWidth
      ensures row[j] == ' '
    {
      assert row[j] == (pad + " |")[j - |front + val|] == pad[j - |front + val|];
    }
  }

  /** The part `mid` of `pre + mid + post` is the slice after `pre`. */
  lemma PartAt<T>(s: seq<T>, pre: seq<T>, mid: seq<T>, post: seq<T>)
    requires s == pre + mid + post
    ensures s[|pre|..|pre| + |mid|] == mid
  {
    assert forall j :: 0 <= j < |mid| ==> s[|pre|..|pre| + |mid|][j] == mid[j];
  }

  /** `'\n'.join(lines) + '\n'`: every line followed by a newline. */
  function JoinLines(lines: seq<string>): string {
    if lines == [] then "" else lines[0] + "\n" + JoinLines(lines[1..])
  }

  /** The arguments written one after another. */
  function Concat(args: seq<string>): string {
    if args == [] then "" else args[0] + Concat(args[1..])
  }

  lemma {:induction false} ConcatSnoc(args: seq<string>, a: string)
    ensures Concat(args + [a]) == Concat(args) + a
  {
    if args != [] {
      assert (args + [a])[1..] == args[1..] + [a];
      ConcatSnoc(args[1..], a);
    }
  }

  datatype Kind = Human | Json

  /** Where a format's text goes: standard output or a file opened for appending. */
  datatype Stream = Stdout | File(path: string)

  /** The text a format of this kind appends for `writekvs`, if it does not
      raise. The JSON encoder `json.dumps` is the parameter `toJson`. */
  function KvsText(kind: Kind, kvs: Entries<string, LogValue>, fmtG: real -> string,
                   toJson: Entries<string, LogValue> -> string): (r: Option<string>)
    ensures r.None? <==> kind == Human && kvs == []
  {
    match kind
    case Human =>
      (match TableLines(kvs, fmtG)
       case None => None
       case Some(lines) => Some(JoinLines(lines)))
    case Json => Some(toJson(kvs) + "\n")
  }

  /** The text a format of this kind appends for `writeseq`: the human format
      writes each argument and a newline; the JSON format keeps the base
      class's `writeseq`, which does nothing. */
  function SeqText(kind: Kind, args: seq<string>): string {
    match kind
    case Human => Concat(args) + "\n"
    case Json => ""
  }

  class OutputFormat {
    const kind: Kind
    const stream: Stream
    /** Everything this format has written to its stream. */
    var written: string

    constructor (kind: Kind, stream: Stream)
      ensures this.kind == kind && this.stream == stream && written == ""
    {
      this.kind := kind;
      this.stream := stream;
      written := "";
    }

    /** `writekvs`; `ok` is false where the human format raises on an empty dictionary. */
    method WriteKvs(kvs: Entries<string, LogValue>, fmtG: real -> string,
                    toJson: Entries<string, LogValue> -> string) returns (ok: bool)
      modifies this
      ensures ok <==> !(kind == Human && kvs == [])
      ensures written == if ok then old(written) + KvsText(kind, kvs, fmtG, toJson).value
                         else old(written)
    {
      var text := KvsText(kind, kvs, fmtG, toJson);
      ok := text.Some?;
      if ok {
        written := written + text.value;
      }
    }

    /** `writeseq`: the human format writes the arguments in order, then a newline. */
    method WriteSeq(args: seq<string>)
      modifies this
      ensures written == old(written) + SeqText(kind, args)
    {
      if kind == Human {
        var i := 0;
        while i < |args|
          invariant 0 <= i <= |args|
          invariant written == old(written) + Concat(args[..i])
        {
          ConcatSnoc(args[..i], args[i]);
          assert args[..i + 1] == args[..i] + [args[i]];
          written := written + args[i];
          i := i + 1;
        }
        assert args[..i] == args;
        written := written + "\n";
      }
    }
  }

  /** No format object appears twice in a logger's list. */
  predicate Distinct(fs: seq<OutputFormat>) {
    forall i, j :: 0 <= i < j < |fs| ==> fs[i] != fs[j]
  }

  /** The position of the first format that raises on `kvs`, or `|fs|`. */
  function FirstFailure(fs: seq<OutputFormat>, kvs: Entries<string, LogValue>): (n: nat)
    ensures n <= |fs|
    ensures forall i :: 0 <= i < n ==> !(fs[i].kind == Human && kvs == [])
    ensures n < |fs| ==> fs[n].kind == Human && kvs == []
  {
    if fs == [] then 0
    else if fs[0].kind == Human && kvs == [] then 0
    else 1 + FirstFailure(fs[1..], kvs)
  }

  /** The loop of `Logger.dumpkvs`: each format in list order gets the same
      dictionary; the first format that raises stops the loop. */
  method WriteKvsAll(fs: seq<OutputFormat>, kvs: Entries<string, LogValue>, fmtG: real -> string,
                     toJson: Entries<string, LogValue> -> string) returns (ok: bool)
    requires Distinct(fs)
    modifies set f | f in fs
    ensures ok <==> FirstFailure(fs, kvs) == |fs|
    ensures forall i :: 0 <= i < FirstFailure(fs, kvs) ==>
              fs[i].written == old(fs[i].written) + KvsText(fs[i].kind, kvs, fmtG, toJson).value
    ensures forall i :: FirstFailure(fs, kvs) <= i < |fs| ==> fs[i].written == old(fs[i].written)
  {
    var n := FirstFailure(fs, kvs);
    var i := 0;
    ok := true;
    while i < |fs|
      invariant 0 <= i <= n
      invariant forall j :: 0 <= j < i ==>
                  fs[j].written == old(fs[j].written) + KvsText(fs[j].kind, kvs, fmtG, toJson).value
      invariant forall j :: i <= j < |fs| ==> fs[j].written == old(fs[j].written)
    {
      label before:
      var written := fs[i].WriteKvs(kvs, fmtG, toJson);
      assert forall j :: 0 <= j < |fs| && j != i ==> fs[j].written == old@before(fs[j].written);
      if !written {
        ok := false;
        break;
      }
      i := i + 1;
    }
  }

  /** The loop of `Logger._do_log`: every format gets the same arguments. */
  method WriteSeqAll(fs: seq<OutputFormat>, args: seq<string>)
    requires Distinct(fs)
    modifies set f | f in fs
    ensures forall i :: 0 <= i < |fs| ==> fs[i].written == old(fs[i].written) + SeqText(fs[i].kind, args)
  {
    var i := 0;
    while i < |fs|
      invariant 0 <= i <= |fs|
      invariant forall j :: 0 <= j < i ==> fs[j].written == old(fs[j].written) + SeqText(fs[j].kind, args)
      invariant forall j :: i <= j < |fs| ==> fs[j].written == old(fs[j].written)
    {
      fs[i].WriteSeq(args);
      i := i + 1;
    }
  }

  /** `osp.join(dir, name)` for a relative file name. */
  function PathJoin(dir: string, name: string): string {
    if dir == [] then name
    else if dir[|dir| - 1] == '/' then dir + name
    else dir + "/" + name
  }

  /** Joining a directory and then a name under it is joining the directory
      with the relative path `sub/name`, whatever `dir` is. */
  lemma PathJoinAssoc(dir: string, sub: string, name: string)
    requires sub != [] && sub[|sub| - 1] != '/'
    ensures PathJoin(PathJoin(dir, sub), name) == PathJoin(dir, sub + "/" + name)
  {
    var inner := PathJoin(dir, sub);
    assert inner != [] && inner[|inner| - 1] == sub[|sub| - 1];
    if dir == [] {
    } else if dir[|dir| - 1] == '/' {
      AppendAssoc(dir + sub, "/", name);
      AppendAssoc(dir, sub, "/" + name);
      AppendAssoc(sub, "/", name);
    } else {
      AppendAssoc(dir + "/" + sub, "/", name);
      AppendAssoc(dir + "/", sub, "/" + name);
      AppendAssoc(dir, "/", sub + ("/" + name));
      AppendAssoc(sub, "/", name);
    }
  }

  /** The kind and stream `make_output_format` picks for a format name, or
      None for a name it rejects with ValueError. */
  function FormatFor(name: string, evDir: string): (r: Option<(Kind, Stream)>)
    ensures r.Some? <==> name in ["stdout", "log", "json"]
  {
    if name == "stdout" then Some((Human, Stdout))
    else if name == "log" then Some((Human, File(PathJoin(evDir, "log.txt"))))
    else if name == "json" then Some((Json, File(PathJoin(evDir, "progress.json"))))
    else None
  }

  /** `make_output_format`: a fresh format object for a known name. */
  method MakeOutputFormat(name: string, evDir: string) returns (r: Option<OutputFormat>)
    ensures r.Some? <==> FormatFor(name, evDir).Some?
    ensures r.Some? ==> (fresh(r.value) && r.value.written == ""
                         && (r.value.kind, r.value.stream) == FormatFor(name, evDir).value)
  {
    match FormatFor(name, evDir)
    case None =>
      r := None;
    case Some((kind, stream)) =>
      var f := new OutputFormat(kind, stream);
      r := Some(f);
  }

  /** `[make_output_format(f, dir) for f in format_strs]`: the first unknown
      name makes the whole list fail. */
  method MakeOutputFormats(names: seq<string>, evDir: string) returns (r: Option<seq<OutputFormat>>)
    ensures r.Some? <==> forall i :: 0 <= i < |names| ==> FormatFor(names[i], evDir).Some?
    ensures r.Some? ==> |r.value| == |names| && Distinct(r.value)
    ensures r.Some? ==> forall i :: 0 <= i < |names| ==>
              fresh(r.value[i]) && r.value[i].written == ""
              && (r.value[i].kind, r.value[i].stream) == FormatFor(names[i], evDir).value
  {
    var fs: seq<OutputFormat> := [];
    var i := 0;
    while i < |names|
      invariant 0 <= i <= |names| && |fs| == i
      invariant forall j :: 0 <= j < i ==> FormatFor(names[j], evDir).Some?
      invariant Distinct(fs)
      invariant forall j :: 0 <= j < i ==>
                  fresh(fs[j]) && fs[j].written == ""
                  && (fs[j].kind, fs[j].stream) == FormatFor(names[j], evDir).value
    {
      var f := MakeOutputFormat(names[i], evDir);
      if f.None? {
        return None;
      }
      fs := fs + [f.value];
      i := i + 1;
    }
    r := Some(fs);
  }
}
