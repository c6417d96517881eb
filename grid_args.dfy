/** proj/run.py: the command-line front end that turns a flat token list
    into the flag dictionary of an experiment grid. Evaluating a token,
    the registry of environments and the grid itself are parameters. */
module GridSearchArgs {
  import opened OrderedMaps
  import LogOutput

  /** What evaluating a token yields: a string, a boolean (the `True` a
      bare flag receives) or any other object. */
  datatype Val<V> = Obj(v: V) | Str(s: string) | Bool(b: bool)

  /** The flag dictionary: each flag key with the list of its values. */
  type ArgDict<V> = Entries<string, seq<Val<V>>>

  /** A token is a flag when it contains `--` anywhere. */
  predicate IsFlag(tok: string)
  {
    exists i :: 0 <= i < |tok| - 1 && tok[i] == '-' && tok[i + 1] == '-'
  }

  /** `tok.lstrip('-')`: the token without its leading dashes. */
  function StripDashes(tok: string): string
  {
    if tok != [] && tok[0] == '-' then StripDashes(tok[1..]) else tok
  }

  /** The stripped key is the suffix of the token after a run of dashes,
      and does not itself start with a dash. */
  lemma {:induction false} StripDashesSpec(tok: string)
    ensures var r := StripDashes(tok);
            |r| <= |tok| && r == tok[|tok| - |r|..]
            && (forall i :: 0 <= i < |tok| - |r| ==> tok[i] == '-')
            && (r == [] || r[0] != '-')
    decreases |tok|
  {
    if tok != [] && tok[0] == '-' {
      StripDashesSpec(tok[1..]);
    }
  }

  /** `tok` is a flag whose key is `k`. */
  predicate FlagFor(tok: string, k: string)
  {
    IsFlag(tok) && StripDashes(tok) == k
  }

  /** The keys of the flags of `args`, in order, repeats included. */
  function FlagKeys(args: seq<string>): seq<string>
  {
    if args == [] then []
    else
      FlagKeys(args[..|args| - 1])
      + (if IsFlag(args[|args| - 1]) then [StripDashes(args[|args| - 1])] else [])
  }

  /** The index of the last flag of `args` whose key is `k`. */
  function LastFlag(args: seq<string>, k: string): (r: Option<nat>)
    ensures r.Some? ==> r.value < |args| && FlagFor(args[r.value], k)
    ensures r.Some? ==> forall j :: r.value < j < |args| ==> !FlagFor(args[j], k)
    ensures r.None? ==> forall j :: 0 <= j < |args| ==> !FlagFor(args[j], k)
  {
    if args == [] then None
    else if FlagFor(args[|args| - 1], k) then Some(|args| - 1)
    else LastFlag(args[..|args| - 1], k)
  }

  /** The tokens of `ts` before its first flag. */
  function Run(ts: seq<string>): seq<string>
  {
    if ts == [] || IsFlag(ts[0]) then [] else [ts[0]] + Run(ts[1..])
  }

  /** `Run` is the longest prefix of `ts` without a flag. */
  lemma {:induction false} RunSpec(ts: seq<string>)
    ensures var r := Run(ts);
            |r| <= |ts| && r == ts[..|r|]
            && (forall j :: 0 <= j < |r| ==> !IsFlag(r[j]))
            && (|r| < |ts| ==> IsFlag(ts[|r|]))
    decreases |ts|
  {
    if ts != [] && !IsFlag(ts[0]) {
      RunSpec(ts[1..]);
    }
  }

  function Processed<V>(ts: seq<string>, process: string -> Val<V>): (r: seq<Val<V>>)
    ensures |r| == |ts| && forall j :: 0 <= j < |ts| ==> r[j] == process(ts[j])
  {
    seq(|ts|, j requires 0 <= j < |ts| => process(ts[j]))
  }

  lemma ProcessedSnoc<V>(ts: seq<string>, x: string, process: string -> Val<V>)
    ensures Processed(ts + [x], process) == Processed(ts, process) + [process(x)]
  {
    assert forall j :: 0 <= j < |ts| ==> (ts + [x])[j] == ts[j];
  }

  lemma TakeSnoc<T>(s: seq<T>, i: nat)
    requires i < |s|
    ensures s[..i + 1] == s[..i] + [s[i]]
  {
  }

  lemma SliceSnoc<T>(p: seq<T>, x: T, i: nat)
    requires i <= |p|
    ensures (p + [x])[i..] == p[i..] + [x]
  {
  }

  /** What the first pass leaves for key `k`: the evaluated tokens that
      follow the last flag with key `k`, up to the next flag. */
  function ValuesOf<V>(args: seq<string>, k: string, process: string -> Val<V>): Option<seq<Val<V>>>
  {
    match LastFlag(args, k)
    case None => None
    case Some(i) => Some(Processed(Run(args[i + 1..]), process))
  }

  lemma ValuesOfAt<V>(args: seq<string>, k: string, process: string -> Val<V>, i: nat)
    requires LastFlag(args, k) == Some(i)
    ensures ValuesOf(args, k, process) == Some(Processed(Run(args[i + 1..]), process))
  {
  }

  /** The state of the first pass: the dictionary so far and the key of the
      most recent flag. */
  datatype Scan<V> = Scan(d: ArgDict<V>, cur: Option<string>)

  /** The first pass over the tokens, one token at a time: a flag (re)sets
      its list to empty and becomes current; any other token is evaluated
      and appended to the current flag's list. A first token that is not a
      flag fails. */
  function Collect<V>(args: seq<string>, process: string -> Val<V>): (r: Option<Scan<V>>)
    ensures r.Some? ==> Valid(r.value.d)
    ensures r.Some? ==> (r.value.cur.None? <==> args == [])
    ensures r.Some? && r.value.cur.Some? ==> r.value.cur.value in Keys(r.value.d)
    decreases |args|
  {
    if args == [] then Some(Scan([], None))
    else
      match Collect(args[..|args| - 1], process)
      case None => None
      case Some(s) => Step(s, args[|args| - 1], process)
  }

  /** One token of the first pass. */
  function Step<V>(s: Scan<V>, tok: string, process: string -> Val<V>): (r: Option<Scan<V>>)
    requires Valid(s.d) && (s.cur.Some? ==> s.cur.value in Keys(s.d))
    ensures r.Some? ==> Valid(r.value.d) && r.value.cur.Some? && r.value.cur.value in Keys(r.value.d)
    ensures r.None? <==> !IsFlag(tok) && s.cur.None?
  {
    if IsFlag(tok) then
      var k := StripDashes(tok);
      Some(Scan(Put(s.d, k, []), Some(k)))
    else
      match s.cur
      case None => None
      case Some(c) => Some(Scan(Put(s.d, c, Get(s.d, c).value + [process(tok)]), s.cur))
  }

  /** The first pass fails exactly when the first token is not a flag. */
  lemma {:induction false} CollectFails<V>(args: seq<string>, process: string -> Val<V>)
    ensures Collect(args, process).None? <==> |args| > 0 && !IsFlag(args[0])
    decreases |args|
  {
    if args != [] {
      var p := args[..|args| - 1];
      CollectFails(p, process);
      if p != [] {
        assert p[0] == args[0];
      }
    }
  }

  /** The dictionary's keys are the flag keys in order of first appearance. */
  lemma {:induction false} CollectKeys<V>(args: seq<string>, process: string -> Val<V>)
    requires Collect(args, process).Some?
    ensures Keys(Collect(args, process).value.d) == Dedup(FlagKeys(args))
    decreases |args|
  {
    if args != [] {
      var p, tok := args[..|args| - 1], args[|args| - 1];
      CollectKeys(p, process);
      var fk := FlagKeys(p);
      if IsFlag(tok) {
        assert FlagKeys(args) == fk + [StripDashes(tok)];
        assert (fk + [StripDashes(tok)])[..|fk|] == fk;
      } else {
        assert FlagKeys(args) == fk;
      }
    }
  }

  lemma {:induction false} RunSnocFlag(ts: seq<string>, x: string)
    requires IsFlag(x)
    ensures Run(ts + [x]) == Run(ts)
    decreases |ts|
  {
    if ts != [] && !IsFlag(ts[0]) {
      assert (ts + [x])[1..] == ts[1..] + [x];
      RunSnocFlag(ts[1..], x);
    }
  }

  lemma {:induction false} RunSnocAfterFlag(ts: seq<string>, x: string, m: nat)
    requires m < |ts| && IsFlag(ts[m])
    ensures Run(ts + [x]) == Run(ts)
    decreases |ts|
  {
    if !IsFlag(ts[0]) {
      assert (ts + [x])[1..] == ts[1..] + [x];
      RunSnocAfterFlag(ts[1..], x, m - 1);
    }
  }

  /** `ts` holds no flag. */
  predicate NoFlags(ts: seq<string>)
  {
    forall j :: 0 <= j < |ts| ==> !IsFlag(ts[j])
  }

  lemma {:induction false} RunAllValues(ts: seq<string>)
    requires NoFlags(ts)
    ensures Run(ts) == ts
    decreases |ts|
  {
    if ts != [] {
      assert forall j :: 0 <= j < |ts[1..]| ==> ts[1..][j] == ts[j + 1];
      RunAllValues(ts[1..]);
    }
  }

  /** The index of the last flag of `args`. */
  function LastFlagAny(args: seq<string>): (r: Option<nat>)
    ensures r.Some? ==> r.value < |args| && IsFlag(args[r.value])
    ensures r.Some? ==> forall j :: r.value < j < |args| ==> !IsFlag(args[j])
    ensures r.None? ==> forall j :: 0 <= j < |args| ==> !IsFlag(args[j])
  {
    if args == [] then None
    else if IsFlag(args[|args| - 1]) then Some(|args| - 1)
    else LastFlagAny(args[..|args| - 1])
  }

  /** The current key after the first pass is that of the last flag. */
  lemma {:induction false} CollectCur<V>(args: seq<string>, process: string -> Val<V>)
    requires Collect(args, process).Some?
    ensures Collect(args, process).value.cur
            == match LastFlagAny(args) case None => None case Some(i) => Some(StripDashes(args[i]))
    decreases |args|
  {
    if args != [] {
      var p := args[..|args| - 1];
      CollectCur(p, process);
      if !IsFlag(args[|args| - 1]) {
        assert LastFlagAny(args) == LastFlagAny(p);
        if LastFlagAny(p).Some? {
          assert p[LastFlagAny(p).value] == args[LastFlagAny(p).value];
        }
      }
    }
  }

  /** A flag token makes its own key's values empty and leaves every
      other key's values as they were. */
  lemma ValuesOfFlag<V>(p: seq<string>, tok: string, process: string -> Val<V>, k: string)
    requires IsFlag(tok)
    ensures ValuesOf(p + [tok], k, process)
            == if StripDashes(tok) == k then Some([]) else ValuesOf(p, k, process)
  {
    var args := p + [tok];
    assert args[..|args| - 1] == p;
    if k != StripDashes(tok) {
      assert LastFlag(args, k) == LastFlag(p, k);
      match LastFlag(p, k)
      case None =>
      case Some(i) =>
        SliceSnoc(p, tok, i + 1);
        RunSnocFlag(p[i + 1..], tok);
    } else {
      assert args[|args| - 1 + 1..] == [];
    }
  }

  lemma LastFlagOfLast(p: seq<string>, i: nat, k: string)
    requires LastFlagAny(p) == Some(i)
    ensures LastFlag(p, k).Some? ==> LastFlag(p, k).value <= i
    ensures k == StripDashes(p[i]) ==> LastFlag(p, k) == Some(i)
    ensures k != StripDashes(p[i]) && LastFlag(p, k).Some? ==> LastFlag(p, k).value < i
  {
    if LastFlag(p, k).Some? && LastFlag(p, k).value == i {
      assert FlagFor(p[i], k);
    }
  }

  lemma LastFlagSnocValue(p: seq<string>, tok: string, k: string)
    requires !IsFlag(tok)
    ensures LastFlag(p + [tok], k) == LastFlag(p, k)
  {
    assert (p + [tok])[..|p|] == p;
  }

  /** A value token extends the values of the last flag's key. */
  lemma ValuesOfValueCur<V>(p: seq<string>, tok: string, process: string -> Val<V>, i: nat)
    requires !IsFlag(tok) && LastFlagAny(p) == Some(i)
    ensures var k := StripDashes(p[i]);
            ValuesOf(p + [tok], k, process) == Some(ValuesOf(p, k, process).value + [process(tok)])
  {
    var k := StripDashes(p[i]);
    LastFlagSnocValue(p, tok, k);
    LastFlagOfLast(p, i, k);
    assert LastFlag(p + [tok], k) == Some(i);
    SliceSnoc(p, tok, i + 1);
    var t := p[i + 1..];
    ValuesAfterLastFlag(p, i, tok);
    RunAllValues(t);
    RunAllValues(t + [tok]);
    ValuesOfAt(p, k, process, i);
    ValuesOfAt(p + [tok], k, process, i);
    ProcessedSnoc(t, tok, process);
  }

  /** The tokens after the last flag, and a value token appended to them,
      hold no flag. */
  lemma ValuesAfterLastFlag(p: seq<string>, i: nat, tok: string)
    requires !IsFlag(tok) && LastFlagAny(p) == Some(i)
    ensures NoFlags(p[i + 1..]) && NoFlags(p[i + 1..] + [tok])
  {
    var t := p[i + 1..];
    forall j | 0 <= j < |t| ensures !IsFlag(t[j]) {
      assert t[j] == p[i + 1 + j];
    }
    forall j | 0 <= j < |t + [tok]| ensures !IsFlag((t + [tok])[j]) {
      if j < |t| {
        assert (t + [tok])[j] == t[j];
      }
    }
  }

  /** A value token leaves the values of every key but the last flag's. */
  lemma ValuesOfValueOther<V>(p: seq<string>, tok: string, process: string -> Val<V>, k: string, i: nat)
    requires !IsFlag(tok) && LastFlagAny(p) == Some(i) && k != StripDashes(p[i])
    ensures ValuesOf(p + [tok], k, process) == ValuesOf(p, k, process)
  {
    LastFlagSnocValue(p, tok, k);
    LastFlagOfLast(p, i, k);
    if LastFlag(p, k).Some? {
      var i' := LastFlag(p, k).value;
      RunBlocked(p, tok, i', i);
      ValuesOfAt(p, k, process, i');
      ValuesOfAt(p + [tok], k, process, i');
    }
  }

  /** A token appended after a later flag does not reach the values that
      follow the flag at `a`. */
  lemma RunBlocked(p: seq<string>, tok: string, a: nat, i: nat)
    requires a < i < |p| && IsFlag(p[i])
    ensures Run((p + [tok])[a + 1..]) == Run(p[a + 1..])
  {
    SliceSnoc(p, tok, a + 1);
    FlagInSlice(p, a + 1, i);
    RunSnocAfterFlag(p[a + 1..], tok, i - (a + 1));
  }

  lemma FlagInSlice(p: seq<string>, a: nat, i: nat)
    requires a <= i < |p| && IsFlag(p[i])
    ensures i - a < |p[a..]| && IsFlag(p[a..][i - a])
  {
    assert p[a..][i - a] == p[i];
  }

  lemma CollectStep<V>(p: seq<string>, tok: string, process: string -> Val<V>, s: Scan<V>)
    requires Collect(p, process) == Some(s)
    ensures Valid(s.d) && (s.cur.Some? ==> s.cur.value in Keys(s.d))
    ensures Collect(p + [tok], process) == Step(s, tok, process)
  {
    CollectSnoc(p, tok, process);
  }

  /** One more token is one more step of the first pass. */
  lemma CollectSnoc<V>(p: seq<string>, tok: string, process: string -> Val<V>)
    ensures Collect(p + [tok], process)
            == match Collect(p, process)
               case None => None
               case Some(s) => Step(s, tok, process)
  {
    assert (p + [tok])[..|p|] == p;
  }

  /** After the first pass, each key holds exactly the evaluated tokens
      between its last flag and the next flag. */
  lemma {:induction false} CollectValues<V>(args: seq<string>, process: string -> Val<V>)
    requires Collect(args, process).Some?
    ensures forall k :: Get(Collect(args, process).value.d, k) == ValuesOf(args, k, process)
    decreases |args|
  {
    if args != [] {
      var p, tok := args[..|args| - 1], args[|args| - 1];
      assert args == p + [tok];
      CollectValues(p, process);
      CollectSnoc(p, tok, process);
      var s := Collect(p, process).value;
      if IsFlag(tok) {
        forall k ensures Get(Collect(args, process).value.d, k) == ValuesOf(args, k, process) {
          ValuesOfFlag(p, tok, process, k);
        }
      } else {
        CollectCur(p, process);
        var i := LastFlagAny(p).value;
        forall k ensures Get(Collect(args, process).value.d, k) == ValuesOf(args, k, process) {
          if k == StripDashes(p[i]) {
            ValuesOfValueCur(p, tok, process, i);
          } else {
            ValuesOfValueOther(p, tok, process, k, i);
          }
        }
      }
    }
  }

  /** The first pass as the source runs it: one loop over the tokens,
      failing on a first token that is not a flag. */
  method CollectFlags<V>(args: seq<string>, process: string -> Val<V>) returns (r: Option<ArgDict<V>>)
    ensures r.None? <==> Collect(args, process).None?
    ensures r.Some? ==> r.value == Collect(args, process).value.d
  {
    var d: ArgDict<V> := [];
    var cur: Option<string> := None;
    var i := 0;
    while i < |args|
      invariant 0 <= i <= |args|
      invariant Collect(args[..i], process) == Some(Scan(d, cur))
    {
      var tok := args[i];
      ghost var s := Scan(d, cur);
      CollectStep(args[..i], tok, process, s);
      TakeSnoc(args, i);
      if i == 0 && !IsFlag(tok) {
        CollectFails(args, process);
        return None;
      }
      if IsFlag(tok) {
        var key := StripDashes(tok);
        d := Put(d, key, []);
        cur := Some(key);
      } else {
        d := Put(d, cur.value, Get(d, cur.value).value + [process(tok)]);
      }
      assert Step(s, tok, process) == Some(Scan(d, cur));
      assert Collect(args[..i + 1], process) == Some(Scan(d, cur));
      i := i + 1;
    }
    assert args[..|args|] == args;
    r := Some(d);
  }

  /** The second pass: every flag left without values gets `[True]`. */
  function FillBare<V>(d: ArgDict<V>): (r: ArgDict<V>)
    requires Valid(d)
    ensures Valid(r) && Keys(r) == Keys(d)
    ensures forall i :: 0 <= i < |r| ==> r[i].1 != []
  {
    var r := seq(|d|, i requires 0 <= i < |d| => (d[i].0, if d[i].1 == [] then [Bool(true)] else d[i].1));
    assert Keys(r) == Keys(d);
    r
  }

  /** Filling leaves every listed key with its own values, except that an
      empty list becomes `[True]`. */
  lemma FillBareGet<V>(d: ArgDict<V>, k: string)
    requires Valid(d)
    ensures Get(FillBare(d), k)
            == match Get(d, k)
               case None => None
               case Some(v) => Some(if v == [] then [Bool(true)] else v)
  {
    var r := FillBare(d);
    if k in Keys(d) {
      var i :| 0 <= i < |d| && Keys(d)[i] == k;
      GetAt(d, i);
      GetAt(r, i);
    }
  }

  /** The second pass as the source runs it, updating lists in place. */
  method FillBareFlags<V>(d: ArgDict<V>) returns (r: ArgDict<V>)
    requires Valid(d)
    ensures r == FillBare(d)
  {
    r := d;
    var i := 0;
    while i < |r|
      invariant 0 <= i <= |r| == |d|
      invariant forall j :: 0 <= j < i ==> r[j] == FillBare(d)[j]
      invariant forall j :: i <= j < |r| ==> r[j] == d[j]
    {
      if r[i].1 == [] {
        r := r[i := (r[i].0, [Bool(true)])];
      }
      i := i + 1;
    }
  }

  datatype ParseError<V> = NoFirstFlag | NotOneValue(key: string) | NoEnv | Unregistered(env: Val<V>)

  datatype Result<T, E> = Ok(value: T) | Err(error: E)

  /** The flags whose single value goes to the grid's `run` call. */
  const RUN_KEYS: seq<string> := ["log_dir", "datestamp"]

  /** The flag dictionary with the run keys taken out, and the run keys'
      values. */
  datatype Split<V> = Split(d: ArgDict<V>, runKwargs: Entries<string, Val<V>>)

  /** The third pass over `ks` in order: a key that is present must hold
      exactly one value, which moves into the run arguments. */
  function TakeRunKeys<V>(d: ArgDict<V>, kw: Entries<string, Val<V>>, ks: seq<string>)
    : (r: Result<Split<V>, ParseError<V>>)
    requires Valid(d) && Valid(kw)
    ensures r.Ok? ==> Valid(r.value.d) && Valid(r.value.runKwargs)
    ensures r.Err? ==> r.error.NotOneValue? && r.error.key in ks
    decreases |ks|
  {
    if ks == [] then Ok(Split(d, kw))
    else
      var k := ks[0];
      match Get(d, k)
      case None => TakeRunKeys(d, kw, ks[1..])
      case Some(v) =>
        if |v| != 1 then Err(NotOneValue(k))
        else TakeRunKeys(Delete(d, k), Put(kw, k, v[0]), ks[1..])
  }

  /** A key is absent or holds exactly one value. */
  predicate AtMostOne<V>(d: ArgDict<V>, k: string)
  {
    Get(d, k).None? || |Get(d, k).value| == 1
  }

  /** `s` without any of the elements of `ks`. */
  function WithoutAll(s: seq<string>, ks: seq<string>): seq<string>
    decreases |ks|
  {
    if ks == [] then s else WithoutAll(Without(s, ks[0]), ks[1..])
  }

  /** Every key of `ks` is absent from `d` or holds one value. */
  predicate AllAtMostOne<V>(d: ArgDict<V>, ks: seq<string>)
  {
    forall j :: 0 <= j < |ks| ==> AtMostOne(d, ks[j])
  }

  /** The first key of `ks` that is present with other than one value. */
  predicate FirstMulti<V>(d: ArgDict<V>, ks: seq<string>, k: string)
  {
    exists j :: 0 <= j < |ks| && ks[j] == k && !AtMostOne(d, k) && AllAtMostOne(d, ks[..j])
  }

  lemma AllAtMostOneCons<V>(d: ArgDict<V>, ks: seq<string>)
    requires ks != []
    ensures AllAtMostOne(d, ks) <==> AtMostOne(d, ks[0]) && AllAtMostOne(d, ks[1..])
  {
    assert forall j :: 1 <= j < |ks| ==> ks[j] == ks[1..][j - 1];
  }

  lemma FirstMultiCons<V>(d: ArgDict<V>, ks: seq<string>, k: string)
    requires ks != [] && AtMostOne(d, ks[0]) && FirstMulti(d, ks[1..], k)
    ensures FirstMulti(d, ks, k)
  {
    var j :| 0 <= j < |ks[1..]| && ks[1..][j] == k && !AtMostOne(d, k) && AllAtMostOne(d, ks[1..][..j]);
    assert ks[..j + 1][1..] == ks[1..][..j];
    AllAtMostOneCons(d, ks[..j + 1]);
    assert ks[j + 1] == k;
  }

  /** Deleting a key not in `ks` changes nothing the pass checks. */
  lemma DeleteKeepsChecks<V>(d: ArgDict<V>, k: string, ks: seq<string>)
    requires Valid(d) && k !in ks
    ensures AllAtMostOne(Delete(d, k), ks) <==> AllAtMostOne(d, ks)
    ensures forall k' :: FirstMulti(Delete(d, k), ks, k') ==> FirstMulti(d, ks, k')
  {
    var d1 := Delete(d, k);
    assert forall j :: 0 <= j < |ks| ==> Get(d1, ks[j]) == Get(d, ks[j]);
    forall k' | FirstMulti(d1, ks, k') ensures FirstMulti(d, ks, k') {
      var j :| 0 <= j < |ks| && ks[j] == k' && !AtMostOne(d1, k') && AllAtMostOne(d1, ks[..j]);
      assert forall i :: 0 <= i < j ==> Get(d1, ks[..j][i]) == Get(d, ks[..j][i]);
    }
  }

  /** The run-key pass over distinct keys `ks` succeeds exactly when each
      of them is absent or holds one value, and otherwise names the first
      that does not. */
  lemma {:induction false} TakeRunKeysOutcome<V>(d: ArgDict<V>, kw: Entries<string, Val<V>>, ks: seq<string>)
    requires Valid(d) && Valid(kw) && NoDup(ks)
    ensures var r := TakeRunKeys(d, kw, ks);
            (r.Ok? <==> AllAtMostOne(d, ks))
            && (r.Err? ==> FirstMulti(d, ks, r.error.key))
    decreases |ks|
  {
    if ks != [] {
      var k, rest := ks[0], ks[1..];
      assert forall j :: 1 <= j < |ks| ==> ks[j] == rest[j - 1];
      assert NoDup(rest) && k !in rest;
      AllAtMostOneCons(d, ks);
      match Get(d, k)
      case None =>
        TakeRunKeysOutcome(d, kw, rest);
        if TakeRunKeys(d, kw, ks).Err? {
          FirstMultiCons(d, ks, TakeRunKeys(d, kw, ks).error.key);
        }
      case Some(v) =>
        if |v| == 1 {
          var d1, kw1 := Delete(d, k), Put(kw, k, v[0]);
          TakeRunKeysOutcome(d1, kw1, rest);
          DeleteKeepsChecks(d, k, rest);
          if TakeRunKeys(d, kw, ks).Err? {
            FirstMultiCons(d, ks, TakeRunKeys(d, kw, ks).error.key);
          }
        } else {
          assert ks[..0] == [];
          assert FirstMulti(d, ks, k);
        }
    }
  }

  /** On success the keys of `ks` are gone from the dictionary and the
      others keep their values. */
  lemma {:induction false} TakeRunKeysDict<V>(d: ArgDict<V>, kw: Entries<string, Val<V>>, ks: seq<string>)
    requires Valid(d) && Valid(kw) && TakeRunKeys(d, kw, ks).Ok?
    ensures var r := TakeRunKeys(d, kw, ks).value;
            Keys(r.d) == WithoutAll(Keys(d), ks)
            && forall k :: Get(r.d, k) == if k in ks then None else Get(d, k)
    decreases |ks|
  {
    if ks != [] {
      var k, rest := ks[0], ks[1..];
      assert forall k' :: k' in ks <==> k' == k || k' in rest;
      match Get(d, k)
      case None =>
        WithoutAbsent(Keys(d), k);
        TakeRunKeysDict(d, kw, rest);
      case Some(v) =>
        TakeRunKeysDict(Delete(d, k), Put(kw, k, v[0]), rest);
    }
  }

  /** On success the present keys of `ks` follow the earlier run
      arguments, in the order of `ks`. */
  lemma {:induction false} TakeRunKeysKwargKeys<V>(d: ArgDict<V>, kw: Entries<string, Val<V>>, ks: seq<string>)
    requires Valid(d) && Valid(kw) && NoDup(ks)
    requires forall k :: k in ks ==> k !in Keys(kw)
    requires TakeRunKeys(d, kw, ks).Ok?
    ensures Keys(TakeRunKeys(d, kw, ks).value.runKwargs) == Keys(kw) + Present(d, ks)
    decreases |ks|
  {
    if ks != [] {
      var k, rest := ks[0], ks[1..];
      NoDupTail(ks);
      match Get(d, k)
      case None =>
        assert k !in Keys(d);
        assert Present(d, ks) == Present(d, rest);
        TakeRunKeysKwargKeys(d, kw, rest);
      case Some(v) =>
        assert k in Keys(d);
        assert Present(d, ks) == [k] + Present(d, rest);
        var d1, kw1 := Delete(d, k), Put(kw, k, v[0]);
        assert Keys(kw1) == Keys(kw) + [k];
        TakeRunKeysKwargKeys(d1, kw1, rest);
        forall k' | k' in rest ensures k' in Keys(d1) <==> k' in Keys(d) {
          assert k' != k;
        }
        PresentSame(d1, d, rest);
        AppendAssoc(Keys(kw), [k], Present(d, rest));
    }
  }


  /** On success each present key of `ks` carries its one value into the
      run arguments, and no other run argument changes. */
  lemma {:induction false} TakeRunKeysKwargs<V>(d: ArgDict<V>, kw: Entries<string, Val<V>>, ks: seq<string>)
    requires Valid(d) && Valid(kw) && NoDup(ks)
    requires TakeRunKeys(d, kw, ks).Ok?
    ensures var r := TakeRunKeys(d, kw, ks).value;
            (forall k :: k in ks && Get(d, k).Some? ==>
                           |Get(d, k).value| == 1 && Get(r.runKwargs, k) == Some(Get(d, k).value[0]))
            && (forall k :: !(k in ks && Get(d, k).Some?) ==> Get(r.runKwargs, k) == Get(kw, k))
    decreases |ks|
  {
    if ks != [] {
      var k, rest := ks[0], ks[1..];
      assert forall j :: 1 <= j < |ks| ==> ks[j] == rest[j - 1];
      assert forall k' :: k' in ks <==> k' == k || k' in rest;
      assert k !in rest && NoDup(rest);
      match Get(d, k)
      case None =>
        TakeRunKeysKwargs(d, kw, rest);
      case Some(v) =>
        var d1, kw1 := Delete(d, k), Put(kw, k, v[0]);
        TakeRunKeysKwargs(d1, kw1, rest);
        var r := TakeRunKeys(d1, kw1, rest).value;
        assert r == TakeRunKeys(d, kw, ks).value;
        forall k' | k' in ks && Get(d, k').Some?
          ensures |Get(d, k').value| == 1 && Get(r.runKwargs, k') == Some(Get(d, k').value[0])
        {
          if k' != k {
            assert k' in rest && Get(d1, k') == Get(d, k');
          }
        }
        forall k' | !(k' in ks && Get(d, k').Some?)
          ensures Get(r.runKwargs, k') == Get(kw, k')
        {
          assert k' != k && Get(d1, k') == Get(d, k') && Get(kw1, k') == Get(kw, k');
        }
    }
  }

  lemma NoDupTail<T>(ks: seq<T>)
    requires NoDup(ks) && ks != []
    ensures ks[0] !in ks[1..] && NoDup(ks[1..])
  {
    assert forall j :: 0 <= j < |ks[1..]| ==> ks[1..][j] == ks[j + 1];
  }

  lemma {:induction false} PresentSame<V>(d1: ArgDict<V>, d: ArgDict<V>, ks: seq<string>)
    requires forall k :: k in ks ==> (k in Keys(d1) <==> k in Keys(d))
    ensures Present(d1, ks) == Present(d, ks)
    decreases |ks|
  {
    if ks != [] {
      PresentSame(d1, d, ks[1..]);
    }
  }

  /** For `RUN_KEYS` itself: a successful pass removes `log_dir` and
      `datestamp` from the dictionary and keeps the first value of each that
      was given as a run argument, in that order. */
  lemma RunKeysSpec<V>(d: ArgDict<V>)
    requires Valid(d) && TakeRunKeys(d, [], RUN_KEYS).Ok?
    ensures var r := TakeRunKeys(d, [], RUN_KEYS).value;
            Keys(r.d) == Without(Without(Keys(d), "log_dir"), "datestamp")
            && (forall k :: Get(r.d, k) == if k in RUN_KEYS then None else Get(d, k))
            && Keys(r.runKwargs) == Present(d, RUN_KEYS)
            && (forall k :: Get(r.runKwargs, k)
                            == if k in RUN_KEYS && Get(d, k).Some? then Some(Get(d, k).value[0]) else None)
  {
    assert RUN_KEYS[1..] == ["datestamp"] && ["datestamp"][1..] == [];
    TakeRunKeysDict(d, [], RUN_KEYS);
    TakeRunKeysKwargKeys(d, [], RUN_KEYS);
    TakeRunKeysKwargs(d, [], RUN_KEYS);
  }

  /** The run-key pass fails on the first of `log_dir`, `datestamp` that
      holds more than one value, `log_dir` being checked first. */
  lemma RunKeysOk<V>(d: ArgDict<V>)
    requires Valid(d)
    ensures var r := TakeRunKeys(d, [], RUN_KEYS);
            (r.Ok? <==> AtMostOne(d, "log_dir") && AtMostOne(d, "datestamp"))
            && (r.Err? ==> r.error == NotOneValue(if AtMostOne(d, "log_dir") then "datestamp" else "log_dir"))
  {
    assert RUN_KEYS[1..] == ["datestamp"] && ["datestamp"][1..] == [];
    TakeRunKeysOutcome(d, [], RUN_KEYS);
    var r := TakeRunKeys(d, [], RUN_KEYS);
    if r.Err? {
      var j :| 0 <= j < |RUN_KEYS| && RUN_KEYS[j] == r.error.key && !AtMostOne(d, r.error.key)
               && AllAtMostOne(d, RUN_KEYS[..j]);
      if j == 1 {
        assert RUN_KEYS[..1] == ["log_dir"];
      }
    }
  }


  /** The keys of `ks` present in `d`, in the order of `ks`. */
  function Present<V>(d: ArgDict<V>, ks: seq<string>): (r: seq<string>)
    ensures forall k :: k in r <==> k in ks && k in Keys(d)
  {
    if ks == [] then []
    else (if ks[0] in Keys(d) then [ks[0]] else []) + Present(d, ks[1..])
  }

  /** The third pass as the source runs it: a loop over `RUN_KEYS`. */
  method ExtractRunKwargs<V>(d: ArgDict<V>) returns (r: Result<Split<V>, ParseError<V>>)
    requires Valid(d)
    ensures r == TakeRunKeys(d, [], RUN_KEYS)
  {
    var rest := d;
    var kw: Entries<string, Val<V>> := [];
    var i := 0;
    while i < |RUN_KEYS|
      invariant 0 <= i <= |RUN_KEYS| && Valid(rest) && Valid(kw)
      invariant TakeRunKeys(d, [], RUN_KEYS) == TakeRunKeys(rest, kw, RUN_KEYS[i..])
    {
      var k := RUN_KEYS[i];
      assert RUN_KEYS[i..][1..] == RUN_KEYS[i + 1..];
      if k in Keys(rest) {
        var val := Get(rest, k).value;
        if |val| != 1 {
          return Err(NotOneValue(k));
        }
        kw := Put(kw, k, val[0]);
        rest := Delete(rest, k);
      }
      i := i + 1;
    }
    r := Ok(Split(rest, kw));
  }

  /** The experiment name: the single value of `exp_name`, which is taken
      out of the dictionary, or `'cmd_' + cmd` when there is none. */
  function TakeExpName<V>(d: ArgDict<V>, cmd: string): (r: Result<(ArgDict<V>, Val<V>), ParseError<V>>)
    requires Valid(d)
    ensures r.Err? <==> !AtMostOne(d, "exp_name")
    ensures r.Err? ==> r.error == NotOneValue("exp_name")
    ensures r.Ok? ==> Valid(r.value.0) && Keys(r.value.0) == Without(Keys(d), "exp_name")
    ensures r.Ok? ==> Get(r.value.0, "exp_name") == None
    ensures r.Ok? ==> forall k :: k != "exp_name" ==> Get(r.value.0, k) == Get(d, k)
    ensures r.Ok? ==> r.value.1 == if Get(d, "exp_name").Some? then Get(d, "exp_name").value[0] else Str("cmd_" + cmd)
  {
    match Get(d, "exp_name")
    case None =>
      WithoutAbsent(Keys(d), "exp_name");
      Ok((d, Str("cmd_" + cmd)))
    case Some(v) =>
      if |v| != 1 then Err(NotOneValue("exp_name"))
      else Ok((Delete(d, "exp_name"), v[0]))
  }

  /** An environment value names a registered environment. */
  predicate Registered<V>(v: Val<V>, envs: seq<string>)
  {
    v.Str? && v.s in envs
  }

  /** The first value of `vs` that is not a registered environment. */
  function FirstUnregistered<V>(vs: seq<Val<V>>, envs: seq<string>): Option<Val<V>>
  {
    if vs == [] then None
    else if !Registered(vs[0], envs) then Some(vs[0])
    else FirstUnregistered(vs[1..], envs)
  }

  /** The check passes exactly when every value is registered, and
      otherwise reports the first value that is not. */
  lemma FirstUnregisteredSpec<V>(vs: seq<Val<V>>, envs: seq<string>)
    ensures var r := FirstUnregistered(vs, envs);
            (r.None? <==> forall j :: 0 <= j < |vs| ==> Registered(vs[j], envs))
            && (r.Some? ==> exists j :: 0 <= j < |vs| && vs[j] == r.value && !Registered(r.value, envs)
                                        && forall j' :: 0 <= j' < j ==> Registered(vs[j'], envs))
  {
    FirstUnregisteredNone(vs, envs);
    if FirstUnregistered(vs, envs).Some? {
      var j := FirstUnregisteredAt(vs, envs);
    }
  }

  lemma {:induction false} FirstUnregisteredNone<V>(vs: seq<Val<V>>, envs: seq<string>)
    ensures FirstUnregistered(vs, envs).None? <==> forall j :: 0 <= j < |vs| ==> Registered(vs[j], envs)
    decreases |vs|
  {
    if vs != [] && Registered(vs[0], envs) {
      FirstUnregisteredNone(vs[1..], envs);
      assert forall j :: 1 <= j < |vs| ==> vs[j] == vs[1..][j - 1];
    }
  }

  /** The position of the value the check reports. */
  lemma {:induction false} FirstUnregisteredAt<V>(vs: seq<Val<V>>, envs: seq<string>) returns (j: nat)
    requires FirstUnregistered(vs, envs).Some?
    ensures j < |vs| && vs[j] == FirstUnregistered(vs, envs).value && !Registered(vs[j], envs)
    ensures forall j' :: 0 <= j' < j ==> Registered(vs[j'], envs)
    decreases |vs|
  {
    if !Registered(vs[0], envs) {
      j := 0;
    } else {
      var i := FirstUnregisteredAt(vs[1..], envs);
      j := i + 1;
      assert vs[j] == vs[1..][i];
      forall j' | 0 <= j' < j ensures Registered(vs[j'], envs) {
        if j' > 0 {
          assert vs[j'] == vs[1..][j' - 1];
        }
      }
    }
  }

  /** The environment check as the source runs it: a loop over the values. */
  method CheckEnvs<V>(vs: seq<Val<V>>, envs: seq<string>) returns (r: Option<Val<V>>)
    ensures r == FirstUnregistered(vs, envs)
  {
    var i := 0;
    while i < |vs|
      invariant 0 <= i <= |vs|
      invariant FirstUnregistered(vs, envs) == FirstUnregistered(vs[i..], envs)
    {
      assert vs[i..][1..] == vs[i + 1..];
      if !Registered(vs[i], envs) {
        return Some(vs[i]);
      }
      i := i + 1;
    }
    r := None;
  }

  /** The argument dictionary after the first two passes, or None when
      the first token is not a flag. */
  function ArgDictOf<V>(args: seq<string>, process: string -> Val<V>): (r: Option<ArgDict<V>>)
    ensures r.Some? ==> Valid(r.value)
  {
    match Collect(args, process)
    case None => None
    case Some(s) => Some(FillBare(s.d))
  }

  /** The argument dictionary exists exactly when the first token is a
      flag; its keys are the flag keys in order of first appearance, and
      each key holds the evaluated tokens after its last flag up to the
      next flag, or `[True]` when there are none. */
  lemma ArgDictSpec<V>(args: seq<string>, process: string -> Val<V>)
    ensures ArgDictOf(args, process).None? <==> |args| > 0 && !IsFlag(args[0])
    ensures ArgDictOf(args, process).Some? ==> Keys(ArgDictOf(args, process).value) == Dedup(FlagKeys(args))
    ensures ArgDictOf(args, process).Some? ==>
              forall k :: Get(ArgDictOf(args, process).value, k)
                          == match ValuesOf(args, k, process)
                             case None => None
                             case Some(v) => Some(if v == [] then [Bool(true)] else v)
  {
    CollectFails(args, process);
    if Collect(args, process).Some? {
      var d := Collect(args, process).value.d;
      CollectKeys(args, process);
      CollectValues(args, process);
      forall k ensures Get(FillBare(d), k)
                       == match ValuesOf(args, k, process)
                          case None => None
                          case Some(v) => Some(if v == [] then [Bool(true)] else v)
      {
        FillBareGet(d, k);
      }
    }
  }

  /** A token that asks for the algorithm's documentation. */
  const HELP_TOKENS: seq<string> := ["--help", "-h", "help"]

  predicate WantsHelp(args: seq<string>)
  {
    exists i :: 0 <= i < |args| && args[i] in HELP_TOKENS
  }

  /** What the grid is built from: its name, each remaining flag with its
      values, in order, and the arguments of its `run` call. */
  datatype GridRun<V> = GridRun(expName: Val<V>, grid: ArgDict<V>, runKwargs: Entries<string, Val<V>>)

  datatype Outcome<V> = ShowHelp | Failed(error: ParseError<V>) | Launch(run: GridRun<V>)

  /** `parse_and_execute_grid_search(cmd, args)`, up to the point where the
      grid is built and run: `envs` is the list of registered environment
      ids, `process` the evaluation of a token. */
  function Parse<V>(cmd: string, args: seq<string>, process: string -> Val<V>, envs: seq<string>): Outcome<V>
  {
    if WantsHelp(args) then ShowHelp
    else
      match ArgDictOf(args, process)
      case None => Failed(NoFirstFlag)
      case Some(d) =>
        match TakeRunKeys(d, [], RUN_KEYS)
        case Err(e) => Failed(e)
        case Ok(sp) =>
          match TakeExpName(sp.d, cmd)
          case Err(e) => Failed(e)
          case Ok(named) =>
            match Get(named.0, "env")
            case None => Failed(NoEnv)
            case Some(envVals) =>
              match FirstUnregistered(envVals, envs)
              case Some(v) => Failed(Unregistered(v))
              case None => Launch(GridRun(named.1, named.0, sp.runKwargs))
  }

  /** The keys that never reach the grid. */
  const SPECIAL_KEYS: seq<string> := ["log_dir", "datestamp", "exp_name"]

  /** Every special key is absent or holds exactly one value. */
  predicate SpecialsSingle<V>(d: ArgDict<V>)
  {
    AtMostOne(d, "log_dir") && AtMostOne(d, "datestamp") && AtMostOne(d, "exp_name")
  }

  /** `env` is given and every value of it is registered. */
  predicate EnvsRegistered<V>(d: ArgDict<V>, envs: seq<string>)
  {
    Get(d, "env").Some? && forall j :: 0 <= j < |Get(d, "env").value| ==> Registered(Get(d, "env").value[j], envs)
  }

  /** The grid is launched exactly when no help token is given, the first
      token is a flag, each special key holds at most one value and every
      `env` value is registered. */
  lemma ParseLaunches<V>(cmd: string, args: seq<string>, process: string -> Val<V>, envs: seq<string>)
    ensures Parse(cmd, args, process, envs).Launch?
            <==> !WantsHelp(args) && ArgDictOf(args, process).Some?
                 && SpecialsSingle(ArgDictOf(args, process).value)
                 && EnvsRegistered(ArgDictOf(args, process).value, envs)
  {
    if !WantsHelp(args) && ArgDictOf(args, process).Some? {
      var d := ArgDictOf(args, process).value;
      SpecialPasses(d, cmd);
      if Get(d, "env").Some? {
        FirstUnregisteredSpec(Get(d, "env").value, envs);
      }
    }
  }

  /** The two passes over the special keys both succeed exactly when each
      special key holds at most one value, and they leave `env` alone. */
  lemma SpecialPasses<V>(d: ArgDict<V>, cmd: string)
    requires Valid(d)
    ensures var r := TakeRunKeys(d, [], RUN_KEYS);
            (r.Ok? && TakeExpName(r.value.d, cmd).Ok? <==> SpecialsSingle(d))
            && (r.Ok? && TakeExpName(r.value.d, cmd).Ok? ==>
                  Get(TakeExpName(r.value.d, cmd).value.0, "env") == Get(d, "env"))
  {
    RunKeysOk(d);
    if TakeRunKeys(d, [], RUN_KEYS).Ok? {
      RunKeysKeep(d);
    }
  }

  lemma RunKeysKeep<V>(d: ArgDict<V>)
    requires Valid(d) && TakeRunKeys(d, [], RUN_KEYS).Ok?
    ensures var r := TakeRunKeys(d, [], RUN_KEYS).value;
            Get(r.d, "exp_name") == Get(d, "exp_name") && Get(r.d, "env") == Get(d, "env")
  {
    TakeRunKeysDict(d, [], RUN_KEYS);
    assert "exp_name" !in RUN_KEYS && "env" !in RUN_KEYS by {
      assert RUN_KEYS == ["log_dir", "datestamp"];
      assert "exp_name"[0] != "log_dir"[0] && "exp_name"[0] != "datestamp"[0];
      assert "env"[0] != "log_dir"[0] && "env"[0] != "datestamp"[0];
    }
  }

  /** A launched grid is built from the run-key pass and the name pass
      over the argument dictionary. */
  lemma ParseLaunchParts<V>(cmd: string, args: seq<string>, process: string -> Val<V>, envs: seq<string>)
    requires Parse(cmd, args, process, envs).Launch?
    ensures ArgDictOf(args, process).Some?
    ensures var d := ArgDictOf(args, process).value;
            TakeRunKeys(d, [], RUN_KEYS).Ok?
            && TakeExpName(TakeRunKeys(d, [], RUN_KEYS).value.d, cmd).Ok?
            && var sp := TakeRunKeys(d, [], RUN_KEYS).value;
               var named := TakeExpName(sp.d, cmd).value;
               Parse(cmd, args, process, envs).run == GridRun(named.1, named.0, sp.runKwargs)
  {
    assert !WantsHelp(args);
    var ad := ArgDictOf(args, process);
    assert ad.Some?;
    var r := TakeRunKeys(ad.value, [], RUN_KEYS);
    assert r.Ok?;
    assert TakeExpName(r.value.d, cmd).Ok?;
  }

  /** A launched grid holds every flag but the special ones, in order of
      first appearance, each with its values. */
  lemma ParseGrid<V>(cmd: string, args: seq<string>, process: string -> Val<V>, envs: seq<string>)
    requires Parse(cmd, args, process, envs).Launch?
    ensures ArgDictOf(args, process).Some?
    ensures var d, run := ArgDictOf(args, process).value, Parse(cmd, args, process, envs).run;
            Keys(run.grid) == Without(Without(Without(Keys(d), "log_dir"), "datestamp"), "exp_name")
            && (forall k :: Get(run.grid, k) == if k in SPECIAL_KEYS then None else Get(d, k))
  {
    ParseLaunchParts(cmd, args, process, envs);
    var d := ArgDictOf(args, process).value;
    RunKeysSpec(d);
  }

  /** A launched grid is named by `exp_name`'s value, or `'cmd_' + cmd`
      when it is not given. */
  lemma ParseName<V>(cmd: string, args: seq<string>, process: string -> Val<V>, envs: seq<string>)
    requires Parse(cmd, args, process, envs).Launch?
    ensures ArgDictOf(args, process).Some?
    ensures var d, run := ArgDictOf(args, process).value, Parse(cmd, args, process, envs).run;
            run.expName == if Get(d, "exp_name").Some? then Get(d, "exp_name").value[0] else Str("cmd_" + cmd)
  {
    ParseLaunchParts(cmd, args, process, envs);
    var d := ArgDictOf(args, process).value;
    RunKeysSpec(d);
    var sp := TakeRunKeys(d, [], RUN_KEYS).value;
    assert Get(sp.d, "exp_name") == Get(d, "exp_name");
  }

  /** A launched grid runs with the run keys that were given, in order,
      each with its value. */
  lemma ParseRunKwargs<V>(cmd: string, args: seq<string>, process: string -> Val<V>, envs: seq<string>)
    requires Parse(cmd, args, process, envs).Launch?
    ensures ArgDictOf(args, process).Some?
    ensures var d, run := ArgDictOf(args, process).value, Parse(cmd, args, process, envs).run;
            Keys(run.runKwargs) == Present(d, RUN_KEYS)
            && (forall k :: k in RUN_KEYS && Get(d, k).Some? ==> Get(run.runKwargs, k) == Some(Get(d, k).value[0]))
            && (forall k :: !(k in RUN_KEYS && Get(d, k).Some?) ==> Get(run.runKwargs, k) == None)
  {
    ParseLaunchParts(cmd, args, process, envs);
    RunKeysSpec(ArgDictOf(args, process).value);
  }

  /** How parsing fails: on a first token that is not a flag, on a missing
      `env`, or on the first unregistered environment value. */
  lemma ParseFailures<V>(cmd: string, args: seq<string>, process: string -> Val<V>, envs: seq<string>)
    ensures Parse(cmd, args, process, envs) == Failed(NoFirstFlag)
            <==> !WantsHelp(args) && |args| > 0 && !IsFlag(args[0])
    ensures Parse(cmd, args, process, envs) == Failed(NoEnv)
            ==> ArgDictOf(args, process).Some? && Get(ArgDictOf(args, process).value, "env").None?
    ensures Parse(cmd, args, process, envs).Failed? && Parse(cmd, args, process, envs).error.Unregistered?
            ==> ArgDictOf(args, process).Some? && Get(ArgDictOf(args, process).value, "env").Some?
                && var v, vs := Parse(cmd, args, process, envs).error.env, Get(ArgDictOf(args, process).value, "env").value;
                   (exists j :: 0 <= j < |vs| && vs[j] == v) && !Registered(v, envs)
  {
    ArgDictSpec(args, process);
    if !WantsHelp(args) && ArgDictOf(args, process).Some? {
      var d := ArgDictOf(args, process).value;
      SpecialPasses(d, cmd);
      if Get(d, "env").Some? {
        FirstUnregisteredSpec(Get(d, "env").value, envs);
      }
    }
  }

  /** Once the special keys pass, a missing `env` fails with `NoEnv`, and
      otherwise the check of its values, in order, reports the first value
      that is not registered. */
  lemma ParseEnvFailures<V>(cmd: string, args: seq<string>, process: string -> Val<V>, envs: seq<string>)
    ensures Parse(cmd, args, process, envs) == Failed(NoEnv)
            <==> !WantsHelp(args) && ArgDictOf(args, process).Some?
                 && SpecialsSingle(ArgDictOf(args, process).value)
                 && Get(ArgDictOf(args, process).value, "env").None?
    ensures Parse(cmd, args, process, envs).Failed? && Parse(cmd, args, process, envs).error.Unregistered?
            <==> !WantsHelp(args) && ArgDictOf(args, process).Some?
                 && SpecialsSingle(ArgDictOf(args, process).value)
                 && Get(ArgDictOf(args, process).value, "env").Some?
                 && FirstUnregistered(Get(ArgDictOf(args, process).value, "env").value, envs).Some?
    ensures Parse(cmd, args, process, envs).Failed? && Parse(cmd, args, process, envs).error.Unregistered?
            ==> Parse(cmd, args, process, envs).error.env
                == FirstUnregistered(Get(ArgDictOf(args, process).value, "env").value, envs).value
  {
    if !WantsHelp(args) && ArgDictOf(args, process).Some? {
      SpecialPasses(ArgDictOf(args, process).value, cmd);
    }
  }

  /** `parse_and_execute_grid_search` as the source runs it: the help
      check, then the passes over the tokens and the dictionary. */
  method ParseAndExecuteGridSearch<V>(cmd: string, args: seq<string>, process: string -> Val<V>, envs: seq<string>)
    returns (r: Outcome<V>)
    ensures r == Parse(cmd, args, process, envs)
  {
    var i := 0;
    while i < |args|
      invariant 0 <= i <= |args|
      invariant forall j :: 0 <= j < i ==> args[j] !in HELP_TOKENS
    {
      if args[i] in HELP_TOKENS {
        return ShowHelp;
      }
      i := i + 1;
    }
    var collected := CollectFlags(args, process);
    if collected.None? {
      return Failed(NoFirstFlag);
    }
    var d := FillBareFlags(collected.value);
    var split := ExtractRunKwargs(d);
    if split.Err? {
      return Failed(split.error);
    }
    var rest, runKwargs := split.value.d, split.value.runKwargs;
    var expName: Val<V>;
    if "exp_name" in Keys(rest) {
      var vals := Get(rest, "exp_name").value;
      if |vals| != 1 {
        return Failed(NotOneValue("exp_name"));
      }
      expName := vals[0];
      rest := Delete(rest, "exp_name");
    } else {
      expName := Str("cmd_" + cmd);
    }
    if "env" !in Keys(rest) {
      return Failed(NoEnv);
    }
    var bad := CheckEnvs(Get(rest, "env").value, envs);
    if bad.Some? {
      return Failed(Unregistered(bad.value));
    }
    r := Launch(GridRun(expName, rest, runKwargs));
  }

  const VALID_ALGOS: seq<string> := ["vanilla", "trpo", "a2c", "ppo", "acktr"]
  const VALID_UTILS: seq<string> := ["plot", "sim_policy"]

  /** What the script does with its command line. */
  datatype Command<V> =
    | MissingCommand
    | UnknownCommand(cmd: string)
    | Algorithm(cmd: string, outcome: Outcome<V>)
    | Utility(argv: seq<string>)

  /** The script's `__main__` block: `argv[1]` names an algorithm, whose
      arguments are parsed, or a utility, run as a script under `utils/`
      of the directory `here` by the interpreter `executable` with the
      remaining arguments; `plot` runs `viskit/frontend`. */
  function RunScript<V>(argv: seq<string>, here: string, executable: string, process: string -> Val<V>,
                        envs: seq<string>): Command<V>
  {
    if |argv| < 2 then MissingCommand
    else
      var cmd := argv[1];
      if cmd !in VALID_ALGOS + VALID_UTILS then UnknownCommand(cmd)
      else if cmd in VALID_ALGOS then Algorithm(cmd, Parse(cmd, argv[2..], process, envs))
      else Utility(UtilityArgv(cmd, argv[2..], here, executable))
  }

  /** The command line that runs utility `cmd` with the arguments `rest`. */
  function UtilityArgv(cmd: string, rest: seq<string>, here: string, executable: string): seq<string>
  {
    var name := if cmd == "plot" then LogOutput.PathJoin("viskit", "frontend") else cmd;
    var runfile := LogOutput.PathJoin(LogOutput.PathJoin(here, "utils"), name + ".py");
    [if executable == "" then "python" else executable, runfile] + rest
  }

  /** A missing command fails; a command that is neither an algorithm nor a
      utility is refused; an algorithm's arguments are parsed; a utility
      gets the command line that runs its script. */
  lemma RunScriptCommand<V>(argv: seq<string>, here: string, executable: string, process: string -> Val<V>,
                            envs: seq<string>)
    ensures var r := RunScript(argv, here, executable, process, envs);
            (r.MissingCommand? <==> |argv| < 2)
            && (r.UnknownCommand? <==> |argv| >= 2 && argv[1] !in VALID_ALGOS + VALID_UTILS)
            && (r.Algorithm? <==> |argv| >= 2 && argv[1] in VALID_ALGOS)
            && (r.Algorithm? ==> r.cmd == argv[1] && r.outcome == Parse(argv[1], argv[2..], process, envs))
            && (r.Utility? <==> |argv| >= 2 && argv[1] in VALID_UTILS)
            && (r.Utility? ==> r.argv == UtilityArgv(argv[1], argv[2..], here, executable))
  {
  }

  /** A utility runs the script `<here>/utils/<name>.py`, `plot` naming
      `viskit/frontend`; an interpreter is always named, `python` when none
      is known; the remaining arguments follow unchanged. */
  lemma UtilityArgvSpec(cmd: string, rest: seq<string>, here: string, executable: string)
    ensures var a := UtilityArgv(cmd, rest, here, executable);
            var name := if cmd == "plot" then "viskit/frontend" else cmd;
            |a| == |rest| + 2 && a[2..] == rest
            && a[0] != ""
            && a[1] == LogOutput.PathJoin(here, "utils/" + name + ".py")
  {
    assert LogOutput.PathJoin("viskit", "frontend") == "viskit/frontend";
    var name := if cmd == "plot" then "viskit/frontend" else cmd;
    LogOutput.PathJoinAssoc(here, "utils", name + ".py");
    assert "utils" + "/" + (name + ".py") == "utils/" + name + ".py";
  }
}
