/** The command-line front end of `oref0-get-profile`:
    - the `key=value` splitter with its quote and backslash state machine,
    - the split of the arguments into named (`--key=value`) and positional ones,
    - the lookups by name and by position,
    - the help decision of `main`.
    Reading the preference file and printing the profile are left to I/O.
 */
module GetProfile {
  import opened Wrappers
  import Text

  // ---------------------------------------------------------------------------
  // The quote state machine of `parse_kv_string`

  /** What the scan knows after a prefix of the line: whether it is inside
      double quotes, and whether a lone backslash waits on the two-slot stack. */
  datatype Scan = Scan(inQuote: bool, pending: bool)

  /** One character of the scan. A backslash arms the stack, and a second
      backslash clears it. A quote toggles the in-quote state unless the stack
      is armed, in which case it only clears the stack. Every other character,
      `=` included, leaves the state alone. */
  function Step(s: Scan, c: char): Scan {
    if c == '\\' then Scan(s.inQuote, !s.pending)
    else if c == '"' then (if s.pending then Scan(s.inQuote, false) else Scan(!s.inQuote, false))
    else s
  }

  /** The state after the first `n` characters of the line. */
  function ScanPrefix(line: string, n: nat): Scan
    requires n <= |line|
  {
    if n == 0 then Scan(false, false) else Step(ScanPrefix(line, n - 1), line[n - 1])
  }

  /** The line may split at `i`: an `=` met outside quotes. */
  predicate SplitsAt(line: string, i: int) {
    0 <= i < |line| && line[i] == '=' && !ScanPrefix(line, i).inQuote
  }

  /** The first split point at or after `from`. */
  function FirstSplit(line: string, from: nat): (r: Option<nat>)
    requires from <= |line|
    ensures r.Some? ==> from <= r.value < |line| && SplitsAt(line, r.value)
    ensures r.Some? ==> forall j :: from <= j < r.value ==> !SplitsAt(line, j)
    ensures r.None? ==> forall j :: from <= j < |line| ==> !SplitsAt(line, j)
    decreases |line| - from
  {
    if from == |line| then None
    else if SplitsAt(line, from) then Some(from)
    else FirstSplit(line, from + 1)
  }

  /** The meaning of `parse_kv_string`: split at the first `=` outside quotes
      and trim both sides, or give the trimmed line and an empty value. */
  function KvSplit(line: string): (string, string) {
    match FirstSplit(line, 0)
    case Some(i) => (Text.Trim(line[..i]), Text.Trim(line[i + 1..]))
    case None => (Text.Trim(line), "")
  }

  /** The split happens at the first `=` outside quotes, and only there ... */
  lemma KvSplitAtFirstUnquotedEquals(line: string, i: int)
    requires SplitsAt(line, i)
    requires forall j :: 0 <= j < i ==> !SplitsAt(line, j)
    ensures KvSplit(line) == (Text.Trim(line[..i]), Text.Trim(line[i + 1..]))
  {
    var r := FirstSplit(line, 0);
    assert r.Some? && r.value == i;
  }

  /** ... and a line without such an `=` is all key. */
  lemma KvSplitWithoutEquals(line: string)
    requires forall i :: !SplitsAt(line, i)
    ensures KvSplit(line) == (Text.Trim(line), "")
  {
  }

  /** `parse_kv_string` as written: a scan with a two-slot character stack,
      which is consulted and cleared after every character. */
  method ParseKvString(line: string) returns (key: string, value: string)
    ensures (key, value) == KvSplit(line)
  {
    var stack: seq<char> := [];
    var inQuote := false;
    var pos := 0;
    while pos < |line|
      invariant 0 <= pos <= |line|
      invariant stack == [] || stack == ['\\']
      invariant Scan(inQuote, stack == ['\\']) == ScanPrefix(line, pos)
      invariant FirstSplit(line, 0) == FirstSplit(line, pos)
    {
      var c := line[pos];
      if c == '=' && !inQuote {
        key := Text.Trim(line[..pos]);
        value := Text.Trim(line[pos + 1..]);
        return;
      }
      stack, inQuote := PushAndConsult(stack, inQuote, c);
      pos := pos + 1;
    }
    key := Text.Trim(line);
    value := "";
  }

  /** One character of the loop of `parse_kv_string` other than a splitting
      `=`: a backslash or a quote is pushed, then the stack is consulted. The
      two-slot stack and the flag move exactly as `Step` says. */
  method PushAndConsult(stack: seq<char>, inQuote: bool, c: char) returns (stack': seq<char>, inQuote': bool)
    requires stack == [] || stack == ['\\']
    ensures stack' == [] || stack' == ['\\']
    ensures Scan(inQuote', stack' == ['\\']) == Step(Scan(inQuote, stack == ['\\']), c)
  {
    stack', inQuote' := stack, inQuote;
    if c == '\\' {
      stack' := stack' + ['\\'];
    } else if c == '"' {
      stack' := stack' + ['"'];
    }
    if stack' != [] {
      if stack'[0] == '\\' {
        if |stack'| == 2 {
          stack' := [];
        }
      } else if stack'[0] == '"' {
        inQuote' := !inQuote';
        stack' := [];
      }
    }
  }

  /** Without any double quote in the line the scan is never inside quotes, so
      the line splits at its first `=`. */
  lemma {:induction false} NoQuoteNeverInQuote(line: string, n: nat)
    requires n <= |line|
    requires forall k :: 0 <= k < |line| ==> line[k] != '"'
    ensures !ScanPrefix(line, n).inQuote
  {
    if n > 0 {
      NoQuoteNeverInQuote(line, n - 1);
    }
  }

  lemma NoQuoteSplitsAtFirstEquals(line: string, i: nat)
    requires forall k :: 0 <= k < |line| ==> line[k] != '"'
    requires i < |line| && line[i] == '='
    requires forall k :: 0 <= k < i ==> line[k] != '='
    ensures KvSplit(line) == (Text.Trim(line[..i]), Text.Trim(line[i + 1..]))
  {
    NoQuoteNeverInQuote(line, i);
    KvSplitAtFirstUnquotedEquals(line, i);
  }

  /** Spaces around the key and the value are trimmed. */
  lemma KvSplitTrims()
    ensures KvSplit(" a = b ") == ("a", "b")
  {
    var line := " a = b ";
    assert !SplitsAt(line, 0) && !SplitsAt(line, 1) && !SplitsAt(line, 2);
    assert SplitsAt(line, 3);
    assert line[..3] == " " + "a" + " ";
    assert line[4..] == " " + "b" + " ";
    Text.TrimSurrounded(" ", "a", " ");
    Text.TrimSurrounded(" ", "b", " ");
    KvSplitAtFirstUnquotedEquals(line, 3);
  }

  /** Quotes hide an `=` and are kept in the result. */
  lemma KvSplitQuoted()
    ensures KvSplit("\"a=b\"") == ("\"a=b\"", "")
  {
    var line := "\"a=b\"";
    assert ScanPrefix(line, 2).inQuote;
    forall i
      ensures !SplitsAt(line, i)
    {
      if 0 <= i < |line| && i != 2 {
        assert line[i] != '=';
      }
    }
    KvSplitWithoutEquals(line);
    assert line == "" + line + "";
    Text.TrimSurrounded("", line, "");
  }

  /** A backslash in front of a quote stops it from opening quotes. */
  lemma KvSplitEscapedQuote()
    ensures KvSplit("\\\"=b").1 == "b"
  {
    assert SplitsAt("\\\"=b", 2);
    KvSplitAtFirstUnquotedEquals("\\\"=b", 2);
    assert "\\\"=b"[3..] == "b";
    Text.TrimSurrounded("", "b", "");
  }

  /** A doubled backslash cancels itself, so the quote after it opens quotes. */
  lemma KvSplitDoubledBackslash()
    ensures KvSplit("\\\\\"=b").1 == ""
  {
    assert ScanPrefix("\\\\\"=b", 3).inQuote;
    assert !SplitsAt("\\\\\"=b", 3);
  }

  /** Text between a backslash and its quote does not disarm the backslash. */
  lemma KvSplitBackslashStaysArmed()
    ensures KvSplit("\\x\"=b").1 == "b"
  {
    assert SplitsAt("\\x\"=b", 3);
    KvSplitAtFirstUnquotedEquals("\\x\"=b", 3);
    assert "\\x\"=b"[4..] == "b";
    Text.TrimSurrounded("", "b", "");
  }

  // ---------------------------------------------------------------------------
  // `parameters` and `parse_cmd_line`

  /** The positional arguments in order, and the named ones by key. */
  datatype Parameters = Parameters(ordered: seq<string>, named: map<string, string>)

  /** An argument as the loop sees it: after a "--" prefix, the rest is split
      into a key and a value; any other argument is kept whole. */
  datatype Arg = Named(key: string, value: string) | Plain(text: string)

  function Classify(arg: string): (a: Arg)
    ensures a.Named? <==> Text.StartsWith(arg, "--")
    ensures a.Plain? ==> a.text == arg
  {
    if Text.StartsWith(arg, "--") then
      var kv := KvSplit(arg[2..]);
      Named(kv.0, kv.1)
    else
      Plain(arg)
  }

  /** One step of the loop: a named argument is inserted without overwriting
      an earlier one (map `insert`); any other argument is appended to the
      positional list. */
  function AddArg(p: Parameters, a: Arg): Parameters {
    match a
    case Named(k, v) => if k in p.named then p else p.(named := p.named[k := v])
    case Plain(t) => p.(ordered := p.ordered + [t])
  }

  /** The loop of `parse_cmd_line` over classified arguments. */
  function Collect(args: seq<Arg>): Parameters {
    if args == [] then Parameters([], map[])
    else AddArg(Collect(args[..|args| - 1]), args[|args| - 1])
  }

  function ClassifyAll(args: seq<string>): (cs: seq<Arg>)
    ensures |cs| == |args|
    ensures forall i :: 0 <= i < |args| ==> cs[i] == Classify(args[i])
  {
    seq(|args|, i requires 0 <= i < |args| => Classify(args[i]))
  }

  /** `parse_cmd_line`: every argument after the program name. */
  function ParseCmdLine(argv: seq<string>): Parameters {
    if argv == [] then Parameters([], map[]) else Collect(ClassifyAll(argv[1..]))
  }

  /** The texts of the plain arguments, read from the front. */
  function Positional(args: seq<Arg>): seq<string> {
    if args == [] then []
    else (if args[0].Plain? then [args[0].text] else []) + Positional(args[1..])
  }

  lemma {:induction false} PositionalAppend(args: seq<Arg>, a: Arg)
    ensures Positional(args + [a]) == Positional(args) + (if a.Plain? then [a.text] else [])
  {
    if args != [] {
      assert (args + [a])[1..] == args[1..] + [a];
      PositionalAppend(args[1..], a);
    }
  }

  /** The positional list holds the plain arguments, in their order. */
  lemma {:induction false} CollectPositional(args: seq<Arg>)
    ensures Collect(args).ordered == Positional(args)
  {
    if args != [] {
      var init := args[..|args| - 1];
      CollectPositional(init);
      PositionalAppend(init, args[|args| - 1]);
      assert init + [args[|args| - 1]] == args;
    }
  }

  /** Argument `i` is a named argument for key `k`. */
  predicate NamesKeyAt(args: seq<Arg>, i: int, k: string) {
    0 <= i < |args| && args[i].Named? && args[i].key == k
  }

  /** Argument `i` is the first named argument for key `k`. */
  predicate FirstNamesKeyAt(args: seq<Arg>, i: int, k: string) {
    NamesKeyAt(args, i, k) && forall j :: 0 <= j < i ==> !NamesKeyAt(args, j, k)
  }

  /** A key is present exactly when some argument names it. */
  lemma {:induction false} CollectKeys(args: seq<Arg>, k: string)
    ensures k in Collect(args).named <==> exists i :: NamesKeyAt(args, i, k)
  {
    if args != [] {
      var n := |args| - 1;
      var init := args[..n];
      CollectKeys(init, k);
      if k in Collect(args).named && !NamesKeyAt(args, n, k) {
        var i :| NamesKeyAt(init, i, k);
        assert NamesKeyAt(args, i, k);
      }
      if exists i :: NamesKeyAt(args, i, k) {
        var i :| NamesKeyAt(args, i, k);
        if i < n {
          assert NamesKeyAt(init, i, k);
        }
      }
    }
  }

  /** The value of a present key comes from the first argument naming it: a
      repeated key does not overwrite. */
  lemma {:induction false} CollectFirstWins(args: seq<Arg>, k: string)
    requires k in Collect(args).named
    ensures exists i :: FirstNamesKeyAt(args, i, k) && Collect(args).named[k] == args[i].value
  {
    var n := |args| - 1;
    var init := args[..n];
    if k in Collect(init).named {
      CollectFirstWins(init, k);
      var i :| FirstNamesKeyAt(init, i, k) && Collect(init).named[k] == init[i].value;
      forall j | 0 <= j < i
        ensures !NamesKeyAt(args, j, k)
      {
        assert args[j] == init[j];
        assert !NamesKeyAt(init, j, k);
      }
      assert args[i] == init[i];
      assert FirstNamesKeyAt(args, i, k);
    } else {
      CollectKeys(init, k);
      forall j | 0 <= j < n
        ensures !NamesKeyAt(args, j, k)
      {
        assert args[j] == init[j];
        assert !NamesKeyAt(init, j, k);
      }
      assert FirstNamesKeyAt(args, n, k);
    }
  }

  /** `parameters::kv_get`. */
  function KvGet(p: Parameters, key: string): (r: Option<string>)
    ensures r.Some? <==> key in p.named
    ensures r.Some? ==> r.value == p.named[key]
  {
    if key in p.named then Some(p.named[key]) else None
  }

  /** After `parse_cmd_line`, the positional list is the arguments without a
      "--" prefix in their order, and looking a key up finds the value of the
      first `--key` given. */
  lemma ParseCmdLineSpec(argv: seq<string>, key: string)
    requires argv != []
    ensures ParseCmdLine(argv).ordered == Positional(ClassifyAll(argv[1..]))
    ensures KvGet(ParseCmdLine(argv), key).Some? <==> exists i :: NamesKeyAt(ClassifyAll(argv[1..]), i, key)
    ensures KvGet(ParseCmdLine(argv), key).Some? ==>
      exists i :: FirstNamesKeyAt(ClassifyAll(argv[1..]), i, key) &&
        KvGet(ParseCmdLine(argv), key).value == Classify(argv[1 + i]).value
  {
    var cs := ClassifyAll(argv[1..]);
    CollectPositional(cs);
    CollectKeys(cs, key);
    if key in Collect(cs).named {
      CollectFirstWins(cs, key);
    }
  }

  /** The program name is never an argument, and a repeated option keeps its
      first value: `prog a --k=v1 b --k=v2` has positionals a, b and k = v1. */
  lemma ParseCmdLineExample(prog: string, a: char, b: char, k: char, v1: char, v2: char)
    requires OptionChars(k, v1) && OptionChars(k, v2)
    ensures ParseCmdLine([prog, [a], ['-', '-', k, '=', v1], [b], ['-', '-', k, '=', v2]])
            == Parameters([[a], [b]], map[[k] := [v1]])
  {
    var args := [[a], ['-', '-', k, '=', v1], [b], ['-', '-', k, '=', v2]];
    assert [prog, [a], ['-', '-', k, '=', v1], [b], ['-', '-', k, '=', v2]][1..] == args;
    ExampleClassified(a, b, k, v1, v2);
    ExampleCollected(a, b, k, v1, v2);
  }

  /** The arguments of the example after the program name, classified. */
  lemma ExampleClassified(a: char, b: char, k: char, v1: char, v2: char)
    requires OptionChars(k, v1) && OptionChars(k, v2)
    ensures ClassifyAll([[a], ['-', '-', k, '=', v1], [b], ['-', '-', k, '=', v2]])
            == [Plain([a]), Named([k], [v1]), Plain([b]), Named([k], [v2])]
  {
    ClassifyOption(k, v1);
    ClassifyOption(k, v2);
    ClassifyShort([a]);
    ClassifyShort([b]);
  }

  /** A one-character argument is positional. */
  lemma ClassifyShort(arg: string)
    requires |arg| == 1
    ensures Classify(arg) == Plain(arg)
  {
  }

  /** The classified arguments of the example, collected. */
  lemma ExampleCollected(a: char, b: char, k: char, v1: char, v2: char)
    ensures Collect([Plain([a]), Named([k], [v1]), Plain([b]), Named([k], [v2])])
            == Parameters([[a], [b]], map[[k] := [v1]])
  {
    var cs := [Plain([a]), Named([k], [v1]), Plain([b]), Named([k], [v2])];
    assert cs[..1][..0] == [];
    assert Collect(cs[..1]) == Parameters([[a]], map[]);
    assert cs[..2][..1] == cs[..1];
    assert Collect(cs[..2]) == Parameters([[a]], map[[k] := [v1]]);
    assert cs[..3][..2] == cs[..2];
    assert Collect(cs[..3]) == Parameters([[a], [b]], map[[k] := [v1]]);
    assert cs[..4][..3] == cs[..3] && cs[..4] == cs;
  }

  /** The characters a single-character `--k=v` option may use. */
  predicate OptionChars(k: char, v: char) {
    !Text.IsSpace(k) && !Text.IsSpace(v) && k != '"' && k != '\\' && k != '='
  }

  lemma ClassifyOption(k: char, v: char)
    requires OptionChars(k, v)
    ensures Classify(['-', '-', k, '=', v]) == Named([k], [v])
  {
    var arg := ['-', '-', k, '=', v];
    assert Text.StartsWith(arg, "--");
    assert arg[2..] == [k, '=', v];
    KvSplitOneEquals(k, v);
  }

  lemma KvSplitOneEquals(k: char, v: char)
    requires OptionChars(k, v)
    ensures KvSplit([k, '=', v]) == ([k], [v])
  {
    var line := [k, '=', v];
    assert SplitsAt(line, 1);
    assert !SplitsAt(line, 0);
    assert line[..1] == [] + [k] + [] && line[2..] == [] + [v] + [];
    Text.TrimSurrounded([], [k], []);
    Text.TrimSurrounded([], [v], []);
    KvSplitAtFirstUnquotedEquals(line, 1);
  }

  // ---------------------------------------------------------------------------
  // `unnamed_parameters`

  /** The names of the positional arguments: required ones, then optional ones. */
  datatype Unnamed = Unnamed(required: seq<string>, optional: seq<string>)

  /** The position `std::find` reports: the first occurrence. */
  function IndexOf(s: seq<string>, x: string): (i: nat)
    requires x in s
    ensures i < |s| && s[i] == x
    ensures forall j :: 0 <= j < i ==> s[j] != x
  {
    if s[0] == x then 0 else 1 + IndexOf(s[1..], x)
  }

  /** The unchecked index `find` uses lies inside the positional list. */
  predicate CanFind(u: Unnamed, p: Parameters, key: string) {
    (key in u.required ==> IndexOf(u.required, key) < |p.ordered|) &&
    (key !in u.required && key in u.optional ==> |u.required| + IndexOf(u.optional, key) < |p.ordered|)
  }

  /** `unnamed_parameters::find`: the positional argument standing at the
      name's place, the optional names counting on after the required ones. */
  function Find(u: Unnamed, p: Parameters, key: string): (r: Option<string>)
    requires CanFind(u, p, key)
    ensures r.None? <==> key !in u.required && key !in u.optional
    ensures key in u.required ==>
      exists i :: 0 <= i < |u.required| && i < |p.ordered| && u.required[i] == key && r == Some(p.ordered[i])
    ensures key !in u.required && key in u.optional ==>
      exists j :: 0 <= j < |u.optional| && |u.required| + j < |p.ordered| && u.optional[j] == key &&
        r == Some(p.ordered[|u.required| + j])
  {
    if key in u.required then Some(p.ordered[IndexOf(u.required, key)])
    else if key in u.optional then Some(p.ordered[|u.required| + IndexOf(u.optional, key)])
    else None
  }

  predicate Distinct(s: seq<string>) {
    forall i, j :: 0 <= i < j < |s| ==> s[i] != s[j]
  }

  /** With distinct names, the i-th required name finds the i-th positional
      argument and the j-th optional name the (|required| + j)-th. */
  lemma FindByPosition(u: Unnamed, p: Parameters)
    requires Distinct(u.required) && Distinct(u.optional)
    requires forall x :: x in u.optional ==> x !in u.required
    ensures forall i :: 0 <= i < |u.required| && i < |p.ordered| ==>
      CanFind(u, p, u.required[i]) && Find(u, p, u.required[i]) == Some(p.ordered[i])
    ensures forall j :: 0 <= j < |u.optional| && |u.required| + j < |p.ordered| ==>
      CanFind(u, p, u.optional[j]) && Find(u, p, u.optional[j]) == Some(p.ordered[|u.required| + j])
  {
    forall i | 0 <= i < |u.required| && i < |p.ordered|
      ensures CanFind(u, p, u.required[i]) && Find(u, p, u.required[i]) == Some(p.ordered[i])
    {
      var k := IndexOf(u.required, u.required[i]);
      assert k == i;
    }
    forall j | 0 <= j < |u.optional| && |u.required| + j < |p.ordered|
      ensures CanFind(u, p, u.optional[j]) && Find(u, p, u.optional[j]) == Some(p.ordered[|u.required| + j])
    {
      var k := IndexOf(u.optional, u.optional[j]);
      assert k == j;
    }
  }

  // ---------------------------------------------------------------------------
  // `main`

  /** The positional names `main` declares (the misspelling is the program's). */
  const ProfileUnnamed: Unnamed := Unnamed(
    ["pump_settings", "bg_targets", "insulin_sensitivities", "basal_profile"],
    ["preferencces", "carb_ratios", "temp_targets"])

  /** The count check of `main`: too few or too many positional arguments. */
  predicate NeedsHelp(u: Unnamed, p: Parameters) {
    |p.ordered| < |u.required| || |p.ordered| > |u.required| + |u.optional|
  }

  /** Passing the count check makes every required name findable. */
  lemma CountCheckEnablesFind(u: Unnamed, p: Parameters, key: string)
    requires !NeedsHelp(u, p)
    requires key in u.required
    ensures CanFind(u, p, key)
  {
  }

  /** What `main` does, the file system left out. */
  datatype Outcome = ShowHelp | PrintDefaultProfile | LoadPreferences(path: string) | Proceed

  /** The decision sequence of `main`: help, then export of the defaults, then
      the preference file, then the count check. A named option counts as given
      whenever it is present, even with an empty value. */
  function MainOutcome(argv: seq<string>): (o: Outcome)
    ensures var p := ParseCmdLine(argv);
      (o == ShowHelp <==>
        ("help" in p.named ||
         ("exportDefaults" !in p.named && "updatePreferences" !in p.named && NeedsHelp(ProfileUnnamed, p))))
    ensures o.LoadPreferences? ==> o.path != ""
    ensures o == Proceed ==> forall i :: 0 <= i < |ProfileUnnamed.required| ==>
      CanFind(ProfileUnnamed, ParseCmdLine(argv), ProfileUnnamed.required[i])
  {
    var p := ParseCmdLine(argv);
    if KvGet(p, "help").Some? then ShowHelp
    else if KvGet(p, "exportDefaults").Some? then PrintDefaultProfile
    else if KvGet(p, "updatePreferences").Some? then
      var file := KvGet(p, "updatePreferences").value;
      if file != "" then LoadPreferences(file) else PrintDefaultProfile
    else if NeedsHelp(ProfileUnnamed, p) then ShowHelp
    else Proceed
  }

  /** With no option among the arguments, `main` shows the help exactly when
      it is given fewer than four or more than seven positional arguments. */
  lemma MainWithoutOptions(argv: seq<string>)
    requires argv != []
    requires forall i :: 1 <= i < |argv| ==> !Text.StartsWith(argv[i], "--")
    ensures MainOutcome(argv) == (if |argv| - 1 < 4 || |argv| - 1 > 7 then ShowHelp else Proceed)
  {
    var cs := ClassifyAll(argv[1..]);
    assert forall i :: 0 <= i < |cs| ==> cs[i].Plain?;
    CollectPositional(cs);
    PositionalAllPlain(cs);
    CollectKeys(cs, "help");
    CollectKeys(cs, "exportDefaults");
    CollectKeys(cs, "updatePreferences");
  }

  lemma {:induction false} PositionalAllPlain(args: seq<Arg>)
    requires forall i :: 0 <= i < |args| ==> args[i].Plain?
    ensures |Positional(args)| == |args|
  {
    if args != [] {
      PositionalAllPlain(args[1..]);
    }
  }
}
