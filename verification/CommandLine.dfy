/** Command lines: parsing `argv`, printing it back, and looking options up. */
module CommandLines {
  import Wrappers

  datatype Option = Option(name: string, value: string)

  /** What `operator==` compares. */
  datatype Components = Components(hasArgv0: bool, argv0: string, options: seq<Option>, positionalArgs: seq<string>)

  const NO_LINE := Components(false, "", [], [])

  /** The two constructors only make lines of this form. */
  predicate WellFormed(c: Components) { !c.hasArgv0 ==> c == NO_LINE }

  // ---- One argument ----

  predicate StartsWithDashes(arg: string) { |arg| >= 2 && arg[0] == '-' && arg[1] == '-' }

  predicate IsOption(arg: string) { StartsWithDashes(arg) && |arg| > 2 }

  /** `std::string::find`: the first `c` at or after `from`, or the end. */
  function Find(s: string, c: char, from: nat): (pos: nat)
    requires from <= |s|
    ensures from <= pos <= |s|
    ensures pos < |s| ==> s[pos] == c
    ensures c !in s[from..pos]
    decreases |s| - from
  {
    if from == |s| || s[from] == c then from else Find(s, c, from + 1)
  }

  function OptionOf(arg: string): Option
    requires IsOption(arg)
  {
    var equals := Find(arg, '=', 3);
    if equals == |arg| then Option(arg[2..], "") else Option(arg[2..equals], arg[equals + 1..])
  }

  function ArgOf(o: Option): string {
    if o.value == "" then "--" + o.name else "--" + o.name + "=" + o.value
  }

  /** Names that parsing can produce: not empty, and no '=' after the first character. */
  predicate IsName(name: string) { name != "" && '=' !in name[1..] }

  lemma NameOfOption(arg: string)
    requires IsOption(arg)
    ensures IsName(OptionOf(arg).name)
  {}

  lemma {:induction false} FindAt(s: string, c: char, from: nat, pos: nat)
    requires from <= pos <= |s|
    requires c !in s[from..pos]
    requires pos < |s| ==> s[pos] == c
    ensures Find(s, c, from) == pos
    decreases pos - from
  {}

  lemma OptionOfArg(o: Option)
    requires IsName(o.name)
    ensures IsOption(ArgOf(o)) && OptionOf(ArgOf(o)) == o
  {
    var arg, end := ArgOf(o), 2 + |o.name|;
    assert arg[2..end] == o.name;
    assert arg[3..end] == o.name[1..];
    FindAt(arg, '=', 3, end);
    if o.value == "" {
      assert arg[2..] == o.name;
    } else {
      assert arg[end + 1..] == o.value;
    }
  }

  // ---- What a command line means ----

  /** How many leading arguments are options. */
  function LeadingOptions(args: seq<string>): (k: nat)
    ensures k <= |args| && forall i | 0 <= i < k :: IsOption(args[i])
    ensures k < |args| ==> !IsOption(args[k])
  {
    if args != [] && IsOption(args[0]) then 1 + LeadingOptions(args[1..]) else 0
  }

  function Options(args: seq<string>): (options: seq<Option>)
    requires forall i | 0 <= i < |args| :: IsOption(args[i])
    ensures |options| == |args| && forall i | 0 <= i < |args| :: options[i] == OptionOf(args[i])
  {
    if args == [] then [] else [OptionOf(args[0])] + Options(args[1..])
  }

  /** What follows the options, without the "--" that may end them. */
  function Positional(rest: seq<string>): seq<string> {
    if rest != [] && rest[0] == "--" then rest[1..] else rest
  }

  /** Reference parse: program name, the longest run of options, the rest. */
  function Parse(argv: seq<string>): Components {
    if argv == [] then NO_LINE else
      var args := argv[1..];
      var k := LeadingOptions(args);
      Components(true, argv[0], Options(args[..k]), Positional(args[k..]))
  }

  // ---- The builder ----

  datatype Building = Building(parts: Components, started: bool)

  const NOTHING := Building(NO_LINE, false)

  function Process(b: Building, arg: string): Building {
    var p := b.parts;
    if !p.hasArgv0 then b.(parts := p.(hasArgv0 := true, argv0 := arg))
    else if b.started || !StartsWithDashes(arg) then Building(p.(positionalArgs := p.positionalArgs + [arg]), true)
    else if |arg| == 2 then b.(started := true)
    else b.(parts := p.(options := p.options + [OptionOf(arg)]))
  }

  function ProcessAll(b: Building, args: seq<string>): Building
    decreases args
  {
    if args == [] then b else ProcessAll(Process(b, args[0]), args[1..])
  }

  class CommandLineBuilder {
    var hasArgv0: bool
    var argv0: string
    var options: seq<Option>
    var positionalArgs: seq<string>
    var startedPositionalArgs: bool

    ghost function View(): Building
      reads this
    {
      Building(Components(hasArgv0, argv0, options, positionalArgs), startedPositionalArgs)
    }

    constructor ()
      ensures View() == NOTHING
    {
      hasArgv0, argv0, options, positionalArgs, startedPositionalArgs := false, "", [], [], false;
    }

    method ProcessArg(arg: string) returns (first: bool)
      modifies this
      ensures View() == Process(old(View()), arg)
      ensures first <==> old(positionalArgs) == [] && positionalArgs == [arg]
    {
      if !hasArgv0 {
        hasArgv0, argv0 := true, arg;
        return false;
      }
      if startedPositionalArgs {
        first := positionalArgs == [];
        positionalArgs := positionalArgs + [arg];
        return first;
      }
      if |arg| < 2 || arg[0] != '-' || arg[1] != '-' {
        first := positionalArgs == [];
        startedPositionalArgs := true;
        positionalArgs := positionalArgs + [arg];
        return first;
      }
      if |arg| == 2 {
        startedPositionalArgs := true;
        return false;
      }
      var equals := Find(arg, '=', 3);
      if equals == |arg| {
        options := options + [Option(arg[2..], "")];
        return false;
      }
      options := options + [Option(arg[2..equals], arg[equals + 1..])];
      return false;
    }

    method Build() returns (c: Components)
      ensures c == if hasArgv0 then View().parts else NO_LINE
    {
      if !hasArgv0 {
        return NO_LINE;
      }
      c := Components(true, argv0, options, positionalArgs);
    }
  }

  lemma {:induction false} ProcessPositional(b: Building, args: seq<string>)
    requires b.parts.hasArgv0 && b.started
    ensures ProcessAll(b, args) == b.(parts := b.parts.(positionalArgs := b.parts.positionalArgs + args))
    decreases args
  {
    if args == [] {
      assert b.parts.positionalArgs + args == b.parts.positionalArgs;
    } else {
      var c := Process(b, args[0]);
      ProcessPositional(c, args[1..]);
      assert c.parts.positionalArgs + args[1..] == b.parts.positionalArgs + args;
    }
  }

  /** `p`, with the meaning of the arguments `args` added. */
  function Extended(p: Components, args: seq<string>): Components {
    var k := LeadingOptions(args);
    p.(options := p.options + Options(args[..k]), positionalArgs := Positional(args[k..]))
  }

  lemma ExtendedByOption(p: Components, args: seq<string>)
    requires args != [] && IsOption(args[0])
    ensures Extended(p, args) == Extended(p.(options := p.options + [OptionOf(args[0])]), args[1..])
  {}

  lemma ExtendedByNone(p: Components, args: seq<string>)
    requires args == [] || !IsOption(args[0])
    ensures Extended(p, args) == p.(positionalArgs := Positional(args))
  {}

  lemma ProcessFirstPositional(b: Building, args: seq<string>)
    requires b.parts.hasArgv0 && !b.started && b.parts.positionalArgs == []
    requires args != [] && !IsOption(args[0])
    ensures ProcessAll(b, args).parts == b.parts.(positionalArgs := Positional(args))
  {
    ProcessPositional(Process(b, args[0]), args[1..]);
    EndsOptions(args[0]);
    assert [] + [args[0]] + args[1..] == args && [] + args[1..] == args[1..];
  }

  lemma {:induction false} ProcessOptions(b: Building, args: seq<string>)
    requires b.parts.hasArgv0 && !b.started && b.parts.positionalArgs == []
    ensures ProcessAll(b, args).parts == Extended(b.parts, args)
    decreases args
  {
    if args == [] {
      ExtendedByNone(b.parts, args);
    } else if IsOption(args[0]) {
      ExtendedByOption(b.parts, args);
      ProcessOptions(Process(b, args[0]), args[1..]);
    } else {
      ExtendedByNone(b.parts, args);
      ProcessFirstPositional(b, args);
    }
  }

  lemma EndsOptions(arg: string)
    requires !IsOption(arg)
    ensures StartsWithDashes(arg) <==> arg == "--"
  {}

  /** The builder's one pass computes the reference parse. */
  lemma BuilderParses(argv: seq<string>)
    ensures ProcessAll(NOTHING, argv).parts == Parse(argv)
  {
    if argv != [] {
      var b := Process(NOTHING, argv[0]);
      ProcessOptions(b, argv[1..]);
      assert b.parts.options == [] && forall s: seq<Option> :: [] + s == s;
    }
  }

  /** Parses `argv`; `first` is the index of the first positional argument, or the end. */
  method FromIterators(argv: seq<string>) returns (c: Components, first: nat)
    ensures c == Parse(argv)
    ensures first <= |argv| && argv[first..] == c.positionalArgs
  {
    first := |argv|;
    var builder := new CommandLineBuilder();
    for i := 0 to |argv|
      invariant ProcessAll(builder.View(), argv[i..]) == ProcessAll(NOTHING, argv)
      invariant builder.hasArgv0 <==> i > 0
      invariant !builder.hasArgv0 ==> builder.View() == NOTHING
      invariant builder.positionalArgs != [] ==> builder.startedPositionalArgs && first < i
      invariant builder.positionalArgs == [] ==> first == |argv|
      invariant builder.positionalArgs == if first < i then argv[first..i] else []
    {
      assert argv[i..][0] == argv[i] && argv[i..][1..] == argv[i + 1..];
      assert first < i ==> argv[first..i + 1] == argv[first..i] + [argv[i]];
      var isFirst := builder.ProcessArg(argv[i]);
      if isFirst {
        first := i;
      }
    }
    BuilderParses(argv);
    c := builder.Build();
  }

  // ---- Printing ----

  function Args(options: seq<Option>): (args: seq<string>)
    ensures |args| == |options| && forall i | 0 <= i < |options| :: args[i] == ArgOf(options[i])
  {
    seq(|options|, i requires 0 <= i < |options| => ArgOf(options[i]))
  }

  /** The positional arguments, behind a "--" where the first would be taken for an option. */
  function Tail(positionalArgs: seq<string>): seq<string> {
    if positionalArgs != [] && StartsWithDashes(positionalArgs[0]) then ["--"] + positionalArgs else positionalArgs
  }

  function Print(c: Components): seq<string> {
    if !c.hasArgv0 then [] else [c.argv0] + Args(c.options) + Tail(c.positionalArgs)
  }

  method PushOptions(start: seq<string>, options: seq<Option>) returns (argv: seq<string>)
    ensures argv == start + Args(options)
  {
    argv := start;
    for i := 0 to |options|
      invariant |argv| == |start| + i && argv[..|start|] == start
      invariant forall j | 0 <= j < i :: argv[|start| + j] == ArgOf(options[j])
    {
      var o := options[i];
      if o.value == "" {
        argv := argv + ["--" + o.name];
      } else {
        argv := argv + ["--" + o.name + "=" + o.value];
      }
    }
  }

  method CommandLineToArgv(c: Components) returns (argv: seq<string>)
    ensures argv == Print(c)
  {
    if !c.hasArgv0 {
      return [];
    }
    argv := PushOptions([c.argv0], c.options);
    if c.positionalArgs != [] {
      if StartsWithDashes(c.positionalArgs[0]) {
        argv := argv + ["--"];
      }
      argv := argv + c.positionalArgs;
    }
  }

  // ---- Printing and parsing are inverse ----

  predicate Printable(c: Components) { forall i | 0 <= i < |c.options| :: IsName(c.options[i].name) }

  /** Everything parsing produces can be printed. */
  lemma ParseIsPrintable(argv: seq<string>)
    ensures WellFormed(Parse(argv)) && Printable(Parse(argv))
  {
    if argv != [] {
      var options := Parse(argv).options;
      var args := argv[1..];
      forall i | 0 <= i < |options| ensures IsName(options[i].name) {
        NameOfOption(args[i]);
      }
    }
  }

  lemma {:induction false} LeadingOptionsAre(args: seq<string>, k: nat)
    requires k <= |args| && forall i | 0 <= i < k :: IsOption(args[i])
    requires k < |args| ==> !IsOption(args[k])
    ensures LeadingOptions(args) == k
  {}

  lemma TailParses(positionalArgs: seq<string>)
    ensures Positional(Tail(positionalArgs)) == positionalArgs
    ensures Tail(positionalArgs) != [] ==> !IsOption(Tail(positionalArgs)[0])
  {}

  lemma ParsePrint(c: Components)
    requires WellFormed(c) && Printable(c)
    ensures Parse(Print(c)) == c
  {
    if c.hasArgv0 {
      var opts, tail := Args(c.options), Tail(c.positionalArgs);
      var argv := Print(c);
      var args, k := opts + tail, |opts|;
      assert argv[0] == c.argv0 && argv[1..] == args;
      assert args[..k] == opts && args[k..] == tail;
      forall i | 0 <= i < k ensures IsOption(args[i]) && OptionOf(opts[i]) == c.options[i] {
        OptionOfArg(c.options[i]);
      }
      TailParses(c.positionalArgs);
      LeadingOptionsAre(args, k);
      assert Options(opts) == c.options;
    }
  }

  /** Printing a line and parsing it gives the line back exactly when every option name is one that
      parsing could have produced. */
  lemma ParsePrintIff(c: Components)
    requires WellFormed(c)
    ensures Parse(Print(c)) == c <==> Printable(c)
  {
    ParseIsPrintable(Print(c));
    if Printable(c) { ParsePrint(c); }
  }

  /** For every `argv`: parsing, printing and parsing again changes nothing. */
  lemma ParsePrintParse(argv: seq<string>)
    ensures Parse(Print(Parse(argv))) == Parse(argv)
  {
    ParseIsPrintable(argv);
    ParsePrint(Parse(argv));
  }

  /** A name with an '=' inside is cut at it. */
  lemma EqualsInNameIsCut()
    ensures Parse(Print(Components(true, "p", [Option("a=b", "c")], []))).options == [Option("a", "b=c")]
  {
    var arg := "--a=b=c";
    assert arg == ArgOf(Option("a=b", "c"));
    FindAt(arg, '=', 3, 3);
    assert arg[2..3] == "a" && arg[4..] == "b=c";
    var line := Components(true, "p", [Option("a=b", "c")], []);
    assert Args(line.options) == [arg];
    assert Print(line) == ["p", arg];
    assert ["p", arg][1..] == [arg];
    LeadingOptionsAre([arg], 1);
    assert [arg][..1] == [arg];
  }

  // ---- What may be read off the text ----

  /** The argument is two dashes and the name, and then an equals sign and the value; or the name only, for no value. */
  predicate Spells(arg: string, o: Option) {
    arg == "--" + o.name + "=" + o.value || (o.value == "" && arg == "--" + o.name)
  }

  lemma SpellsItself(arg: string)
    requires IsOption(arg)
    ensures Spells(arg, OptionOf(arg)) && IsName(OptionOf(arg).name)
  {
    var equals := Find(arg, '=', 3);
    assert arg == "--" + arg[2..];
    assert equals < |arg| ==> arg[2..] == arg[2..equals] + "=" + arg[equals + 1..];
  }

  lemma SpellsOne(arg: string, o: Option)
    requires Spells(arg, o) && IsName(o.name)
    ensures IsOption(arg) && OptionOf(arg) == o
  {
    if arg == ArgOf(o) {
      OptionOfArg(o);
    } else {
      var end := 2 + |o.name|;
      assert arg == "--" + o.name + "=" && arg[3..end] == o.name[1..];
      FindAt(arg, '=', 3, end);
      assert arg[2..end] == o.name && arg[end + 1..] == "";
    }
  }

  /** What follows the options: the positional arguments, the first of which does not begin with two dashes, or two
      dashes alone and then any positional arguments. */
  predicate EndsWith(rest: seq<string>, positionalArgs: seq<string>) {
    || rest == ["--"] + positionalArgs
    || (rest == positionalArgs && (rest == [] || !("--" <= rest[0])))
  }

  /** `argv` reads as the program name, options, and what follows them. */
  predicate Reads(argv: seq<string>, c: Components) {
    if argv == [] then c == NO_LINE
    else
      && c.hasArgv0 && argv[0] == c.argv0 && |c.options| < |argv|
      && (forall i | 0 <= i < |c.options| :: IsName(c.options[i].name) && Spells(argv[1 + i], c.options[i]))
      && EndsWith(argv[1 + |c.options|..], c.positionalArgs)
  }

  lemma DashesIff(arg: string)
    ensures StartsWithDashes(arg) <==> "--" <= arg
  {}

  lemma ReadsRest(rest: seq<string>, positionalArgs: seq<string>)
    ensures EndsWith(rest, positionalArgs) <==>
              Positional(rest) == positionalArgs && (rest != [] ==> !IsOption(rest[0]))
  {
    if rest != [] { DashesIff(rest[0]); }
    if EndsWith(rest, positionalArgs) && rest != [] && rest[0] == "--" { assert rest == ["--"] + positionalArgs; }
    if rest != [] && rest[0] == "--" { assert rest == ["--"] + rest[1..]; }
  }

  lemma ParseReads(argv: seq<string>)
    ensures Reads(argv, Parse(argv))
  {
    if argv != [] {
      var args, c := argv[1..], Parse(argv);
      var k := LeadingOptions(args);
      forall i | 0 <= i < k ensures IsName(c.options[i].name) && Spells(argv[1 + i], c.options[i]) {
        SpellsItself(args[i]);
      }
      assert argv[1 + k..] == args[k..];
      ReadsRest(args[k..], c.positionalArgs);
    }
  }

  lemma ReadsOnlyParse(argv: seq<string>, c: Components)
    requires Reads(argv, c)
    ensures c == Parse(argv)
  {
    if argv != [] {
      var args, k := argv[1..], |c.options|;
      forall i | 0 <= i < k ensures IsOption(args[i]) && OptionOf(args[i]) == c.options[i] {
        SpellsOne(args[i], c.options[i]);
      }
      assert argv[1 + k..] == args[k..];
      ReadsRest(args[k..], c.positionalArgs);
      LeadingOptionsAre(args, k);
      assert Options(args[..k]) == c.options;
    }
  }

  /** There is one way to read an `argv`, and it is the parse. */
  lemma ParseIff(argv: seq<string>, c: Components)
    ensures c == Parse(argv) <==> Reads(argv, c)
  {
    ParseReads(argv);
    if Reads(argv, c) { ReadsOnlyParse(argv, c); }
  }

  /** Characters in all, with one for the NUL behind each argument. */
  function Size(argv: seq<string>): nat {
    if argv == [] then 0 else |argv[0]| + 1 + Size(argv[1..])
  }

  lemma {:induction false} SizeConcat(a: seq<string>, b: seq<string>)
    ensures Size(a + b) == Size(a) + Size(b)
  {
    if a == [] {
      assert a + b == b;
    } else {
      SizeConcat(a[1..], b);
      assert (a + b)[1..] == a[1..] + b;
    }
  }

  lemma {:induction false} OptionsShortest(args: seq<string>, options: seq<Option>)
    requires |args| == |options| && forall i | 0 <= i < |args| :: Spells(args[i], options[i])
    ensures Size(Args(options)) <= Size(args)
    ensures Size(Args(options)) == Size(args) ==> Args(options) == args
  {
    if args == [] {
    } else {
      OptionsShortest(args[1..], options[1..]);
      assert Args(options)[1..] == Args(options[1..]) && args == [args[0]] + args[1..];
      assert |ArgOf(options[0])| <= |args[0]| && (|ArgOf(options[0])| == |args[0]| ==> ArgOf(options[0]) == args[0]);
    }
  }

  lemma {:induction false} TailShortest(rest: seq<string>, positionalArgs: seq<string>)
    requires EndsWith(rest, positionalArgs)
    ensures Size(Tail(positionalArgs)) <= Size(rest)
    ensures Size(Tail(positionalArgs)) == Size(rest) ==> Tail(positionalArgs) == rest
  {
    if positionalArgs != [] { DashesIff(positionalArgs[0]); }
    SizeConcat(["--"], positionalArgs);
  }

  /** A list with a shorter part in place of another is shorter. */
  lemma {:induction false} ShorterPart(a: seq<string>, b: seq<string>, x: seq<string>, y: seq<string>)
    requires Size(a) <= Size(x) && (Size(a) == Size(x) ==> a == x)
    requires Size(b) <= Size(y) && (Size(b) == Size(y) ==> b == y)
    ensures Size(a + b) <= Size(x + y) && (Size(a + b) == Size(x + y) ==> a + b == x + y)
  {
    SizeConcat(a, b);
    SizeConcat(x, y);
  }

  lemma SplitArgv(argv: seq<string>, k: nat)
    requires k < |argv|
    ensures argv == [argv[0]] + argv[1..1 + k] + argv[1 + k..]
  {}

  /** Of all that parses to a line, what is printed for it is shortest, and nothing else is as short. */
  lemma {:induction false} PrintIsShortest(argv: seq<string>, c: Components)
    requires Parse(argv) == c
    ensures Size(Print(c)) <= Size(argv)
    ensures Size(Print(c)) == Size(argv) ==> argv == Print(c)
  {
    ParseReads(argv);
    if argv != [] {
      var k := |c.options|;
      var args, rest := argv[1..1 + k], argv[1 + k..];
      SplitArgv(argv, k);
      OptionsShortest(args, c.options);
      TailShortest(rest, c.positionalArgs);
      ShorterPart([c.argv0], Args(c.options), [c.argv0], args);
      ShorterPart([c.argv0] + Args(c.options), Tail(c.positionalArgs), [c.argv0] + args, rest);
    }
  }

  // ---- Looking options up ----

  /** `at` is the last occurrence of `name`. */
  predicate IsLast(options: seq<Option>, name: string, at: nat) {
    at < |options| && options[at].name == name && forall i | at < i < |options| :: options[i].name != name
  }

  predicate Absent(options: seq<Option>, name: string) {
    forall i | 0 <= i < |options| :: options[i].name != name
  }

  ghost predicate IsIndex(options: seq<Option>, index: map<string, nat>) {
    forall name :: if name in index then IsLast(options, name, index[name]) else Absent(options, name)
  }

  /** The index is determined by the options, so equality of lines need not compare it. */
  lemma IndexDetermined(options: seq<Option>, a: map<string, nat>, b: map<string, nat>)
    requires IsIndex(options, a) && IsIndex(options, b)
    ensures a == b
  {}

  method IndexOptions(options: seq<Option>) returns (index: map<string, nat>)
    ensures IsIndex(options, index)
  {
    index := map[];
    for i := 0 to |options|
      invariant IsIndex(options[..i], index)
    {
      var name := options[i].name;
      index := index[name := i];
      assert options[..i + 1] == options[..i] + [options[i]];
    }
    assert options[..|options|] == options;
  }

  /** A `string_view`: the characters from its start up to the NUL that ends the memory it lies in, and how
      many of them it covers. */
  datatype View = View(chars: string, length: nat)

  predicate IsView(v: View) { v.length <= |v.chars| }

  /** What the view stands for. */
  function Name(v: View): string
    requires IsView(v)
  {
    v.chars[..v.length]
  }

  /** What `data()`, taken as a C string, stands for. */
  function Key(v: View): string { v.chars[..Find(v.chars, '\0', 0)] }

  method HasOption(options: seq<Option>, index: map<string, nat>, name: View) returns (r: Wrappers.Option<nat>)
    requires IsIndex(options, index) && IsView(name)
    ensures if r.Some? then IsLast(options, Key(name), r.value) else Absent(options, Key(name))
  {
    var key := Key(name);
    if key !in index {
      return Wrappers.None;
    }
    r := Wrappers.Some(index[key]);
  }

  /** The values given for `name`, in order. */
  function Values(options: seq<Option>, name: string): seq<string> {
    if options == [] then []
    else
      var n := |options| - 1;
      Values(options[..n], name) + if options[n].name == name then [options[n].value] else []
  }

  function LastValue(options: seq<Option>, name: string): Wrappers.Option<string> {
    var values := Values(options, name);
    if values == [] then Wrappers.None else Wrappers.Some(values[|values| - 1])
  }

  method GetOptionValues(options: seq<Option>, name: View) returns (values: seq<string>)
    requires IsView(name)
    ensures values == Values(options, Name(name))
  {
    values := [];
    for i := 0 to |options|
      invariant values == Values(options[..i], Name(name))
    {
      assert options[..i + 1][..i] == options[..i];
      if options[i].name == Name(name) {
        values := values + [options[i].value];
      }
    }
    assert options[..|options|] == options;
  }

  /** The value found through the index is the last of all values given. */
  lemma {:induction false} LastOfValues(options: seq<Option>, name: string, at: nat)
    requires IsLast(options, name, at)
    ensures LastValue(options, name) == Wrappers.Some(options[at].value)
  {
    var n := |options| - 1;
    if at == n {
    } else {
      LastOfValues(options[..n], name, at);
    }
  }

  function Occurrences(options: seq<Option>, name: string): nat {
    if options == [] then 0
    else
      var n := |options| - 1;
      Occurrences(options[..n], name) + if options[n].name == name then 1 else 0
  }

  /** There are as many values as occurrences of the name. */
  lemma {:induction false} ValuesCount(options: seq<Option>, name: string)
    ensures |Values(options, name)| == Occurrences(options, name)
  {
    if options == [] {
    } else {
      ValuesCount(options[..|options| - 1], name);
    }
  }

  /** The values stand in the order of the occurrences. */
  lemma {:induction false} ValueAt(options: seq<Option>, name: string, i: nat)
    requires i < |options| && options[i].name == name
    ensures Occurrences(options[..i], name) < |Values(options, name)|
    ensures Values(options, name)[Occurrences(options[..i], name)] == options[i].value
    decreases |options|
  {
    var n := |options| - 1;
    if i == n {
      ValuesCount(options[..n], name);
    } else {
      ValueAt(options[..n], name, i);
      assert options[..n][..i] == options[..i];
    }
  }

  lemma {:induction false} NoValues(options: seq<Option>, name: string)
    ensures Absent(options, name) <==> Values(options, name) == []
  {
    if options == [] {
    } else {
      var n := |options| - 1;
      NoValues(options[..n], name);
      assert forall i | 0 <= i < n :: options[..n][i] == options[i];
    }
  }

  method GetOptionValue(options: seq<Option>, index: map<string, nat>, name: View) returns (r: Wrappers.Option<string>)
    requires IsIndex(options, index) && IsView(name)
    ensures r == LastValue(options, Key(name))
  {
    var at := HasOption(options, index, name);
    NoValues(options, Key(name));
    if at.None? {
      return Wrappers.None;
    }
    LastOfValues(options, Key(name), at.value);
    r := Wrappers.Some(options[at.value].value);
  }

  method GetOptionValueWithDefault(options: seq<Option>, index: map<string, nat>, name: View, default: string)
    returns (value: string)
    requires IsIndex(options, index) && IsView(name)
    ensures var last := LastValue(options, Key(name));
            value == if last.None? then default else last.value
  {
    var at := HasOption(options, index, name);
    NoValues(options, Key(name));
    if at.None? {
      return default;
    }
    LastOfValues(options, Key(name), at.value);
    value := options[at.value].value;
  }

  lemma KeyIsNameIff(v: View)
    requires IsView(v)
    ensures Key(v) == Name(v) <==> '\0' !in Name(v) && (v.length == |v.chars| || v.chars[v.length] == '\0')
  {
    var end := Find(v.chars, '\0', 0);
    if '\0' !in Name(v) && (v.length == |v.chars| || v.chars[v.length] == '\0') {
      FindAt(v.chars, '\0', 0, v.length);
    }
    if Key(v) == Name(v) {
      assert |Key(v)| == end == v.length;
    }
  }

  /** Looking a name up gives the last of all its values, whatever the options are, if and only if the view
      holds no NUL and is directly followed by one. */
  lemma LookupAgreesIff(v: View)
    requires IsView(v)
    ensures (forall options: seq<Option> :: LastValue(options, Key(v)) == LastValue(options, Name(v))) <==>
            '\0' !in Name(v) && (v.length == |v.chars| || v.chars[v.length] == '\0')
  {
    KeyIsNameIff(v);
    var one := Option(Key(v), "");
    SingleOption(one, Key(v));
    SingleOption(one, Name(v));
    if Key(v) != Name(v) {
      assert LastValue([one], Key(v)) != LastValue([one], Name(v));
    }
  }

  lemma SingleOption(o: Option, name: string)
    ensures LastValue([o], name) == if o.name == name then Wrappers.Some(o.value) else Wrappers.None
  {
    assert [o][..0] == [];
    assert Values([o], name) == Values([], name) + if o.name == name then [o.value] else [];
  }

  /** The view of the first three characters of "foobar": its values are those of "foo", and the value
      looked up is that of "foobar". */
  lemma PartialViewMisses(value: string)
    ensures Name(View("foobar", 3)) == "foo" && Key(View("foobar", 3)) == "foobar"
    ensures LastValue([Option("foo", value)], Name(View("foobar", 3))) == Wrappers.Some(value)
    ensures LastValue([Option("foo", value)], Key(View("foobar", 3))) == Wrappers.None
  {
    FindAt("foobar", '\0', 0, 6);
    assert "foobar"[..6] == "foobar" && "foobar"[..3] == "foo";
    SingleOption(Option("foo", value), "foo");
    SingleOption(Option("foo", value), "foobar");
    assert |"foo"| != |"foobar"|;
  }
}
