/** Subcommand resolution at process start.

    The process argument list is `program subcommand option...`. Resolution
    either selects a registered subcommand and the values of its options,
    or ends the process through the usage listing with exit status 2. The
    usage listing never returns, which is what keeps the lookup of the
    subcommand token from running on a list with fewer than two tokens;
    here that terminal step is the result value `Usage`.

    The option parser is a parameter, `parse`, because the real one is the
    Go flag package; `Options.ParseFlags` is one concrete choice for it.
 */
module Dispatch {
  import opened Flags
  import opened Options

  /** Exit status of every usage failure. */
  const UsageExitCode: int := 2

  /** How the start-up step ends: the process exits through the usage
      listing, or one subcommand is selected together with the tail handed
      to its parser and the option values that parser produced. */
  datatype Outcome =
    | Usage(exitCode: int)
    | Selected(name: string, tail: seq<string>, values: map<string, string>)

  /** The terminal step of the usage listing: whatever the table holds, the
      process exits with status 2. */
  function ShowUsage(subcommands: map<string, Flag>): Outcome {
    Usage(UsageExitCode)
  }

  lemma ShowUsageExitsTwo(subcommands: map<string, Flag>)
    ensures ShowUsage(subcommands).Usage?
    ensures ShowUsage(subcommands).exitCode == UsageExitCode
  {
  }

  /** The descriptors the usage listing prints, one per iteration over the
      table. The table is a map, so the visiting order is chosen freely;
      `order` records the key visited at each step and `shown` the
      descriptor printed there. Every entry is printed exactly once. */
  method UsageListing(subcommands: map<string, Flag>) returns (order: seq<string>, shown: seq<Flag>)
    ensures |shown| == |order|
    ensures forall i :: 0 <= i < |order| ==> order[i] in subcommands && shown[i] == subcommands[order[i]]
    ensures forall k :: k in subcommands ==> k in order
    ensures forall i, j :: 0 <= i < j < |order| ==> order[i] != order[j]
  {
    var remaining := subcommands.Keys;
    order, shown := [], [];
    while remaining != {}
      invariant remaining <= subcommands.Keys
      invariant |shown| == |order|
      invariant forall i :: 0 <= i < |order| ==> order[i] in subcommands && order[i] !in remaining
      invariant forall i :: 0 <= i < |order| ==> shown[i] == subcommands[order[i]]
      invariant forall k :: k in subcommands ==> k in order || k in remaining
      invariant forall i, j :: 0 <= i < j < |order| ==> order[i] != order[j]
      decreases remaining
    {
      var k :| k in remaining;
      order, shown := order + [k], shown + [subcommands[k]];
      remaining := remaining - {k};
    }
  }

  /** Resolves the process arguments against the registry. With fewer than
      two tokens, or an unregistered subcommand token, or a tail the
      selected subcommand's parser rejects, the result is the usage exit.
      Otherwise the subcommand named by `args[1]` is selected and only
      `args[2..]` reaches its parser. */
  function Resolve(args: seq<string>, parse: (Flag, seq<string>) -> ParseResult): (r: Outcome)
    ensures r.Usage? ==> r.exitCode == UsageExitCode
    ensures r.Usage? <==>
      || |args| < 2
      || args[1] !in Registry()
      || parse(Registry()[args[1]], args[2..]).ParseError?
    ensures r.Selected? ==>
      && |args| >= 2
      && r.name == args[1]
      && r.name in Names
      && Registry()[r.name].name == r.name
      && r.tail == args[2..]
      && parse(Registry()[r.name], r.tail) == ParseOk(r.values)
  {
    var subcommands := Registry();
    if |args| < 2 then ShowUsage(subcommands)
    else if args[1] !in subcommands then ShowUsage(subcommands)
    else
      var cmd := subcommands[args[1]];
      match parse(cmd, args[2..])
      case ParseError(_) => ShowUsage(subcommands)
      case ParseOk(values) => Selected(args[1], args[2..], values)
  }

  /** With fewer than two tokens the result is the usage exit, whatever the
      parser would do. */
  lemma ShortArgsExit(args: seq<string>, parse: (Flag, seq<string>) -> ParseResult)
    requires |args| < 2
    ensures Resolve(args, parse) == Usage(UsageExitCode)
  {
  }

  /** An unregistered subcommand token ends in the usage exit and selects
      nothing. */
  lemma UnknownSubcommandExit(args: seq<string>, parse: (Flag, seq<string>) -> ParseResult)
    requires |args| >= 2 && args[1] !in Names
    ensures Resolve(args, parse) == Usage(UsageExitCode)
  {
  }

  /** The program name is never read, and the parser is consulted only on
      the selected descriptor and the tail after the subcommand token: two
      parsers that agree there resolve identically. */
  lemma ParserSeesOnlyTail(args: seq<string>, program: string,
                           parse: (Flag, seq<string>) -> ParseResult,
                           parse': (Flag, seq<string>) -> ParseResult)
    requires |args| >= 1
    requires |args| >= 2 && args[1] in Registry() ==>
      parse(Registry()[args[1]], args[2..]) == parse'(Registry()[args[1]], args[2..])
    ensures Resolve(args, parse) == Resolve([program] + args[1..], parse')
  {
    var args' := [program] + args[1..];
    assert |args'| == |args|;
    if |args| >= 2 {
      assert args'[1] == args[1];
      assert args'[2..] == args[2..];
    }
  }

  /** With the concrete parser: a registered subcommand followed by
      `-name value` pairs over its declared options is selected, with every
      mentioned option at its last given value and every other one at its
      default; naming an undeclared option ends in the usage exit. */
  lemma ResolveRendered(program: string, name: string, settings: seq<Setting>)
    requires name in Names
    ensures AllDeclared(Registry()[name], settings) ==>
      Resolve([program, name] + Render(settings), ParseFlags)
        == Selected(name, Render(settings), Effective(Registry()[name].defaults, settings))
    ensures !AllDeclared(Registry()[name], settings) ==>
      Resolve([program, name] + Render(settings), ParseFlags) == Usage(UsageExitCode)
  {
    var args := [program, name] + Render(settings);
    assert args[1] == name;
    assert args[2..] == Render(settings);
    if AllDeclared(Registry()[name], settings) {
      RenderedParses(Registry()[name], settings);
    } else {
      var i :| 0 <= i < |settings| && settings[i].option !in Registry()[name].defaults;
      UndeclaredRejected(Registry()[name], settings, i);
    }
  }

  /** `-des d` is the rendering of the single setting `des = d`. */
  lemma RenderDes(d: string)
    ensures Render([Setting(Des, d)]) == ["-des", d]
  {
    assert OptionToken(Des) == "-des";
    assert Render([Setting(Des, d)][1..]) == [];
  }

  /** Setting only `des` over the defaults of a subcommand that declares
      `des` and `mode` leaves `mode` at `-s`. */
  lemma DesOverListDefaults(f: Flag, d: string)
    requires f.defaults == map[Des := DefaultValue, Mode := DefaultMode]
    ensures AllDeclared(f, [Setting(Des, d)])
    ensures Effective(f.defaults, [Setting(Des, d)]) == map[Des := d, Mode := DefaultMode]
  {
    var e := Effective(f.defaults, [Setting(Des, d)]);
    assert e.Keys == {Des, Mode};
    assert e[Des] == d;
    assert e[Mode] == LastOr([], Mode, DefaultMode);
  }

  /** `prog mkdir -des d` selects `mkdir` with `des` set to `d`, for
      instance `/a/b`. */
  lemma MkdirExample(d: string)
    ensures Resolve(["prog", "mkdir", "-des", d], ParseFlags)
         == Selected("mkdir", ["-des", d], map[Des := d])
  {
    var settings := [Setting(Des, d)];
    RenderDes(d);
    ResolveRendered("prog", "mkdir", settings);
    assert Effective(Registry()["mkdir"].defaults, settings) == map[Des := d];
  }

  /** `prog list -des d` and `prog stat -des d` select the subcommand with
      `des` set to `d` and `mode` left at its declared default `-s`. */
  lemma ModeDefaultExample(name: string, d: string)
    requires name == "list" || name == "stat"
    ensures Resolve(["prog", name, "-des", d], ParseFlags)
         == Selected(name, ["-des", d], map[Des := d, Mode := DefaultMode])
  {
    var settings := [Setting(Des, d)];
    RenderDes(d);
    assert Registry()[name].defaults == map[Des := DefaultValue, Mode := DefaultMode];
    DesOverListDefaults(Registry()[name], d);
    ResolveRendered("prog", name, settings);
  }

  /** `prog bogus` ends in the usage exit. */
  lemma BogusExample()
    ensures Resolve(["prog", "bogus"], ParseFlags) == Usage(UsageExitCode)
  {
    UnknownSubcommandExit(["prog", "bogus"], ParseFlags);
  }
}
