/** Option parsing for one subcommand's flag set.

    The real tokeniser is the Go flag package. This module gives a minimal
    concrete parser that accepts exactly one form, a sequence of
    `-name value` pairs whose names the flag set declares, and leaves every
    option that is not mentioned at its declared default. Its meaning is
    stated against an independent reading of the tokens: `Render` writes
    settings out as tokens, `Pairs` reads tokens back as settings, and
    `Effective` gives the value each option ends up with.
 */
module Options {
  import opened Flags

  /** One `-name value` pair on the command line. */
  datatype Setting = Setting(option: string, value: string)

  /** What parsing a subcommand's tail yields: the value of every declared
      option, or an error message. */
  datatype ParseResult = ParseOk(values: map<string, string>) | ParseError(message: string)

  /** The token that names `option` on the command line. */
  function OptionToken(option: string): string {
    "-" + option
  }

  /** The option name a token spells, with its leading dash removed; a token
      without a dash is returned as it is. */
  function Unflag(token: string): string {
    if |token| > 0 && token[0] == '-' then token[1..] else token
  }

  /** The command-line tokens for `settings`: `-name value` for each, in order. */
  function Render(settings: seq<Setting>): (tokens: seq<string>)
    ensures |tokens| == 2 * |settings|
  {
    if |settings| == 0 then []
    else [OptionToken(settings[0].option), settings[0].value] + Render(settings[1..])
  }

  /** Reads tokens two at a time as settings; a trailing odd token is dropped. */
  function Pairs(tokens: seq<string>): seq<Setting>
    decreases |tokens|
  {
    if |tokens| < 2 then []
    else [Setting(Unflag(tokens[0]), tokens[1])] + Pairs(tokens[2..])
  }

  /** Every setting names an option the flag set declares. */
  predicate AllDeclared(f: Flag, settings: seq<Setting>) {
    forall i :: 0 <= i < |settings| ==> settings[i].option in f.defaults
  }

  /** The tokens are exactly `-name value` pairs over declared names. */
  predicate Accepted(f: Flag, tokens: seq<string>) {
    tokens == Render(Pairs(tokens)) && AllDeclared(f, Pairs(tokens))
  }

  /** The value `option` holds after `settings` are applied in order over
      `current`: the value of the last setting that names it, or `current`
      if none does. */
  function LastOr(settings: seq<Setting>, option: string, current: string): string
    decreases |settings|
  {
    if |settings| == 0 then current
    else if settings[|settings| - 1].option == option then settings[|settings| - 1].value
    else LastOr(settings[..|settings| - 1], option, current)
  }

  /** The option values after `settings` are applied over `values`. */
  function Effective(values: map<string, string>, settings: seq<Setting>): map<string, string> {
    map o | o in values :: LastOr(settings, o, values[o])
  }

  /** Applying one setting first and then the rest is the same as letting
      the rest override it. */
  lemma {:induction false} LastOrCons(x: Setting, settings: seq<Setting>, option: string, current: string)
    ensures LastOr([x] + settings, option, current)
         == LastOr(settings, option, if x.option == option then x.value else current)
    decreases |settings|
  {
    if |settings| > 0 {
      var s := [x] + settings;
      assert s[..|s| - 1] == [x] + settings[..|settings| - 1];
      LastOrCons(x, settings[..|settings| - 1], option, current);
    }
  }

  lemma EffectiveCons(values: map<string, string>, name: string, value: string, settings: seq<Setting>)
    requires name in values
    ensures Effective(values[name := value], settings) == Effective(values, [Setting(name, value)] + settings)
  {
    forall o | o in values
      ensures Effective(values[name := value], settings)[o] == Effective(values, [Setting(name, value)] + settings)[o]
    {
      LastOrCons(Setting(name, value), settings, o, values[o]);
    }
  }

  /** Parses `tokens` over the current option values: each `-name value`
      pair overwrites `name`; a token without a dash, an undeclared name or
      a name with no value after it is an error. */
  function ParseFrom(f: Flag, values: map<string, string>, tokens: seq<string>): (r: ParseResult)
    requires values.Keys == f.defaults.Keys
    ensures r.ParseOk? <==> Accepted(f, tokens)
    ensures r.ParseOk? ==> r.values == Effective(values, Pairs(tokens))
    decreases |tokens|
  {
    if |tokens| == 0 then ParseOk(values)
    else
      var token := tokens[0];
      if |token| == 0 || token[0] != '-' then
        assert Render(Pairs(tokens)) != tokens by {
          if |tokens| >= 2 {
            assert Render(Pairs(tokens))[0] == OptionToken(Unflag(token));
          }
        }
        ParseError("non-flag argument: " + token)
      else
        var name := token[1..];
        if name !in f.defaults then
          assert |tokens| >= 2 ==> Pairs(tokens)[0].option == name;
          ParseError("flag provided but not defined: -" + name)
        else if |tokens| < 2 then
          ParseError("flag needs an argument: -" + name)
        else
          var rest := tokens[2..];
          assert token == OptionToken(name);
          assert Pairs(tokens) == [Setting(name, tokens[1])] + Pairs(rest);
          assert Render(Pairs(tokens)) == [token, tokens[1]] + Render(Pairs(rest));
          assert tokens == [token, tokens[1]] + rest;
          assert AllDeclared(f, Pairs(tokens)) <==> AllDeclared(f, Pairs(rest)) by {
            var p := Pairs(tokens);
            assert forall i :: 1 <= i < |p| ==> p[i] == Pairs(rest)[i - 1];
          }
          EffectiveCons(values, name, tokens[1], Pairs(rest));
          ParseFrom(f, values[name := tokens[1]], rest)
  }

  /** Parses a subcommand's tail starting from the declared defaults. On
      success every declared option has a value: the last one given for it,
      or its default. */
  function ParseFlags(f: Flag, tokens: seq<string>): (r: ParseResult)
    ensures r.ParseOk? <==> Accepted(f, tokens)
    ensures r.ParseOk? ==> r.values.Keys == f.Options()
    ensures r.ParseOk? ==> r.values == Effective(f.defaults, Pairs(tokens))
  {
    ParseFrom(f, f.defaults, tokens)
  }

  /** Reading rendered settings back gives the same settings. */
  lemma {:induction false} PairsRender(settings: seq<Setting>)
    ensures Pairs(Render(settings)) == settings
    decreases |settings|
  {
    if |settings| > 0 {
      var t := Render(settings);
      assert t[2..] == Render(settings[1..]);
      assert Unflag(OptionToken(settings[0].option)) == settings[0].option;
      PairsRender(settings[1..]);
    }
  }

  /** `-name value` pairs over declared names parse to those values laid
      over the defaults. */
  lemma RenderedParses(f: Flag, settings: seq<Setting>)
    requires AllDeclared(f, settings)
    ensures ParseFlags(f, Render(settings)) == ParseOk(Effective(f.defaults, settings))
  {
    PairsRender(settings);
  }

  /** A setting that names an option the flag set does not declare makes
      the whole parse fail. */
  lemma UndeclaredRejected(f: Flag, settings: seq<Setting>, i: nat)
    requires i < |settings| && settings[i].option !in f.defaults
    ensures ParseFlags(f, Render(settings)).ParseError?
  {
    PairsRender(settings);
  }

  /** An option no setting names keeps its current value. */
  lemma {:induction false} UnsetKeeps(settings: seq<Setting>, option: string, current: string)
    requires forall i :: 0 <= i < |settings| ==> settings[i].option != option
    ensures LastOr(settings, option, current) == current
    decreases |settings|
  {
    if |settings| > 0 {
      UnsetKeeps(settings[..|settings| - 1], option, current);
    }
  }

  /** The last setting that names an option decides its value. */
  lemma {:induction false} LastSettingWins(settings: seq<Setting>, j: nat, option: string, current: string)
    requires j < |settings| && settings[j].option == option
    requires forall k :: j < k < |settings| ==> settings[k].option != option
    ensures LastOr(settings, option, current) == settings[j].value
    decreases |settings|
  {
    if j < |settings| - 1 {
      LastSettingWins(settings[..|settings| - 1], j, option, current);
    }
  }

  /** After a successful parse an option that the tokens never name holds
      its declared default. */
  lemma UnsetOptionIsDefault(f: Flag, tokens: seq<string>, option: string)
    requires ParseFlags(f, tokens).ParseOk? && option in f.defaults
    requires forall i :: 0 <= i < |Pairs(tokens)| ==> Pairs(tokens)[i].option != option
    ensures ParseFlags(f, tokens).values[option] == f.defaults[option]
  {
    UnsetKeeps(Pairs(tokens), option, f.defaults[option]);
  }

  /** After a successful parse of rendered settings an option holds the
      value of the last setting that names it. */
  lemma SuppliedOptionIsKept(f: Flag, settings: seq<Setting>, j: nat)
    requires AllDeclared(f, settings) && j < |settings|
    requires forall k :: j < k < |settings| ==> settings[k].option != settings[j].option
    ensures ParseFlags(f, Render(settings)).ParseOk?
    ensures ParseFlags(f, Render(settings)).values[settings[j].option] == settings[j].value
  {
    RenderedParses(f, settings);
    LastSettingWins(settings, j, settings[j].option, f.defaults[settings[j].option]);
  }
}
