# tinydfs client: subcommand registry and dispatch

This project models how the tinydfs command-line client picks its subcommand
at start-up (`internal/flags.go`). The model proves properties about it.

A fixed registry maps each of eight subcommand names (`get`, `add`, `mkdir`,
`remove`, `move`, `list`, `stat`, `rename`) to a descriptor. A descriptor holds
the subcommand's name, its usage line, and the string options it declares with
their defaults. Start-up resolution reads the process arguments
`program subcommand option...`. There are three ways it can fail, and each
one shows usage and exits with status 2:

- fewer than two tokens;
- an unregistered subcommand token;
- a tail that the selected subcommand's option parser rejects.

If none of these happens, the named subcommand is selected. Only `args[2..]`
is given to its parser.

Files:

- `flags.dfy`, module `Flags`: the `Flag` descriptor, the option-name and
  default constants, the eight descriptors, and the registry.
- `options.dfy`, module `Options`: a minimal concrete option parser.
  - It accepts only `-name value` pairs whose names the flag set declares.
  - Options that are not mentioned keep their declared defaults.
  - A separate reading of the tokens defines what the parser means. `Render`
    writes settings out as tokens, `Pairs` reads tokens back as settings, and
    `Effective` says that the last value given for an option wins.
- `dispatch.dfy`, module `Dispatch`:
  - `Resolve`, the start-up step. It takes the option parser as a function
    parameter because the real parser is Go's `flag` package.
  - `ShowUsage` as the terminal exit-2 result.
  - The loop of the usage listing.
  - Example resolutions.

`ShowUsage` calls `os.Exit(2)` and never returns. That is what stops the code
from reading `os.Args[1]` on a list with fewer than two tokens, and from
dereferencing a nil descriptor. In the model, `ShowUsage` is a result value,
so the later steps are simply not evaluated. Dafny's bounds check on
`args[1]` in `Resolve` confirms that the index is only read once the list has
at least two tokens.

The `mode` option of `list` and `stat` defaults to the literal `-s`, dash
included (internal/flags.go:18). Its help text describes the values `l` and
`s`. The model follows the code and uses `-s`.

## Model

| member | source | states |
|---|---|---|
| Flags.Define | internal/flags.go:32-33 | Declaring an option keeps the flag set's name and usage, adds exactly that option name with the given default, and leaves earlier options' defaults unchanged |
| Flags.Registry | internal/flags.go:83-92 | The registry holds exactly the keys get, add, mkdir, remove, move, list, stat and rename, and every key equals the name of the descriptor stored under it |
| Flags.RegistryEntries | internal/flags.go:83-92 | Each of the eight keys looks up the descriptor built for that subcommand |
| Flags.RegistryOptions | internal/flags.go:28-80 | get, add, move and rename declare exactly {src, des}; mkdir and remove declare exactly {des}; list and stat declare exactly {des, mode} |
| Flags.RegistryDefaults | internal/flags.go:14-80 | Every declared src and des option defaults to the empty string, and every mode option defaults to the literal "-s" |
| Flags.RegistryUsage | internal/flags.go:28-80 | Each registered descriptor carries the usage line written for it |
| Options.ParseFlags | internal/flags.go:103-106 | A subcommand's tail parses if and only if it is a sequence of `-name value` pairs over declared option names; on success every declared option, and nothing else, has a value, namely the last value given for it or else its default |
| Options.ParseFrom | internal/flags.go:103 | Parsing over any current values succeeds exactly on `-name value` pairs over declared names and yields the current values overridden by the last value given for each option |
| Options.RenderedParses | internal/flags.go:103-106 | Any list of settings over declared options, written out as `-name value` tokens, parses to those settings laid over the declared defaults |
| Options.UndeclaredRejected | internal/flags.go:103-106 | Mentioning any option the subcommand does not declare makes the parse fail |
| Options.UnsetOptionIsDefault | internal/flags.go:32-33 | After a successful parse, an option the tail never mentions holds its declared default |
| Options.SuppliedOptionIsKept | internal/flags.go:103 | After a successful parse, an option holds exactly the value last supplied for it, with no validation (e.g. any mode string passes through) |
| Dispatch.ShowUsageExitsTwo | internal/flags.go:110-118 | Showing usage ends in exit status 2 whatever the registry contents |
| Dispatch.UsageListing | internal/flags.go:112-116 | The usage listing visits every registry entry exactly once, in some order, and prints the descriptor stored under each key it visits |
| Dispatch.Resolve | internal/flags.go:94-106 | The result is usage exactly when there are fewer than two tokens, or the subcommand token is not registered, or the parser rejects the tail; every usage result has exit status 2; a selection names args[1], which is registered and equals its descriptor's name, and carries args[2..] and the values the parser produced for exactly that tail |
| Dispatch.ShortArgsExit | internal/flags.go:94-96 | With fewer than two tokens the result is usage with status 2, whatever the parser does |
| Dispatch.UnknownSubcommandExit | internal/flags.go:98-101 | An unregistered subcommand token yields usage with status 2 and selects nothing |
| Dispatch.ParserSeesOnlyTail | internal/flags.go:103 | The program name is never read, and the parser's behaviour matters only on the selected descriptor and args[2..]: two parsers that agree there give the same result |
| Dispatch.ResolveRendered | internal/flags.go:98-106 | With the concrete parser, a registered subcommand followed by `-name value` pairs over its declared options is selected with the resulting values, and any undeclared option name ends in usage with status 2 |
| Dispatch.MkdirExample | internal/flags.go:42-46 | `prog mkdir -des d` selects mkdir with des = d |
| Dispatch.ModeDefaultExample | internal/flags.go:61-73 | `prog list -des d` and `prog stat -des d` select the subcommand with des = d and mode = "-s" |
| Dispatch.BogusExample | internal/flags.go:98-101 | `prog bogus` yields usage with status 2 |

## Left out

- internal/client_handler.go is not part of this model. It holds gRPC dial and call wrappers around the master service, reads its address from viper configuration, and builds a `sync.Once` singleton. All of that is network I/O, foreign calls and concurrency.
- Options.ParseFlags: this concrete parser is stricter than Go's `flag` package, whose source is not part of this model. It rejects forms the package accepts: `--name`, `-name=value`, a `--` terminator, and positional arguments after the options (the package stops at these and keeps them). `Resolve` itself takes the parser as a parameter and does not depend on this choice.
- Parse errors are folded into one result. Each flag set uses `flag.ExitOnError`, so on a parse error the `flag` package prints its own message and exits with status 2 before the `err != nil` branch runs. The model folds both into the single `Usage(2)` result. The package's exit with status 0 on `-h`/`-help` is not modelled.
- The usage text is not modelled: its format, its printing order, `PrintDefaults` output and help strings are display-only output. `UsageListing` models only which descriptors are printed, and that each is printed once.
- Global variables are not modelled as mutable state. The globals `Cmd` and `Subcommands` become values: the registry is a function, and the selected command is the `Selected` result.
- The `flag` package panics when an option name is defined twice in one flag set. That case is not modelled; `Define` requires a fresh name, and every declaration in the table uses one.
