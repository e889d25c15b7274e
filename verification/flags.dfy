/** The subcommand registry of the tinydfs client: one descriptor per
    subcommand, each holding the subcommand's name, its one-line usage text
    and the string options it declares together with their default values.
    The table is built once and never changes afterwards.
 */
module Flags {

  /** Option names shared by all subcommands. */
  const Src: string := "src"
  const Des: string := "des"
  const Mode: string := "mode"

  /** Default of the `mode` option of `list` and `stat`: the literal `-s`,
      dash included. */
  const DefaultMode: string := "-s"
  /** Default of every `src` and `des` option. */
  const DefaultValue: string := ""

  /** A subcommand descriptor: a named flag set plus its usage line.
      `defaults` maps every declared option name to its default value, so
      its key set is exactly the set of options the subcommand accepts. */
  datatype Flag = Flag(name: string, usage: string, defaults: map<string, string>)
  {
    /** The option names this subcommand declares. */
    function Options(): set<string> {
      defaults.Keys
    }
  }

  /** A fresh flag set with no options yet. */
  function NewFlagSet(name: string, usage: string): Flag {
    Flag(name, usage, map[])
  }

  /** Declares one more string option with its default. The flag package
      refuses to declare a name twice in one flag set, and every declaration
      of the table below uses a fresh name. */
  function Define(f: Flag, option: string, default: string): (g: Flag)
    requires option !in f.defaults
    ensures g.name == f.name && g.usage == f.usage
    ensures g.Options() == f.Options() + {option}
    ensures g.defaults[option] == default
    ensures forall o :: o in f.defaults ==> g.defaults[o] == f.defaults[o]
  {
    f.(defaults := f.defaults[option := default])
  }

  function GetCmd(): Flag {
    var f := NewFlagSet("get", "Get the remote file(src) and download to local file(des).");
    var f := Define(f, Src, DefaultValue);
    Define(f, Des, DefaultValue)
  }

  function AddCmd(): Flag {
    var f := NewFlagSet("add", "Put the local file(src) and upload to remote file(des).");
    var f := Define(f, Src, DefaultValue);
    Define(f, Des, DefaultValue)
  }

  function MkdirCmd(): Flag {
    var f := NewFlagSet("mkdir", "Make a directory at target path.");
    Define(f, Des, DefaultValue)
  }

  function RemoveCmd(): Flag {
    var f := NewFlagSet("remove", "Remove the remote file(des).");
    Define(f, Des, DefaultValue)
  }

  function MoveCmd(): Flag {
    var f := NewFlagSet("move", "Move the remote file(src) to another remote file(des).");
    var f := Define(f, Src, DefaultValue);
    Define(f, Des, DefaultValue)
  }

  function ListCmd(): Flag {
    var f := NewFlagSet("list", "List the all files in the remote Directory(des).");
    var f := Define(f, Des, DefaultValue);
    Define(f, Mode, DefaultMode)
  }

  function StatCmd(): Flag {
    var f := NewFlagSet("stat", "Get the specified file's information.");
    var f := Define(f, Des, DefaultValue);
    Define(f, Mode, DefaultMode)
  }

  function RenameCmd(): Flag {
    var f := NewFlagSet("rename", "Rename the specified file to a new name.");
    var f := Define(f, Src, DefaultValue);
    Define(f, Des, DefaultValue)
  }

  /** The eight registered subcommand names. */
  const Names: set<string> := {"get", "add", "mkdir", "remove", "move", "list", "stat", "rename"}

  /** The registry: every descriptor keyed by its own name. */
  function Registry(): (r: map<string, Flag>)
    ensures r.Keys == Names
    ensures forall k :: k in r ==> r[k].name == k
  {
    map[GetCmd().name := GetCmd(),
        AddCmd().name := AddCmd(),
        MkdirCmd().name := MkdirCmd(),
        RemoveCmd().name := RemoveCmd(),
        MoveCmd().name := MoveCmd(),
        ListCmd().name := ListCmd(),
        StatCmd().name := StatCmd(),
        RenameCmd().name := RenameCmd()]
  }

  /** The default every declared option carries: `-s` for `mode`, the
      empty string for everything else. */
  function DeclaredDefault(option: string): string {
    if option == Mode then DefaultMode else DefaultValue
  }

  /** Each registered key looks up the descriptor built for it. */
  lemma RegistryEntries()
    ensures Registry()["get"] == GetCmd()
    ensures Registry()["add"] == AddCmd()
    ensures Registry()["mkdir"] == MkdirCmd()
    ensures Registry()["remove"] == RemoveCmd()
    ensures Registry()["move"] == MoveCmd()
    ensures Registry()["list"] == ListCmd()
    ensures Registry()["stat"] == StatCmd()
    ensures Registry()["rename"] == RenameCmd()
  {
  }

  /** Which options each registered subcommand declares. */
  lemma RegistryOptions()
    ensures Registry()["get"].Options() == {Src, Des}
    ensures Registry()["add"].Options() == {Src, Des}
    ensures Registry()["move"].Options() == {Src, Des}
    ensures Registry()["rename"].Options() == {Src, Des}
    ensures Registry()["mkdir"].Options() == {Des}
    ensures Registry()["remove"].Options() == {Des}
    ensures Registry()["list"].Options() == {Des, Mode}
    ensures Registry()["stat"].Options() == {Des, Mode}
  {
    RegistryEntries();
  }

  /** Every declared option of every registered subcommand has the declared
      default: `src` and `des` default to "", `mode` to "-s". */
  lemma RegistryDefaults()
    ensures forall k, o :: k in Registry() && o in Registry()[k].defaults ==>
      Registry()[k].defaults[o] == DeclaredDefault(o)
  {
    RegistryEntries();
    forall k, o | k in Registry() && o in Registry()[k].defaults
      ensures Registry()[k].defaults[o] == DeclaredDefault(o)
    {
      assert k in Names;
    }
  }

  /** The usage line each registered subcommand shows. */
  lemma RegistryUsage()
    ensures Registry()["get"].usage == "Get the remote file(src) and download to local file(des)."
    ensures Registry()["add"].usage == "Put the local file(src) and upload to remote file(des)."
    ensures Registry()["mkdir"].usage == "Make a directory at target path."
    ensures Registry()["remove"].usage == "Remove the remote file(des)."
    ensures Registry()["move"].usage == "Move the remote file(src) to another remote file(des)."
    ensures Registry()["list"].usage == "List the all files in the remote Directory(des)."
    ensures Registry()["stat"].usage == "Get the specified file's information."
    ensures Registry()["rename"].usage == "Rename the specified file to a new name."
  {
    RegistryEntries();
  }
}
