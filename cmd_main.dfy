/** `RecipeUtil` (cmdlineutils/main.py): the main menu of the command-line shell, which
    keeps the search constraints, the screen geometry, and starts searches. */
module CmdMain {
  import opened Wrappers
  import opened Text
  import opened SearchParams
  import Manager

  class RecipeUtil {
    /** Rows a listing page shows: the terminal height less four. */
    const lines: int
    /** Columns a wrapped line may use: the terminal width less four. */
    var lineLength: int
    var searchParams: Params

    ghost predicate Valid()
      reads this
    {
      WellFormed(searchParams)
    }

    /** `__init__`: the geometry from the terminal size, the default constraints. */
    constructor (nrows: int, ncols: int)
      ensures Valid() && lines == nrows - 4 && lineLength == ncols - 4 && searchParams == Defaults
    {
      lines := nrows - 4;
      lineLength := ncols - 4;
      searchParams := Defaults;
    }

    /** `do_set`: the error it reports, if any; only an accepted assignment changes the
        constraints, and only the one it names. */
    method DoSet(args: string) returns (err: Option<SetError>)
      requires Valid()
      modifies this`searchParams
      ensures Valid()
      ensures err.None? <==> ReadSet(args).Ok?
      ensures err.Some? ==> err.value == ReadSet(args).error && searchParams == old(searchParams)
      ensures err.None? ==> var (param, value) := ReadSet(args).value;
        searchParams == old(searchParams)[param := value]
    {
      AssignWellFormed(searchParams, args);
      var read := ReadSet(args);
      if read.Err? {
        return Some(read.error);
      }
      var (param, value) := read.value;
      searchParams := searchParams[param := value];
      return None;
    }

    /** `do_reset`: with no argument every constraint returns to its default. Any
        argument makes it read `self.params`, which this class never sets, so it raises
        (`raised`) before changing anything. */
    method DoReset(param: string) returns (raised: bool)
      requires Valid()
      modifies this`searchParams
      ensures Valid()
      ensures raised <==> param != ""
      ensures raised ==> searchParams == old(searchParams)
      ensures !raised ==> searchParams == Defaults
    {
      if param != "" {
        return true;
      }
      searchParams := Defaults;
      return false;
    }

    /** `do_search`: the arguments it passes to `Manager.search`; the operator `all`
        combines the constraints with `$and`, anything else with `$or`. */
    method DoSearch(text: string) returns (args: Manager.SearchArgs)
      requires Valid()
      ensures args == SearchFor(searchParams, text)
      ensures args.op == Some(if searchParams[Operator] == One("all") then "$and" else "$or")
    {
      var op := if searchParams[Operator] == One("all") then "$and" else "$or";
      args := Manager.SearchArgs(text, None, None, Some(op),
        Strs(searchParams[Category].items), Strs(searchParams[Cuisine].items), None, None);
    }

    /** `do_width`: the width is set to the number given; anything that is not a number is
        refused and changes nothing. */
    method DoWidth(w: string) returns (ok: bool)
      modifies this`lineLength
      ensures ok <==> ParseInt(w).Some?
      ensures ok ==> lineLength == ParseInt(w).value
      ensures !ok ==> lineLength == old(lineLength)
    {
      var n := ParseInt(w);
      if n.None? {
        return false;
      }
      lineLength := n.value;
      return true;
    }
  }
}
