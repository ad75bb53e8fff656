/** `RecipeSearch` (search_util/recipe_search.py): the main menu of the older search
    shell. It keeps the same constraints as `RecipeUtil` and adds `do_params`. */
module RecipeSearch {
  import opened Wrappers
  import opened Text
  import opened SearchParams
  import Manager

  class RecipeSearch {
    /** Rows a listing page shows: the terminal height less four. */
    const lines: int
    /** Columns a wrapped line may use: the terminal width less four. */
    var lineLength: int
    var searchParams: Params

    ghost predicate Valid()
      reads this
    {
      WellFormed(searchParams)
    }

    /** `__init__`: the geometry from the terminal size, the default constraints. */
    constructor (nrows: int, ncols: int)
      ensures Valid() && lines == nrows - 4 && lineLength == ncols - 4 && searchParams == Defaults
    {
      lines := nrows - 4;
      lineLength := ncols - 4;
      searchParams := Defaults;
    }

    /** `do_params`: with no argument, every constraint. Any argument makes it read
        `self.params`, which this class never sets, so it raises (`None`). */
    method DoParams(param: string) returns (r: Option<Params>)
      requires Valid()
      ensures r.None? <==> param != ""
      ensures r.Some? ==> r.value == searchParams && r.value.Keys == {Category, Cuisine, Operator}
    {
      if param != "" {
        return None;
      }
      return Some(searchParams);
    }

    /** `do_set`: the error it reports, if any; only an accepted assignment changes the
        constraints, and only the one it names. */
    method DoSet(args: string) returns (err: Option<SetError>)
      requires Valid()
      modifies this`searchParams
      ensures Valid()
      ensures err.None? <==> ReadSet(args).Ok?
      ensures err.Some? ==> err.value == ReadSet(args).error && searchParams == old(searchParams)
      ensures err.None? ==> var (param, value) := ReadSet(args).value;
        searchParams == old(searchParams)[param := value]
    {
      AssignWellFormed(searchParams, args);
      var read := ReadSet(args);
      if read.Err? {
        return Some(read.error);
      }
      var (param, value) := read.value;
      searchParams := searchParams[param := value];
      return None;
    }

    /** `do_reset`: with no argument every constraint returns to its default; any
        argument raises, as in `do_params`, before changing anything. */
    method DoReset(param: string) returns (raised: bool)
      requires Valid()
      modifies this`searchParams
      ensures Valid()
      ensures raised <==> param != ""
      ensures raised ==> searchParams == old(searchParams)
      ensures !raised ==> searchParams == Defaults
    {
      if param != "" {
        return true;
      }
      searchParams := Defaults;
      return false;
    }

    /** `do_search`: the arguments it passes to `Manager.search`; the operator `all`
        combines the constraints with `$and`, anything else with `$or`. */
    method DoSearch(text: string) returns (args: Manager.SearchArgs)
      requires Valid()
      ensures args == SearchFor(searchParams, text)
      ensures args.op == Some(if searchParams[Operator] == One("all") then "$and" else "$or")
    {
      var op := if searchParams[Operator] == One("all") then "$and" else "$or";
      args := Manager.SearchArgs(text, None, None, Some(op),
        Strs(searchParams[Category].items), Strs(searchParams[Cuisine].items), None, None);
    }

    /** `do_width`: the width is set to the number given; anything that is not a number is
        refused and changes nothing. */
    method DoWidth(w: string) returns (ok: bool)
      modifies this`lineLength
      ensures ok <==> ParseInt(w).Some?
      ensures ok ==> lineLength == ParseInt(w).value
      ensures !ok ==> lineLength == old(lineLength)
    {
      var n := ParseInt(w);
      if n.None? {
        return false;
      }
      lineLength := n.value;
      return true;
    }
  }
}
