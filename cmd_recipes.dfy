/** `RecipeList` (cmdlineutils/recipes.py): the pager over a search result, with the
    rounded-up page count of `RecipeUtilPager`. The recipe lines themselves are not
    modelled; a shown page is the numbered objects it lists. */
module CmdRecipes {
  import opened Wrappers
  import opened Text
  import opened Values
  import opened Paging
  import Manager
  import Wrap

  /** What `do_recipe` does with its argument: refuse the number, fail to read the
      recipe's name, or search for the recipe by name. */
  datatype RecipeLookup = BadNumber | NotRetrieved | Lookup(index: nat, args: Manager.SearchArgs)

  /** The search `do_recipe` runs for the recipe named `name`. */
  function ByName(name: Value): (args: Manager.SearchArgs)
    ensures args.name == Some(name) && args.projection == Some(Manager.RecipeProjection)
    ensures args.text == "" && args.url.None? && args.categories == [] && args.cuisines == []
  {
    Manager.SearchArgs("", Some(name), None, None, [], [], Some(Manager.RecipeProjection), None)
  }

  /** `do_recipe`'s reading of its argument against `count` listed objects: the 1-based
      number of one of them. */
  function RecipeIndex(num: string, count: nat): (r: Option<nat>)
    ensures r.Some? <==> ParseInt(num).Some? && 1 <= ParseInt(num).value <= count
    ensures r.Some? ==> r.value == ParseInt(num).value - 1 && r.value < count
  {
    match ParseInt(num)
    case None => None
    case Some(n) => if n - 1 < 0 || n - 1 >= count then None else Some(n - 1)
  }

  /** Every listed recipe can be asked for by its number. */
  lemma EveryRecipeReachable(k: nat, count: nat)
    requires k < count
    ensures RecipeIndex(IntToString(k + 1), count) == Some(k)
  {
    ParseIntToString(k + 1);
  }

  class RecipeList {
    const lines: nat
    const lineLength: int
    const lastPage: nat
    ghost const total: nat
    var current: int
    const objects: seq<Record>
    /** The numbers the prompt shows: page `prompt.0` of `prompt.1`. */
    var prompt: (int, int)

    /** `display_page` never moves `current`, so it stays on page 0. */
    ghost predicate Valid()
      reads this
    {
      lines > 0 && lastPage == CeilPages(total, lines) && current == 0
    }

    /** `__init__` for a search result with `total` matches of which `objects` were
        fetched: the prompt names page 1, which `display_page(0)` keeps. */
    constructor (lines: nat, lineLength: int, objects: seq<Record>, total: nat)
      requires lines > 0
      ensures Valid() && this.lines == lines && this.lineLength == lineLength
      ensures this.objects == objects && this.total == total
      ensures prompt == (1, CeilPages(total, lines))
    {
      this.lines := lines;
      this.lineLength := lineLength;
      this.total := total;
      lastPage := CeilPages(total, lines);
      current := 0;
      this.objects := objects;
      prompt := (1, CeilPages(total, lines));
      new;
      var _ := DisplayPage(0);
    }

    /** `display_page`: a page holding at least one of the matches lists its objects,
        numbered from `page * lines + 1`, and names itself in the prompt; any other page
        is refused and nothing changes. */
    method DisplayPage(page: int) returns (shown: Option<seq<(int, Record)>>)
      requires Valid()
      modifies this`prompt
      ensures shown.Some? <==> 0 <= page && page * lines < total
      ensures shown.Some? ==> shown.value == Numbered(objects, page, lines) && prompt == (page + 1, lastPage)
      ensures shown.None? ==> prompt == old(prompt)
    {
      CeilAdmitsNonEmpty(total, lines, page);
      if !Admits(page, lastPage) {
        return None;
      }
      shown := Some(Numbered(objects, page, lines));
      prompt := (page + 1, lastPage);
    }

    /** `do_page`: `None` for a number that does not parse. */
    method DoPage(num: string) returns (r: Option<Option<seq<(int, Record)>>>)
      requires Valid()
      modifies this`prompt
      ensures r.None? <==> PageTarget(num, current).None?
      ensures r.None? ==> prompt == old(prompt)
      ensures r.Some? ==> var page := PageTarget(num, current).value;
        (r.value.Some? <==> 0 <= page && page * lines < total)
        && (r.value.Some? ==> r.value.value == Numbered(objects, page, lines))
    {
      var page := PageTarget(num, current);
      if page.None? {
        return None;
      }
      var shown := DisplayPage(page.value);
      return Some(shown);
    }

    /** `do_next`: as `current` stays 0, always page 2 (index 1), shown only when more
        than one page of matches exists. */
    method DoNext() returns (shown: Option<seq<(int, Record)>>)
      requires Valid()
      modifies this`prompt
      ensures shown.Some? <==> lines < total
      ensures shown.Some? ==> shown.value == Numbered(objects, 1, lines)
    {
      shown := DisplayPage(current + 1);
    }

    /** `do_previous`: always page index -1, which is refused. */
    method DoPrevious() returns (shown: Option<seq<(int, Record)>>)
      requires Valid()
      modifies this`prompt
      ensures shown.None? && prompt == old(prompt)
    {
      shown := DisplayPage(current - 1);
    }

    /** `do_recipe`: the number must name one of the fetched objects; the search then
        looks the recipe up by that object's name. */
    method DoRecipe(num: string) returns (r: RecipeLookup)
      ensures r == BadNumber <==> RecipeIndex(num, |objects|).None?
      ensures r != BadNumber ==> var k := RecipeIndex(num, |objects|).value;
        (r == NotRetrieved <==> "name" !in objects[k])
        && (r.Lookup? ==> r.index == k && r.args == ByName(objects[k]["name"]))
    {
      var index := RecipeIndex(num, |objects|);
      if index.None? {
        return BadNumber;
      }
      var recipe := objects[index.value];
      if "name" !in recipe {
        return NotRetrieved;
      }
      return Lookup(index.value, ByName(recipe["name"]));
    }

    /** `line_breaks`: an instruction wrapped to the line length as the loop is written. */
    method LineBreaks(text: string) returns (r: string)
      ensures r == Wrap.Render(Wrap.Breaks(Words(text, Unicode), lineLength))
    {
      r := Wrap.LineBreaks(text, lineLength);
    }
  }
}
