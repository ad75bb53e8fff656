/** `RecipeList` (search_util/recipe_list.py): the recipe pager of the older search shell,
    over the rounded-down page count of its `Pager`. It reads recipe numbers as the
    command-line shell's `RecipeList` does. */
module SearchRecipeList {
  import opened Wrappers
  import opened Text
  import opened Values
  import opened Paging
  import Wrap
  import CmdRecipes

  class RecipeList {
    const lines: nat
    const lineLength: int
    const lastPage: nat
    ghost const total: nat
    var current: int
    const objects: seq<Record>
    /** The numbers the prompt shows: page `prompt.0` of `prompt.1`. */
    var prompt: (int, int)

    /** `display_page` never moves `current`, so it stays on page 0. */
    ghost predicate Valid()
      reads this
    {
      lines > 0 && lastPage == FloorPages(total, lines) && current == 0
    }

    /** `__init__`: the prompt names page 1, which `display_page(0)` keeps; page 0 itself
        is refused when there are fewer matches than lines. */
    constructor (lines: nat, lineLength: int, objects: seq<Record>, total: nat)
      requires lines > 0
      ensures Valid() && this.lines == lines && this.lineLength == lineLength
      ensures this.objects == objects && this.total == total
      ensures prompt == (1, total / lines)
    {
      this.lines := lines;
      this.lineLength := lineLength;
      this.total := total;
      lastPage := FloorPages(total, lines);
      current := 0;
      this.objects := objects;
      prompt := (1, FloorPages(total, lines));
      new;
      var _ := DisplayPage(0);
    }

    /** `display_page`: a full page lists its objects, numbered from `page * lines + 1`,
        and names itself in the prompt; any other page is refused and nothing changes. */
    method DisplayPage(page: int) returns (shown: Option<seq<(int, Record)>>)
      requires Valid()
      modifies this`prompt
      ensures shown.Some? <==> FullPage(page, lines, total)
      ensures shown.Some? ==> shown.value == Numbered(objects, page, lines) && prompt == (page + 1, lastPage)
      ensures shown.None? ==> prompt == old(prompt)
    {
      FloorAdmitsFull(total, lines, page);
      if !Admits(page, lastPage) {
        return None;
      }
      shown := Some(Numbered(objects, page, lines));
      prompt := (page + 1, lastPage);
    }

    /** `do_page`: `None` for an argument that is not a number (which raises, see
        `SearchPager.Pager.DoPage`). */
    method DoPage(num: string) returns (r: Option<Option<seq<(int, Record)>>>)
      requires Valid()
      modifies this`prompt
      ensures r.None? <==> PageTarget(num, current).None?
      ensures r.None? ==> prompt == old(prompt)
      ensures r.Some? ==> var page := PageTarget(num, current).value;
        (r.value.Some? <==> FullPage(page, lines, total))
        && (r.value.Some? ==> r.value.value == Numbered(objects, page, lines))
    {
      var page := PageTarget(num, current);
      if page.None? {
        return None;
      }
      var shown := DisplayPage(page.value);
      return Some(shown);
    }

    /** `do_next`: always page index 1, shown only when two full pages of matches exist. */
    method DoNext() returns (shown: Option<seq<(int, Record)>>)
      requires Valid()
      modifies this`prompt
      ensures shown.Some? <==> 2 * lines <= total
      ensures shown.Some? ==> shown.value == Numbered(objects, 1, lines)
    {
      shown := DisplayPage(current + 1);
    }

    /** `do_previous`: always page index -1, which is refused. */
    method DoPrevious() returns (shown: Option<seq<(int, Record)>>)
      requires Valid()
      modifies this`prompt
      ensures shown.None? && prompt == old(prompt)
    {
      shown := DisplayPage(current - 1);
    }

    /** `do_recipe`: the number must name one of the fetched objects; the recipe is then
        looked up by that object's name. */
    method DoRecipe(num: string) returns (r: CmdRecipes.RecipeLookup)
      ensures r == CmdRecipes.BadNumber <==> CmdRecipes.RecipeIndex(num, |objects|).None?
      ensures r != CmdRecipes.BadNumber ==> var k := CmdRecipes.RecipeIndex(num, |objects|).value;
        (r == CmdRecipes.NotRetrieved <==> "name" !in objects[k])
        && (r.Lookup? ==> r.index == k && r.args == CmdRecipes.ByName(objects[k]["name"]))
    {
      var index := CmdRecipes.RecipeIndex(num, |objects|);
      if index.None? {
        return CmdRecipes.BadNumber;
      }
      var recipe := objects[index.value];
      if "name" !in recipe {
        return CmdRecipes.NotRetrieved;
      }
      return CmdRecipes.Lookup(index.value, CmdRecipes.ByName(recipe["name"]));
    }

    /** `line_breaks`: an instruction wrapped to the line length as the loop is written. */
    method LineBreaks(text: string) returns (r: string)
      ensures r == Wrap.Render(Wrap.Breaks(Words(text, Unicode), lineLength))
    {
      r := Wrap.LineBreaks(text, lineLength);
    }
  }
}
