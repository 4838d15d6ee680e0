/** The recipe table and the code that writes it, step by step
    (backend/apps/menu/services.py and models.py). */
module RecipeTables {
  import opened Prelude
  import opened Ledger
  import opened Recipes
  import opened Deduction

  /** A step on one menu item's versions either takes effect or leaves the whole menu alone. */
  predicate Applied(before: Menu, posCode: string, history: Result<History>, after: Menu, error: Option<Error>) {
    match history
    case Ok(versions) => after == before[posCode := versions] && error.None?
    case Err(e) => after == before && error == Some(e)
  }

  /** Every stored version satisfies the check constraint on its window. */
  predicate StoredVersions(menu: Menu) {
    forall posCode :: posCode in menu ==> forall i :: 0 <= i < |menu[posCode]| ==> WindowValid(menu[posCode][i])
  }

  /** The transition `RecipeVersion.save` lets a published row make. */
  predicate Retiring(stored: Version, v: Version) {
    v.status.Retired? || stored.to != v.to
  }

  class RecipeBook {
    var menu: Menu

    constructor ()
      ensures menu == map[]
    {
      menu := map[];
    }

    method AddMenuItem(posCode: string) returns (error: Option<Error>)
      modifies this
      ensures if posCode in old(menu) then menu == old(menu) && error == Some(ConstraintViolation)
              else menu == old(menu)[posCode := []] && error.None?
    {
      if posCode in menu {
        return Some(ConstraintViolation);
      }
      menu := menu[posCode := []];
      return None;
    }

    /** `RecipeVersion.save` on an existing row: the guard on published rows, then the check
        constraint on the window. */
    method Save(posCode: string, i: nat, v: Version) returns (error: Option<Error>)
      requires posCode in menu && i < |menu[posCode]|
      modifies this
      ensures var stored := old(menu)[posCode][i];
        if stored.status.Published? && !Retiring(stored, v) then error == Some(ImmutableVersion)
        else if !WindowValid(v) then error == Some(ConstraintViolation)
        else error.None?
      ensures menu == if error.None? then old(menu)[posCode := old(menu)[posCode][i := v]] else old(menu)
    {
      var stored := menu[posCode][i];
      if stored.status.Published? && !Retiring(stored, v) {
        return Some(ImmutableVersion);
      }
      if !WindowValid(v) {
        return Some(ConstraintViolation);
      }
      menu := menu[posCode := menu[posCode][i := v]];
      return None;
    }

    /** `create_recipe_version`. A line constraint that fails takes the new version with it. */
    method CreateRecipeVersion(posCode: string, lines: seq<RecipeLine>) returns (error: Option<Error>)
      requires posCode in menu
      modifies this
      ensures Applied(old(menu), posCode, CreateVersion(old(menu)[posCode], lines), menu, error)
    {
      if lines == [] {
        return Some(EmptyLines);
      }
      var saved, i := menu, |menu[posCode]|;
      menu := menu[posCode := menu[posCode] + [Version(Draft, None, None, [])]];
      for l := 0 to |lines|
        invariant menu == saved[posCode := saved[posCode] + [Version(Draft, None, None, lines[..l])]]
        invariant ValidRecipe(lines[..l])
      {
        if lines[l].qtyPerServing <= 0 || Uses(menu[posCode][i].lines, lines[l].product) {
          InvalidPrefix(lines, l);
          menu := saved;
          return Some(ConstraintViolation);
        }
        assert lines[..l + 1] == lines[..l] + [lines[l]];
        var version := menu[posCode][i];
        version := version.(lines := version.lines + [lines[l]]);
        menu := menu[posCode := menu[posCode][i := version]];
        assert menu[posCode] == saved[posCode] + [version];
      }
      assert lines[..|lines|] == lines;
      return None;
    }

    /** `submit_for_review`. */
    method Submit(posCode: string, i: nat) returns (error: Option<Error>)
      requires posCode in menu && (i < |menu[posCode]| ==> WindowValid(menu[posCode][i]))
      modifies this
      ensures Applied(old(menu), posCode, SubmitForReview(old(menu)[posCode], i), menu, error)
    {
      if i >= |menu[posCode]| {
        return Some(NotFound);
      }
      var version := menu[posCode][i];
      if !version.status.Draft? {
        return Some(InvalidState);
      }
      version := version.(status := Review);
      error := Save(posCode, i, version);
    }

    /** `publish_version`: close the outgoing version's window, then open the new one. */
    method PublishVersion(posCode: string, i: nat, effectiveFrom: Option<Date>) returns (error: Option<Error>)
      requires posCode in menu
      modifies this
      ensures Applied(old(menu), posCode, Publish(old(menu)[posCode], i, effectiveFrom), menu, error)
    {
      if i >= |menu[posCode]| {
        return Some(NotFound);
      }
      var version := menu[posCode][i];
      if !version.status.Draft? && !version.status.Review? {
        return Some(InvalidState);
      }
      if effectiveFrom.None? {
        return Some(InvalidInput);
      }
      var saved := menu;
      var c := CurrentPublished(menu[posCode], i);
      if c.Some? {
        var current := menu[posCode][c.value];
        current := current.(to := effectiveFrom);
        current := current.(status := Retired);
        error := Save(posCode, c.value, current);
        if error.Some? {
          menu := saved;
          return;
        }
      }
      version := version.(status := Published);
      version := version.(from := effectiveFrom);
      version := version.(to := None);
      error := Save(posCode, i, version);
    }
  }

  predicate Uses(lines: seq<RecipeLine>, p: ProductId) {
    exists i :: 0 <= i < |lines| && lines[i].product == p
  }

  lemma InvalidPrefix(lines: seq<RecipeLine>, l: nat)
    requires l < |lines| && (lines[l].qtyPerServing <= 0 || Uses(lines[..l], lines[l].product))
    ensures !ValidRecipe(lines)
  {
  }
}
