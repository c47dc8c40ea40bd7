/**
 The per-browser session state of the page and the button handlers that
 change it. Each handler changes the one list it names and nothing else.
 */
module Session {
  import opened Common
  import opened Recipes
  import opened Sharing
  import opened Waste
  import opened Orders
  import opened Planner

  class SessionState {
    var sharedItems: seq<Listing>
    var favoriteRecipes: seq<Recipe>
    var mealPlan: Plan
    var restaurantOrders: seq<Order>
    var wasteLog: seq<WasteEntry>

    predicate Valid()
      reads this`mealPlan
    {
      Complete(mealPlan)
    }

    /** A new session: every list empty and every planner cell empty. */
    constructor ()
      ensures Valid()
      ensures sharedItems == [] && favoriteRecipes == [] && restaurantOrders == [] && wasteLog == []
      ensures mealPlan == EmptyPlan()
    {
      sharedItems := [];
      favoriteRecipes := [];
      mealPlan := EmptyPlan();
      restaurantOrders := [];
      wasteLog := [];
    }

    /**
     The planner page: each cell's text input starts from the stored text and
     its value is written back; `edit` is what the input returns for a cell.
     */
    method UpdateMealPlan(edit: (Day, Meal, string) -> string)
      requires Valid()
      modifies this`mealPlan
      ensures Valid()
      ensures forall d: Day, m: Meal :: mealPlan[d][m] == edit(d, m, old(mealPlan)[d][m])
    {
      ghost var p0 := mealPlan;
      for i := 0 to |Days|
        invariant Complete(mealPlan)
        invariant EditedUpTo(mealPlan, p0, edit, i, 0)
      {
        var day := Days[i];
        for j := 0 to |Meals|
          invariant Complete(mealPlan)
          invariant EditedUpTo(mealPlan, p0, edit, i, j)
        {
          var meal := Meals[j];
          EditCell(mealPlan, p0, edit, i, j);
          mealPlan := mealPlan[day := mealPlan[day][meal := edit(day, meal, mealPlan[day][meal])]];
        }
        NextColumn(mealPlan, p0, edit, i);
      }
      forall d: Day, m: Meal ensures mealPlan[d][m] == edit(d, m, p0[d][m]) {
        assert Before(d, m, |Days|, 0);
      }
    }

    /** "Save Recipe" on a recipe card. */
    method SaveFavorite(r: Recipe)
      modifies this`favoriteRecipes
      ensures favoriteRecipes == old(favoriteRecipes) + [r]
    {
      favoriteRecipes := favoriteRecipes + [r];
    }

    /** "Remove" on favourite `i`. */
    method RemoveFavorite(i: nat)
      requires i < |favoriteRecipes|
      modifies this`favoriteRecipes
      ensures favoriteRecipes == RemoveAt(old(favoriteRecipes), i)
    {
      favoriteRecipes := favoriteRecipes[..i] + favoriteRecipes[i + 1..];
    }

    /** "Add listing": a complete form appends one listing; otherwise nothing changes. */
    method AddListing(f: ListingForm) returns (added: bool)
      modifies this`sharedItems
      ensures added <==> NewListing(f).Some?
      ensures sharedItems == old(sharedItems) + (if added then [NewListing(f).value] else [])
    {
      var listing := NewListing(f);
      added := listing.Some?;
      if added {
        sharedItems := sharedItems + [listing.value];
      }
    }

    /** "Remove" on listing `i`. */
    method RemoveListing(i: nat)
      requires i < |sharedItems|
      modifies this`sharedItems
      ensures sharedItems == RemoveAt(old(sharedItems), i)
    {
      sharedItems := sharedItems[..i] + sharedItems[i + 1..];
    }

    /** "Log waste": a valid form appends one entry; otherwise nothing changes. */
    method LogWaste(f: WasteForm) returns (logged: bool)
      modifies this`wasteLog
      ensures logged <==> NewWasteEntry(f).Some?
      ensures wasteLog == old(wasteLog) + (if logged then [NewWasteEntry(f).value] else [])
    {
      var entry := NewWasteEntry(f);
      logged := entry.Some?;
      if logged {
        wasteLog := wasteLog + [entry.value];
      }
    }

    /** "Post Order": a complete form appends one Available order; otherwise nothing changes. */
    method PostOrder(f: OrderForm) returns (posted: bool)
      modifies this`restaurantOrders
      ensures posted <==> NewOrder(f).Some?
      ensures restaurantOrders == Step(old(restaurantOrders), Post(f))
    {
      var order := NewOrder(f);
      posted := order.Some?;
      if posted {
        restaurantOrders := restaurantOrders + [order.value];
      }
    }

    /** "Confirm (NGO pick-up)" on order `i`; `confirmed` is false when the warning is shown instead. */
    method ConfirmOrder(i: nat) returns (confirmed: bool)
      requires i < |restaurantOrders|
      modifies this`restaurantOrders
      ensures confirmed <==> old(restaurantOrders)[i].status == Available
      ensures restaurantOrders == Step(old(restaurantOrders), Confirm(i))
    {
      confirmed := restaurantOrders[i].status == Available;
      if confirmed {
        restaurantOrders := restaurantOrders[i := restaurantOrders[i].(status := ConfirmedByNgo)];
      }
    }

    /** "Mark unavailable" on order `i`. */
    method MarkOrderUnavailable(i: nat)
      requires i < |restaurantOrders|
      modifies this`restaurantOrders
      ensures restaurantOrders == Step(old(restaurantOrders), MarkUnavailable(i))
    {
      restaurantOrders := restaurantOrders[i := restaurantOrders[i].(status := Unavailable)];
    }

    /** "Remove" on order `i`. */
    method RemoveOrder(i: nat)
      requires i < |restaurantOrders|
      modifies this`restaurantOrders
      ensures restaurantOrders == Step(old(restaurantOrders), Remove(i))
    {
      restaurantOrders := restaurantOrders[..i] + restaurantOrders[i + 1..];
    }
  }
}
