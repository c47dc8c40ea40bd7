# FoodWise session logic in Dafny

FoodWise is a Streamlit page (`app.py`) for reducing food waste. It turns a
comma-separated ingredient list into recipe ideas, keeps a weekly meal plan,
runs a sharing hub where people donate or sell surplus food, logs thrown-away
food, and runs an order board where restaurants post surplus and NGOs confirm
pick-ups. All state lives in four in-memory session lists (`shared_items`,
`favorite_recipes`, `restaurant_orders` and `waste_log`) and one map
(`meal_plan`).

This project models the rules behind that state. The widget rendering is not
modelled.

- `Text`: Python's `str.strip()`, `str.split(",")`, `", ".join(...)` and the
  `replace(" ", "+")` that builds a map search query. Whitespace is Python's
  `str.isspace()` set.
- `Recipes`: ingredient parsing and the padded "base" the recipe cards use.
- `Sharing`: listing validation and the listing's derived fields.
- `Waste`: waste-log validation.
- `Orders`: order validation, the status rules, and runs of board actions.
- `Planner`: the day-by-meal plan.
- `Common`: `Option`, prices, and `list.pop(i)`.
- `Session`: the class `SessionState`. It holds the session lists, and its
  methods are the button handlers. Each method changes only the field in its
  `modifies` clause.

Some behaviour of `app.py` differs from what an order board usually
promises. The model follows the code:

- "Confirmed by NGO" is not a final status. "Mark unavailable" works from any
  status, including after confirmation (`Orders.UnavailableOverridesConfirm`).
- The sharing hub checks required fields without stripping them, so a value
  made only of spaces is accepted. The order board does strip its fields.
- `app.py` has no claim records and no owner checks. Removing an order deletes
  nothing else, and lists keep insertion order.
- On the sharing hub, a sale at price 0 shows the price `0`, not "Free". On
  the order board, a suggested price of 0 shows "Free".

Dates reach the model as already-formatted strings. Waste quantities are
`real` values.

## Model

| member | source | states |
|---|---|---|
| Text.Strip | app.py:327 | `strip()` returns the unique infix with no whitespace at either end and only whitespace around it; the result is empty iff the input is all whitespace. Whitespace is the character set of Python's `str.isspace()` (`Text.IsSpace`) |
| Text.StripIdempotent | app.py:331-337 | stripping a stripped field changes nothing |
| Text.StripSubstring | app.py:87 | every character of a stripped string occurs in the input |
| Text.Split | app.py:115 | `split(",")` gives at least one piece, and no piece contains the separator |
| Text.JoinSplit | app.py:115 | joining the pieces of a split with the separator gives back the original string |
| Text.SplitJoin | app.py:87 | splitting a join of separator-free pieces gives back those pieces |
| Text.Join | app.py:225 | `sep.join(parts)` starts with the first part; for a one-character separator, `JoinSplit` and `SplitJoin` make it the inverse of `split` |
| Text.SplitConcat | app.py:115 | splitting at one separator splits the two sides independently |
| Text.SplitNoSeparator | app.py:87 | a string without the separator splits into itself alone |
| Text.MapsQuery | app.py:249 | the map query has the location's length and no space; each space becomes `+` and every other character stays (also used at app.py:355) |
| Common.RemoveAt | app.py:254 | `pop(i)` shortens the list by one; entries before `i` stay put and entries after `i` move down by one |
| Common.RemoveAtMultiset | app.py:381 | `pop(i)` removes exactly the one entry `i` |
| Recipes.KeepPiece | app.py:87 | one piece contributes its stripped text, or nothing iff it is all whitespace |
| Recipes.KeepNonBlank | app.py:87 | filtering keeps at most one entry per piece, and every kept entry is non-empty and trimmed |
| Recipes.ParseIngredients | app.py:115 | every parsed ingredient is non-empty and has no surrounding whitespace |
| Recipes.KeepNonBlankConcat | app.py:115 | filtering two runs of pieces is filtering each run and concatenating |
| Recipes.KeepNonBlankNoComma | app.py:115 | comma-free pieces give comma-free ingredients |
| Recipes.ParsedEntries | app.py:87 | each parsed ingredient is non-empty, unchanged by `strip()` and has no comma |
| Recipes.ParseAtComma | app.py:115 | ingredients keep input order: parsing `a,b` gives the ingredients of `a` followed by those of `b` |
| Recipes.ParseWithoutComma | app.py:115 | input without a comma gives its stripped text as the one ingredient, or nothing when it is blank |
| Recipes.ParseEmptyIff | app.py:114-117 | the parse is empty (the "valid ingredients" warning) iff the input holds only whitespace and commas |
| Recipes.OnlySpacesAndCommasAt | app.py:115 | a string holds only whitespace and commas iff both sides of one of its commas do |
| Recipes.ParseJoined | app.py:115 | parsing a comma-joined list of proper ingredients gives that list back, including the empty list |
| Recipes.KeepAllProper | app.py:87 | filtering pieces that are already proper ingredients keeps all of them |
| Recipes.PadBase | app.py:120 | the base has 3 entries when there are 3 or more ingredients, else 2; each position holds the ingredient at that position, or else the filler `veggies`/`spices` for that position |
| Recipes.PadBaseCases | app.py:89 | 3 or more ingredients give the first three; exactly 2 give the list unchanged; 1 ingredient `x` gives `[x, "spices"]` |
| Recipes.Suggest | app.py:113-124 | a blank input gets the first warning; input of only whitespace and commas gets the second; otherwise the base is the padded parse (`PadBase` of the ingredients), has 2 or 3 entries and starts with the first ingredient, so `base[1]` exists |
| Sharing.TagNames | app.py:212 | each chosen tag is shown by its multiselect label, in order |
| Sharing.DietaryLabel | app.py:225 | the label is "None" iff no tag was chosen; otherwise it is the chosen tags' labels joined with `", "` in order |
| Sharing.DietaryLabelNone | app.py:225 | a join of chosen tags' labels is never "None", and it starts with the first tag's label |
| Sharing.NewListing | app.py:217-229 | a listing is created iff item, qty, location and contact are non-empty as typed (no strip). The price is "Free" for Donate and the entered amount for Sell. Dietary is "None" when there are no tags, and otherwise the tags' labels joined with `", "`. The other fields are stored as typed. |
| Waste.NewWasteEntry | app.py:290-297 | an entry is created iff the stripped item is non-empty and qty > 0; the entry holds the stripped item and the other fields as given |
| Orders.StatusText | app.py:369 | the stored status reads "Available" exactly for the Available status (app.py:339, 370, 377 write the three strings) |
| Orders.StatusTextInjective | app.py:369 | comparing the stored status strings is comparing the statuses |
| Orders.NewOrder | app.py:326-341 | an order is created iff the stripped name, item, location and contact are non-empty (qty is not required). It is Available, has every text field stripped, and is "Free" iff the price is 0, otherwise it carries the price. |
| Orders.PostTo | app.py:326-342 | a refused form leaves the board unchanged; otherwise the earlier orders are kept and the new order is appended last, with status Available |
| Orders.ConfirmAt | app.py:368-374 | only an Available order becomes "Confirmed by NGO", with its other fields kept. Any other status leaves the board unchanged. No other order changes. |
| Orders.MarkUnavailableAt | app.py:376-377 | order `i` becomes Unavailable from any status, with its other fields kept; no other order changes |
| Orders.ConfirmChangesIff | app.py:369-370 | confirming changes the board iff the order was Available |
| Orders.Idempotent | app.py:377 | marking unavailable twice equals marking once, and likewise for confirming |
| Orders.UnavailableOverridesConfirm | app.py:368-377 | mark-unavailable after confirm equals mark-unavailable alone; confirm after mark-unavailable changes nothing |
| Orders.Step | app.py:326-381 | one button press: a post adds one order iff the form is accepted, a removal drops one, confirm and mark-unavailable keep the length, and any order past the old end is Available |
| Orders.Run | app.py:326-381 | a sequence of button presses adds at most one order per press |
| Orders.StepPreserves | app.py:370 | after any single action, a surviving order keeps every field except status, and a non-Available order stays non-Available |
| Orders.TrackRun | app.py:381 | an order that survives a run of actions has a position inside the resulting board |
| Orders.TrackRunKeepsIndex | app.py:326-377 | a run of posts, confirmations and unavailable marks without any removal keeps every order on the board at its own position |
| Orders.LeftAvailableNeverReturns | app.py:326-381 | after any run of post, confirm, unavailable and remove actions, a surviving order has only its status changed; if it had left Available, it is still not Available |
| Planner.DayIndex | app.py:172 | each day has its column in the planner's day order |
| Planner.MealIndex | app.py:173 | each meal has its row in the planner's meal order |
| Planner.AllListed | app.py:15-16 | the planner lists every day and every meal |
| Planner.EmptyPlan | app.py:14-17 | a new plan has a cell for every day and meal, each empty |
| Planner.EditCell | app.py:179-181 | writing one cell extends the edited part of the plan by exactly that cell |
| Planner.NextColumn | app.py:175-178 | a fully edited day column is where the next day's column starts |
| Session.SessionState.constructor | app.py:10-22 | a new session has empty lists and an empty meal plan |
| Session.SessionState.UpdateMealPlan | app.py:175-181 | each cell becomes what its text input returns when started from the stored text; the plan keeps every cell |
| Session.SessionState.SaveFavorite | app.py:128-134 | the recipe is appended to the favourites |
| Session.SessionState.RemoveFavorite | app.py:270-271 | the favourites lose exactly entry `i` |
| Session.SessionState.AddListing | app.py:217-230 | the handler reports success iff the listing is valid; a valid listing is appended, otherwise the list is unchanged |
| Session.SessionState.RemoveListing | app.py:253-254 | the listings lose exactly entry `i` |
| Session.SessionState.LogWaste | app.py:290-298 | the handler reports success iff the entry is valid; a valid entry is appended, otherwise the log is unchanged |
| Session.SessionState.PostOrder | app.py:326-342 | the handler reports success iff the order is valid; the board becomes `Step(board, Post(form))` |
| Session.SessionState.ConfirmOrder | app.py:368-374 | the handler reports success iff the order was Available; the board becomes `Step(board, Confirm(i))` |
| Session.SessionState.MarkOrderUnavailable | app.py:376-377 | the board becomes `Step(board, MarkUnavailable(i))` |
| Session.SessionState.RemoveOrder | app.py:380-381 | the board becomes `Step(board, Remove(i))` |

## Left out

- Rendering is not modelled: tabs, columns, expanders, CSS, HTML, success and warning messages, and `st.experimental_rerun`. Only the outcome a message reports is modelled, as a result value.
- Map links: the Google Maps URLs and the embedded iframe are not modelled. Only the space-to-plus query is.
- The recipe card text is not modelled: titles with `.title()`, joined ingredient strings and time strings. A saved favourite is an opaque `Recipe` record. Only the `base` computation feeds the model.
- The quantity calculator is not modelled, because it does float multiplication and `round`.
- Waste aggregation, sorting and charts are not modelled, because they use pandas and floats.
- CSV and text exports are not modelled, because they are presentation formatting.
- The current date is not modelled. `datetime.today()`, `date_input` and `strftime` become date strings the caller supplies.
- Widget inputs are parameters: a form record per button, and an `edit` function for the planner's text inputs.
- `pop(i)` and the status buttons take only indices of entries the page lists. The model requires a valid index. Python's negative and out-of-range indices are not modelled.
- Claim records, owner authorization, self-claim and duplicate-claimant checks, cascade delete, persistence and concurrent updates are not modelled, because `app.py` has none of them.
- Session.SessionState.SaveFavorite: models the append at app.py:128-134 as written. The running page never reaches that append. The "Save Recipe" buttons (app.py:127, 139, 151) sit inside `if st.button("Generate Recipes"):` (app.py:113), and a Streamlit button is true only on the rerun right after its own click. Pressing Save therefore starts a run in which Generate is false, so favourites stay empty. Button reruns are not modelled, so the model does not capture this.
