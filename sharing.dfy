/**
 The sharing hub: a neighbour donates or sells surplus food by filling in a
 form; a complete form becomes a listing record with its derived fields.
 */
module Sharing {
  import opened Common
  import opened Text

  datatype Mode = Donate | Sell

  /** The choices of the "Dietary information" multiselect. */
  datatype DietTag = Vegetarian | Vegan | GlutenFree | DairyFree | ContainsNuts

  function TagName(t: DietTag): (name: string)
    ensures |name| >= 5
  {
    match t
    case Vegetarian => "Vegetarian"
    case Vegan => "Vegan"
    case GlutenFree => "Gluten-free"
    case DairyFree => "Dairy-free"
    case ContainsNuts => "Contains nuts"
  }

  function TagNames(tags: seq<DietTag>): (names: seq<string>)
    ensures |names| == |tags|
    ensures forall k :: 0 <= k < |tags| ==> names[k] == TagName(tags[k])
  {
    if tags == [] then [] else [TagName(tags[0])] + TagNames(tags[1..])
  }

  /**
   `", ".join(dietary_info) if dietary_info else "None"`: the chosen labels
   joined in order, or "None" exactly when nothing was chosen.
   */
  function DietaryLabel(tags: seq<DietTag>): (shown: string)
    ensures shown == "None" <==> tags == []
    ensures tags != [] ==> shown == Join(TagNames(tags), ", ")
  {
    DietaryLabelNone(tags);
    if tags == [] then "None" else Join(TagNames(tags), ", ")
  }

  /** The label reads "None" exactly when no tag was chosen, and otherwise starts with the first tag. */
  lemma DietaryLabelNone(tags: seq<DietTag>)
    ensures tags != [] ==> Join(TagNames(tags), ", ") != "None"
    ensures tags != [] ==> Join(TagNames(tags), ", ")[..|TagName(tags[0])|] == TagName(tags[0])
  {
    if tags != [] {
      var names := TagNames(tags);
      assert |Join(names, ", ")| >= |names[0]| >= 5;
    }
  }

  /** The values of the sharing form when "Add listing" is pressed; dates are already formatted. */
  datatype ListingForm = ListingForm(
    mode: Mode, item: string, qty: string, expiry: string, location: string,
    contact: string, dietary: seq<DietTag>, notes: string, price: nat, today: string)

  datatype Listing = Listing(
    mode: Mode, item: string, qty: string, expiry: string, dietary: string,
    location: string, contact: string, price: Price, notes: string, datePosted: string)

  /**
   "Add listing": the four required fields must be non-empty as typed (they
   are not stripped, so whitespace passes); the record keeps them as typed.
   */
  function NewListing(f: ListingForm): (r: Option<Listing>)
    ensures r.Some? <==> f.item != "" && f.qty != "" && f.location != "" && f.contact != ""
    ensures r.Some? ==> r.value.price == (if f.mode == Donate then Free else Rupees(f.price))
    ensures r.Some? ==> (r.value.dietary == "None" <==> f.dietary == [])
    ensures r.Some? ==> r.value.dietary == (if f.dietary == [] then "None" else Join(TagNames(f.dietary), ", "))
    ensures r.Some? ==>
      && r.value.mode == f.mode && r.value.item == f.item && r.value.qty == f.qty
      && r.value.expiry == f.expiry && r.value.location == f.location
      && r.value.contact == f.contact && r.value.notes == f.notes && r.value.datePosted == f.today
  {
    if f.item == "" || f.qty == "" || f.location == "" || f.contact == "" then None
    else
      Some(Listing(
        mode := f.mode, item := f.item, qty := f.qty, expiry := f.expiry,
        dietary := DietaryLabel(f.dietary), location := f.location, contact := f.contact,
        price := if f.mode == Sell then Rupees(f.price) else Free,
        notes := f.notes, datePosted := f.today))
  }
}
