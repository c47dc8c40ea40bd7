/** The food waste tracker: a log of thrown-away food, one entry per "Log waste". */
module Waste {
  import opened Common
  import opened Text

  /** The values of the waste form; the quantity is the number input, the date is already formatted. */
  datatype WasteForm = WasteForm(item: string, qty: real, units: string, reason: string, date: string)

  datatype WasteEntry = WasteEntry(item: string, qty: real, units: string, reason: string, date: string)

  /**
   "Log waste": refused when the item is blank after strip() or the quantity
   is not positive; otherwise the entry holds the stripped item name.
   */
  function NewWasteEntry(f: WasteForm): (r: Option<WasteEntry>)
    ensures r.Some? <==> !AllSpace(f.item) && f.qty > 0.0
    ensures r.Some? ==>
      && r.value.item != "" && Strip(r.value.item) == r.value.item
      && r.value.item == Strip(f.item) && r.value.qty == f.qty
      && r.value.units == f.units && r.value.reason == f.reason && r.value.date == f.date
  {
    var item := Strip(f.item);
    if item == "" || f.qty <= 0.0 then None
    else
      StripIdempotent(f.item);
      Some(WasteEntry(item, f.qty, f.units, f.reason, f.date))
  }
}
