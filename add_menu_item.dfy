/** The menu-item form: its starting values, the validation of a submitted
    form, and the choice between adding a new item and updating the one
    being edited. */
module AddMenuItem {
  import opened Base
  import opened Domain
  import opened JsText
  import opened RestaurantService

  /** The form's fields as typed; the price is still text. */
  datatype Form = Form(
    name: string,
    description: string,
    price: string,
    category: string,
    isSpecial: bool,
    availability: string)

  /** Why a submission is refused. */
  datatype FormError =
    | MissingField   // name or price left empty
    | InvalidPrice   // the price is not a number, or not above zero

  /** What an accepted submission asks of the store. */
  datatype SaveRequest =
    | UpdateItem(item: MenuItem)   // edit mode: replace the edited item
    | AddItem(draft: ItemDraft)    // otherwise: create a new item

  /** The form's starting values: empty fields, not special and available
      for a new item; the edited item's values in edit mode (its price shown
      through `priceText`, the number-to-text conversion). */
  function InitialForm(itemToEdit: Option<MenuItem>, priceText: real -> string): (f: Form)
    ensures itemToEdit.None? ==> f == Form("", "", "", "", false, Available)
    ensures itemToEdit.Some? ==>
      var e := itemToEdit.value;
      && f.name == e.name && f.description == e.description && f.price == priceText(e.price)
      && f.category == e.category && f.isSpecial == e.isSpecial
      && f.availability == (if e.availability == "" then Available else e.availability)
  {
    match itemToEdit
    case None => Form("", "", "", "", false, Available)
    case Some(e) =>
      Form(StringOr(Some(e.name), ""), StringOr(Some(e.description), ""), StringOr(Some(priceText(e.price)), ""),
           StringOr(Some(e.category), ""), BoolOr(Some(e.isSpecial)), StringOr(Some(e.availability), Available))
  }

  /** The text handed to `parseFloat`: the first decimal comma becomes a
      dot. */
  function PriceInput(text: string): (r: string)
    ensures |r| == |text|
    ensures ',' !in text ==> r == text
    ensures ',' in text ==> var k := IndexOf(text, ','); r[k] == '.' && r[..k] == text[..k] && r[k + 1..] == text[k + 1..]
  {
    if ',' in text then
      ReplaceFirstAtIndex(text, ',', '.');
      ReplaceFirst(text, ',', '.')
    else ReplaceFirst(text, ',', '.')
  }

  /** `handleSaveItem` up to the store call. `parseFloat` stands for the
      JavaScript parser, with `None` for NaN. An empty name or price text is
      refused first, then a price that does not parse or is not above zero;
      an accepted form becomes an update of the edited item (keeping its id)
      or a new item. */
  function ValidateForm(form: Form, itemToEdit: Option<MenuItem>, parseFloat: string -> Option<real>)
    : (r: Result<SaveRequest, FormError>)
    ensures form.name == "" || form.price == "" ==> r == Err(MissingField)
    ensures form.name != "" && form.price != "" ==>
      (r == Err(InvalidPrice) <==> parseFloat(PriceInput(form.price)).None? || parseFloat(PriceInput(form.price)).value <= 0.0)
    ensures r.Ok? <==> form.name != "" && form.price != ""
                       && parseFloat(PriceInput(form.price)).Some? && parseFloat(PriceInput(form.price)).value > 0.0
    ensures r.Ok? ==> (r.value.UpdateItem? <==> itemToEdit.Some?)
    ensures r.Ok? && itemToEdit.Some? ==>
      r.value.item == MenuItem(itemToEdit.value.id, form.name, form.description,
                               parseFloat(PriceInput(form.price)).value, form.category, form.isSpecial, form.availability)
    ensures r.Ok? && itemToEdit.None? ==>
      r.value.draft == ItemDraft(None, form.name, form.description, parseFloat(PriceInput(form.price)).value,
                                 Some(form.category), Some(form.isSpecial), Some(form.availability))
  {
    if form.name == "" || form.price == "" then Err(MissingField)
    else
      var numericPrice := parseFloat(PriceInput(form.price));
      if numericPrice.None? || numericPrice.value <= 0.0 then Err(InvalidPrice)
      else
        var p := numericPrice.value;
        match itemToEdit
        case Some(e) =>
          Ok(UpdateItem(MenuItem(e.id, form.name, form.description, p, form.category, form.isSpecial, form.availability)))
        case None =>
          Ok(AddItem(ItemDraft(None, form.name, form.description, p,
                               Some(form.category), Some(form.isSpecial), Some(form.availability))))
  }

  /** Every accepted submission, in either mode, stores a named item with a
      positive price: the record itself on update, its stamped form on add. */
  lemma AcceptedIsValid(form: Form, itemToEdit: Option<MenuItem>, parseFloat: string -> Option<real>, id: string)
    requires ValidateForm(form, itemToEdit, parseFloat).Ok?
    ensures var req := ValidateForm(form, itemToEdit, parseFloat).value;
      var stored := if req.UpdateItem? then req.item else StampItem(req.draft, id);
      stored.name == form.name && stored.name != "" && stored.price > 0.0
      && stored.category == form.category && stored.isSpecial == form.isSpecial
      && (req.AddItem? ==> stored.id == id && stored.availability == (if form.availability == "" then Available else form.availability))
      && (req.UpdateItem? ==> stored.id == itemToEdit.value.id && stored.availability == form.availability)
  {
  }

  /** Names are not trimmed: a name of spaces alone is accepted. */
  lemma BlankNameAccepted(form: Form, parseFloat: string -> Option<real>)
    requires form.name == " " && form.price != ""
    requires parseFloat(PriceInput(form.price)).Some? && parseFloat(PriceInput(form.price)).value > 0.0
    ensures ValidateForm(form, None, parseFloat).Ok?
  {
  }

  /** A decimal comma becomes a decimal dot. */
  lemma PriceInputExample()
    ensures PriceInput("35,50") == "35.50"
  {
    assert IndexOf("35,50", ',') == 2 by {
      assert "35,50"[2] == ',' && ',' !in "35,50"[..2];
    }
  }

  /** Only the first comma is turned into a dot. */
  lemma PriceInputFirstCommaOnly()
    ensures PriceInput("1,2,3") == "1.2,3"
  {
    assert IndexOf("1,2,3", ',') == 1 by {
      assert "1,2,3"[1] == ',' && ',' !in "1,2,3"[..1];
    }
  }

  /** `handleSaveItem`: validates the form and, when it is accepted, calls
      the store's update (edit mode) or add. A refused form reaches no store
      call. */
  method HandleSaveItem(store: Store, form: Form, itemToEdit: Option<MenuItem>,
                        parseFloat: string -> Option<real>, id: string, io: Io)
    returns (r: Result<SaveRequest, FormError>)
    modifies store
    ensures r == ValidateForm(form, itemToEdit, parseFloat)
    ensures r.Err? || !io.writeOk ==> store.menu == old(store.menu)
    ensures r.Ok? && r.value.UpdateItem? && io.writeOk ==>
      store.menu == ReplaceById(Loaded(old(store.menu), io), r.value.item)
    ensures r.Ok? && r.value.AddItem? && io.writeOk ==>
      store.menu == Loaded(old(store.menu), io) + [StampItem(r.value.draft, id)]
    ensures store.orders == old(store.orders)
  {
    r := ValidateForm(form, itemToEdit, parseFloat);
    if r.Err? {
      return;
    }
    match r.value
    case UpdateItem(item) =>
      store.UpdateMenuItem(item, io);
    case AddItem(draft) =>
      var _ := store.AddMenuItem(draft, id, io);
  }
}
