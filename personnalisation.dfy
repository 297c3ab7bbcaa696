/**
 * The custom-order page (`src/pages/Personnalisation.tsx`): the form, its submission
 * check, the cart line it hands to the cart, the reset after a successful submission,
 * and the coercions of the quantity and price inputs.
 *
 * The cart itself is not part of this model: the lines handed to its `addToCart` are
 * recorded, in order, in `sentToCart`. The price is the form's JavaScript number,
 * modelled as a `real`.
 */
module Personnalisation {
  import opened Types

  /** The values of the product-type select; `Unselected` is its empty first option. */
  datatype ProductType = Unselected | Cookies | Crepes | Gateaux

  function TypeName(t: ProductType): string
  {
    match t
    case Unselected => ""
    case Cookies => "Cookies"
    case Crepes => "Crêpes"
    case Gateaux => "Gâteaux"
  }

  /** The empty option is the only one whose text is empty, and distinct options have
      distinct texts. */
  lemma TypeNameInjective(t: ProductType, u: ProductType)
    ensures TypeName(t) == "" <==> t == Unselected
    ensures TypeName(t) == TypeName(u) ==> t == u
  {
    if TypeName(t) == TypeName(u) && t != Unselected {
      assert TypeName(t)[..2] == TypeName(u)[..2];
    }
  }

  datatype CustomForm = CustomForm(
    productType: ProductType,
    productName: string,
    quantity: int,
    customization: string,
    price: real)

  /** The state the form starts in and is reset to. */
  const InitialForm: CustomForm := CustomForm(Unselected, "", 1, "", 0.0)

  /** The `type` of a cart line; this page only ever sends `'custom'`. */
  datatype LineType = Custom

  /** The object handed to `addToCart`. */
  datatype CartLine = CartLine(
    lineType: LineType,
    name: string,
    price: real,
    quantity: int,
    description: string,
    customization: string)

  /** The submission check: a type chosen, a name given and a positive price. The
      customization text is not checked. */
  predicate CanSubmit(form: CustomForm)
  {
    form.productType != Unselected && form.productName != "" && form.price > 0.0
  }

  /** The cart line for an accepted form. */
  function CustomLine(form: CustomForm): (line: CartLine)
    requires CanSubmit(form)
    ensures line.lineType == Custom
    ensures line.name == TypeName(form.productType) + " - " + form.productName
    ensures line.price == form.price && line.price > 0.0
    ensures line.quantity == form.quantity && line.customization == form.customization
    ensures line.description == TypeName(form.productType) && line.description != ""
  {
    TypeNameInjective(form.productType, form.productType);
    CartLine(Custom, TypeName(form.productType) + " - " + form.productName,
             form.price, form.quantity, TypeName(form.productType), form.customization)
  }

  /** The line's name is the type's text, `" - "`, then the creation's name. */
  lemma CustomLineName(form: CustomForm)
    requires CanSubmit(form)
    ensures var n, t := CustomLine(form).name, TypeName(form.productType);
            |n| == |t| + 3 + |form.productName|
            && n[..|t|] == t && n[|t|..|t| + 3] == " - " && n[|t| + 3..] == form.productName
  {
    var t := TypeName(form.productType);
    var n := CustomLine(form).name;
    assert n == t + " - " + form.productName;
    assert n[..|t|] == t;
    assert n[|t|..|t| + 3] == " - ";
    assert n[|t| + 3..] == form.productName;
  }

  /** The name determines the type and the creation's name: distinct choices never
      produce the same cart name. */
  lemma CustomLineNameInjective(f: CustomForm, g: CustomForm)
    requires CanSubmit(f) && CanSubmit(g)
    requires CustomLine(f).name == CustomLine(g).name
    ensures f.productType == g.productType && f.productName == g.productName
  {
    var n := CustomLine(f).name;
    CustomLineName(f);
    CustomLineName(g);
    // "Cookies" and "Crêpes" share their first letter; the first two tell the types apart
    assert TypeName(f.productType)[..2] == n[..2] == TypeName(g.productType)[..2];
    assert f.productType == g.productType by {
      assert TypeName(Cookies)[..2] == "Co" && TypeName(Crepes)[..2] == "Cr" && TypeName(Gateaux)[..2] == "Gâ";
    }
    var k := |TypeName(f.productType)| + 3;
    assert f.productName == n[k..] == g.productName;
  }

  /** `parseInt(text) || 1`: `None` is an input that does not parse (NaN). NaN and 0
      become 1; every other integer, negative ones included, passes through. */
  function CoerceQuantity(parsed: Option<int>): (q: int)
    ensures q != 0
    ensures parsed == None || parsed == Some(0) ==> q == 1
    ensures parsed.Some? && parsed.value != 0 ==> q == parsed.value
  {
    match parsed
    case None => 1
    case Some(n) => if n == 0 then 1 else n
  }

  /** `parseFloat(text) || 0`: NaN becomes 0; every other number passes through. */
  function CoercePrice(parsed: Option<real>): (p: real)
    ensures parsed == None ==> p == 0.0
    ensures parsed.Some? ==> p == parsed.value
  {
    match parsed
    case None => 0.0
    case Some(x) => x
  }

  /** A price input that does not parse leaves a form that cannot be submitted. */
  lemma UnparsablePriceBlocksSubmit(form: CustomForm, parsed: Option<real>)
    requires parsed == None || parsed == Some(0.0)
    ensures !CanSubmit(form.(price := CoercePrice(parsed)))
  {
  }

  /** The page's form state and the lines it has handed to the cart. */
  class Personnalisation {
    var form: CustomForm
    var sentToCart: seq<CartLine>

    constructor ()
      ensures form == InitialForm && sentToCart == []
    {
      form := InitialForm;
      sentToCart := [];
    }

    /** `handleSubmit`. The quantity input carries `min="1"`, so the browser submits only
        with a quantity of at least 1. A rejected form changes nothing; an accepted one
        hands exactly one line to the cart and resets the form. */
    method HandleSubmit() returns (accepted: bool)
      requires form.quantity >= 1
      modifies this
      ensures accepted == CanSubmit(old(form))
      ensures !accepted ==> form == old(form) && sentToCart == old(sentToCart)
      ensures accepted ==> sentToCart == old(sentToCart) + [CustomLine(old(form))] && form == InitialForm
      ensures accepted ==> sentToCart[|sentToCart| - 1].quantity >= 1
    {
      if !CanSubmit(form) {
        return false;
      }
      sentToCart := sentToCart + [CustomLine(form)];
      form := InitialForm;
      accepted := true;
    }

    /** The quantity input's change handler. */
    method OnQuantityInput(parsed: Option<int>)
      modifies this
      ensures form == old(form).(quantity := CoerceQuantity(parsed)) && sentToCart == old(sentToCart)
    {
      form := form.(quantity := CoerceQuantity(parsed));
    }

    /** The price input's change handler. */
    method OnPriceInput(parsed: Option<real>)
      modifies this
      ensures form == old(form).(price := CoercePrice(parsed)) && sentToCart == old(sentToCart)
    {
      form := form.(price := CoercePrice(parsed));
    }

    /** The product-type select's change handler. */
    method OnTypeInput(t: ProductType)
      modifies this
      ensures form == old(form).(productType := t) && sentToCart == old(sentToCart)
    {
      form := form.(productType := t);
    }

    /** The creation-name input's change handler. */
    method OnNameInput(text: string)
      modifies this
      ensures form == old(form).(productName := text) && sentToCart == old(sentToCart)
    {
      form := form.(productName := text);
    }

    /** The customization textarea's change handler. */
    method OnCustomizationInput(text: string)
      modifies this
      ensures form == old(form).(customization := text) && sentToCart == old(sentToCart)
    {
      form := form.(customization := text);
    }
  }

  /** After a successful submission the reset form is rejected until it is filled in
      again: the same order cannot be added twice by submitting twice. */
  lemma ResetFormRejected()
    ensures !CanSubmit(InitialForm)
    ensures InitialForm.quantity == CoerceQuantity(None)
  {
  }
}
