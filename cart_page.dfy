/** The Cart page: one access-request entry per cart item, each asking for a
    line of business and a justification; entries can be edited, removed or
    cleared, and the request can be submitted once every entry is filled in. */
module CartPage {
  import opened Common
  import opened Text

  /** An item of the shared cart, as the cart hands it over. */
  datatype CartItem = CartItem(id: string, name: string, description: Option<string>)

  /** One entry of the request form. */
  datatype Entry = Entry(id: string, name: string, description: string, lob: string, justification: string)

  /** The two editable fields of an entry. */
  datatype FormField = Lob | Justification

  /** What the page renders. */
  datatype Screen = ThankYou | EmptyCart | RequestForm

  const NoDescription: string := "No description available"

  // ------------------------------------------------------------------ the form

  /** The entry of a cart item: its id and name, its description or a stock
      text when it has none (or an empty one), and both fields empty. */
  function InitialEntry(item: CartItem): Entry
  {
    Entry(item.id, item.name,
          if item.description.Some? && item.description.value != "" then item.description.value else NoDescription,
          "", "")
  }

  /** The initial form: one entry per cart item, in cart order. */
  function InitialForm(cart: seq<CartItem>): (form: seq<Entry>)
    ensures |form| == |cart|
    ensures forall i :: 0 <= i < |cart| ==> form[i].id == cart[i].id && form[i].name == cart[i].name
    ensures forall i :: 0 <= i < |cart| ==> form[i].lob == "" && form[i].justification == ""
    ensures forall i :: 0 <= i < |cart| ==> form[i].description != ""
    ensures forall i :: 0 <= i < |cart| ==>
              form[i].description ==
                if cart[i].description.Some? && cart[i].description.value != "" then cart[i].description.value
                else NoDescription
  {
    seq(|cart|, i requires 0 <= i < |cart| => InitialEntry(cart[i]))
  }

  /** `{ ...f, [field]: value }`. */
  function SetField(e: Entry, field: FormField, value: string): Entry
  {
    match field
    case Lob => e.(lob := value)
    case Justification => e.(justification := value)
  }

  /** `handleChange(id, field, value)`: the named field of every entry with
      that id becomes `value`; nothing else changes, the length and order of
      the form included. */
  function Changed(form: seq<Entry>, id: string, field: FormField, value: string): (r: seq<Entry>)
    ensures |r| == |form|
    ensures forall i :: 0 <= i < |form| && form[i].id != id ==> r[i] == form[i]
    ensures forall i :: 0 <= i < |form| && form[i].id == id && field == Lob ==>
              r[i].lob == value && r[i].(lob := form[i].lob) == form[i]
    ensures forall i :: 0 <= i < |form| && form[i].id == id && field == Justification ==>
              r[i].justification == value && r[i].(justification := form[i].justification) == form[i]
  {
    seq(|form|, i requires 0 <= i < |form| => if form[i].id == id then SetField(form[i], field, value) else form[i])
  }

  /** The test `f.id !== id`. */
  function OtherId(id: string): Entry -> bool
  {
    (e: Entry) => e.id != id
  }

  /** `formData.filter(f => f.id !== id)`: every entry with that id is gone,
      the others stay in order, each as often as before. */
  function Removed(form: seq<Entry>, id: string): (r: seq<Entry>)
    ensures forall e :: e in r ==> e.id != id
    ensures Subsequence(r, form)
    ensures forall e: Entry :: e.id != id ==> multiset(r)[e] == multiset(form)[e]
  {
    Filter(form, OtherId(id))
  }

  /** `isValid`: a non-empty form whose every entry has a line of business and
      a justification that is not only whitespace. */
  predicate Valid(form: seq<Entry>)
  {
    |form| > 0 && forall i :: 0 <= i < |form| ==> form[i].lob != "" && Trim(form[i].justification) != []
  }

  /** A freshly opened form cannot be submitted. */
  lemma InitialFormInvalid(cart: seq<CartItem>)
    ensures !Valid(InitialForm(cart))
  {
    if cart != [] {
      assert InitialForm(cart)[0].lob == "";
    }
  }

  /** Blanking the justification of an entry that is present makes the form
      invalid again, whatever else it holds. */
  lemma BlankJustificationInvalid(form: seq<Entry>, id: string, value: string, i: int)
    requires 0 <= i < |form| && form[i].id == id
    requires forall k :: 0 <= k < |value| ==> IsSpace(value[k])
    ensures !Valid(Changed(form, id, Justification, value))
  {
    BlankIff(value);
  }

  /** A valid form stays valid when any field of any entry is changed to a
      text that is not only whitespace. */
  lemma ChangeKeepsValid(form: seq<Entry>, id: string, field: FormField, value: string)
    requires Valid(form) && Trim(value) != []
    ensures Valid(Changed(form, id, field, value))
  {
    assert value != "";
  }

  // ---------------------------------------------------------- the page state

  class CartPage {
    /** The shared cart, which the page can only read and clear. */
    var cart: seq<CartItem>
    var formData: seq<Entry>
    var submitted: bool
    /** The route the page sent the browser to, if any. */
    var route: Option<string>

    constructor(items: seq<CartItem>)
      ensures cart == items && formData == InitialForm(items) && !submitted && route == None
    {
      cart := items;
      formData := InitialForm(items);
      submitted := false;
      route := None;
    }

    method HandleChange(id: string, field: FormField, value: string)
      modifies this
      ensures formData == Changed(old(formData), id, field, value)
      ensures cart == old(cart) && submitted == old(submitted) && route == old(route)
    {
      formData := Changed(formData, id, field, value);
    }

    /** `removeItem`: the entries of that id go; when none is left, the cart
        is cleared and the browser goes home. */
    method RemoveItem(id: string)
      modifies this
      ensures formData == Removed(old(formData), id)
      ensures formData == [] ==> cart == [] && route == Some("/")
      ensures formData != [] ==> cart == old(cart) && route == old(route)
      ensures submitted == old(submitted)
    {
      formData := Removed(formData, id);
      if formData == [] {
        cart := [];
        route := Some("/");
      }
    }

    /** `clearAll`: no cart, no form, and home. */
    method ClearAll()
      modifies this
      ensures cart == [] && formData == [] && route == Some("/")
      ensures submitted == old(submitted)
    {
      cart := [];
      formData := [];
      route := Some("/");
    }

    /** `handleSubmit`: the cart is cleared and the thank-you view replaces
        the form. */
    method HandleSubmit()
      modifies this
      ensures cart == [] && submitted
      ensures formData == old(formData) && route == old(route)
      ensures View() == ThankYou
    {
      cart := [];
      submitted := true;
    }

    function IsValid(): bool
      reads this
    {
      Valid(formData)
    }

    /** The thank-you view wins over the empty-cart view, which wins over the form. */
    function View(): (s: Screen)
      reads this
      ensures submitted <==> s == ThankYou
      ensures s == EmptyCart <==> !submitted && formData == []
    {
      if submitted then ThankYou else if formData == [] then EmptyCart else RequestForm
    }
  }
}
