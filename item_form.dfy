/** The add-item form: five text fields, an expanded/collapsed flag, a change
    handler per field and a submit that validates, emits a draft and resets. */
module ItemForm {

  import opened Seqs
  import opened Types

  /** The form's text state. The price is kept as typed. */
  datatype FormData = FormData(
    name: string,
    description: string,
    price: string,
    storeLink: string,
    category: string)

  /** The five fields the inputs write to. */
  datatype Field = Name | Description | Price | StoreLink | CategoryField

  const EMPTY_FORM: FormData := FormData("", "", "", "", "")

  function Get(data: FormData, field: Field): string
  {
    match field
    case Name => data.name
    case Description => data.description
    case Price => data.price
    case StoreLink => data.storeLink
    case CategoryField => data.category
  }

  /** `{ ...prev, [field]: value }`. */
  function With(data: FormData, field: Field, value: string): (r: FormData)
    ensures Get(r, field) == value
    ensures forall other :: other != field ==> Get(r, other) == Get(data, other)
  {
    match field
    case Name => data.(name := value)
    case Description => data.(description := value)
    case Price => data.(price := value)
    case StoreLink => data.(storeLink := value)
    case CategoryField => data.(category := value)
  }

  /** The fields marked required in the form. */
  const REQUIRED: set<Field> := {Name, CategoryField, Price}

  /** The submit guard: every required field is non-empty. */
  predicate CanSubmit(data: FormData): (ok: bool)
    ensures ok <==> forall f :: f in REQUIRED ==> Get(data, f) != ""
  {
    data.name != "" && data.category != "" && data.price != ""
  }

  /** The draft a successful submit emits; `parsePrice` stands for `parseFloat`. */
  function ToDraft(data: FormData, parsePrice: string -> int): (d: Draft)
    ensures d.name == data.name && d.description == data.description
    ensures d.storeLink == data.storeLink && d.category == data.category
    ensures d.price == parsePrice(data.price)
  {
    Draft(data.name, data.description, parsePrice(data.price), data.storeLink, data.category)
  }

  /** The guard reads no field outside REQUIRED: editing the description or
      the store link never changes what the guard decides. */
  lemma OptionalFieldsDoNotGuard(data: FormData, field: Field, value: string)
    requires field !in REQUIRED
    ensures CanSubmit(With(data, field, value)) == CanSubmit(data)
  {
  }

  /** A fresh or reset form cannot be submitted; filling the three required
      fields with non-empty text makes it submittable, whatever else it holds. */
  lemma RequiredFieldsGuard(data: FormData, name: string, category: string, price: string)
    requires name != "" && category != "" && price != ""
    ensures !CanSubmit(EMPTY_FORM)
    ensures CanSubmit(With(With(With(data, Name, name), CategoryField, category), Price, price))
  {
  }

  class Form {
    var formData: FormData
    var isExpanded: bool

    /** A collapsed, empty form. */
    constructor ()
      ensures formData == EMPTY_FORM && !isExpanded
    {
      formData := EMPTY_FORM;
      isExpanded := false;
    }

    /** handleChange: only the named field takes the new value. */
    method Change(field: Field, value: string)
      modifies this
      ensures formData == With(old(formData), field, value)
      ensures isExpanded == old(isExpanded)
    {
      formData := With(formData, field, value);
    }

    /** handleSubmit: with a required field empty nothing happens; otherwise the
        draft is emitted, every field is cleared and the form collapses. */
    method Submit(parsePrice: string -> int) returns (submitted: Option<Draft>)
      modifies this
      ensures !CanSubmit(old(formData)) ==>
                submitted == None && formData == old(formData) && isExpanded == old(isExpanded)
      ensures CanSubmit(old(formData)) ==>
                submitted == Some(ToDraft(old(formData), parsePrice)) && formData == EMPTY_FORM && !isExpanded
    {
      if !CanSubmit(formData) {
        return None;
      }
      submitted := Some(ToDraft(formData, parsePrice));
      formData := EMPTY_FORM;
      isExpanded := false;
    }

    /** The "add" button expands the form. */
    method Expand()
      modifies this
      ensures isExpanded && formData == old(formData)
    {
      isExpanded := true;
    }

    /** The cancel button collapses the form, keeping what was typed. */
    method Cancel()
      modifies this
      ensures !isExpanded && formData == old(formData)
    {
      isExpanded := false;
    }
  }
}
