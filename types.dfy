/** The registry's record type, the closed set of household categories and the
    list the filter and the form iterate over. */
module Types {

  import opened Seqs

  /** The closed union of category labels. */
  datatype Category =
    | SalaDeEstar
    | Cozinha
    | Quarto
    | Banheiro
    | AreaExterna
    | Decoracao
    | Eletrodomesticos
    | Outros

  /** The property names every JavaScript object literal inherits from
      `Object.prototype`. Reading one of them from a `{}` record finds a value
      even though the record never stored it. */
  const INHERITED_KEYS: set<string> := {
    "__proto__", "constructor", "hasOwnProperty", "isPrototypeOf",
    "propertyIsEnumerable", "toLocaleString", "toString", "valueOf",
    "__defineGetter__", "__defineSetter__", "__lookupGetter__", "__lookupSetter__"
  }

  /** The string each category stands for; stored items carry these strings.
      A label is never empty, never the filter's `'all'` value and never an
      inherited property name, so it behaves as a plain key of a `{}` record. */
  function Label(c: Category): (s: string)
    ensures s != "" && s != "all"
    ensures s !in INHERITED_KEYS
  {
    match c
    case SalaDeEstar => "Sala de Estar"
    case Cozinha => "Cozinha"
    case Quarto => "Quarto"
    case Banheiro => "Banheiro"
    case AreaExterna => "Área Externa"
    case Decoracao => "Decoração"
    case Eletrodomesticos => "Eletrodomésticos"
    case Outros => "Outros"
  }

  /** The category list in display order. */
  const CATEGORIES: seq<Category> :=
    [SalaDeEstar, Cozinha, Quarto, Banheiro, AreaExterna, Decoracao, Eletrodomesticos, Outros]

  /** No element occurs twice. */
  predicate Distinct<T(==)>(s: seq<T>)
  {
    forall i, j :: 0 <= i < j < |s| ==> s[i] != s[j]
  }

  /** The category a label stands for, if any: the inverse of Label. */
  function FromLabel(s: string): (r: Option<Category>)
    ensures r.Some? ==> Label(r.value) == s
    ensures r.None? ==> forall c :: Label(c) != s
  {
    if s == "Sala de Estar" then Some(SalaDeEstar)
    else if s == "Cozinha" then Some(Cozinha)
    else if s == "Quarto" then Some(Quarto)
    else if s == "Banheiro" then Some(Banheiro)
    else if s == "Área Externa" then Some(AreaExterna)
    else if s == "Decoração" then Some(Decoracao)
    else if s == "Eletrodomésticos" then Some(Eletrodomesticos)
    else if s == "Outros" then Some(Outros)
    else None
  }

  /** Every label decodes back to its category, so distinct categories have distinct labels. */
  lemma LabelRoundTrip(c: Category)
    ensures FromLabel(Label(c)) == Some(c)
  {
  }

  /** True when a string is the label of one of the categories. */
  predicate IsCategoryLabel(s: string)
  {
    FromLabel(s).Some?
  }

  lemma LabelInjective(c: Category, d: Category)
    ensures Label(c) == Label(d) ==> c == d
  {
    LabelRoundTrip(c);
    LabelRoundTrip(d);
  }

  /** CATEGORIES lists the eight members of the union, each exactly once. */
  lemma CategoriesExact()
    ensures |CATEGORIES| == 8
    ensures Distinct(CATEGORIES)
    ensures forall c: Category :: c in CATEGORIES
  {
    forall c: Category ensures c in CATEGORIES {
      match c
      case SalaDeEstar => assert CATEGORIES[0] == c;
      case Cozinha => assert CATEGORIES[1] == c;
      case Quarto => assert CATEGORIES[2] == c;
      case Banheiro => assert CATEGORIES[3] == c;
      case AreaExterna => assert CATEGORIES[4] == c;
      case Decoracao => assert CATEGORIES[5] == c;
      case Eletrodomesticos => assert CATEGORIES[6] == c;
      case Outros => assert CATEGORIES[7] == c;
    }
  }

  /** The filter selection: every category, or one of them (`Category | 'all'`). */
  datatype Selection = All | Only(category: Category)

  /** The string a selection stands for in the source: `'all'` or the label. */
  function SelectionValue(selected: Selection): string
  {
    match selected
    case All => "all"
    case Only(c) => Label(c)
  }

  /** The item record. `category` is a plain string: nothing in the type keeps
      a stored item inside the closed set. Prices are exact amounts. */
  datatype Item = Item(
    id: string,
    name: string,
    description: string,
    price: int,
    storeLink: string,
    category: string,
    createdAt: int)

  /** An item without its identity: what the form submits (`Omit<Item, 'id' | 'createdAt'>`). */
  datatype Draft = Draft(
    name: string,
    description: string,
    price: int,
    storeLink: string,
    category: string)

  /** The draft part of an item. */
  function DraftOf(x: Item): Draft
  {
    Draft(x.name, x.description, x.price, x.storeLink, x.category)
  }

  /** `{ ...draft, id, createdAt }`: a new record carrying exactly the draft's fields. */
  function NewItem(d: Draft, id: string, createdAt: int): (x: Item)
    ensures x.id == id && x.createdAt == createdAt
    ensures DraftOf(x) == d
  {
    Item(id, d.name, d.description, d.price, d.storeLink, d.category, createdAt)
  }

  /** `{ ...base, ...draft }`: the draft's fields replace the base's, keeping its id and creation time. */
  function Overlay(base: Item, d: Draft): (x: Item)
    ensures x.id == base.id && x.createdAt == base.createdAt
    ensures DraftOf(x) == d
  {
    base.(name := d.name, description := d.description, price := d.price,
          storeLink := d.storeLink, category := d.category)
  }

  /** An item is determined by its identity and its draft: overlaying an item's
      own draft gives it back, and a new item is the overlay of any record with its identity. */
  lemma {:induction false} OverlayRoundTrip(x: Item, d: Draft)
    ensures Overlay(x, DraftOf(x)) == x
    ensures Overlay(NewItem(d, x.id, x.createdAt), DraftOf(x)) == x
    ensures NewItem(DraftOf(x), x.id, x.createdAt) == x
  {
  }
}
