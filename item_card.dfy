/** The item card's category badge colour. */
module ItemCard {

  import opened Types

  /** The colour table, keyed by category label. */
  const COLORS: map<string, string> := map[
    "Sala de Estar" := "bg-blue-100 text-blue-800",
    "Cozinha" := "bg-orange-100 text-orange-800",
    "Quarto" := "bg-purple-100 text-purple-800",
    "Banheiro" := "bg-cyan-100 text-cyan-800",
    "Área Externa" := "bg-green-100 text-green-800",
    "Decoração" := "bg-pink-100 text-pink-800",
    "Eletrodomésticos" := "bg-yellow-100 text-yellow-800",
    "Outros" := "bg-gray-100 text-gray-800"
  ]

  /** `getCategoryColor`: `colors[category] || colors['Outros']`. No entry of
      the table is empty, so `||` falls back exactly when the key is missing. */
  function CategoryColor(category: string): (cls: string)
    ensures cls in COLORS.Values
    ensures IsCategoryLabel(category) ==> cls == COLORS[category]
    ensures !IsCategoryLabel(category) ==> cls == COLORS[Label(Outros)]
  {
    TableKeys();
    if category in COLORS && COLORS[category] != "" then COLORS[category] else COLORS["Outros"]
  }

  /** The table is keyed by exactly the category labels. */
  lemma TableKeys()
    ensures forall s :: s in COLORS <==> IsCategoryLabel(s)
  {
    forall s ensures s in COLORS <==> IsCategoryLabel(s) {
      if s in COLORS {
        assert FromLabel(s).Some?;
      }
    }
  }

  /** Distinct categories get distinct colours. */
  lemma ColorsDistinct(c: Category, d: Category)
    requires c != d
    ensures CategoryColor(Label(c)) != CategoryColor(Label(d))
  {
    LabelRoundTrip(c);
    LabelRoundTrip(d);
  }
}
