/** The six themes a prompt belongs to (`PromptCategory`), with raw values, labels and icon names. */
module Categories {
  import opened Wrappers

  datatype PromptCategory = Gratitude | Reflection | Growth | Mindfulness | Relationships | Goals

  /** `PromptCategory.allCases`, in declaration order. */
  const AllCategories: seq<PromptCategory> := [Gratitude, Reflection, Growth, Mindfulness, Relationships, Goals]

  /** The `String` raw value, as stored in `DailyPrompt.categoryRaw` and in the prompt catalog. */
  function RawValue(c: PromptCategory): string {
    match c
    case Gratitude => "gratitude"
    case Reflection => "reflection"
    case Growth => "growth"
    case Mindfulness => "mindfulness"
    case Relationships => "relationships"
    case Goals => "goals"
  }

  /** `PromptCategory(rawValue:)`: the category with that raw value, or none. */
  function FromRawValue(s: string): (r: Option<PromptCategory>)
    ensures r.Some? ==> RawValue(r.value) == s
  {
    if s == "gratitude" then Some(Gratitude)
    else if s == "reflection" then Some(Reflection)
    else if s == "growth" then Some(Growth)
    else if s == "mindfulness" then Some(Mindfulness)
    else if s == "relationships" then Some(Relationships)
    else if s == "goals" then Some(Goals)
    else None
  }

  function Label(c: PromptCategory): string {
    match c
    case Gratitude => "Gratitude"
    case Reflection => "Réflexion"
    case Growth => "Croissance"
    case Mindfulness => "Pleine conscience"
    case Relationships => "Relations"
    case Goals => "Objectifs"
  }

  /** SF Symbols name of the category's icon. */
  function Icon(c: PromptCategory): string {
    match c
    case Gratitude => "heart.fill"
    case Reflection => "brain.head.profile"
    case Growth => "leaf.fill"
    case Mindfulness => "sparkles"
    case Relationships => "person.2.fill"
    case Goals => "target"
  }

  /** There are exactly six categories, each listed once, in declaration order. */
  lemma AllCategoriesComplete()
    ensures |AllCategories| == 6
    ensures forall i, j :: 0 <= i < j < |AllCategories| ==> AllCategories[i] != AllCategories[j]
    ensures forall c: PromptCategory :: c in AllCategories
  {
    forall c: PromptCategory ensures c in AllCategories {
      match c
      case Gratitude => assert AllCategories[0] == Gratitude;
      case Reflection => assert AllCategories[1] == Reflection;
      case Growth => assert AllCategories[2] == Growth;
      case Mindfulness => assert AllCategories[3] == Mindfulness;
      case Relationships => assert AllCategories[4] == Relationships;
      case Goals => assert AllCategories[5] == Goals;
    }
  }

  /** Every category's raw value decodes back to it, and any other string decodes to none. */
  lemma RawValueRoundTrip(c: PromptCategory, s: string)
    ensures FromRawValue(RawValue(c)) == Some(c)
    ensures (forall c': PromptCategory :: RawValue(c') != s) ==> FromRawValue(s) == None
  {
  }

  /** Distinct categories have distinct raw values, labels and icons. */
  lemma MappingsInjective(a: PromptCategory, b: PromptCategory)
    requires a != b
    ensures RawValue(a) != RawValue(b)
    ensures Label(a) != Label(b)
    ensures Icon(a) != Icon(b)
  {
  }
}
