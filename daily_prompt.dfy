/** A reflective question shown to the user (`DailyPrompt`), and a prompt catalog record (`PromptData`). */
module DailyPrompts {
  import opened Wrappers
  import opened Dates
  import opened Categories

  /** Stands for the prompt's `UUID`. */
  type PromptId = nat

  datatype DailyPrompt = DailyPrompt(
    id: PromptId,
    text: string,
    categoryRaw: string,
    scheduledDate: Option<Timestamp>,
    lastUsedDate: Option<Timestamp>)
  {
    /** The `category` getter: the stored raw value decoded, `.reflection` when it is not a category's. */
    function Category(): (c: PromptCategory)
      ensures forall k: PromptCategory :: RawValue(k) == categoryRaw ==> c == k
      ensures (forall k: PromptCategory :: RawValue(k) != categoryRaw) ==> c == Reflection
    {
      RawValueRoundTrip(Reflection, categoryRaw);
      FromRawValue(categoryRaw).GetOr(Reflection)
    }

    /** The `category` setter. */
    function WithCategory(c: PromptCategory): (p: DailyPrompt)
      ensures p.Category() == c
      ensures p.id == id && p.text == text && p.scheduledDate == scheduledDate && p.lastUsedDate == lastUsedDate
    {
      RawValueRoundTrip(c, "");
      this.(categoryRaw := RawValue(c))
    }
  }

  /** `DailyPrompt.init`, with its defaults: no scheduled date, never used. */
  function NewPrompt(id: PromptId, text: string, category: PromptCategory,
                     scheduledDate: Option<Timestamp> := None, lastUsedDate: Option<Timestamp> := None): (p: DailyPrompt)
    ensures p.id == id && p.text == text && p.Category() == category
    ensures p.categoryRaw == RawValue(category)
    ensures p.scheduledDate == scheduledDate && p.lastUsedDate == lastUsedDate
  {
    RawValueRoundTrip(category, "");
    DailyPrompt(id, text, RawValue(category), scheduledDate, lastUsedDate)
  }

  /** One record of the bundled prompt catalog (`PromptData`). */
  datatype PromptData = PromptData(text: string, category: PromptCategory)

  /** Setting the category and reading it back gives the category set; a raw value that names no category reads as `.reflection`. */
  lemma CategoryRoundTrip(p: DailyPrompt, c: PromptCategory)
    ensures p.WithCategory(c).Category() == c
    ensures (forall c': PromptCategory :: RawValue(c') != p.categoryRaw) ==> p.Category() == Reflection
  {
    RawValueRoundTrip(c, p.categoryRaw);
  }
}
