/** A journal record (`JournalEntry`): text, timestamps, an optional mood and an optional link to a prompt. */
module JournalEntries {
  import opened Wrappers
  import opened Dates
  import Moods
  import opened DailyPrompts

  /** Stands for the entry's `UUID`. */
  type EntryId = nat

  datatype JournalEntry = JournalEntry(
    id: EntryId,
    content: string,
    createdAt: Timestamp,
    updatedAt: Timestamp,
    moodRaw: Option<string>,
    prompt: Option<PromptId>)
  {
    /** The `mood` getter: none when no raw value is stored or the stored one names no mood. */
    function Mood(): (m: Option<Moods.Mood>)
      ensures moodRaw.None? ==> m.None?
      ensures forall k: Moods.Mood :: moodRaw == Some(Moods.RawValue(k)) ==> m == Some(k)
      ensures moodRaw.Some? && (forall k: Moods.Mood :: Moods.RawValue(k) != moodRaw.value) ==> m.None?
    {
      Moods.RawValueRoundTrip(Moods.Neutral, moodRaw.GetOr(""));
      match moodRaw
      case None => None
      case Some(raw) => Moods.FromRawValue(raw)
    }

    /** The `mood` setter: stores the raw value of `m`, or nothing. */
    function WithMood(m: Option<Moods.Mood>): (e: JournalEntry)
      ensures e.Mood() == m
      ensures e.id == id && e.content == content && e.createdAt == createdAt
      ensures e.updatedAt == updatedAt && e.prompt == prompt
    {
      this.(moodRaw := if m.Some? then Some(Moods.RawValue(m.value)) else None)
    }
  }

  /** `JournalEntry.init`, with its defaults: empty text, no mood, no prompt, both timestamps `now`. */
  function NewEntry(id: EntryId, now: Timestamp, content: string := "",
                    mood: Option<Moods.Mood> := None, prompt: Option<PromptId> := None): (e: JournalEntry)
    ensures e.id == id && e.content == content && e.prompt == prompt
    ensures e.createdAt == now && e.updatedAt == now
    ensures e.Mood() == mood
  {
    JournalEntry(id, content, now, now, if mood.Some? then Some(Moods.RawValue(mood.value)) else None, prompt)
  }

  /** Setting a mood (or none) and reading it back gives what was set; a raw value that names no mood reads as none. */
  lemma MoodRoundTrip(e: JournalEntry, m: Option<Moods.Mood>)
    ensures e.WithMood(m).Mood() == m
    ensures e.moodRaw.None? ==> e.Mood().None?
    ensures e.moodRaw.Some? && (forall m': Moods.Mood :: Moods.RawValue(m') != e.moodRaw.value) ==> e.Mood().None?
  {
    if e.moodRaw.Some? {
      Moods.RawValueRoundTrip(Moods.Neutral, e.moodRaw.value);
    }
  }

  /** A fresh entry has empty text, no prompt and reads back the mood it was created with. */
  lemma NewEntryDefaults(id: EntryId, now: Timestamp, m: Option<Moods.Mood>)
    ensures NewEntry(id, now).content == "" && NewEntry(id, now).Mood().None? && NewEntry(id, now).prompt.None?
    ensures NewEntry(id, now, mood := m).Mood() == m
  {
  }
}
