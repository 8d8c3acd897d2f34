/** The five moods an entry can carry (`Mood`), with their raw values, emoji and labels. */
module Moods {
  import opened Wrappers

  datatype Mood = VeryHappy | Happy | Neutral | Sad | VerySad

  /** `Mood.allCases`, in declaration order. */
  const AllMoods: seq<Mood> := [VeryHappy, Happy, Neutral, Sad, VerySad]

  /** The `String` raw value, as stored in `JournalEntry.moodRaw`. */
  function RawValue(m: Mood): string {
    match m
    case VeryHappy => "veryHappy"
    case Happy => "happy"
    case Neutral => "neutral"
    case Sad => "sad"
    case VerySad => "verySad"
  }

  /** `Mood(rawValue:)`: the mood with that raw value, or none. */
  function FromRawValue(s: string): (r: Option<Mood>)
    ensures r.Some? ==> RawValue(r.value) == s
  {
    if s == "veryHappy" then Some(VeryHappy)
    else if s == "happy" then Some(Happy)
    else if s == "neutral" then Some(Neutral)
    else if s == "sad" then Some(Sad)
    else if s == "verySad" then Some(VerySad)
    else None
  }

  function Emoji(m: Mood): string {
    match m
    case VeryHappy => "😄"
    case Happy => "🙂"
    case Neutral => "😐"
    case Sad => "😔"
    case VerySad => "😢"
  }

  function Label(m: Mood): string {
    match m
    case VeryHappy => "Très heureux"
    case Happy => "Heureux"
    case Neutral => "Neutre"
    case Sad => "Triste"
    case VerySad => "Très triste"
  }

  /** There are exactly five moods, each listed once, in declaration order. */
  lemma AllMoodsComplete()
    ensures |AllMoods| == 5
    ensures forall i, j :: 0 <= i < j < |AllMoods| ==> AllMoods[i] != AllMoods[j]
    ensures forall m: Mood :: m in AllMoods
  {
    forall m: Mood ensures m in AllMoods {
      match m
      case VeryHappy => assert AllMoods[0] == VeryHappy;
      case Happy => assert AllMoods[1] == Happy;
      case Neutral => assert AllMoods[2] == Neutral;
      case Sad => assert AllMoods[3] == Sad;
      case VerySad => assert AllMoods[4] == VerySad;
    }
  }

  /** Every mood's raw value decodes back to it, and a string that is no mood's raw value decodes to none. */
  lemma RawValueRoundTrip(m: Mood, s: string)
    ensures FromRawValue(RawValue(m)) == Some(m)
    ensures (forall m': Mood :: RawValue(m') != s) ==> FromRawValue(s) == None
  {
  }

  /** Distinct moods have distinct raw values, emoji and labels. */
  lemma MappingsInjective(a: Mood, b: Mood)
    requires a != b
    ensures RawValue(a) != RawValue(b)
    ensures Emoji(a) != Emoji(b)
    ensures Label(a) != Label(b)
  {
  }
}
