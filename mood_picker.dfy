/** The mood picker's selection rule (`MoodPickerView`): tapping a mood selects it, tapping it again clears it. */
module MoodPicker {
  import opened Wrappers
  import opened Moods

  /** `isSelected` of the button for `mood`. */
  predicate IsSelected(selection: Option<Mood>, mood: Mood) {
    selection == Some(mood)
  }

  /** The selection after tapping `tapped`. */
  function Toggled(selection: Option<Mood>, tapped: Mood): Option<Mood> {
    if selection == Some(tapped) then None else Some(tapped)
  }

  /** Tapping the selected mood clears the selection; tapping any other selects it; so afterwards the selection is none or the tapped mood. */
  lemma ToggledSpec(selection: Option<Mood>, tapped: Mood)
    ensures IsSelected(selection, tapped) ==> Toggled(selection, tapped) == None
    ensures !IsSelected(selection, tapped) ==> IsSelected(Toggled(selection, tapped), tapped)
    ensures Toggled(selection, tapped) == None || Toggled(selection, tapped) == Some(tapped)
  {
  }

  /** Tapping the same mood twice from no selection, or from that mood, comes back to where it started. */
  lemma ToggledTwice(selection: Option<Mood>, tapped: Mood)
    requires selection == None || selection == Some(tapped)
    ensures Toggled(Toggled(selection, tapped), tapped) == selection
  {
  }

  /** Among the buttons for `Mood.allCases`, at most one is selected. */
  lemma AtMostOneSelected(selection: Option<Mood>)
    ensures forall i, j :: 0 <= i < j < |AllMoods| ==> !(IsSelected(selection, AllMoods[i]) && IsSelected(selection, AllMoods[j]))
    ensures selection.Some? ==> exists i :: 0 <= i < |AllMoods| && IsSelected(selection, AllMoods[i])
  {
    AllMoodsComplete();
    if selection.Some? {
      var i := match selection.value
        case VeryHappy => 0 case Happy => 1 case Neutral => 2 case Sad => 3 case VerySad => 4;
      assert IsSelected(selection, AllMoods[i]);
    }
  }

  /** The `selectedMood` binding the picker writes. */
  class MoodSelection {
    var selectedMood: Option<Mood>

    constructor (initial: Option<Mood>)
      ensures selectedMood == initial
    {
      selectedMood := initial;
    }

    /** The tap handler of the button for `mood`. */
    method Tap(mood: Mood)
      modifies this
      ensures selectedMood == Toggled(old(selectedMood), mood)
    {
      if selectedMood == Some(mood) {
        selectedMood := None;
      } else {
        selectedMood := Some(mood);
      }
    }
  }
}
