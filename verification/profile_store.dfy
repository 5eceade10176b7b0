/** The session's list of career profiles and the selected one (src/App.tsx). */
module ProfileStore {
  import opened Wrappers
  import opened CareerData

  /** `careerProfiles` and `selectedCareerProfileIndex` (`null` is None). */
  datatype Store = Store(profiles: seq<Profile>, selectedIndex: Option<int>)

  const Empty: Store := Store([], None)

  /** `addCareerProfile`: appends at the end; earlier profiles and the
      selection are untouched. */
  function AddCareerProfile(s: Store, profile: Profile): (r: Store)
    ensures |r.profiles| == |s.profiles| + 1
    ensures r.profiles[..|s.profiles|] == s.profiles && r.profiles[|s.profiles|] == profile
    ensures r.selectedIndex == s.selectedIndex
  {
    s.(profiles := s.profiles + [profile])
  }

  /** `selectCareerProfile`: records the index as given, or no selection. */
  function SelectCareerProfile(s: Store, index: Option<int>): (r: Store)
    ensures r.profiles == s.profiles && r.selectedIndex == index
  {
    s.(selectedIndex := index)
  }

  /** `selectedCareerProfile`: the profile at the selected index. An index
      outside the list reads as `undefined`, which every consumer treats
      like no selection. */
  function SelectedCareerProfile(s: Store): (r: Option<Profile>)
    ensures r.Some? <==> s.selectedIndex.Some? && 0 <= s.selectedIndex.value < |s.profiles|
    ensures r.Some? ==> r.value == s.profiles[s.selectedIndex.value]
  {
    match s.selectedIndex
    case None => None
    case Some(i) => if 0 <= i < |s.profiles| then Some(s.profiles[i]) else None
  }

  /** Adding a profile never changes which profile is selected, and selecting
      the old length right after an add selects the new profile. */
  lemma AddThenSelect(s: Store, profile: Profile)
    ensures SelectedCareerProfile(s) == None || SelectedCareerProfile(AddCareerProfile(s, profile)) == SelectedCareerProfile(s)
    ensures SelectedCareerProfile(SelectCareerProfile(AddCareerProfile(s, profile), Some(|s.profiles|))) == Some(profile)
  {
  }
}
