/** `ThemeRepository`: the dark-mode flag, mirrored into a preferences store. */
module ThemeRepository {

  /** The preference key the flag is stored under. */
  const PrefDarkMode := "is_dark_mode"

  /** `getBoolean(PREF_DARK_MODE, false)`: the stored flag, false when the
      key is absent. */
  function StoredPreference(prefs: map<string, bool>): (b: bool)
    ensures PrefDarkMode !in prefs ==> !b
    ensures PrefDarkMode in prefs ==> b == prefs[PrefDarkMode]
  {
    if PrefDarkMode in prefs then prefs[PrefDarkMode] else false
  }

  /** The flag in memory and the preferences map. */
  datatype ThemeState = ThemeState(isDarkMode: bool, prefs: map<string, bool>)

  /** The state after `toggleDarkMode()`: the flag is negated and saved. */
  function Toggled(s: ThemeState): (r: ThemeState)
    ensures r.isDarkMode == !s.isDarkMode
    ensures StoredPreference(r.prefs) == r.isDarkMode
    ensures forall k :: k != PrefDarkMode ==> (k in r.prefs <==> k in s.prefs)
    ensures forall k :: k != PrefDarkMode && k in s.prefs ==> r.prefs[k] == s.prefs[k]
  {
    var newMode := !s.isDarkMode;
    ThemeState(newMode, s.prefs[PrefDarkMode := newMode])
  }

  /** The flag agrees with what is stored. */
  predicate Consistent(s: ThemeState) {
    s.isDarkMode == StoredPreference(s.prefs)
  }

  /** Toggling keeps the flag and the store in agreement. */
  lemma ToggledConsistent(s: ThemeState)
    ensures Consistent(Toggled(s))
  {
  }

  /** Toggling twice restores the flag, and the stored value once the two
      agreed before; the map then differs at most by holding the key. */
  lemma ToggleTwice(s: ThemeState)
    ensures Toggled(Toggled(s)).isDarkMode == s.isDarkMode
    ensures Toggled(Toggled(s)).prefs == s.prefs[PrefDarkMode := s.isDarkMode]
    ensures Consistent(s) ==> StoredPreference(Toggled(Toggled(s)).prefs) == StoredPreference(s.prefs)
  {
  }

  class ThemeRepository {
    var isDarkMode: bool
    /** Stands in for the `theme_prefs` shared preferences. */
    var prefs: map<string, bool>

    function State(): ThemeState
      reads this
    {
      ThemeState(isDarkMode, prefs)
    }

    /** The flag starts as the stored preference, false when none is stored. */
    constructor (prefs: map<string, bool>)
      ensures this.prefs == prefs
      ensures isDarkMode == StoredPreference(prefs)
      ensures Consistent(State())
    {
      this.prefs := prefs;
      isDarkMode := StoredPreference(prefs);
    }

    /** `toggleDarkMode()`. */
    method ToggleDarkMode()
      modifies this
      ensures State() == Toggled(old(State()))
      ensures isDarkMode == !old(isDarkMode)
      ensures StoredPreference(prefs) == isDarkMode
    {
      var newMode := !isDarkMode;
      isDarkMode := newMode;
      prefs := prefs[PrefDarkMode := newMode];
    }
  }
}
