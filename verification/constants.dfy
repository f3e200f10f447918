/** The fixed tables and addresses of the scraper: the region-name table
    the URL builder normalises locations with, and the site's base URLs. */
module Constants {
  import opened Text

  const DriveBaseUrl := "https://www.drive.com.au"
  const DriveSearchBase := DriveBaseUrl + "/cars-for-sale/search/"

  /** The eight Australian state and territory codes the site uses. */
  const StateCodes: set<string> := {"nsw", "vic", "qld", "sa", "wa", "tas", "act", "nt"}

  /** The full region names the table also accepts. */
  const StateNames: set<string> := {
    "new south wales", "victoria", "queensland", "south australia",
    "western australia", "tasmania", "australian capital territory", "northern territory"
  }

  /** The region used when a location is absent or not in the table. */
  const DefaultState := "vic"

  /** Lower-case region names and abbreviations to region codes. */
  const StateMap: map<string, string> := map[
    "new south wales" := "nsw", "nsw" := "nsw",
    "victoria" := "vic", "vic" := "vic",
    "queensland" := "qld", "qld" := "qld",
    "south australia" := "sa", "sa" := "sa",
    "western australia" := "wa", "wa" := "wa",
    "tasmania" := "tas", "tas" := "tas",
    "australian capital territory" := "act", "act" := "act",
    "northern territory" := "nt", "nt" := "nt"
  ]

  /** Every code maps to itself, every value is one of the eight codes (so
      normalising an already-normalised location changes nothing), the
      fallback is a code too, and the search base extends the site base. */
  lemma StateMapCodes()
    ensures forall code :: code in StateCodes ==> code in StateMap && StateMap[code] == code
    ensures StateMap.Values == StateCodes
    ensures forall k :: k in StateMap ==> StateMap[StateMap[k]] == StateMap[k]
    ensures DefaultState in StateCodes
    ensures DriveSearchBase == DriveBaseUrl + "/cars-for-sale/search/"
  {
  }

  /** Each full name maps to the code of its abbreviation. */
  lemma StateMapFullNames()
    ensures StateMap["new south wales"] == "nsw"
    ensures StateMap["victoria"] == "vic"
    ensures StateMap["queensland"] == "qld"
    ensures StateMap["south australia"] == "sa"
    ensures StateMap["western australia"] == "wa"
    ensures StateMap["tasmania"] == "tas"
    ensures StateMap["australian capital territory"] == "act"
    ensures StateMap["northern territory"] == "nt"
  {
  }

  /** All keys are lower-case, so the builder's lower-casing of the location
      is what makes the lookup case-insensitive. */
  lemma StateMapKeysLowerCase()
    ensures forall k :: k in StateMap ==> Lower(k) == k
  {
    StateMapKeys();
    NamesLowerCase();
    CodesLowerCase();
  }

  /** The table's keys are the codes and the full names. */
  lemma StateMapKeys()
    ensures StateMap.Keys == StateCodes + StateNames
  {
  }

  lemma CodesLowerCase()
    ensures forall k :: k in StateCodes ==> Lower(k) == k
  {
    forall k | k in StateCodes ensures Lower(k) == k {
      NoUpperIsLower(k);
    }
  }

  lemma NamesLowerCase()
    ensures forall k :: k in StateNames ==> Lower(k) == k
  {
    forall k | k in StateNames ensures Lower(k) == k {
      NoUpperIsLower(k);
    }
  }

  /** Lower-casing leaves a string without upper-case letters alone. */
  lemma NoUpperIsLower(s: string)
    requires forall i :: 0 <= i < |s| ==> !IsUpperAscii(s[i])
    ensures Lower(s) == s
  {
  }
}
