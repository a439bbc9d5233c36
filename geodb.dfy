/** The `geo_db` tables of pywebcoos/API.py and the part of `_local2ISO` that
    derives a camera's zone from its name when the asset declares none. */
module GeoDb {

  import opened Errors
  import opened Text
  import Timezones

  /** `geo_db['state_abbrevs']`: the fifty states, in list order. */
  const StateAbbrevs: seq<string> :=
    ["AL", "AK", "AZ", "AR", "CA", "CO", "CT", "DE", "FL", "GA"] +
    ["HI", "ID", "IL", "IN", "IA", "KS", "KY", "LA", "ME", "MD"] +
    ["MA", "MI", "MN", "MS", "MO", "MT", "NE", "NV", "NH", "NJ"] +
    ["NM", "NY", "NC", "ND", "OH", "OK", "OR", "PA", "RI", "SC"] +
    ["SD", "TN", "TX", "UT", "VT", "VA", "WA", "WV", "WI", "WY"]

  lemma AbbrevsAreStateTokens()
    ensures |StateAbbrevs| == 50
    ensures forall j :: 0 <= j < |StateAbbrevs| ==> IsStateToken(StateAbbrevs[j])
  {
  }

  /** `geo_db['tzs']`: state to a one-element list naming its zone family.
      Only 29 of the 50 states are present. */
  const Tzs: map<string, seq<string>> := map[
    "ME" := ["Eastern"], "NH" := ["Eastern"], "MA" := ["Eastern"], "RI" := ["Eastern"], "CT" := ["Eastern"],
    "NY" := ["Eastern"], "NJ" := ["Eastern"], "PA" := ["Eastern"], "DE" := ["Eastern"], "MD" := ["Eastern"],
    "VA" := ["Eastern"], "NC" := ["Eastern"], "SC" := ["Eastern"], "GA" := ["Eastern"], "FL" := ["Eastern"],
    "AL" := ["Central"], "MS" := ["Central"], "LA" := ["Central"], "TX" := ["Central"], "WA" := ["Pacific"],
    "OR" := ["Pacific"], "CA" := ["Pacific"], "MI" := ["Central"], "IL" := ["Central"], "IN" := ["Central"],
    "OH" := ["Eastern"], "WI" := ["Central"], "AK" := ["Alaska"], "HI" := ["Hawaii"]]

  /** `geo_db['tz_formals']`: zone family to a one-element list holding the
      zone name handed to pytz. */
  const TzFormals: map<string, seq<string>> := map[
    "Eastern" := [Timezones.NewYork],
    "Central" := [Timezones.Chicago],
    "Pacific" := [Timezones.LosAngeles],
    "Alaska" := [Timezones.Nome],
    "Hawaii" := [Timezones.Hawaii]]

  /** `geo_db['tz_formals'][tz[0]][0]` for the list `tz` a state maps to. */
  function FormalZone(tz: seq<string>): Result<string>
  {
    if |tz| == 0 then Err(IndexError)
    else if tz[0] !in TzFormals then Err(KeyError(tz[0]))
    else if |TzFormals[tz[0]]| == 0 then Err(IndexError)
    else Ok(TzFormals[tz[0]][0])
  }

  /** Every family a state maps to has a formal zone name. */
  lemma TablesLinked()
    ensures forall s :: s in Tzs ==> FormalZone(Tzs[s]).Ok? && FormalZone(Tzs[s]).value in Timezones.Zones
  {
    forall s | s in Tzs
      ensures FormalZone(Tzs[s]).Ok? && FormalZone(Tzs[s]).value in Timezones.Zones
    {
      assert Tzs[s] in {["Eastern"], ["Central"], ["Pacific"], ["Alaska"], ["Hawaii"]};
    }
  }

  /** The name heuristic of `_local2ISO`: the first state of the list, in
      list order, whose abbreviation follows a space in the name, looked up
      in `tzs` and then `tz_formals`. With no such state, `[0]` of the empty
      selection raises IndexError; a matched state missing from `tzs`
      raises KeyError. Neither is the ValueError the handler around it
      catches, so no name ever falls back to UTC. */
  function DeriveTimezone(cameraName: string): (r: Result<string>)
    ensures r == Err(IndexError) <==>
      forall j :: 0 <= j < |StateAbbrevs| ==> !HasSpacedToken(cameraName, StateAbbrevs[j])
    ensures r.Err? && r.error != IndexError ==>
      exists i :: 0 <= i < |StateAbbrevs| && FirstStateIs(cameraName, i) && r.error == KeyError(StateAbbrevs[i]) && StateAbbrevs[i] !in Tzs
    ensures r.Ok? ==> r.value in Timezones.Zones
    ensures r != Ok("UTC") && (r.Err? ==> !r.error.ValueError?)
  {
    TablesLinked();
    match FirstSpacedToken(cameraName, StateAbbrevs)
    case None => Err(IndexError)
    case Some(i) =>
      var state := StateAbbrevs[i];
      if state !in Tzs then Err(KeyError(state))
      else FormalZone(Tzs[state])
  }

  /** State `i` is the first in list order whose abbreviation follows a space. */
  /** Whichever state matches first decides the result: its formal zone
      when `tzs` lists it, KeyError on its abbreviation otherwise. */
  lemma DeriveTimezoneFirstState(cameraName: string, i: nat)
    requires i < |StateAbbrevs| && FirstStateIs(cameraName, i)
    ensures DeriveTimezone(cameraName) ==
      if StateAbbrevs[i] in Tzs then FormalZone(Tzs[StateAbbrevs[i]]) else Err(KeyError(StateAbbrevs[i]))
  {
    FirstSpacedTokenAt(cameraName, StateAbbrevs, i);
  }

  /** A zone is only ever derived from the first matched state, through
      `tzs` and `tz_formals`. */
  lemma DerivedZoneMatched(cameraName: string)
    ensures DeriveTimezone(cameraName).Ok? ==>
      exists i :: 0 <= i < |StateAbbrevs| && FirstStateIs(cameraName, i) && StateAbbrevs[i] in Tzs &&
        DeriveTimezone(cameraName) == FormalZone(Tzs[StateAbbrevs[i]])
  {
    match FirstSpacedToken(cameraName, StateAbbrevs)
    case None =>
    case Some(i) =>
      assert FirstStateIs(cameraName, i);
  }

  predicate FirstStateIs(cameraName: string, i: nat)
    requires i < |StateAbbrevs|
  {
    && HasSpacedToken(cameraName, StateAbbrevs[i])
    && forall j :: 0 <= j < i ==> !HasSpacedToken(cameraName, StateAbbrevs[j])
  }

  /** The two tables agree: they have the same 29 states, and each state's
      family in `tzs`, read through `tz_formals`, is the zone
      TIMEZONES_BY_STATE gives it. */
  lemma TablesAgree()
    ensures forall i :: 0 <= i < |Timezones.TimezonesByState| ==>
      Timezones.TimezonesByState[i].0 in Tzs &&
      FormalZone(Tzs[Timezones.TimezonesByState[i].0]) == Ok(Timezones.TimezonesByState[i].1)
    ensures Tzs.Keys == set k | k in Timezones.StateKeys()
  {
    RowsMaineToMassachusetts();
    RowsRhodeIslandToNewYork();
    RowsNewJerseyToNorthCarolina();
    RowsSouthCarolinaToMississippi();
    RowsLouisianaToWisconsin();
    RowsWashingtonToHawaii();
    Timezones.StateKeysListed();
  }

  /** `tzs` then `tz_formals` take state `k` to zone `v`. */
  predicate RowAgrees(k: string, v: string)
  {
    k in Tzs && |Tzs[k]| > 0 && Tzs[k][0] in TzFormals && |TzFormals[Tzs[k][0]]| > 0 && TzFormals[Tzs[k][0]][0] == v
  }

  // The rows are checked a few at a time: one quantified check over all 29
  // lookups in the map literals is costly for the solver.

  /** Rows 0-2, Maine to Massachusetts. */
  lemma RowsMaineToMassachusetts()
    ensures forall i :: 0 <= i < 3 ==> RowAgrees(Timezones.TimezonesByState[i].0, Timezones.TimezonesByState[i].1)
  {
  }

  /** Rows 3-5, Rhode Island to New York. */
  lemma RowsRhodeIslandToNewYork()
    ensures forall i :: 3 <= i < 6 ==> RowAgrees(Timezones.TimezonesByState[i].0, Timezones.TimezonesByState[i].1)
  {
  }

  /** Rows 6-11, New Jersey to North Carolina. */
  lemma RowsNewJerseyToNorthCarolina()
    ensures forall i :: 6 <= i < 12 ==> RowAgrees(Timezones.TimezonesByState[i].0, Timezones.TimezonesByState[i].1)
  {
  }

  /** Rows 12-17, South Carolina to Mississippi. */
  lemma RowsSouthCarolinaToMississippi()
    ensures forall i :: 12 <= i < 18 ==> RowAgrees(Timezones.TimezonesByState[i].0, Timezones.TimezonesByState[i].1)
  {
  }

  /** Rows 18-23, Louisiana to Wisconsin. */
  lemma RowsLouisianaToWisconsin()
    ensures forall i :: 18 <= i < 24 ==> RowAgrees(Timezones.TimezonesByState[i].0, Timezones.TimezonesByState[i].1)
  {
  }

  /** Rows 24-28, Washington to Hawaii. */
  lemma RowsWashingtonToHawaii()
    ensures forall i :: 24 <= i < 29 ==> RowAgrees(Timezones.TimezonesByState[i].0, Timezones.TimezonesByState[i].1)
  {
  }

  /** A camera named without a state token has no derivable zone: the
      IndexError of the Sausalito camera. */
  lemma SausalitoHasNoState(cameraName: string)
    requires cameraName == "Sausalito - Galilee Harbor"
    ensures DeriveTimezone(cameraName) == Err(IndexError)
  {
    assert forall i :: 0 <= i < |cameraName| - 2 && cameraName[i] == ' ' ==> i == 9 || i == 11 || i == 19;
    AbbrevsAreStateTokens();
    NoCapitalPairs(cameraName, StateAbbrevs);
  }

  /** A state listed but absent from `tzs` (Arizona) raises KeyError. */
  lemma ArizonaIsKeyError(cameraName: string)
    requires cameraName == "Tempe, AZ"
    ensures DeriveTimezone(cameraName) == Err(KeyError("AZ"))
  {
    ArizonaIsFirstState(cameraName);
  }

  lemma ArizonaIsFirstState(cameraName: string)
    requires cameraName == "Tempe, AZ"
    ensures FirstSpacedToken(cameraName, StateAbbrevs) == Some(2)
  {
    assert forall i :: 0 <= i < |cameraName| - 2 && cameraName[i] == ' ' ==> i == 6;
    NoSpacedPairs(cameraName, StateAbbrevs, 2);
    SpacedPair(cameraName, StateAbbrevs[2]);
    assert cameraName[6] == ' ' && cameraName[7] == StateAbbrevs[2][0] && cameraName[8] == StateAbbrevs[2][1];
    FirstSpacedTokenAt(cameraName, StateAbbrevs, 2);
  }

  /** The two heuristics scan in different orders, so a name with two state
      tokens can get different zones from them. */
  lemma HeuristicsCanDisagree(cameraName: string)
    requires cameraName == "Border Cam, CA MI"
    ensures DeriveTimezone(cameraName) == Ok(Timezones.LosAngeles)
    ensures Timezones.FromName(cameraName) == Ok(Timezones.Chicago)
  {
    BorderDerivedZone(cameraName);
    BorderNamedZone(cameraName);
  }

  /** The `geo_db` heuristic reads California: Pacific, America/Los_Angeles. */
  lemma BorderDerivedZone(cameraName: string)
    requires cameraName == "Border Cam, CA MI"
    ensures DeriveTimezone(cameraName) == Ok(Timezones.LosAngeles)
  {
    BorderStateIsCalifornia(cameraName);
    assert StateAbbrevs[4] == "CA";
    assert Tzs["CA"] == ["Pacific"];
    assert FormalZone(["Pacific"]) == Ok(Timezones.LosAngeles);
  }

  /** `from_name` reads Michigan: America/Chicago. */
  lemma BorderNamedZone(cameraName: string)
    requires cameraName == "Border Cam, CA MI"
    ensures Timezones.FromName(cameraName) == Ok(Timezones.Chicago)
  {
    BorderKeyIsMichigan(cameraName);
    assert Timezones.TimezonesByState[20].1 == Timezones.Chicago;
  }

  /** In `state_abbrevs` order California (index 4) comes before Michigan. */
  lemma BorderStateIsCalifornia(cameraName: string)
    requires cameraName == "Border Cam, CA MI"
    ensures FirstSpacedToken(cameraName, StateAbbrevs) == Some(4)
  {
    assert forall i :: 0 <= i < |cameraName| - 2 && cameraName[i] == ' ' ==> i == 6 || i == 11 || i == 14;
    NoSpacedPairs(cameraName, StateAbbrevs, 4);
    SpacedPair(cameraName, StateAbbrevs[4]);
    assert cameraName[11] == ' ' && cameraName[12] == StateAbbrevs[4][0] && cameraName[13] == StateAbbrevs[4][1];
    FirstSpacedTokenAt(cameraName, StateAbbrevs, 4);
  }

  /** In TIMEZONES_BY_STATE order Michigan (index 20) comes before California. */
  lemma BorderKeyIsMichigan(cameraName: string)
    requires cameraName == "Border Cam, CA MI"
    ensures FirstSpacedToken(cameraName, Timezones.StateKeys()) == Some(20)
  {
    Timezones.StateKeysListed();
    var keys := Timezones.Keys29;
    assert forall i :: 0 <= i < |cameraName| - 2 && cameraName[i] == ' ' ==> i == 6 || i == 11 || i == 14;
    NoSpacedPairs(cameraName, keys, 20);
    SpacedPair(cameraName, keys[20]);
    assert cameraName[14] == ' ' && cameraName[15] == keys[20][0] && cameraName[16] == keys[20][1];
    FirstSpacedTokenAt(cameraName, keys, 20);
  }
}
