/** The standalone state table and its name heuristic (pywebcoos/timezones.py). */
module Timezones {

  import opened Errors
  import opened Text

  const NewYork: string := "America/New_York"
  const Chicago: string := "America/Chicago"
  const LosAngeles: string := "America/Los_Angeles"
  const Nome: string := "America/Nome"
  const Hawaii: string := "US/Hawaii"

  /** The five zone names the table can produce. */
  const Zones: set<string> := {NewYork, Chicago, LosAngeles, Nome, Hawaii}

  /** TIMEZONES_BY_STATE, in the dictionary's insertion order. */
  const TimezonesByState: seq<(string, string)> := [
    ("ME", NewYork), ("NH", NewYork), ("MA", NewYork), ("RI", NewYork),
    ("CT", NewYork), ("NY", NewYork), ("NJ", NewYork), ("PA", NewYork),
    ("DE", NewYork), ("MD", NewYork), ("VA", NewYork), ("NC", NewYork),
    ("SC", NewYork), ("GA", NewYork), ("FL", NewYork), ("OH", NewYork),
    ("AL", Chicago), ("MS", Chicago), ("LA", Chicago), ("TX", Chicago),
    ("MI", Chicago), ("IL", Chicago), ("IN", Chicago), ("WI", Chicago),
    ("WA", LosAngeles), ("OR", LosAngeles), ("CA", LosAngeles),
    ("AK", Nome),
    ("HI", Hawaii)
  ]

  /** `list(TIMEZONES_BY_STATE.keys())` */
  function StateKeys(): seq<string> {
    seq(|TimezonesByState|, i requires 0 <= i < |TimezonesByState| => TimezonesByState[i].0)
  }

  /** `from_name`: the zone of the first key, in table order, that occurs in
      the name right after a space; otherwise the ValueError. Indexing the
      table by position is the dictionary lookup because its keys are
      distinct (`KeysDistinct`). */
  function FromName(cameraName: string): (r: Result<string>)
    ensures r.Err? <==> forall j :: 0 <= j < |StateKeys()| ==> !HasSpacedToken(cameraName, StateKeys()[j])
    ensures r.Err? ==> r.error == ValueError(NoStateMessage)
    ensures r.Ok? ==> exists i :: 0 <= i < |TimezonesByState| && FirstMatchIs(cameraName, i) && r.value == TimezonesByState[i].1
  {
    match FirstSpacedToken(cameraName, StateKeys())
    case None => Err(ValueError(NoStateMessage))
    case Some(i) => Ok(TimezonesByState[i].1)
  }

  /** Key `i` is the first key in table order whose spaced token occurs in the name. */
  predicate FirstMatchIs(cameraName: string, i: nat)
    requires i < |StateKeys()|
  {
    && HasSpacedToken(cameraName, StateKeys()[i])
    && forall j :: 0 <= j < i ==> !HasSpacedToken(cameraName, StateKeys()[j])
  }

  /** The keys, written out in table order. */
  const Keys29: seq<string> := [
    "ME", "NH", "MA", "RI", "CT", "NY", "NJ", "PA", "DE", "MD", "VA", "NC", "SC", "GA", "FL", "OH",
    "AL", "MS", "LA", "TX", "MI", "IL", "IN", "WI", "WA", "OR", "CA", "AK", "HI"]

  lemma StateKeysListed()
    ensures StateKeys() == Keys29
  {
  }

  /** The table is a dictionary: no key is listed twice. */
  lemma KeysDistinct()
    ensures |StateKeys()| == 29
    ensures forall i, j :: 0 <= i < j < |StateKeys()| ==> StateKeys()[i] != StateKeys()[j]
  {
    StateKeysListed();
    forall i | 0 <= i < |Keys29| {
      KeyUnrepeated(i);
    }
  }

  /** Every key is two capital letters. */
  lemma KeysAreStateTokens()
    ensures forall j :: 0 <= j < |Keys29| ==> IsStateToken(Keys29[j])
  {
  }

  lemma KeyUnrepeated(i: int)
    requires 0 <= i < |Keys29|
    ensures forall j :: i < j < |Keys29| ==> Keys29[i] != Keys29[j]
  {
  }

  /** Every successful result is one of the five zone names. */
  lemma FromNameInZones(cameraName: string)
    ensures FromName(cameraName).Ok? ==> FromName(cameraName).value in Zones
  {
    forall i | 0 <= i < |TimezonesByState| ensures TimezonesByState[i].1 in Zones {
    }
  }

  /** A name containing " SC" and none of the earlier keys resolves to Eastern time. */
  lemma FromNameCharleston(cameraName: string)
    requires cameraName == "Charleston Harbor, SC"
    ensures FromName(cameraName) == Ok(NewYork)
  {
    assert |cameraName| == 21;
    assert forall i :: 0 <= i < |cameraName| - 2 && cameraName[i] == ' ' ==> i == 10 || i == 18;
    assert cameraName[11] == 'H' && cameraName[12] == 'a';
    assert cameraName[18] == ' ' && cameraName[19] == 'S' && cameraName[20] == 'C';
    SpacedAtTenAndEighteen(cameraName);
  }

  /** The first match of a name whose only spaces are followed by "Ha" and
      by "SC" is the key "SC". */
  lemma SpacedAtTenAndEighteen(cameraName: string)
    requires |cameraName| == 21
    requires forall i :: 0 <= i < |cameraName| - 2 && cameraName[i] == ' ' ==> i == 10 || i == 18
    requires cameraName[11] == 'H' && cameraName[12] == 'a'
    requires cameraName[18] == ' ' && cameraName[19] == 'S' && cameraName[20] == 'C'
    ensures FromName(cameraName) == Ok(NewYork)
  {
    StateKeysListed();
    EarlierKeysAbsent(cameraName);
    SpacedPair(cameraName, Keys29[12]);
    assert cameraName[18] == ' ' && cameraName[19] == Keys29[12][0] && cameraName[20] == Keys29[12][1];
    FirstSpacedTokenAt(cameraName, Keys29, 12);
    assert TimezonesByState[12].1 == NewYork;
  }

  /** No key listed before "SC" follows a space in such a name. */
  lemma EarlierKeysAbsent(cameraName: string)
    requires |cameraName| == 21
    requires forall i :: 0 <= i < |cameraName| - 2 && cameraName[i] == ' ' ==> i == 10 || i == 18
    requires cameraName[11] == 'H' && cameraName[12] == 'a'
    requires cameraName[18] == ' ' && cameraName[19] == 'S' && cameraName[20] == 'C'
    ensures forall j :: 0 <= j < 12 ==> !HasSpacedToken(cameraName, Keys29[j])
  {
    KeysAreStateTokens();
    forall i, j | 0 <= i < |cameraName| - 2 && cameraName[i] == ' ' && 0 <= j < 12
      ensures cameraName[i + 1] != Keys29[j][0] || cameraName[i + 2] != Keys29[j][1]
    {
      if i == 18 {
        KeyUnrepeated(j);
        assert Keys29[12] == [cameraName[19], cameraName[20]];
      } else {
        assert IsStateToken(Keys29[j]);
      }
    }
    NoSpacedPairs(cameraName, Keys29, 12);
  }

  /** A state abbreviation at the very start of the name does not match. */
  lemma FromNameAtStart(cameraName: string)
    requires cameraName == "SC harbor"
    ensures FromName(cameraName) == Err(ValueError(NoStateMessage))
  {
    StateKeysListed();
    assert forall i :: 0 <= i < |cameraName| - 2 && cameraName[i] == ' ' ==> i == 2;
    NoCapitalPairs(cameraName, Keys29);
  }

  /** An abbreviation glued to the previous word does not match. */
  lemma FromNameGlued(cameraName: string)
    requires cameraName == "Folly Beach,SC"
    ensures FromName(cameraName) == Err(ValueError(NoStateMessage))
  {
    StateKeysListed();
    assert forall i :: 0 <= i < |cameraName| - 2 && cameraName[i] == ' ' ==> i == 5;
    NoCapitalPairs(cameraName, Keys29);
  }
}
