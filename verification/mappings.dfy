/** The two closed name enumerations that the server and the training-data
    script both declare: service name to service code, and season name to
    season code. */
module Mappings {
  import opened Wrappers

  /** `service_description_mapping`. */
  const ServiceMapping: map<string, int> :=
    map["CPU_Usage" := 1, "Windows_CPU_Usage" := 2, "CPU_Usage_SQL" := 3]

  /** The three service labels, in code order. */
  const ServiceLabels: seq<string> := ["CPU_Usage", "Windows_CPU_Usage", "CPU_Usage_SQL"]

  /** `season_mapping`: lower-case and capitalised spellings of each season. */
  const SeasonMapping: map<string, int> :=
    map["winter" := 0, "spring" := 1, "summer" := 2, "autumn" := 3,
        "Winter" := 0, "Spring" := 1, "Summer" := 2, "Autumn" := 3]

  /** The four lower-case season names, in code order. */
  const SeasonNames: seq<string> := ["winter", "spring", "summer", "autumn"]

  /** Dictionary lookup as `Series.map` does it: a missing key gives NaN. */
  function ServiceCode(name: string): (r: Option<int>)
    ensures r.Some? ==> 1 <= r.value <= 3
  {
    if name in ServiceMapping then Some(ServiceMapping[name]) else None
  }

  /** The inverse direction: the name a service code stands for. */
  function ServiceLabel(code: int): (r: Option<string>)
    ensures r.Some? <==> 1 <= code <= 3
  {
    if 1 <= code <= 3 then Some(ServiceLabels[code - 1]) else None
  }

  /** The service enumeration is closed and one-to-one: a name has a code
      exactly when that code names the name back. */
  lemma ServiceMappingRoundTrip(name: string, code: int)
    ensures ServiceCode(name) == Some(code) <==> ServiceLabel(code) == Some(name)
  {
    if ServiceLabel(code) == Some(name) {
      assert code == 1 || code == 2 || code == 3;
    }
  }

  /** Only the three listed labels are mapped; everything else is NaN. */
  lemma ServiceMappingClosed(name: string)
    ensures ServiceCode(name).Some? <==> name in ServiceLabels
  {
  }

  function SeasonCode(name: string): (r: Option<int>)
    ensures r.Some? ==> 0 <= r.value <= 3
  {
    if name in SeasonMapping then Some(SeasonMapping[name]) else None
  }

  function Upper(c: char): char
  {
    if 'a' <= c <= 'z' then (c as int - 32) as char else c
  }

  /** The string with its first letter upper-cased, as `str.capitalize`
      does for an all-lower-case word. */
  function Capitalise(s: string): (r: string)
    ensures |r| == |s|
  {
    if |s| == 0 then s else [Upper(s[0])] + s[1..]
  }

  /** Both spellings of the i-th season name give code i. */
  lemma SeasonSpellings(i: nat)
    requires i < |SeasonNames|
    ensures SeasonCode(SeasonNames[i]) == Some(i)
    ensures SeasonCode(Capitalise(SeasonNames[i])) == Some(i)
  {
    assert Capitalise("winter") == "Winter";
    assert Capitalise("spring") == "Spring";
    assert Capitalise("summer") == "Summer";
    assert Capitalise("autumn") == "Autumn";
  }

  /** Nothing but the eight listed spellings is mapped. */
  lemma SeasonMappingClosed(name: string)
    ensures SeasonCode(name).Some? <==>
      exists i :: 0 <= i < |SeasonNames| && (name == SeasonNames[i] || name == Capitalise(SeasonNames[i]))
  {
    assert Capitalise("winter") == "Winter";
    assert Capitalise("spring") == "Spring";
    assert Capitalise("summer") == "Summer";
    assert Capitalise("autumn") == "Autumn";
    if SeasonCode(name).Some? {
      if name == "winter" || name == "Winter" {
        assert name == SeasonNames[0] || name == Capitalise(SeasonNames[0]);
      } else if name == "spring" || name == "Spring" {
        assert name == SeasonNames[1] || name == Capitalise(SeasonNames[1]);
      } else if name == "summer" || name == "Summer" {
        assert name == SeasonNames[2] || name == Capitalise(SeasonNames[2]);
      } else {
        assert name == SeasonNames[3] || name == Capitalise(SeasonNames[3]);
      }
    }
  }
}
