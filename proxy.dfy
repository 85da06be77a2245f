/** The visitor-location builder that runs before the home page: the local hour's
    period of the day, and the location text assembled from the city, region and
    country the hosting platform's headers report. The headers (after their
    defaults and URL decoding) and the hour are inputs; the cookie is left out. */
module Proxy {
  import opened Wrappers

  /** The flag of each country code the greeting knows, written in three parts of
      fourteen codes each, in the order of the original table. */
  const CountryEmojis: map<string, string> := FlagsFirst + FlagsSecond + FlagsThird

  const FlagsFirst: map<string, string> := map[
    "US" := "🇺🇸", "CA" := "🇨🇦", "GB" := "🇬🇧", "DE" := "🇩🇪", "FR" := "🇫🇷", "JP" := "🇯🇵", "CN" := "🇨🇳",
    "KR" := "🇰🇷", "AU" := "🇦🇺", "BR" := "🇧🇷", "IN" := "🇮🇳", "MX" := "🇲🇽", "ES" := "🇪🇸", "IT" := "🇮🇹"
  ]

  const FlagsSecond: map<string, string> := map[
    "NL" := "🇳🇱", "SE" := "🇸🇪", "NO" := "🇳🇴", "DK" := "🇩🇰", "FI" := "🇫🇮", "PL" := "🇵🇱", "RU" := "🇷🇺",
    "SG" := "🇸🇬", "HK" := "🇭🇰", "TW" := "🇹🇼", "NZ" := "🇳🇿", "IE" := "🇮🇪", "CH" := "🇨🇭", "AT" := "🇦🇹"
  ]

  const FlagsThird: map<string, string> := map[
    "BE" := "🇧🇪", "PT" := "🇵🇹", "AR" := "🇦🇷", "CL" := "🇨🇱", "CO" := "🇨🇴", "TH" := "🇹🇭", "VN" := "🇻🇳",
    "PH" := "🇵🇭", "ID" := "🇮🇩", "MY" := "🇲🇾", "ZA" := "🇿🇦", "AE" := "🇦🇪", "IL" := "🇮🇱", "TR" := "🇹🇷"
  ]

  /** The names of the US state codes. */
  const UsStates: map<string, string> := map[
    "AL" := "Alabama", "AK" := "Alaska", "AZ" := "Arizona", "AR" := "Arkansas", "CA" := "California",
    "CO" := "Colorado", "CT" := "Connecticut", "DE" := "Delaware", "FL" := "Florida", "GA" := "Georgia",
    "HI" := "Hawaii", "ID" := "Idaho", "IL" := "Illinois", "IN" := "Indiana", "IA" := "Iowa",
    "KS" := "Kansas", "KY" := "Kentucky", "LA" := "Louisiana", "ME" := "Maine", "MD" := "Maryland",
    "MA" := "Massachusetts", "MI" := "Michigan", "MN" := "Minnesota", "MS" := "Mississippi", "MO" := "Missouri",
    "MT" := "Montana", "NE" := "Nebraska", "NV" := "Nevada", "NH" := "New Hampshire", "NJ" := "New Jersey",
    "NM" := "New Mexico", "NY" := "New York", "NC" := "North Carolina", "ND" := "North Dakota", "OH" := "Ohio",
    "OK" := "Oklahoma", "OR" := "Oregon", "PA" := "Pennsylvania", "RI" := "Rhode Island", "SC" := "South Carolina",
    "SD" := "South Dakota", "TN" := "Tennessee", "TX" := "Texas", "UT" := "Utah", "VT" := "Vermont",
    "VA" := "Virginia", "WA" := "Washington", "WV" := "West Virginia", "WI" := "Wisconsin", "WY" := "Wyoming",
    "DC" := "Washington D.C."
  ]

  /** The names of the country codes other than the US. */
  const CountryNames: map<string, string> := map[
    "CA" := "Canada", "GB" := "United Kingdom", "DE" := "Germany", "FR" := "France", "JP" := "Japan", "CN" := "China", "KR" := "South Korea",
    "AU" := "Australia", "BR" := "Brazil", "IN" := "India", "MX" := "Mexico", "ES" := "Spain", "IT" := "Italy", "NL" := "Netherlands",
    "SE" := "Sweden", "NO" := "Norway", "DK" := "Denmark", "FI" := "Finland", "PL" := "Poland", "RU" := "Russia", "SG" := "Singapore",
    "HK" := "Hong Kong", "TW" := "Taiwan", "NZ" := "New Zealand", "IE" := "Ireland", "CH" := "Switzerland", "AT" := "Austria", "BE" := "Belgium",
    "PT" := "Portugal", "AR" := "Argentina", "CL" := "Chile", "CO" := "Colombia", "TH" := "Thailand", "VN" := "Vietnam", "PH" := "Philippines",
    "ID" := "Indonesia", "MY" := "Malaysia", "ZA" := "South Africa", "AE" := "UAE", "IL" := "Israel", "TR" := "Turkey"
  ]

  /** A flag is the two regional indicator symbols of its code's letters. */
  function RegionalIndicator(c: char): char
    requires 'A' <= c <= 'Z'
  {
    (0x1F1E6 + (c as int - 'A' as int)) as char
  }

  predicate IsFlagOf(code: string, flag: string) {
    |code| == 2 && 'A' <= code[0] <= 'Z' && 'A' <= code[1] <= 'Z'
    && |flag| == 2 && flag[0] == RegionalIndicator(code[0]) && flag[1] == RegionalIndicator(code[1])
  }

  /** Every flag in the table is the flag of its own code. */
  lemma FlagsMatchCodes()
    ensures forall code :: code in CountryEmojis ==> IsFlagOf(code, CountryEmojis[code])
  {
    FirstFlagsMatch();
    SecondFlagsMatch();
    ThirdFlagsMatch();
    forall code | code in CountryEmojis ensures IsFlagOf(code, CountryEmojis[code]) {
      if code in FlagsThird {
        assert CountryEmojis[code] == FlagsThird[code];
      } else if code in FlagsSecond {
        assert CountryEmojis[code] == FlagsSecond[code];
      } else {
        assert CountryEmojis[code] == FlagsFirst[code];
      }
    }
  }

  lemma FirstFlagsMatch()
    ensures forall code :: code in FlagsFirst ==> IsFlagOf(code, FlagsFirst[code])
  {
  }

  lemma SecondFlagsMatch()
    ensures forall code :: code in FlagsSecond ==> IsFlagOf(code, FlagsSecond[code])
  {
  }

  lemma ThirdFlagsMatch()
    ensures forall code :: code in FlagsThird ==> IsFlagOf(code, FlagsThird[code])
  {
  }

  /** `record[key] || fallback`: the entry when it is present and not empty. */
  function LookupOr(m: map<string, string>, key: string, fallback: string): (r: string)
    ensures key in m && m[key] != "" ==> r == m[key]
    ensures !(key in m && m[key] != "") ==> r == fallback
  {
    if key in m && m[key] != "" then m[key] else fallback
  }

  /** `getTimePeriod`: the period of the day of an hour. */
  function GetTimePeriod(hour: int): (r: string)
    ensures r == "early_morning" <==> 5 <= hour < 9
    ensures r == "morning" <==> 9 <= hour < 12
    ensures r == "midday" <==> 12 <= hour < 14
    ensures r == "afternoon" <==> 14 <= hour < 17
    ensures r == "evening" <==> 17 <= hour < 21
    ensures r == "night" <==> 21 <= hour < 24
    ensures r == "late_night" <==> hour < 5 || hour >= 24
  {
    if 5 <= hour < 9 then "early_morning"
    else if 9 <= hour < 12 then "morning"
    else if 12 <= hour < 14 then "midday"
    else if 14 <= hour < 17 then "afternoon"
    else if 17 <= hour < 21 then "evening"
    else if 21 <= hour < 24 then "night"
    else "late_night"
  }

  /** The local hour: the hour part of the formatted time, with 24 read as midnight,
      or the UTC hour when the formatter gives no hour part or throws. */
  function LocalHour(hourPart: Option<int>, utcHour: int): (h: int)
    ensures hourPart.Some? && hourPart.value != 24 ==> h == hourPart.value
    ensures hourPart == Some(24) ==> h == 0
    ensures hourPart.None? ==> h == utcHour
  {
    match hourPart
    case None => utcHour
    case Some(parsed) => if parsed == 24 then 0 else parsed
  }

  /** Midnight written as 24 falls in the same period as 0. */
  lemma MidnightIsLateNight()
    ensures GetTimePeriod(LocalHour(Some(24), 0)) == GetTimePeriod(0) == "late_night"
  {
  }

  /** The flag of a country, "" for one without. */
  function Flag(country: string): (f: string)
    ensures f != "" ==> country in CountryEmojis && f == CountryEmojis[country]
    ensures country !in CountryEmojis ==> f == ""
  {
    LookupOr(CountryEmojis, country, "")
  }

  /** A known country's flag is the pair of regional indicators of its code, and a
      country with a flag has a two-letter code. */
  lemma FlagOfKnownCountry(country: string)
    ensures country in CountryEmojis ==> IsFlagOf(country, Flag(country))
    ensures Flag(country) != "" ==> |country| == 2
  {
    FlagsMatchCodes();
  }

  /** Only a country code has a flag: no country, no flag. */
  lemma FlagNeedsCountry(country: string)
    ensures Flag(country) != "" ==> country != ""
  {
    FlagOfKnownCountry(country);
  }

  /** The country's name: "USA" for the US, the table's name for a known code, and
      the code itself otherwise (so "" for no country). */
  function CountryName(country: string): (r: string)
    ensures country == "US" ==> r == "USA"
    ensures country != "US" && country in CountryNames ==> r == CountryNames[country]
    ensures country !in CountryNames && country != "US" ==> r == country
    ensures r == "" <==> country == ""
  {
    if country == "US" then "USA" else LookupOr(CountryNames, country, country)
  }

  /** The region's name, for a region the headers give: a US state code is spelled
      out when known, any other region is kept as it is. */
  function RegionName(country: string, region: string): (r: string)
    requires region != ""
    ensures country == "US" && region in UsStates && UsStates[region] != "" ==> r == UsStates[region]
    ensures !(country == "US" && region in UsStates) ==> r == region
    ensures r != ""
  {
    if country == "US" then LookupOr(UsStates, region, region) else region
  }

  /** The non-empty entries of a list, in order. */
  function NonEmpty(parts: seq<string>): (r: seq<string>)
    ensures |r| <= |parts|
    ensures forall p :: p in r ==> p != "" && p in parts
  {
    if parts == [] then []
    else if parts[0] == "" then NonEmpty(parts[1..])
    else [parts[0]] + NonEmpty(parts[1..])
  }

  /** NonEmpty of three entries, one step at a time. */
  lemma NonEmptyThree(a: string, b: string, c: string)
    ensures NonEmpty([a, b, c]) == (if a == "" then [] else [a]) + (if b == "" then [] else [b]) + (if c == "" then [] else [c])
  {
    assert [a, b, c][1..] == [b, c];
    assert [b, c][1..] == [c];
    assert [c][1..] == [];
    assert NonEmpty([c]) == (if c == "" then [] else [c]);
    assert NonEmpty([b, c]) == (if b == "" then [] else [b]) + NonEmpty([c]);
  }

  /** `parts.join(sep)`. */
  function Join(parts: seq<string>, sep: string): (r: string)
    ensures parts == [] ==> r == ""
    ensures |parts| == 1 ==> r == parts[0]
  {
    if parts == [] then ""
    else if |parts| == 1 then parts[0]
    else parts[0] + sep + Join(parts[1..], sep)
  }

  /** The location text: the non-empty parts among city, region name and country
      name, in that order, joined by ", ", then the flag after a space, or the flag
      alone when there are no parts. */
  function LocationText(city: string, region: string, country: string): string {
    var regionPart := if region == "" then "" else RegionName(country, region);
    Assemble(city, regionPart, CountryName(country), Flag(country))
  }

  /** The joining and flag step of the location, on the three parts and the flag. */
  function Assemble(city: string, regionPart: string, countryName: string, flag: string): string {
    var joined := Join(NonEmpty([city, regionPart, countryName]), ", ");
    if flag == "" then joined
    else if joined == "" then flag
    else joined + " " + flag
  }

  /** Three non-empty parts are joined in order, and the flag follows after a space. */
  lemma AssembleFull(city: string, regionPart: string, countryName: string, flag: string)
    requires city != "" && regionPart != "" && countryName != ""
    ensures Assemble(city, regionPart, countryName, flag)
              == city + ", " + regionPart + ", " + countryName + (if flag == "" then "" else " " + flag)
  {
    NonEmptyThree(city, regionPart, countryName);
    assert NonEmpty([city, regionPart, countryName]) == [city, regionPart, countryName];
    assert Join([city, regionPart, countryName], ", ") == city + ", " + regionPart + ", " + countryName by {
      assert [city, regionPart, countryName][1..] == [regionPart, countryName];
      assert [regionPart, countryName][1..] == [countryName];
    }
  }

  /** The country name alone is the whole joined text. */
  lemma AssembleCountryOnly(countryName: string, flag: string)
    ensures Assemble("", "", countryName, flag)
              == if countryName == "" then flag else countryName + (if flag == "" then "" else " " + flag)
  {
    NonEmptyThree("", "", countryName);
  }

  /** With all three headers, the location reads city, region name, country name,
      then the flag when the country has one. */
  lemma {:induction false} LocationOfFullHeaders(city: string, region: string, country: string)
    requires city != "" && region != "" && country != ""
    ensures LocationText(city, region, country)
              == city + ", " + RegionName(country, region) + ", " + CountryName(country)
                 + (if Flag(country) == "" then "" else " " + Flag(country))
  {
    AssembleFull(city, RegionName(country, region), CountryName(country), Flag(country));
  }

  /** With only a country, the location is its name and then its flag: a known
      country always brings its name, so the flag never stands alone. */
  lemma {:induction false} LocationOfCountryOnly(country: string)
    ensures LocationText("", "", country) == CountryName(country) + (if Flag(country) == "" then "" else " " + Flag(country))
  {
    FlagOfKnownCountry(country);
    AssembleCountryOnly(CountryName(country), Flag(country));
  }

  /** With no headers at all the location is empty. */
  lemma NoHeadersNoLocation()
    ensures LocationText("", "", "") == ""
  {
    LocationOfCountryOnly("");
  }

  /** The assembly in `proxy`: the parts pushed one by one, joined, and the flag
      appended. */
  method BuildLocation(city: string, region: string, country: string) returns (location: string)
    ensures location == LocationText(city, region, country)
  {
    var parts: seq<string> := [];
    if city != "" {
      parts := parts + [city];
    }
    assert parts == Present(city);
    var regionPart := if region == "" then "" else RegionName(country, region);
    if region != "" {
      var regionName := RegionName(country, region);
      parts := parts + [regionName];
    }
    assert parts == Present(city) + Present(regionPart);
    var countryName := CountryName(country);
    if countryName != "" {
      parts := parts + [countryName];
    }
    assert parts == Present(city) + Present(regionPart) + Present(countryName);
    location := Join(parts, ", ");
    var countryEmoji := Flag(country);
    if countryEmoji != "" {
      location := if location != "" then location + " " + countryEmoji else countryEmoji;
    }
    AssembleSteps(city, regionPart, countryName, countryEmoji);
    LocationTextParts(city, region, country);
  }

  /** A part as the list of it when it is not empty. */
  function Present(part: string): (r: seq<string>)
    ensures part == "" ==> r == []
    ensures part != "" ==> r == [part]
  {
    if part == "" then [] else [part]
  }

  /** The assembly spelled out as the builder does it: the present parts joined,
      then the flag. */
  lemma AssembleSteps(city: string, regionPart: string, countryName: string, flag: string)
    ensures var joined := Join(Present(city) + Present(regionPart) + Present(countryName), ", ");
            Assemble(city, regionPart, countryName, flag)
              == if flag == "" then joined else if joined != "" then joined + " " + flag else flag
  {
    NonEmptyThree(city, regionPart, countryName);
  }

  /** The location text is the assembly of its three parts and the flag. */
  lemma LocationTextParts(city: string, region: string, country: string)
    ensures LocationText(city, region, country)
         == Assemble(city, if region == "" then "" else RegionName(country, region), CountryName(country), Flag(country))
  {
  }
}
