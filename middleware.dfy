/** The visitor greeting of the older middleware: a greeting for the local hour,
    followed by where the visitor is from. The country and city headers (after
    their defaults and URL decoding) and the hour are inputs; the cookie is left
    out. The flag table is the same as the location builder's. */
module Middleware {
  import opened Wrappers
  import Proxy

  /** `getTimeGreeting`. */
  function GetTimeGreeting(hour: int): string {
    if 5 <= hour < 9 then "Rise and shine ☀️"
    else if 9 <= hour < 12 then "Good morning ☕"
    else if 12 <= hour < 14 then "Hope you're having a great day 🌤️"
    else if 14 <= hour < 17 then "Happy afternoon 🌞"
    else if 17 <= hour < 21 then "Good evening ✨"
    else if 21 <= hour < 24 then "Burning the midnight oil 🦉"
    else "Up late huh 🌙"
  }

  /** The greeting for each period name of the location builder. */
  function PeriodGreeting(period: string): string {
    if period == "early_morning" then "Rise and shine ☀️"
    else if period == "morning" then "Good morning ☕"
    else if period == "midday" then "Hope you're having a great day 🌤️"
    else if period == "afternoon" then "Happy afternoon 🌞"
    else if period == "evening" then "Good evening ✨"
    else if period == "night" then "Burning the midnight oil 🦉"
    else "Up late huh 🌙"
  }

  /** The greeting and the period of the day split the hours at the same
      boundaries: each hour's greeting is the greeting of its period, and the seven
      greetings are different, so two hours share a greeting exactly when they share
      a period. */
  lemma {:induction false} SameBoundaries(hour: int, other: int)
    ensures GetTimeGreeting(hour) == PeriodGreeting(Proxy.GetTimePeriod(hour))
    ensures GetTimeGreeting(hour) == GetTimeGreeting(other) <==> Proxy.GetTimePeriod(hour) == Proxy.GetTimePeriod(other)
  {
    var p, q := Proxy.GetTimePeriod(hour), Proxy.GetTimePeriod(other);
    if p != q {
      PeriodGreetingsDiffer(p, q);
    }
  }

  /** The seven period names of the location builder. */
  predicate IsPeriod(p: string) {
    p == "early_morning" || p == "morning" || p == "midday" || p == "afternoon"
    || p == "evening" || p == "night" || p == "late_night"
  }

  /** Different periods have different greetings. */
  lemma PeriodGreetingsDiffer(p: string, q: string)
    requires IsPeriod(p) && IsPeriod(q) && p != q
    ensures PeriodGreeting(p) != PeriodGreeting(q)
  {
    var g, h := PeriodGreeting(p), PeriodGreeting(q);
    assert (g[1], g[5]) != (h[1], h[5]);
  }

  const Anonymous := "Hey there 👋"

  /** The greeting of `middleware` from the time greeting, the city, the country
      and the country's flag: the location suffix when the headers give a city or
      a country, and the plain greeting when they give neither. */
  function GreetingText(timeGreeting: string, city: string, country: string, flag: string): string {
    var locationPart :=
      if city != "" && flag != "" then ", visitor from " + city + " " + flag
      else if city != "" then ", visitor from " + city
      else if flag != "" then " from " + flag
      else "";
    if city != "" || country != "" then timeGreeting + locationPart else Anonymous
  }

  /** The five shapes of the greeting; a flag always comes with a country. */
  lemma GreetingCases(timeGreeting: string, city: string, country: string, flag: string)
    requires flag != "" ==> country != ""
    ensures var g := GreetingText(timeGreeting, city, country, flag);
      && (city == "" && country == "" ==> g == Anonymous)
      && (city != "" && flag != "" ==> g == timeGreeting + ", visitor from " + city + " " + flag)
      && (city != "" && flag == "" ==> g == timeGreeting + ", visitor from " + city)
      && (city == "" && flag != "" ==> g == timeGreeting + " from " + flag)
      && (city == "" && country != "" && flag == "" ==> g == timeGreeting)
  {
    if city == "" && country != "" && flag == "" {
      assert timeGreeting + "" == timeGreeting;
    }
  }

  /** `middleware`'s greeting for the headers and the local hour, with the flag from
      the location builder's table. */
  method BuildGreeting(city: string, country: string, hour: int) returns (greeting: string)
    ensures greeting == GreetingText(GetTimeGreeting(hour), city, country, Proxy.Flag(country))
  {
    var timeGreeting := GetTimeGreeting(hour);
    var countryEmoji := Proxy.Flag(country);
    var locationPart := "";
    if city != "" && countryEmoji != "" {
      locationPart := ", visitor from " + city + " " + countryEmoji;
    } else if city != "" {
      locationPart := ", visitor from " + city;
    } else if countryEmoji != "" {
      locationPart := " from " + countryEmoji;
    }
    greeting := if city != "" || country != "" then timeGreeting + locationPart else Anonymous;
  }

  /** The greeting for the headers and hour, case by case. */
  lemma GreetingShapes(city: string, country: string, hour: int)
    ensures var g := GreetingText(GetTimeGreeting(hour), city, country, Proxy.Flag(country));
      && (city == "" && country == "" ==> g == Anonymous)
      && (city != "" && Proxy.Flag(country) != "" ==> g == GetTimeGreeting(hour) + ", visitor from " + city + " " + Proxy.Flag(country))
      && (city != "" && Proxy.Flag(country) == "" ==> g == GetTimeGreeting(hour) + ", visitor from " + city)
      && (city == "" && Proxy.Flag(country) != "" ==> g == GetTimeGreeting(hour) + " from " + Proxy.Flag(country))
      && (city == "" && country != "" && Proxy.Flag(country) == "" ==> g == GetTimeGreeting(hour))
  {
    Proxy.FlagNeedsCountry(country);
    GreetingCases(GetTimeGreeting(hour), city, country, Proxy.Flag(country));
  }
}
