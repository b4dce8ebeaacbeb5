/** Weather-mood classification, the keyword table, the keyword news filter, and the
    temperature display helpers (utils/weatherFilter.ts). */
module WeatherFilter {
  import opened Optional
  import opened Types
  import opened Text
  import opened Sequences

  datatype WeatherCategory = Cold | Hot | Cool | Moderate

  /** The classifier subtracts this from the provider's temperature, reading it as Kelvin. */
  const KelvinOffset: real := 273.15

  /** Thresholds on the Celsius value, checked in the order cold, hot, cool; whatever
      falls through every check — including [10, 15) and (25, 30] — is moderate. */
  function GetWeatherCategory(temperature: real): (r: WeatherCategory)
    ensures r == Cold <==> temperature - KelvinOffset < 10.0
    ensures r == Hot <==> temperature - KelvinOffset > 30.0
    ensures r == Cool <==> 15.0 <= temperature - KelvinOffset <= 25.0
    ensures r == Moderate <==>
      (10.0 <= temperature - KelvinOffset < 15.0 || 25.0 < temperature - KelvinOffset <= 30.0)
  {
    var celsius := temperature - KelvinOffset;
    if celsius < 10.0 then Cold
    else if celsius > 30.0 then Hot
    else if celsius >= 15.0 && celsius <= 25.0 then Cool
    else Moderate
  }

  /** The fixed keyword list of each category, in the source's order. */
  function Keywords(c: WeatherCategory): seq<string> {
    match c
    case Cold => [
      "depression", "sad", "gloomy", "melancholy", "tragedy", "death", "loss",
      "crisis", "recession", "unemployment", "poverty", "homeless", "suicide",
      "mental health", "anxiety", "stress", "loneliness", "isolation"]
    case Hot => [
      "fear", "terror", "panic", "anxiety", "danger", "threat", "violence",
      "war", "conflict", "attack", "emergency", "disaster", "crisis",
      "alarm", "warning", "alert", "scare", "horror", "nightmare"]
    case Cool => [
      "win", "victory", "success", "achievement", "happiness", "joy", "celebration",
      "triumph", "breakthrough", "innovation", "progress", "growth", "prosperity",
      "optimism", "hope", "inspiration", "motivation", "positive", "good news"]
    case Moderate => [
      "balance", "stable", "normal", "routine", "steady", "consistent",
      "moderate", "average", "standard", "regular", "typical"]
  }

  /** `article.content || ''`. */
  function ContentText(a: Article): string {
    a.content.GetOr("")
  }

  /** The text an article is searched in, before lowercasing:
      title, description and content joined by single spaces. */
  function SearchText(a: Article): string {
    a.title + " " + a.description + " " + ContentText(a)
  }

  /** `keywords.some(k => text.includes(k.toLowerCase()))`. */
  function AnyIncluded(text: string, keywords: seq<string>): bool
    decreases |keywords|
  {
    |keywords| > 0 && (Includes(text, Lower(keywords[0])) || AnyIncluded(text, keywords[1..]))
  }

  /** The filter's test for one article. */
  predicate MatchesKeywords(a: Article, keywords: seq<string>) {
    AnyIncluded(Lower(SearchText(a)), keywords)
  }

  /** Reference reading of the test: some keyword, lowercased, occurs somewhere in the
      lowercased search text. */
  ghost predicate SomeKeywordOccurs(a: Article, keywords: seq<string>) {
    exists k, i: nat :: 0 <= k < |keywords| && OccursAt(Lower(SearchText(a)), Lower(keywords[k]), i)
  }

  lemma {:induction false} AnyIncludedIff(text: string, keywords: seq<string>)
    ensures AnyIncluded(text, keywords) <==>
      exists k :: 0 <= k < |keywords| && Includes(text, Lower(keywords[k]))
    decreases |keywords|
  {
    if |keywords| > 0 {
      AnyIncludedIff(text, keywords[1..]);
      if AnyIncluded(text, keywords[1..]) {
        var k :| 0 <= k < |keywords[1..]| && Includes(text, Lower(keywords[1..][k]));
        assert keywords[k + 1] == keywords[1..][k];
      }
      if exists k :: 0 <= k < |keywords| && Includes(text, Lower(keywords[k])) {
        var k :| 0 <= k < |keywords| && Includes(text, Lower(keywords[k]));
        if k > 0 {
          assert keywords[1..][k - 1] == keywords[k];
        }
      }
    }
  }

  /** The filter's test is exactly "some keyword is a substring of the lowercased text". */
  lemma MatchesKeywordsIff(a: Article, keywords: seq<string>)
    ensures MatchesKeywords(a, keywords) <==> SomeKeywordOccurs(a, keywords)
  {
    var text := Lower(SearchText(a));
    AnyIncludedIff(text, keywords);
    if MatchesKeywords(a, keywords) {
      var k :| 0 <= k < |keywords| && Includes(text, Lower(keywords[k]));
      IncludesIffOccurs(text, Lower(keywords[k]));
    }
    if SomeKeywordOccurs(a, keywords) {
      var k, i: nat :| 0 <= k < |keywords| && OccursAt(text, Lower(keywords[k]), i);
      IncludesIffOccurs(text, Lower(keywords[k]));
    }
  }

  /** Case does not matter: articles whose title, description and content agree up to
      letter case are kept or dropped together. */
  lemma MatchesIgnoresCase(a: Article, b: Article, keywords: seq<string>)
    requires Lower(a.title) == Lower(b.title)
    requires Lower(a.description) == Lower(b.description)
    requires Lower(ContentText(a)) == Lower(ContentText(b))
    ensures MatchesKeywords(a, keywords) <==> MatchesKeywords(b, keywords)
  {
    LowerConcat(a.title, " ");
    LowerConcat(a.title + " ", a.description);
    LowerConcat(a.title + " " + a.description, " ");
    LowerConcat(a.title + " " + a.description + " ", ContentText(a));
    LowerConcat(b.title, " ");
    LowerConcat(b.title + " ", b.description);
    LowerConcat(b.title + " " + b.description, " ");
    LowerConcat(b.title + " " + b.description + " ", ContentText(b));
  }

  /** A keyword found in the title alone is enough to keep the article. */
  lemma TitleMatchSuffices(a: Article, keywords: seq<string>, k: nat)
    requires k < |keywords|
    requires Includes(Lower(a.title), Lower(keywords[k]))
    ensures MatchesKeywords(a, keywords)
  {
    var rest := " " + a.description + " " + ContentText(a);
    assert SearchText(a) == a.title + rest;
    LowerConcat(a.title, rest);
    IncludesInLarger([], Lower(a.title), Lower(rest), Lower(keywords[k]));
    assert [] + Lower(a.title) + Lower(rest) == Lower(SearchText(a));
    AnyIncludedIff(Lower(SearchText(a)), keywords);
  }

  /** Whether an article matches the keywords of category `c`. */
  predicate Relevant(a: Article, c: WeatherCategory) {
    MatchesKeywords(a, Keywords(c))
  }

  /** `articles.filter(...)`: the articles relevant to `c`, in input order. */
  function Matching(articles: seq<Article>, c: WeatherCategory): seq<Article> {
    Filter(articles, a => Relevant(a, c))
  }

  const FallbackCount: nat := 5
  const MaxFiltered: nat := 10

  /** The weather-mood news filter: the first ten relevant articles, or, when none is
      relevant, the first five articles whatever they say. It never invents an article
      nor reorders them. */
  function FilterNewsByWeather(articles: seq<Article>, weather: WeatherData): (r: seq<Article>)
    ensures |r| <= MaxFiltered
    ensures IsSubsequence(r, articles)
  {
    var c := GetWeatherCategory(weather.main.temp);
    var filtered := Matching(articles, c);
    FilterIsSubsequence(articles, a => Relevant(a, c));
    if |filtered| == 0 then
      TakeIsSubsequence(articles, FallbackCount);
      Take(articles, FallbackCount)
    else
      TakeIsSubsequence(filtered, MaxFiltered);
      SubsequenceTransitive(Take(filtered, MaxFiltered), filtered, articles);
      Take(filtered, MaxFiltered)
  }

  /** No relevant article: the feed falls back to the first five articles, in order. */
  lemma FilterFallsBack(articles: seq<Article>, weather: WeatherData)
    requires forall i :: 0 <= i < |articles| ==> !Relevant(articles[i], GetWeatherCategory(weather.main.temp))
    ensures var r := FilterNewsByWeather(articles, weather);
      |r| == Min(FallbackCount, |articles|) && IsPrefix(r, articles)
  {
  }

  /** Some relevant article: the feed is the first (up to ten) relevant articles, in
      input order, and nothing else. */
  lemma FilterKeepsRelevant(articles: seq<Article>, weather: WeatherData, i: nat)
    requires i < |articles| && Relevant(articles[i], GetWeatherCategory(weather.main.temp))
    ensures var c := GetWeatherCategory(weather.main.temp);
      var r := FilterNewsByWeather(articles, weather);
      && 0 < |r|
      && (forall j :: 0 <= j < |r| ==> Relevant(r[j], c))
      && |r| == Min(MaxFiltered, |Matching(articles, c)|)
      && IsPrefix(r, Matching(articles, c))
  {
  }

  /** When at most ten articles are relevant, none of them is lost. */
  lemma FilterKeepsAllWhenFew(articles: seq<Article>, weather: WeatherData, i: nat)
    requires i < |articles|
    requires Relevant(articles[i], GetWeatherCategory(weather.main.temp))
    requires |Matching(articles, GetWeatherCategory(weather.main.temp))| <= MaxFiltered
    ensures articles[i] in FilterNewsByWeather(articles, weather)
  {
  }

  /** Running the filter over its own output changes nothing. */
  lemma FilterIdempotent(articles: seq<Article>, weather: WeatherData)
    ensures FilterNewsByWeather(FilterNewsByWeather(articles, weather), weather)
      == FilterNewsByWeather(articles, weather)
  {
    var c := GetWeatherCategory(weather.main.temp);
    var r := FilterNewsByWeather(articles, weather);
    if |Matching(articles, c)| == 0 {
      forall i | 0 <= i < |r| ensures !Relevant(r[i], c) {
        assert r[i] == articles[i];
        assert !(articles[i] in Matching(articles, c));
      }
      FilterNoneKept(r, a => Relevant(a, c));
    } else {
      var i :| 0 <= i < |Matching(articles, c)|;
      assert Matching(articles, c)[i] in articles;
      FilterAllKept(r, a => Relevant(a, c));
    }
  }

  /** `Math.round`: the nearest integer, halves rounded up (towards +infinity). */
  function Round(x: real): (r: int)
    ensures r as real - 0.5 <= x < r as real + 0.5
  {
    (x + 0.5).Floor
  }

  /** The temperature shown to the user, in the chosen unit, rounded. */
  function ConvertTemperature(tempKelvin: real, unit: TemperatureUnit): (r: int)
    ensures unit == Celsius ==>
      r as real - 0.5 <= tempKelvin - KelvinOffset < r as real + 0.5
    ensures unit == Fahrenheit ==>
      r as real - 0.5 <= (tempKelvin - KelvinOffset) * 9.0 / 5.0 + 32.0 < r as real + 0.5
  {
    var celsius := tempKelvin - KelvinOffset;
    if unit == Fahrenheit then Round(celsius * 9.0 / 5.0 + 32.0) else Round(celsius)
  }

  lemma ConversionExamples()
    ensures ConvertTemperature(283.15, Celsius) == 10
    ensures ConvertTemperature(273.15, Fahrenheit) == 32
    ensures ConvertTemperature(373.15, Fahrenheit) == 212
  {
  }

  /** Two characters: the degree sign and the unit's letter. */
  function GetTemperatureSymbol(unit: TemperatureUnit): (r: string)
    ensures |r| == 2 && r[0] == '°'
    ensures r[1] == 'C' <==> unit == Celsius
    ensures r[1] == 'F' <==> unit == Fahrenheit
  {
    match unit
    case Celsius => "°C"
    case Fahrenheit => "°F"
  }

  function CategoryLabel(c: WeatherCategory): string {
    match c
    case Cold => "Cold"
    case Hot => "Hot"
    case Cool => "Cool"
    case Moderate => "Moderate"
  }

  function CategoryTagline(c: WeatherCategory): string {
    match c
    case Cold => "Showing news about challenges and difficult times"
    case Hot => "Showing news about concerns and urgent matters"
    case Cool => "Showing news about success and positive developments"
    case Moderate => "Showing balanced news coverage"
  }

  /** How every description starts: "<Label> weather (". */
  function DescriptionHead(c: WeatherCategory): string {
    CategoryLabel(c) + " weather ("
  }

  /** The banner text: the mood, the rounded Celsius temperature and what is shown.
      The source's fallback "Current weather" branch is unreachable, since every
      temperature has a category. */
  function GetWeatherDescription(weather: WeatherData): (r: string)
    ensures var c := GetWeatherCategory(weather.main.temp);
      IsPrefix(DescriptionHead(c), r)
  {
    var c := GetWeatherCategory(weather.main.temp);
    var tempCelsius := Round(weather.main.temp - KelvinOffset);
    DescriptionHead(c) + IntToString(tempCelsius) + "°C) - " + CategoryTagline(c)
  }

  /** Recognises the category a description was written for. */
  function DescriptionCategory(s: string): Option<WeatherCategory> {
    if IsPrefix(DescriptionHead(Cold), s) then Some(Cold)
    else if IsPrefix(DescriptionHead(Hot), s) then Some(Hot)
    else if IsPrefix(DescriptionHead(Cool), s) then Some(Cool)
    else if IsPrefix(DescriptionHead(Moderate), s) then Some(Moderate)
    else None
  }

  /** Position of the first degree sign, or the length when there is none. */
  function DegreeIndex(s: string): (r: nat)
    ensures r <= |s|
  {
    if |s| == 0 || s[0] == '°' then 0 else 1 + DegreeIndex(s[1..])
  }

  lemma {:induction false} DegreeIndexAfter(p: string, q: string)
    requires forall i :: 0 <= i < |p| ==> p[i] != '°'
    requires |q| > 0 && q[0] == '°'
    ensures DegreeIndex(p + q) == |p|
    decreases |p|
  {
    if |p| > 0 {
      DegreeIndexAfter(p[1..], q);
      assert (p + q)[1..] == p[1..] + q;
    } else {
      assert p + q == q;
    }
  }

  /** No description head is a prefix of a description written for another category. */
  lemma HeadsDiffer(c: WeatherCategory, d: WeatherCategory, rest: string)
    requires c != d
    ensures !IsPrefix(DescriptionHead(d), DescriptionHead(c) + rest)
  {
    var s := DescriptionHead(c) + rest;
    var j := if {c, d} == {Cold, Cool} then 2 else 0;
    assert DescriptionHead(c)[j] != DescriptionHead(d)[j];
    assert s[j] == DescriptionHead(c)[j];
  }

  /** Reads a description back into its category and rounded Celsius temperature. */
  function ParseDescription(s: string): Option<(WeatherCategory, int)> {
    match DescriptionCategory(s)
    case None => None
    case Some(c) => ParseTemperature(c, s[|DescriptionHead(c)|..])
  }

  /** The integer written before the first degree sign. */
  function ParseTemperature(c: WeatherCategory, rest: string): Option<(WeatherCategory, int)> {
    match ParseInt(rest[..DegreeIndex(rest)])
    case None => None
    case Some(t) => Some((c, t))
  }

  lemma DescriptionCategoryOfHead(c: WeatherCategory, rest: string)
    ensures DescriptionCategory(DescriptionHead(c) + rest) == Some(c)
  {
    var s := DescriptionHead(c) + rest;
    assert IsPrefix(DescriptionHead(c), s);
    match c
    case Cold =>
    case Hot => HeadsDiffer(c, Cold, rest);
    case Cool => HeadsDiffer(c, Cold, rest); HeadsDiffer(c, Hot, rest);
    case Moderate => HeadsDiffer(c, Cold, rest); HeadsDiffer(c, Hot, rest); HeadsDiffer(c, Cool, rest);
  }

  /** A head, a rendered integer, then a degree sign: the text parses back. */
  lemma ParseDescriptionOf(c: WeatherCategory, t: int, tail: string)
    requires |tail| > 0 && tail[0] == '°'
    ensures ParseDescription(DescriptionHead(c) + (IntToString(t) + tail)) == Some((c, t))
  {
    var num := IntToString(t);
    var s := DescriptionHead(c) + (num + tail);
    DescriptionCategoryOfHead(c, num + tail);
    var rest := s[|DescriptionHead(c)|..];
    assert rest == num + tail;
    DegreeIndexAfter(num, tail);
    assert rest[..DegreeIndex(rest)] == num;
    IntToStringRoundTrip(t);
  }

  /** The description determines both the mood category and the displayed temperature. */
  lemma DescriptionRoundTrip(weather: WeatherData)
    ensures ParseDescription(GetWeatherDescription(weather)) ==
      Some((GetWeatherCategory(weather.main.temp), Round(weather.main.temp - KelvinOffset)))
  {
    var c := GetWeatherCategory(weather.main.temp);
    var t := Round(weather.main.temp - KelvinOffset);
    var tail := "°C) - " + CategoryTagline(c);
    assert GetWeatherDescription(weather) == DescriptionHead(c) + (IntToString(t) + tail);
    ParseDescriptionOf(c, t, tail);
  }
}
