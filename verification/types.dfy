/** The records the application passes around: weather and forecast payloads, news
    articles, user settings and the application state. Temperatures are in the unit the
    provider returns them in; the classifier treats them as Kelvin. */
module Types {
  import opened Optional

  datatype Condition = Condition(id: int, main: string, description: string, icon: string)

  datatype MainReadings = MainReadings(
    temp: real, feelsLike: real, tempMin: real, tempMax: real, pressure: real, humidity: real)

  datatype Wind = Wind(speed: real, deg: real)

  datatype Coord = Coord(lat: real, lon: real)

  datatype WeatherData = WeatherData(
    main: MainReadings, conditions: seq<Condition>, wind: Wind, name: string, coord: Coord)

  datatype ForecastReadings = ForecastReadings(temp: real, tempMin: real, tempMax: real)

  datatype ForecastEntry = ForecastEntry(
    dt: int, main: ForecastReadings, conditions: seq<Condition>, dtText: string)

  datatype ForecastData = ForecastData(list: seq<ForecastEntry>)

  datatype Source = Source(id: Option<string>, name: string)

  /** One headline. Its identity for de-duplication is `title`. */
  datatype Article = Article(
    source: Source,
    author: Option<string>,
    title: string,
    description: string,
    url: string,
    urlToImage: Option<string>,
    publishedAt: string,
    content: Option<string>)

  datatype NewsResponse = NewsResponse(status: string, totalResults: int, articles: seq<Article>)

  datatype TemperatureUnit = Celsius | Fahrenheit

  datatype Location = Location(lat: real, lon: real)

  datatype UserSettings = UserSettings(
    temperatureUnit: TemperatureUnit,
    newsCategories: seq<string>,
    location: Option<Location>)

  datatype Loading = Loading(weather: bool, news: bool)

  datatype AppState = AppState(
    weather: Option<WeatherData>,
    forecast: Option<ForecastData>,
    news: seq<Article>,
    filteredNews: seq<Article>,
    settings: UserSettings,
    loading: Loading,
    error: Option<string>)

  /** What every provider call resolves to: the `{ data, error }` pair. A failed call has
      `data` null and an error message; a successful one has data and a null error. */
  datatype Fetched<+T> = Fetched(data: Option<T>, error: Option<string>)

  /** JavaScript truthiness of a nullable string: null and "" are falsy. */
  predicate Truthy(s: Option<string>) {
    s.Some? && s.value != ""
  }
}
