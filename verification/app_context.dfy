/** The application state container (context/AppContext.tsx): the initial state, the
    closed set of actions and the reducer, the settings update, the filtered-news
    effect, and the outcome handling of the weather and news fetches, each as a pure
    transition from a state (and the provider results) to the next state. */
module AppContext {
  import opened Optional
  import opened Types
  import opened Sequences
  import opened WeatherFilter
  import NewsApi

  const DefaultNewsCategories: seq<string> := ["general", "technology", "business"]

  const WeatherFailedMessage: string := "Failed to fetch weather data"
  const ForecastFailedMessage: string := "Failed to fetch forecast data"
  const NewsFailedMessage: string := "Failed to fetch news data"

  /** The state the application starts in, before any settings are loaded. */
  function InitialState(): (s: AppState)
    ensures s.weather.None? && s.forecast.None? && s.error.None?
    ensures s.news == [] && s.filteredNews == []
    ensures !s.loading.weather && !s.loading.news
    ensures s.settings.temperatureUnit == Celsius && s.settings.location.None?
    ensures |s.settings.newsCategories| > 0
  {
    AppState(
      None, None, [], [],
      UserSettings(Celsius, DefaultNewsCategories, None),
      Loading(false, false),
      None)
  }

  /** The flags a `SET_LOADING` payload mentions; absent ones are `None`. */
  datatype LoadingPatch = LoadingPatch(weatherFlag: Option<bool>, newsFlag: Option<bool>)

  /** A `Partial<UserSettings>`: absent keys are `None`; `location` may be present and null. */
  datatype SettingsPatch = SettingsPatch(
    unit: Option<TemperatureUnit>,
    categories: Option<seq<string>>,
    place: Option<Option<Location>>)

  datatype AppAction =
    | SetLoading(loadingPatch: LoadingPatch)
    | SetWeather(weatherPayload: Option<WeatherData>)
    | SetForecast(forecastPayload: Option<ForecastData>)
    | SetNews(newsPayload: seq<Article>)
    | SetFilteredNews(filteredPayload: seq<Article>)
    | SetSettings(settingsPatch: SettingsPatch)
    | SetError(errorPayload: Option<string>)
    | SetLocation(locationPayload: Location)

  /** The individually observable parts of the state. */
  datatype Field =
    | WeatherField | ForecastField | NewsField | FilteredNewsField
    | UnitField | CategoriesField | LocationField
    | LoadingWeatherField | LoadingNewsField | ErrorField

  predicate SameAt(s: AppState, t: AppState, f: Field) {
    match f
    case WeatherField => s.weather == t.weather
    case ForecastField => s.forecast == t.forecast
    case NewsField => s.news == t.news
    case FilteredNewsField => s.filteredNews == t.filteredNews
    case UnitField => s.settings.temperatureUnit == t.settings.temperatureUnit
    case CategoriesField => s.settings.newsCategories == t.settings.newsCategories
    case LocationField => s.settings.location == t.settings.location
    case LoadingWeatherField => s.loading.weather == t.loading.weather
    case LoadingNewsField => s.loading.news == t.loading.news
    case ErrorField => s.error == t.error
  }

  /** `t` differs from `s` at most in the fields `fs`. */
  predicate Framed(s: AppState, t: AppState, fs: set<Field>) {
    forall f: Field :: f !in fs ==> SameAt(s, t, f)
  }

  /** The fields are the whole state: agreeing on all of them is equality. */
  lemma SameEverywhereIsEqual(s: AppState, t: AppState)
    requires Framed(s, t, {})
    ensures s == t
  {
    assert SameAt(s, t, WeatherField) && SameAt(s, t, ForecastField) && SameAt(s, t, NewsField);
    assert SameAt(s, t, FilteredNewsField) && SameAt(s, t, UnitField) && SameAt(s, t, CategoriesField);
    assert SameAt(s, t, LocationField) && SameAt(s, t, LoadingWeatherField);
    assert SameAt(s, t, LoadingNewsField) && SameAt(s, t, ErrorField);
  }

  /** The fields an action names in its payload — the only ones it may change. */
  function Names(a: AppAction): set<Field> {
    match a
    case SetLoading(p) =>
      (if p.weatherFlag.Some? then {LoadingWeatherField} else {}) +
      (if p.newsFlag.Some? then {LoadingNewsField} else {})
    case SetWeather(_) => {WeatherField, ErrorField}
    case SetForecast(_) => {ForecastField}
    case SetNews(_) => {NewsField}
    case SetFilteredNews(_) => {FilteredNewsField}
    case SetSettings(p) =>
      (if p.unit.Some? then {UnitField} else {}) +
      (if p.categories.Some? then {CategoriesField} else {}) +
      (if p.place.Some? then {LocationField} else {})
    case SetError(_) => {ErrorField}
    case SetLocation(_) => {LocationField}
  }

  /** What the fields an action names hold afterwards. */
  predicate Carries(a: AppAction, t: AppState) {
    match a
    case SetLoading(p) =>
      (p.weatherFlag.Some? ==> t.loading.weather == p.weatherFlag.value) &&
      (p.newsFlag.Some? ==> t.loading.news == p.newsFlag.value)
    case SetWeather(w) => t.weather == w && t.error.None?
    case SetForecast(f) => t.forecast == f
    case SetNews(n) => t.news == n
    case SetFilteredNews(n) => t.filteredNews == n
    case SetSettings(p) =>
      (p.unit.Some? ==> t.settings.temperatureUnit == p.unit.value) &&
      (p.categories.Some? ==> t.settings.newsCategories == p.categories.value) &&
      (p.place.Some? ==> t.settings.location == p.place.value)
    case SetError(e) => t.error == e
    case SetLocation(l) => t.settings.location == Some(l)
  }

  /** `{ ...settings, ...patch }`: each key the patch carries replaces the current one. */
  function MergeSettings(settings: UserSettings, p: SettingsPatch): UserSettings {
    UserSettings(
      p.unit.GetOr(settings.temperatureUnit),
      p.categories.GetOr(settings.newsCategories),
      p.place.GetOr(settings.location))
  }

  /** `appReducer`: each action writes the fields it names and leaves every other field. */
  function Reduce(s: AppState, a: AppAction): (r: AppState)
    ensures Framed(s, r, Names(a))
    ensures Carries(a, r)
  {
    match a
    case SetLoading(p) =>
      s.(loading := Loading(p.weatherFlag.GetOr(s.loading.weather), p.newsFlag.GetOr(s.loading.news)))
    case SetWeather(w) => s.(weather := w, error := None)
    case SetForecast(f) => s.(forecast := f)
    case SetNews(n) => s.(news := n)
    case SetFilteredNews(n) => s.(filteredNews := n)
    case SetSettings(p) => s.(settings := MergeSettings(s.settings, p))
    case SetError(e) => s.(error := e)
    case SetLocation(l) => s.(settings := s.settings.(location := Some(l)))
  }

  /** Every action is an overwrite: dispatching it twice is dispatching it once. */
  lemma ReduceIdempotent(s: AppState, a: AppAction)
    ensures Reduce(Reduce(s, a), a) == Reduce(s, a)
  {
  }

  /** Actions that name disjoint fields commute, so the order in which such dispatches
      land does not matter. */
  lemma ReduceCommutes(s: AppState, a: AppAction, b: AppAction)
    requires Names(a) !! Names(b)
    ensures Reduce(Reduce(s, a), b) == Reduce(Reduce(s, b), a)
  {
  }

  /** What `saveSettings` leaves behind: the settings it wrote to storage and the state. */
  datatype Saved = Saved(written: UserSettings, state: AppState)

  /** `saveSettings`: the merged settings are written to storage and, only when that
      write succeeds (`stored`), the partial is dispatched. */
  function SaveSettings(s: AppState, p: SettingsPatch, stored: bool): (r: Saved)
    ensures r.written.temperatureUnit == p.unit.GetOr(s.settings.temperatureUnit)
    ensures r.written.newsCategories == p.categories.GetOr(s.settings.newsCategories)
    ensures r.written.location == p.place.GetOr(s.settings.location)
    ensures !stored ==> r.state == s
    ensures stored ==> Framed(s, r.state, Names(SetSettings(p))) && Carries(SetSettings(p), r.state)
  {
    Saved(MergeSettings(s.settings, p), if stored then Reduce(s, SetSettings(p)) else s)
  }

  /** The full settings as a patch: every key present, as `JSON.parse` of a saved blob. */
  function WholeSettings(settings: UserSettings): SettingsPatch {
    SettingsPatch(Some(settings.temperatureUnit), Some(settings.newsCategories), Some(settings.location))
  }

  /** `loadSettings` once the storage read has resolved: a saved blob is dispatched as
      the settings; no blob (or an unreadable one, which the `catch` swallows) changes
      nothing. */
  function LoadSettings(s: AppState, saved: Option<UserSettings>): (r: AppState)
    ensures saved.None? ==> r == s
    ensures saved.Some? ==> r.settings == saved.value && Framed(s, r, {UnitField, CategoriesField, LocationField})
  {
    match saved
    case None => s
    case Some(settings) => Reduce(s, SetSettings(WholeSettings(settings)))
  }

  /** A successful save writes exactly the settings the state then holds, so loading
      that blob into any state (a restarted app, say) brings the same settings back. */
  lemma SaveThenLoad(s: AppState, p: SettingsPatch, restarted: AppState)
    ensures SaveSettings(s, p, true).written == SaveSettings(s, p, true).state.settings
    ensures LoadSettings(restarted, Some(SaveSettings(s, p, true).written)).settings
      == SaveSettings(s, p, true).state.settings
  {
  }

  /** The guard of the filtered-news effect. */
  predicate CanFilter(s: AppState) {
    s.weather.Some? && |s.news| > 0
  }

  /** The filtered-news effect: recompute `filteredNews` when weather is known and
      there is raw news; otherwise leave the state as it is. */
  function DeriveFilteredNews(s: AppState): (r: AppState)
    ensures CanFilter(s) ==>
      Framed(s, r, {FilteredNewsField}) && r.filteredNews == FilterNewsByWeather(s.news, s.weather.value)
    ensures !CanFilter(s) ==> r == s
  {
    if CanFilter(s) then Reduce(s, SetFilteredNews(FilterNewsByWeather(s.news, s.weather.value)))
    else s
  }

  /** After the effect has run, the filtered list is a short, order-keeping selection of
      the raw news, and running the effect again changes nothing. */
  lemma DeriveFilteredNewsSettles(s: AppState)
    ensures var r := DeriveFilteredNews(s);
      && DeriveFilteredNews(r) == r
      && (CanFilter(s) ==> |r.filteredNews| <= MaxFiltered && IsSubsequence(r.filteredNews, r.news))
  {
  }

  /** `fetchWeather` once both provider calls have resolved: nothing without a location;
      otherwise the loading flag is raised, the outcome applied, and the flag lowered. */
  function FetchWeather(s: AppState, weatherResult: Fetched<WeatherData>, forecastResult: Fetched<ForecastData>)
    : (r: AppState)
    ensures s.settings.location.None? ==> r == s
    ensures s.settings.location.Some? ==>
      && !r.loading.weather
      && Framed(s, r, {WeatherField, ForecastField, ErrorField, LoadingWeatherField})
    ensures s.settings.location.Some? && Truthy(weatherResult.error) ==>
      r.error == Some(WeatherFailedMessage) && r.weather == s.weather && r.forecast == s.forecast
    ensures s.settings.location.Some? && !Truthy(weatherResult.error) && Truthy(forecastResult.error) ==>
      r.error == Some(ForecastFailedMessage) && r.weather == s.weather && r.forecast == s.forecast
    ensures s.settings.location.Some? && !Truthy(weatherResult.error) && !Truthy(forecastResult.error) ==>
      r.weather == weatherResult.data && r.forecast == forecastResult.data && r.error.None?
  {
    if s.settings.location.None? then s
    else
      var started := Reduce(s, SetLoading(LoadingPatch(Some(true), None)));
      var settled :=
        if Truthy(weatherResult.error) then Reduce(started, SetError(Some(WeatherFailedMessage)))
        else if Truthy(forecastResult.error) then Reduce(started, SetError(Some(ForecastFailedMessage)))
        else Reduce(Reduce(started, SetWeather(weatherResult.data)), SetForecast(forecastResult.data));
      Reduce(settled, SetLoading(LoadingPatch(Some(false), None)))
  }

  /** Weather and forecast are applied together or not at all. */
  lemma WeatherAppliedAtomically(s: AppState, weatherResult: Fetched<WeatherData>, forecastResult: Fetched<ForecastData>)
    requires s.settings.location.Some?
    ensures var r := FetchWeather(s, weatherResult, forecastResult);
      (r.error.None? && r.weather == weatherResult.data && r.forecast == forecastResult.data) ||
      (r.error.Some? && r.weather == s.weather && r.forecast == s.forecast)
  {
  }

  /** `fetchNews` once the merged headline request has resolved. A result without an
      error but also without data makes `result.data.articles` throw, which the
      surrounding `catch` reports with the same message. */
  function FetchNews(s: AppState, result: Fetched<NewsResponse>): (r: AppState)
    ensures !r.loading.news
    ensures Framed(s, r, {NewsField, ErrorField, LoadingNewsField})
    ensures Truthy(result.error) || result.data.None? ==>
      r.error == Some(NewsFailedMessage) && r.news == s.news
    ensures !Truthy(result.error) && result.data.Some? ==>
      r.news == result.data.value.articles && r.error == s.error
  {
    var started := Reduce(s, SetLoading(LoadingPatch(None, Some(true))));
    var settled :=
      if Truthy(result.error) || result.data.None? then Reduce(started, SetError(Some(NewsFailedMessage)))
      else Reduce(started, SetNews(result.data.value.articles));
    Reduce(settled, SetLoading(LoadingPatch(None, Some(false))))
  }

  /** A news fetch over the selected categories stores a list without repeated titles
      and reports no error. */
  lemma FetchNewsStoresMergedHeadlines(s: AppState, topHeadlines: string -> Fetched<NewsResponse>)
    ensures var r := FetchNews(s, NewsApi.GetNewsHeadlines(Some(s.settings.newsCategories), topHeadlines));
      NewsApi.DistinctTitles(r.news) && r.error == s.error && !r.loading.news
  {
  }
}
