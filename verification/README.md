# Weather-mood news app: a Dafny model of its logic

The application shows the current weather and a news feed filtered by the "mood" of
the weather. Under the React Native screens sit a handful of pure pieces, and this
project models them and proves their properties:

- **Weather filter** (`WeatherFilter`): the temperature classifier (cold / hot / cool /
  moderate, with the deliberate fall-through gaps), the fixed keyword table, the keyword
  news filter with its "first five" fallback and its cap of ten, the Kelvin to °C/°F
  conversion with `Math.round`, the unit symbol and the banner description.
- **News merge** (`NewsApi`): the combining step of `getNewsHeadlines`. One provider result
  per category, failed results dropped, the rest concatenated in category order and
  de-duplicated by title. The first article of each title is kept.
- **State container** (`AppContext`): the initial state, the `AppAction` union and
  `appReducer`, `saveSettings` and `loadSettings`. Also the filtered-news effect as an explicit derive
  step, and the outcome handling of `fetchWeather` and `fetchNews` as pure transitions
  from (state, provider results) to the final state.
- **Settings screen** (`SettingsScreen`): the category toggle, which refuses to empty the
  selection, and the unit change.
- **Forecast card** (`ForecastCard`): the day sampler (every eighth entry, at most five).
- **Responsive helpers** (`Responsive`): screen-size classes, tablet / small-phone tests and
  the class table. The window width is a parameter.

Supporting modules: `Optional` (nullable values), `Types` (the records of
types/index.ts and the `{ data, error }` provider result `Fetched`), `Text` (ASCII
`toLowerCase`, `String.prototype.includes`, integer-to-decimal rendering) and
`Sequences` (`slice(0, n)`, `filter`, and the subsequence relation).

Modelling choices:
- Temperatures and widths are `real`. `Math.round(x)` is ⌊x + 0.5⌋.
- A provider result is `Fetched(data, error)`, exactly the source's `{ data, error }`
  pair. "The error is set" follows JavaScript truthiness: an error that is `null` or the
  empty string counts as no error.
- The per-category provider call is a function parameter of `GetNewsHeadlines`. Weather
  and forecast results are parameters of `FetchWeather`. The merged headline result is a
  parameter of `FetchNews`.
- Whether the settings write to storage succeeded is a boolean parameter (`stored`) of
  `SaveSettings`. The source dispatches `SET_SETTINGS` only after that write resolves.
- The classifier subtracts 273.15 even though the weather provider is asked for metric
  units (service/openweathermap-api.ts:21). The model keeps this as written.
- An article's `description` is a plain string, as types/index.ts:54 declares it. The
  search text joins it without a null guard, as the source does.
- `getWeatherDescription`'s `default:` branch ("Current weather") cannot be reached,
  because every temperature has a category. The model has no such branch.
- Behaviour the source shows and the model keeps:
  - When the raw news becomes empty, the filtered-news effect does not run, so
    `filteredNews` keeps its old value (`AppContext.DeriveFilteredNews`).
  - Toggling a category into an empty list and toggling it back is refused: removing
    from a one-element list would empty it. So `SettingsScreen.ToggleTwiceRestores`
    needs a non-empty list.

## Model

| member | source | states |
|---|---|---|
| `WeatherFilter.GetWeatherCategory` | utils/weatherFilter.ts:4-12 | With C = T − 273.15: cold iff C < 10, hot iff C > 30, cool iff 15 ≤ C ≤ 25, moderate iff C is in [10,15) or (25,30]. The four cases partition the reals. |
| `WeatherFilter.AnyIncludedIff` | utils/weatherFilter.ts:45 | `keywords.some(k => text.includes(k.toLowerCase()))` holds iff some lowercased keyword is included in the text. |
| `WeatherFilter.MatchesKeywordsIff` | utils/weatherFilter.ts:43-46 | An article passes the filter's test (`MatchesKeywords` over `SearchText`, with the category's list from the `Keywords` table, lines 15-35) iff some lowercased keyword occurs at some position of lowercase(title + " " + description + " " + (content or "")). |
| `WeatherFilter.MatchesIgnoresCase` | utils/weatherFilter.ts:44-45 | Two articles whose title, description and content agree up to letter case both pass or both fail. |
| `WeatherFilter.TitleMatchSuffices` | utils/weatherFilter.ts:44-45 | A keyword found in the lowercased title alone is enough for the article to pass. |
| `WeatherFilter.FilterNewsByWeather` | utils/weatherFilter.ts:38-55 | The filtered feed has at most 10 articles and is a subsequence of the input: no invented articles, relative order kept. |
| `WeatherFilter.FilterFallsBack` | utils/weatherFilter.ts:49-51 | If no article passes, the result is the first min(5, n) input articles, in input order. |
| `WeatherFilter.FilterKeepsRelevant` | utils/weatherFilter.ts:53-54 | If some article passes, the result is non-empty and every element passes. It is the first min(10, k) of the k passing articles, in input order. |
| `WeatherFilter.FilterKeepsAllWhenFew` | utils/weatherFilter.ts:53-54 | When at most ten articles pass, every passing article is in the result. |
| `WeatherFilter.FilterIdempotent` | utils/weatherFilter.ts:38-55 | Filtering the filter's own output with the same weather returns it unchanged. |
| `WeatherFilter.Round` | utils/weatherFilter.ts:84 | `Math.round(x)` is the integer r with r − ½ ≤ x < r + ½ (halves go up). |
| `WeatherFilter.ConvertTemperature` | utils/weatherFilter.ts:77-85 | Celsius gives the integer within ½ of K − 273.15, halves up. Fahrenheit gives the integer within ½ of (K − 273.15)·9/5 + 32, halves up. |
| `WeatherFilter.ConversionExamples` | utils/weatherFilter.ts:77-85 | 283.15 K shows as 10 °C; 273.15 K and 373.15 K show as 32 °F and 212 °F. |
| `WeatherFilter.GetTemperatureSymbol` | utils/weatherFilter.ts:88-90 | A two-character string: the degree sign, then 'C' exactly for celsius and 'F' exactly for fahrenheit. |
| `WeatherFilter.GetWeatherDescription` | utils/weatherFilter.ts:58-74 | The description begins with "Cold weather (", "Hot weather (", "Cool weather (" or "Moderate weather (", chosen by the temperature's category. |
| `WeatherFilter.ParseDescriptionOf` | utils/weatherFilter.ts:64-70 | A description head, a rendered integer and then the degree sign read back as that category and that integer. |
| `WeatherFilter.DescriptionRoundTrip` | utils/weatherFilter.ts:58-74 | From a description one can recover both the temperature's category and round(T − 273.15), the number embedded in it. |
| `Text.Lower` | utils/weatherFilter.ts:44 | Lowercasing keeps the length, maps each character on its own, and leaves no upper-case letter. |
| `Text.IncludesIffOccurs` | utils/weatherFilter.ts:45 | `text.includes(pat)` holds iff `pat` occurs at some position of `text`. |
| `Text.IntToStringRoundTrip` | utils/weatherFilter.ts:64 | The decimal rendering of an integer in the description reads back as the same integer. |
| `Sequences.Filter` | utils/weatherFilter.ts:43-46 | Every element of `filter`'s result passes the test and comes from the input, and every passing input element is in the result. How many copies are kept is stated by `Sequences.FilterCounts`. |
| `Sequences.FilterCounts` | app/settings.tsx:32 | `filter` keeps every copy of a passing element and no copy of a failing one: the result's count of x is x's count in the input if x passes, else 0. |
| `Sequences.FilterIsSubsequence` | utils/weatherFilter.ts:43-46 | `filter`'s result is a subsequence of its input. |
| `Sequences.FilterAppend` | app/settings.tsx:32 | Filtering a concatenation filters each part. |
| `Sequences.Take` | utils/weatherFilter.ts:49-54 | `slice(0, n)` has length min(n, len) and agrees with the input position by position. |
| `NewsApi.AllArticlesMembers` | service/news-api.ts:45-47 | An article is in the concatenation (`AllArticles`) iff it belongs to some result that has data and no error. |
| `NewsApi.FailedResultContributesNothing` | service/news-api.ts:45-47 | Removing a failed result (null data or an error set) leaves the concatenation unchanged. |
| `NewsApi.FindIndex` | service/news-api.ts:51 | `findIndex` returns −1 iff no article has the title; otherwise it returns the position of the first article with that title. |
| `NewsApi.UniqueByTitle` | service/news-api.ts:50-52 | The result (the `findIndex` filter, `KeepFirstFrom` from position 0) is a subsequence of the input with no two articles sharing a title. Each kept article is the first of its title in the input. Every title of the input appears. Kept articles are ordered by where their titles first occur, so an article repeated later does not move. |
| `NewsApi.UniqueByTitleOfDistinct` | service/news-api.ts:50-52 | A list whose titles are already distinct is left unchanged. |
| `NewsApi.UniqueByTitleIdempotent` | service/news-api.ts:50-52 | De-duplicating twice equals de-duplicating once. |
| `NewsApi.CategoryResults` | service/news-api.ts:40-42 | One provider result per category, position for position. |
| `NewsApi.GetNewsHeadlines` | service/news-api.ts:38-60 | The merge always succeeds with status "ok". `totalResults` equals the number of returned articles, and no two of them share a title. |
| `NewsApi.DefaultIsGeneral` | service/news-api.ts:38 | With no category list (`RequestedCategories`), only "general" is requested. |
| `NewsApi.HeadlinesMerge` | service/news-api.ts:45-52 | The merged list is a subsequence of the category-ordered concatenation. Each merged article is the first of its title there and comes from a successful result. The merged articles are ordered by where their titles first occur. Every title of every successful result appears. |
| `NewsApi.MergedFromSucceeded` | service/news-api.ts:45-52 | Each merged article belongs to some successful category result. |
| `NewsApi.MergedCoversSucceeded` | service/news-api.ts:45-52 | Each title carried by a successful category result is in the merged list. |
| `AppContext.InitialState` | context/AppContext.tsx:10-25 | The initial state has no weather or forecast, empty news and filtered news, both loading flags false and no error. The unit is celsius, there is no location, and the default category list is non-empty. |
| `AppContext.Reduce` | context/AppContext.tsx:39-94 | Every action changes only the fields its payload names. SET_LOADING touches only the flags present. SET_WEATHER touches weather and error. SET_SETTINGS touches only the settings keys present. SET_LOCATION touches only the location. Each other action touches its one field. The named fields then hold the payload, and SET_WEATHER clears the error. SET_SETTINGS merges the partial into the settings (`MergeSettings`). |
| `AppContext.ReduceIdempotent` | context/AppContext.tsx:39-94 | Dispatching any action twice has the same effect as dispatching it once. |
| `AppContext.ReduceCommutes` | context/AppContext.tsx:39-94 | Two actions whose payloads name disjoint fields give the same state in either order, for example SET_WEATHER and SET_FORECAST. |
| `AppContext.SameEverywhereIsEqual` | context/AppContext.tsx:39-94 | The fields the reducer is framed by make up the whole state. |
| `AppContext.SaveSettings` | context/AppContext.tsx:142-150 | The settings written to storage are `{ ...settings, ...partial }` (`MergeSettings`): each key of the partial, else the current value. A failed storage write leaves the state unchanged. A successful one merges the partial into the state: keys absent from it keep their old values and nothing outside the settings changes. |
| `AppContext.LoadSettings` | context/AppContext.tsx:130-140 | A saved blob becomes the settings in full and nothing else changes. No blob leaves the state unchanged. |
| `AppContext.SaveThenLoad` | context/AppContext.tsx:130-150 | After a successful save with no other dispatch landing during the storage write, the blob written equals the settings the state holds, and loading that blob into any state brings back the same settings. |
| `AppContext.DeriveFilteredNews` | context/AppContext.tsx:123-128 | Only when weather is present and the news is non-empty (`CanFilter`), `filteredNews` becomes `filterNewsByWeather(news, weather)`, and nothing else changes. Otherwise the state is unchanged. |
| `AppContext.DeriveFilteredNewsSettles` | context/AppContext.tsx:123-128 | Re-running the effect changes nothing. After it has run, the filtered list has at most ten entries and is a subsequence of the news. |
| `AppContext.FetchWeather` | context/AppContext.tsx:169-196 | With no location the state is unchanged. If the weather leg errs, the error is "Failed to fetch weather data" and weather/forecast are kept. Else, if the forecast leg errs, the error is "Failed to fetch forecast data" and weather/forecast are kept. Otherwise both are set and the error is cleared. With a location, `loading.weather` ends false and only weather, forecast, error and that flag can change. |
| `AppContext.WeatherAppliedAtomically` | context/AppContext.tsx:179-190 | With a location, either both weather and forecast are applied with no error, or an error is set and neither changes. |
| `AppContext.FetchNews` | context/AppContext.tsx:198-214 | An error, or a result without data, sets "Failed to fetch news data" and keeps the news. Otherwise the articles replace the news and the error is kept. `loading.news` ends false and nothing else changes. |
| `AppContext.FetchNewsStoresMergedHeadlines` | context/AppContext.tsx:201-208 | Fetching news over the selected categories stores a list with distinct titles and sets no new error: an earlier message (from a failed weather fetch, say) stays, since SET_NEWS does not clear `error`. |
| `SettingsScreen.ToggleCategory` | app/settings.tsx:26-46 | Toggling a selected category is refused iff every entry equals it. Otherwise every occurrence is removed and every other entry keeps all its copies, in order. Toggling an unselected category appends it after the unchanged list. An accepted list is never empty. |
| `SettingsScreen.ToggleKeepsNoDuplicates` | app/settings.tsx:28-43 | A duplicate-free list stays duplicate-free after a toggle. |
| `SettingsScreen.ToggleTwiceRestores` | app/settings.tsx:31-43 | Adding an unselected category to a non-empty list and toggling it again restores the original list. |
| `Sequences.FilterKeepsDistinct` | app/settings.tsx:32 | Filtering a duplicate-free list leaves it duplicate-free. |
| `SettingsScreen.DefaultCategoriesWellFormed` | context/AppContext.tsx:17 | The default selection is non-empty, duplicate-free and drawn from the categories the screen offers. |
| `SettingsScreen.HandleNewsCategoryToggle` | app/settings.tsx:26-47 | Only the category list can change. A refused toggle or a failed save leaves the state as it was. After an accepted toggle and a successful save, the category list is the toggled list. A non-empty selection stays non-empty. |
| `SettingsScreen.HandleTemperatureUnitChange` | app/settings.tsx:22-24 | Only the unit can change: categories and location are untouched. After a successful save the unit is the chosen one. A failed save leaves the state unchanged. |
| `ForecastCard.EveryEighthFrom` | components/ForecastCard.tsx:17 | Filtering positions divisible by 8 from position i yields ⌈n/8⌉ − ⌈i/8⌉ entries, the k-th being the entry at 8·(⌈i/8⌉ + k). |
| `ForecastCard.DailyForecasts` | components/ForecastCard.tsx:16-18 | The daily list has min(5, ⌈n/8⌉) entries, so at most 5 (none for an empty forecast), and entry k is `list[8k]`. |
| `ForecastCard.DailyForecastsIsSubsequence` | components/ForecastCard.tsx:16-18 | The daily list keeps the forecast's order and invents no entry. |
| `Responsive.GetScreenSize` | utils/responsive.ts:14-19 | Small iff width ≤ 320, medium iff 320 < width ≤ 375, large iff 375 < width ≤ 414, xlarge iff width > 414. |
| `Responsive.ScreenSizeMonotone` | utils/responsive.ts:14-19 | A wider window never gets a smaller size class. |
| `Responsive.DeviceClassesAgreeWithSizes` | utils/responsive.ts:74-81 | `isSmallPhone` (`IsSmallPhone`) holds iff the size is small. `isTablet` (`IsTablet`, width ≥ 768) implies the size is xlarge. |
| `Responsive.ExtraLargeNeedNotBeTablet` | utils/responsive.ts:74-76 | The converse fails: a width of 500 is xlarge but not a tablet. |
| `Responsive.ResponsiveClassIdentifiesSize` | utils/responsive.ts:46-71 | `getResponsiveClass(kind)` (`GetResponsiveClass` over the `ResponsiveClasses` table) gives two windows the same class iff they have the same screen size: the table gives each size its own entry. |

## Left out

- HTTP clients: all of service/openweathermap-api.ts, and `getTopHeadlines`, `searchNews`
  and `getNewsBySources` in service/news-api.ts. They are network I/O, and their results
  enter the model as `Fetched` values. The `catch` of `getNewsHeadlines` is left out
  because the modelled merge cannot throw. The model takes provider data to have the
  declared `NewsResponse` shape (types/index.ts:61-65), an `articles` list included. In
  the source, a successful result whose data lacks `articles` would make `article.title`
  throw at service/news-api.ts:51 and reach that `catch`.
- `Promise.all` concurrency and the races between overlapping asynchronous work: the model
  applies each fetch's outcome as one sequential transition.
- The same race in `saveSettings` and the settings handlers: each save is applied as one
  sequential transition, and a dispatch landing during the storage write is not modelled.
  In the source, the blob and the toggled list are built from the state of the render
  that made the call (context/AppContext.tsx:144, app/settings.tsx:27), while the
  dispatch lands only after `await AsyncStorage.setItem` (context/AppContext.tsx:145-146)
  on whatever state is current then. So two quick toggles from one render keep only the
  second, where the model keeps both. A SET_LOCATION that lands during the write leaves
  the blob's location different from the state's.
- The `catch` branch of `fetchWeather`: the provider calls catch their own errors, so
  nothing in the modelled body throws.
- The AsyncStorage read and write and the JSON encoding, which are foreign I/O. The
  write's success enters `SaveSettings` as `stored`. The parsed blob enters
  `LoadSettings` as an optional full settings record, so `JSON.parse(JSON.stringify(x))`
  is taken to return `x`. A blob holding only some keys is not modelled.
- `requestLocationPermission` and the effect that calls `fetchWeather` when the location
  changes. They are expo-location I/O and React scheduling. The location guard inside
  `fetchWeather` is modelled.
- Rendering, styling, navigation and the context/hook plumbing (`AppProvider`, `useApp`),
  which are UI.
- Date formatting with `toLocaleDateString`, which is locale-library behaviour.
- `getResponsiveFontSize` and `getResponsiveSpacing`: their fractional multipliers are
  floating-point arithmetic.
- WeatherFilter.GetWeatherCategory: temperatures are exact reals, not IEEE-754 doubles, so
  nothing is claimed about a double that lands exactly on a threshold.
- WeatherFilter.ConvertTemperature: same as above, exact reals instead of doubles.
- `console.error` logging in the `catch` blocks of service/news-api.ts and
  context/AppContext.tsx: it is output only and changes no state.
- JavaScript strings are sequences of UTF-16 code units, while a Dafny `string` holds
  Unicode scalar values. Lengths, `includes` and `toLowerCase` are modelled over
  characters, which agrees with the source only when no character lies outside the
  Basic Multilingual Plane.
- Text.Lower: lowercases the ASCII letters only. JavaScript's `toLowerCase` also maps
  other Unicode letters.
