/** The day sampler of the forecast card (components/ForecastCard.tsx): the provider
    reports every three hours, so every eighth entry starts a new day; at most five
    days are shown. */
module ForecastCard {
  import opened Sequences

  const EntriesPerDay: nat := 8
  const DaysShown: nat := 5

  /** `list.filter((item, index) => index % 8 === 0)`, over the positions from `i` on. */
  function EveryEighthFrom<T>(list: seq<T>, i: nat): (r: seq<T>)
    requires i <= |list|
    ensures |r| == (|list| + 7) / 8 - (i + 7) / 8
    ensures forall k :: 0 <= k < |r| ==> r[k] == list[8 * ((i + 7) / 8 + k)]
    decreases |list| - i
  {
    if i == |list| then []
    else if i % EntriesPerDay == 0 then [list[i]] + EveryEighthFrom(list, i + 1)
    else EveryEighthFrom(list, i + 1)
  }

  /** `dailyForecasts`: every eighth entry, the first five of them. */
  function DailyForecasts<T>(list: seq<T>): (r: seq<T>)
    ensures |r| <= DaysShown
    ensures |r| == Min(DaysShown, (|list| + 7) / 8)
    ensures forall k :: 0 <= k < |r| ==> 8 * k < |list| && r[k] == list[8 * k]
  {
    Take(EveryEighthFrom(list, 0), DaysShown)
  }

  /** The sampled days keep the forecast's order and invent no entry. */
  lemma DailyForecastsIsSubsequence<T>(list: seq<T>)
    ensures IsSubsequence(DailyForecasts(list), list)
  {
    EveryEighthIsSubsequence(list, 0);
    assert list[0..] == list;
    TakeIsSubsequence(EveryEighthFrom(list, 0), DaysShown);
    SubsequenceTransitive(DailyForecasts(list), EveryEighthFrom(list, 0), list);
  }

  lemma {:induction false} EveryEighthIsSubsequence<T>(list: seq<T>, i: nat)
    requires i <= |list|
    ensures IsSubsequence(EveryEighthFrom(list, i), list[i..])
    decreases |list| - i
  {
    if i < |list| {
      EveryEighthIsSubsequence(list, i + 1);
      var rest := EveryEighthFrom(list, i + 1);
      assert list[i..][1..] == list[i + 1..];
      if i % EntriesPerDay == 0 {
        assert ([list[i]] + rest)[1..] == rest;
      }
    }
  }
}
