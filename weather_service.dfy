/** The forecast-aggregation engine: sky classification, grouping of the
    3-hour samples by calendar day, the per-day reduction with its
    majority vote, the six-day cap and the normalisation of the current
    conditions. */
module WeatherService {
  import opened Wrappers
  import opened JsText
  import opened JsMath
  import opened Sequences
  import opened JsMap
  import opened WeatherTypes
  import OpenWeatherClient

  // ---------------------------------------------------------------------
  // Sky classifier
  // ---------------------------------------------------------------------

  const RainWords: seq<string> := ["rain", "drizzle", "thunderstorm"]
  const CloudWords: seq<string> := ["cloud", "mist", "fog", "haze"]

  /** `getCondition`: rain words are looked for before cloud words, in the
      lower-cased category; anything else is sunny. */
  function GetCondition(weatherMain: string): SkyCondition {
    var main := ToLower(weatherMain);
    if Includes(main, "rain") || Includes(main, "drizzle") || Includes(main, "thunderstorm") then Rain
    else if Includes(main, "cloud") || Includes(main, "mist") || Includes(main, "fog") || Includes(main, "haze") then Cloud
    else Sun
  }

  /** Some word of `words` occurs somewhere in `s`. */
  ghost predicate MentionsAny(s: string, words: seq<string>) {
    exists w, i :: w in words && OccursAt(s, w, i)
  }

  /** The classifier in terms of where the words occur in the lower-cased
      category: rain wins over cloud, and sun is what is left. */
  lemma GetConditionByOccurrence(weatherMain: string)
    ensures GetCondition(weatherMain) == Rain <==> MentionsAny(ToLower(weatherMain), RainWords)
    ensures GetCondition(weatherMain) == Cloud <==>
      !MentionsAny(ToLower(weatherMain), RainWords) && MentionsAny(ToLower(weatherMain), CloudWords)
    ensures GetCondition(weatherMain) == Sun <==>
      !MentionsAny(ToLower(weatherMain), RainWords) && !MentionsAny(ToLower(weatherMain), CloudWords)
  {
    var main := ToLower(weatherMain);
    forall w | w in RainWords + CloudWords
      ensures Includes(main, w) <==> exists i :: OccursAt(main, w, i)
    {
      IncludesIff(main, w);
    }
    assert MentionsAny(main, RainWords) <==>
      Includes(main, "rain") || Includes(main, "drizzle") || Includes(main, "thunderstorm");
    assert MentionsAny(main, CloudWords) <==>
      Includes(main, "cloud") || Includes(main, "mist") || Includes(main, "fog") || Includes(main, "haze");
  }

  /** The classifier ignores letter case. */
  lemma GetConditionIgnoresCase(weatherMain: string)
    ensures GetCondition(ToUpper(weatherMain)) == GetCondition(weatherMain)
    ensures GetCondition(ToLower(weatherMain)) == GetCondition(weatherMain)
  {
    LowerForgetsCase(weatherMain);
  }

  lemma GetConditionExamples()
    ensures GetCondition("Thunderstorm") == Rain
    ensures GetCondition("") == Sun
  {
    assert ToLower("Thunderstorm") == "thunderstorm";
  }

  lemma DrizzleExample()
    ensures GetCondition("Drizzle") == Rain
  {
    assert ToLower("Drizzle") == "drizzle";
  }

  lemma CloudsExample()
    ensures GetCondition("Clouds") == Cloud
  {
    var clouds := ToLower("Clouds");
    assert clouds == "clouds";
    IncludesOnlyItsChars(clouds, "rain", 'r');
    IncludesOnlyItsChars(clouds, "drizzle", 'r');
    IncludesOnlyItsChars(clouds, "thunderstorm", 'r');
  }

  lemma MistExample()
    ensures GetCondition("Mist") == Cloud
  {
    var mist := ToLower("Mist");
    assert mist == "mist";
    IncludesOnlyItsChars(mist, "rain", 'r');
    IncludesOnlyItsChars(mist, "drizzle", 'r');
    IncludesOnlyItsChars(mist, "thunderstorm", 'r');
  }

  lemma ClearExample()
    ensures GetCondition("Clear") == Sun
  {
    var clear := ToLower("Clear");
    assert clear == "clear";
    IncludesOnlyItsChars(clear, "rain", 'i');
    IncludesOnlyItsChars(clear, "drizzle", 'd');
    IncludesOnlyItsChars(clear, "thunderstorm", 'h');
    IncludesOnlyItsChars(clear, "cloud", 'o');
    IncludesOnlyItsChars(clear, "mist", 'm');
    IncludesOnlyItsChars(clear, "fog", 'f');
    IncludesOnlyItsChars(clear, "haze", 'h');
  }

  // ---------------------------------------------------------------------
  // Grouping by day
  // ---------------------------------------------------------------------

  /** `item.dt_txt.split(' ')[0]`: the calendar date of a sample. */
  function DateKey(item: ForecastItem): string {
    FirstField(item.dtTxt, ' ')
  }

  /** The date keys of the samples, in order, the empty ones left out. */
  function DayKeys(list: seq<ForecastItem>): (r: seq<string>)
    ensures forall i :: 0 <= i < |r| ==> r[i] != ""
  {
    if list == [] then []
    else
      var key := DateKey(list[|list| - 1]);
      DayKeys(list[..|list| - 1]) + (if key != "" then [key] else [])
  }

  /** The samples whose date key is `date`, in input order. */
  function GroupOf(list: seq<ForecastItem>, date: string): seq<ForecastItem> {
    if list == [] then []
    else
      var item := list[|list| - 1];
      GroupOf(list[..|list| - 1], date) + (if DateKey(item) == date then [item] else [])
  }

  /** `grouped` is the grouping of `list`: one entry per distinct non-empty
      date key, in first-seen order, holding that day's samples in order. */
  ghost predicate IsGrouping(list: seq<ForecastItem>, grouped: OrderedMap<string, seq<ForecastItem>>) {
    && grouped.Valid()
    && grouped.keys == FirstSeen(DayKeys(list))
    && forall date :: date in grouped.entries ==> grouped.entries[date] == GroupOf(list, date)
  }

  /** `groupForecastByDay` */
  method GroupForecastByDay(list: seq<ForecastItem>) returns (grouped: OrderedMap<string, seq<ForecastItem>>)
    ensures IsGrouping(list, grouped)
  {
    grouped := Empty();
    for n := 0 to |list|
      invariant IsGrouping(list[..n], grouped)
    {
      var item := list[n];
      var date := FirstField(item.dtTxt, ' ');
      assert list[..n + 1] == list[..n] + [item];
      GroupingExtends(list[..n], item, grouped);
      if date != "" {
        var existing := Existing(grouped, date) + [item];
        grouped := grouped.Set(date, existing);
      }
    }
    assert list[..|list|] == list;
  }

  /** One more sample: a non-empty date key gets the sample appended to its
      group (the group is created, at the end of the order, if it is new);
      an empty key changes nothing. */
  lemma GroupingExtends(list: seq<ForecastItem>, item: ForecastItem, grouped: OrderedMap<string, seq<ForecastItem>>)
    requires IsGrouping(list, grouped)
    ensures DateKey(item) == "" ==> IsGrouping(list + [item], grouped)
    ensures DateKey(item) != "" ==> IsGrouping(list + [item], grouped.Set(DateKey(item), Existing(grouped, DateKey(item)) + [item]))
  {
    SnocUnfold(list, item);
    if DateKey(item) != "" {
      GroupingExtendsByKey(list, item, grouped, DateKey(item));
    } else {
      assert "" !in grouped.entries;
      assert DayKeys(list + [item]) == DayKeys(list);
    }
  }

  /** The group of `date` so far, empty when there is none: `grouped.get(date) ?? []`. */
  function Existing(grouped: OrderedMap<string, seq<ForecastItem>>, date: string): seq<ForecastItem> {
    match grouped.Get(date)
    case Some(items) => items
    case None => []
  }

  lemma GroupingExtendsByKey(list: seq<ForecastItem>, item: ForecastItem, grouped: OrderedMap<string, seq<ForecastItem>>, date: string)
    requires IsGrouping(list, grouped)
    requires date == DateKey(item) && date != ""
    requires DayKeys(list + [item]) == DayKeys(list) + [date]
    requires forall k :: GroupOf(list + [item], k) == GroupOf(list, k) + (if date == k then [item] else [])
    ensures IsGrouping(list + [item], grouped.Set(date, Existing(grouped, date) + [item]))
  {
    KeysExtend(list, grouped, date);
    EntriesExtend(list, item, grouped, date);
  }

  lemma KeysExtend(list: seq<ForecastItem>, grouped: OrderedMap<string, seq<ForecastItem>>, date: string)
    requires IsGrouping(list, grouped)
    ensures grouped.Set(date, []).keys == FirstSeen(DayKeys(list) + [date])
  {
    FirstSeenSnoc(DayKeys(list), date);
  }

  lemma EntriesExtend(list: seq<ForecastItem>, item: ForecastItem, grouped: OrderedMap<string, seq<ForecastItem>>, date: string)
    requires IsGrouping(list, grouped)
    requires date != ""
    requires forall k :: GroupOf(list + [item], k) == GroupOf(list, k) + (if date == k then [item] else [])
    ensures forall k :: k in grouped.entries[date := Existing(grouped, date) + [item]] ==>
      grouped.entries[date := Existing(grouped, date) + [item]][k] == GroupOf(list + [item], k)
  {
    if date !in grouped.entries {
      NoGroupYet(list, date);
    }
  }

  /** How the day keys and the groups of `list + [item]` arise from those of `list`. */
  lemma SnocUnfold(list: seq<ForecastItem>, item: ForecastItem)
    ensures DayKeys(list + [item]) == DayKeys(list) + (if DateKey(item) != "" then [DateKey(item)] else [])
    ensures forall k :: GroupOf(list + [item], k) == GroupOf(list, k) + (if DateKey(item) == k then [item] else [])
  {
    assert (list + [item])[..|list|] == list;
  }

  /** A date that is not yet a day key has no samples. */
  lemma NoGroupYet(list: seq<ForecastItem>, date: string)
    requires date != "" && date !in DayKeys(list)
    ensures GroupOf(list, date) == []
  {
    if GroupOf(list, date) != [] {
      var item := GroupOf(list, date)[0];
      GroupOfMembers(list, date, item);
      DayKeysMembers(list, date);
    }
  }

  /** A sample belongs to the group of `date` exactly when it is a sample of
      the list whose date key is `date`. */
  lemma {:induction false} GroupOfMembers(list: seq<ForecastItem>, date: string, item: ForecastItem)
    ensures item in GroupOf(list, date) <==> item in list && DateKey(item) == date
  {
    if list != [] {
      var prefix := list[..|list| - 1];
      GroupOfMembers(prefix, date, item);
      assert list == prefix + [list[|list| - 1]];
    }
  }

  /** The day keys are exactly the non-empty date keys of the samples. */
  lemma {:induction false} DayKeysMembers(list: seq<ForecastItem>, date: string)
    ensures date in DayKeys(list) <==> date != "" && exists item :: item in list && DateKey(item) == date
  {
    if list != [] {
      var prefix := list[..|list| - 1];
      DayKeysMembers(prefix, date);
      assert list == prefix + [list[|list| - 1]];
    }
  }

  /** A date key has a non-empty group exactly when it is one of the day keys. */
  lemma GroupOfNonEmpty(list: seq<ForecastItem>, date: string)
    requires date in DayKeys(list)
    ensures |GroupOf(list, date)| > 0
  {
    DayKeysMembers(list, date);
    var item :| item in list && DateKey(item) == date;
    GroupOfMembers(list, date, item);
  }

  /** What a grouping promises: non-empty, pairwise distinct keys in
      first-seen order; each group non-empty, holding exactly that day's
      samples; samples with an empty date key in no group at all. */
  lemma GroupingProperties(list: seq<ForecastItem>, grouped: OrderedMap<string, seq<ForecastItem>>)
    requires IsGrouping(list, grouped)
    ensures Distinct(grouped.keys)
    ensures forall i :: 0 <= i < |grouped.keys| ==>
      grouped.keys[i] != "" && grouped.keys[i] in grouped.entries && |grouped.entries[grouped.keys[i]]| > 0
    ensures forall i, j :: 0 <= i < j < |grouped.keys| ==>
      FirstIndex(DayKeys(list), grouped.keys[i]) < FirstIndex(DayKeys(list), grouped.keys[j])
    ensures forall date, item :: date in grouped.entries ==>
      (item in grouped.entries[date] <==> item in list && DateKey(item) == date)
    ensures forall item :: item in list && DateKey(item) != "" ==> DateKey(item) in grouped.entries
  {
    var keys := grouped.keys;
    forall i | 0 <= i < |keys|
      ensures keys[i] != "" && keys[i] in grouped.entries && |grouped.entries[keys[i]]| > 0
    {
      GroupOfNonEmpty(list, keys[i]);
    }
    forall i, j | 0 <= i < j < |keys|
      ensures FirstIndex(DayKeys(list), keys[i]) < FirstIndex(DayKeys(list), keys[j])
    {
      FirstSeenOrder(DayKeys(list), i, j);
    }
    forall date, item | date in grouped.entries
      ensures item in grouped.entries[date] <==> item in list && DateKey(item) == date
    {
      GroupOfMembers(list, date, item);
    }
    forall item | item in list && DateKey(item) != ""
      ensures DateKey(item) in grouped.entries
    {
      DayKeysMembers(list, DateKey(item));
    }
  }

  // ---------------------------------------------------------------------
  // Daily reduction
  // ---------------------------------------------------------------------

  function TempMins(items: seq<ForecastItem>): (r: seq<real>)
    ensures |r| == |items| && forall i :: 0 <= i < |items| ==> r[i] == items[i].main.tempMin
  {
    seq(|items|, i requires 0 <= i < |items| => items[i].main.tempMin)
  }

  function TempMaxs(items: seq<ForecastItem>): (r: seq<real>)
    ensures |r| == |items| && forall i :: 0 <= i < |items| ==> r[i] == items[i].main.tempMax
  {
    seq(|items|, i requires 0 <= i < |items| => items[i].main.tempMax)
  }

  function Humidities(items: seq<ForecastItem>): (r: seq<real>)
    ensures |r| == |items| && forall i :: 0 <= i < |items| ==> r[i] == items[i].main.humidity
  {
    seq(|items|, i requires 0 <= i < |items| => items[i].main.humidity)
  }

  function WindSpeeds(items: seq<ForecastItem>): (r: seq<real>)
    ensures |r| == |items| && forall i :: 0 <= i < |items| ==> r[i] == items[i].wind.speed
  {
    seq(|items|, i requires 0 <= i < |items| => items[i].wind.speed)
  }

  /** The category of each sample's first condition tag, in order; samples
      without a tag contribute nothing. */
  function ConditionTags(items: seq<ForecastItem>): seq<string> {
    if items == [] then []
    else
      var item := items[|items| - 1];
      ConditionTags(items[..|items| - 1]) + (if item.weather != [] then [item.weather[0].main] else [])
  }

  const DefaultCondition := "Clear"

  /** `d` is the dominant category of `conds`: one with the highest count,
      the earliest-seen among those tied at that count, or "Clear" when there
      are no tags at all. */
  ghost predicate IsDominant(conds: seq<string>, d: string) {
    if conds == [] then d == DefaultCondition
    else
      && d in conds
      && (forall c :: c in conds ==> Count(conds, c) <= Count(conds, d))
      && (forall c :: c in conds && Count(conds, c) == Count(conds, d) ==>
            FirstIndex(conds, d) <= FirstIndex(conds, c))
  }

  /** There is at most one dominant category. */
  lemma DominantUnique(conds: seq<string>, d1: string, d2: string)
    requires IsDominant(conds, d1) && IsDominant(conds, d2)
    ensures d1 == d2
  {
    if conds != [] {
      assert FirstIndex(conds, d1) == FirstIndex(conds, d2);
    }
  }

  /** A scan over the distinct categories in first-seen order that keeps the
      first one whose count is strictly greater than all before it finds the
      dominant category. */
  lemma DominantFromScan(conds: seq<string>, at: nat)
    requires at < |FirstSeen(conds)|
    requires forall j :: 0 <= j < |FirstSeen(conds)| ==>
      Count(conds, FirstSeen(conds)[j]) <= Count(conds, FirstSeen(conds)[at])
    requires forall j :: 0 <= j < at ==>
      Count(conds, FirstSeen(conds)[j]) < Count(conds, FirstSeen(conds)[at])
    ensures IsDominant(conds, FirstSeen(conds)[at])
  {
    var ks := FirstSeen(conds);
    var d := ks[at];
    forall c | c in conds
      ensures Count(conds, c) <= Count(conds, d)
      ensures Count(conds, c) == Count(conds, d) ==> FirstIndex(conds, d) <= FirstIndex(conds, c)
    {
      var j :| 0 <= j < |ks| && ks[j] == c;
      if at < j {
        FirstSeenOrder(conds, at, j);
      }
    }
  }

  /** The scan of the third loop over the categories `ks`: the candidate
      and its count, starting from "Clear" and 0 and replaced only on a
      strictly greater count. */
  function Scan(conds: seq<string>, ks: seq<string>): (string, nat) {
    if ks == [] then (DefaultCondition, 0)
    else
      var prev := Scan(conds, ks[..|ks| - 1]);
      var k := ks[|ks| - 1];
      if Count(conds, k) > prev.1 then (k, Count(conds, k)) else prev
  }

  /** The dominant category, computed: the scan over the distinct categories
      in first-seen order. */
  function Dominant(conds: seq<string>): string {
    Scan(conds, FirstSeen(conds)).0
  }

  /** `ks[at]` has the greatest count among `ks`, and every category before
      it has a smaller one. */
  ghost predicate FirstMaximumAt(conds: seq<string>, ks: seq<string>, at: int) {
    && 0 <= at < |ks|
    && (forall j :: 0 <= j < |ks| ==> Count(conds, ks[j]) <= Count(conds, ks[at]))
    && (forall j :: 0 <= j < at ==> Count(conds, ks[j]) < Count(conds, ks[at]))
  }

  /** Over categories that all occur, the scan ends on the first category
      with the greatest count, and keeps that count. */
  lemma {:induction false} ScanFindsFirstMaximum(conds: seq<string>, ks: seq<string>) returns (at: int)
    requires forall j :: 0 <= j < |ks| ==> Count(conds, ks[j]) > 0
    ensures ks == [] ==> Scan(conds, ks) == (DefaultCondition, 0)
    ensures ks != [] ==> FirstMaximumAt(conds, ks, at) && Scan(conds, ks) == (ks[at], Count(conds, ks[at]))
  {
    at := 0;
    if ks != [] {
      var prefix := ks[..|ks| - 1];
      var k := ks[|ks| - 1];
      assert forall j :: 0 <= j < |prefix| ==> prefix[j] == ks[j];
      var before := ScanFindsFirstMaximum(conds, prefix);
      if prefix == [] || Count(conds, k) > Count(conds, prefix[before]) {
        at := |ks| - 1;
      } else {
        at := before;
      }
    }
  }

  /** The computed category is the dominant one. */
  lemma DominantIsDominant(conds: seq<string>)
    ensures IsDominant(conds, Dominant(conds))
  {
    var ks := FirstSeen(conds);
    forall j | 0 <= j < |ks|
      ensures Count(conds, ks[j]) > 0
    {
      CountPositive(conds, ks[j]);
    }
    var at := ScanFindsFirstMaximum(conds, ks);
    if conds != [] {
      assert conds[0] in ks;
      DominantFromScan(conds, at);
    }
  }

  /** What `processDailyForecast(items, date)` returns: the rounded extreme
      temperatures, the rounded mean humidity, the mean wind speed rounded
      to 0.1, and the dominant category with its sky condition. */
  ghost function DailySummary(items: seq<ForecastItem>, date: string): DailyForecast
    requires |items| > 0
  {
    var dominant := Dominant(ConditionTags(items));
    DailyForecast(
      date, Round(SeqMin(TempMins(items))), Round(SeqMax(TempMaxs(items))),
      Round(Mean(Humidities(items))), RoundTenth(Mean(WindSpeeds(items))),
      GetCondition(dominant), dominant)
  }

  /** `processDailyForecast(items, date)`; it is only ever called with a
      day's non-empty group. Its three loops are the three methods below. */
  method ProcessDailyForecast(items: seq<ForecastItem>, date: string) returns (d: DailyForecast)
    requires |items| > 0
    ensures d == DailySummary(items, date)
  {
    var tempMin, tempMax, totalHumidity, totalWindSpeed, conditions := ScanSamples(items);
    var avgHumidity := Round(totalHumidity / (|items| as real));
    var avgWindSpeed := RoundTenth(totalWindSpeed / (|items| as real));
    var conditionCounts := CountConditions(conditions);
    var dominantCondition := PickDominant(conditionCounts, conditions);
    d := DailyForecast(date, Round(tempMin), Round(tempMax), avgHumidity, avgWindSpeed,
                       GetCondition(dominantCondition), dominantCondition);
  }

  /** The first loop of `processDailyForecast`: running extremes, running
      totals, and the first tag of each sample that has one. */
  method ScanSamples(items: seq<ForecastItem>)
    returns (tempMin: real, tempMax: real, totalHumidity: real, totalWindSpeed: real, conditions: seq<string>)
    requires |items| > 0
    ensures tempMin == SeqMin(TempMins(items)) && tempMax == SeqMax(TempMaxs(items))
    ensures totalHumidity == Sum(Humidities(items)) && totalWindSpeed == Sum(WindSpeeds(items))
    ensures conditions == ConditionTags(items)
  {
    // Math.min(Infinity, t) and Math.max(-Infinity, t) are t, so the running
    // extremes may start at the first sample's values.
    tempMin, tempMax := items[0].main.tempMin, items[0].main.tempMax;
    totalHumidity, totalWindSpeed := 0.0, 0.0;
    conditions := [];
    for n := 0 to |items|
      invariant Scanned(items, n, tempMin, tempMax, totalHumidity, totalWindSpeed, conditions)
    {
      var item := items[n];
      ScanStep(items, n, tempMin, tempMax, totalHumidity, totalWindSpeed, conditions);
      tempMin := if item.main.tempMin < tempMin then item.main.tempMin else tempMin;
      tempMax := if item.main.tempMax > tempMax then item.main.tempMax else tempMax;
      totalHumidity := totalHumidity + item.main.humidity;
      totalWindSpeed := totalWindSpeed + item.wind.speed;
      if item.weather != [] {
        conditions := conditions + [item.weather[0].main];
      }
    }
    ScanDone(items, tempMin, tempMax, totalHumidity, totalWindSpeed, conditions);
  }

  /** The running values of the first loop after its first `n` samples. */
  ghost predicate Scanned(items: seq<ForecastItem>, n: nat, tempMin: real, tempMax: real,
                          totalHumidity: real, totalWindSpeed: real, conditions: seq<string>)
    requires 0 < |items|
  {
    && n <= |items|
    && (n == 0 ==> tempMin == items[0].main.tempMin && tempMax == items[0].main.tempMax)
    && (n > 0 ==> tempMin == SeqMin(TempMins(items)[..n]) && tempMax == SeqMax(TempMaxs(items)[..n]))
    && totalHumidity == Sum(Humidities(items)[..n]) && totalWindSpeed == Sum(WindSpeeds(items)[..n])
    && conditions == ConditionTags(items[..n])
  }

  /** One iteration of the first loop keeps its running values exact. */
  lemma ScanStep(items: seq<ForecastItem>, n: nat, tempMin: real, tempMax: real,
                 totalHumidity: real, totalWindSpeed: real, conditions: seq<string>)
    requires n < |items| && Scanned(items, n, tempMin, tempMax, totalHumidity, totalWindSpeed, conditions)
    ensures var item := items[n];
      Scanned(items, n + 1,
        if item.main.tempMin < tempMin then item.main.tempMin else tempMin,
        if item.main.tempMax > tempMax then item.main.tempMax else tempMax,
        totalHumidity + item.main.humidity, totalWindSpeed + item.wind.speed,
        conditions + (if item.weather != [] then [item.weather[0].main] else []))
  {
    PrefixStep(TempMins(items), n);
    PrefixStep(TempMaxs(items), n);
    PrefixStep(Humidities(items), n);
    PrefixStep(WindSpeeds(items), n);
    ConditionTagsStep(items, n);
  }

  /** After the last sample the running values are those of the whole day. */
  lemma ScanDone(items: seq<ForecastItem>, tempMin: real, tempMax: real,
                 totalHumidity: real, totalWindSpeed: real, conditions: seq<string>)
    requires 0 < |items| && Scanned(items, |items|, tempMin, tempMax, totalHumidity, totalWindSpeed, conditions)
    ensures tempMin == SeqMin(TempMins(items)) && tempMax == SeqMax(TempMaxs(items))
    ensures totalHumidity == Sum(Humidities(items)) && totalWindSpeed == Sum(WindSpeeds(items))
    ensures conditions == ConditionTags(items)
  {
    assert TempMins(items)[..|items|] == TempMins(items) && TempMaxs(items)[..|items|] == TempMaxs(items);
    assert Humidities(items)[..|items|] == Humidities(items) && WindSpeeds(items)[..|items|] == WindSpeeds(items);
    assert items[..|items|] == items;
  }

  lemma ConditionTagsStep(items: seq<ForecastItem>, n: nat)
    requires n < |items|
    ensures ConditionTags(items[..n + 1]) ==
      ConditionTags(items[..n]) + (if items[n].weather != [] then [items[n].weather[0].main] else [])
  {
    assert items[..n + 1][..n] == items[..n];
  }

  /** `counts` tallies `conds`: one entry per distinct category, in
      first-seen order, holding its number of occurrences. */
  ghost predicate IsTally(conds: seq<string>, counts: OrderedMap<string, nat>) {
    && counts.keys == FirstSeen(conds)
    && (forall c :: c in counts.entries <==> c in conds)
    && (forall c :: c in counts.entries ==> counts.entries[c] == Count(conds, c))
  }

  /** The second loop: `conditionCounts.set(cond, (conditionCounts.get(cond) ?? 0) + 1)`. */
  method CountConditions(conditions: seq<string>) returns (conditionCounts: OrderedMap<string, nat>)
    ensures IsTally(conditions, conditionCounts)
  {
    conditionCounts := Empty();
    for n := 0 to |conditions|
      invariant IsTally(conditions[..n], conditionCounts)
    {
      var cond := conditions[n];
      assert conditions[..n + 1] == conditions[..n] + [cond];
      var count := match conditionCounts.Get(cond) case Some(k) => k case None => 0;
      TallyValid(conditions[..n], conditionCounts);
      TallyExtends(conditions[..n], conditionCounts.keys, conditionCounts.entries, cond);
      conditionCounts := conditionCounts.Set(cond, count + 1);
    }
    assert conditions[..|conditions|] == conditions;
  }

  /** A tally is a well-formed map. */
  lemma TallyValid(conds: seq<string>, counts: OrderedMap<string, nat>)
    requires IsTally(conds, counts)
    ensures counts.Valid()
  {
  }

  /** Counting one more occurrence of `cond` keeps the tally exact. */
  lemma TallyExtends(conds: seq<string>, keys: seq<string>, entries: map<string, nat>, cond: string)
    requires IsTally(conds, OrderedMap(keys, entries))
    ensures IsTally(conds + [cond], OrderedMap(
      if cond in entries then keys else keys + [cond],
      entries[cond := (if cond in entries then entries[cond] else 0) + 1]))
  {
    FirstSeenSnoc(conds, cond);
    CountPositive(conds, cond);
    var next := entries[cond := (if cond in entries then entries[cond] else 0) + 1];
    forall c | c in next
      ensures next[c] == Count(conds + [cond], c)
    {
      CountSnoc(conds, cond, c);
    }
  }

  /** The third loop: walk the tally in insertion order and replace the
      candidate only on a strictly greater count, starting from "Clear" and 0. */
  method PickDominant(conditionCounts: OrderedMap<string, nat>, ghost conditions: seq<string>)
    returns (dominantCondition: string)
    requires IsTally(conditions, conditionCounts)
    ensures dominantCondition == Dominant(conditions)
    ensures IsDominant(conditions, dominantCondition)
  {
    var keys := conditionCounts.keys;
    dominantCondition := DefaultCondition;
    var maxCount := 0;
    for n := 0 to |keys|
      invariant (dominantCondition, maxCount) == Scan(conditions, keys[..n])
    {
      var cond := keys[n];
      assert keys[..n + 1][..n] == keys[..n];
      var count := conditionCounts.entries[cond];
      if count > maxCount {
        maxCount := count;
        dominantCondition := cond;
      }
    }
    assert keys[..|keys|] == keys;
    DominantIsDominant(conditions);
  }

  /** If no sample's minimum exceeds its own maximum, the day's minimum does
      not exceed the day's maximum. */
  lemma DailyTemperaturesOrdered(items: seq<ForecastItem>, date: string)
    requires |items| > 0
    requires forall i :: 0 <= i < |items| ==> items[i].main.tempMin <= items[i].main.tempMax
    ensures DailySummary(items, date).tempMin <= DailySummary(items, date).tempMax
  {
    assert SeqMin(TempMins(items)) <= TempMins(items)[0] <= TempMaxs(items)[0] <= SeqMax(TempMaxs(items));
    RoundMonotone(SeqMin(TempMins(items)), SeqMax(TempMaxs(items)));
  }

  /** The day's `tempMin` is the rounded `temp_min` of one of its samples and
      no sample's rounded `temp_min` is lower; likewise `tempMax` is the
      greatest rounded `temp_max` of a sample. */
  lemma DailyExtremesAttained(items: seq<ForecastItem>, date: string)
    requires |items| > 0
    ensures exists i :: 0 <= i < |items| && DailySummary(items, date).tempMin == Round(items[i].main.tempMin)
    ensures exists i :: 0 <= i < |items| && DailySummary(items, date).tempMax == Round(items[i].main.tempMax)
    ensures forall i :: 0 <= i < |items| ==> DailySummary(items, date).tempMin <= Round(items[i].main.tempMin)
    ensures forall i :: 0 <= i < |items| ==> Round(items[i].main.tempMax) <= DailySummary(items, date).tempMax
  {
    var mins, maxs := TempMins(items), TempMaxs(items);
    SeqMinAttained(mins);
    SeqMaxAttained(maxs);
    var lo :| 0 <= lo < |mins| && mins[lo] == SeqMin(mins);
    var hi :| 0 <= hi < |maxs| && maxs[hi] == SeqMax(maxs);
    assert DailySummary(items, date).tempMin == Round(items[lo].main.tempMin);
    assert DailySummary(items, date).tempMax == Round(items[hi].main.tempMax);
    forall i | 0 <= i < |items|
      ensures DailySummary(items, date).tempMin <= Round(items[i].main.tempMin)
      ensures Round(items[i].main.tempMax) <= DailySummary(items, date).tempMax
    {
      RoundMonotone(SeqMin(mins), mins[i]);
      RoundMonotone(maxs[i], SeqMax(maxs));
    }
  }

  /** The day's humidity and wind speed lie between the rounded smallest and
      the rounded largest sample value. */
  lemma DailyAveragesBounded(items: seq<ForecastItem>, date: string)
    requires |items| > 0
    ensures Round(SeqMin(Humidities(items))) <= DailySummary(items, date).humidity <= Round(SeqMax(Humidities(items)))
    ensures RoundTenth(SeqMin(WindSpeeds(items))) <= DailySummary(items, date).windSpeed <= RoundTenth(SeqMax(WindSpeeds(items)))
  {
    var hums, winds := Humidities(items), WindSpeeds(items);
    MeanBetween(hums);
    MeanBetween(winds);
    RoundMonotone(SeqMin(hums), Mean(hums));
    RoundMonotone(Mean(hums), SeqMax(hums));
    RoundTenthMonotone(SeqMin(winds), Mean(winds));
    RoundTenthMonotone(Mean(winds), SeqMax(winds));
  }

  /** The day's description is the first tag of one of its samples, or
      "Clear" when none has a tag. */
  lemma DailyDescriptionFromTags(items: seq<ForecastItem>, date: string)
    requires |items| > 0
    ensures var d := DailySummary(items, date);
      d.description == DefaultCondition || d.description in ConditionTags(items)
    ensures var d := DailySummary(items, date);
      ConditionTags(items) == [] ==> d.description == DefaultCondition && d.condition == Sun
  {
    DominantIsDominant(ConditionTags(items));
    if ConditionTags(items) == [] {
      ClearExample();
    }
  }

  lemma CountTwo(x: string, y: string, c: string)
    ensures Count([x, y], c) == (if x == c then 1 else 0) + (if y == c then 1 else 0)
  {
    assert [x, y][..1] == [x] && [x][..0] == [];
    assert Count([x], c) == (if x == c then 1 else 0);
  }

  lemma CountThree(x: string, y: string, z: string, c: string)
    ensures Count([x, y, z], c) == (if x == c then 1 else 0) + (if y == c then 1 else 0) + (if z == c then 1 else 0)
  {
    assert [x, y, z][..2] == [x, y];
    CountTwo(x, y, c);
  }

  /** Majority vote: "Clouds" twice beats "Rain" once, wherever "Rain" stands. */
  lemma MajorityExample(d: string)
    ensures IsDominant(["Clouds", "Rain", "Clouds"], d) ==> d == "Clouds"
    ensures IsDominant(["Rain", "Clouds", "Clouds"], d) ==> d == "Clouds"
  {
    var a: seq<string> := ["Clouds", "Rain", "Clouds"];
    var c: seq<string> := ["Rain", "Clouds", "Clouds"];
    CountThree("Clouds", "Rain", "Clouds", "Clouds");
    CountThree("Clouds", "Rain", "Clouds", "Rain");
    CountThree("Rain", "Clouds", "Clouds", "Clouds");
    CountThree("Rain", "Clouds", "Clouds", "Rain");
  }

  /** Tie-break: with equal counts the category seen first wins; with no
      tags at all the default "Clear" is dominant. */
  lemma TieBreakExample(d: string)
    ensures IsDominant(["Clouds", "Rain"], d) ==> d == "Clouds"
    ensures IsDominant([], d) ==> d == DefaultCondition
  {
    var b: seq<string> := ["Clouds", "Rain"];
    if IsDominant(b, d) {
      CountTwo("Clouds", "Rain", "Clouds");
      CountTwo("Clouds", "Rain", "Rain");
      assert FirstIndex(b, "Clouds") == 0;
      assert FirstIndex(b, "Rain") == 1;
    }
  }

  // ---------------------------------------------------------------------
  // The six-day forecast and the current conditions
  // ---------------------------------------------------------------------

  const MaxForecastDays := 6

  /** An entry `[date, items]` of the grouped map. */
  datatype Day = Day(date: string, items: seq<ForecastItem>)

  ghost function SummaryOf(day: Day): DailyForecast
    requires |day.items| > 0
  {
    DailySummary(day.items, day.date)
  }

  /** The entries of the grouped map, in iteration order. */
  function DayEntries(list: seq<ForecastItem>): (r: seq<Day>)
    ensures |r| == |FirstSeen(DayKeys(list))|
  {
    var keys := FirstSeen(DayKeys(list));
    seq(|keys|, i requires 0 <= i < |keys| => Day(keys[i], GroupOf(list, keys[i])))
  }

  /** The first six of `days` (all of them if there are fewer). */
  function FirstDays(days: seq<Day>): (r: seq<Day>)
    ensures |r| == if |days| < MaxForecastDays then |days| else MaxForecastDays
  {
    days[..if |days| < MaxForecastDays then |days| else MaxForecastDays]
  }

  /** `forecast` holds the summaries of the first six entries of the grouped
      map (all of them if there are fewer), in iteration order. */
  ghost predicate IsForecast(list: seq<ForecastItem>, forecast: seq<DailyForecast>) {
    Pointwise(SummaryOf, FirstDays(DayEntries(list)), forecast)
  }

  /** The grouping and the capped loop of `getWeatherByCity`. */
  method BuildForecast(list: seq<ForecastItem>) returns (forecast: seq<DailyForecast>)
    ensures IsForecast(list, forecast)
  {
    var grouped := GroupForecastByDay(list);
    EntriesOfGrouping(list, grouped);
    forecast := SummarizeFirstDays(grouped);
  }

  /** Every group of `grouped` holds at least one sample. */
  ghost predicate NonEmptyGroups(grouped: OrderedMap<string, seq<ForecastItem>>) {
    forall date :: date in grouped.entries ==> |grouped.entries[date]| > 0
  }

  /** The `[date, items]` pairs of a map, in iteration order. */
  function Entries(grouped: OrderedMap<string, seq<ForecastItem>>): (r: seq<Day>)
    requires grouped.Valid()
    ensures |r| == |grouped.keys|
  {
    seq(|grouped.keys|, i requires 0 <= i < |grouped.keys| && grouped.Valid() =>
      Day(grouped.keys[i], grouped.entries[grouped.keys[i]]))
  }

  /** The entries of the grouping of `list` are the days of `list`, and
      none of them is empty. */
  lemma EntriesOfGrouping(list: seq<ForecastItem>, grouped: OrderedMap<string, seq<ForecastItem>>)
    requires IsGrouping(list, grouped)
    ensures NonEmptyGroups(grouped)
    ensures Entries(grouped) == DayEntries(list)
  {
    forall date | date in grouped.entries
      ensures |grouped.entries[date]| > 0
    {
      GroupOfNonEmpty(list, date);
    }
  }

  /** `for (const [date, items] of groupedForecast) if (daysAdded < 6) ...` */
  method SummarizeFirstDays(grouped: OrderedMap<string, seq<ForecastItem>>) returns (forecast: seq<DailyForecast>)
    requires grouped.Valid() && NonEmptyGroups(grouped)
    ensures Pointwise(SummaryOf, FirstDays(Entries(grouped)), forecast)
  {
    ghost var days := Entries(grouped);
    forecast := [];
    var daysAdded := 0;
    for n := 0 to |grouped.keys|
      invariant daysAdded == |forecast| == (if n < MaxForecastDays then n else MaxForecastDays)
      invariant Pointwise(SummaryOf, days[..daysAdded], forecast)
    {
      if daysAdded < MaxForecastDays {
        forecast := AddDay(grouped, n, forecast);
        daysAdded := daysAdded + 1;
      }
    }
  }

  /** `dailyForecasts.push(processDailyForecast(items, date))` for the
      `n`-th entry `[date, items]` of the grouped map. */
  method AddDay(grouped: OrderedMap<string, seq<ForecastItem>>, n: nat, forecast: seq<DailyForecast>)
    returns (extended: seq<DailyForecast>)
    requires grouped.Valid() && NonEmptyGroups(grouped) && n < |grouped.keys|
    requires Pointwise(SummaryOf, Entries(grouped)[..n], forecast)
    ensures Pointwise(SummaryOf, Entries(grouped)[..n + 1], extended)
    ensures |extended| == |forecast| + 1
  {
    var date := grouped.keys[n];
    var items := grouped.entries[date];
    var day := ProcessDailyForecast(items, date);
    PointwisePrefixStep(SummaryOf, Entries(grouped), n, forecast, day);
    extended := forecast + [day];
  }

  /** The forecast's i-th day summarises the samples of the i-th date seen
      in the samples; no date appears twice and there are at most six. */
  lemma ForecastDays(list: seq<ForecastItem>, forecast: seq<DailyForecast>)
    requires IsForecast(list, forecast)
    ensures |forecast| <= MaxForecastDays
    ensures |forecast| == if |FirstSeen(DayKeys(list))| < MaxForecastDays then |FirstSeen(DayKeys(list))| else MaxForecastDays
    ensures forall i :: 0 <= i < |forecast| ==>
      var date := FirstSeen(DayKeys(list))[i];
      |GroupOf(list, date)| > 0 && forecast[i] == DailySummary(GroupOf(list, date), date)
    ensures forall i :: 0 <= i < |forecast| ==> forecast[i].date == FirstSeen(DayKeys(list))[i]
    ensures forall i, j :: 0 <= i < j < |forecast| ==> forecast[i].date != forecast[j].date
  {
    var keys := FirstSeen(DayKeys(list));
    forall i | 0 <= i < |forecast|
      ensures |GroupOf(list, keys[i])| > 0 && forecast[i] == DailySummary(GroupOf(list, keys[i]), keys[i])
      ensures forecast[i].date == keys[i]
    {
      ForecastDayAt(list, forecast, i);
    }
  }

  /** One day of the forecast: the summary of the `i`-th date's group. */
  lemma ForecastDayAt(list: seq<ForecastItem>, forecast: seq<DailyForecast>, i: nat)
    requires IsForecast(list, forecast) && i < |forecast|
    ensures i < |FirstSeen(DayKeys(list))|
    ensures var date := FirstSeen(DayKeys(list))[i];
      |GroupOf(list, date)| > 0 && forecast[i] == DailySummary(GroupOf(list, date), date)
    ensures forecast[i].date == FirstSeen(DayKeys(list))[i]
  {
    var days := DayEntries(list);
    assert FirstDays(days)[i] == days[i];
  }

  const DefaultDescription := "C\U{00E9}u limpo"

  /** The `current` part of the response. */
  function NormalizeCurrent(c: CurrentResponse): (w: CurrentWeather)
    ensures c.main.temp - 0.5 < w.temp as real <= c.main.temp + 0.5
    ensures c.main.tempMin - 0.5 < w.tempMin as real <= c.main.tempMin + 0.5
    ensures c.main.tempMax - 0.5 < w.tempMax as real <= c.main.tempMax + 0.5
    ensures w.humidity == c.main.humidity
    ensures c.wind.speed - 0.05 < w.windSpeed <= c.wind.speed + 0.05
    ensures (w.windSpeed * 10.0).Floor as real == w.windSpeed * 10.0
    ensures c.weather == [] ==> w.condition == Sun && w.description == DefaultDescription
    ensures c.weather != [] ==>
      w.condition == GetCondition(c.weather[0].main) && w.description == c.weather[0].description
  {
    RoundTenthIsTenths(c.wind.speed);
    var tag := if c.weather != [] then Some(c.weather[0]) else None;
    CurrentWeather(
      Round(c.main.temp), Round(c.main.tempMin), Round(c.main.tempMax), c.main.humidity,
      RoundTenth(c.wind.speed),
      if tag.Some? then GetCondition(tag.value.main) else Sun,
      if tag.Some? then tag.value.description else DefaultDescription)
  }

  /** What `getWeatherByCity` can throw. */
  datatype Failure = ApiFailure(apiError: OpenWeatherClient.ApiError) | OtherFailure(message: string)

  /** `getWeatherByCity`, given the outcomes of the two fetches.
      `Promise.all` rejects with whichever rejection comes first in time;
      `forecastFailsFirst` says which when both fail. The failure is passed
      on unchanged. */
  method GetWeatherByCity(
    current: Result<CurrentResponse, Failure>, forecast: Result<ForecastResponse, Failure>,
    forecastFailsFirst: bool)
    returns (r: Result<WeatherResponse, Failure>)
    ensures r.Failure? <==> current.Failure? || forecast.Failure?
    ensures r.Failure? ==> r.error == (if current.Failure? && !(forecast.Failure? && forecastFailsFirst)
                                       then current.error else forecast.error)
    ensures r.Success? ==>
      && r.value.city == current.value.name
      && r.value.country == current.value.sys.country
      && r.value.current == NormalizeCurrent(current.value)
      && IsForecast(forecast.value.list, r.value.forecast)
  {
    if current.Failure? && !(forecast.Failure? && forecastFailsFirst) {
      return Failure(current.error);
    }
    if forecast.Failure? {
      return Failure(forecast.error);
    }
    var daily := BuildForecast(forecast.value.list);
    var now := current.value;
    r := Success(WeatherResponse(now.name, now.sys.country, NormalizeCurrent(now), daily));
  }
}
