/**
 * The pure data reshaping of the widget's script: the label/value zip that
 * turns statistical observations into a chart series, the extraction of the
 * observation values, and the strings the script builds for its two web
 * requests and for the flag comparison.
 */
module Reshape {
  import opened Wrappers

  // ---------------------------------------------------------------------
  // combineLabelsAndData
  // ---------------------------------------------------------------------

  /** JavaScript `data[i]`: the element, or `undefined` past the end. */
  function At<V>(data: seq<Option<V>>, i: nat): Option<V>
  {
    if i < |data| then data[i] else None
  }

  /**
   * `labels.reduce((obj, label, index) => { obj[label] = data[index]; return obj; }, {})`.
   * The reduce visits the labels left to right, so the result for a prefix
   * is extended by one assignment for the next label.
   */
  function CombineLabelsAndData<K(==), V>(labels: seq<K>, data: seq<Option<V>>): (obj: map<K, Option<V>>)
    ensures obj.Keys == set l | l in labels
    decreases |labels|
  {
    if |labels| == 0 then map[]
    else
      var n := |labels| - 1;
      var prev := CombineLabelsAndData(labels[..n], data);
      assert labels == labels[..n] + [labels[n]];
      prev[labels[n] := At(data, n)]
  }

  /** `i` is the last position of `labels` that carries the label `labels[i]`. */
  predicate IsLastIndex<K(==)>(labels: seq<K>, i: nat)
  {
    i < |labels| && forall j :: i < j < |labels| ==> labels[j] != labels[i]
  }

  /** No label occurs twice. */
  predicate Distinct<K(==)>(labels: seq<K>)
  {
    forall i, j :: 0 <= i < j < |labels| ==> labels[i] != labels[j]
  }

  /** The last position carrying `k`. */
  function LastIndexOf<K(==)>(labels: seq<K>, k: K): (i: nat)
    requires k in labels
    ensures IsLastIndex(labels, i) && labels[i] == k
    decreases |labels|
  {
    var n := |labels| - 1;
    if labels[n] == k then n
    else
      assert k in labels[..n] by {
        var j :| 0 <= j < |labels| && labels[j] == k;
        assert j < n && labels[..n][j] == k;
      }
      LastIndexOf(labels[..n], k)
  }

  /** A later label overwrites an earlier one: each label gets the value at its last position. */
  lemma {:induction false} CombineLastWins<K, V>(labels: seq<K>, data: seq<Option<V>>, i: nat)
    requires IsLastIndex(labels, i)
    ensures labels[i] in CombineLabelsAndData(labels, data)
    ensures CombineLabelsAndData(labels, data)[labels[i]] == At(data, i)
    decreases |labels|
  {
    var n := |labels| - 1;
    if i < n {
      var front := labels[..n];
      assert front[i] == labels[i];
      assert IsLastIndex(front, i) by {
        forall j | i < j < |front| ensures front[j] != front[i] {
          assert front[j] == labels[j];
        }
      }
      CombineLastWins(front, data, i);
      assert labels[n] != labels[i];
    }
  }

  /** The value under a key is the datum at that key's last position. */
  lemma {:induction false} CombineLookup<K, V>(labels: seq<K>, data: seq<Option<V>>, k: K)
    requires k in labels
    ensures k in CombineLabelsAndData(labels, data)
    ensures CombineLabelsAndData(labels, data)[k] == At(data, LastIndexOf(labels, k))
  {
    CombineLastWins(labels, data, LastIndexOf(labels, k));
  }

  /** With distinct labels the zip is positional: the i-th label gets the i-th datum. */
  lemma {:induction false} CombineDistinct<K, V>(labels: seq<K>, data: seq<Option<V>>, i: nat)
    requires Distinct(labels) && i < |labels|
    ensures labels[i] in CombineLabelsAndData(labels, data)
    ensures CombineLabelsAndData(labels, data)[labels[i]] == At(data, i)
    ensures i < |data| ==> CombineLabelsAndData(labels, data)[labels[i]] == data[i]
    ensures i >= |data| ==> CombineLabelsAndData(labels, data)[labels[i]] == None
  {
    CombineLastWins(labels, data, i);
  }

  // ---------------------------------------------------------------------
  // Observation values and the housing-price series
  // ---------------------------------------------------------------------

  /** `item[0]` of a JavaScript array: its first element, or `undefined` when it is empty. */
  function First<V>(item: seq<V>): Option<V>
  {
    if |item| > 0 then Some(item[0]) else None
  }

  /**
   * `Object.values(observations).map(item => item[0])`: the observations are
   * given already in the order `Object.values` lists them.
   */
  function ObservationValues<V>(observations: seq<seq<V>>): (values: seq<Option<V>>)
    ensures |values| == |observations|
    ensures forall i :: 0 <= i < |observations| ==> values[i] == First(observations[i])
    decreases |observations|
  {
    if |observations| == 0 then []
    else [First(observations[0])] + ObservationValues(observations[1..])
  }

  /** One country's housing-price series: period labels zipped with its observation values. */
  function Series<V>(labels: seq<string>, observations: seq<seq<V>>): map<string, Option<V>>
  {
    CombineLabelsAndData(labels, ObservationValues(observations))
  }

  /**
   * The series has a key for every period label and nothing else; with
   * distinct labels the i-th period carries the first component of the i-th
   * observation, and a period with no observation carries `undefined`.
   */
  lemma SeriesAt<V>(labels: seq<string>, observations: seq<seq<V>>, i: nat)
    requires Distinct(labels) && i < |labels|
    ensures Series(labels, observations).Keys == set l | l in labels
    ensures labels[i] in Series(labels, observations)
    ensures Series(labels, observations)[labels[i]]
         == if i < |observations| then First(observations[i]) else None
  {
    CombineDistinct(labels, ObservationValues(observations), i);
  }

  // ---------------------------------------------------------------------
  // Strings
  // ---------------------------------------------------------------------

  predicate IsUpper(c: char) { 'A' <= c <= 'Z' }

  /** `toLowerCase` on one character, for the ASCII letters. */
  function LowerChar(c: char): (d: char)
    ensures !IsUpper(d)
    ensures IsUpper(c) ==> 'a' <= d <= 'z'
    ensures !IsUpper(c) ==> d == c
  {
    if IsUpper(c) then (c as int + 32) as char else c
  }

  /** `String.prototype.toLowerCase`, for the ASCII letters. */
  function ToLowerCase(s: string): (r: string)
    ensures |r| == |s|
    ensures forall i :: 0 <= i < |s| ==> r[i] == LowerChar(s[i])
    decreases |s|
  {
    if |s| == 0 then "" else [LowerChar(s[0])] + ToLowerCase(s[1..])
  }

  /** Lower-casing leaves no upper-case letter, and doing it twice changes nothing more. */
  lemma ToLowerCaseIsLower(s: string)
    ensures forall i :: 0 <= i < |s| ==> !IsUpper(ToLowerCase(s)[i])
    ensures ToLowerCase(ToLowerCase(s)) == ToLowerCase(s)
  {
  }

  /** A character that is not a letter is kept, so one absent before is absent after. */
  lemma ToLowerCaseKeepsAbsent(s: string, c: char)
    requires c !in s && !('a' <= c <= 'z')
    ensures c !in ToLowerCase(s)
  {
  }

  /** The first position of `c` in `s`. */
  function IndexOf(s: string, c: char): (i: nat)
    requires c in s
    ensures i < |s| && s[i] == c && c !in s[..i]
    decreases |s|
  {
    if s[0] == c then 0
    else
      var j := IndexOf(s[1..], c);
      assert s[..j + 1] == [s[0]] + s[1..][..j];
      1 + j
  }

  /**
   * `String.prototype.split` with a one-character separator: the reading
   * the two web services and the reader apply to the strings built below.
   */
  function Split(s: string, sep: char): (parts: seq<string>)
    ensures |parts| >= 1
    decreases |s|
  {
    if sep !in s then [s]
    else
      var i := IndexOf(s, sep);
      [s[..i]] + Split(s[i + 1..], sep)
  }

  /** The first field ends at the first separator. */
  lemma SplitCons(a: string, sep: char, rest: string)
    requires sep !in a
    ensures Split(a + [sep] + rest, sep) == [a] + Split(rest, sep)
  {
    var s := a + [sep] + rest;
    assert s[|a|] == sep;
    var i := IndexOf(s, sep);
    assert s[..i] == a;
    assert s[i + 1..] == rest;
  }

  /** Two fields joined by a separator that occurs in neither split back into the two. */
  lemma SplitTwo(a: string, sep: char, b: string)
    requires sep !in a && sep !in b
    ensures Split(a + [sep] + b, sep) == [a, b]
  {
    SplitCons(a, sep, b);
  }

  /** The `codes` query value of the flag request: both codes lower-cased, comma-joined. */
  function FlagCodes(code1: string, code2: string): string
  {
    ToLowerCase(code1) + "," + ToLowerCase(code2)
  }

  const RestCountriesAlpha := "https://restcountries.com/v3.1/alpha?codes="

  /** The REST Countries request of `addEmojis`. */
  function FlagUrl(code1: string, code2: string): string
  {
    RestCountriesAlpha + FlagCodes(code1, code2)
  }

  /**
   * The flag request asks for the two codes in selection order, each
   * lower-cased, separated by one comma, after the fixed endpoint.
   */
  lemma FlagUrlCodes(code1: string, code2: string)
    requires ',' !in code1 && ',' !in code2
    ensures var url := FlagUrl(code1, code2);
      && |url| == |RestCountriesAlpha| + |code1| + 1 + |code2|
      && url[..|RestCountriesAlpha|] == RestCountriesAlpha
      && Split(url[|RestCountriesAlpha|..], ',') == [ToLowerCase(code1), ToLowerCase(code2)]
      && forall i :: |RestCountriesAlpha| <= i < |url| ==> !IsUpper(url[i])
  {
    var url := FlagUrl(code1, code2);
    ToLowerCaseKeepsAbsent(code1, ',');
    ToLowerCaseKeepsAbsent(code2, ',');
    assert url[|RestCountriesAlpha|..] == ToLowerCase(code1) + [','] + ToLowerCase(code2);
    SplitTwo(ToLowerCase(code1), ',', ToLowerCase(code2));
  }

  const OecdHousePrices := "https://sdmx.oecd.org/public/rest/data/OECD.ECO.MPD,DSD_AN_HOUSE_PRICES@DF_HOUSE_PRICES,1.0/"
  const OecdPeriod := ".A.RPI.?startPeriod=2014&endPeriod=2024&dimensionAtObservation=TIME_PERIOD"

  /** The series key of the OECD request: the two codes joined with `+`, unchanged. */
  function OecdKey(code1: string, code2: string): string
  {
    code1 + "+" + code2
  }

  /** The OECD house-price request of `getCountrydata`. */
  function OecdUrl(code1: string, code2: string): string
  {
    OecdHousePrices + OecdKey(code1, code2) + OecdPeriod
  }

  /**
   * The OECD request carries the two codes verbatim, in selection order,
   * separated by `+`, between the fixed dataflow path and the fixed
   * 2014-2024 annual period filter.
   */
  lemma OecdUrlCodes(code1: string, code2: string)
    requires '+' !in code1 && '+' !in code2
    ensures var url := OecdUrl(code1, code2);
      var keyEnd := |url| - |OecdPeriod|;
      && |OecdHousePrices| <= keyEnd
      && url[..|OecdHousePrices|] == OecdHousePrices
      && url[keyEnd..] == OecdPeriod
      && Split(url[|OecdHousePrices|..keyEnd], '+') == [code1, code2]
  {
    var url := OecdUrl(code1, code2);
    var keyEnd := |url| - |OecdPeriod|;
    assert url[|OecdHousePrices|..keyEnd] == code1 + ['+'] + code2;
    SplitTwo(code1, '+', code2);
  }

  /** The text `addEmojis` appends: `"{flag1} vs {flag2}"`. */
  function ComparisonText(flag1: string, flag2: string): string
  {
    flag1 + " vs " + flag2
  }

  /** Split at its spaces, the comparison text gives back both flags and the word between. */
  lemma ComparisonTextParts(flag1: string, flag2: string)
    requires ' ' !in flag1 && ' ' !in flag2
    ensures Split(ComparisonText(flag1, flag2), ' ') == [flag1, "vs", flag2]
  {
    assert ComparisonText(flag1, flag2) == flag1 + [' '] + ("vs" + [' '] + flag2);
    SplitCons(flag1, ' ', "vs" + [' '] + flag2);
    SplitTwo("vs", ' ', flag2);
  }

  /** The worked example: the zip is positional on the 2020-2022 labels. */
  lemma HousingSeriesExample()
    ensures Series(["2020", "2021", "2022"], [[100.0], [105.0], [110.0]])["2021"] == Some(105.0)
    ensures Series(["2020", "2021", "2022"], [[98.0], [102.0], [108.0]])["2021"] == Some(102.0)
  {
    var labels := ["2020", "2021", "2022"];
    assert Distinct(labels);
    SeriesAt(labels, [[100.0], [105.0], [110.0]], 1);
    SeriesAt(labels, [[98.0], [102.0], [108.0]], 1);
  }
}
