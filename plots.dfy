/**
 * The case-count aggregations of the briefing report (src/obr/plots.py):
 * distinct-country counts per status, epidemic curves, headline counts, the
 * per-district time series and the onset-to-event delays. A linelist is a
 * Frames.Frame; a missing cell is an absent key.
 */
module Plots {
  import opened Wrappers
  import opened Text
  import opened Frames

  /** Column holding each case's status; the default `status_col`. */
  const CaseStatus := "Case_status"

  // ===== get_countries_with_status =====

  /** The country values of the rows whose status is s; a missing country is the single value None, as in `unique()`. */
  function CountriesWith(df: Frame, countryCol: string, statusCol: string, s: string): set<Option<string>>
  {
    set i | 0 <= i < |df| && Cell(df[i], statusCol) == Some(s) :: Cell(df[i], countryCol)
  }

  /** The country values of the rows whose status differs from s; a missing status differs from every s. */
  function CountriesWithOther(df: Frame, countryCol: string, statusCol: string, s: string): set<Option<string>>
  {
    set i | 0 <= i < |df| && Cell(df[i], statusCol) != Some(s) :: Cell(df[i], countryCol)
  }

  /** The countries reporting s and nothing else. */
  function OnlyCountries(df: Frame, countryCol: string, statusCol: string, s: string): set<Option<string>>
  {
    CountriesWith(df, countryCol, statusCol, s) - CountriesWithOther(df, countryCol, statusCol, s)
  }

  const KeyPrefix := "n_countries_"

  function CountryKey(s: string): string
  {
    KeyPrefix + s
  }

  function OnlyKey(s: string): string
  {
    KeyPrefix + s + "_only"
  }

  /** The number of distinct countries reporting s. */
  function CountWith(df: Frame, countryCol: string, statusCol: string, s: string): nat
  {
    |CountriesWith(df, countryCol, statusCol, s)|
  }

  /** The number of distinct countries reporting s and nothing else. */
  function CountOnly(df: Frame, countryCol: string, statusCol: string, s: string): nat
  {
    |OnlyCountries(df, countryCol, statusCol, s)|
  }

  /**
   * The dictionary after writing, for each status in turn, its count key and
   * then its "only" key; later writes replace earlier ones.
   */
  function Tally(statuses: seq<string>, count: string -> nat, only: string -> nat): map<string, nat>
  {
    if statuses == [] then map[]
    else
      var s := statuses[|statuses| - 1];
      Tally(statuses[..|statuses| - 1], count, only)[CountryKey(s) := count(s)][OnlyKey(s) := only(s)]
  }

  /** The dictionary `out` once the loop has handled the given statuses, in order. */
  function StatusCountries(df: Frame, countryCol: string, statusCol: string, statuses: seq<string>): map<string, nat>
  {
    Tally(statuses, s => CountWith(df, countryCol, statusCol, s), s => CountOnly(df, countryCol, statusCol, s))
  }

  /** No status of the list is another one followed by "_only", so no two keys written by the loop coincide. */
  predicate NoKeyClash(statuses: seq<string>)
  {
    forall s, t :: s in statuses && t in statuses ==> s != t + "_only"
  }

  /** Which keys coincide: the count key and the "only" key are each injective, and they meet only for s == t + "_only". */
  lemma KeyFacts(s: string, t: string)
    ensures CountryKey(s) == CountryKey(t) <==> s == t
    ensures OnlyKey(s) == OnlyKey(t) <==> s == t
    ensures CountryKey(s) == OnlyKey(t) <==> s == t + "_only"
  {
    if CountryKey(s) == CountryKey(t) {
      assert s == CountryKey(s)[|KeyPrefix|..] == CountryKey(t)[|KeyPrefix|..] == t;
    }
    if OnlyKey(s) == OnlyKey(t) {
      assert |s| == |t|;
      assert s == OnlyKey(s)[|KeyPrefix|..|KeyPrefix| + |s|] == OnlyKey(t)[|KeyPrefix|..|KeyPrefix| + |t|] == t;
    }
    if CountryKey(s) == OnlyKey(t) {
      assert s == CountryKey(s)[|KeyPrefix|..] == OnlyKey(t)[|KeyPrefix|..] == t + "_only";
    }
    if s == t + "_only" {
      assert KeyPrefix + (t + "_only") == KeyPrefix + t + "_only";
    }
  }

  /** The dictionary holds exactly the two keys of every status written. */
  lemma {:induction false} TallyKeys(statuses: seq<string>, count: string -> nat, only: string -> nat)
    ensures Tally(statuses, count, only).Keys
         == (set s | s in statuses :: CountryKey(s)) + (set s | s in statuses :: OnlyKey(s))
  {
    if statuses != [] {
      var init := statuses[..|statuses| - 1];
      var last := statuses[|statuses| - 1];
      TallyKeys(init, count, only);
      assert Tally(statuses, count, only).Keys == Tally(init, count, only).Keys + {CountryKey(last), OnlyKey(last)};
      KeySetsStep(statuses);
    }
  }

  lemma KeySetsStep(statuses: seq<string>)
    requires statuses != []
    ensures var init := statuses[..|statuses| - 1];
      var last := statuses[|statuses| - 1];
      && (set s | s in statuses :: CountryKey(s)) == (set s | s in init :: CountryKey(s)) + {CountryKey(last)}
      && (set s | s in statuses :: OnlyKey(s)) == (set s | s in init :: OnlyKey(s)) + {OnlyKey(last)}
  {
    assert statuses == statuses[..|statuses| - 1] + [statuses[|statuses| - 1]];
  }

  /** When no two keys clash, every status written keeps the values written for it. */
  lemma {:induction false} TallyAt(statuses: seq<string>, count: string -> nat, only: string -> nat, s: string)
    requires NoKeyClash(statuses) && s in statuses
    ensures var out := Tally(statuses, count, only);
      CountryKey(s) in out && out[CountryKey(s)] == count(s) && OnlyKey(s) in out && out[OnlyKey(s)] == only(s)
  {
    var init := statuses[..|statuses| - 1];
    var last := statuses[|statuses| - 1];
    KeyFacts(s, last);
    KeyFacts(last, s);
    KeyFacts(s, s);
    assert last in statuses;
    assert s != last + "_only" && last != s + "_only";
    if s != last {
      assert statuses == init + [last];
      assert s in init;
      assert forall t :: t in init ==> t in statuses;
      TallyAt(init, count, only, s);
    }
  }

  /**
   * When no two keys clash, every listed status s maps `n_countries_s` to the
   * number of distinct countries with a row of status s, and `n_countries_s_only`
   * to the number of those countries with no row of any other status.
   */
  lemma StatusCountriesValues(df: Frame, countryCol: string, statusCol: string, statuses: seq<string>)
    requires NoKeyClash(statuses)
    ensures var out := StatusCountries(df, countryCol, statusCol, statuses);
      forall s :: s in statuses ==>
        && CountryKey(s) in out && out[CountryKey(s)] == |CountriesWith(df, countryCol, statusCol, s)|
        && OnlyKey(s) in out && out[OnlyKey(s)] == |OnlyCountries(df, countryCol, statusCol, s)|
  {
    forall s | s in statuses {
      TallyAt(statuses, s => CountWith(df, countryCol, statusCol, s), s => CountOnly(df, countryCol, statusCol, s), s);
    }
  }

  /**
   * A country counts as "only s" exactly when some row of it has status s and
   * every row of it has status s (a missing status spoils it); hence the "only"
   * count never exceeds the count.
   */
  lemma OnlyCountriesMeaning(df: Frame, countryCol: string, statusCol: string, s: string)
    ensures forall c :: c in OnlyCountries(df, countryCol, statusCol, s) <==>
      && (exists i :: 0 <= i < |df| && Cell(df[i], countryCol) == c && Cell(df[i], statusCol) == Some(s))
      && (forall i :: 0 <= i < |df| && Cell(df[i], countryCol) == c ==> Cell(df[i], statusCol) == Some(s))
    ensures |OnlyCountries(df, countryCol, statusCol, s)| <= |CountriesWith(df, countryCol, statusCol, s)|
  {
    forall i | 0 <= i < |df| && Cell(df[i], statusCol) != Some(s)
      ensures Cell(df[i], countryCol) in CountriesWithOther(df, countryCol, statusCol, s)
    {
    }
    forall c
      ensures c in OnlyCountries(df, countryCol, statusCol, s) <==>
        && (exists i :: 0 <= i < |df| && Cell(df[i], countryCol) == c && Cell(df[i], statusCol) == Some(s))
        && (forall i :: 0 <= i < |df| && Cell(df[i], countryCol) == c ==> Cell(df[i], statusCol) == Some(s))
    {
      if exists i :: 0 <= i < |df| && Cell(df[i], countryCol) == c && Cell(df[i], statusCol) == Some(s) {
        var i :| 0 <= i < |df| && Cell(df[i], countryCol) == c && Cell(df[i], statusCol) == Some(s);
        assert Cell(df[i], countryCol) in CountriesWith(df, countryCol, statusCol, s);
      }
    }
    assert OnlyCountries(df, countryCol, statusCol, s) <= CountriesWith(df, countryCol, statusCol, s);
    SubsetCard(OnlyCountries(df, countryCol, statusCol, s), CountriesWith(df, countryCol, statusCol, s));
  }

  lemma SubsetCard<T>(a: set<T>, b: set<T>)
    requires a <= b
    ensures |a| <= |b|
  {
    assert b == a + (b - a);
  }

  /**
   * `get_countries_with_status`: for each status in turn, store the number of
   * distinct countries reporting it and the number reporting only it.
   */
  method GetCountriesWithStatus(df: Frame, countryCol: string, statuses: seq<string>, statusCol: string)
    returns (out: map<string, nat>)
    ensures out == StatusCountries(df, countryCol, statusCol, statuses)
    ensures out.Keys == (set s | s in statuses :: CountryKey(s)) + (set s | s in statuses :: OnlyKey(s))
    ensures NoKeyClash(statuses) ==> forall s :: s in statuses ==>
      && out[CountryKey(s)] == |CountriesWith(df, countryCol, statusCol, s)|
      && out[OnlyKey(s)] == |OnlyCountries(df, countryCol, statusCol, s)|
  {
    out := map[];
    for k := 0 to |statuses|
      invariant out == StatusCountries(df, countryCol, statusCol, statuses[..k])
    {
      var status := statuses[k];
      StatusCountriesStep(df, countryCol, statusCol, statuses, k);
      out := out[CountryKey(status) := |CountriesWith(df, countryCol, statusCol, status)|];
      out := out[OnlyKey(status) := |CountriesWith(df, countryCol, statusCol, status) - CountriesWithOther(df, countryCol, statusCol, status)|];
    }
    assert statuses[..|statuses|] == statuses;
    StatusCountriesKeys(df, countryCol, statusCol, statuses);
    if NoKeyClash(statuses) {
      StatusCountriesValues(df, countryCol, statusCol, statuses);
    }
  }

  /** One turn of the loop writes the status's two keys over the dictionary so far. */
  lemma StatusCountriesStep(df: Frame, countryCol: string, statusCol: string, statuses: seq<string>, k: nat)
    requires k < |statuses|
    ensures var s := statuses[k];
      StatusCountries(df, countryCol, statusCol, statuses[..k + 1])
      == StatusCountries(df, countryCol, statusCol, statuses[..k])
           [CountryKey(s) := |CountriesWith(df, countryCol, statusCol, s)|]
           [OnlyKey(s) := |CountriesWith(df, countryCol, statusCol, s) - CountriesWithOther(df, countryCol, statusCol, s)|]
  {
    assert statuses[..k + 1][..k] == statuses[..k];
  }

  /** The dictionary holds exactly the two keys of every listed status. */
  lemma StatusCountriesKeys(df: Frame, countryCol: string, statusCol: string, statuses: seq<string>)
    ensures StatusCountries(df, countryCol, statusCol, statuses).Keys
         == (set s | s in statuses :: CountryKey(s)) + (set s | s in statuses :: OnlyKey(s))
  {
    TallyKeys(statuses, s => CountWith(df, countryCol, statusCol, s), s => CountOnly(df, countryCol, statusCol, s));
  }

  // ===== get_countries_with_anyof_statuses =====

  /** The country values of the rows whose (non-missing) status is one of the list. */
  function CountriesWithAny(df: Frame, countryCol: string, statusCol: string, statuses: seq<string>): set<Option<string>>
  {
    set i | 0 <= i < |df| && statusCol in df[i] && df[i][statusCol] in statuses :: Cell(df[i], countryCol)
  }

  /** `"n_countries_"` followed by the sorted statuses joined by `"_or_"`. */
  function AnyOfKey(statuses: seq<string>): string
  {
    KeyPrefix + Join("_or_", Sort(statuses))
  }

  /** `get_countries_with_anyof_statuses`: a one-entry dictionary. */
  function GetCountriesWithAnyofStatuses(df: Frame, countryCol: string, statuses: seq<string>, statusCol: string): map<string, nat>
  {
    map[AnyOfKey(statuses) := |CountriesWithAny(df, countryCol, statusCol, statuses)|]
  }

  /** The result depends on the statuses only as a multiset: reordering the list changes neither key nor value. */
  lemma AnyOfIgnoresOrder(df: Frame, countryCol: string, statusCol: string, ss: seq<string>, tt: seq<string>)
    requires multiset(ss) == multiset(tt)
    ensures GetCountriesWithAnyofStatuses(df, countryCol, ss, statusCol) == GetCountriesWithAnyofStatuses(df, countryCol, tt, statusCol)
  {
    SortIgnoresOrder(ss, tt);
    assert forall x :: x in ss <==> x in multiset(ss);
    assert forall x :: x in tt <==> x in multiset(tt);
    assert CountriesWithAny(df, countryCol, statusCol, ss) == CountriesWithAny(df, countryCol, statusCol, tt);
  }

  /** The countries having any listed status are the union, over the list, of the countries having each one. */
  lemma AnyOfIsUnion(df: Frame, countryCol: string, statusCol: string, statuses: seq<string>)
    ensures forall c :: c in CountriesWithAny(df, countryCol, statusCol, statuses) <==>
      exists s :: s in statuses && c in CountriesWith(df, countryCol, statusCol, s)
  {
    forall c
      ensures c in CountriesWithAny(df, countryCol, statusCol, statuses) <==>
        exists s :: s in statuses && c in CountriesWith(df, countryCol, statusCol, s)
    {
      if c in CountriesWithAny(df, countryCol, statusCol, statuses) {
        var i :| 0 <= i < |df| && statusCol in df[i] && df[i][statusCol] in statuses && Cell(df[i], countryCol) == c;
        assert Cell(df[i], countryCol) in CountriesWith(df, countryCol, statusCol, df[i][statusCol]);
      }
      if exists s :: s in statuses && c in CountriesWith(df, countryCol, statusCol, s) {
        var s :| s in statuses && c in CountriesWith(df, countryCol, statusCol, s);
        var i :| 0 <= i < |df| && Cell(df[i], statusCol) == Some(s) && Cell(df[i], countryCol) == c;
        assert Cell(df[i], countryCol) in CountriesWithAny(df, countryCol, statusCol, statuses);
      }
    }
  }

  /** For a single status the any-of dictionary is the count entry `get_countries_with_status` writes for it. */
  lemma AnyOfSingle(df: Frame, countryCol: string, statusCol: string, s: string)
    ensures GetCountriesWithAnyofStatuses(df, countryCol, [s], statusCol)
         == map[CountryKey(s) := |CountriesWith(df, countryCol, statusCol, s)|]
  {
    assert Sort([s]) == [s] by {
      SortedUnique(Sort([s]), [s]);
    }
    assert CountriesWithAny(df, countryCol, statusCol, [s]) == CountriesWith(df, countryCol, statusCol, s);
  }

  // ===== get_delays =====

  /**
   * `REGEX_DATE` matched with `fullmatch`: "202", a digit, '-', one of '0',
   * ',' or '1' (the class `[0,1]` also holds the comma), a digit, '-', a digit
   * from '0' to '3', and a digit, with nothing after.
   */
  predicate IsReportDate(s: string)
  {
    && |s| == 10
    && s[..3] == "202" && IsDigit(s[3]) && s[4] == '-'
    && (s[5] == '0' || s[5] == ',' || s[5] == '1') && IsDigit(s[6]) && s[7] == '-'
    && '0' <= s[8] <= '3' && IsDigit(s[9])
  }

  /** What the date filter lets through and what it stops. */
  lemma ReportDateExamples()
    ensures IsReportDate("2023-06-01") && IsReportDate("2024-12-31") && IsReportDate("2023-,1-05")
    ensures !IsReportDate("2019-06-01") && !IsReportDate("2023-6-1") && !IsReportDate("2023-06-01 10:00")
    ensures !IsReportDate("2023-06-41") && !IsReportDate("2023-26-01") && !IsReportDate("")
  {
    assert "2019-06-01"[..3] != "202" by { assert "2019-06-01"[2] == '1'; }
  }

  /** Whether a row takes part in the delay: both dates present and shaped like a date. */
  predicate HasDelayDates(row: Row, targetCol: string, onsetCol: string)
  {
    targetCol in row && onsetCol in row && IsReportDate(row[targetCol]) && IsReportDate(row[onsetCol])
  }

  /** The rows `both` keeps, in order. */
  function DelayRows(df: Frame, targetCol: string, onsetCol: string): (r: Frame)
    ensures forall row :: row in r <==> row in df && HasDelayDates(row, targetCol, onsetCol)
  {
    if df == [] then []
    else
      assert forall row :: row in df <==> row == df[0] || row in df[1..];
      (if HasDelayDates(df[0], targetCol, onsetCol) then [df[0]] else []) + DelayRows(df[1..], targetCol, onsetCol)
  }

  /** `pd.to_datetime` raising on a kept cell; the exception is logged and raised again. */
  datatype DelayError = ParserError

  /** A date cell as a day number under the calendar `toDay`; a missing cell names no day. */
  function Day(row: Row, column: string, toDay: string -> Option<int>): Option<int>
  {
    if column in row then toDay(row[column]) else None
  }

  /**
   * The delays of the kept rows in days, target date minus onset date, given
   * the calendar `toDay` that `pd.to_datetime` applies (None when a cell does
   * not name a day); one cell it cannot read fails the whole call.
   */
  function Delays(rows: Frame, targetCol: string, onsetCol: string, toDay: string -> Option<int>): (r: Result<seq<int>, DelayError>)
    ensures r.Err? <==> exists i :: 0 <= i < |rows| && (Day(rows[i], targetCol, toDay).None? || Day(rows[i], onsetCol, toDay).None?)
    ensures r.Ok? ==>
      && |r.value| == |rows|
      && forall i :: 0 <= i < |rows| ==> r.value[i] == Day(rows[i], targetCol, toDay).value - Day(rows[i], onsetCol, toDay).value
  {
    if rows == [] then Ok([])
    else
      var row := rows[0];
      assert forall i :: 1 <= i < |rows| ==> rows[i] == rows[1..][i - 1];
      var rest := Delays(rows[1..], targetCol, onsetCol, toDay);
      if Day(row, targetCol, toDay).None? || Day(row, onsetCol, toDay).None? then Err(ParserError)
      else if rest.Err? then
        var j :| 0 <= j < |rows[1..]| && (Day(rows[1..][j], targetCol, toDay).None? || Day(rows[1..][j], onsetCol, toDay).None?);
        assert rows[j + 1] == rows[1..][j];
        rest
      else
        Ok([Day(row, targetCol, toDay).value - Day(row, onsetCol, toDay).value] + rest.value)
  }

  /** `get_delays`: the delays between the two date columns over the rows whose both dates are present and date-shaped. */
  function GetDelays(df: Frame, targetCol: string, onsetCol: string, toDay: string -> Option<int>): Result<seq<int>, DelayError>
  {
    Delays(DelayRows(df, targetCol, onsetCol), targetCol, onsetCol, toDay)
  }

  /**
   * The delays fail exactly when a kept row holds a cell the calendar cannot
   * read; otherwise there is one delay per kept row, in row order.
   */
  lemma GetDelaysMeaning(df: Frame, targetCol: string, onsetCol: string, toDay: string -> Option<int>)
    ensures var r := GetDelays(df, targetCol, onsetCol, toDay);
      && (r.Err? <==> exists row :: row in df && HasDelayDates(row, targetCol, onsetCol)
                                  && (toDay(row[targetCol]).None? || toDay(row[onsetCol]).None?))
      && (r.Ok? ==> |r.value| == |DelayRows(df, targetCol, onsetCol)| <= |df|)
  {
    var rows := DelayRows(df, targetCol, onsetCol);
    DelayRowsShorter(df, targetCol, onsetCol);
    if exists row :: row in df && HasDelayDates(row, targetCol, onsetCol) && (toDay(row[targetCol]).None? || toDay(row[onsetCol]).None?) {
      var row :| row in df && HasDelayDates(row, targetCol, onsetCol) && (toDay(row[targetCol]).None? || toDay(row[onsetCol]).None?);
      assert row in rows;
      var i :| 0 <= i < |rows| && rows[i] == row;
    }
    if GetDelays(df, targetCol, onsetCol, toDay).Err? {
      var i :| 0 <= i < |rows| && (Day(rows[i], targetCol, toDay).None? || Day(rows[i], onsetCol, toDay).None?);
      assert rows[i] in rows;
    }
  }

  /** Filtering a concatenation filters each part: the kept rows stay in the order of the linelist. */
  lemma {:induction false} DelayRowsAppend(a: Frame, b: Frame, targetCol: string, onsetCol: string)
    ensures DelayRows(a + b, targetCol, onsetCol) == DelayRows(a, targetCol, onsetCol) + DelayRows(b, targetCol, onsetCol)
  {
    if a == [] {
      assert a + b == b;
    } else {
      assert (a + b)[1..] == a[1..] + b;
      DelayRowsAppend(a[1..], b, targetCol, onsetCol);
    }
  }

  /**
   * `both` as a filter: a row is kept exactly when its two dates are usable,
   * once, at its place between the rows before and after it.
   */
  lemma DelayRowsAt(a: Frame, x: Row, b: Frame, targetCol: string, onsetCol: string)
    ensures DelayRows(a + [x] + b, targetCol, onsetCol)
         == DelayRows(a, targetCol, onsetCol) + (if HasDelayDates(x, targetCol, onsetCol) then [x] else []) + DelayRows(b, targetCol, onsetCol)
  {
    DelayRowsAppend(a + [x], b, targetCol, onsetCol);
    DelayRowsAppend(a, [x], targetCol, onsetCol);
    assert DelayRows([x], targetCol, onsetCol) == if HasDelayDates(x, targetCol, onsetCol) then [x] else [] by {
      assert [x][1..] == [];
    }
  }

  /** Two delay computations side by side: either failure fails the whole. */
  function JoinDelays(r1: Result<seq<int>, DelayError>, r2: Result<seq<int>, DelayError>): Result<seq<int>, DelayError>
  {
    if r1.Err? || r2.Err? then Err(ParserError) else Ok(r1.value + r2.value)
  }

  lemma {:induction false} DelaysAppend(a: Frame, b: Frame, targetCol: string, onsetCol: string, toDay: string -> Option<int>)
    ensures Delays(a + b, targetCol, onsetCol, toDay)
         == JoinDelays(Delays(a, targetCol, onsetCol, toDay), Delays(b, targetCol, onsetCol, toDay))
  {
    if a == [] {
      assert a + b == b;
      var r2 := Delays(b, targetCol, onsetCol, toDay);
      if r2.Ok? {
        assert [] + r2.value == r2.value;
      } else {
        assert r2.error == ParserError;
      }
    } else {
      assert (a + b)[0] == a[0];
      assert (a + b)[1..] == a[1..] + b;
      DelaysAppend(a[1..], b, targetCol, onsetCol, toDay);
      var r1, r2 := Delays(a[1..], targetCol, onsetCol, toDay), Delays(b, targetCol, onsetCol, toDay);
      if r1.Ok? && r2.Ok? && Day(a[0], targetCol, toDay).Some? && Day(a[0], onsetCol, toDay).Some? {
        var d := [Day(a[0], targetCol, toDay).value - Day(a[0], onsetCol, toDay).value];
        assert d + (r1.value + r2.value) == (d + r1.value) + r2.value;
      }
    }
  }

  /** `get_delays` over a concatenation of linelists is the two results side by side, in order. */
  lemma GetDelaysAppend(a: Frame, b: Frame, targetCol: string, onsetCol: string, toDay: string -> Option<int>)
    ensures GetDelays(a + b, targetCol, onsetCol, toDay)
         == JoinDelays(GetDelays(a, targetCol, onsetCol, toDay), GetDelays(b, targetCol, onsetCol, toDay))
  {
    DelayRowsAppend(a, b, targetCol, onsetCol);
    DelaysAppend(DelayRows(a, targetCol, onsetCol), DelayRows(b, targetCol, onsetCol), targetCol, onsetCol, toDay);
  }

  /**
   * `get_delays` of an empty linelist and of one row: a row without two usable
   * dates gives no delay, one whose cell the calendar cannot read fails, and
   * any other gives its target day minus its onset day.
   */
  lemma GetDelaysSingle(x: Row, targetCol: string, onsetCol: string, toDay: string -> Option<int>)
    ensures GetDelays([], targetCol, onsetCol, toDay) == Ok([])
    ensures GetDelays([x], targetCol, onsetCol, toDay)
         == if !HasDelayDates(x, targetCol, onsetCol) then Ok([])
            else if toDay(x[targetCol]).None? || toDay(x[onsetCol]).None? then Err(ParserError)
            else Ok([toDay(x[targetCol]).value - toDay(x[onsetCol]).value])
  {
    assert [x][1..] == [];
    if HasDelayDates(x, targetCol, onsetCol) {
      assert DelayRows([x], targetCol, onsetCol) == [x];
      assert Delays([x][1..], targetCol, onsetCol, toDay) == Ok([]);
      assert Day(x, targetCol, toDay) == toDay(x[targetCol]) && Day(x, onsetCol, toDay) == toDay(x[onsetCol]);
      assert [x][0] == x;
      if toDay(x[targetCol]).Some? && toDay(x[onsetCol]).Some? {
        var d := [toDay(x[targetCol]).value - toDay(x[onsetCol]).value];
        assert d + [] == d;
      }
    } else {
      assert DelayRows([x], targetCol, onsetCol) == [];
    }
  }

  lemma {:induction false} DelayRowsShorter(df: Frame, targetCol: string, onsetCol: string)
    ensures |DelayRows(df, targetCol, onsetCol)| <= |df|
  {
    if df != [] {
      DelayRowsShorter(df[1..], targetCol, onsetCol);
    }
  }

  /**
   * With a calendar that orders days as their ISO text orders, a delay is
   * never negative when no kept row has its target date before its onset
   * date.
   */
  lemma DelaysNonNegative(df: Frame, targetCol: string, onsetCol: string, toDay: string -> Option<int>)
    requires forall a, b :: toDay(a).Some? && toDay(b).Some? && LessEq(a, b) ==> toDay(a).value <= toDay(b).value
    requires forall row :: row in df && HasDelayDates(row, targetCol, onsetCol) ==> LessEq(row[onsetCol], row[targetCol])
    ensures var r := GetDelays(df, targetCol, onsetCol, toDay);
      r.Ok? ==> forall i :: 0 <= i < |r.value| ==> r.value[i] >= 0
  {
    var rows := DelayRows(df, targetCol, onsetCol);
    var r := GetDelays(df, targetCol, onsetCol, toDay);
    if r.Ok? {
      forall i | 0 <= i < |r.value|
        ensures r.value[i] >= 0
      {
        assert rows[i] in rows;
        assert HasDelayDates(rows[i], targetCol, onsetCol);
      }
    }
  }

  // ===== get_epicurve =====

  /** The group values kept: the given list, or (`values=None`) every non-missing value of the group column. */
  function CurveValues(df: Frame, groupCol: string, values: Option<seq<string>>): (vals: seq<string>)
    ensures values.None? ==> forall g :: g in vals <==> exists i :: 0 <= i < |df| && Cell(df[i], groupCol) == Some(g)
  {
    match values
    case Some(v) => v
    case None =>
      var vals := Distinct(Present(df, groupCol));
      assert forall g :: g in vals <==> g in Present(df, groupCol) by {
        forall g ensures g in vals <==> g in Present(df, groupCol) {
          if g in vals {
            var k :| 0 <= k < |vals| && vals[k] == g;
          }
          if g in Present(df, groupCol) {
            var k :| 0 <= k < |Present(df, groupCol)| && Present(df, groupCol)[k] == g;
          }
        }
      }
      vals
  }

  /** Whether `df[~isna(date) & group.isin(vals)]` keeps the row. */
  predicate CurveRow(row: Row, dateCol: string, groupCol: string, vals: seq<string>)
  {
    dateCol in row && groupCol in row && row[groupCol] in vals
  }

  /** The rows with a date and a group value among vals, in their original order. */
  function CurveRows(df: Frame, dateCol: string, groupCol: string, vals: seq<string>): (r: Frame)
    ensures forall row :: row in r <==> row in df && CurveRow(row, dateCol, groupCol, vals)
  {
    if df == [] then []
    else
      var rest := CurveRows(df[1..], dateCol, groupCol, vals);
      assert forall row :: row in df <==> row == df[0] || row in df[1..];
      (if CurveRow(df[0], dateCol, groupCol, vals) then [df[0]] else []) + rest
  }

  /** A pivoted count table: `cells[j][i]` is the entry in column `columns[j]` on the row labelled `index[i]`. */
  datatype Table = Table(index: seq<string>, columns: seq<string>, cells: seq<seq<nat>>)

  /** One column of the curve: the group's daily counts over the index, or their running sum. */
  function CurveColumn(kept: Frame, dateCol: string, groupCol: string, index: seq<string>, g: string, cumulative: bool): seq<nat>
  {
    var daily := DailyColumn(kept, dateCol, groupCol, index, g);
    if cumulative then RunningSum(daily) else daily
  }

  /**
   * `get_epicurve`: count the kept rows per (date, group), pivot with the
   * sorted dates as index and the sorted groups as columns, fill the gaps with
   * 0 and, when cumulative, take the running sum down each column.
   */
  function GetEpicurve(df: Frame, dateCol: string, groupCol: string, values: Option<seq<string>>, cumulative: bool): Table
  {
    var kept := CurveRows(df, dateCol, groupCol, CurveValues(df, groupCol, values));
    var index := SortedSet(Present(kept, dateCol));
    var columns := SortedSet(Present(kept, groupCol));
    Table(index, columns, seq(|columns|, j requires 0 <= j < |columns| => CurveColumn(kept, dateCol, groupCol, index, columns[j], cumulative)))
  }

  /** Dropping rows of other groups or without a date changes no count of a kept group. */
  lemma {:induction false} CurveRowsCounts(df: Frame, dateCol: string, groupCol: string, vals: seq<string>, d: string, g: string)
    requires g in vals
    ensures RowCount(CurveRows(df, dateCol, groupCol, vals), dateCol, d, groupCol, g) == RowCount(df, dateCol, d, groupCol, g)
    ensures GroupRows(CurveRows(df, dateCol, groupCol, vals), dateCol, groupCol, g) == GroupRows(df, dateCol, groupCol, g)
  {
    if df != [] {
      CurveRowsCounts(df[1..], dateCol, groupCol, vals, d, g);
      var rest := CurveRows(df[1..], dateCol, groupCol, vals);
      if CurveRow(df[0], dateCol, groupCol, vals) {
        assert CurveRows(df, dateCol, groupCol, vals) == [df[0]] + rest;
        assert ([df[0]] + rest)[1..] == rest;
      } else {
        assert CurveRows(df, dateCol, groupCol, vals) == rest;
      }
    }
  }

  /** A date labels a row of the curve exactly when some kept row of the frame carries it. */
  lemma CurveIndexMember(df: Frame, dateCol: string, groupCol: string, vals: seq<string>, d: string)
    ensures d in SortedSet(Present(CurveRows(df, dateCol, groupCol, vals), dateCol)) <==>
      exists i :: 0 <= i < |df| && Cell(df[i], dateCol) == Some(d) && CurveRow(df[i], dateCol, groupCol, vals)
  {
    KeptCell(df, dateCol, groupCol, vals, dateCol, d);
  }

  /** A group heads a column of the curve exactly when it is kept and some row of it has a date. */
  lemma CurveColumnMember(df: Frame, dateCol: string, groupCol: string, vals: seq<string>, g: string)
    ensures g in SortedSet(Present(CurveRows(df, dateCol, groupCol, vals), groupCol)) <==>
      g in vals && exists i :: 0 <= i < |df| && dateCol in df[i] && Cell(df[i], groupCol) == Some(g)
  {
    KeptCell(df, dateCol, groupCol, vals, groupCol, g);
  }

  /** A value is present in a column of the kept rows exactly when a kept row of the frame holds it there. */
  lemma KeptCell(df: Frame, dateCol: string, groupCol: string, vals: seq<string>, col: string, x: string)
    ensures x in Present(CurveRows(df, dateCol, groupCol, vals), col) <==>
      exists i :: 0 <= i < |df| && Cell(df[i], col) == Some(x) && CurveRow(df[i], dateCol, groupCol, vals)
  {
    var kept := CurveRows(df, dateCol, groupCol, vals);
    if x in Present(kept, col) {
      var k :| 0 <= k < |kept| && Cell(kept[k], col) == Some(x);
      KeptRowFrom(df, dateCol, groupCol, vals, kept[k]);
    }
    if exists i :: 0 <= i < |df| && Cell(df[i], col) == Some(x) && CurveRow(df[i], dateCol, groupCol, vals) {
      var i :| 0 <= i < |df| && Cell(df[i], col) == Some(x) && CurveRow(df[i], dateCol, groupCol, vals);
      KeptRowTo(df, dateCol, groupCol, vals, i);
    }
  }

  lemma KeptRowFrom(df: Frame, dateCol: string, groupCol: string, vals: seq<string>, row: Row)
    requires row in CurveRows(df, dateCol, groupCol, vals)
    ensures exists i :: 0 <= i < |df| && df[i] == row && CurveRow(df[i], dateCol, groupCol, vals)
  {
    var i :| 0 <= i < |df| && df[i] == row;
  }

  lemma KeptRowTo(df: Frame, dateCol: string, groupCol: string, vals: seq<string>, i: nat)
    requires i < |df| && CurveRow(df[i], dateCol, groupCol, vals)
    ensures exists k :: 0 <= k < |CurveRows(df, dateCol, groupCol, vals)| && CurveRows(df, dateCol, groupCol, vals)[k] == df[i]
  {
    assert df[i] in df;
    assert df[i] in CurveRows(df, dateCol, groupCol, vals);
  }

  /**
   * The index is the distinct dates of the kept rows in increasing order, the
   * columns the distinct kept groups in increasing order, and the table has a
   * full column of counts for each group.
   */
  lemma EpicurveShape(df: Frame, dateCol: string, groupCol: string, values: Option<seq<string>>, cumulative: bool)
    ensures var t := GetEpicurve(df, dateCol, groupCol, values, cumulative);
      var vals := CurveValues(df, groupCol, values);
      && StrictlySorted(t.index) && StrictlySorted(t.columns)
      && (forall d :: d in t.index <==>
            exists i :: 0 <= i < |df| && Cell(df[i], dateCol) == Some(d) && CurveRow(df[i], dateCol, groupCol, vals))
      && (forall g :: g in t.columns <==>
            g in vals && exists i :: 0 <= i < |df| && dateCol in df[i] && Cell(df[i], groupCol) == Some(g))
      && |t.cells| == |t.columns|
      && (forall j :: 0 <= j < |t.columns| ==> |t.cells[j]| == |t.index|)
  {
    EpicurveIndex(df, dateCol, groupCol, values, cumulative);
    EpicurveColumns(df, dateCol, groupCol, values, cumulative);
    EpicurveSizes(df, dateCol, groupCol, values, cumulative);
  }

  lemma EpicurveIndex(df: Frame, dateCol: string, groupCol: string, values: Option<seq<string>>, cumulative: bool)
    ensures var t := GetEpicurve(df, dateCol, groupCol, values, cumulative);
      var vals := CurveValues(df, groupCol, values);
      && StrictlySorted(t.index)
      && (forall d :: d in t.index <==>
            exists i :: 0 <= i < |df| && Cell(df[i], dateCol) == Some(d) && CurveRow(df[i], dateCol, groupCol, vals))
  {
    CurveIndexAll(df, dateCol, groupCol, CurveValues(df, groupCol, values));
  }

  lemma EpicurveColumns(df: Frame, dateCol: string, groupCol: string, values: Option<seq<string>>, cumulative: bool)
    ensures var t := GetEpicurve(df, dateCol, groupCol, values, cumulative);
      var vals := CurveValues(df, groupCol, values);
      && StrictlySorted(t.columns)
      && (forall g :: g in t.columns <==>
            g in vals && exists i :: 0 <= i < |df| && dateCol in df[i] && Cell(df[i], groupCol) == Some(g))
  {
    CurveColumnsAll(df, dateCol, groupCol, CurveValues(df, groupCol, values));
  }

  lemma EpicurveSizes(df: Frame, dateCol: string, groupCol: string, values: Option<seq<string>>, cumulative: bool)
    ensures var t := GetEpicurve(df, dateCol, groupCol, values, cumulative);
      && |t.cells| == |t.columns|
      && (forall j :: 0 <= j < |t.columns| ==> |t.cells[j]| == |t.index|)
  {
  }

  lemma CurveIndexAll(df: Frame, dateCol: string, groupCol: string, vals: seq<string>)
    ensures forall d :: d in SortedSet(Present(CurveRows(df, dateCol, groupCol, vals), dateCol)) <==>
      exists i :: 0 <= i < |df| && Cell(df[i], dateCol) == Some(d) && CurveRow(df[i], dateCol, groupCol, vals)
  {
    forall d {
      CurveIndexMember(df, dateCol, groupCol, vals, d);
    }
  }

  lemma CurveColumnsAll(df: Frame, dateCol: string, groupCol: string, vals: seq<string>)
    ensures forall g :: g in SortedSet(Present(CurveRows(df, dateCol, groupCol, vals), groupCol)) <==>
      g in vals && exists i :: 0 <= i < |df| && dateCol in df[i] && Cell(df[i], groupCol) == Some(g)
  {
    forall g {
      CurveColumnMember(df, dateCol, groupCol, vals, g);
    }
  }

  /** Without `cumulative`, each cell is the number of rows of the whole frame with that date and that group. */
  lemma EpicurveDaily(df: Frame, dateCol: string, groupCol: string, values: Option<seq<string>>)
    ensures var t := GetEpicurve(df, dateCol, groupCol, values, false);
      forall j, i :: 0 <= j < |t.columns| && 0 <= i < |t.index| ==>
        t.cells[j][i] == RowCount(df, dateCol, t.index[i], groupCol, t.columns[j])
  {
    var vals := CurveValues(df, groupCol, values);
    var kept := CurveRows(df, dateCol, groupCol, vals);
    var t := GetEpicurve(df, dateCol, groupCol, values, false);
    EpicurveShape(df, dateCol, groupCol, values, false);
    forall j, i | 0 <= j < |t.columns| && 0 <= i < |t.index|
      ensures t.cells[j][i] == RowCount(df, dateCol, t.index[i], groupCol, t.columns[j])
    {
      assert t.columns[j] in t.columns;
      CurveRowsCounts(df, dateCol, groupCol, vals, t.index[i], t.columns[j]);
    }
  }

  /** Summed over the curve's dates, a column's daily counts add up to the group's number of dated rows. */
  lemma CurveColumnTotal(df: Frame, dateCol: string, groupCol: string, vals: seq<string>, g: string)
    requires g in SortedSet(Present(CurveRows(df, dateCol, groupCol, vals), groupCol))
    ensures var kept := CurveRows(df, dateCol, groupCol, vals);
      var index := SortedSet(Present(kept, dateCol));
      |index| > 0 && Sum(DailyColumn(kept, dateCol, groupCol, index, g)) == GroupRows(df, dateCol, groupCol, g)
  {
    var kept := CurveRows(df, dateCol, groupCol, vals);
    var index := SortedSet(Present(kept, dateCol));
    var k :| 0 <= k < |kept| && Cell(kept[k], groupCol) == Some(g);
    assert kept[k] in kept;
    assert kept[k][dateCol] in Present(kept, dateCol);
    assert kept[k][dateCol] in index;
    StrictlySortedNoDup(index);
    SumOfDailyColumn(kept, dateCol, groupCol, index, g);
    SumOverDates(kept, dateCol, groupCol, index, g);
    CurveRowsCounts(df, dateCol, groupCol, vals, "", g);
  }

  /**
   * With `cumulative`, each column is the running sum of the daily column:
   * it never decreases, and its last entry is the number of dated rows of
   * that group in the whole frame.
   */
  lemma EpicurveCumulative(df: Frame, dateCol: string, groupCol: string, values: Option<seq<string>>)
    ensures var t := GetEpicurve(df, dateCol, groupCol, values, true);
      var daily := GetEpicurve(df, dateCol, groupCol, values, false);
      && t.index == daily.index && t.columns == daily.columns
      && forall j :: 0 <= j < |t.columns| ==>
        && |t.index| > 0
        && t.cells[j] == RunningSum(daily.cells[j])
        && (forall i, k :: 0 <= i <= k < |t.index| ==> t.cells[j][i] <= t.cells[j][k])
        && t.cells[j][|t.index| - 1] == GroupRows(df, dateCol, groupCol, t.columns[j])
  {
    var t := GetEpicurve(df, dateCol, groupCol, values, true);
    forall j | 0 <= j < |t.columns| {
      EpicurveCumulativeAt(df, dateCol, groupCol, values, j);
    }
  }

  lemma EpicurveCumulativeAt(df: Frame, dateCol: string, groupCol: string, values: Option<seq<string>>, j: nat)
    requires j < |GetEpicurve(df, dateCol, groupCol, values, true).columns|
    ensures var t := GetEpicurve(df, dateCol, groupCol, values, true);
      var daily := GetEpicurve(df, dateCol, groupCol, values, false);
      && |t.index| > 0
      && t.cells[j] == RunningSum(daily.cells[j])
      && (forall i, k :: 0 <= i <= k < |t.index| ==> t.cells[j][i] <= t.cells[j][k])
      && t.cells[j][|t.index| - 1] == GroupRows(df, dateCol, groupCol, t.columns[j])
  {
    var vals := CurveValues(df, groupCol, values);
    var t := GetEpicurve(df, dateCol, groupCol, values, true);
    EpicurveCellAt(df, dateCol, groupCol, values, j);
    CumulativeColumn(df, dateCol, groupCol, vals, t.columns[j]);
  }

  /** Column j of the cumulative and of the daily curve, on the same index. */
  lemma EpicurveCellAt(df: Frame, dateCol: string, groupCol: string, values: Option<seq<string>>, j: nat)
    requires j < |GetEpicurve(df, dateCol, groupCol, values, true).columns|
    ensures var kept := CurveRows(df, dateCol, groupCol, CurveValues(df, groupCol, values));
      var t := GetEpicurve(df, dateCol, groupCol, values, true);
      var daily := GetEpicurve(df, dateCol, groupCol, values, false);
      && t.index == daily.index == SortedSet(Present(kept, dateCol))
      && t.columns == daily.columns == SortedSet(Present(kept, groupCol))
      && t.cells[j] == CurveColumn(kept, dateCol, groupCol, t.index, t.columns[j], true)
      && daily.cells[j] == CurveColumn(kept, dateCol, groupCol, t.index, t.columns[j], false)
  {
  }

  /** One cumulative column of the curve: the running sum of the daily one, rising to the group's number of dated rows. */
  lemma CumulativeColumn(df: Frame, dateCol: string, groupCol: string, vals: seq<string>, g: string)
    requires g in SortedSet(Present(CurveRows(df, dateCol, groupCol, vals), groupCol))
    ensures var kept := CurveRows(df, dateCol, groupCol, vals);
      var index := SortedSet(Present(kept, dateCol));
      var c := CurveColumn(kept, dateCol, groupCol, index, g, true);
      && |index| > 0
      && c == RunningSum(CurveColumn(kept, dateCol, groupCol, index, g, false))
      && (forall i, k :: 0 <= i <= k < |index| ==> c[i] <= c[k])
      && c[|index| - 1] == GroupRows(df, dateCol, groupCol, g)
  {
    var kept := CurveRows(df, dateCol, groupCol, vals);
    var index := SortedSet(Present(kept, dateCol));
    CurveColumnTotal(df, dateCol, groupCol, vals, g);
    RunningSumFacts(DailyColumn(kept, dateCol, groupCol, index, g));
  }

  // ===== get_counts =====

  /** The count and date fields of `get_counts`; `pc_valid_age_gender` is not part of this model. */
  datatype Counts = Counts(confirmed: nat, probable: nat, suspected: nat, date: string)

  /** `status.confirmed` on a `value_counts` result without a "confirmed" entry. */
  datatype CountsError = AttributeError

  /** `Series.value_counts()`: how often each non-missing value of the column occurs. */
  function ValueCounts(df: Frame, column: string): multiset<string>
  {
    multiset(Present(df, column))
  }

  /** `max` of a list of ISO dates, None for an empty list. */
  function Latest(xs: seq<string>): (r: Option<string>)
    ensures r.None? <==> xs == []
    ensures r.Some? ==> r.value in xs && forall x :: x in xs ==> LessEq(x, r.value)
  {
    if xs == [] then None
    else
      match Latest(xs[1..])
      case None => assert xs == [xs[0]]; Some(xs[0])
      case Some(m) =>
        LessTotal(m, xs[0]);
        assert forall x :: x in xs ==> x == xs[0] || x in xs[1..];
        if Less(m, xs[0]) then
          assert forall x :: x in xs[1..] ==> LessEq(x, xs[0]) by {
            forall x | x in xs[1..] ensures LessEq(x, xs[0]) {
              LessEqTransitive(x, m, xs[0]);
            }
          }
          Some(xs[0])
        else Some(m)
  }

  /**
   * `get_counts`: the confirmed, probable and suspected row counts and the
   * latest date of `dateCol` ("NaT" when no row has one). With no confirmed
   * row the attribute lookup fails.
   */
  function GetCounts(df: Frame, dateCol: string): Result<Counts, CountsError>
  {
    var status := ValueCounts(df, CaseStatus);
    if status["confirmed"] == 0 then Err(AttributeError)
    else
      var date := match Latest(Present(df, dateCol)) case None => "NaT" case Some(d) => d;
      Ok(Counts(status["confirmed"], status["probable"], status["suspected"], date))
  }

  /** How many rows hold value s in the column, row by row. */
  function RowsWith(df: Frame, column: string, s: string): nat
  {
    if df == [] then 0
    else (if Cell(df[0], column) == Some(s) then 1 else 0) + RowsWith(df[1..], column, s)
  }

  /** `value_counts` agrees with counting the rows one by one, and a value counts 0 exactly when no row holds it. */
  lemma ValueCountsRows(df: Frame, column: string, s: string)
    ensures ValueCounts(df, column)[s] == RowsWith(df, column, s)
    ensures RowsWith(df, column, s) == 0 <==> forall i :: 0 <= i < |df| ==> Cell(df[i], column) != Some(s)
  {
    PresentCount(df, column, s);
    RowsWithZero(df, column, s);
  }

  lemma {:induction false} PresentCount(df: Frame, column: string, s: string)
    ensures multiset(Present(df, column))[s] == RowsWith(df, column, s)
  {
    if df != [] {
      PresentCount(df[1..], column, s);
    }
  }

  lemma {:induction false} RowsWithZero(df: Frame, column: string, s: string)
    ensures RowsWith(df, column, s) == 0 <==> forall i :: 0 <= i < |df| ==> Cell(df[i], column) != Some(s)
  {
    if df != [] {
      RowsWithZero(df[1..], column, s);
      assert forall i :: 1 <= i < |df| ==> df[1..][i - 1] == df[i];
    }
  }

  /**
   * The headline counts: an error exactly when no row is confirmed; otherwise
   * each status count is its number of rows, 0 for a status no row has.
   */
  lemma GetCountsStatuses(df: Frame, dateCol: string)
    ensures var r := GetCounts(df, dateCol);
      && (r.Err? <==> forall i :: 0 <= i < |df| ==> Cell(df[i], CaseStatus) != Some("confirmed"))
      && (r.Ok? ==>
        && r.value.confirmed == RowsWith(df, CaseStatus, "confirmed") > 0
        && r.value.probable == RowsWith(df, CaseStatus, "probable")
        && r.value.suspected == RowsWith(df, CaseStatus, "suspected"))
  {
    ValueCountsRows(df, CaseStatus, "confirmed");
    ValueCountsRows(df, CaseStatus, "probable");
    ValueCountsRows(df, CaseStatus, "suspected");
  }

  /** The date field is the latest date present in the column, or "NaT" when no row has one. */
  lemma GetCountsDate(df: Frame, dateCol: string)
    requires GetCounts(df, dateCol).Ok?
    ensures var c := GetCounts(df, dateCol).value;
      && ((forall i :: 0 <= i < |df| ==> dateCol !in df[i]) ==> c.date == "NaT")
      && ((exists i :: 0 <= i < |df| && dateCol in df[i]) ==>
        && (exists i :: 0 <= i < |df| && Cell(df[i], dateCol) == Some(c.date))
        && (forall i :: 0 <= i < |df| && dateCol in df[i] ==> LessEq(df[i][dateCol], c.date)))
  {
    var dates := Present(df, dateCol);
    var latest := Latest(dates);
    if exists i :: 0 <= i < |df| && dateCol in df[i] {
      var i :| 0 <= i < |df| && dateCol in df[i];
      assert df[i][dateCol] in dates;
      assert GetCounts(df, dateCol).value.date == latest.value;
    }
  }

  // ===== get_timeseries_location_status =====

  const Onset := "Date_onset_estimated"
  const District := "Location_District"
  const Confirmed := "confirmed"
  const Probable := "probable"

  /** The statuses the time series counts, in the order of its columns. */
  const Statuses: seq<string> := [Confirmed, Probable]

  /** A confirmed or probable case with an onset date and a district. */
  predicate IsCase(row: Row)
  {
    CaseStatus in row && row[CaseStatus] in Statuses && Onset in row && District in row
  }

  /** The rows the time series works on, in order. */
  function Cases(df: Frame): (r: Frame)
    ensures forall row :: row in r <==> row in df && IsCase(row)
  {
    if df == [] then []
    else
      assert forall row :: row in df <==> row == df[0] || row in df[1..];
      (if IsCase(df[0]) then [df[0]] else []) + Cases(df[1..])
  }

  /** The rows of one district, in order. */
  function AtDistrict(cases: Frame, d: string): (r: Frame)
    ensures forall row :: row in r <==> row in cases && Cell(row, District) == Some(d)
  {
    if cases == [] then []
    else
      assert forall row :: row in cases <==> row == cases[0] || row in cases[1..];
      (if Cell(cases[0], District) == Some(d) then [cases[0]] else []) + AtDistrict(cases[1..], d)
  }

  /** The rows a block counts: one district's, or every case for the Total block (None). */
  function InLocation(cases: Frame, location: Option<string>): Frame
  {
    match location
    case None => cases
    case Some(d) => AtDistrict(cases, d)
  }

  /** `location if location else "Total"`: the empty district name is also shown as "Total". */
  function Label(location: Option<string>): string
  {
    match location
    case None => "Total"
    case Some(d) => if d == "" then "Total" else d
  }

  /** `sorted(set(districts)) + [None]`. */
  function Locations(cases: Frame): seq<Option<string>>
  {
    var districts := SortedSet(Present(cases, District));
    seq(|districts|, k requires 0 <= k < |districts| => Some(districts[k])) + [None]
  }

  /** One location's block: its onset dates as index, named count columns, and the district label. */
  datatype Block = Block(index: seq<string>, columns: map<string, seq<nat>>, district: string)

  function DailyKey(s: string): string
  {
    "daily_" + s
  }

  function CumulativeKey(s: string): string
  {
    "cumulative_" + s
  }

  /** The columns once the cumulative loop has handled the given statuses: each adds the running sum of its daily column. */
  function WithCumulative(daily: map<string, seq<nat>>, statuses: seq<string>): map<string, seq<nat>>
    requires forall s :: s in statuses ==> DailyKey(s) in daily
  {
    if statuses == [] then daily
    else
      var s := statuses[|statuses| - 1];
      WithCumulative(daily, statuses[..|statuses| - 1])[CumulativeKey(s) := RunningSum(daily[DailyKey(s)])]
  }

  /** A cumulative column never replaces a daily one. */
  lemma {:induction false} WithCumulativeKeepsDaily(daily: map<string, seq<nat>>, statuses: seq<string>, s: string)
    requires forall t :: t in statuses ==> DailyKey(t) in daily
    requires DailyKey(s) in daily
    ensures DailyKey(s) in WithCumulative(daily, statuses)
    ensures WithCumulative(daily, statuses)[DailyKey(s)] == daily[DailyKey(s)]
  {
    if statuses != [] {
      var last := statuses[|statuses| - 1];
      assert CumulativeKey(last)[0] != DailyKey(s)[0];
      WithCumulativeKeepsDaily(daily, statuses[..|statuses| - 1], s);
    }
  }

  /** The four columns of a block: each status's daily counts and their running sums. */
  function FourColumns(confirmed: seq<nat>, probable: seq<nat>): map<string, seq<nat>>
  {
    map[
      DailyKey(Confirmed) := confirmed, DailyKey(Probable) := probable,
      CumulativeKey(Confirmed) := RunningSum(confirmed), CumulativeKey(Probable) := RunningSum(probable)]
  }

  /** The four column names are pairwise distinct. */
  lemma ColumnKeysDistinct()
    ensures DailyKey(Confirmed) != DailyKey(Probable) && CumulativeKey(Confirmed) != CumulativeKey(Probable)
    ensures DailyKey(Confirmed) != CumulativeKey(Confirmed) && DailyKey(Confirmed) != CumulativeKey(Probable)
    ensures DailyKey(Probable) != CumulativeKey(Confirmed) && DailyKey(Probable) != CumulativeKey(Probable)
  {
    assert DailyKey(Confirmed)[6] != DailyKey(Probable)[6];
    assert CumulativeKey(Confirmed)[11] != CumulativeKey(Probable)[11];
    assert DailyKey(Confirmed)[0] != CumulativeKey(Confirmed)[0];
    assert DailyKey(Confirmed)[0] != CumulativeKey(Probable)[0];
    assert DailyKey(Probable)[0] != CumulativeKey(Confirmed)[0];
    assert DailyKey(Probable)[0] != CumulativeKey(Probable)[0];
  }

  /**
   * The block `timeseries_for_location` returns for a location: its rows'
   * distinct onset dates in increasing order, the daily counts of each
   * status on those dates with their running sums, and its label.
   */
  function BlockFor(cases: Frame, location: Option<string>): Block
  {
    var rows := InLocation(cases, location);
    var dates := SortedSet(Present(rows, Onset));
    Block(dates, FourColumns(
      DailyColumn(rows, Onset, CaseStatus, dates, Confirmed),
      DailyColumn(rows, Onset, CaseStatus, dates, Probable)), Label(location))
  }

  /** The renamed columns `daily_confirmed` and `daily_probable` of a block. */
  function DailyColumns(rows: Frame, dates: seq<string>): map<string, seq<nat>>
  {
    map[
      DailyKey(Confirmed) := DailyColumn(rows, Onset, CaseStatus, dates, Confirmed),
      DailyKey(Probable) := DailyColumn(rows, Onset, CaseStatus, dates, Probable)]
  }

  function Zeros(n: nat): (z: seq<nat>)
    ensures |z| == n && forall i :: 0 <= i < n ==> z[i] == 0
  {
    seq(n, _ => 0)
  }

  /** A status no row of the block holds has the all-zero daily column. */
  lemma AbsentStatusZeros(rows: Frame, dates: seq<string>, s: string)
    requires s !in Present(rows, CaseStatus)
    ensures DailyColumn(rows, Onset, CaseStatus, dates, s) == Zeros(|dates|)
  {
    forall i | 0 <= i < |dates|
      ensures DailyColumn(rows, Onset, CaseStatus, dates, s)[i] == 0
    {
      RowCountAbsent(rows, Onset, dates[i], CaseStatus, s);
    }
  }

  /** `for s in statuses: counts["cumulative_" + s] = counts["daily_" + s].cumsum()`. */
  method AddCumulativeColumns(daily: map<string, seq<nat>>, statuses: seq<string>) returns (counts: map<string, seq<nat>>)
    requires forall s :: s in statuses ==> DailyKey(s) in daily
    ensures counts == WithCumulative(daily, statuses)
  {
    counts := daily;
    for k := 0 to |statuses|
      invariant counts == WithCumulative(daily, statuses[..k])
    {
      var s := statuses[k];
      WithCumulativeKeepsDaily(daily, statuses[..k], s);
      counts := counts[CumulativeKey(s) := RunningSum(counts[DailyKey(s)])];
      assert statuses[..k + 1][..k] == statuses[..k];
    }
    assert statuses[..|statuses|] == statuses;
  }

  /** The pivot of a block's rows: one daily column per status that occurs among them. */
  function Pivot(rows: Frame, dates: seq<string>): map<string, seq<nat>>
  {
    map s | s in SortedSet(Present(rows, CaseStatus)) :: DailyColumn(rows, Onset, CaseStatus, dates, s)
  }

  lemma PivotColumns(rows: Frame, dates: seq<string>)
    ensures forall s :: s in Pivot(rows, dates) ==> Pivot(rows, dates)[s] == DailyColumn(rows, Onset, CaseStatus, dates, s)
    ensures forall s :: s !in Pivot(rows, dates) ==> s !in Present(rows, CaseStatus)
    ensures forall s :: s in Pivot(rows, dates) ==> s in Present(rows, CaseStatus)
  {
  }

  /** `for status in set(statuses) - set(counts.columns): counts[status] = 0`, on a pivot of the block's rows. */
  method AddMissingStatuses(rows: Frame, dates: seq<string>, pivot: map<string, seq<nat>>, statuses: seq<string>)
    returns (columns: map<string, seq<nat>>)
    requires forall s :: s in pivot ==> pivot[s] == DailyColumn(rows, Onset, CaseStatus, dates, s)
    requires forall s :: s !in pivot ==> s !in Present(rows, CaseStatus)
    ensures forall s :: s in columns ==> columns[s] == DailyColumn(rows, Onset, CaseStatus, dates, s)
    ensures forall s :: s in columns <==> s in pivot || s in statuses
  {
    columns := pivot;
    for k := 0 to |statuses|
      invariant forall s :: s in columns ==> columns[s] == DailyColumn(rows, Onset, CaseStatus, dates, s)
      invariant forall s :: s in columns <==> s in pivot || s in statuses[..k]
    {
      var status := statuses[k];
      if status !in columns {
        AbsentStatusZeros(rows, dates, status);
        columns := columns[status := Zeros(|dates|)];
      }
      assert forall s :: s in statuses[..k + 1] <==> s in statuses[..k] || s == status;
    }
    assert statuses[..|statuses|] == statuses;
  }

  /** Every status in a block is one of the counted statuses, since the block's rows are cases. */
  lemma BlockStatuses(cases: Frame, location: Option<string>)
    requires forall row :: row in cases ==> IsCase(row)
    ensures forall s :: s in Present(InLocation(cases, location), CaseStatus) ==> s in Statuses
  {
    var rows := InLocation(cases, location);
    forall s | s in Present(rows, CaseStatus) ensures s in Statuses {
      var i :| 0 <= i < |rows| && Cell(rows[i], CaseStatus) == Some(s);
      assert rows[i] in rows;
    }
  }

  /**
   * Once the missing statuses are added, a block's columns are exactly the
   * two statuses, and renaming them gives the two daily columns.
   */
  lemma RenamedColumns(rows: Frame, dates: seq<string>, pivot: map<string, seq<nat>>, columns: map<string, seq<nat>>)
    requires forall s :: s in Present(rows, CaseStatus) ==> s in Statuses
    requires forall s :: s in pivot ==> s in Present(rows, CaseStatus)
    requires forall s :: s in columns ==> columns[s] == DailyColumn(rows, Onset, CaseStatus, dates, s)
    requires forall s :: s in columns <==> s in pivot || s in Statuses
    ensures columns.Keys == {Confirmed, Probable}
    ensures map[DailyKey(Confirmed) := columns[Confirmed], DailyKey(Probable) := columns[Probable]] == DailyColumns(rows, dates)
  {
  }

  /**
   * The daily part of `timeseries_for_location`: pivot the block's rows by
   * onset date and status, add a zero column for each status missing from
   * the pivot, and rename the columns to `daily_<status>`.
   */
  method DailyCounts(rows: Frame, dates: seq<string>) returns (daily: map<string, seq<nat>>)
    requires forall s :: s in Present(rows, CaseStatus) ==> s in Statuses
    ensures daily == DailyColumns(rows, dates)
  {
    var pivot := Pivot(rows, dates);
    PivotColumns(rows, dates);
    var columns := AddMissingStatuses(rows, dates, pivot, Statuses);
    RenamedColumns(rows, dates, pivot, columns);
    daily := map[DailyKey(Confirmed) := columns[Confirmed], DailyKey(Probable) := columns[Probable]];
  }

  /**
   * `timeseries_for_location`: the daily counts of the location's rows on
   * their distinct onset dates, then `cumulative_<status>` as the running
   * sum of each daily column, and the label.
   */
  method TimeseriesForLocation(cases: Frame, location: Option<string>) returns (counts: Block)
    requires forall row :: row in cases ==> IsCase(row)
    ensures counts == BlockFor(cases, location)
  {
    var rows := InLocation(cases, location);
    var dates := SortedSet(Present(rows, Onset));
    BlockStatuses(cases, location);
    var daily := DailyCounts(rows, dates);
    var renamed := AddCumulativeColumns(daily, Statuses);
    CumulativeColumns(rows, dates);
    counts := Block(dates, renamed, Label(location));
  }

  /** One row of the time series: a date of a block's index, the block's four counts on it, and its label. */
  datatype TimeseriesRow = TimeseriesRow(
    date: string,
    dailyConfirmed: nat,
    dailyProbable: nat,
    cumulativeConfirmed: nat,
    cumulativeProbable: nat,
    district: string)

  /** The entry of a column on row i; a cell the block lacks reads 0, as after `fillna(0)`. */
  function At(b: Block, column: string, i: nat): nat
  {
    if column in b.columns && i < |b.columns[column]| then b.columns[column][i] else 0
  }

  /** A block as a list of rows, its index becoming the `Date_onset_estimated` field. */
  function BlockRows(b: Block): seq<TimeseriesRow>
  {
    seq(|b.index|, i requires 0 <= i < |b.index| =>
      TimeseriesRow(b.index[i], At(b, DailyKey(Confirmed), i), At(b, DailyKey(Probable), i),
        At(b, CumulativeKey(Confirmed), i), At(b, CumulativeKey(Probable), i), b.district))
  }

  /** `pd.concat(map(timeseries_for_location, locations))` for the given locations, in order. */
  function Concatenated(cases: Frame, locations: seq<Option<string>>): seq<TimeseriesRow>
  {
    if locations == [] then []
    else Concatenated(cases, locations[..|locations| - 1]) + BlockRows(BlockFor(cases, locations[|locations| - 1]))
  }

  /** The time series of a linelist: one block per district in sorted order, then the Total block. */
  function Timeseries(df: Frame): seq<TimeseriesRow>
  {
    var cases := Cases(df);
    Concatenated(cases, Locations(cases))
  }

  lemma ConcatenatedStep(cases: Frame, locations: seq<Option<string>>, k: nat)
    requires k < |locations|
    ensures Concatenated(cases, locations[..k + 1]) == Concatenated(cases, locations[..k]) + BlockRows(BlockFor(cases, locations[k]))
  {
    assert locations[..k + 1][..k] == locations[..k];
  }

  /** `pd.concat(map(timeseries_for_location, locations))`: build each location's block in turn and append its rows. */
  method ConcatBlocks(cases: Frame, locations: seq<Option<string>>) returns (timeseries: seq<TimeseriesRow>)
    requires forall row :: row in cases ==> IsCase(row)
    ensures timeseries == Concatenated(cases, locations)
  {
    timeseries := [];
    for k := 0 to |locations|
      invariant timeseries == Concatenated(cases, locations[..k])
    {
      var counts := TimeseriesForLocation(cases, locations[k]);
      ConcatenatedStep(cases, locations, k);
      timeseries := timeseries + BlockRows(counts);
    }
    assert locations[..|locations|] == locations;
  }

  /** `get_timeseries_location_status` (without `fill_index`): the blocks of the sorted districts and then Total, concatenated. */
  method GetTimeseriesLocationStatus(df: Frame) returns (timeseries: seq<TimeseriesRow>)
    ensures timeseries == Timeseries(df)
  {
    var cases := Cases(df);
    timeseries := ConcatBlocks(cases, Locations(cases));
  }

  /** The cumulative loop over both statuses turns the two daily columns into the block's four columns. */
  lemma CumulativeColumns(rows: Frame, dates: seq<string>)
    ensures WithCumulative(DailyColumns(rows, dates), Statuses)
         == FourColumns(DailyColumn(rows, Onset, CaseStatus, dates, Confirmed), DailyColumn(rows, Onset, CaseStatus, dates, Probable))
  {
    var daily := DailyColumns(rows, dates);
    ColumnKeysDistinct();
    assert Statuses[..1] == [Confirmed] && [Confirmed][..0] == [];
    assert WithCumulative(daily, [Confirmed]) == daily[CumulativeKey(Confirmed) := RunningSum(daily[DailyKey(Confirmed)])];
  }

  /** Whether a row is a case counted in the location's block (every case for the Total block). */
  predicate InBlock(row: Row, location: Option<string>)
  {
    IsCase(row) && (location.Some? ==> row[District] == location.value)
  }

  /** The linelist's cases of the location with onset date d and status s, counted row by row. */
  function CaseCount(df: Frame, location: Option<string>, d: string, s: string): nat
  {
    if df == [] then 0
    else (if InBlock(df[0], location) && df[0][Onset] == d && df[0][CaseStatus] == s then 1 else 0) + CaseCount(df[1..], location, d, s)
  }

  /** The linelist's cases of the location with status s. */
  function CaseTotal(df: Frame, location: Option<string>, s: string): nat
  {
    if df == [] then 0
    else (if InBlock(df[0], location) && df[0][CaseStatus] == s then 1 else 0) + CaseTotal(df[1..], location, s)
  }

  /** Filtering to cases and then to the location takes the first row exactly when it is a case of the location. */
  lemma InLocationStep(df: Frame, location: Option<string>)
    requires df != []
    ensures InLocation(Cases(df), location)
         == (if InBlock(df[0], location) then [df[0]] else []) + InLocation(Cases(df[1..]), location)
  {
    var rest := Cases(df[1..]);
    if IsCase(df[0]) {
      assert Cases(df) == [df[0]] + rest;
      assert ([df[0]] + rest)[1..] == rest;
    } else {
      assert Cases(df) == rest;
    }
  }

  /** The pivot's counts on a block's rows are the case counts of the whole linelist. */
  lemma {:induction false} BlockCountsAgree(df: Frame, location: Option<string>, d: string, s: string)
    ensures RowCount(InLocation(Cases(df), location), Onset, d, CaseStatus, s) == CaseCount(df, location, d, s)
    ensures GroupRows(InLocation(Cases(df), location), Onset, CaseStatus, s) == CaseTotal(df, location, s)
  {
    if df != [] {
      InLocationStep(df, location);
      BlockCountsAgree(df[1..], location, d, s);
      var rest := InLocation(Cases(df[1..]), location);
      if InBlock(df[0], location) {
        assert InLocation(Cases(df), location) == [df[0]] + rest;
        assert ([df[0]] + rest)[1..] == rest;
      } else {
        assert InLocation(Cases(df), location) == rest;
      }
    } else {
      assert Cases(df) == [];
    }
  }

  /** Row i of a block with the four columns: the date, the day's counts of each status, their running sums, and the label. */
  lemma FourColumnsRow(b: Block, dc: seq<nat>, dp: seq<nat>, i: nat)
    requires b.columns == FourColumns(dc, dp) && |dc| == |b.index| && |dp| == |b.index|
    requires i < |b.index|
    ensures BlockRows(b)[i] == TimeseriesRow(b.index[i], dc[i], dp[i], RunningSum(dc)[i], RunningSum(dp)[i], b.district)
  {
    ColumnKeysDistinct();
  }

  /** Row i of a location's block: the date, the day's counts of each status, their running sums, and the label. */
  lemma BlockRow(cases: Frame, location: Option<string>, i: nat)
    requires i < |BlockFor(cases, location).index|
    ensures var b := BlockFor(cases, location);
      var rows := InLocation(cases, location);
      var dc := DailyColumn(rows, Onset, CaseStatus, b.index, Confirmed);
      var dp := DailyColumn(rows, Onset, CaseStatus, b.index, Probable);
      BlockRows(b)[i] == TimeseriesRow(b.index[i], dc[i], dp[i], RunningSum(dc)[i], RunningSum(dp)[i], Label(location))
  {
    var b := BlockFor(cases, location);
    var rows := InLocation(cases, location);
    FourColumnsRow(b, DailyColumn(rows, Onset, CaseStatus, b.index, Confirmed), DailyColumn(rows, Onset, CaseStatus, b.index, Probable), i);
  }

  /**
   * Each row of a location's block carries the number of the linelist's
   * cases of that location with that onset date, per status, and the
   * location's label; the dates increase strictly down the block.
   */
  lemma BlockRowsCounts(df: Frame, location: Option<string>)
    ensures var rows := BlockRows(BlockFor(Cases(df), location));
      && (forall i :: 0 <= i < |rows| ==>
        && rows[i].dailyConfirmed == CaseCount(df, location, rows[i].date, Confirmed)
        && rows[i].dailyProbable == CaseCount(df, location, rows[i].date, Probable)
        && rows[i].district == Label(location))
      && (forall i, j :: 0 <= i < j < |rows| ==> Less(rows[i].date, rows[j].date))
  {
    var b := BlockFor(Cases(df), location);
    var rows := BlockRows(b);
    forall i | 0 <= i < |rows|
      ensures rows[i].dailyConfirmed == CaseCount(df, location, rows[i].date, Confirmed)
      ensures rows[i].dailyProbable == CaseCount(df, location, rows[i].date, Probable)
    {
      BlockRow(Cases(df), location, i);
      BlockCountsAgree(df, location, b.index[i], Confirmed);
      BlockCountsAgree(df, location, b.index[i], Probable);
    }
  }

  /**
   * Down a block, the first cumulative counts are the first day's counts and
   * each later one is the previous row's plus the day's count.
   */
  lemma BlockRowsRunning(cases: Frame, location: Option<string>)
    ensures var rows := BlockRows(BlockFor(cases, location));
      && (rows != [] ==>
        rows[0].cumulativeConfirmed == rows[0].dailyConfirmed && rows[0].cumulativeProbable == rows[0].dailyProbable)
      && (forall i, j :: 0 <= i && j == i + 1 && j < |rows| ==>
        && rows[j].cumulativeConfirmed == rows[i].cumulativeConfirmed + rows[j].dailyConfirmed
        && rows[j].cumulativeProbable == rows[i].cumulativeProbable + rows[j].dailyProbable)
  {
    var b := BlockFor(cases, location);
    var rows := InLocation(cases, location);
    FourColumnsRunning(b, DailyColumn(rows, Onset, CaseStatus, b.index, Confirmed), DailyColumn(rows, Onset, CaseStatus, b.index, Probable));
  }

  lemma FourColumnsRunning(b: Block, dc: seq<nat>, dp: seq<nat>)
    requires b.columns == FourColumns(dc, dp) && |dc| == |b.index| && |dp| == |b.index|
    ensures var rows := BlockRows(b);
      && (rows != [] ==>
        rows[0].cumulativeConfirmed == rows[0].dailyConfirmed && rows[0].cumulativeProbable == rows[0].dailyProbable)
      && (forall i, j :: 0 <= i && j == i + 1 && j < |rows| ==>
        && rows[j].cumulativeConfirmed == rows[i].cumulativeConfirmed + rows[j].dailyConfirmed
        && rows[j].cumulativeProbable == rows[i].cumulativeProbable + rows[j].dailyProbable)
  {
    var rows := BlockRows(b);
    if rows != [] {
      FourColumnsStep(b, dc, dp, 0);
    }
    forall i, j | 0 <= i && j == i + 1 && j < |rows|
      ensures rows[j].cumulativeConfirmed == rows[i].cumulativeConfirmed + rows[j].dailyConfirmed
      ensures rows[j].cumulativeProbable == rows[i].cumulativeProbable + rows[j].dailyProbable
    {
      FourColumnsStep(b, dc, dp, j);
    }
  }

  lemma FourColumnsStep(b: Block, dc: seq<nat>, dp: seq<nat>, i: nat)
    requires b.columns == FourColumns(dc, dp) && |dc| == |b.index| && |dp| == |b.index|
    requires i < |b.index|
    ensures var rows := BlockRows(b);
      && rows[i].cumulativeConfirmed == (if i == 0 then 0 else rows[i - 1].cumulativeConfirmed) + rows[i].dailyConfirmed
      && rows[i].cumulativeProbable == (if i == 0 then 0 else rows[i - 1].cumulativeProbable) + rows[i].dailyProbable
  {
    FourColumnsRow(b, dc, dp, i);
    RunningSumAt(dc, i);
    RunningSumAt(dp, i);
    if i > 0 {
      FourColumnsRow(b, dc, dp, i - 1);
    }
  }

  /** Summed over a block's dates, a status's daily counts give the location's number of cases of that status. */
  lemma BlockTotal(df: Frame, location: Option<string>, s: string)
    ensures var b := BlockFor(Cases(df), location);
      Sum(DailyColumn(InLocation(Cases(df), location), Onset, CaseStatus, b.index, s)) == CaseTotal(df, location, s)
  {
    var cases := Cases(df);
    var rows := InLocation(cases, location);
    var b := BlockFor(cases, location);
    StrictlySortedNoDup(b.index);
    forall i | 0 <= i < |rows| && Onset in rows[i] && Cell(rows[i], CaseStatus) == Some(s)
      ensures rows[i][Onset] in b.index
    {
      assert rows[i][Onset] in Present(rows, Onset);
    }
    SumOfDailyColumn(rows, Onset, CaseStatus, b.index, s);
    SumOverDates(rows, Onset, CaseStatus, b.index, s);
    BlockCountsAgree(df, location, "", s);
  }

  /**
   * A block's last cumulative counts are the location's numbers of confirmed
   * and probable cases.
   */
  lemma BlockRowsTotals(df: Frame, location: Option<string>)
    ensures var rows := BlockRows(BlockFor(Cases(df), location));
      rows != [] ==>
        && rows[|rows| - 1].cumulativeConfirmed == CaseTotal(df, location, Confirmed)
        && rows[|rows| - 1].cumulativeProbable == CaseTotal(df, location, Probable)
  {
    var cases := Cases(df);
    var b := BlockFor(cases, location);
    var blockRows := InLocation(cases, location);
    BlockTotal(df, location, Confirmed);
    BlockTotal(df, location, Probable);
    FourColumnsLast(b, DailyColumn(blockRows, Onset, CaseStatus, b.index, Confirmed), DailyColumn(blockRows, Onset, CaseStatus, b.index, Probable));
  }

  /** The last row of a block with the four columns holds the totals of both daily columns. */
  lemma FourColumnsLast(b: Block, dc: seq<nat>, dp: seq<nat>)
    requires b.columns == FourColumns(dc, dp) && |dc| == |b.index| && |dp| == |b.index|
    ensures var rows := BlockRows(b);
      rows != [] ==> rows[|rows| - 1].cumulativeConfirmed == Sum(dc) && rows[|rows| - 1].cumulativeProbable == Sum(dp)
  {
    if b.index != [] {
      RunningSumLast(dc);
      RunningSumLast(dp);
      FourColumnsRow(b, dc, dp, |b.index| - 1);
    }
  }

  /** A status the location has no case of reads 0 all the way down its block, daily and cumulative. */
  lemma BlockRowsZero(df: Frame, location: Option<string>)
    ensures var rows := BlockRows(BlockFor(Cases(df), location));
      && (CaseTotal(df, location, Confirmed) == 0 ==>
        forall i :: 0 <= i < |rows| ==> rows[i].dailyConfirmed == 0 && rows[i].cumulativeConfirmed == 0)
      && (CaseTotal(df, location, Probable) == 0 ==>
        forall i :: 0 <= i < |rows| ==> rows[i].dailyProbable == 0 && rows[i].cumulativeProbable == 0)
  {
    var rows := BlockRows(BlockFor(Cases(df), location));
    forall i | 0 <= i < |rows|
      ensures CaseTotal(df, location, Confirmed) == 0 ==> rows[i].dailyConfirmed == 0 && rows[i].cumulativeConfirmed == 0
      ensures CaseTotal(df, location, Probable) == 0 ==> rows[i].dailyProbable == 0 && rows[i].cumulativeProbable == 0
    {
      BlockRowZero(df, location, i);
    }
  }

  lemma BlockRowZero(df: Frame, location: Option<string>, i: nat)
    requires i < |BlockFor(Cases(df), location).index|
    ensures var row := BlockRows(BlockFor(Cases(df), location))[i];
      && (CaseTotal(df, location, Confirmed) == 0 ==> row.dailyConfirmed == 0 && row.cumulativeConfirmed == 0)
      && (CaseTotal(df, location, Probable) == 0 ==> row.dailyProbable == 0 && row.cumulativeProbable == 0)
  {
    var cases := Cases(df);
    var b := BlockFor(cases, location);
    var blockRows := InLocation(cases, location);
    var dc := DailyColumn(blockRows, Onset, CaseStatus, b.index, Confirmed);
    var dp := DailyColumn(blockRows, Onset, CaseStatus, b.index, Probable);
    BlockTotal(df, location, Confirmed);
    BlockTotal(df, location, Probable);
    SumZero(dc);
    SumZero(dp);
    BlockRow(cases, location, i);
  }

  /**
   * The series has one block per district of the cases, in increasing order
   * of district, followed by the Total block over every case.
   */
  lemma TimeseriesLayout(df: Frame)
    ensures var cases := Cases(df);
      var locations := Locations(cases);
      && |locations| >= 1 && locations[|locations| - 1] == None
      && (forall k :: 0 <= k < |locations| - 1 ==> locations[k].Some?)
      && (forall k, l :: 0 <= k < l < |locations| - 1 ==> Less(locations[k].value, locations[l].value))
      && Timeseries(df) == Concatenated(cases, locations[..|locations| - 1]) + BlockRows(BlockFor(cases, None))
  {
    var cases := Cases(df);
    LocationsOrder(cases);
    ConcatenatedLast(cases, Locations(cases));
  }

  /** The locations are the districts in increasing order, then None for the Total block. */
  lemma LocationsOrder(cases: Frame)
    ensures var locations := Locations(cases);
      && |locations| >= 1 && locations[|locations| - 1] == None
      && (forall k :: 0 <= k < |locations| - 1 ==> locations[k].Some?)
      && (forall k, l :: 0 <= k < l < |locations| - 1 ==> Less(locations[k].value, locations[l].value))
  {
  }

  lemma ConcatenatedLast(cases: Frame, locations: seq<Option<string>>)
    requires locations != [] && locations[|locations| - 1] == None
    ensures Concatenated(cases, locations) == Concatenated(cases, locations[..|locations| - 1]) + BlockRows(BlockFor(cases, None))
  {
  }

  /** A district has a block in the series exactly when some case of the linelist is in it. */
  lemma LocationsCover(df: Frame, d: string)
    ensures Some(d) in Locations(Cases(df)) <==> exists row :: row in df && IsCase(row) && row[District] == d
  {
    var cases := Cases(df);
    LocationsMember(cases, d);
    if d in Present(cases, District) {
      var j :| 0 <= j < |cases| && Cell(cases[j], District) == Some(d);
      assert cases[j] in cases;
    }
    if exists row :: row in df && IsCase(row) && row[District] == d {
      var row :| row in df && IsCase(row) && row[District] == d;
      assert row in cases;
    }
  }

  lemma LocationsMember(cases: Frame, d: string)
    ensures Some(d) in Locations(cases) <==> d in Present(cases, District)
  {
    var locations := Locations(cases);
    var districts := SortedSet(Present(cases, District));
    if Some(d) in locations {
      var k :| 0 <= k < |locations| && locations[k] == Some(d);
      assert k < |districts|;
      assert districts[k] == d;
    }
    if d in districts {
      var k :| 0 <= k < |districts| && districts[k] == d;
      assert locations[k] == Some(d);
    }
  }
}
