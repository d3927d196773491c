/**
 * Age binning of the briefing reports (src/obr/util.py): the fixed table of
 * ten inclusive age intervals, the parser that turns an age string ("N" or
 * "A-B") into a range of bin indices, and the names of the bins.
 */
module AgeBins {
  import opened Wrappers
  import opened Text

  /** The ten inclusive age intervals, youngest first. */
  const AgeBinTable: seq<(nat, nat)> :=
    [(0, 0), (1, 9), (10, 19), (20, 29), (30, 39), (40, 49), (50, 59), (60, 69), (70, 79), (80, 120)]

  const MaxAge: nat := 120

  predicate InBin(age: int, i: nat)
    requires i < |AgeBinTable|
  {
    AgeBinTable[i].0 <= age <= AgeBinTable[i].1
  }

  /** The table is ten non-empty intervals, each starting one past the end of the previous, from 0 to 120. */
  lemma TableIsPartition()
    ensures |AgeBinTable| == 10
    ensures AgeBinTable[0].0 == 0 && AgeBinTable[9].1 == MaxAge
    ensures forall i :: 0 <= i < 10 ==> AgeBinTable[i].0 <= AgeBinTable[i].1
    ensures forall i :: 0 <= i < 9 ==> AgeBinTable[i + 1].0 == AgeBinTable[i].1 + 1
  {
  }

  /** The bin an age in 0..120 falls in, in closed form. */
  function BinFormula(age: nat): nat
  {
    if age == 0 then 0 else if age < 80 then age / 10 + 1 else 9
  }

  /** Every age in 0..120 lies in exactly one bin, the one BinFormula names; no other age lies in any bin. */
  lemma ExactlyOneBin(age: int)
    ensures forall i :: 0 <= i < |AgeBinTable| && InBin(age, i) ==> 0 <= age <= MaxAge && i == BinFormula(age)
    ensures 0 <= age <= MaxAge ==> BinFormula(age) < |AgeBinTable| && InBin(age, BinFormula(age))
  {
    forall i | 0 <= i < |AgeBinTable| && InBin(age, i)
      ensures 0 <= age <= MaxAge && i == BinFormula(age)
    {
      assert i in {0, 1, 2, 3, 4, 5, 6, 7, 8, 9};
    }
  }

  /** The last of the first k bins that contains age: what the loop of `get_age_bins` leaves in `start_index` (or `end_index`) after k steps. */
  function LastBinWithin(age: int, k: nat): (r: Option<nat>)
    requires k <= |AgeBinTable|
    ensures r.Some? ==> r.value < k && InBin(age, r.value)
    ensures r.None? ==> forall i :: 0 <= i < k ==> !InBin(age, i)
  {
    if k == 0 then None
    else if InBin(age, k - 1) then Some(k - 1)
    else LastBinWithin(age, k - 1)
  }

  /** The bin of an age after the loop has seen all ten bins; None when `start_index` (or `end_index`) of `get_age_bins` stays unbound. */
  function BinOf(age: int): Option<nat>
  {
    LastBinWithin(age, |AgeBinTable|)
  }

  /** An age has a bin exactly when it is in 0..120, and then it is the unique bin containing it. */
  lemma BinOfCovers(age: int)
    ensures BinOf(age).Some? <==> 0 <= age <= MaxAge
    ensures BinOf(age).Some? ==> BinOf(age).value == BinFormula(age)
  {
    ExactlyOneBin(age);
  }

  /** The exceptions get_age_bins lets escape. */
  datatype AgeError =
    | ValueError         // `int` refused a part, or "A-B" did not split into exactly two parts
    | UnboundLocalError  // an age outside every bin left start_index or end_index unbound

  /** Python's `range(start, stop)`: the integers from start up to but not including stop. */
  datatype BinRange = BinRange(start: int, stop: int)

  /** The two ages an age string names: "A-B" splits at "-", otherwise the string is one age. */
  function ParseAgeBounds(age: string): (r: Result<(int, int), AgeError>)
    ensures r.Ok? && '-' !in age ==> r.value.0 == r.value.1
  {
    if '-' in age then
      var parts := Split(age, '-');
      if (forall i :: 0 <= i < |parts| ==> ParseInt(parts[i]).Some?) && |parts| == 2 then
        Ok((ParseInt(parts[0]).value, ParseInt(parts[1]).value))
      else
        Err(ValueError)
    else
      match ParseInt(age)
      case Some(n) => Ok((n, n))
      case None => Err(ValueError)
  }

  /** What get_age_bins returns or raises for an age string. */
  function AgeBinRange(age: string): Result<BinRange, AgeError>
  {
    if age == "0" then Ok(BinRange(0, 1))
    else
      match ParseAgeBounds(age)
      case Err(e) => Err(e)
      case Ok((a, b)) =>
        if BinOf(a).None? || BinOf(b).None? then Err(UnboundLocalError)
        else Ok(BinRange(BinOf(a).value, BinOf(b).value + 1))
  }

  /**
   * get_age_bins: after the "0" shortcut and parsing, one pass over the table
   * records the last bin holding the start age and the last bin holding the
   * end age; an index that was never assigned raises UnboundLocalError.
   */
  method GetAgeBins(age: string) returns (r: Result<BinRange, AgeError>)
    ensures r == AgeBinRange(age)
  {
    if age == "0" {
      return Ok(BinRange(0, 1));
    }
    var bounds := ParseAgeBounds(age);
    if bounds.Err? {
      return Err(bounds.error);
    }
    var (startAge, endAge) := bounds.value;
    var startIndex: Option<nat> := None;
    var endIndex: Option<nat> := None;
    for i := 0 to |AgeBinTable|
      invariant startIndex == LastBinWithin(startAge, i)
      invariant endIndex == LastBinWithin(endAge, i)
    {
      var (startBin, endBin) := AgeBinTable[i];
      if startBin <= startAge <= endBin {
        startIndex := Some(i);
      }
      if startBin <= endAge <= endBin {
        endIndex := Some(i);
      }
    }
    if startIndex.None? || endIndex.None? {
      return Err(UnboundLocalError);
    }
    return Ok(BinRange(startIndex.value, endIndex.value + 1));
  }

  /** The "0" shortcut returns what the general path would. */
  lemma ZeroShortcutAgrees()
    ensures ParseAgeBounds("0") == Ok((0, 0))
    ensures BinOf(0).Some? && AgeBinRange("0") == Ok(BinRange(BinOf(0).value, BinOf(0).value + 1))
  {
    ParseNatToString(0);
    BinOfCovers(0);
  }

  /** A single age N in 0..120, written as Python writes it, gives the one-element range of N's bin. */
  lemma {:induction false} SingleAge(n: nat)
    requires n <= MaxAge
    ensures AgeBinRange(NatToString(n)) == Ok(BinRange(BinFormula(n), BinFormula(n) + 1))
    ensures InBin(n, BinFormula(n))
  {
    NatToStringShort(n);
    ParseNatToString(n);
    BinOfCovers(n);
    ExactlyOneBin(n);
    assert '-' !in NatToString(n);
  }

  /** "A-B" with A and B in 0..120 gives the indices from A's bin through B's bin. */
  lemma AgeSpan(a: nat, b: nat)
    requires a <= MaxAge && b <= MaxAge
    ensures AgeBinRange(NatToString(a) + "-" + NatToString(b)) == Ok(BinRange(BinFormula(a), BinFormula(b) + 1))
  {
    NatToStringShort(a);
    NatToStringShort(b);
    ParseSpan(a, b);
    BinOfCovers(a);
    BinOfCovers(b);
  }

  /** "A-B", both written as Python writes them, parses to the pair (A, B) and is not the "0" shortcut. */
  lemma {:induction false} ParseSpan(a: nat, b: nat)
    requires |NatToString(a)| <= MaxStrDigits && |NatToString(b)| <= MaxStrDigits
    ensures var s := NatToString(a) + "-" + NatToString(b);
      s != "0" && ParseAgeBounds(s) == Ok((a, b))
  {
    var s := NatToString(a) + "-" + NatToString(b);
    assert '-' !in NatToString(a) && '-' !in NatToString(b);
    SplitPair(NatToString(a), NatToString(b), '-');
    assert s == NatToString(a) + ['-'] + NatToString(b);
    assert '-' in s by {
      assert s[|NatToString(a)|] == '-';
    }
    ParseNatToString(a);
    ParseNatToString(b);
  }

  /** For 0 <= A <= B <= 120 the range is non-empty, lies within the table, and starts and ends at the bins of A and B. */
  lemma RangeWithinTable(age: string, a: int, b: int)
    requires ParseAgeBounds(age) == Ok((a, b))
    requires 0 <= a <= b <= MaxAge
    ensures AgeBinRange(age).Ok?
    ensures var r := AgeBinRange(age).value;
      && 0 <= r.start < r.stop <= |AgeBinTable|
      && InBin(a, r.start) && InBin(b, r.stop - 1)
  {
    BinOfCovers(a);
    BinOfCovers(b);
    ExactlyOneBin(a);
    ExactlyOneBin(b);
    ZeroShortcutAgrees();
    if age == "0" {
      assert (a, b) == (0, 0);
    }
  }

  /** `get_age_bins` fails in two ways: ValueError for unparsable input, UnboundLocalError for ages outside 0..120. */
  lemma AgeErrors(age: string)
    requires age != "0"
    ensures ParseAgeBounds(age).Err? ==> AgeBinRange(age) == Err(ValueError)
    ensures ParseAgeBounds(age).Ok? ==>
      var (a, b) := ParseAgeBounds(age).value;
      (AgeBinRange(age) == Err(UnboundLocalError) <==> !(0 <= a <= MaxAge && 0 <= b <= MaxAge))
  {
    if ParseAgeBounds(age).Ok? {
      var (a, b) := ParseAgeBounds(age).value;
      BinOfCovers(a);
      BinOfCovers(b);
    }
  }

  /** The cases of `tests/test_util.py` that do not use '>': "50-55", "0" and "65". */
  lemma ExampleAges()
    ensures AgeBinRange("50-55") == Ok(BinRange(6, 7))
    ensures AgeBinRange("0") == Ok(BinRange(0, 1))
    ensures AgeBinRange("65") == Ok(BinRange(7, 8))
  {
    assert NatToString(50) == "50" && NatToString(55) == "55" && NatToString(65) == "65";
    AgeSpan(50, 55);
    assert NatToString(50) + "-" + NatToString(55) == "50-55";
    SingleAge(65);
  }

  // ----- bin names -----

  datatype IndexError = IndexError

  /** name_bin: a point bin is named by its age, the bin from 80 is "80+", any other "lo-hi"; Python's negative indices count from the end. */
  function NameBin(binIdx: int): Result<string, IndexError>
  {
    if !(-|AgeBinTable| <= binIdx < |AgeBinTable|) then Err(IndexError)
    else
      var bin := AgeBinTable[if binIdx < 0 then binIdx + |AgeBinTable| else binIdx];
      if bin.0 == bin.1 then Ok(NatToString(bin.0))
      else if bin.0 == 80 then Ok("80+")
      else Ok(NatToString(bin.0) + "-" + NatToString(bin.1))
  }

  /** The names `tests/test_util.py` pins, and the wrap-around of negative indices. */
  lemma NameBinValues()
    ensures NameBin(0) == Ok("0") && NameBin(1) == Ok("1-9") && NameBin(9) == Ok("80+")
    ensures forall i :: -|AgeBinTable| <= i < 0 ==> NameBin(i) == NameBin(i + |AgeBinTable|)
    ensures forall i :: (i < -|AgeBinTable| || |AgeBinTable| <= i) ==> NameBin(i) == Err(IndexError)
  {
    assert NatToString(1) + "-" + NatToString(9) == "1-9";
  }

  /** The ten bins have pairwise distinct names, so the names can key a dictionary. */
  lemma NameBinInjective(i: nat, j: nat)
    requires i < |AgeBinTable| && j < |AgeBinTable| && i != j
    ensures NameBin(i).Ok? && NameBin(j).Ok? && NameBin(i).value != NameBin(j).value
  {
    var lo, lo' := AgeBinTable[i].0, AgeBinTable[j].0;
    assert lo != lo' by {
      assert i in {0, 1, 2, 3, 4, 5, 6, 7, 8, 9};
      assert j in {0, 1, 2, 3, 4, 5, 6, 7, 8, 9};
    }
    assert NatToString(lo) != NatToString(lo') by {
      if NatToString(lo) == NatToString(lo') {
        NatToStringInjective(lo, lo');
      }
    }
    NameHead(i);
    NameHead(j);
  }

  /** The leading ASCII digits of a string. */
  function DigitPrefix(w: string): (p: string)
  {
    if w != [] && IsDigit(w[0]) then [w[0]] + DigitPrefix(w[1..]) else []
  }

  lemma {:induction false} DigitPrefixOf(s: string, t: string)
    requires forall k :: 0 <= k < |s| ==> IsDigit(s[k])
    requires t == [] || !IsDigit(t[0])
    ensures DigitPrefix(s + t) == s
    decreases |s|
  {
    if s != [] {
      assert (s + t)[1..] == s[1..] + t;
      DigitPrefixOf(s[1..], t);
    } else {
      assert s + t == t;
    }
  }

  /** A bin's name begins with its lower bound's digits, and no further digit follows them. */
  lemma NameHead(i: nat)
    requires i < |AgeBinTable|
    ensures NameBin(i).Ok?
    ensures DigitPrefix(NameBin(i).value) == NatToString(AgeBinTable[i].0)
  {
    var (lo, hi) := AgeBinTable[i];
    var s := NatToString(lo);
    if lo == hi {
      DigitPrefixOf(s, []);
      assert s + [] == s;
    } else if lo == 80 {
      assert s == "80";
      DigitPrefixOf(s, "+");
    } else {
      DigitPrefixOf(s, "-" + NatToString(hi));
      assert NatToString(lo) + "-" + NatToString(hi) == s + ("-" + NatToString(hi));
    }
  }
}
