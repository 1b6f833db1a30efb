/**
 * InputParser: bounds the paging arguments by the configured limits, parses integers and
 * strings from user input, and reads query-string variables. A query string is modelled as
 * a map from variable name to the values given for it, in order.
 */
module InputParser {
  import opened Wrappers
  import opened Numeric
  import opened Text
  import opened Int32Text

  datatype PagingSettings = PagingSettings(minStartRow: int32, minRowCount: int32, maxRowCount: int32)

  /** The state ParseSettings accepts settings in. */
  predicate IsParsed(s: PagingSettings)
  {
    s.minStartRow >= 0 && s.minRowCount >= 0 && s.maxRowCount >= 0
  }

  /** ParseStartRow: a start row below the configured minimum becomes the minimum. */
  function ParseStartRow(settings: PagingSettings, startRow: int32): (r: int32)
    ensures r >= settings.minStartRow && r >= startRow
    ensures r == startRow || r == settings.minStartRow
  {
    if startRow < settings.minStartRow then settings.minStartRow else startRow
  }

  /** ParseRowCount: a row count outside the configured range becomes the maximum. */
  function ParseRowCount(settings: PagingSettings, rowCount: int32): (r: int32)
    ensures r <= settings.maxRowCount
    ensures settings.minRowCount <= rowCount <= settings.maxRowCount ==> r == rowCount
    ensures !(settings.minRowCount <= rowCount <= settings.maxRowCount) ==> r == settings.maxRowCount
  {
    if rowCount < settings.minRowCount || rowCount > settings.maxRowCount then settings.maxRowCount else rowCount
  }

  /** Both paging bounds are idempotent, and the row count lands in the configured range
      whenever that range is not empty. */
  lemma PagingBounds(settings: PagingSettings, startRow: int32, rowCount: int32)
    ensures ParseStartRow(settings, ParseStartRow(settings, startRow)) == ParseStartRow(settings, startRow)
    ensures ParseRowCount(settings, ParseRowCount(settings, rowCount)) == ParseRowCount(settings, rowCount)
    ensures settings.minRowCount <= settings.maxRowCount ==>
      settings.minRowCount <= ParseRowCount(settings, rowCount) <= settings.maxRowCount
  {
  }

  /** TryParsePositiveInt: true when s parses as an Int32 greater than zero; the out value is
      the parsed number whenever s parses, and 0 otherwise. */
  function TryParsePositiveInt(s: Option<string>): (r: (bool, int32))
    ensures r.0 <==> TryParseInt32(s).Some? && TryParseInt32(s).value > 0
    ensures r.1 == TryParseInt32(s).GetOr(0)
  {
    var parsed := TryParseInt32(s);
    var result := parsed.GetOr(0);
    if parsed.Some? && result > 0 then (true, result) else (false, result)
  }

  /** Every positive number written by ToString is accepted, and nothing else written by it. */
  lemma PositiveIntRoundTrip(n: int32)
    ensures TryParsePositiveInt(Some(FormatInt(n))) == (n > 0, n)
  {
    FormatParseRoundTrip(n);
  }

  /** TryParseString: always succeeds, with the trimmed string (a null string reads as ""). */
  function TryParseString(s: Option<string>): (r: (bool, string))
    ensures r.0
    ensures r.1 == [] || (!IsWhiteSpace(r.1[0]) && !IsWhiteSpace(r.1[|r.1| - 1]))
    ensures s.None? ==> r.1 == []
    ensures s.Some? ==> exists i, j :: TrimmedAt(s.value, i, j) && r.1 == s.value[i..j]
  {
    var t := Trim(s.GetOr(""));
    TrimIsSlice(s.GetOr(""));
    (true, t)
  }

  /** s[i..j] is what is left of s once white space is dropped before i and from j on. */
  predicate TrimmedAt(s: string, i: int, j: int)
  {
    && 0 <= i <= j <= |s|
    && (forall k :: 0 <= k < i ==> IsWhiteSpace(s[k]))
    && (forall k :: j <= k < |s| ==> IsWhiteSpace(s[k]))
  }

  /** Trimming removes white space at the ends and nothing else. */
  lemma TrimIsSlice(s: string)
    ensures exists i, j :: TrimmedAt(s, i, j) && Trim(s) == s[i..j]
  {
    var st := TrimStart(s);
    var i := |s| - |st|;
    var t := TrimEnd(st);
    assert Trim(s) == t;
    SliceOfSuffix(s, i, st, t);
    assert TrimmedAt(s, i, i + |t|);
  }

  /** A prefix t of the suffix st == s[i..], followed in st by white space only, is s[i..i + |t|]
      followed in s by white space only. */
  lemma SliceOfSuffix(s: string, i: int, st: string, t: string)
    requires 0 <= i <= |s| && st == s[i..]
    requires |t| <= |st| && t == st[..|t|]
    requires forall k :: |t| <= k < |st| ==> IsWhiteSpace(st[k])
    ensures t == s[i..i + |t|]
    ensures forall k :: i + |t| <= k < |s| ==> IsWhiteSpace(s[k])
  {
    forall k | i + |t| <= k < |s|
      ensures IsWhiteSpace(s[k])
    {
      assert s[k] == st[k - i];
    }
  }

  /** Parsing a string twice is parsing it once. */
  lemma TryParseStringIdempotent(s: Option<string>)
    ensures TryParseString(Some(TryParseString(s).1)) == TryParseString(s)
  {
    TrimNoOp(TryParseString(s).1);
  }

  /**
   * A query string: for each variable, the values given for it, in order. The query collection
   * compares names ignoring case, so all spellings of a name share one entry; the map keys each
   * entry by the name folded to upper case.
   */
  type Query = q: map<string, seq<string>> | forall name :: name in q ==> FoldCase(name) == name
    witness map[]

  /** The entry whose name equals varName ignoring case is the one at varName's folding. */
  lemma FoldedLookup(query: Query, varName: string)
    ensures forall name :: name in query && EqualsIgnoreCase(name, varName) ==> name == FoldCase(varName)
    ensures FoldCase(varName) in query ==> EqualsIgnoreCase(FoldCase(varName), varName)
  {
    forall name | name in query && EqualsIgnoreCase(name, varName)
      ensures name == FoldCase(varName)
    {
      EqualsIgnoreCaseFolds(name, varName);
    }
    EqualsIgnoreCaseFolds(varName, varName);
  }

  /** GetQueryVar: the values of the variable whose name equals varName ignoring case, or none
      when no variable does. */
  function GetQueryVar(query: Query, varName: string): (r: seq<string>)
    ensures forall name :: name in query && EqualsIgnoreCase(name, varName) ==> r == query[name]
    ensures (forall name :: name in query ==> !EqualsIgnoreCase(name, varName)) ==> r == []
  {
    FoldedLookup(query, varName);
    var key := FoldCase(varName);
    if key in query then query[key] else []
  }

  /** Names that differ only in case read the same variable. */
  lemma GetQueryVarIgnoresCase(query: Query, a: string, b: string)
    requires EqualsIgnoreCase(a, b)
    ensures GetQueryVar(query, a) == GetQueryVar(query, b)
    ensures GetQueryVarAsInt(query, a) == GetQueryVarAsInt(query, b)
    ensures GetQueryVarAsCardinal(query, a) == GetQueryVarAsCardinal(query, b)
  {
    EqualsIgnoreCaseFolds(a, b);
  }

  /** The values that are not empty, in order. */
  function NonEmptyValues(values: seq<string>): (r: seq<string>)
    ensures |r| <= |values|
    ensures forall v :: v in r <==> v in values && v != []
  {
    if values == [] then []
    else (if values[0] == [] then [] else [values[0]]) + NonEmptyValues(values[1..])
  }

  /**
   * StringValues.ToString: "" for no values, the value itself for one, and for two or more the
   * values that are not empty joined with commas.
   */
  function StringValuesToString(values: seq<string>): (r: string)
    ensures |values| == 0 ==> r == []
    ensures |values| == 1 ==> r == values[0]
    ensures |values| >= 2 && NonEmptyValues(values) == [] ==> r == []
    ensures |values| >= 2 && |NonEmptyValues(values)| == 1 ==> r == NonEmptyValues(values)[0]
    ensures |NonEmptyValues(values)| >= 2 ==> ',' in r
  {
    JoinHasSeparator(NonEmptyValues(values));
    if |values| == 0 then []
    else if |values| == 1 then values[0]
    else Join(",", NonEmptyValues(values))
  }

  lemma JoinHasSeparator(values: seq<string>)
    ensures |values| >= 2 ==> ',' in Join(",", values)
  {
    if |values| >= 2 {
      assert Join(",", values) == values[0] + "," + Join(",", values[1..]);
      assert Join(",", values)[|values[0]|] == ',';
    }
  }

  /** GetQueryVarAsInt: the variable's value as an Int32, 0 when it is absent or does not parse. */
  function GetQueryVarAsInt(query: Query, varName: string): (r: int32)
    ensures GetQueryVar(query, varName) == [] ==> r == 0
    ensures var parsed := ParseInt32(StringValuesToString(GetQueryVar(query, varName)));
      (parsed.None? ==> r == 0) && (parsed.Some? ==> r == parsed.value)
  {
    var parsed := ParseInt32(StringValuesToString(GetQueryVar(query, varName)));
    if parsed.Some? then parsed.value else 0
  }

  /** A variable whose only non-empty value is a number written by ToString reads back as that
      number; one with no non-empty value, or with two or more, reads as 0. */
  lemma QueryVarAsIntCases(query: Query, varName: string)
    ensures forall n: int32 :: NonEmptyValues(GetQueryVar(query, varName)) == [FormatInt(n)] ==>
      GetQueryVarAsInt(query, varName) == n
    ensures NonEmptyValues(GetQueryVar(query, varName)) == [] ==> GetQueryVarAsInt(query, varName) == 0
    ensures |NonEmptyValues(GetQueryVar(query, varName))| >= 2 ==> GetQueryVarAsInt(query, varName) == 0
  {
    var values := GetQueryVar(query, varName);
    var joined := StringValuesToString(values);
    forall n: int32 | NonEmptyValues(values) == [FormatInt(n)]
      ensures GetQueryVarAsInt(query, varName) == n
    {
      OnlyNonEmptyValue(values, FormatInt(n));
      FormatParseRoundTrip(n);
    }
    if NonEmptyValues(values) == [] {
      EmptyValuesJoinEmpty(values);
      assert joined == [];
    }
    if |NonEmptyValues(values)| >= 2 {
      CommaNeverParses(joined);
    }
  }

  /** When exactly one value is not empty, ToString gives that value. */
  lemma OnlyNonEmptyValue(values: seq<string>, v: string)
    requires v != [] && NonEmptyValues(values) == [v]
    ensures StringValuesToString(values) == v
  {
    if |values| == 1 {
      assert values[0] in NonEmptyValues(values);
    }
  }

  /** When no value is non-empty, ToString gives "". */
  lemma EmptyValuesJoinEmpty(values: seq<string>)
    requires NonEmptyValues(values) == []
    ensures StringValuesToString(values) == []
  {
    if |values| == 1 {
      assert values[0] !in NonEmptyValues(values);
    }
  }

  /** GetQueryVarAsCardinal: the absolute value of GetQueryVarAsInt, which overflows (Math.Abs
      throws) for Int32.MinValue. */
  function GetQueryVarAsCardinal(query: Query, varName: string): (r: Result<int32, Overflow>)
    ensures r.Failure? <==> GetQueryVarAsInt(query, varName) == Int32Min
    ensures r.Success? ==>
      r.value >= 0 && (r.value == GetQueryVarAsInt(query, varName) || r.value as int == -(GetQueryVarAsInt(query, varName) as int))
  {
    var x := GetQueryVarAsInt(query, varName);
    Abs32(x)
  }

  /** The one query value that makes GetQueryVarAsCardinal throw: Int32.MinValue, "-2147483648". */
  lemma CardinalOverflows(query: Query, varName: string)
    requires GetQueryVar(query, varName) == [FormatInt(Int32Min)]
    ensures GetQueryVarAsCardinal(query, varName).Failure?
  {
    QueryVarAsIntCases(query, varName);
    assert GetQueryVarAsInt(query, varName) == Int32Min;
  }

  /** The characters a string accepted by Int32.Parse can hold. */
  predicate IsNumberChar(c: char)
  {
    IsDigit(c) || IsParseWhite(c) || c == '-' || c == '+' || c == '\0'
  }

  /** A comma is not part of an Int32 in the invariant culture. */
  lemma CommaNeverParses(s: string)
    requires ',' in s
    ensures ParseInt32(s).None?
  {
    ParsedCharsAreNumberChars(s);
    var i :| 0 <= i < |s| && s[i] == ',';
    assert !IsNumberChar(s[i]);
  }

  /** Every character of a string Int32.Parse accepts is a digit, white space, a sign or NUL. */
  lemma ParsedCharsAreNumberChars(s: string)
    ensures ParseInt32(s).Some? ==> forall i :: 0 <= i < |s| ==> IsNumberChar(s[i])
  {
    var t := SkipParseWhite(s);
    SkippedAreWhite(s);
    if ParseInt32(s).Some? {
      var u := if t[0] == '-' || t[0] == '+' then t[1..] else t;
      assert ParseMagnitude(u).Some?;
      MagnitudeChars(u);
      forall i | 0 <= i < |s|
        ensures IsNumberChar(s[i])
      {
        if i >= |s| - |t| {
          assert s[i] == t[i - (|s| - |t|)];
          if i - (|s| - |t|) >= |t| - |u| {
            assert t[i - (|s| - |t|)] == u[i - (|s| - |t|) - (|t| - |u|)];
          }
        }
      }
    }
  }

  /** Every character of an accepted magnitude is a digit, white space or NUL. */
  lemma MagnitudeChars(u: string)
    requires ParseMagnitude(u).Some?
    ensures forall i :: 0 <= i < |u| ==> IsNumberChar(u[i])
  {
    var k := DigitPrefixLength(u);
    var w := u[k..];
    var v := SkipParseWhite(w);
    assert AllNul(v);
    var j := |w| - |v|;
    assert v == w[j..];
    SkippedAreWhite(w);
    forall i | k <= i < k + j
      ensures IsParseWhite(u[i])
    {
      assert u[i] == w[i - k];
    }
    forall i | k + j <= i < |u|
      ensures u[i] == '\0'
    {
      assert u[i] == v[i - k - j];
    }
    DigitsWhiteNulChars(u, k, j);
  }

  /** Digits, then white space, then NUL characters: all of them number characters. */
  lemma DigitsWhiteNulChars(u: string, k: nat, j: nat)
    requires k + j <= |u|
    requires AllDigits(u[..k])
    requires forall i :: k <= i < k + j ==> IsParseWhite(u[i])
    requires forall i :: k + j <= i < |u| ==> u[i] == '\0'
    ensures forall i :: 0 <= i < |u| ==> IsNumberChar(u[i])
  {
    forall i | 0 <= i < k
      ensures IsDigit(u[i])
    {
      assert u[..k][i] == u[i];
    }
  }

  lemma {:induction false} SkippedAreWhite(s: string)
    ensures forall i :: 0 <= i < |s| - |SkipParseWhite(s)| ==> IsParseWhite(s[i])
    decreases |s|
  {
    if s != [] && IsParseWhite(s[0]) {
      SkippedAreWhite(s[1..]);
    }
  }

  const MinStartRowInvalid: string := "Invalid MinStartRow in settings."
  const MinRowCountInvalid: string := "Invalid MinRowCount in settings."
  const MaxRowCountInvalid: string := "Invalid MaxRowCount in settings."

  /** ParseSettings: each limit must be non-negative, checked in declaration order; accepted
      settings come back unchanged. */
  function ParseSettings(unparsed: PagingSettings): (r: Result<PagingSettings, string>)
    ensures r.Success? <==> IsParsed(unparsed)
    ensures r.Success? ==> r.value == unparsed
    ensures r == Failure(MinStartRowInvalid) <==> unparsed.minStartRow < 0
    ensures r == Failure(MinRowCountInvalid) <==> unparsed.minStartRow >= 0 && unparsed.minRowCount < 0
    ensures r == Failure(MaxRowCountInvalid) <==>
      unparsed.minStartRow >= 0 && unparsed.minRowCount >= 0 && unparsed.maxRowCount < 0
  {
    if unparsed.minStartRow < 0 then Failure(MinStartRowInvalid)
    else if unparsed.minRowCount < 0 then Failure(MinRowCountInvalid)
    else if unparsed.maxRowCount < 0 then Failure(MaxRowCountInvalid)
    else Success(PagingSettings(unparsed.minStartRow, unparsed.minRowCount, unparsed.maxRowCount))
  }
}
