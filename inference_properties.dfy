/**
 * What the decision chain of infer guarantees: each result exactly
 * characterised, numeric precedence, neutrality of missing values, the Text
 * test on the unfiltered column, and worked examples.
 */
module InferenceProperties {
  import opened Wrappers
  import opened NumberParsing
  import opened FieldTypes
  import opened DateParsing
  import opened TypeInferer

  /** No entry of the catalog parses every value. */
  predicate NoCatalogMatch(parse: TemporalParser, formats: seq<DateFormat>, values: seq<string>) {
    forall k :: 0 <= k < |formats| ==> !ParsesAll(parse, formats[k], values)
  }

  /** The earliest catalog entry that parses every value exists and has this name. */
  predicate EarliestMatch(parse: TemporalParser, formats: seq<DateFormat>, values: seq<string>, name: string) {
    var k := FirstParsingAll(parse, formats, values);
    k < |formats| && formats[k].name == name
  }

  /** Every structured check of the chain fails on the kept values. */
  predicate Unstructured(cfg: Config, ps: Parsers, kept: seq<string>) {
    && !AllBoolean(cfg, kept)
    && !AllLong(kept)
    && !AllFloat(ps, kept)
    && NoCatalogMatch(ps.parseDateTime, cfg.dateTimeFormats, kept)
    && NoCatalogMatch(ps.parseTime, cfg.timeFormats, kept)
    && NoCatalogMatch(ps.parseDate, cfg.dateFormats, kept)
  }

  lemma AllSubsumption(xs: seq<string>)
    ensures AllShort(xs) ==> AllInteger(xs)
    ensures AllInteger(xs) ==> AllLong(xs)
  {
    forall i | 0 <= i < |xs| {
      NumericSubsumption(xs[i]);
    }
  }

  /** Some value is kept exactly when the filtered column is non-empty. */
  lemma KeptNonEmpty(cfg: Config, values: seq<string>)
    ensures |NotEmptyValues(cfg, values)| > 0 <==> exists i :: 0 <= i < |values| && Kept(cfg, values[i])
  {
    var kept := NotEmptyValues(cfg, values);
    if |kept| > 0 {
      assert kept[0] in kept;
    }
    if i :| 0 <= i < |values| && Kept(cfg, values[i]) {
      assert values[i] in kept;
    }
  }

  /** An empty column, or one with only blank or missing values, is Category. */
  lemma NoDataIsCategory(cfg: Config, ps: Parsers, values: seq<string>)
    requires forall i :: 0 <= i < |values| ==> !Kept(cfg, values[i])
    ensures Infer(cfg, ps, values) == Category
  {
    KeptNonEmpty(cfg, values);
  }

  lemma BooleanIff(cfg: Config, ps: Parsers, values: seq<string>)
    ensures var kept := NotEmptyValues(cfg, values);
            Infer(cfg, ps, values) == Boolean <==> |kept| > 0 && AllBoolean(cfg, kept)
  {
  }

  /** The filtered values are all boolean tokens, stated on the raw column. */
  lemma BooleanIffRaw(cfg: Config, ps: Parsers, values: seq<string>)
    ensures Infer(cfg, ps, values) == Boolean <==>
      (exists i :: 0 <= i < |values| && Kept(cfg, values[i]))
      && (forall i :: 0 <= i < |values| && Kept(cfg, values[i]) ==> IsBoolean(cfg, values[i]))
  {
    var kept := NotEmptyValues(cfg, values);
    KeptNonEmpty(cfg, values);
    BooleanIff(cfg, ps, values);
    if AllBoolean(cfg, kept) {
      forall i | 0 <= i < |values| && Kept(cfg, values[i]) ensures IsBoolean(cfg, values[i]) {
        assert values[i] in kept;
      }
    }
    if forall i :: 0 <= i < |values| && Kept(cfg, values[i]) ==> IsBoolean(cfg, values[i]) {
      forall j | 0 <= j < |kept| ensures IsBoolean(cfg, kept[j]) {
        assert kept[j] in kept;
      }
    }
  }

  lemma ShortIntIff(cfg: Config, ps: Parsers, values: seq<string>)
    ensures var kept := NotEmptyValues(cfg, values);
            Infer(cfg, ps, values) == ShortInt <==> |kept| > 0 && !AllBoolean(cfg, kept) && AllShort(kept)
  {
  }

  lemma IntegerIff(cfg: Config, ps: Parsers, values: seq<string>)
    ensures var kept := NotEmptyValues(cfg, values);
            Infer(cfg, ps, values) == Integer <==>
              |kept| > 0 && !AllBoolean(cfg, kept) && !AllShort(kept) && AllInteger(kept)
  {
  }

  lemma LongIntIff(cfg: Config, ps: Parsers, values: seq<string>)
    ensures var kept := NotEmptyValues(cfg, values);
            Infer(cfg, ps, values) == LongInt <==>
              |kept| > 0 && !AllBoolean(cfg, kept) && !AllInteger(kept) && AllLong(kept)
  {
    AllSubsumption(NotEmptyValues(cfg, values));
  }

  /** Values all within [lo, hi] as parsed decimals, and one of them outside [lo', hi']. */
  lemma {:induction false} RangeWitness(kept: seq<string>, lo: int, hi: int, lo': int, hi': int)
    requires forall i :: 0 <= i < |kept| ==> ParseDecimal(kept[i]).Some? && lo <= ParseDecimal(kept[i]).value <= hi
    requires exists i :: 0 <= i < |kept| && !(ParseDecimal(kept[i]).Some? && lo' <= ParseDecimal(kept[i]).value <= hi')
    ensures forall i :: 0 <= i < |kept| ==> exists n :: ParseDecimal(kept[i]) == Some(n) && lo <= n <= hi
    ensures exists i, n :: 0 <= i < |kept| && ParseDecimal(kept[i]) == Some(n) && (n < lo' || hi' < n)
  {
    forall i | 0 <= i < |kept|
      ensures exists n :: ParseDecimal(kept[i]) == Some(n) && lo <= n <= hi
    {
      var n := ParseDecimal(kept[i]).value;
      assert ParseDecimal(kept[i]) == Some(n);
    }
    var i :| 0 <= i < |kept| && !(ParseDecimal(kept[i]).Some? && lo' <= ParseDecimal(kept[i]).value <= hi');
    var n := ParseDecimal(kept[i]).value;
    assert ParseDecimal(kept[i]) == Some(n);
  }

  /** An Integer column has a value outside 16-bit range and all values within 32-bit range. */
  lemma IntegerRange(cfg: Config, ps: Parsers, values: seq<string>)
    requires Infer(cfg, ps, values) == Integer
    ensures var kept := NotEmptyValues(cfg, values);
            (forall i :: 0 <= i < |kept| ==> exists n :: ParseDecimal(kept[i]) == Some(n) && IntMin <= n <= IntMax)
            && exists i, n :: 0 <= i < |kept| && ParseDecimal(kept[i]) == Some(n) && (n < ShortMin || ShortMax < n)
  {
    var kept := NotEmptyValues(cfg, values);
    IntegerIff(cfg, ps, values);
    assert AllInteger(kept) && !AllShort(kept);
    RangeWitness(kept, IntMin, IntMax, ShortMin, ShortMax);
  }

  /** A LongInt column has a value outside 32-bit range and all values within 64-bit range. */
  lemma LongIntRange(cfg: Config, ps: Parsers, values: seq<string>)
    requires Infer(cfg, ps, values) == LongInt
    ensures var kept := NotEmptyValues(cfg, values);
            (forall i :: 0 <= i < |kept| ==> exists n :: ParseDecimal(kept[i]) == Some(n) && LongMin <= n <= LongMax)
            && exists i, n :: 0 <= i < |kept| && ParseDecimal(kept[i]) == Some(n) && (n < IntMin || IntMax < n)
  {
    var kept := NotEmptyValues(cfg, values);
    LongIntIff(cfg, ps, values);
    assert AllLong(kept) && !AllInteger(kept);
    RangeWitness(kept, LongMin, LongMax, IntMin, IntMax);
  }

  lemma FloatIff(cfg: Config, ps: Parsers, values: seq<string>)
    ensures var kept := NotEmptyValues(cfg, values);
            Infer(cfg, ps, values) == Float <==>
              |kept| > 0 && !AllBoolean(cfg, kept) && !AllLong(kept) && AllFloat(ps, kept)
  {
    AllSubsumption(NotEmptyValues(cfg, values));
  }

  /** LocalDateTime carries the name of the earliest date-time entry that parses every value. */
  lemma LocalDateTimeIff(cfg: Config, ps: Parsers, values: seq<string>, name: string)
    ensures var kept := NotEmptyValues(cfg, values);
            Infer(cfg, ps, values) == LocalDateTime(name) <==>
              |kept| > 0 && !AllBoolean(cfg, kept) && !AllLong(kept) && !AllFloat(ps, kept)
              && EarliestMatch(ps.parseDateTime, cfg.dateTimeFormats, kept, name)
  {
    AllSubsumption(NotEmptyValues(cfg, values));
  }

  /** LocalTime: no date-time entry fits, and the earliest fitting time entry is named. */
  lemma LocalTimeIff(cfg: Config, ps: Parsers, values: seq<string>, name: string)
    ensures var kept := NotEmptyValues(cfg, values);
            Infer(cfg, ps, values) == LocalTime(name) <==>
              |kept| > 0 && !AllBoolean(cfg, kept) && !AllLong(kept) && !AllFloat(ps, kept)
              && NoCatalogMatch(ps.parseDateTime, cfg.dateTimeFormats, kept)
              && EarliestMatch(ps.parseTime, cfg.timeFormats, kept, name)
  {
    AllSubsumption(NotEmptyValues(cfg, values));
  }

  /** LocalDate: no date-time or time entry fits, and the earliest fitting date entry is named. */
  lemma LocalDateIff(cfg: Config, ps: Parsers, values: seq<string>, name: string)
    ensures var kept := NotEmptyValues(cfg, values);
            Infer(cfg, ps, values) == LocalDate(name) <==>
              |kept| > 0 && !AllBoolean(cfg, kept) && !AllLong(kept) && !AllFloat(ps, kept)
              && NoCatalogMatch(ps.parseDateTime, cfg.dateTimeFormats, kept)
              && NoCatalogMatch(ps.parseTime, cfg.timeFormats, kept)
              && EarliestMatch(ps.parseDate, cfg.dateFormats, kept, name)
  {
    AllSubsumption(NotEmptyValues(cfg, values));
  }

  /** Text: every structured check fails and some value of the unfiltered column is long. */
  lemma TextIff(cfg: Config, ps: Parsers, values: seq<string>)
    ensures var kept := NotEmptyValues(cfg, values);
            Infer(cfg, ps, values) == Text <==>
              |kept| > 0 && Unstructured(cfg, ps, kept) && HasLongValue(values)
  {
    AllSubsumption(NotEmptyValues(cfg, values));
  }

  /** Category: no data, or every check fails and no value is long. */
  lemma CategoryIff(cfg: Config, ps: Parsers, values: seq<string>)
    ensures var kept := NotEmptyValues(cfg, values);
            Infer(cfg, ps, values) == Category <==>
              |kept| == 0 || (Unstructured(cfg, ps, kept) && !HasLongValue(values))
  {
    AllSubsumption(NotEmptyValues(cfg, values));
  }

  /** A column of 64-bit integers that are not all boolean tokens is never temporal, Text or Category. */
  lemma NumericBeatsTemporal(cfg: Config, ps: Parsers, values: seq<string>)
    requires var kept := NotEmptyValues(cfg, values);
             |kept| > 0 && !AllBoolean(cfg, kept) && AllLong(kept)
    ensures Infer(cfg, ps, values) in {ShortInt, Integer, LongInt}
  {
  }

  lemma {:induction false} NotEmptyValuesIdempotent(cfg: Config, values: seq<string>)
    ensures NotEmptyValues(cfg, NotEmptyValues(cfg, values)) == NotEmptyValues(cfg, values)
  {
    if values != [] {
      NotEmptyValuesIdempotent(cfg, values[1..]);
      if Kept(cfg, values[0]) {
        var rest := NotEmptyValues(cfg, values[1..]);
        assert ([values[0]] + rest)[1..] == rest;
      }
    }
  }

  /**
   * Missing values do not influence the type checks: when none of them is
   * longer than the threshold, the column is typed as its kept values alone.
   */
  lemma MissingValuesNeutral(cfg: Config, ps: Parsers, values: seq<string>)
    requires forall i :: 0 <= i < |values| && !Kept(cfg, values[i]) ==> |values[i]| <= TextThreshold
    ensures Infer(cfg, ps, values) == Infer(cfg, ps, NotEmptyValues(cfg, values))
  {
    var kept := NotEmptyValues(cfg, values);
    NotEmptyValuesIdempotent(cfg, values);
    if HasLongValue(values) {
      var i :| 0 <= i < |values| && |values[i]| > TextThreshold;
      assert values[i] in kept;
      var j :| 0 <= j < |kept| && kept[j] == values[i];
      assert HasLongValue(kept);
    }
    if HasLongValue(kept) {
      var j :| 0 <= j < |kept| && |kept[j]| > TextThreshold;
      assert kept[j] in kept;
      assert HasLongValue(values);
    }
  }

  lemma HasLongValueAppend(values: seq<string>, m: string)
    ensures HasLongValue(values + [m]) <==> HasLongValue(values) || |m| > TextThreshold
  {
    var all := values + [m];
    if HasLongValue(values) {
      var i :| 0 <= i < |values| && |values[i]| > TextThreshold;
      assert all[i] == values[i];
    }
    if |m| > TextThreshold {
      assert all[|values|] == m;
    }
  }

  /**
   * The Text test reads the unfiltered column: a long missing value makes an
   * otherwise unclassifiable column Text.
   */
  lemma LongMissingValueMakesText(cfg: Config, ps: Parsers, values: seq<string>, m: string)
    requires var kept := NotEmptyValues(cfg, values);
             |kept| > 0 && Unstructured(cfg, ps, kept)
    requires !Kept(cfg, m) && |m| > TextThreshold
    ensures Infer(cfg, ps, values + [m]) == Text
  {
    NotEmptyValuesConcat(cfg, values, [m]);
    assert NotEmptyValues(cfg, [m]) == [];
    assert NotEmptyValues(cfg, values + [m]) == NotEmptyValues(cfg, values);
    HasLongValueAppend(values, m);
    TextIff(cfg, ps, values + [m]);
  }

  lemma ExampleSmallIntegersAreShort(cfg: Config, ps: Parsers)
    requires Kept(cfg, "1") && Kept(cfg, "2") && Kept(cfg, "3") && !IsBoolean(cfg, "1")
    ensures Infer(cfg, ps, ["1", "2", "3"]) == ShortInt
  {
    ParseToDecimal(1);
    assert ToDecimal(1) == "1";
    ParseToDecimal(2);
    assert ToDecimal(2) == "2";
    ParseToDecimal(3);
    assert ToDecimal(3) == "3";
  }

  lemma Spelling40000()
    ensures ToDecimal(40000) == "40000"
  {
  }

  lemma Spelling99999999999()
    ensures ToDecimal(99999999999) == "99999999999"
  {
  }

  lemma Spelling20230101()
    ensures ToDecimal(20230101) == "20230101"
  {
  }

  lemma Spelling20230102()
    ensures ToDecimal(20230102) == "20230102"
  {
  }

  /** The column ["40000"]: beyond 16 bits, within 32 bits. */
  lemma ExampleBeyondShortIsInteger(cfg: Config, ps: Parsers)
    requires Kept(cfg, "40000") && !IsBoolean(cfg, "40000")
    ensures Infer(cfg, ps, ["40000"]) == Integer
  {
    Spelling40000();
    var column := [ToDecimal(40000)];
    RangeOfToDecimal(40000);
    assert NotEmptyValues(cfg, column) == column;
    IntegerIff(cfg, ps, column);
  }

  /** The column ["99999999999"]: beyond 32 bits, within 64 bits. */
  lemma ExampleBeyondIntIsLong(cfg: Config, ps: Parsers)
    requires Kept(cfg, "99999999999") && !IsBoolean(cfg, "99999999999")
    ensures Infer(cfg, ps, ["99999999999"]) == LongInt
  {
    Spelling99999999999();
    var column := [ToDecimal(99999999999)];
    RangeOfToDecimal(99999999999);
    assert NotEmptyValues(cfg, column) == column;
    LongIntIff(cfg, ps, column);
  }

  /**
   * The column ["20230101", "20230102"]: date-like digit strings are numbers,
   * because the numeric checks come before the temporal ones.
   */
  lemma ExampleDateLikeNumbersAreInteger(cfg: Config, ps: Parsers)
    requires Kept(cfg, "20230101") && Kept(cfg, "20230102") && !IsBoolean(cfg, "20230101")
    ensures Infer(cfg, ps, ["20230101", "20230102"]) == Integer
  {
    Spelling20230101();
    Spelling20230102();
    var column := [ToDecimal(20230101), ToDecimal(20230102)];
    RangeOfToDecimal(20230101);
    RangeOfToDecimal(20230102);
    assert NotEmptyValues(cfg, column) == column by {
      assert column[1..] == [column[1]];
    }
    IntegerIff(cfg, ps, column);
  }

  /** One unparseable value rejects every integer type for the whole column. */
  lemma ExampleOneBadValueRejectsIntegers(cfg: Config, ps: Parsers)
    requires Kept(cfg, "1") && Kept(cfg, "2") && Kept(cfg, "x") && !IsBoolean(cfg, "x")
    ensures Infer(cfg, ps, ["1", "2", "x"]) !in {ShortInt, Integer, LongInt}
    ensures !ps.isFloat("x") ==> Infer(cfg, ps, ["1", "2", "x"]) != Float
  {
    assert !IsLong("x");
  }

  /** Blank and missing tokens are ignored by the type checks. */
  lemma ExampleMissingTokensIgnored(cfg: Config, ps: Parsers)
    requires Kept(cfg, "1") && Kept(cfg, "2") && Kept(cfg, "3") && !Kept(cfg, "") && !Kept(cfg, "NA")
    ensures Infer(cfg, ps, ["1", "", "2", "NA", "3"]) == Infer(cfg, ps, ["1", "2", "3"])
  {
    var column := ["1", "", "2", "NA", "3"];
    assert NotEmptyValues(cfg, column[4..]) == ["3"];
    assert NotEmptyValues(cfg, column[3..]) == ["3"] by { assert column[3..][1..] == column[4..]; }
    assert NotEmptyValues(cfg, column[2..]) == ["2", "3"] by { assert column[2..][1..] == column[3..]; }
    assert NotEmptyValues(cfg, column[1..]) == ["2", "3"] by { assert column[1..][1..] == column[2..]; }
    assert NotEmptyValues(cfg, column) == ["1", "2", "3"] by { assert column[1..] == column[1..]; }
    MissingValuesNeutral(cfg, ps, column);
  }
}
