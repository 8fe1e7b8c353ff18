/**
 * The column type-inference engine: drop blank and missing values, then run
 * the first-match-wins chain Boolean, ShortInt, Integer, LongInt, Float,
 * LocalDateTime, LocalTime, LocalDate, Text, Category.
 */
module TypeInferer {
  import opened Wrappers
  import opened NumberParsing
  import opened FieldTypes
  import opened DateParsing

  /** Values longer than this many characters make an otherwise unclassified column Text. */
  const TextThreshold: int := 250

  /** The configuration the engine reads: missing tokens, boolean tokens, format catalogs. */
  datatype Config = Config(
    isNotEmpty: string -> bool,
    missingIndicators: set<string>,
    trueStrings: set<string>,
    falseStrings: set<string>,
    dateTimeFormats: seq<DateFormat>,
    timeFormats: seq<DateFormat>,
    dateFormats: seq<DateFormat>)

  /** The platform parsers: Float.parseFloat and the three java.time parse functions. */
  datatype Parsers = Parsers(
    isFloat: string -> bool,
    parseDateTime: TemporalParser,
    parseTime: TemporalParser,
    parseDate: TemporalParser)

  /** A value takes part in type checks: it is not blank and not a missing indicator. */
  predicate Kept(cfg: Config, s: string) {
    cfg.isNotEmpty(s) && s !in cfg.missingIndicators
  }

  /** The kept values, in their original order. */
  function NotEmptyValues(cfg: Config, values: seq<string>): (r: seq<string>)
    ensures |r| <= |values|
    ensures forall s :: s in r <==> s in values && Kept(cfg, s)
  {
    if values == [] then []
    else if Kept(cfg, values[0]) then [values[0]] + NotEmptyValues(cfg, values[1..])
    else NotEmptyValues(cfg, values[1..])
  }

  /** Filtering distributes over concatenation, so it keeps the order of values. */
  lemma {:induction false} NotEmptyValuesConcat(cfg: Config, a: seq<string>, b: seq<string>)
    ensures NotEmptyValues(cfg, a + b) == NotEmptyValues(cfg, a) + NotEmptyValues(cfg, b)
  {
    if a != [] {
      assert (a + b)[0] == a[0];
      assert (a + b)[1..] == a[1..] + b;
      NotEmptyValuesConcat(cfg, a[1..], b);
    } else {
      assert a + b == b;
    }
  }

  predicate IsBoolean(cfg: Config, s: string) {
    s in cfg.trueStrings || s in cfg.falseStrings
  }

  predicate AllBoolean(cfg: Config, xs: seq<string>) {
    forall i :: 0 <= i < |xs| ==> IsBoolean(cfg, xs[i])
  }

  predicate AllShort(xs: seq<string>) {
    forall i :: 0 <= i < |xs| ==> IsShort(xs[i])
  }

  predicate AllInteger(xs: seq<string>) {
    forall i :: 0 <= i < |xs| ==> IsInteger(xs[i])
  }

  predicate AllLong(xs: seq<string>) {
    forall i :: 0 <= i < |xs| ==> IsLong(xs[i])
  }

  predicate AllFloat(ps: Parsers, xs: seq<string>) {
    forall i :: 0 <= i < |xs| ==> ps.isFloat(xs[i])
  }

  /** Some value of the column, missing or not, is longer than the threshold. */
  predicate HasLongValue(values: seq<string>) {
    exists i :: 0 <= i < |values| && |values[i]| > TextThreshold
  }

  /** infer: the type of one column. */
  function Infer(cfg: Config, ps: Parsers, values: seq<string>): (r: FieldType)
    ensures r.Boolean? ==> AllBoolean(cfg, NotEmptyValues(cfg, values))
    ensures r.ShortInt? ==> AllShort(NotEmptyValues(cfg, values))
    ensures r.Integer? ==> AllInteger(NotEmptyValues(cfg, values))
    ensures r.LongInt? ==> AllLong(NotEmptyValues(cfg, values))
    ensures r.Float? ==> AllFloat(ps, NotEmptyValues(cfg, values))
    ensures r.LocalDateTime? ==> InCatalog(ps.parseDateTime, cfg.dateTimeFormats, r.format, NotEmptyValues(cfg, values))
    ensures r.LocalTime? ==> InCatalog(ps.parseTime, cfg.timeFormats, r.format, NotEmptyValues(cfg, values))
    ensures r.LocalDate? ==> InCatalog(ps.parseDate, cfg.dateFormats, r.format, NotEmptyValues(cfg, values))
    ensures r.Text? ==> HasLongValue(values)
    ensures r != Category ==> |NotEmptyValues(cfg, values)| > 0
  {
    var kept := NotEmptyValues(cfg, values);
    if |kept| == 0 then Category
    else if AllBoolean(cfg, kept) then Boolean
    else if AllShort(kept) then ShortInt
    else if AllInteger(kept) then Integer
    else if AllLong(kept) then LongInt
    else if AllFloat(ps, kept) then Float
    else
      var dtf := DateParser(kept, cfg.dateTimeFormats, ps.parseDateTime);
      if dtf.Some? then LocalDateTime(dtf.value)
      else
        var tf := DateParser(kept, cfg.timeFormats, ps.parseTime);
        if tf.Some? then LocalTime(tf.value)
        else
          var df := DateParser(kept, cfg.dateFormats, ps.parseDate);
          if df.Some? then LocalDate(df.value)
          else if HasLongValue(values) then Text
          else Category
  }

  /** inferFieldTypes: one field per column, in order, named after the column. */
  method InferFieldTypes(cfg: Config, ps: Parsers, columnData: seq<Column>) returns (fields: seq<Field>)
    ensures |fields| == |columnData|
    ensures forall i :: 0 <= i < |columnData| ==>
      fields[i].name == columnData[i].name && fields[i].fieldType == Infer(cfg, ps, columnData[i].values)
  {
    fields := [];
    for i := 0 to |columnData|
      invariant |fields| == i
      invariant forall j :: 0 <= j < i ==>
        fields[j] == Field(columnData[j].name, Infer(cfg, ps, columnData[j].values))
    {
      var column := columnData[i];
      var fieldType := Infer(cfg, ps, column.values);
      var field := Field(column.name, fieldType);
      fields := fields + [field];
    }
  }
}
