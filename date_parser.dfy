/**
 * Temporal format discovery, shared by the date-time, time and date checks.
 * Phase 1 keeps the catalog entries under which the first value parses;
 * phase 2 picks, in catalog order, the first of those under which every
 * value parses.
 */
module DateParsing {
  import opened Wrappers
  import opened FieldTypes

  /** Every value parses under the entry's pattern (the stream's allMatch). */
  predicate ParsesAll(parse: TemporalParser, f: DateFormat, values: seq<string>) {
    forall i :: 0 <= i < |values| ==> parse(values[i], f.pattern)
  }

  /** Some catalog entry with this name parses every value. */
  predicate InCatalog(parse: TemporalParser, formats: seq<DateFormat>, name: string, values: seq<string>) {
    exists k :: 0 <= k < |formats| && formats[k].name == name && ParsesAll(parse, formats[k], values)
  }

  /** Phase 1: the catalog entries, in order, under which value parses. */
  function Candidates(parse: TemporalParser, formats: seq<DateFormat>, value: string): (r: seq<DateFormat>)
    ensures |r| <= |formats|
    ensures forall f :: f in r <==> f in formats && parse(value, f.pattern)
  {
    if formats == [] then []
    else if parse(value, formats[0].pattern) then [formats[0]] + Candidates(parse, formats[1..], value)
    else Candidates(parse, formats[1..], value)
  }

  /**
   * Phase 1 keeps catalog order: the survivors of an earlier part of the
   * catalog come before those of a later part.
   */
  lemma {:induction false} CandidatesConcat(parse: TemporalParser, a: seq<DateFormat>, b: seq<DateFormat>, value: string)
    ensures Candidates(parse, a + b, value) == Candidates(parse, a, value) + Candidates(parse, b, value)
  {
    if a != [] {
      var ab := a + b;
      assert ab[0] == a[0];
      assert ab[1..] == a[1..] + b;
      CandidatesConcat(parse, a[1..], b, value);
      var rest := Candidates(parse, ab[1..], value);
      if parse(value, a[0].pattern) {
        calc {
          Candidates(parse, ab, value);
          [a[0]] + rest;
          [a[0]] + (Candidates(parse, a[1..], value) + Candidates(parse, b, value));
          ([a[0]] + Candidates(parse, a[1..], value)) + Candidates(parse, b, value);
        }
      } else {
        assert Candidates(parse, ab, value) == rest;
      }
    } else {
      assert a + b == b;
    }
  }

  /** Position of the first entry under which every value parses, |formats| if none. */
  function FirstParsingAll(parse: TemporalParser, formats: seq<DateFormat>, values: seq<string>): (k: nat)
    ensures k <= |formats|
    ensures k < |formats| ==> ParsesAll(parse, formats[k], values)
    ensures forall j :: 0 <= j < k ==> !ParsesAll(parse, formats[j], values)
  {
    if formats == [] then 0
    else if ParsesAll(parse, formats[0], values) then 0
    else 1 + FirstParsingAll(parse, formats[1..], values)
  }

  /**
   * Narrowing the catalog to the entries that parse the first value does not
   * change which entry is the first to parse every value.
   */
  lemma {:induction false} NarrowingKeepsFirst(parse: TemporalParser, formats: seq<DateFormat>, values: seq<string>)
    requires |values| > 0
    ensures var c := Candidates(parse, formats, values[0]);
            var kc := FirstParsingAll(parse, c, values);
            var kf := FirstParsingAll(parse, formats, values);
            (kc < |c| <==> kf < |formats|) && (kf < |formats| ==> c[kc] == formats[kf])
  {
    if formats != [] {
      NarrowingKeepsFirst(parse, formats[1..], values);
      var c := Candidates(parse, formats, values[0]);
      var rest := Candidates(parse, formats[1..], values[0]);
      if parse(values[0], formats[0].pattern) {
        assert c == [formats[0]] + rest;
        assert c[1..] == rest;
      } else {
        assert !ParsesAll(parse, formats[0], values);
      }
    }
  }

  /**
   * dateParser: the label of the earliest catalog entry that parses both the
   * first value and every value, or None.
   */
  function DateParser(values: seq<string>, formats: seq<DateFormat>, parse: TemporalParser): (r: Option<string>)
    requires |values| > 0
    ensures (forall k :: 0 <= k < |formats| ==> !parse(values[0], formats[k].pattern)) ==> r.None?
    ensures r.None? <==> forall k :: 0 <= k < |formats| ==> !ParsesAll(parse, formats[k], values)
    ensures r.Some? ==>
      exists k :: 0 <= k < |formats| && formats[k].name == r.value && ParsesAll(parse, formats[k], values)
        && (forall j :: 0 <= j < k ==> !ParsesAll(parse, formats[j], values))
    ensures var k := FirstParsingAll(parse, formats, values);
            r == if k < |formats| then Some(formats[k].name) else None
  {
    var candidates := Candidates(parse, formats, values[0]);
    NarrowingKeepsFirst(parse, formats, values);
    if |candidates| == 0 then
      None
    else
      var k := FirstParsingAll(parse, candidates, values);
      if k < |candidates| then Some(candidates[k].name) else None
  }
}
