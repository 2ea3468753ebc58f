/**
 * Option groups of a product as the two product forms edit them: each group
 * is a row of three text inputs (group name, comma-separated values,
 * comma-separated price adjustments). Submitting parses every row in order
 * and stops at the first row that is incomplete, whose counts differ or
 * whose prices do not parse; the edit form fills the rows back in with
 * `join(',')`.
 */
module ProductOptions {
  import opened Wrappers
  import opened Text

  /** The three text inputs of one option-group row. */
  datatype GroupFields = GroupFields(name: string, valuesText: string, pricesText: string)

  /** An option group as it is sent to the server and stored with the product. */
  datatype OptionGroup = OptionGroup(name: string, values: seq<string>, prices: seq<int>)

  /** Why a submission stopped before anything was sent. */
  datatype OptionError =
    | MissingField              // a row with an empty name, values or prices input
    | CountMismatch(group: string)
    | InvalidPrice(group: string)

  /** The price pieces, each trimmed and read with `parseInt`. */
  function ParsePrices(pieces: seq<string>): (r: seq<Option<int>>)
    ensures |r| == |pieces|
  {
    seq(|pieces|, k requires 0 <= k < |pieces| => ParseInt(Trim(pieces[k])))
  }

  /** No piece is NaN. */
  predicate AllNumbers(xs: seq<Option<int>>) {
    forall k :: 0 <= k < |xs| ==> xs[k].Some?
  }

  function Numbers(xs: seq<Option<int>>): (r: seq<int>)
    requires AllNumbers(xs)
    ensures |r| == |xs|
    ensures forall k :: 0 <= k < |xs| ==> xs[k] == Some(r[k])
  {
    if xs == [] then [] else [xs[0].value] + Numbers(xs[1..])
  }

  /** The checks one row goes through, in the order the forms make them. */
  function ParseGroup(g: GroupFields): Result<OptionGroup, OptionError> {
    if g.name == "" || g.valuesText == "" || g.pricesText == "" then Err(MissingField)
    else
      var values := TrimAll(Split(g.valuesText, ','));
      var prices := ParsePrices(Split(g.pricesText, ','));
      if |values| != |prices| then Err(CountMismatch(g.name))
      else if !AllNumbers(prices) then Err(InvalidPrice(g.name))
      else Ok(OptionGroup(g.name, values, Numbers(prices)))
  }

  /**
   * A row is refused exactly when one of its inputs is empty, when it has a
   * different number of values and prices, or when a price is not a
   * number; an accepted row keeps its name, has its values trimmed and its
   * prices read one by one.
   */
  lemma ParseGroupCases(g: GroupFields)
    ensures ParseGroup(g) == Err(MissingField) <==> g.name == "" || g.valuesText == "" || g.pricesText == ""
    ensures ParseGroup(g) == Err(CountMismatch(g.name)) <==>
      (g.name != "" && g.valuesText != "" && g.pricesText != ""
       && |Split(g.valuesText, ',')| != |Split(g.pricesText, ',')|)
    ensures ParseGroup(g).Ok? <==>
      (g.name != "" && g.valuesText != "" && g.pricesText != ""
       && |Split(g.valuesText, ',')| == |Split(g.pricesText, ',')|
       && AllNumbers(ParsePrices(Split(g.pricesText, ','))))
    ensures ParseGroup(g).Err? ==>
      ParseGroup(g).error in {MissingField, CountMismatch(g.name), InvalidPrice(g.name)}
    ensures ParseGroup(g).Ok? ==>
      var o := ParseGroup(g).value;
      && o.name == g.name
      && o.values == TrimAll(Split(g.valuesText, ','))
      && |o.prices| == |o.values| >= 1
      && forall k :: 0 <= k < |o.prices| ==> ParseInt(Trim(Split(g.pricesText, ',')[k])) == Some(o.prices[k])
  {
    if g.name != "" && g.valuesText != "" && g.pricesText != "" {
      var pieces := Split(g.pricesText, ',');
      var prices := ParsePrices(pieces);
      if |Split(g.valuesText, ',')| == |pieces| && AllNumbers(prices) {
        var o := ParseGroup(g).value;
        assert o.prices == Numbers(prices);
        forall k | 0 <= k < |o.prices|
          ensures ParseInt(Trim(pieces[k])) == Some(o.prices[k])
        {
          assert prices[k] == ParseInt(Trim(pieces[k]));
        }
      }
    }
  }

  /** `ParseGroup` on every row. */
  function ParseRows(rows: seq<GroupFields>): (r: seq<Result<OptionGroup, OptionError>>)
    ensures |r| == |rows|
    ensures forall k :: 0 <= k < |rows| ==> r[k] == ParseGroup(rows[k])
  {
    if rows == [] then [] else [ParseGroup(rows[0])] + ParseRows(rows[1..])
  }

  /** The accepted groups when every row is accepted; otherwise the first error. */
  function FirstError(rs: seq<Result<OptionGroup, OptionError>>): Result<seq<OptionGroup>, OptionError> {
    if rs == [] then Ok([])
    else match rs[0]
      case Err(e) => Err(e)
      case Ok(g) => Prepend([g], FirstError(rs[1..]))
  }

  /** The groups already collected, in front of what the remaining rows give. */
  function Prepend(os: seq<OptionGroup>, rest: Result<seq<OptionGroup>, OptionError>): Result<seq<OptionGroup>, OptionError> {
    match rest
    case Err(e) => Err(e)
    case Ok(gs) => Ok(os + gs)
  }

  /** What a submission makes of its option rows. */
  function ParseAll(rows: seq<GroupFields>): Result<seq<OptionGroup>, OptionError> {
    FirstError(ParseRows(rows))
  }

  /**
   * The `for...of` loop over the rows of a submitted form, returning at the
   * first row that is refused.
   */
  method CollectOptions(rows: seq<GroupFields>) returns (r: Result<seq<OptionGroup>, OptionError>)
    ensures r == ParseAll(rows)
  {
    ghost var rs := ParseRows(rows);
    var options: seq<OptionGroup> := [];
    var i := 0;
    CollectStart(rs);
    while i < |rows|
      invariant 0 <= i <= |rows|
      invariant FirstError(rs) == Prepend(options, FirstError(rs[i..]))
    {
      var g := ParseGroup(rows[i]);
      assert g == rs[i];
      CollectStep(rs, i, options);
      if g.Err? {
        return Err(g.error);
      }
      options := options + [g.value];
      i := i + 1;
    }
    CollectEnd(rs, options);
    return Ok(options);
  }

  lemma CollectStart(rs: seq<Result<OptionGroup, OptionError>>)
    ensures FirstError(rs) == Prepend([], FirstError(rs[0..]))
  {
    assert rs[0..] == rs;
    var rest := FirstError(rs);
    if rest.Ok? {
      assert [] + rest.value == rest.value;
    }
  }

  /** One more row: an accepted one joins the collected groups, a refused one is the answer. */
  lemma CollectStep(rs: seq<Result<OptionGroup, OptionError>>, i: nat, os: seq<OptionGroup>)
    requires i < |rs| && FirstError(rs) == Prepend(os, FirstError(rs[i..]))
    ensures rs[i].Err? ==> FirstError(rs) == Err(rs[i].error)
    ensures rs[i].Ok? ==> FirstError(rs) == Prepend(os + [rs[i].value], FirstError(rs[i + 1..]))
  {
    assert rs[i..][1..] == rs[i + 1..];
    var rest := FirstError(rs[i + 1..]);
    if rs[i].Ok? && rest.Ok? {
      assert os + ([rs[i].value] + rest.value) == (os + [rs[i].value]) + rest.value;
    }
  }

  lemma CollectEnd(rs: seq<Result<OptionGroup, OptionError>>, os: seq<OptionGroup>)
    requires FirstError(rs) == Prepend(os, FirstError(rs[|rs|..]))
    ensures FirstError(rs) == Ok(os)
  {
    assert rs[|rs|..] == [];
    assert os + [] == os;
  }

  /**
   * The results are all accepted exactly when each one is, and then there is
   * one group per result, in order; otherwise the error is that of the first
   * refused result.
   */
  lemma {:induction false} FirstErrorMeaning(rs: seq<Result<OptionGroup, OptionError>>)
    ensures FirstError(rs).Ok? <==> forall k :: 0 <= k < |rs| ==> rs[k].Ok?
    ensures FirstError(rs).Ok? ==>
      (|FirstError(rs).value| == |rs| && forall k :: 0 <= k < |rs| ==> rs[k] == Ok(FirstError(rs).value[k]))
    ensures FirstError(rs).Err? ==>
      (exists k :: 0 <= k < |rs| && rs[k] == Err(FirstError(rs).error)
         && forall j :: 0 <= j < k ==> rs[j].Ok?)
  {
    if rs != [] {
      FirstErrorMeaning(rs[1..]);
      assert forall k :: 1 <= k < |rs| ==> rs[k] == rs[1..][k - 1];
      match rs[0]
      case Err(e) =>
        assert rs[0] == Err(FirstError(rs).error);
      case Ok(g) =>
        if FirstError(rs[1..]).Err? {
          var k :| 0 <= k < |rs[1..]| && rs[1..][k] == Err(FirstError(rs[1..]).error)
            && forall j :: 0 <= j < k ==> rs[1..][j].Ok?;
          assert rs[k + 1] == Err(FirstError(rs).error);
        }
    }
  }

  /** When every result is accepted, they are collected in order. */
  lemma AllAccepted(rs: seq<Result<OptionGroup, OptionError>>, os: seq<OptionGroup>)
    requires |rs| == |os|
    requires forall k :: 0 <= k < |rs| ==> rs[k] == Ok(os[k])
    ensures FirstError(rs) == Ok(os)
  {
    FirstErrorMeaning(rs);
    var v := FirstError(rs).value;
    assert forall k :: 0 <= k < |rs| ==> v[k] == os[k];
  }

  /**
   * A submission's rows are all accepted exactly when each row is, and then
   * there is one group per row, in row order; otherwise the error is that of
   * the first refused row.
   */
  lemma ParseAllRows(rows: seq<GroupFields>)
    ensures ParseAll(rows).Ok? <==> forall k :: 0 <= k < |rows| ==> ParseGroup(rows[k]).Ok?
    ensures ParseAll(rows).Ok? ==>
      (|ParseAll(rows).value| == |rows|
       && forall k :: 0 <= k < |rows| ==> ParseGroup(rows[k]) == Ok(ParseAll(rows).value[k]))
    ensures ParseAll(rows).Err? ==>
      (exists k :: 0 <= k < |rows| && ParseGroup(rows[k]) == Err(ParseAll(rows).error)
         && forall j :: 0 <= j < k ==> ParseGroup(rows[j]).Ok?)
  {
    FirstErrorMeaning(ParseRows(rows));
  }

  /** The row the edit form shows for a stored group: values and prices joined with ','. */
  function PrefillGroup(g: OptionGroup): GroupFields {
    GroupFields(g.name, Join(g.values, ","), Join(ShowAll(g.prices), ","))
  }

  lemma ShowsHaveNoComma(ns: seq<int>)
    ensures forall k :: 0 <= k < |ns| ==> ',' !in ShowAll(ns)[k]
  {
    forall k | 0 <= k < |ns|
      ensures ',' !in ShowAll(ns)[k]
    {
      var s := Show(ns[k]);
      assert forall j :: 0 <= j < |s| ==> s[j] != ',';
    }
  }

  /**
   * A value that survives the round trip: no comma and no outer white space.
   * An empty value survives too, unless it is the group's only value (the
   * field is then empty and refused).
   */
  predicate PlainValue(v: string) {
    ',' !in v && IsTrimmed(v)
  }

  /**
   * Filling a stored group into the edit form and submitting it unchanged
   * gives the same group back.
   */
  lemma PrefillThenParse(g: OptionGroup)
    requires g.name != ""
    requires |g.values| == |g.prices| >= 1 && g.values != [""]
    requires forall k :: 0 <= k < |g.values| ==> PlainValue(g.values[k])
    ensures ParseGroup(PrefillGroup(g)) == Ok(g)
  {
    var f := PrefillGroup(g);
    ValuesRoundTrip(g.values);
    PricesRoundTrip(g.prices);
    var prices := ParsePrices(Split(f.pricesText, ','));
    assert TrimAll(Split(f.valuesText, ',')) == g.values;
    assert Numbers(prices) == g.prices;
  }

  /** The values joined with ',' split and trim back to themselves. */
  lemma ValuesRoundTrip(values: seq<string>)
    requires |values| >= 1 && values != [""]
    requires forall k :: 0 <= k < |values| ==> PlainValue(values[k])
    ensures Join(values, ",") != ""
    ensures TrimAll(Split(Join(values, ","), ',')) == values
  {
    SplitJoin(values, ',');
    assert TrimAll(values) == values;
    if |values| > 1 {
      assert Join(values, ",") == values[0] + "," + Join(values[1..], ",");
    }
  }

  /** The prices joined with ',' read back as the same numbers. */
  lemma PricesRoundTrip(prices: seq<int>)
    requires |prices| >= 1
    ensures Join(ShowAll(prices), ",") != ""
    ensures AllNumbers(ParsePrices(Split(Join(ShowAll(prices), ","), ',')))
    ensures Numbers(ParsePrices(Split(Join(ShowAll(prices), ","), ','))) == prices
  {
    var shown := ShowAll(prices);
    ShowsHaveNoComma(prices);
    SplitJoin(shown, ',');
    if |shown| > 1 {
      assert Join(shown, ",") == shown[0] + "," + Join(shown[1..], ",");
    }
    ShownPricesParse(prices);
  }

  /** Each printed price reads back as itself. */
  lemma ShownPricesParse(prices: seq<int>)
    ensures AllNumbers(ParsePrices(ShowAll(prices)))
    ensures Numbers(ParsePrices(ShowAll(prices))) == prices
  {
    var parsed := ParsePrices(ShowAll(prices));
    forall k | 0 <= k < |prices|
      ensures parsed[k] == Some(prices[k])
    {
      ShownPriceAt(prices, k);
    }
    NumbersOf(parsed, prices);
  }

  lemma ShownPriceAt(prices: seq<int>, k: int)
    requires 0 <= k < |prices|
    ensures ParsePrices(ShowAll(prices))[k] == Some(prices[k])
  {
    ShownPriceParses(prices[k]);
  }

  /** Pieces that all read as numbers give those numbers. */
  lemma NumbersOf(parsed: seq<Option<int>>, ns: seq<int>)
    requires |parsed| == |ns| && forall k :: 0 <= k < |ns| ==> parsed[k] == Some(ns[k])
    ensures AllNumbers(parsed) && Numbers(parsed) == ns
  {
    var nums := Numbers(parsed);
    assert forall k :: 0 <= k < |ns| ==> nums[k] == ns[k];
  }

  lemma ShownPriceParses(n: int)
    ensures ParseInt(Trim(Show(n))) == Some(n)
  {
    ParseShow(n);
  }

  /** A value holding a comma comes back as two values, and the row no longer matches its prices. */
  lemma CommaValueSplits()
    ensures ParseGroup(PrefillGroup(OptionGroup("size", ["S,M"], [0]))) == Err(CountMismatch("size"))
  {
    PrefillSM();
    SplitSM();
    SplitZero();
  }

  lemma PrefillSM()
    ensures PrefillGroup(OptionGroup("size", ["S,M"], [0])) == GroupFields("size", "S,M", "0")
  {
    assert ShowAll([0]) == ["0"];
  }

  lemma SplitZero()
    ensures Split("0", ',') == ["0"]
  {
    assert ',' !in "0";
  }

  lemma SplitSM()
    ensures Split("S,M", ',') == ["S", "M"]
  {
    assert "S,M"[1] == ',';
    assert IndexOf("S,M", ',') == 1;
    assert "S,M"[..1] == "S";
    assert "S,M"[2..] == "M";
    assert ',' !in "M";
  }

  // ---------------------------------------------------------------
  // Check boxes and multiple selects
  // ---------------------------------------------------------------

  /** A check box or an `<option>`: its value and whether it is checked / selected. */
  datatype Choice = Choice(value: string, on: bool)

  /** `Array.from(choices).filter(c => c.checked).map(c => c.value)`. */
  function ChosenValues(cs: seq<Choice>): (r: seq<string>)
    ensures |r| <= |cs|
    ensures forall v :: v in r <==> exists k :: 0 <= k < |cs| && cs[k].on && cs[k].value == v
  {
    if cs == [] then []
    else
      var rest := ChosenValues(cs[1..]);
      assert forall k :: 1 <= k < |cs| ==> cs[k] == cs[1..][k - 1];
      if cs[0].on then [cs[0].value] + rest else rest
  }

  lemma NoneChosen(cs: seq<Choice>)
    requires forall k :: 0 <= k < |cs| ==> !cs[k].on
    ensures ChosenValues(cs) == []
  {
  }

  /** The values of the choices, in order. */
  function ValuesOf(cs: seq<Choice>): (r: seq<string>)
    ensures |r| == |cs|
    ensures forall k :: 0 <= k < |cs| ==> r[k] == cs[k].value
  {
    if cs == [] then [] else [cs[0].value] + ValuesOf(cs[1..])
  }

  /** The elements of `xs` that are listed in `keep`, in the order of `xs`. */
  function Listed(xs: seq<string>, keep: seq<string>): (r: seq<string>)
    ensures forall v :: v in r <==> v in xs && v in keep
  {
    if xs == [] then []
    else
      assert xs == [xs[0]] + xs[1..];
      (if xs[0] in keep then [xs[0]] else []) + Listed(xs[1..], keep)
  }

  /** `option.selected = wanted.includes(option.value)` for every option. */
  function SelectListed(cs: seq<Choice>, wanted: seq<string>): (r: seq<Choice>)
    ensures ValuesOf(r) == ValuesOf(cs)
    ensures forall k :: 0 <= k < |cs| ==> r[k].on == (cs[k].value in wanted)
  {
    if cs == [] then []
    else
      var r := [Choice(cs[0].value, cs[0].value in wanted)] + SelectListed(cs[1..], wanted);
      assert ValuesOf(r)[1..] == ValuesOf(r[1..]);
      assert ValuesOf(cs)[1..] == ValuesOf(cs[1..]);
      r
  }

  /**
   * Selecting the listed values and collecting the selection back gives the
   * option values that are listed, in option order.
   */
  lemma {:induction false} SelectThenCollect(cs: seq<Choice>, wanted: seq<string>)
    ensures ChosenValues(SelectListed(cs, wanted)) == Listed(ValuesOf(cs), wanted)
  {
    if cs != [] {
      SelectThenCollect(cs[1..], wanted);
      var r := SelectListed(cs, wanted);
      assert r[1..] == SelectListed(cs[1..], wanted);
      assert ValuesOf(cs)[1..] == ValuesOf(cs[1..]);
    }
  }

  /** Every choice turned off. */
  function ClearAll(cs: seq<Choice>): (r: seq<Choice>)
    ensures ValuesOf(r) == ValuesOf(cs)
    ensures forall k :: 0 <= k < |r| ==> !r[k].on
  {
    if cs == [] then []
    else
      var r := [Choice(cs[0].value, false)] + ClearAll(cs[1..]);
      assert ValuesOf(r)[1..] == ValuesOf(r[1..]);
      assert ValuesOf(cs)[1..] == ValuesOf(cs[1..]);
      r
  }

  /** `querySelector('[value="v"]')` finds the first box with that value and checks it; no box, no change. */
  function CheckFirst(cs: seq<Choice>, v: string): (r: seq<Choice>)
    ensures |r| == |cs|
    ensures forall k :: 0 <= k < |cs| ==> r[k].value == cs[k].value
    ensures forall k :: 0 <= k < |cs| ==>
      r[k].on == (cs[k].on || (cs[k].value == v && forall j :: 0 <= j < k ==> cs[j].value != v))
  {
    if cs == [] then []
    else
      assert forall k :: 1 <= k < |cs| ==> cs[k] == cs[1..][k - 1];
      if cs[0].value == v then [Choice(v, true)] + cs[1..]
      else [cs[0]] + CheckFirst(cs[1..], v)
  }

  /** Checking one value keeps the box values. */
  lemma CheckFirstValues(cs: seq<Choice>, v: string)
    ensures ValuesOf(CheckFirst(cs, v)) == ValuesOf(cs)
  {
    var r := CheckFirst(cs, v);
    assert forall k :: 0 <= k < |cs| ==> ValuesOf(r)[k] == ValuesOf(cs)[k];
  }

  /** Checking the box of every value in `wanted`, one after another. */
  function CheckEach(cs: seq<Choice>, wanted: seq<string>): (r: seq<Choice>)
    ensures ValuesOf(r) == ValuesOf(cs)
    decreases |wanted|
  {
    if wanted == [] then cs
    else
      CheckFirstValues(cs, wanted[0]);
      CheckEach(CheckFirst(cs, wanted[0]), wanted[1..])
  }

  /** The values of the boxes are pairwise different. */
  predicate DistinctValues(cs: seq<Choice>) {
    forall i, j :: 0 <= i < j < |cs| ==> cs[i].value != cs[j].value
  }

  /** With distinct box values, checking `v` checks exactly the box whose value is `v`. */
  lemma CheckFirstDistinct(cs: seq<Choice>, v: string)
    requires DistinctValues(cs)
    ensures DistinctValues(CheckFirst(cs, v))
    ensures forall k :: 0 <= k < |cs| ==> CheckFirst(cs, v)[k].on == (cs[k].on || cs[k].value == v)
  {
  }

  /**
   * With distinct box values, a box ends up checked exactly when it was
   * checked before or its value is wanted.
   */
  lemma {:induction false} CheckEachMarks(cs: seq<Choice>, wanted: seq<string>)
    requires DistinctValues(cs)
    ensures |CheckEach(cs, wanted)| == |cs|
    ensures forall k :: 0 <= k < |cs| ==> CheckEach(cs, wanted)[k].on == (cs[k].on || cs[k].value in wanted)
    decreases |wanted|
  {
    if wanted != [] {
      var c1 := CheckFirst(cs, wanted[0]);
      CheckFirstDistinct(cs, wanted[0]);
      CheckEachMarks(c1, wanted[1..]);
      assert forall v :: v in wanted <==> v == wanted[0] || v in wanted[1..];
    }
  }
}
