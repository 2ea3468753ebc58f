/**
 * The stand-alone product registration form: a product name and a price are
 * required, then the option rows are parsed exactly as the administration
 * page parses them, and the `registerProduct` payload is built.
 */
module ProductRegister {
  import opened Wrappers
  import opened Text
  import opened ProductOptions

  /** Why nothing was sent; each is shown in the message area. */
  datatype RegisterError =
    | MissingNameOrPrice
    | BadOption(reason: OptionError)

  /** The fields of the `registerProduct` payload that the form computes. */
  datatype RegisterPayload = RegisterPayload(
    name: string,
    price: Option<int>,
    ingredients: string,
    specifiedAllergens: seq<string>,
    recommendedAllergens: seq<string>,
    allergensRemarks: string,
    options: seq<OptionGroup>)

  /**
   * The submit handler. The name and price inputs are checked before any
   * option row is looked at; the price is sent as `parseInt` of its input,
   * which may still be NaN (None) for a non-empty input.
   */
  method SubmitRegistration(productName: string, productPrice: string, ingredients: string,
                            allergensRemarks: string, specified: seq<Choice>,
                            recommended: seq<Choice>, rows: seq<GroupFields>)
    returns (r: Result<RegisterPayload, RegisterError>)
    ensures r == Err(MissingNameOrPrice) <==> productName == "" || productPrice == ""
    ensures productName != "" && productPrice != "" && ParseAll(rows).Err? ==>
      r == Err(BadOption(ParseAll(rows).error))
    ensures r.Ok? <==> productName != "" && productPrice != "" && ParseAll(rows).Ok?
    ensures r.Ok? ==>
      r.value == RegisterPayload(productName, ParseInt(productPrice), ingredients,
        ChosenValues(specified), ChosenValues(recommended), allergensRemarks, ParseAll(rows).value)
  {
    var specifiedAllergens := ChosenValues(specified);
    var recommendedAllergens := ChosenValues(recommended);
    if productName == "" || productPrice == "" {
      return Err(MissingNameOrPrice);
    }
    var options := CollectOptions(rows);
    if options.Err? {
      return Err(BadOption(options.error));
    }
    return Ok(RegisterPayload(productName, ParseInt(productPrice), ingredients,
      specifiedAllergens, recommendedAllergens, allergensRemarks, options.value));
  }

  /** A non-empty price input need not be a number: the payload then carries NaN (None). */
  lemma NonNumericPrice()
    ensures ParseInt("abc") == None
  {
    NoLeadingSpace("abc");
    assert !IsDigit("abc"[0]);
  }

  /** Text after the digits of the price input is dropped. */
  lemma TrailingTextDropped()
    ensures ParseInt("120yen") == Some(120)
  {
    assert Show(120) == "120" by {
      assert NatToString(12) == "12" by {
        assert NatToString(1) == "1";
      }
    }
    ParseShowThen(120, "yen");
    PriceWithYen();
  }

  /** The input of the example: the digits of 120 followed by "yen". */
  lemma PriceWithYen()
    ensures "120" + "yen" == "120yen"
  {
  }
}
