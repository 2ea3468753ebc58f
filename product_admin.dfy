/**
 * The product editor of the administration page: a modal form that is
 * cleared for a new product or filled from a stored one, and whose submit
 * handler turns the form back into an `addProduct` or `updateProduct`
 * request.
 */
module ProductAdmin {
  import opened Wrappers
  import opened Text
  import opened ProductOptions

  /** The request the submit handler sends. */
  datatype Action = AddProduct | UpdateProduct

  /** An empty hidden id field means a new product. */
  function ChooseAction(productId: string): (a: Action)
    ensures a == UpdateProduct <==> productId != ""
    ensures a == AddProduct <==> productId == ""
  {
    if productId != "" then UpdateProduct else AddProduct
  }

  /** A product as the product list holds it. */
  datatype StoredProduct = StoredProduct(
    id: string,
    name: string,
    price: int,
    ingredients: string,
    allergensRemarks: string,
    specifiedAllergens: seq<string>,
    recommendedAllergens: seq<string>,
    options: seq<OptionGroup>)

  /** The product part of a save request; `price` is `parseInt` of the price input. */
  datatype ProductData = ProductData(
    id: string,
    name: string,
    price: Option<int>,
    ingredients: string,
    allergensRemarks: string,
    specifiedAllergens: seq<string>,
    recommendedAllergens: seq<string>,
    options: seq<OptionGroup>)

  datatype SaveRequest = SaveRequest(action: Action, product: ProductData)

  /** One option-group row per stored group, in order. */
  function PrefillRows(options: seq<OptionGroup>): (rows: seq<GroupFields>)
    ensures |rows| == |options|
  {
    seq(|options|, k requires 0 <= k < |options| => PrefillGroup(options[k]))
  }

  /** A stored group the edit form can show without changing it. */
  predicate PlainGroup(g: OptionGroup) {
    g.name != "" && |g.values| == |g.prices| >= 1 && g.values != [""]
    && forall k :: 0 <= k < |g.values| ==> PlainValue(g.values[k])
  }

  /**
   * Saving the option rows of a freshly opened edit form gives back the
   * stored groups, when every group is plain.
   */
  lemma PrefillRowsParse(options: seq<OptionGroup>)
    requires forall k :: 0 <= k < |options| ==> PlainGroup(options[k])
    ensures ParseAll(PrefillRows(options)) == Ok(options)
  {
    var rs := ParseRows(PrefillRows(options));
    forall k | 0 <= k < |rs|
      ensures rs[k] == Ok(options[k])
    {
      PrefillThenParse(options[k]);
    }
    AllAccepted(rs, options);
  }

  /** The state of the product modal's inputs. */
  class ProductForm {
    var productId: string
    var name: string
    var priceText: string
    var ingredients: string
    var allergensRemarks: string
    /** The `specifiedAllergens` check boxes. */
    var specified: seq<Choice>
    /** The options of the recommended-allergens `<select multiple>`. */
    var recommended: seq<Choice>
    /** The option-group rows, in page order. */
    var rows: seq<GroupFields>

    /** A form whose check boxes and select options carry the given values. */
    constructor(specifiedValues: seq<string>, recommendedValues: seq<string>)
      ensures productId == "" && name == "" && priceText == ""
      ensures ingredients == "" && allergensRemarks == "" && rows == []
      ensures ValuesOf(specified) == specifiedValues && ValuesOf(recommended) == recommendedValues
      ensures ChosenValues(specified) == [] && ChosenValues(recommended) == []
    {
      productId := "";
      name := "";
      priceText := "";
      ingredients := "";
      allergensRemarks := "";
      var s := seq(|specifiedValues|, k requires 0 <= k < |specifiedValues| => Choice(specifiedValues[k], false));
      var r := seq(|recommendedValues|, k requires 0 <= k < |recommendedValues| => Choice(recommendedValues[k], false));
      assert ValuesOf(s) == specifiedValues;
      assert ValuesOf(r) == recommendedValues;
      NoneChosen(s);
      NoneChosen(r);
      specified := s;
      recommended := r;
      rows := [];
    }

    /**
     * Opens the modal: everything is cleared, and for a stored product its
     * fields, allergens and option groups are filled in.
     */
    method OpenProductModal(product: Option<StoredProduct>)
      modifies this
      ensures ValuesOf(specified) == old(ValuesOf(specified))
      ensures ValuesOf(recommended) == old(ValuesOf(recommended))
      ensures product.None? ==>
        && productId == "" && name == "" && priceText == ""
        && ingredients == "" && allergensRemarks == "" && rows == []
        && specified == ClearAll(old(specified)) && recommended == ClearAll(old(recommended))
      ensures product.Some? ==>
        var p := product.value;
        && productId == p.id && name == p.name && priceText == Show(p.price)
        && ingredients == p.ingredients && allergensRemarks == p.allergensRemarks
        && specified == CheckEach(ClearAll(old(specified)), p.specifiedAllergens)
        && recommended == SelectListed(ClearAll(old(recommended)), p.recommendedAllergens)
        && rows == PrefillRows(p.options)
    {
      Reset();
      if product.Some? {
        FillFields(product.value);
        FillAllergens(product.value);
        rows := PrefillRows(product.value.options);
      }
    }

    /** `productForm.reset()` and the clearing of the allergens and option rows. */
    method Reset()
      modifies this
      ensures productId == "" && name == "" && priceText == ""
      ensures ingredients == "" && allergensRemarks == "" && rows == []
      ensures specified == ClearAll(old(specified)) && recommended == ClearAll(old(recommended))
    {
      productId, name, priceText, ingredients, allergensRemarks := "", "", "", "", "";
      rows := [];
      ClearAllergens();
    }

    /** Unchecks every allergen box and deselects every recommended allergen. */
    method ClearAllergens()
      modifies this`specified, this`recommended
      ensures specified == ClearAll(old(specified)) && recommended == ClearAll(old(recommended))
    {
      specified, recommended := ClearAll(specified), ClearAll(recommended);
    }

    /** The text inputs of a stored product. */
    method FillFields(p: StoredProduct)
      modifies this`productId, this`name, this`priceText, this`ingredients, this`allergensRemarks
      ensures productId == p.id && name == p.name && priceText == Show(p.price)
      ensures ingredients == p.ingredients && allergensRemarks == p.allergensRemarks
    {
      productId, name, priceText := p.id, p.name, Show(p.price);
      ingredients, allergensRemarks := p.ingredients, p.allergensRemarks;
    }

    /** Checks the product's specified allergens and selects its recommended ones. */
    method FillAllergens(p: StoredProduct)
      modifies this`specified, this`recommended
      ensures specified == CheckEach(old(specified), p.specifiedAllergens)
      ensures recommended == SelectListed(old(recommended), p.recommendedAllergens)
    {
      specified := CheckEach(specified, p.specifiedAllergens);
      recommended := SelectListed(recommended, p.recommendedAllergens);
    }

    /** The "add option group" button appends an empty row. */
    method AddOptionGroup()
      modifies this`rows
      ensures rows == old(rows) + [GroupFields("", "", "")]
    {
      rows := rows + [GroupFields("", "", "")];
    }

    /** A row's own remove button takes that row out. */
    method RemoveOptionGroup(i: nat)
      requires i < |rows|
      modifies this`rows
      ensures rows == old(rows[..i] + rows[i + 1..])
    {
      rows := rows[..i] + rows[i + 1..];
    }

    /**
     * The submit handler: the option rows are parsed first, and any refused
     * row stops the submission; otherwise the request carries the form's
     * fields, the checked allergens in page order and the parsed groups.
     */
    method Submit() returns (r: Result<SaveRequest, OptionError>)
      ensures ParseAll(rows).Err? ==> r == Err(ParseAll(rows).error)
      ensures ParseAll(rows).Ok? ==>
        r == Ok(SaveRequest(ChooseAction(productId),
          ProductData(productId, name, ParseInt(priceText), ingredients, allergensRemarks,
            ChosenValues(specified), ChosenValues(recommended), ParseAll(rows).value)))
    {
      var action := ChooseAction(productId);
      var specifiedAllergens := ChosenValues(specified);
      var recommendedAllergens := ChosenValues(recommended);
      var options := CollectOptions(rows);
      if options.Err? {
        return Err(options.error);
      }
      var data := ProductData(productId, name, ParseInt(priceText), ingredients, allergensRemarks,
        specifiedAllergens, recommendedAllergens, options.value);
      return Ok(SaveRequest(action, data));
    }
  }

  /**
   * What saving an unchanged edit form sends for a stored product: an update
   * of the same id with the same price and option groups; the recommended
   * allergens are the listed ones among the select's options, in option
   * order, and a specified-allergen value is sent exactly when a box carries
   * it and it is listed.
   */
  lemma EditRoundTrip(p: StoredProduct, boxes: seq<Choice>, opts: seq<Choice>)
    requires p.id != ""
    requires forall k :: 0 <= k < |p.options| ==> PlainGroup(p.options[k])
    requires DistinctValues(boxes)
    ensures ParseAll(PrefillRows(p.options)) == Ok(p.options)
    ensures ChooseAction(p.id) == UpdateProduct
    ensures ParseInt(Show(p.price)) == Some(p.price)
    ensures ChosenValues(SelectListed(ClearAll(opts), p.recommendedAllergens))
      == Listed(ValuesOf(opts), p.recommendedAllergens)
    ensures forall v :: (v in ChosenValues(CheckEach(ClearAll(boxes), p.specifiedAllergens))
      <==> v in ValuesOf(boxes) && v in p.specifiedAllergens)
  {
    PrefillRowsParse(p.options);
    ParseShow(p.price);
    SelectThenCollect(ClearAll(opts), p.recommendedAllergens);
    CheckedAfterClear(boxes, p.specifiedAllergens);
  }

  /** Clearing the boxes and checking the listed ones checks exactly the listed values. */
  lemma CheckedAfterClear(boxes: seq<Choice>, wanted: seq<string>)
    requires DistinctValues(boxes)
    ensures forall v :: (v in ChosenValues(CheckEach(ClearAll(boxes), wanted))
      <==> v in ValuesOf(boxes) && v in wanted)
  {
    var cleared := ClearAll(boxes);
    forall k | 0 <= k < |boxes|
      ensures cleared[k].value == boxes[k].value
    {
      assert ValuesOf(cleared)[k] == ValuesOf(boxes)[k];
    }
    CheckEachMarks(cleared, wanted);
    var checked := CheckEach(cleared, wanted);
    forall k | 0 <= k < |boxes|
      ensures checked[k].value == boxes[k].value && checked[k].on == (boxes[k].value in wanted)
    {
      assert ValuesOf(checked)[k] == ValuesOf(cleared)[k];
    }
    forall v {
      ChosenExactly(checked, boxes, wanted, v);
    }
  }

  /** Boxes checked exactly where the value is wanted give the wanted values among theirs. */
  lemma ChosenExactly(checked: seq<Choice>, boxes: seq<Choice>, wanted: seq<string>, v: string)
    requires |checked| == |boxes|
    requires forall k :: 0 <= k < |boxes| ==>
      checked[k].value == boxes[k].value && checked[k].on == (boxes[k].value in wanted)
    ensures v in ChosenValues(checked) <==> v in ValuesOf(boxes) && v in wanted
  {
    if v in ValuesOf(boxes) && v in wanted {
      var k :| 0 <= k < |boxes| && ValuesOf(boxes)[k] == v;
      assert checked[k].on && checked[k].value == v;
    }
  }
}
