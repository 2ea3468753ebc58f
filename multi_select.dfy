/**
 * The multi-select dropdown that replaces a native `<select multiple>`: a
 * list of custom option rows built from the native options, the list of
 * selected values, the selected-items display, and the native options'
 * `selected` flags, which every change writes back.
 */
module MultiSelect {
  import opened Wrappers
  import opened Text

  /** An `<option>` of the native select. */
  datatype NativeOption = NativeOption(value: string, text: string, selected: bool)

  /** A custom option row: its data-value, data-display, and its two classes. */
  datatype OptionRow = OptionRow(value: string, display: string, selected: bool, hidden: bool)

  /** One item of the selected display, with the value its remove button removes. */
  datatype Chip = Chip(value: string, text: string)

  datatype Display = Placeholder | Chips(chips: seq<Chip>)

  // ---------------------------------------------------------------
  // The selection list
  // ---------------------------------------------------------------

  /** The values of the native options, in option order. */
  function ValuesOf(native: seq<NativeOption>): (r: seq<string>)
    ensures |r| == |native|
    ensures forall k :: 0 <= k < |native| ==> r[k] == native[k].value
  {
    seq(|native|, k requires 0 <= k < |native| => native[k].value)
  }

  /** The texts of the native options, in option order. */
  function TextsOf(native: seq<NativeOption>): (r: seq<string>)
    ensures |r| == |native|
    ensures forall k :: 0 <= k < |native| ==> r[k] == native[k].text
  {
    seq(|native|, k requires 0 <= k < |native| => native[k].text)
  }

  /** The values of the pre-selected options, in option order. */
  function PreSelected(native: seq<NativeOption>): seq<string> {
    if native == [] then []
    else
      var last := native[|native| - 1];
      PreSelected(native[..|native| - 1]) + (if last.selected then [last.value] else [])
  }

  /** Some natively selected option carries the value `v`. */
  ghost predicate CarriedBySelected(native: seq<NativeOption>, v: string) {
    exists k :: 0 <= k < |native| && native[k].selected && native[k].value == v
  }

  /** The options carrying `v` selected: those before the last, and the last itself. */
  lemma CarriedBySelectedSnoc(native: seq<NativeOption>, v: string)
    requires native != []
    ensures CarriedBySelected(native, v) <==>
      CarriedBySelected(native[..|native| - 1], v) || (native[|native| - 1].selected && native[|native| - 1].value == v)
  {
    var n := |native| - 1;
    if CarriedBySelected(native, v) {
      var k :| 0 <= k < |native| && native[k].selected && native[k].value == v;
      if k < n {
        assert native[..n][k] == native[k];
      }
    }
    if CarriedBySelected(native[..n], v) {
      var k :| 0 <= k < n && native[..n][k].selected && native[..n][k].value == v;
      assert native[k] == native[..n][k];
    }
  }

  /** A value is pre-selected exactly when some selected option carries it. */
  lemma {:induction false} PreSelectedMembers(native: seq<NativeOption>)
    ensures forall v :: v in PreSelected(native) <==> CarriedBySelected(native, v)
  {
    if native != [] {
      PreSelectedMembers(native[..|native| - 1]);
      forall v
        ensures v in PreSelected(native) <==> CarriedBySelected(native, v)
      {
        CarriedBySelectedSnoc(native, v);
      }
    }
  }

  /** `splice(i, 1)`. */
  function RemoveAt(s: seq<string>, i: nat): (r: seq<string>)
    requires i < |s|
    ensures |r| == |s| - 1
    ensures multiset(r) == multiset(s) - multiset{s[i]}
  {
    assert s == s[..i] + [s[i]] + s[i + 1..];
    s[..i] + s[i + 1..]
  }

  /** `removeSelectedOption` on the list: the first occurrence goes; an absent value changes nothing. */
  function Removed(s: seq<string>, v: string): seq<string> {
    if v in s then RemoveAt(s, IndexOf(s, v)) else s
  }

  /** `toggleOption` on the list: a present value is removed, an absent one appended. */
  function Toggled(s: seq<string>, v: string): seq<string> {
    if v in s then Removed(s, v) else s + [v]
  }

  /**
   * In a list without repetitions, taking out one place removes exactly the
   * value at that place and keeps the list free of repetitions.
   */
  lemma RemoveAtDistinct(s: seq<string>, i: nat)
    requires Distinct(s) && i < |s|
    ensures Distinct(RemoveAt(s, i))
    ensures forall x :: x in RemoveAt(s, i) <==> x in s && x != s[i]
  {
    var r := RemoveAt(s, i);
    assert forall j :: 0 <= j < |r| ==> r[j] == s[if j < i then j else j + 1];
    forall x | x in s && x != s[i]
      ensures x in r
    {
      var j :| 0 <= j < |s| && s[j] == x;
      if j < i {
        assert r[j] == x;
      } else {
        assert r[j - 1] == x;
      }
    }
  }

  /**
   * In a list without repetitions, removing a value takes out exactly that
   * value and keeps the list free of repetitions.
   */
  lemma RemovedMembers(s: seq<string>, v: string)
    requires Distinct(s)
    ensures Distinct(Removed(s, v))
    ensures forall x :: x in Removed(s, v) <==> x in s && x != v
  {
    if v in s {
      RemoveAtDistinct(s, IndexOf(s, v));
    }
  }

  /**
   * Toggling flips the membership of the toggled value and of no other, and
   * never introduces a repetition.
   */
  lemma ToggledMembers(s: seq<string>, v: string)
    requires Distinct(s)
    ensures Distinct(Toggled(s, v))
    ensures v in Toggled(s, v) <==> v !in s
    ensures forall x :: x != v ==> (x in Toggled(s, v) <==> x in s)
  {
    RemovedMembers(s, v);
  }

  /** Toggling twice restores the selected set; from an unselected value, the very list. */
  lemma ToggleTwice(s: seq<string>, v: string)
    requires Distinct(s)
    ensures forall x :: x in Toggled(Toggled(s, v), v) <==> x in s
    ensures v !in s ==> Toggled(Toggled(s, v), v) == s
  {
    ToggledMembers(s, v);
    ToggledMembers(Toggled(s, v), v);
    if v !in s {
      var t := s + [v];
      assert IndexOf(t, v) == |s| by {
        assert t[..|s|] == s;
      }
      assert t[..|s|] == s;
    }
  }

  /** Distinct values are as many as the values of the set they form. */
  lemma {:induction false} DistinctCard(s: seq<string>)
    requires Distinct(s)
    ensures |set x | x in s| == |s|
  {
    if s != [] {
      var n := |s| - 1;
      DistinctCard(s[..n]);
      assert s == s[..n] + [s[n]];
      ElementsSnoc(s[..n], s[n]);
      assert s[n] !in s[..n];
    }
  }

  /** The elements of a nonempty list are those of its front and its last one. */
  lemma ElementsSnoc(front: seq<string>, last: string)
    ensures (set x | x in front + [last]) == (set x | x in front) + {last}
  {
  }

  /**
   * `toggleSelectAll` decides by length only. With distinct option values
   * and a selection without repetitions drawn from them, a selection as long
   * as the option list is the whole list, so the button clears exactly a
   * full selection.
   */
  lemma FullLengthMeansAll(selected: seq<string>, all: seq<string>)
    requires Distinct(selected) && Distinct(all)
    requires forall v :: v in selected ==> v in all
    ensures |selected| == |all| <==> forall v :: v in all ==> v in selected
  {
    DistinctCard(selected);
    DistinctCard(all);
    var a := set x | x in all;
    var b := set x | x in selected;
    assert b <= a;
    if |selected| == |all| {
      assert a == b + (a - b) && b * (a - b) == {};
      assert |a - b| == 0;
      forall v | v in all
        ensures v in selected
      {
        assert v in a && v !in a - b;
        assert v in b;
      }
    }
    if forall v :: v in all ==> v in selected {
      assert a == b;
    }
  }

  // ---------------------------------------------------------------
  // Native select, filter and display
  // ---------------------------------------------------------------

  /** `option.selected = selectedOptions.includes(option.value)` for every option. */
  predicate InSync(native: seq<NativeOption>, selected: seq<string>) {
    forall k :: 0 <= k < |native| ==> (native[k].selected <==> native[k].value in selected)
  }

  /** `display.toLowerCase().includes(term.toLowerCase())`. */
  predicate Matches(display: string, term: string) {
    Contains(ToLower(display), ToLower(term))
  }

  /** Lowercasing twice changes nothing more. */
  lemma {:induction false} ToLowerTwice(s: string)
    ensures ToLower(ToLower(s)) == ToLower(s)
  {
    var t := ToLower(s);
    assert forall k :: 0 <= k < |t| ==> !('A' <= t[k] <= 'Z');
  }

  /** The filter ignores case on both sides, and an empty term matches every option. */
  lemma MatchesIgnoresCase(display: string, term: string)
    ensures Matches(display, ToLower(term)) == Matches(display, term)
    ensures Matches(ToLower(display), term) == Matches(display, term)
    ensures Matches(display, "")
  {
    ToLowerTwice(term);
    ToLowerTwice(display);
    ContainsEmpty(ToLower(display));
  }

  /** The first option with value `v` gives the text, or `''` when none has it. */
  function TextOf(native: seq<NativeOption>, v: string): (t: string)
    ensures v in ValuesOf(native) ==> t == native[IndexOf(ValuesOf(native), v)].text
    ensures v !in ValuesOf(native) ==> t == ""
  {
    var values := ValuesOf(native);
    if v in values then TextsOf(native)[IndexOf(values, v)] else ""
  }

  /**
   * An item of the selected display as built: the text of the value is
   * looked up, then the first option with that text gives the item's value.
   */
  function ChipOf(native: seq<NativeOption>, v: string): Option<Chip> {
    var t := TextOf(native, v);
    var texts := TextsOf(native);
    if t in texts then Some(Chip(ValuesOf(native)[IndexOf(texts, t)], t)) else None
  }

  /**
   * The items of the selected display as `updateSelectedDisplay` builds
   * them, in selection order; a value whose lookup fails shows nothing.
   */
  function ChipsOf(native: seq<NativeOption>, selected: seq<string>): seq<Chip> {
    if selected == [] then []
    else
      (match ChipOf(native, selected[0]) case Some(c) => [c] case None => [])
      + ChipsOf(native, selected[1..])
  }

  /**
   * Two options with the same text: selecting the second shows an item
   * carrying the first option's value, and its remove button then removes
   * nothing, so the item cannot be taken off the display.
   */
  lemma SharedTextChipRemovesNothing()
    ensures var native := [NativeOption("a", "X", false), NativeOption("b", "X", true)];
      && ChipsOf(native, ["b"]) == [Chip("a", "X")]
      && Removed(["b"], "a") == ["b"]
  {
    var native := [NativeOption("a", "X", false), NativeOption("b", "X", true)];
    SharedTextChip();
    assert ["b"][1..] == [];
    assert ChipsOf(native, ["b"]) == [Chip("a", "X")] + ChipsOf(native, []);
    RemovedOther();
  }

  /** The item shown for "b" is found by its text "X", which the first option "a" already has. */
  lemma SharedTextChip()
    ensures ChipOf([NativeOption("a", "X", false), NativeOption("b", "X", true)], "b") == Some(Chip("a", "X"))
  {
    var native := [NativeOption("a", "X", false), NativeOption("b", "X", true)];
    assert ValuesOf(native) == ["a", "b"];
    assert TextsOf(native) == ["X", "X"];
    assert IndexOf(ValuesOf(native), "b") == 1;
    assert TextOf(native, "b") == "X" && IndexOf(TextsOf(native), "X") == 0;
  }

  /** Removing a value that was not selected keeps the selection. */
  lemma RemovedOther()
    ensures Removed(["b"], "a") == ["b"]
  {
  }

  /** The display items as intended: each selected value with its text. */
  function SelectedChips(native: seq<NativeOption>, selected: seq<string>): (r: seq<Chip>)
    ensures |r| == |selected|
    ensures forall k :: 0 <= k < |r| ==> r[k] == Chip(selected[k], TextOf(native, selected[k]))
  {
    seq(|selected|, k requires 0 <= k < |selected| => Chip(selected[k], TextOf(native, selected[k])))
  }

  /**
   * `updateSelectedDisplay` with its items built by `SelectedChips`: the
   * placeholder exactly when nothing is selected, otherwise one item per
   * selected value, in selection order, carrying that value.
   */
  function DisplayOf(native: seq<NativeOption>, selected: seq<string>): (d: Display)
    ensures d == Placeholder <==> selected == []
    ensures d.Chips? ==> |d.chips| == |selected|
    ensures d.Chips? ==> forall k :: 0 <= k < |selected| ==> d.chips[k].value == selected[k]
  {
    if selected == [] then Placeholder else Chips(SelectedChips(native, selected))
  }

  /** The display depends on the options' values and texts only, not on their `selected` flags. */
  lemma SameLabelsSameDisplay(n1: seq<NativeOption>, n2: seq<NativeOption>, selected: seq<string>)
    requires ValuesOf(n1) == ValuesOf(n2) && TextsOf(n1) == TextsOf(n2)
    ensures DisplayOf(n1, selected) == DisplayOf(n2, selected)
  {
    forall v ensures TextOf(n1, v) == TextOf(n2, v) {
    }
  }

  /** Every intended item's remove button takes its own value, and only it, off the selection. */
  lemma SelectedChipRemoves(native: seq<NativeOption>, selected: seq<string>, k: nat)
    requires Distinct(selected) && k < |selected|
    ensures var v := SelectedChips(native, selected)[k].value;
      && v in selected
      && v !in Removed(selected, v)
      && forall x :: x != v ==> (x in Removed(selected, v) <==> x in selected)
  {
    RemovedMembers(selected, SelectedChips(native, selected)[k].value);
  }

  /**
   * When no two options share a text and every selected value is an
   * option's value, the display as built shows the intended items.
   */
  lemma {:induction false} DistinctTextsShowSelected(native: seq<NativeOption>, selected: seq<string>)
    requires Distinct(TextsOf(native))
    requires forall v :: v in selected ==> v in ValuesOf(native)
    ensures ChipsOf(native, selected) == SelectedChips(native, selected)
  {
    if selected != [] {
      DistinctTextChip(native, selected[0]);
      DistinctTextsShowSelected(native, selected[1..]);
      SelectedChipsCons(native, selected);
    }
  }

  /** With distinct texts, the text of an option's value leads back to that option. */
  lemma DistinctTextChip(native: seq<NativeOption>, v: string)
    requires Distinct(TextsOf(native)) && v in ValuesOf(native)
    ensures ChipOf(native, v) == Some(Chip(v, TextOf(native, v)))
  {
    var i := IndexOf(ValuesOf(native), v);
    var texts := TextsOf(native);
    assert texts[i] == TextOf(native, v);
    var j := IndexOf(texts, texts[i]);
    assert j == i;
  }

  /** The intended items of a selection: the first value's, then the rest's. */
  lemma SelectedChipsCons(native: seq<NativeOption>, selected: seq<string>)
    requires selected != []
    ensures SelectedChips(native, selected)
      == [Chip(selected[0], TextOf(native, selected[0]))] + SelectedChips(native, selected[1..])
  {
  }

  // ---------------------------------------------------------------
  // The loops over the options
  // ---------------------------------------------------------------

  /**
   * `populateOptions`: one row per native option, marked selected as the
   * option is, and the selected values pushed in option order.
   */
  method Populate(native: seq<NativeOption>) returns (rows: seq<OptionRow>, selected: seq<string>)
    ensures |rows| == |native|
    ensures forall k :: 0 <= k < |native| ==>
      rows[k] == OptionRow(native[k].value, native[k].text, native[k].selected, false)
    ensures selected == PreSelected(native)
  {
    rows, selected := [], [];
    var i := 0;
    while i < |native|
      invariant 0 <= i <= |native|
      invariant |rows| == i
      invariant forall k :: 0 <= k < i ==>
        rows[k] == OptionRow(native[k].value, native[k].text, native[k].selected, false)
      invariant selected == PreSelected(native[..i])
    {
      var o := native[i];
      rows := rows + [OptionRow(o.value, o.text, o.selected, false)];
      if o.selected {
        selected := selected + [o.value];
      }
      assert native[..i + 1][..i] == native[..i];
      i := i + 1;
    }
    assert native[..i] == native;
  }

  /** `filterOptions`: each row is hidden exactly when its display text does not match the term. */
  method FilterRows(rows: seq<OptionRow>, term: string) returns (r: seq<OptionRow>)
    ensures |r| == |rows|
    ensures forall k :: 0 <= k < |rows| ==>
      r[k] == rows[k].(hidden := !Matches(rows[k].display, term))
  {
    r := rows;
    var i := 0;
    while i < |r|
      invariant 0 <= i <= |r| == |rows|
      invariant forall k :: 0 <= k < i ==> r[k] == rows[k].(hidden := !Matches(rows[k].display, term))
      invariant forall k :: i <= k < |r| ==> r[k] == rows[k]
    {
      r := r[i := r[i].(hidden := !Matches(r[i].display, term))];
      i := i + 1;
    }
  }

  /** The `selected` class added to (`on`) or removed from every row. */
  method MarkRows(rows: seq<OptionRow>, on: bool) returns (r: seq<OptionRow>)
    ensures |r| == |rows|
    ensures forall k :: 0 <= k < |rows| ==> r[k] == rows[k].(selected := on)
  {
    r := rows;
    var i := 0;
    while i < |r|
      invariant 0 <= i <= |r| == |rows|
      invariant forall k :: 0 <= k < i ==> r[k] == rows[k].(selected := on)
      invariant forall k :: i <= k < |r| ==> r[k] == rows[k]
    {
      r := r[i := r[i].(selected := on)];
      i := i + 1;
    }
  }

  /** `updateNativeSelect`: every option is selected exactly when its value is in the list. */
  method SyncNative(native: seq<NativeOption>, selected: seq<string>) returns (r: seq<NativeOption>)
    ensures ValuesOf(r) == ValuesOf(native) && TextsOf(r) == TextsOf(native)
    ensures InSync(r, selected)
  {
    r := native;
    var i := 0;
    while i < |r|
      invariant 0 <= i <= |r| == |native|
      invariant forall k :: 0 <= k < |r| ==> r[k].value == native[k].value && r[k].text == native[k].text
      invariant forall k :: 0 <= k < i ==> (r[k].selected <==> r[k].value in selected)
    {
      r := r[i := r[i].(selected := r[i].value in selected)];
      i := i + 1;
    }
  }

  /** The index of the first row carrying `v` (`querySelector` on the data-value). */
  function FirstRowWith(rows: seq<OptionRow>, v: string): (i: nat)
    ensures i <= |rows|
    ensures forall k :: 0 <= k < i ==> rows[k].value != v
    ensures i < |rows| ==> rows[i].value == v
  {
    if rows == [] then 0
    else if rows[0].value == v then 0
    else FirstRowWith(rows[1..], v) + 1
  }

  // ---------------------------------------------------------------
  // The dropdown
  // ---------------------------------------------------------------

  class MultiSelectDropdown {
    /** The native select's options. */
    var native: seq<NativeOption>
    /** The custom option rows, one per native option. */
    var rows: seq<OptionRow>
    var selectedOptions: seq<string>
    var display: Display

    /** Every row stands for the native option at its place. */
    ghost predicate Valid()
      reads this
    {
      && |rows| == |native|
      && forall k :: 0 <= k < |rows| ==> rows[k].value == native[k].value && rows[k].display == native[k].text
    }

    /**
     * Builds the rows from the native options; the selection starts as the
     * pre-selected values, and the display shows it.
     */
    constructor(options: seq<NativeOption>)
      ensures Valid() && native == options
      ensures forall k :: 0 <= k < |rows| ==> rows[k].selected == options[k].selected && !rows[k].hidden
      ensures selectedOptions == PreSelected(options)
      ensures display == DisplayOf(options, selectedOptions)
    {
      native := options;
      var r, s := Populate(options);
      rows := r;
      selectedOptions := s;
      display := DisplayOf(options, s);
    }

    /** The native options follow the selection. */
    predicate NativeInSync()
      reads this
    {
      InSync(native, selectedOptions)
    }

    /** Typing in the search box sets each row's `hidden` class. */
    method FilterOptions(term: string)
      requires Valid()
      modifies this`rows
      ensures Valid()
      ensures |rows| == |old(rows)|
      ensures forall k :: 0 <= k < |rows| ==>
        rows[k] == old(rows[k]).(hidden := !Matches(old(rows[k]).display, term))
    {
      rows := FilterRows(rows, term);
    }

    /** Rewrites the selected display. */
    method UpdateSelectedDisplay()
      modifies this`display
      ensures display == DisplayOf(native, selectedOptions)
    {
      display := DisplayOf(native, selectedOptions);
    }

    /** Writes the selection back to the native options; the display still reads the same. */
    method UpdateNativeSelect()
      requires Valid()
      modifies this`native
      ensures Valid()
      ensures ValuesOf(native) == ValuesOf(old(native)) && TextsOf(native) == TextsOf(old(native))
      ensures DisplayOf(native, selectedOptions) == DisplayOf(old(native), selectedOptions)
      ensures NativeInSync()
    {
      var before := native;
      native := SyncNative(native, selectedOptions);
      SameLabelsSameDisplay(before, native, selectedOptions);
    }

    /** Clicking row `k` toggles its value in the selection and its `selected` class. */
    method ToggleOption(k: nat)
      requires Valid() && k < |rows|
      modifies this
      ensures Valid()
      ensures selectedOptions == Toggled(old(selectedOptions), old(rows[k].value))
      ensures rows == old(rows)[k := old(rows[k]).(selected := old(rows[k].value) !in old(selectedOptions))]
      ensures ValuesOf(native) == ValuesOf(old(native)) && NativeInSync()
      ensures display == DisplayOf(native, selectedOptions)
    {
      var value := rows[k].value;
      if value in selectedOptions {
        selectedOptions := Removed(selectedOptions, value);
        rows := rows[k := rows[k].(selected := false)];
      } else {
        selectedOptions := selectedOptions + [value];
        rows := rows[k := rows[k].(selected := true)];
      }
      UpdateSelectedDisplay();
      UpdateNativeSelect();
    }

    /**
     * The "All" button: a selection as long as the option list is cleared,
     * any other becomes every option value in option order.
     */
    method ToggleSelectAll()
      requires Valid()
      modifies this
      ensures Valid()
      ensures |old(selectedOptions)| == |old(native)| ==>
        selectedOptions == [] && forall k :: 0 <= k < |rows| ==> !rows[k].selected
      ensures |old(selectedOptions)| != |old(native)| ==>
        selectedOptions == ValuesOf(old(native)) && forall k :: 0 <= k < |rows| ==> rows[k].selected
      ensures |rows| == |old(rows)|
      ensures forall k :: 0 <= k < |rows| ==> rows[k] == old(rows[k]).(selected := rows[k].selected)
      ensures ValuesOf(native) == ValuesOf(old(native)) && NativeInSync()
      ensures display == DisplayOf(native, selectedOptions)
    {
      var allOptions := ValuesOf(native);
      if |selectedOptions| == |allOptions| {
        selectedOptions := [];
        rows := MarkRows(rows, false);
      } else {
        selectedOptions := allOptions;
        rows := MarkRows(rows, true);
      }
      UpdateSelectedDisplay();
      UpdateNativeSelect();
    }

    /**
     * An item's remove button: a value not in the selection changes nothing;
     * otherwise its first occurrence is removed and the first row carrying
     * it loses its `selected` class.
     */
    method RemoveSelectedOption(v: string)
      requires Valid()
      modifies this
      ensures Valid()
      ensures v !in old(selectedOptions) ==>
        selectedOptions == old(selectedOptions) && rows == old(rows)
        && native == old(native) && display == old(display)
      ensures v in old(selectedOptions) ==>
        var i := FirstRowWith(old(rows), v);
        && selectedOptions == Removed(old(selectedOptions), v)
        && rows == (if i < |old(rows)| then old(rows)[i := old(rows[i]).(selected := false)] else old(rows))
        && ValuesOf(native) == ValuesOf(old(native)) && NativeInSync()
        && display == DisplayOf(native, selectedOptions)
    {
      if v in selectedOptions {
        selectedOptions := Removed(selectedOptions, v);
        var i := FirstRowWith(rows, v);
        if i < |rows| {
          rows := rows[i := rows[i].(selected := false)];
        }
        UpdateSelectedDisplay();
        UpdateNativeSelect();
      }
    }
  }
}
