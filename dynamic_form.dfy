/**
 * The question-driven form parts shared by the meeting-room and childcare
 * reservation pages: the questions are ordered by their order number, each
 * becomes a control chosen by its input type (with page-specific
 * attributes and initial values), and the answers are collected back from
 * the controls by the same input type.
 */
module DynamicForm {
  import opened Wrappers
  import opened Text
  import MultiSelect

  /** A question as the form-question service returns it, with its options already parsed. */
  datatype Question = Question(
    key: string,
    text: string,
    inputType: string,
    required: bool,
    orderNum: int,
    options: Option<seq<string>>)

  /** An initial value: a string, or an array of strings. */
  datatype InitialValue = Str(s: string) | List(items: seq<string>)

  /** The input types rendered as an `<input>` of that type. */
  const InputTypes: set<string> := {
    "text", "number", "email", "tel", "date", "time", "password", "range",
    "datetime-local", "month", "week", "color", "file", "search", "url"
  }

  const RoomReservation: string := "room_reservation"
  const ChildcareReservation: string := "childcare_reservation"

  /** The leading empty option of a select. */
  const ChoosePrompt: string := "\U{9078}\U{629E}\U{3057}\U{3066}\U{304F}\U{3060}\U{3055}\U{3044}"

  // ---------------------------------------------------------------
  // Ordering
  // ---------------------------------------------------------------

  predicate SortedByOrder(qs: seq<Question>) {
    forall m, n :: 0 <= m < n < |qs| ==> qs[m].orderNum <= qs[n].orderNum
  }

  /** `questions.sort((a, b) => a.order_num - b.order_num)`, in place, by insertion. */
  method SortByOrder(a: array<Question>)
    modifies a
    ensures SortedByOrder(a[..])
    ensures multiset(a[..]) == old(multiset(a[..]))
  {
    var i := 0;
    while i < a.Length
      invariant 0 <= i <= a.Length
      invariant SortedByOrder(a[..i])
      invariant multiset(a[..]) == old(multiset(a[..]))
    {
      InsertLast(a, i);
      i := i + 1;
    }
    assert a[..i] == a[..];
  }

  /** Moves `a[i]` down into the sorted prefix `a[..i]`, past the larger order numbers only. */
  method InsertLast(a: array<Question>, i: nat)
    requires i < a.Length && SortedByOrder(a[..i])
    modifies a
    ensures SortedByOrder(a[..i + 1])
    ensures multiset(a[..]) == old(multiset(a[..]))
  {
    var j := i;
    SortedExceptStart(a[..], i);
    while j > 0 && a[j - 1].orderNum > a[j].orderNum
      invariant 0 <= j <= i
      invariant SortedExcept(a[..], i + 1, j)
      invariant multiset(a[..]) == old(multiset(a[..]))
    {
      ghost var s := a[..];
      SwapStep(s, i + 1, j);
      Swap(a, j - 1, j);
      assert a[..] == s[j - 1 := s[j]][j := s[j - 1]];
      j := j - 1;
    }
    SortedExceptStops(a[..], i + 1, j);
  }

  /**
   * The insertion's invariant on the first `n` questions: the order numbers
   * ascend except at the moving question `j`, and its neighbours ascend
   * across it.
   */
  predicate SortedExcept(s: seq<Question>, n: int, j: int)
    requires n <= |s|
  {
    && (forall m, k :: 0 <= m < k < n && k != j ==> s[m].orderNum <= s[k].orderNum)
    && (0 < j < n - 1 ==> s[j - 1].orderNum <= s[j + 1].orderNum)
  }

  /** A sorted prefix with one more question behind it is sorted except at that question. */
  lemma SortedExceptStart(s: seq<Question>, i: nat)
    requires i < |s| && SortedByOrder(s[..i])
    ensures SortedExcept(s, i + 1, i)
  {
    assert forall m :: 0 <= m < i ==> s[..i][m] == s[m];
  }

  /** Swapping the moving question with a larger predecessor moves the exception one down. */
  lemma SwapStep(s: seq<Question>, n: int, j: int)
    requires n <= |s| && 0 < j < n && SortedExcept(s, n, j) && s[j - 1].orderNum > s[j].orderNum
    ensures SortedExcept(s[j - 1 := s[j]][j := s[j - 1]], n, j - 1)
  {
  }

  /** The moving question stopped at the front or behind a predecessor not larger: all ascend. */
  lemma SortedExceptStops(s: seq<Question>, n: int, j: int)
    requires 0 <= j < n <= |s| && SortedExcept(s, n, j)
    requires j == 0 || s[j - 1].orderNum <= s[j].orderNum
    ensures SortedByOrder(s[..n])
  {
  }

  method Swap(a: array<Question>, i: nat, j: nat)
    requires i < j < a.Length
    modifies a
    ensures a[..] == old(a[..])[i := old(a[j])][j := old(a[i])]
    ensures multiset(a[..]) == old(multiset(a[..]))
  {
    a[i], a[j] := a[j], a[i];
  }

  // ---------------------------------------------------------------
  // Controls
  // ---------------------------------------------------------------

  datatype SelectOption = SelectOption(value: string, text: string)

  /** One radio button or check box of a group: its id, value and checked state. */
  datatype ChoiceItem = ChoiceItem(id: string, value: string, checked: bool)

  /** The control a question becomes. */
  datatype Control =
    | InputControl(inputType: string, required: bool, value: Option<string>,
                   step: Option<int>, min: Option<int>, max: Option<int>)
    | TextAreaControl(required: bool, value: Option<string>)
    | SelectControl(required: bool, multiple: bool, options: seq<SelectOption>, value: Option<string>)
    | ChoiceGroup(inputType: string, requiredMark: bool, items: seq<ChoiceItem>)

  /** A form group: the question's key, its label text, the required star, and the control. */
  datatype FormGroup = FormGroup(key: string, labelText: string, requiredStar: bool, control: Control)

  /** Assigning a value to a control's `value` turns an array into its comma-joined text. */
  function ValueText(v: InitialValue): string {
    match v
    case Str(s) => s
    case List(xs) => Join(xs, ",")
  }

  /** The initial value of a key as text, when one is given. */
  function InitialText(initial: map<string, InitialValue>, key: string): Option<string> {
    if key in initial then Some(ValueText(initial[key])) else None
  }

  /** `text.replace(/\s/g, '-')`. */
  function Dashed(t: string): (r: string)
    ensures |r| == |t|
    ensures forall k :: 0 <= k < |t| ==> r[k] == if IsSpace(t[k]) then '-' else t[k]
  {
    seq(|t|, k requires 0 <= k < |t| => if IsSpace(t[k]) then '-' else t[k])
  }

  /** The `<input>` of an input-type question, with the page-specific attributes. */
  function InputFor(q: Question, formName: string, initial: map<string, InitialValue>): Control {
    var room := formName == RoomReservation;
    var child := formName == ChildcareReservation;
    var counter := room && (q.key == "numberOfWeeks" || q.key == "participants");
    var age := !room && child && q.key == "childAge";
    var step := if room && q.inputType == "time" then Some(1800)
                else if !room && child && q.inputType == "time" then Some(900)
                else None;
    InputControl(q.inputType, q.required,
      if counter && q.key !in initial then Some("1") else InitialText(initial, q.key),
      step,
      if counter then Some(1) else if age then Some(0) else None,
      if age then Some(15) else None)
  }

  /** Room reservation's equipment select is a multiple select without the empty option. */
  predicate IsEquipment(q: Question, formName: string) {
    formName == RoomReservation && q.key == "equipment"
  }

  function OptionTexts(q: Question): seq<string> {
    if q.options.Some? then q.options.value else []
  }

  /** The `<select>` of a select question. */
  function SelectFor(q: Question, formName: string, initial: map<string, InitialValue>): Control {
    var texts := OptionTexts(q);
    var listed := seq(|texts|, k requires 0 <= k < |texts| => SelectOption(texts[k], texts[k]));
    SelectControl(q.required, IsEquipment(q, formName),
      (if IsEquipment(q, formName) then [] else [SelectOption("", ChoosePrompt)]) + listed,
      InitialText(initial, q.key))
  }

  /**
   * Whether the option `t` of a radio or checkbox question starts checked:
   * a radio when the initial value is that very string, a check box when the
   * initial value is an array that includes it.
   */
  predicate StartsChecked(q: Question, initial: map<string, InitialValue>, t: string) {
    q.key in initial
    && ((q.inputType == "radio" && initial[q.key] == Str(t))
        || (q.inputType == "checkbox" && initial[q.key].List? && t in initial[q.key].items))
  }

  /** The group of radio buttons or check boxes of a choice question. */
  function ChoicesFor(q: Question, initial: map<string, InitialValue>): Control {
    var texts := OptionTexts(q);
    ChoiceGroup(q.inputType, q.required && q.inputType == "radio",
      seq(|texts|, k requires 0 <= k < |texts| =>
        ChoiceItem(q.key + "-" + Dashed(texts[k]), texts[k], StartsChecked(q, initial, texts[k]))))
  }

  /** The control of a question; an unknown input type has none. */
  function ControlFor(q: Question, formName: string, initial: map<string, InitialValue>): Option<Control> {
    if q.inputType in InputTypes then Some(InputFor(q, formName, initial))
    else if q.inputType == "textarea" then Some(TextAreaControl(q.required, InitialText(initial, q.key)))
    else if q.inputType == "select" then Some(SelectFor(q, formName, initial))
    else if q.inputType == "radio" || q.inputType == "checkbox" then Some(ChoicesFor(q, initial))
    else None
  }

  predicate KnownType(t: string) {
    t in InputTypes || t in {"textarea", "select", "radio", "checkbox"}
  }

  /** Exactly the known input types get a control. */
  lemma ControlForKnown(q: Question, formName: string, initial: map<string, InitialValue>)
    ensures ControlFor(q, formName, initial).Some? <==> KnownType(q.inputType)
  {
  }

  /** The form groups of the questions, in their order; unknown types are skipped. */
  function GroupsOf(qs: seq<Question>, formName: string, initial: map<string, InitialValue>): seq<FormGroup> {
    if qs == [] then []
    else
      var q := qs[|qs| - 1];
      GroupsOf(qs[..|qs| - 1], formName, initial)
      + match ControlFor(q, formName, initial)
        case Some(c) => [FormGroup(q.key, q.text + ":", q.required, c)]
        case None => []
  }

  /** The questions with a known input type. */
  function KnownQuestions(qs: seq<Question>): seq<Question> {
    if qs == [] then []
    else KnownQuestions(qs[..|qs| - 1]) + (if KnownType(qs[|qs| - 1].inputType) then [qs[|qs| - 1]] else [])
  }

  /**
   * There is one form group per question of a known type, in question
   * order, carrying that question's key and label; the others produce none.
   */
  lemma {:induction false} GroupsFollowKnownQuestions(qs: seq<Question>, formName: string, initial: map<string, InitialValue>)
    ensures |GroupsOf(qs, formName, initial)| == |KnownQuestions(qs)|
    ensures forall k :: 0 <= k < |KnownQuestions(qs)| ==>
      GroupsOf(qs, formName, initial)[k].key == KnownQuestions(qs)[k].key
      && GroupsOf(qs, formName, initial)[k].labelText == KnownQuestions(qs)[k].text + ":"
  {
    if qs != [] {
      GroupsFollowKnownQuestions(qs[..|qs| - 1], formName, initial);
      ControlForKnown(qs[|qs| - 1], formName, initial);
    }
  }

  /**
   * The select's options: the empty prompt first and then the question's
   * options, except for room reservation's equipment, which is a multiple
   * select with the question's options only.
   */
  lemma SelectOptions(q: Question, formName: string, initial: map<string, InitialValue>)
    requires q.inputType == "select"
    ensures var c := ControlFor(q, formName, initial).value;
      && c.SelectControl?
      && c.multiple == IsEquipment(q, formName)
      && (!IsEquipment(q, formName) ==>
            |c.options| == |OptionTexts(q)| + 1 && c.options[0] == SelectOption("", ChoosePrompt)
            && forall k :: 0 <= k < |OptionTexts(q)| ==> c.options[k + 1].value == OptionTexts(q)[k])
      && (IsEquipment(q, formName) ==>
            |c.options| == |OptionTexts(q)|
            && forall k :: 0 <= k < |OptionTexts(q)| ==> c.options[k].value == OptionTexts(q)[k])
  {
    assert ControlFor(q, formName, initial) == Some(SelectFor(q, formName, initial));
    SelectForOptions(q, formName, initial);
  }

  /** The options of the `<select>`: the prompt unless it is the equipment list, then every option text. */
  lemma SelectForOptions(q: Question, formName: string, initial: map<string, InitialValue>)
    ensures var c := SelectFor(q, formName, initial);
      && c.SelectControl?
      && c.multiple == IsEquipment(q, formName)
      && (!IsEquipment(q, formName) ==>
            |c.options| == |OptionTexts(q)| + 1 && c.options[0] == SelectOption("", ChoosePrompt)
            && forall k :: 0 <= k < |OptionTexts(q)| ==> c.options[k + 1].value == OptionTexts(q)[k])
      && (IsEquipment(q, formName) ==>
            |c.options| == |OptionTexts(q)|
            && forall k :: 0 <= k < |OptionTexts(q)| ==> c.options[k].value == OptionTexts(q)[k])
  {
  }

  /**
   * A radio button starts checked exactly when the initial value equals its
   * text, so with distinct option texts at most one does; a check box
   * exactly when the initial array includes its text.
   */
  lemma ChoiceChecks(q: Question, formName: string, initial: map<string, InitialValue>)
    requires q.inputType == "radio" || q.inputType == "checkbox"
    ensures var c := ControlFor(q, formName, initial).value;
      && c.ChoiceGroup? && |c.items| == |OptionTexts(q)|
      && (forall k :: 0 <= k < |c.items| ==> c.items[k].value == OptionTexts(q)[k])
      && (q.inputType == "radio" ==> forall k :: 0 <= k < |c.items| ==>
            (c.items[k].checked <==> q.key in initial && initial[q.key] == Str(OptionTexts(q)[k])))
      && (q.inputType == "checkbox" ==> forall k :: 0 <= k < |c.items| ==>
            (c.items[k].checked <==> q.key in initial && initial[q.key].List?
                                      && OptionTexts(q)[k] in initial[q.key].items))
      && (q.inputType == "radio" && Distinct(OptionTexts(q)) ==>
            forall i, j :: 0 <= i < j < |c.items| ==> !(c.items[i].checked && c.items[j].checked))
  {
    assert ControlFor(q, formName, initial) == Some(ChoicesFor(q, initial));
    ChoicesForChecks(q, initial);
  }

  /** The group's items follow the option texts, checked as the initial value says. */
  lemma ChoicesForChecks(q: Question, initial: map<string, InitialValue>)
    requires q.inputType == "radio" || q.inputType == "checkbox"
    ensures var c := ChoicesFor(q, initial);
      && c.ChoiceGroup? && |c.items| == |OptionTexts(q)|
      && (forall k :: 0 <= k < |c.items| ==> c.items[k].value == OptionTexts(q)[k])
      && (forall k :: 0 <= k < |c.items| ==> c.items[k].checked == StartsChecked(q, initial, OptionTexts(q)[k]))
      && (q.inputType == "radio" ==> forall k :: 0 <= k < |c.items| ==>
            (c.items[k].checked <==> q.key in initial && initial[q.key] == Str(OptionTexts(q)[k])))
      && (q.inputType == "checkbox" ==> forall k :: 0 <= k < |c.items| ==>
            (c.items[k].checked <==> q.key in initial && initial[q.key].List?
                                      && OptionTexts(q)[k] in initial[q.key].items))
      && (q.inputType == "radio" && Distinct(OptionTexts(q)) ==>
            forall i, j :: 0 <= i < j < |c.items| ==> !(c.items[i].checked && c.items[j].checked))
  {
  }

  /**
   * Page-specific input attributes: half-hour time steps and counters
   * starting at 1 on the room reservation page, quarter-hour steps and an
   * age between 0 and 15 on the childcare page.
   */
  lemma InputAttributes(q: Question, formName: string, initial: map<string, InitialValue>)
    requires q.inputType in InputTypes
    ensures var c := ControlFor(q, formName, initial).value;
      && c.InputControl?
      && (q.inputType == "time" && formName == RoomReservation ==> c.step == Some(1800))
      && (q.inputType == "time" && formName == ChildcareReservation ==> c.step == Some(900))
      && (formName != RoomReservation && formName != ChildcareReservation ==>
            c.step == None && c.min == None && c.max == None && c.value == InitialText(initial, q.key))
      && (formName == RoomReservation && q.key in {"numberOfWeeks", "participants"} ==>
            c.min == Some(1) && c.value == (if q.key in initial then Some(ValueText(initial[q.key])) else Some("1")))
      && (formName == ChildcareReservation && q.key == "childAge" ==> c.min == Some(0) && c.max == Some(15))
  {
  }

  /**
   * `renderDynamicQuestionsCommon`: sorts the questions in place by order
   * number, then builds one group per question of a known input type.
   */
  method RenderDynamicQuestions(questions: array<Question>, formName: string, initial: map<string, InitialValue>)
    returns (groups: seq<FormGroup>)
    modifies questions
    ensures SortedByOrder(questions[..])
    ensures multiset(questions[..]) == old(multiset(questions[..]))
    ensures groups == GroupsOf(questions[..], formName, initial)
  {
    SortByOrder(questions);
    groups := [];
    var i := 0;
    while i < questions.Length
      invariant 0 <= i <= questions.Length
      invariant groups == GroupsOf(questions[..i], formName, initial)
    {
      var q := questions[i];
      assert questions[..i + 1][..i] == questions[..i];
      var c := ControlFor(q, formName, initial);
      if c.Some? {
        groups := groups + [FormGroup(q.key, q.text + ":", q.required, c.value)];
      }
      i := i + 1;
    }
    assert questions[..i] == questions[..];
  }

  // ---------------------------------------------------------------
  // Collecting the answers
  // ---------------------------------------------------------------

  /** The element found under a question's key. */
  datatype Element =
    | Field(value: string)                                    // an input, a textarea or a single select
    | MultipleSelect(options: seq<MultiSelect.NativeOption>)  // a select with `multiple`
    | ChoiceBox                                               // the div around radio buttons or check boxes

  /** A checked radio button or check box, by name and value. */
  datatype CheckedInput = CheckedInput(name: string, value: string)

  /** The page: its elements by id, and its checked inputs in document order. */
  datatype Page = Page(elements: map<string, Element>, checked: seq<CheckedInput>)

  datatype Answer = TextAnswer(text: string) | ListAnswer(items: seq<string>)

  /** The values of the checked inputs with the given name, in document order. */
  function CheckedValues(checked: seq<CheckedInput>, name: string): (r: seq<string>)
    ensures forall v :: v in r <==> CheckedInput(name, v) in checked
  {
    if checked == [] then []
    else
      (if checked[0].name == name then [checked[0].value] else [])
      + CheckedValues(checked[1..], name)
  }

  /** The value of the first checked input with the given name, or `''`. */
  function FirstCheckedValue(checked: seq<CheckedInput>, name: string): (r: string)
    ensures CheckedValues(checked, name) != [] ==> r == CheckedValues(checked, name)[0]
    ensures CheckedValues(checked, name) == [] ==> r == ""
  {
    if checked == [] then ""
    else if checked[0].name == name then checked[0].value
    else FirstCheckedValue(checked[1..], name)
  }

  /**
   * The answer of one question whose element exists: check boxes give the
   * checked values, radio buttons the checked value or `''`, a multiple
   * select its selected values, anything else its trimmed value. A
   * radio/checkbox div under another input type has no value to trim
   * (None).
   */
  function AnswerOf(q: Question, page: Page): Option<Answer>
    requires q.key in page.elements
  {
    var e := page.elements[q.key];
    if q.inputType == "checkbox" then Some(ListAnswer(CheckedValues(page.checked, q.key)))
    else if q.inputType == "radio" then Some(TextAnswer(FirstCheckedValue(page.checked, q.key)))
    else match e
      case MultipleSelect(options) => Some(ListAnswer(MultiSelect.PreSelected(options)))
      case Field(v) => Some(TextAnswer(Trim(v)))
      case ChoiceBox => None
  }

  /** The data collected from the questions, in order; a later question with the same key wins. */
  function Collected(qs: seq<Question>, page: Page): Option<map<string, Answer>> {
    if qs == [] then Some(map[])
    else
      var q := qs[|qs| - 1];
      match Collected(qs[..|qs| - 1], page)
      case None => None
      case Some(d) =>
        if q.key !in page.elements then Some(d)
        else match AnswerOf(q, page)
          case None => None
          case Some(a) => Some(d[q.key := a])
  }

  /** `getDynamicQuestionsDataCommon`. */
  method GetDynamicQuestionsData(questions: seq<Question>, page: Page) returns (data: Option<map<string, Answer>>)
    ensures data == Collected(questions, page)
  {
    var d: map<string, Answer> := map[];
    var i := 0;
    while i < |questions|
      invariant 0 <= i <= |questions|
      invariant Collected(questions[..i], page) == Some(d)
    {
      var q := questions[i];
      CollectedSnoc(questions, page, i, d);
      if q.key in page.elements {
        var a := AnswerOf(q, page);
        if a.None? {
          NoneStaysNone(questions, page, i + 1);
          return None;
        }
        d := d[q.key := a.value];
      }
      i := i + 1;
    }
    assert questions[..i] == questions;
    return Some(d);
  }

  /** One more question: its answer is added under its key, or it stops the collection. */
  lemma CollectedSnoc(qs: seq<Question>, page: Page, i: nat, d: map<string, Answer>)
    requires i < |qs| && Collected(qs[..i], page) == Some(d)
    ensures qs[i].key !in page.elements ==> Collected(qs[..i + 1], page) == Some(d)
    ensures qs[i].key in page.elements && AnswerOf(qs[i], page).None? ==> Collected(qs[..i + 1], page).None?
    ensures qs[i].key in page.elements && AnswerOf(qs[i], page).Some? ==>
      Collected(qs[..i + 1], page) == Some(d[qs[i].key := AnswerOf(qs[i], page).value])
  {
    assert qs[..i + 1][..i] == qs[..i];
  }

  /** Once a question's answer cannot be read, nothing is collected. */
  lemma {:induction false} NoneStaysNone(qs: seq<Question>, page: Page, n: nat)
    requires n <= |qs| && Collected(qs[..n], page).None?
    ensures Collected(qs, page).None?
    decreases |qs| - n
  {
    if n < |qs| {
      assert qs[..n + 1][..n] == qs[..n];
      NoneStaysNone(qs, page, n + 1);
    } else {
      assert qs[..n] == qs;
    }
  }

  /** Every question's answer can be read: a radio/checkbox div only ever sits under those types. */
  predicate Readable(qs: seq<Question>, page: Page) {
    forall k :: 0 <= k < |qs| && qs[k].key in page.elements && page.elements[qs[k].key] == ChoiceBox ==>
      qs[k].inputType in {"radio", "checkbox"}
  }

  /** On a readable page every answer can be read, so data is collected. */
  lemma {:induction false} CollectedSome(qs: seq<Question>, page: Page)
    requires Readable(qs, page)
    ensures Collected(qs, page).Some?
  {
    if qs != [] {
      var init := qs[..|qs| - 1];
      assert forall k :: 0 <= k < |init| ==> init[k] == qs[k];
      CollectedSome(init, page);
    }
  }

  /** Some question of the list has the key. */
  ghost predicate AsksKey(qs: seq<Question>, key: string) {
    exists k :: 0 <= k < |qs| && qs[k].key == key
  }

  /** A list asks a key when its front does or its last question has it. */
  lemma AsksKeySnoc(qs: seq<Question>, key: string)
    requires qs != []
    ensures AsksKey(qs, key) <==> AsksKey(qs[..|qs| - 1], key) || qs[|qs| - 1].key == key
  {
    var init := qs[..|qs| - 1];
    if AsksKey(qs, key) && qs[|qs| - 1].key != key {
      var k :| 0 <= k < |qs| && qs[k].key == key;
      assert init[k].key == key;
    }
    if AsksKey(init, key) {
      var k :| 0 <= k < |init| && init[k].key == key;
      assert qs[k].key == key;
    }
  }

  /** The data holds exactly the keys of the questions whose element exists. */
  lemma {:induction false} CollectedKeys(qs: seq<Question>, page: Page)
    requires Collected(qs, page).Some?
    ensures forall key :: key in Collected(qs, page).value <==> key in page.elements && AsksKey(qs, key)
  {
    if qs != [] {
      CollectedKeys(qs[..|qs| - 1], page);
      forall key {
        AsksKeySnoc(qs, key);
      }
    }
  }

  /** A key's answer is the answer of the last question with that key. */
  lemma {:induction false} CollectedLastWins(qs: seq<Question>, page: Page, k: nat)
    requires Collected(qs, page).Some?
    requires k < |qs| && qs[k].key in page.elements
    requires forall j :: k < j < |qs| ==> qs[j].key != qs[k].key
    ensures AnswerOf(qs[k], page).Some?
    ensures qs[k].key in Collected(qs, page).value
    ensures Collected(qs, page).value[qs[k].key] == AnswerOf(qs[k], page).value
  {
    var n := |qs| - 1;
    var init := qs[..n];
    if k < n {
      assert init[k] == qs[k];
      CollectedLastWins(init, page, k);
    }
  }

  /** A question whose element is missing adds nothing to the data. */
  lemma MissingElementLeftOut(qs: seq<Question>, page: Page, q: Question)
    requires q.key !in page.elements
    ensures Collected(qs + [q], page) == Collected(qs, page)
  {
    assert (qs + [q])[..|qs|] == qs;
  }
}
