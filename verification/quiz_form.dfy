/** The quiz editor of the client, shared by the create and edit pages: the
    item list with its bounds, the per-type routing of the answer field, the
    mapping between a served item and the form, and the items sent back to
    the server. A form item is a record of field values, as the page's item
    objects are; a field it lacks reads as undefined. */
module QuizForm {
  import opened Wrappers
  import opened Text
  import opened Records
  import opened SpreadsheetImport

  const MinItems := 5
  const MaxItems := 50

  /** One item of the form: a value per field it holds. */
  type FormItem = map<Field, Cell>

  /** createItem: every field empty except answer letter "a", TRUE for the
      true-or-false answer, timer 30 and points 200. */
  function CreateItem(): FormItem {
    map[Question := Text(""), LetterA := Text(""), LetterB := Text(""), LetterC := Text(""),
        LetterD := Text(""), McAnswer := Text("a"), IAnswer := Text(""), TofAnswer := Text("TRUE"),
        Explanation := Text(""), Timer := Number(Finite(30)), Points := Number(Finite(200))]
  }

  /** A new item holds every field, with the value a rejected spreadsheet
      cell of that field gets. */
  lemma CreateItemMatchesImportDefaults()
    ensures forall f :: f != NoField ==> f in CreateItem() && CreateItem()[f] == Default(f)
  {
    forall f | f != NoField
      ensures f in CreateItem() && CreateItem()[f] == Default(f)
    {
      match f
      case Question =>
      case LetterA =>
      case LetterB =>
      case LetterC =>
      case LetterD =>
      case McAnswer =>
      case IAnswer =>
      case TofAnswer =>
      case Explanation =>
      case Timer =>
      case Points =>
    }
  }

  /** The field an item's answer input writes to, per quiz type. */
  function AnswerField(t: QuizType): (f: Field)
    ensures f in {McAnswer, IAnswer, TofAnswer}
    ensures (f == McAnswer <==> t == MultipleChoice) && (f == IAnswer <==> t == Identification)
  {
    match t
    case MultipleChoice => McAnswer
    case Identification => IAnswer
    case TrueOrFalse => TofAnswer
  }

  /** The fields the choice inputs write to, in letter order. */
  const ChoiceFields: seq<Field> := [LetterA, LetterB, LetterC, LetterD]

  function Get(item: FormItem, f: Field): Option<Cell> {
    if f in item then Some(item[f]) else None
  }

  /** The text fields of the quiz-info card. */
  datatype InfoField = TitleField | DescriptionField | TopicField

  /** The answer as sent: a text (or undefined), or a boolean for true-or-false. */
  datatype WireAnswer = Said(value: Option<Cell>) | Truth(truth: bool)

  /** One item of the `questions` list sent to the server; undefined fields
      are None. Only multiple-choice items carry choices. */
  datatype WireItem = WireItem(
    question: Option<Cell>, choices: seq<Option<Cell>>, answer: WireAnswer,
    explanation: Option<Cell>, timer: Option<Cell>, points: Option<Cell>)

  /** The per-type mapping applied to every item before it is sent, on both
      the create and the edit page. */
  function ToWire(item: FormItem, t: QuizType): WireItem {
    var choices := if t == MultipleChoice then
      [Get(item, LetterA), Get(item, LetterB), Get(item, LetterC), Get(item, LetterD)] else [];
    var answer := if t == TrueOrFalse then Truth(Get(item, TofAnswer) == Some(Text("TRUE")))
      else Said(Get(item, AnswerField(t)));
    WireItem(Get(item, Question), choices, answer, Get(item, Explanation), Get(item, Timer), Get(item, Points))
  }

  /** Only the answer field of the quiz's own type reaches the server: editing
      one of the other two answer fields changes nothing that is sent. */
  lemma OtherAnswerFieldsIgnored(item: FormItem, t: QuizType, f: Field, v: Cell)
    requires f in {McAnswer, IAnswer, TofAnswer} && f != AnswerField(t)
    ensures ToWire(item[f := v], t) == ToWire(item, t)
  {
    var edited := item[f := v];
    assert Get(edited, AnswerField(t)) == Get(item, AnswerField(t));
    assert Get(edited, Question) == Get(item, Question) && Get(edited, Explanation) == Get(item, Explanation);
    assert Get(edited, Timer) == Get(item, Timer) && Get(edited, Points) == Get(item, Points);
    assert Get(edited, LetterA) == Get(item, LetterA) && Get(edited, LetterB) == Get(item, LetterB);
    assert Get(edited, LetterC) == Get(item, LetterC) && Get(edited, LetterD) == Get(item, LetterD);
  }

  /** A true-or-false item is sent as true exactly when its form answer is "TRUE". */
  lemma TrueOrFalseSentAsBoolean(item: FormItem, s: string)
    ensures ToWire(item[TofAnswer := Text(s)], TrueOrFalse).answer == Truth(s == "TRUE")
  {
  }

  /** The load mapping of the edit page: the served fields, and the served
      answer in the current type's answer field with the other two answer
      fields at their defaults. */
  function Load(s: ServedItem, t: QuizType): (r: FormItem)
    ensures Get(r, Question) == Some(Text(s.question)) && Get(r, Explanation) == Some(Text(s.explanation))
    ensures Get(r, Timer) == Some(Number(Finite(s.timer))) && Get(r, Points) == Some(Number(Finite(s.points)))
    ensures forall f :: f in {McAnswer, IAnswer, TofAnswer} ==>
      Get(r, f) == Some(if f == AnswerField(t) then Text(s.answer) else CreateItem()[f])
    ensures t == MultipleChoice && |s.choices| == 4 ==>
      forall k :: 0 <= k < 4 ==> Get(r, ChoiceFields[k]) == Some(Text(s.choices[k]))
  {
    var mc := if t == MultipleChoice then s.answer else "a";
    var ia := if t == Identification then s.answer else "";
    var tof := if t == TrueOrFalse then s.answer else "TRUE";
    var fields := map[Question := Text(s.question), Explanation := Text(s.explanation),
                      Timer := Number(Finite(s.timer)), Points := Number(Finite(s.points)),
                      McAnswer := Text(mc), IAnswer := Text(ia), TofAnswer := Text(tof)];
    if t == MultipleChoice && |s.choices| == 4 then
      fields[LetterA := Text(s.choices[0])][LetterB := Text(s.choices[1])]
            [LetterC := Text(s.choices[2])][LetterD := Text(s.choices[3])]
    else fields
  }

  /** What the form sends for a stored item that the user left untouched. */
  function Encode(item: Item): WireItem
  {
    var choices := if item.key.Choices? then
      [Some(Text(item.key.letterA)), Some(Text(item.key.letterB)),
       Some(Text(item.key.letterC)), Some(Text(item.key.letterD))] else [];
    var answer := match item.key
      case Choices(_, _, _, _, letter) => Said(Some(Text(letter)))
      case Typed(answer) => Said(Some(Text(answer)))
      case Flag(truth) => Truth(truth);
    WireItem(Some(Text(item.question)), choices, answer, Some(Text(item.explanation)),
             Some(Number(Finite(item.timer))), Some(Number(Finite(item.points))))
  }

  /** Opening a stored item in the editor and saving it unchanged sends the
      item back as stored: the letters and answer of a multiple-choice item,
      the typed answer of an identification item, and the boolean of a
      true-or-false item, which travels as "TRUE"/"FALSE" and back. */
  lemma EditRoundTrip(id: int, item: Item, t: QuizType)
    requires Fits(item, t)
    ensures ToWire(Load(Serve(id, item), t), t) == Encode(item)
  {
    var s := Serve(id, item);
    var r := Load(s, t);
    if t == MultipleChoice {
      assert ChoiceFields[0] == LetterA && ChoiceFields[1] == LetterB;
      assert ChoiceFields[2] == LetterC && ChoiceFields[3] == LetterD;
    }
  }

  /** The visibility select's value for a stored flag. */
  function VisibilityText(isPublic: bool): string {
    if isPublic then "public" else "private"
  }

  /** Sent as `visibility === "public"`; the flag survives the round trip. */
  lemma VisibilityRoundTrip(isPublic: bool)
    ensures (VisibilityText(isPublic) == "public") == isPublic
  {
  }

  /** `filter((_, idx) => index !== idx)`: the list without the element at
      `index`, the others in order. */
  function Without<T>(xs: seq<T>, index: int): (r: seq<T>)
    requires 0 <= index < |xs|
    ensures |r| == |xs| - 1
    ensures forall i :: 0 <= i < index ==> r[i] == xs[i]
    ensures forall i :: index <= i < |r| ==> r[i] == xs[i + 1]
    ensures multiset(r) + multiset{xs[index]} == multiset(xs)
  {
    assert xs == xs[..index] + [xs[index]] + xs[index + 1..];
    xs[..index] + xs[index + 1..]
  }

  /** `slice(0, MAX_ITEMS)`. */
  function Capped<T>(xs: seq<T>): (r: seq<T>)
    ensures |r| <= MaxItems && |r| == if |xs| <= MaxItems then |xs| else MaxItems
    ensures r == xs[..|r|]
  {
    if |xs| <= MaxItems then xs else xs[..MaxItems]
  }

  /** `data.map(v => ({...createItem(), ...v}))`: imported partial items
      completed with the defaults, the imported values winning. */
  function Completed(data: seq<FormItem>): (r: seq<FormItem>)
    ensures |r| == |data|
    ensures forall i :: 0 <= i < |data| ==> r[i] == CreateItem() + data[i]
  {
    seq(|data|, i requires 0 <= i < |data| => CreateItem() + data[i])
  }

  /** An imported row, completed, holds for every field either its column's
      checked value or, for a field no column is bound to, the default. */
  lemma ImportedItemFields(row: seq<string>, hs: seq<Field>)
    requires |row| == |hs| && Distinct(hs)
    ensures var item := CreateItem() + MapRow(row, hs);
      && (forall f :: f != NoField && f !in Bound(hs) ==> f in item && item[f] == Default(f))
      && (forall i :: 0 <= i < |hs| && hs[i] != NoField ==> item[hs[i]] == CellValue(hs[i], row[i]))
  {
    CreateItemMatchesImportDefaults();
    MapRowReadsColumns(row, hs);
  }

  /** Appending keeps the existing items first, unchanged, as long as they
      fit the bound. */
  lemma AppendKeepsExisting(existing: seq<FormItem>, data: seq<FormItem>)
    requires |existing| <= MaxItems
    ensures Capped(existing + Completed(data))[..|existing|] == existing
  {
    var all := existing + Completed(data);
    assert all[..|existing|] == existing;
  }

  /** The editor state of the create and edit pages. */
  /** The quiz-info part of the page state (`addQuizState` without its
      errors and button flag). */
  datatype QuizInfo = QuizInfo(title: string, description: string, topic: string,
                               kind: QuizType, visibility: string)

  class Editor {
    var kind: QuizType
    var title: string
    var description: string
    var topic: string
    /** "public" or "private", as the select holds it. */
    var visibility: string
    var items: seq<FormItem>
    var errors: seq<string>
    var buttonEnabled: bool
    /** The quiz info as it was when the create or save button was last
        clicked; the reply handler writes it back. */
    var clicked: QuizInfo

    function Info(): QuizInfo
      reads this
    {
      QuizInfo(title, description, topic, kind, visibility)
    }

    /** The bound every handler keeps. */
    predicate Bounded()
      reads this
    {
      |items| <= MaxItems
    }

    /** The create page: MIN_ITEMS new items of a public multiple-choice quiz. */
    constructor ()
      ensures Bounded()
      ensures kind == MultipleChoice && visibility == "public" && buttonEnabled && errors == []
      ensures title == "" && description == "" && topic == ""
      ensures |items| == MinItems && forall i :: 0 <= i < MinItems ==> items[i] == CreateItem()
    {
      kind := MultipleChoice;
      title := "";
      description := "";
      topic := "";
      visibility := "public";
      items := seq(MinItems, _ => CreateItem());
      errors := [];
      buttonEnabled := true;
      clicked := QuizInfo("", "", "", MultipleChoice, "public");
    }

    /** The edit page after the quiz to edit was fetched. */
    constructor Loaded(record: QuizRecord, served: seq<ServedItem>)
      ensures kind == record.kind && title == record.name && description == record.description
      ensures topic == record.topic && visibility == VisibilityText(record.visibility)
      ensures |items| == |served| && forall i :: 0 <= i < |served| ==> items[i] == Load(served[i], record.kind)
      ensures buttonEnabled && errors == []
    {
      kind := record.kind;
      title := record.name;
      description := record.description;
      topic := record.topic;
      visibility := VisibilityText(record.visibility);
      items := seq(|served|, i requires 0 <= i < |served| => Load(served[i], record.kind));
      errors := [];
      buttonEnabled := true;
      clicked := QuizInfo(title, description, topic, kind, visibility);
    }

    /** The add-item button: a new item at the end while below MAX_ITEMS. */
    method AddItem()
      modifies this
      ensures |old(items)| < MaxItems ==> items == old(items) + [CreateItem()]
      ensures |old(items)| >= MaxItems ==> items == old(items)
      ensures old(Bounded()) ==> Bounded()
      ensures Info() == old(Info()) && errors == old(errors) && buttonEnabled == old(buttonEnabled)
      ensures clicked == old(clicked)
    {
      if |items| < MaxItems {
        items := items + [CreateItem()];
      }
    }

    /** An item's remove button: acts only above MIN_ITEMS, so it never takes
        the list below MIN_ITEMS. */
    method RemoveItem(index: int)
      requires 0 <= index < |items|
      modifies this
      ensures |old(items)| > MinItems ==> items == Without(old(items), index) && |items| >= MinItems
      ensures |old(items)| <= MinItems ==> items == old(items)
      ensures old(Bounded()) ==> Bounded()
      ensures Info() == old(Info()) && errors == old(errors) && buttonEnabled == old(buttonEnabled)
      ensures clicked == old(clicked)
    {
      if |items| > MinItems {
        items := Without(items, index);
      }
    }

    /** changeQuestions: the typed text goes to the given field of the item
        at `index`; nothing else changes. */
    method ChangeQuestion(index: int, f: Field, text: string)
      requires f != NoField
      modifies this
      ensures 0 <= index < |old(items)| ==> items == old(items)[index := old(items)[index][f := Text(text)]]
      ensures !(0 <= index < |old(items)|) ==> items == old(items)
      ensures old(Bounded()) ==> Bounded()
      ensures Info() == old(Info()) && errors == old(errors) && buttonEnabled == old(buttonEnabled)
      ensures clicked == old(clicked)
    {
      if 0 <= index < |items| {
        items := items[index := items[index][f := Text(text)]];
      }
    }

    /** The visibility select. */
    method ChangeVisibility(value: string)
      modifies this
      ensures visibility == value && items == old(items) && kind == old(kind)
      ensures title == old(title) && description == old(description) && topic == old(topic)
      ensures errors == old(errors) && buttonEnabled == old(buttonEnabled) && clicked == old(clicked)
    {
      visibility := value;
    }

    /** changeQuizInfo for the title, description and topic inputs: the one
        field takes the input's value and nothing else changes. */
    method ChangeInfo(key: InfoField, value: string)
      modifies this
      ensures title == (if key == TitleField then value else old(title))
      ensures description == (if key == DescriptionField then value else old(description))
      ensures topic == (if key == TopicField then value else old(topic))
      ensures kind == old(kind) && visibility == old(visibility) && items == old(items)
      ensures errors == old(errors) && buttonEnabled == old(buttonEnabled) && clicked == old(clicked)
    {
      match key {
        case TitleField => title := value;
        case DescriptionField => description := value;
        case TopicField => topic := value;
      }
    }

    /** changeQuizInfo for the type select: only the type changes; the items
        keep every answer field, so switching back restores what was typed. */
    method ChangeType(t: QuizType)
      modifies this
      ensures kind == t && items == old(items) && visibility == old(visibility)
      ensures title == old(title) && description == old(description) && topic == old(topic)
      ensures errors == old(errors) && buttonEnabled == old(buttonEnabled) && clicked == old(clicked)
    {
      kind := t;
    }

    /** Replace from a spreadsheet: the completed imported items, at most
        MAX_ITEMS of them, and the dialog's type. */
    method ReplaceFields(data: seq<FormItem>, t: QuizType)
      modifies this
      ensures items == Capped(Completed(data)) && kind == t
      ensures Bounded() && visibility == old(visibility)
      ensures title == old(title) && description == old(description) && topic == old(topic)
      ensures errors == old(errors) && buttonEnabled == old(buttonEnabled) && clicked == old(clicked)
    {
      items := Capped(Completed(data));
      kind := t;
    }

    /** Append from a spreadsheet: the existing items then the completed
        imported ones, cut at MAX_ITEMS, and the dialog's type. */
    method AppendFields(data: seq<FormItem>, t: QuizType)
      modifies this
      ensures items == Capped(old(items) + Completed(data)) && kind == t
      ensures Bounded() && visibility == old(visibility)
      ensures title == old(title) && description == old(description) && topic == old(topic)
      ensures errors == old(errors) && buttonEnabled == old(buttonEnabled) && clicked == old(clicked)
      ensures |old(items)| <= MaxItems ==> items[..|old(items)|] == old(items)
    {
      if |items| <= MaxItems {
        AppendKeepsExisting(items, data);
      }
      items := Capped(items + Completed(data));
      kind := t;
    }

    /** The items as the save or create request sends them. */
    function Wire(): (r: seq<WireItem>)
      reads this
      ensures |r| == |items| && forall i :: 0 <= i < |items| ==> r[i] == ToWire(items[i], kind)
    {
      seq(|items|, i reads this requires 0 <= i < |items| => ToWire(items[i], kind))
    }

    /** The visibility flag the request sends. */
    predicate IsPublic()
      reads this
    {
      visibility == "public"
    }

    /** The create or save button: the button is disabled, the quiz info
        of this moment is what the reply handler will write back, and the
        items go out in the wire format of the current type. */
    method BeginSubmit() returns (sent: seq<WireItem>, isPublic: bool)
      modifies this
      ensures sent == old(Wire()) && isPublic == old(IsPublic())
      ensures !buttonEnabled && clicked == old(Info())
      ensures Info() == old(Info()) && items == old(items) && errors == old(errors)
    {
      sent := Wire();
      isPublic := IsPublic();
      clicked := Info();
      buttonEnabled := false;
    }

    /** The reply to a create or save request: a 4xx lists the server's
        messages, a 5xx its error; either re-enables the button and puts the
        quiz info back as it was when the button was clicked, since the
        handler spreads the state it captured then. The items are a separate
        state and stay as they are. */
    method Receive(status: int, messages: seq<string>, error: string)
      modifies this
      ensures 400 <= status <= 499 ==> errors == messages && buttonEnabled && Info() == old(clicked)
      ensures 500 <= status <= 599 ==> errors == [error] && buttonEnabled && Info() == old(clicked)
      ensures !(400 <= status <= 599) ==>
        errors == old(errors) && buttonEnabled == old(buttonEnabled) && Info() == old(Info())
      ensures items == old(items) && clicked == old(clicked)
    {
      if 400 <= status <= 599 {
        title := clicked.title;
        description := clicked.description;
        topic := clicked.topic;
        kind := clicked.kind;
        visibility := clicked.visibility;
        errors := if status <= 499 then messages else [error];
        buttonEnabled := true;
      }
    }
  }
}
