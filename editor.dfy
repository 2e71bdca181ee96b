/**
 * The formula editor component: the pending text in the input box, whether the suggestion
 * list is open, the highlighted suggestion, and the shared formula. `EditorState` is that state as
 * a value and the functions below are its transitions, one per event handler; the class
 * `FormulaInput` holds the same state in fields and its methods perform the handlers on the
 * store, each proved to agree with the transition it implements.
 */
module Editor {
  import opened Wrappers
  import opened Strings
  import opened Numbers
  import opened Tokens
  import opened Store
  import opened Suggestions

  /** The component's state: `inputValue`, `showSuggestions`, `selectedSuggestion` and the formula. */
  datatype EditorState = EditorState(input: string, showSuggestions: bool, selected: int, formula: seq<FormulaItem>)

  /** The keys the key handler tells apart; `Other` carries any other key's name. */
  datatype Key = Enter | ArrowUp | ArrowDown | Escape | Backspace | Other(name: string)

  /** The `e.key` names the switch has a case of its own for, besides the operators. */
  const NamedKeys: set<string> := {"Enter", "ArrowUp", "ArrowDown", "Escape", "Backspace"}

  /** The case `switch (e.key)` selects for a key name: a named case, or `Other` for any other name. */
  function KeyOf(name: string): (k: Key)
    ensures k.Other? <==> name !in NamedKeys
    ensures k.Other? ==> k.name == name
    ensures k == Enter <==> name == "Enter"
    ensures k == ArrowUp <==> name == "ArrowUp"
    ensures k == ArrowDown <==> name == "ArrowDown"
    ensures k == Escape <==> name == "Escape"
    ensures k == Backspace <==> name == "Backspace"
  {
    if name == "Enter" then Enter
    else if name == "ArrowUp" then ArrowUp
    else if name == "ArrowDown" then ArrowDown
    else if name == "Escape" then Escape
    else if name == "Backspace" then Backspace
    else Other(name)
  }

  /** How a key press ends: normally, saying whether the browser's default action was
      prevented, or with a `TypeError` thrown before any state changed. */
  datatype Outcome = Handled(defaultPrevented: bool) | Threw

  datatype KeyResult = KeyResult(next: EditorState, outcome: Outcome)

  /** The state when the component first renders over a formula. */
  function Initial(formula: seq<FormulaItem>): EditorState {
    EditorState("", false, 0, formula)
  }

  /**
   * `handleInputChange`: the box holds `value`; the list opens with the first entry highlighted
   * when `value` is not blank, and closes (keeping the highlight) when it is.
   */
  function InputChanged(e: EditorState, value: string): EditorState {
    if Trim(value) != "" then e.(input := value, showSuggestions := true, selected := 0)
    else e.(input := value, showSuggestions := false)
  }

  /** `selectSuggestion`: appends the suggestion as a Variable, empties the box and closes the list. */
  function SuggestionSelected(e: EditorState, s: Suggestion): EditorState {
    e.(formula := e.formula + [VariableItem(s.id, s.name)], input := "", showSuggestions := false)
  }

  /** The Clear button: the formula is emptied and nothing else changes. */
  function Cleared(e: EditorState): EditorState {
    e.(formula := [])
  }

  /**
   * The "Enter" case: with the list open and non-empty it picks the highlighted entry, and a
   * highlight off the list makes `selectSuggestion` read a field of `undefined`, which throws;
   * otherwise non-blank pending text is committed as one item.
   */
  function EnterPressed(e: EditorState, suggestions: seq<Suggestion>): KeyResult {
    if e.showSuggestions && |suggestions| > 0 then
      if 0 <= e.selected < |suggestions| then
        KeyResult(SuggestionSelected(e, suggestions[e.selected]), Handled(true))
      else
        KeyResult(e, Threw)
    else if Trim(e.input) != "" then
      KeyResult(e.(formula := e.formula + [EnterItem(e.input)], input := "", showSuggestions := false), Handled(false))
    else
      KeyResult(e, Handled(false))
  }

  /** The "ArrowUp" and "ArrowDown" cases: move the highlight while the list is open. */
  function ArrowPressed(e: EditorState, up: bool, count: nat): KeyResult {
    if !e.showSuggestions then KeyResult(e, Handled(false))
    else if up then KeyResult(e.(selected := CursorUp(e.selected, count)), Handled(true))
    else KeyResult(e.(selected := CursorDown(e.selected, count)), Handled(true))
  }

  /** The "Backspace" case: with an empty box, removes the last item of a non-empty formula. */
  function BackspacePressed(e: EditorState): KeyResult {
    if e.input == "" && |e.formula| > 0 then
      KeyResult(e.(formula := WithoutIndex(e.formula, |e.formula| - 1)), Handled(true))
    else
      KeyResult(e, Handled(false))
  }

  /** The operator cases, and the default case for any other key. */
  function OtherPressed(e: EditorState, name: string): KeyResult {
    if IsOperator(name) then
      KeyResult(e.(formula := e.formula + FlushItems(e.input) + [OperatorItem(name)], input := "", showSuggestions := false),
                Handled(true))
    else
      KeyResult(e, Handled(false))
  }

  /** `handleKeyDown` for one key, given the suggestion list the query currently holds. */
  function KeyPressed(e: EditorState, key: Key, suggestions: seq<Suggestion>): KeyResult {
    match key
    case Enter => EnterPressed(e, suggestions)
    case ArrowUp => ArrowPressed(e, true, |suggestions|)
    case ArrowDown => ArrowPressed(e, false, |suggestions|)
    case Escape => KeyResult(e.(showSuggestions := false), Handled(false))
    case Backspace => BackspacePressed(e)
    case Other(name) => OtherPressed(e, name)
  }

  /** Typing opens the list, with the first entry highlighted, exactly when the text is not blank;
      the formula is never touched. */
  lemma InputChangeVisibility(e: EditorState, value: string)
    ensures var n := InputChanged(e, value);
      n.input == value && n.formula == e.formula
      && (n.showSuggestions <==> !IsBlank(value))
      && (!IsBlank(value) ==> n.selected == 0)
      && (IsBlank(value) ==> n.selected == e.selected)
  {
  }

  /** Enter with the list closed or empty commits the non-blank pending text as exactly one item,
      the one `EnterItem` classifies, after the items already there, and empties the box. */
  lemma EnterCommitsPendingText(e: EditorState, suggestions: seq<Suggestion>)
    requires !(e.showSuggestions && |suggestions| > 0) && !IsBlank(e.input)
    ensures var r := EnterPressed(e, suggestions);
      |r.next.formula| == |e.formula| + 1
      && r.next.formula[..|e.formula|] == e.formula
      && r.next.formula[|e.formula|] == EnterItem(e.input)
      && r.next.input == "" && !r.next.showSuggestions && r.next.selected == e.selected
      && r.outcome == Handled(false)
  {
    var r := EnterPressed(e, suggestions);
    assert r.next.formula[..|e.formula|] == e.formula;
  }

  /** Enter on blank pending text, with the list closed or empty, changes nothing. */
  lemma EnterOnBlankChangesNothing(e: EditorState, suggestions: seq<Suggestion>)
    requires !(e.showSuggestions && |suggestions| > 0) && IsBlank(e.input)
    ensures EnterPressed(e, suggestions) == KeyResult(e, Handled(false))
  {
  }

  /** Enter with the list open picks the highlighted entry exactly when the highlight is on the
      list, appending it as a Variable; otherwise it throws and leaves the state as it was. */
  lemma EnterPicksHighlighted(e: EditorState, suggestions: seq<Suggestion>)
    requires e.showSuggestions && |suggestions| > 0
    ensures var r := EnterPressed(e, suggestions);
      (r.outcome.Threw? <==> !(0 <= e.selected < |suggestions|))
      && (r.outcome.Threw? ==> r.next == e)
      && (!r.outcome.Threw? ==>
            r.next.formula == e.formula + [VariableItem(suggestions[e.selected].id, suggestions[e.selected].name)]
            && r.next.input == "" && !r.next.showSuggestions && r.next.selected == e.selected
            && r.outcome == Handled(true))
  {
  }

  /**
   * The highlight can leave the list: text typed while the query is still loading opens an
   * empty list, ArrowUp then moves the highlight to -1, and Enter after the entries arrive throws.
   */
  lemma StaleHighlightThrows(f: seq<FormulaItem>, s: Suggestion)
    ensures var typed := InputChanged(Initial(f), "a");
      var up := KeyPressed(typed, ArrowUp, []);
      up.next.selected == -1
      && KeyPressed(up.next, Enter, [s]) == KeyResult(up.next, Threw)
  {
    assert Trim("a") != "" by {
      assert !IsWhiteSpace("a"[0]);
    }
  }

  /** ArrowUp and ArrowDown move the highlight only while the list is open, keep it on a
      non-empty list, and touch neither the text nor the formula. */
  lemma NavigationStaysOnList(e: EditorState, up: bool, count: nat)
    ensures var r := ArrowPressed(e, up, count);
      r.next.formula == e.formula && r.next.input == e.input
      && r.next.showSuggestions == e.showSuggestions
      && (!e.showSuggestions ==> r.next == e)
      && (e.showSuggestions && 0 <= e.selected < count ==> 0 <= r.next.selected < count)
      && r.outcome == Handled(e.showSuggestions)
  {
    if e.showSuggestions && 0 <= e.selected < count {
      CursorStaysOnList(e.selected, count);
    }
  }

  /** ArrowUp then ArrowDown on an open list puts the highlight back where it was. */
  lemma UpThenDownRestores(e: EditorState, count: nat)
    requires e.showSuggestions && 0 <= e.selected < count
    ensures ArrowPressed(ArrowPressed(e, true, count).next, false, count).next == e
  {
    CursorUpDownInverse(e.selected, count);
  }

  /** Backspace removes the last item exactly when the box is empty and the formula is not. */
  lemma BackspacePopsOnEmptyInput(e: EditorState)
    ensures var r := BackspacePressed(e);
      r.next.input == e.input && r.next.showSuggestions == e.showSuggestions && r.next.selected == e.selected
      && (e.input == "" && |e.formula| > 0 ==> r.next.formula == e.formula[..|e.formula| - 1] && r.outcome == Handled(true))
      && (!(e.input == "" && |e.formula| > 0) ==> r.next == e && r.outcome == Handled(false))
  {
    if e.input == "" && |e.formula| > 0 {
      WithoutIndexSplices(e.formula, |e.formula| - 1);
    }
  }

  /** The layout of a sequence built as `a + g + [x]`. */
  lemma AppendLayout<T>(a: seq<T>, g: seq<T>, x: T)
    ensures var r := a + g + [x];
      |r| == |a| + |g| + 1 && r[..|a|] == a && r[|r| - 1] == x
      && (|g| > 0 ==> r[|a|] == g[0])
  {
    assert (a + g + [x])[..|a|] == a;
  }

  /** An operator key commits the pending text (nothing when blank, one item otherwise) and then
      the operator itself, after the items already there, empties the box and closes the list. */
  lemma OperatorKeyFlushesThenAppends(e: EditorState, symbol: string)
    requires IsOperator(symbol)
    ensures var r := OtherPressed(e, symbol);
      var n := |e.formula|;
      |r.next.formula| == n + (if IsBlank(e.input) then 1 else 2)
      && r.next.formula[..n] == e.formula
      && r.next.formula[|r.next.formula| - 1] == OperatorItem(symbol)
      && r.next.input == "" && !r.next.showSuggestions && r.next.selected == e.selected
      && r.outcome == Handled(true)
  {
    AppendLayout(e.formula, FlushItems(e.input), OperatorItem(symbol));
  }

  /** What an operator key commits for non-blank pending text is `FlushItem`'s item, never an Operator. */
  lemma OperatorKeyFlushedItem(e: EditorState, symbol: string)
    requires IsOperator(symbol) && !IsBlank(e.input)
    ensures var f := OtherPressed(e, symbol).next.formula;
      f[|e.formula|] == FlushItem(e.input) && f[|e.formula|].kind != Operator
  {
    AppendLayout(e.formula, FlushItems(e.input), OperatorItem(symbol));
  }

  /** Backspace right after an operator key removes just the operator. */
  lemma BackspaceUndoesOperator(e: EditorState, symbol: string)
    requires IsOperator(symbol)
    ensures BackspacePressed(OtherPressed(e, symbol).next).next.formula == e.formula + FlushItems(e.input)
  {
    AddThenRemoveLast(e.formula + FlushItems(e.input), OperatorItem(symbol));
  }

  /** A key the switch has no case for, neither a named key nor an operator, changes nothing. */
  lemma OtherKeysChangeNothing(e: EditorState, name: string, suggestions: seq<Suggestion>)
    requires !IsOperator(name) && name !in NamedKeys
    ensures KeyPressed(e, KeyOf(name), suggestions) == KeyResult(e, Handled(false))
  {
  }

  /** Escape closes the list and changes nothing else, without `preventDefault`. */
  lemma EscapeClosesList(e: EditorState, suggestions: seq<Suggestion>)
    ensures KeyPressed(e, Escape, suggestions) == KeyResult(e.(showSuggestions := false), Handled(false))
    ensures var n := KeyPressed(e, Escape, suggestions).next;
      !n.showSuggestions && n.input == e.input && n.selected == e.selected && n.formula == e.formula
  {
  }

  /**
   * The handler prevents the browser's default action exactly when it consumed the key: Enter
   * picking an entry, an arrow key on the open list, Backspace removing an item, an operator key.
   */
  lemma PreventsDefaultExactly(e: EditorState, key: Key, suggestions: seq<Suggestion>)
    ensures KeyPressed(e, key, suggestions).outcome == Handled(true) <==>
      (key == Enter && e.showSuggestions && |suggestions| > 0 && 0 <= e.selected < |suggestions|)
      || ((key == ArrowUp || key == ArrowDown) && e.showSuggestions)
      || (key == Backspace && e.input == "" && |e.formula| > 0)
      || (key.Other? && IsOperator(key.name))
  {
  }

  /** Only Enter with the highlight off an open, non-empty list throws. */
  lemma OnlyStaleEnterThrows(e: EditorState, key: Key, suggestions: seq<Suggestion>)
    ensures KeyPressed(e, key, suggestions).outcome.Threw? <==>
      key == Enter && e.showSuggestions && |suggestions| > 0 && !(0 <= e.selected < |suggestions|)
  {
  }

  lemma EnterPreservesWellFormed(e: EditorState, suggestions: seq<Suggestion>)
    requires AllWellFormed(e.formula)
    ensures AllWellFormed(EnterPressed(e, suggestions).next.formula)
  {
  }

  lemma BackspacePreservesWellFormed(e: EditorState)
    requires AllWellFormed(e.formula)
    ensures AllWellFormed(BackspacePressed(e).next.formula)
  {
    if e.input == "" && |e.formula| > 0 {
      WithoutIndexSplices(e.formula, |e.formula| - 1);
    }
  }

  lemma OtherPreservesWellFormed(e: EditorState, name: string)
    requires AllWellFormed(e.formula)
    ensures AllWellFormed(OtherPressed(e, name).next.formula)
  {
    if IsOperator(name) {
      var g := e.formula + FlushItems(e.input);
      AppendWellFormed(e.formula, FlushItems(e.input));
      AppendWellFormed(g, [OperatorItem(name)]);
    }
  }

  /** Every handler keeps every item of the formula well formed. */
  lemma EventsPreserveWellFormed(e: EditorState, key: Key, value: string, s: Suggestion, suggestions: seq<Suggestion>)
    requires AllWellFormed(e.formula)
    ensures AllWellFormed(KeyPressed(e, key, suggestions).next.formula)
    ensures AllWellFormed(InputChanged(e, value).formula)
    ensures AllWellFormed(SuggestionSelected(e, s).formula)
    ensures AllWellFormed(Cleared(e).formula)
  {
    match key {
      case Enter => EnterPreservesWellFormed(e, suggestions);
      case Backspace => BackspacePreservesWellFormed(e);
      case Other(name) => OtherPreservesWellFormed(e, name);
      case _ =>
    }
  }

  /** Typing "3" and pressing "+" commits the Number 3 and then the Operator "+". */
  lemma TypeNumberThenOperator()
    ensures var typed := InputChanged(Initial([]), "3");
      var r := KeyPressed(typed, Other("+"), []);
      r.next == EditorState("", false, 0, [NumberItem(Decimal(3, 0)), OperatorItem("+")])
  {
    var three := "3";
    assert three[..1] == "3" && DigitsValue("3") == 3;
    ParseFloatWholeNumber(three, 1);
    TrimmedText(three);
  }

  /** The component: its own state in fields, the formula in the shared store. */
  class FormulaInput {
    var inputValue: string
    var showSuggestions: bool
    var selectedSuggestion: int
    const store: FormulaStore

    /** The component's state as a value. */
    function State(): EditorState
      reads this, store
    {
      EditorState(inputValue, showSuggestions, selectedSuggestion, store.formula)
    }

    /** The first render: an empty box, the list closed, the first entry highlighted. */
    constructor (store: FormulaStore)
      ensures this.store == store
      ensures State() == Initial(store.formula)
    {
      this.store := store;
      inputValue := "";
      showSuggestions := false;
      selectedSuggestion := 0;
    }

    /** `handleInputChange`. */
    method HandleInputChange(value: string)
      modifies this
      ensures State() == InputChanged(old(State()), value)
    {
      inputValue := value;
      if Trim(value) != "" {
        showSuggestions := true;
        selectedSuggestion := 0;
      } else {
        showSuggestions := false;
      }
    }

    /** `selectSuggestion`: `addItem` of the Variable, then the box is emptied and the list closed. */
    method SelectSuggestion(s: Suggestion)
      modifies this, store
      ensures State() == SuggestionSelected(old(State()), s)
    {
      store.AddItem(VariableItem(s.id, s.name));
      inputValue := "";
      showSuggestions := false;
    }

    /** The "Enter" case of `handleKeyDown`. */
    method HandleEnter(suggestions: seq<Suggestion>) returns (outcome: Outcome)
      modifies this, store
      ensures KeyResult(State(), outcome) == EnterPressed(old(State()), suggestions)
    {
      if showSuggestions && |suggestions| > 0 {
        if !(0 <= selectedSuggestion < |suggestions|) {
          return Threw;
        }
        SelectSuggestion(suggestions[selectedSuggestion]);
        outcome := Handled(true);
      } else if Trim(inputValue) != "" {
        store.AddItem(EnterItem(inputValue));
        inputValue := "";
        showSuggestions := false;
        outcome := Handled(false);
      } else {
        outcome := Handled(false);
      }
    }

    /** The "ArrowUp" (`up`) and "ArrowDown" cases of `handleKeyDown`. */
    method HandleArrow(up: bool, suggestions: seq<Suggestion>) returns (outcome: Outcome)
      modifies this
      ensures KeyResult(State(), outcome) == ArrowPressed(old(State()), up, |suggestions|)
    {
      if showSuggestions {
        if up {
          selectedSuggestion := CursorUp(selectedSuggestion, |suggestions|);
        } else {
          selectedSuggestion := CursorDown(selectedSuggestion, |suggestions|);
        }
        outcome := Handled(true);
      } else {
        outcome := Handled(false);
      }
    }

    /** The "Backspace" case of `handleKeyDown`. */
    method HandleBackspace() returns (outcome: Outcome)
      modifies store
      ensures KeyResult(State(), outcome) == BackspacePressed(old(State()))
    {
      if inputValue == "" && |store.formula| > 0 {
        WithoutIndexSplices(store.formula, |store.formula| - 1);
        store.RemoveItem(|store.formula| - 1);
        outcome := Handled(true);
      } else {
        outcome := Handled(false);
      }
    }

    /** What an operator key commits of the pending text: one `addItem` when it is not blank. */
    method FlushPending()
      modifies store
      ensures store.formula == old(store.formula) + FlushItems(inputValue)
    {
      if Trim(inputValue) != "" {
        store.AddItem(FlushItem(inputValue));
      }
    }

    /** The operator cases of `handleKeyDown`. */
    method HandleOperator(name: string) returns (outcome: Outcome)
      requires IsOperator(name)
      modifies this, store
      ensures KeyResult(State(), outcome) == OtherPressed(old(State()), name)
    {
      FlushPending();
      store.AddItem(OperatorItem(name));
      inputValue := "";
      showSuggestions := false;
      outcome := Handled(true);
    }

    /** The operator cases of `handleKeyDown`, and its default case. */
    method HandleOther(name: string) returns (outcome: Outcome)
      modifies this, store
      ensures KeyResult(State(), outcome) == OtherPressed(old(State()), name)
    {
      if IsOperator(name) {
        outcome := HandleOperator(name);
      } else {
        outcome := Handled(false);
      }
    }

    /** `handleKeyDown`: the new state and the outcome are those `KeyPressed` gives. */
    method HandleKeyDown(key: Key, suggestions: seq<Suggestion>) returns (outcome: Outcome)
      modifies this, store
      ensures KeyResult(State(), outcome) == KeyPressed(old(State()), key, suggestions)
    {
      match key {
        case Enter =>
          outcome := HandleEnter(suggestions);
        case ArrowUp =>
          outcome := HandleArrow(true, suggestions);
        case ArrowDown =>
          outcome := HandleArrow(false, suggestions);
        case Escape =>
          showSuggestions := false;
          outcome := Handled(false);
        case Backspace =>
          outcome := HandleBackspace();
        case Other(name) =>
          outcome := HandleOther(name);
      }
    }

    /** `handleKeyDown` for the event's `e.key` string: the case the switch selects for it. */
    method HandleKeyEvent(name: string, suggestions: seq<Suggestion>) returns (outcome: Outcome)
      modifies this, store
      ensures KeyResult(State(), outcome) == KeyPressed(old(State()), KeyOf(name), suggestions)
    {
      outcome := HandleKeyDown(KeyOf(name), suggestions);
    }

    /** The Clear button: `setState({ formula: [] })` on the store. */
    method ClickClear()
      modifies store
      ensures State() == Cleared(old(State()))
    {
      store.formula := [];
    }
  }
}
