/**
 * The tokens a formula is made of (`FormulaItem`) and the rules that turn the pending text
 * into a token when it is committed, by Enter or by an operator key.
 */
module Tokens {
  import opened Wrappers
  import opened Strings
  import opened Numbers

  /** The `TOKEN_TYPES` tags an item's `type` field holds. */
  datatype Kind = Variable | Operator | Number | Text

  /** `OPERATORS`: the symbols that are operators, both as keys and as committed text. */
  const Operators: seq<string> := ["+", "-", "*", "/", "^", "(", ")"]

  /** Membership in `Operators`, decided on the one character every operator has. */
  predicate IsOperator(s: string) {
    |s| == 1 && s[0] in "+-*/^()"
  }

  lemma OperatorsAreSymbols(s: string)
    ensures s in Operators <==> IsOperator(s)
  {
    if IsOperator(s) {
      var c := s[0];
      assert s == [c];
      if c == '+' { assert s == Operators[0]; }
      else if c == '-' { assert s == Operators[1]; }
      else if c == '*' { assert s == Operators[2]; }
      else if c == '/' { assert s == Operators[3]; }
      else if c == '^' { assert s == Operators[4]; }
      else if c == '(' { assert s == Operators[5]; }
      else { assert s == Operators[6]; }
    }
  }

  /** An item's `value`: a number or a string. */
  datatype Value = Num(n: Decimal) | Str(s: string)

  /** A `FormulaItem`; `kind` is its `type` tag, `name` and `id` its optional fields. */
  datatype FormulaItem = FormulaItem(kind: Kind, value: Value, name: Option<string>, id: Option<string>)

  /** The item a chosen suggestion becomes: its id and name, with the value 0. */
  function VariableItem(id: string, name: string): FormulaItem {
    FormulaItem(Variable, Num(Decimal(0, 0)), Some(name), Some(id))
  }

  function NumberItem(d: Decimal): FormulaItem {
    FormulaItem(Number, Num(d), None, None)
  }

  function OperatorItem(symbol: string): FormulaItem {
    FormulaItem(Operator, Str(symbol), None, None)
  }

  function TextItem(text: string): FormulaItem {
    FormulaItem(Text, Str(text), None, None)
  }

  /**
   * The shape of every item the editor creates: a Variable carries a name and an id and the
   * value 0, and no other kind carries either; a Number holds a number in canonical form,
   * an Operator one of `Operators`, a Text a non-empty string with no white space at its ends.
   */
  predicate WellFormed(t: FormulaItem) {
    if t.kind == Variable then
      t.name.Some? && t.id.Some? && t.value == Num(Decimal(0, 0))
    else
      t.name.None? && t.id.None? &&
      ((t.kind == Number && t.value.Num? && Normal(t.value.n))
       || (t.kind == Operator && t.value.Str? && IsOperator(t.value.s))
       || (t.kind == Text && t.value.Str? && Trimmed(t.value.s)))
  }

  /** Non-empty text with no white space at either end: what `trim` leaves of non-blank text. */
  predicate Trimmed(s: string) {
    s != [] && !IsWhiteSpace(s[0]) && !IsWhiteSpace(s[|s| - 1])
  }

  predicate AllWellFormed(f: seq<FormulaItem>) {
    forall k :: 0 <= k < |f| ==> WellFormed(f[k])
  }

  /** Appending well-formed items to a well-formed formula keeps it well formed. */
  lemma AppendWellFormed(a: seq<FormulaItem>, b: seq<FormulaItem>)
    requires AllWellFormed(a) && AllWellFormed(b)
    ensures AllWellFormed(a + b)
  {
    forall k | 0 <= k < |a + b| ensures WellFormed((a + b)[k]) {
      if k < |a| {
        assert (a + b)[k] == a[k];
      } else {
        assert (a + b)[k] == b[k - |a|];
      }
    }
  }

  /** Every operator is a single printable character: `trim` keeps it and `parseFloat` rejects it. */
  lemma OperatorSymbol(s: string)
    requires IsOperator(s)
    ensures Trim(s) == s
    ensures ParseFloat(s) == None
  {
    assert s == [s[0]];
    assert ' ' < s[0] < '\U{00A0}';
    TrimmedText(s);
    SymbolIsNotANumber(s[0]);
  }

  /**
   * The item Enter commits for non-blank pending text: a Number when `parseFloat` reads one,
   * otherwise an Operator when the trimmed text is an operator, otherwise the trimmed text.
   */
  function EnterItem(input: string): (t: FormulaItem)
    requires Trim(input) != ""
    ensures WellFormed(t)
  {
    match ParseFloat(input)
    case Some(d) => NumberItem(d)
    case None =>
      if IsOperator(Trim(input)) then OperatorItem(Trim(input)) else TextItem(Trim(input))
  }

  /**
   * The item an operator key commits for non-blank pending text: a Number when `parseFloat`
   * reads one, otherwise the trimmed text, even when that text is itself an operator.
   */
  function FlushItem(input: string): (t: FormulaItem)
    requires Trim(input) != ""
    ensures WellFormed(t) && t.kind != Operator
  {
    match ParseFloat(input)
    case Some(d) => NumberItem(d)
    case None =>
      TextItem(Trim(input))
  }

  /** What an operator key commits before its own symbol: nothing for blank pending text, else one item. */
  function FlushItems(input: string): (ts: seq<FormulaItem>)
    ensures |ts| == if Trim(input) == "" then 0 else 1
    ensures forall k :: 0 <= k < |ts| ==> WellFormed(ts[k]) && ts[k].kind != Operator
  {
    if Trim(input) == "" then [] else [FlushItem(input)]
  }

  /** An operator key commits what Enter would, except that operator text stays Text. */
  lemma FlushAgreesWithEnter(input: string)
    requires Trim(input) != ""
    ensures EnterItem(input).kind != Operator ==> FlushItem(input) == EnterItem(input)
    ensures EnterItem(input).kind == Operator ==> FlushItem(input) == TextItem(EnterItem(input).value.s)
  {
  }

  /** Enter classifies non-blank text as exactly one of Number, Operator and Text, in that priority. */
  lemma EnterClassification(input: string)
    requires Trim(input) != ""
    ensures var t := EnterItem(input);
      (t.kind == Number <==> ParseFloat(input).Some?)
      && (t.kind == Operator <==> ParseFloat(input).None? && IsOperator(Trim(input)))
      && (t.kind == Text <==> ParseFloat(input).None? && !IsOperator(Trim(input)))
      && (t.kind == Number ==> t.value == Num(ParseFloat(input).value))
      && (t.kind != Number ==> t.value == Str(Trim(input)))
  {
  }

  /** An operator typed as text and committed with Enter becomes that Operator, never a Number. */
  lemma EnterOperatorText(s: string)
    requires IsOperator(s)
    ensures Trim(s) == s
    ensures EnterItem(s) == OperatorItem(s)
  {
    OperatorSymbol(s);
  }

  /** Committing "3abc" with Enter gives the Number 3, since `parseFloat` reads the prefix. */
  lemma EnterNumericPrefix()
    ensures Trim("3abc") == "3abc"
    ensures EnterItem("3abc") == NumberItem(Decimal(3, 0))
  {
    assert "3abc"[0] == '3' && "3abc"[3] == 'c';
    TrimmedText("3abc");
    ParseFloatReadsPrefix();
  }
}
