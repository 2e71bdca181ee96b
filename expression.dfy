/**
 * The text `evaluateFormula` builds from the formula before it hands it to `eval`: each token
 * is mapped to a value (a Variable, a Number or an Operator to its own value, anything else to
 * 0) and the values are joined with single spaces.
 */
module Expression {
  import opened Wrappers
  import opened Strings
  import opened Numbers
  import opened Tokens

  /** The value the map in `evaluateFormula` gives a token. */
  function Contribution(t: FormulaItem): Value {
    if t.kind == Variable || t.kind == Number || t.kind == Operator then t.value else Num(Decimal(0, 0))
  }

  /** How `join` turns a value into text: a string as it is, a number as JavaScript prints it. */
  function Render(v: Value): string {
    match v
    case Str(s) => s
    case Num(d) => NumberText(d)
  }

  /** The text one token contributes to the expression. */
  function Word(t: FormulaItem): string {
    Render(Contribution(t))
  }

  function Words(f: seq<FormulaItem>): (ws: seq<string>)
    ensures |ws| == |f|
    ensures forall k :: 0 <= k < |f| ==> ws[k] == Word(f[k])
  {
    if f == [] then [] else [Word(f[0])] + Words(f[1..])
  }

  /** `formula.map(...).join(" ")`. */
  function Serialize(f: seq<FormulaItem>): string {
    Join(Words(f), " ")
  }

  /**
   * What each well-formed token contributes: an Operator its symbol, a Number a text that
   * `parseFloat` reads back as that same number, and a Variable or a Text the text "0";
   * no contribution is empty or holds a space.
   */
  lemma WordOf(t: FormulaItem)
    requires WellFormed(t)
    ensures t.kind == Operator ==> Word(t) == t.value.s
    ensures t.kind == Number ==> ParseFloat(Word(t)) == Some(t.value.n)
    ensures t.kind == Variable || t.kind == Text ==> Word(t) == "0"
    ensures Word(t) != [] && ' ' !in Word(t)
  {
    if t.kind == Number {
      NumberTextRoundTrip(t.value.n);
    } else if t.kind == Variable || t.kind == Text {
      NumberTextOfWhole(0);
    }
  }

  /** The joined text splits back, at its spaces, into the tokens' contributions, one per token. */
  lemma SerializeSplits(f: seq<FormulaItem>)
    requires |f| >= 1 && AllWellFormed(f)
    ensures Split(Serialize(f), ' ') == Words(f)
  {
    var ws := Words(f);
    forall k | 0 <= k < |ws| ensures ' ' !in ws[k] {
      WordOf(f[k]);
    }
    SplitJoin(ws, ' ');
  }

  /** An empty formula gives the empty expression, and a non-empty well-formed one never does. */
  lemma SerializeEmpty(f: seq<FormulaItem>)
    requires AllWellFormed(f)
    ensures Serialize(f) == "" <==> f == []
  {
    if f != [] {
      WordOf(f[0]);
      JoinStartsWithFirst(Words(f), " ");
    }
  }

  lemma {:induction false} JoinStartsWithFirst(parts: seq<string>, sep: string)
    requires |parts| >= 1
    ensures parts[0] <= Join(parts, sep)
  {
  }

  /**
   * Reading the joined text back: it has one word per token, an Operator's word is its symbol,
   * a Number's word parses to the number, and every other token's word is "0".
   */
  lemma SerializeReadsBack(f: seq<FormulaItem>)
    requires |f| >= 1 && AllWellFormed(f)
    ensures var ws := Split(Serialize(f), ' ');
      |ws| == |f|
      && (forall k :: 0 <= k < |f| && f[k].kind == Operator ==> ws[k] == f[k].value.s)
      && (forall k :: 0 <= k < |f| && f[k].kind == Number ==> ParseFloat(ws[k]) == Some(f[k].value.n))
      && (forall k :: 0 <= k < |f| && f[k].kind in {Variable, Text} ==> ws[k] == "0")
  {
    SerializeSplits(f);
    forall k | 0 <= k < |f| ensures Split(Serialize(f), ' ')[k] == Word(f[k]) {
    }
    forall k | 0 <= k < |f| ensures WellFormed(f[k]) {
    }
    forall k | 0 <= k < |f| && f[k].kind == Number ensures ParseFloat(Word(f[k])) == Some(f[k].value.n) {
      WordOf(f[k]);
    }
    forall k | 0 <= k < |f| && f[k].kind in {Variable, Text} ensures Word(f[k]) == "0" {
      WordOf(f[k]);
    }
  }

  /** The formula 2 + 3 * 4 becomes the expression "2 + 3 * 4". */
  lemma SerializeExample()
    ensures Serialize([NumberItem(Decimal(2, 0)), OperatorItem("+"), NumberItem(Decimal(3, 0)),
                       OperatorItem("*"), NumberItem(Decimal(4, 0))]) == "2 + 3 * 4"
  {
    NumberTextOfWhole(2);
    NumberTextOfWhole(3);
    NumberTextOfWhole(4);
  }
}
