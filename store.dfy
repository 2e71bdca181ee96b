/**
 * The formula store: the ordered list of items making up the formula, and the four actions
 * that replace it (append, replace at an index, remove at an index, clear).
 */
module Store {
  import opened Tokens

  /** `s.filter((_, i) => i !== index)`: keeps every element whose position is not `index`. */
  function WithoutIndex<T>(s: seq<T>, index: int): (r: seq<T>)
    ensures |r| == if 0 <= index < |s| then |s| - 1 else |s|
  {
    if s == [] then []
    else WithoutIndex(s[..|s| - 1], index) + (if index == |s| - 1 then [] else [s[|s| - 1]])
  }

  /** Filtering out one position removes exactly that element, keeping the others in order,
      and filtering out a position the sequence does not have keeps it whole. */
  lemma {:induction false} WithoutIndexSplices<T>(s: seq<T>, index: int)
    ensures WithoutIndex(s, index) == if 0 <= index < |s| then s[..index] + s[index + 1..] else s
  {
    if s != [] {
      var n := |s| - 1;
      WithoutIndexSplices(s[..n], index);
      if index == n {
        assert s[..index] + s[index + 1..] == s[..n];
      } else if 0 <= index < n {
        assert s[..n][..index] == s[..index];
        assert s[..n][index + 1..] + [s[n]] == s[index + 1..];
      } else {
        assert s[..n] + [s[n]] == s;
      }
    }
  }

  /** Appending an item and then removing the last position gives the formula back. */
  lemma AddThenRemoveLast<T>(s: seq<T>, item: T)
    ensures WithoutIndex(s + [item], |s|) == s
  {
    WithoutIndexSplices(s + [item], |s|);
    assert (s + [item])[..|s|] == s;
  }

  /** The shared formula store. */
  class FormulaStore {
    var formula: seq<FormulaItem>

    constructor ()
      ensures formula == []
    {
      formula := [];
    }

    /** `addItem`: the item goes at the end, every earlier item stays where it was. */
    method AddItem(item: FormulaItem)
      modifies this
      ensures formula == old(formula) + [item]
    {
      formula := formula + [item];
    }

    /** `updateItem`: the slot at `index` holds `item`, the length and every other slot are kept. */
    method UpdateItem(index: int, item: FormulaItem)
      requires 0 <= index < |formula|
      modifies this
      ensures formula == old(formula)[index := item]
    {
      var newFormula := formula;
      newFormula := newFormula[index := item];
      formula := newFormula;
    }

    /** `removeItem`: the item at `index` is gone and the rest keep their order; an index the
        formula does not have changes nothing. */
    method RemoveItem(index: int)
      modifies this
      ensures 0 <= index < |old(formula)| ==> formula == old(formula)[..index] + old(formula)[index + 1..]
      ensures !(0 <= index < |old(formula)|) ==> formula == old(formula)
    {
      WithoutIndexSplices(formula, index);
      formula := WithoutIndex(formula, index);
    }

    /** `clearFormula`: the formula is empty. */
    method ClearFormula()
      modifies this
      ensures formula == []
    {
      formula := [];
    }
  }

  /** A client of the store: `removeItem` on the last position undoes `addItem`. */
  method AddThenRemove(store: FormulaStore, item: FormulaItem)
    modifies store
    ensures store.formula == old(store.formula)
  {
    store.AddItem(item);
    store.RemoveItem(|store.formula| - 1);
  }
}
