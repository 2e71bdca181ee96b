/**
 * The autocomplete side of the editor: the name filter applied to what the suggestion service
 * returns, and the cyclic cursor that ArrowUp and ArrowDown move over the list.
 */
module Suggestions {
  import opened Wrappers
  import opened Strings

  /** An entry of the suggestion list. */
  datatype Suggestion = Suggestion(id: string, name: string)

  /** The entry's lower-cased name contains the lower-cased query. */
  predicate Matches(s: Suggestion, query: string) {
    Includes(ToLower(s.name), ToLower(query))
  }

  /** `items.filter(keep)`: the entries `keep` accepts, in their original order. */
  function Filter<T(!new)>(items: seq<T>, keep: T -> bool): (r: seq<T>)
    ensures |r| <= |items|
    ensures forall x :: x in r <==> x in items && keep(x)
  {
    if items == [] then []
    else
      var rest := Filter(items[1..], keep);
      assert forall x :: x in items <==> x == items[0] || x in items[1..];
      (if keep(items[0]) then [items[0]] else []) + rest
  }

  /** Filtering keeps the order of the list: the filter of a concatenation is the concatenation of the filters. */
  lemma {:induction false} FilterAppend<T(!new)>(a: seq<T>, b: seq<T>, keep: T -> bool)
    ensures Filter(a + b, keep) == Filter(a, keep) + Filter(b, keep)
  {
    if a == [] {
      assert a + b == b;
    } else {
      var head := if keep(a[0]) then [a[0]] else [];
      assert (a + b)[0] == a[0];
      assert (a + b)[1..] == a[1..] + b;
      assert Filter(a + b, keep) == head + Filter(a[1..] + b, keep);
      FilterAppend(a[1..], b, keep);
      assert head + (Filter(a[1..], keep) + Filter(b, keep)) == (head + Filter(a[1..], keep)) + Filter(b, keep);
    }
  }

  /** A filter that accepts every entry keeps the whole list. */
  lemma {:induction false} FilterKeepsAll<T(!new)>(items: seq<T>, keep: T -> bool)
    requires forall x :: x in items ==> keep(x)
    ensures Filter(items, keep) == items
  {
    if items != [] {
      assert items[0] in items;
      assert forall x :: x in items[1..] ==> x in items;
      FilterKeepsAll(items[1..], keep);
    }
  }

  /** Two tests that agree on every entry filter alike. */
  lemma {:induction false} FilterAgrees<T(!new)>(items: seq<T>, keep: T -> bool, keep': T -> bool)
    requires forall x :: x in items ==> keep(x) == keep'(x)
    ensures Filter(items, keep) == Filter(items, keep')
  {
    if items != [] {
      assert items[0] in items;
      assert forall x :: x in items[1..] ==> x in items;
      FilterAgrees(items[1..], keep, keep');
    }
  }

  /** `data.filter(item => item.name.toLowerCase().includes(query.toLowerCase()))`. */
  function FilterByName(items: seq<Suggestion>, query: string): (r: seq<Suggestion>)
    ensures |r| <= |items|
    ensures forall s :: s in r <==> s in items && Matches(s, query)
  {
    Filter(items, s => Matches(s, query))
  }

  /** Filtering by name keeps the order of the list. */
  lemma FilterByNameAppend(a: seq<Suggestion>, b: seq<Suggestion>, query: string)
    ensures FilterByName(a + b, query) == FilterByName(a, query) + FilterByName(b, query)
  {
    FilterAppend(a, b, s => Matches(s, query));
  }

  /** Every name contains the empty string, so a blank query keeps the whole list. */
  lemma FilterByEmptyQuery(items: seq<Suggestion>)
    ensures FilterByName(items, "") == items
  {
    assert ToLower("") == "";
    forall s | s in items ensures Matches(s, "") {
      assert "" <= ToLower(s.name)[0..];
    }
    FilterKeepsAll(items, s => Matches(s, ""));
  }

  /** The filter ignores the case of the query's ASCII letters. */
  lemma FilterIgnoresQueryCase(items: seq<Suggestion>, query: string)
    ensures FilterByName(items, ToLower(query)) == FilterByName(items, query)
  {
    ToLowerIdempotent(query);
    FilterAgrees(items, s => Matches(s, ToLower(query)), s => Matches(s, query));
  }

  /** `fetchSuggestions`: the filtered response, or the empty list when the request failed. */
  function FetchSuggestions(response: Option<seq<Suggestion>>, query: string): (r: seq<Suggestion>)
    ensures response.None? ==> r == []
    ensures response.Some? ==> forall s :: s in r <==> s in response.value && Matches(s, query)
  {
    match response
    case None => []
    case Some(data) => FilterByName(data, query)
  }

  /** ArrowUp's update of `selectedSuggestion` over a list of `count` entries. */
  function CursorUp(prev: int, count: nat): int {
    if prev > 0 then prev - 1 else count - 1
  }

  /** ArrowDown's update of `selectedSuggestion` over a list of `count` entries. */
  function CursorDown(prev: int, count: nat): int {
    if prev < count - 1 then prev + 1 else 0
  }

  /** On a non-empty list the cursor never leaves it, and it wraps around at both ends. */
  lemma CursorStaysOnList(prev: int, count: nat)
    requires 0 <= prev < count
    ensures 0 <= CursorUp(prev, count) < count && 0 <= CursorDown(prev, count) < count
    ensures prev == 0 ==> CursorUp(prev, count) == count - 1
    ensures prev == count - 1 ==> CursorDown(prev, count) == 0
  {
  }

  /** ArrowDown undoes ArrowUp and ArrowUp undoes ArrowDown on a non-empty list. */
  lemma CursorUpDownInverse(prev: int, count: nat)
    requires 0 <= prev < count
    ensures CursorDown(CursorUp(prev, count), count) == prev
    ensures CursorUp(CursorDown(prev, count), count) == prev
  {
  }

  /** The cursor after `steps` presses of ArrowDown. */
  function CursorDownTimes(prev: int, count: nat, steps: nat): int {
    if steps == 0 then prev else CursorDown(CursorDownTimes(prev, count, steps - 1), count)
  }

  lemma MulAtLeast(k: int, m: int)
    requires k >= 1 && m > 0
    ensures k * m >= m
  {
  }

  lemma DivModInt(x: int, m: int)
    requires m > 0
    ensures x == (x / m) * m + x % m && 0 <= x % m < m
  {
  }

  /** The remainder is the unique `r` in `[0, m)` with `x == q * m + r`. */
  lemma ModUnique(x: int, m: int, q: int, r: int)
    requires m > 0 && 0 <= r < m && x == q * m + r
    ensures x % m == r
  {
    var d, r' := x / m, x % m;
    assert x == d * m + r';
    assert (d - q) * m == r - r';
    if d > q {
      MulAtLeast(d - q, m);
    } else if d < q {
      MulAtLeast(q - d, m);
    }
  }

  /** One press of ArrowDown adds one to the position, modulo the length. */
  lemma CursorDownStep(x: nat, count: nat)
    requires count > 0
    ensures CursorDown(x % count, count) == (x + 1) % count
  {
    DivModInt(x, count);
    var q, c := x / count, x % count;
    if c < count - 1 {
      ModUnique(x + 1, count, q, c + 1);
    } else {
      ModUnique(x + 1, count, q + 1, 0);
    }
  }

  /** ArrowDown walks the list cyclically: `steps` presses move the cursor `steps` places, modulo the length. */
  lemma {:induction false} CursorDownCycles(prev: int, count: nat, steps: nat)
    requires 0 <= prev < count
    ensures CursorDownTimes(prev, count, steps) == (prev + steps) % count
  {
    if steps == 0 {
      ModUnique(prev, count, 0, prev);
    } else {
      CursorDownCycles(prev, count, steps - 1);
      CursorDownStep(prev + steps - 1, count);
    }
  }
}
