/**
 * The delimiters of MZTabConstants and the text of a SplitList: its items
 * joined by the list's delimiter, and the missing-value token "null" for a
 * list with no items.
 */
module SplitLists {
  import opened Strings

  const TAB: char := '\t'
  const BAR: char := '|'
  const COMMA: char := ','

  /** The missing-value token. */
  const NULL: string := "null"

  /** SplitList.toString over the texts of the items. */
  function ListText(texts: seq<string>, delim: char): (r: string)
    ensures texts == [] ==> r == NULL
    ensures |texts| == 1 ==> r == texts[0]
  {
    if texts == [] then NULL else Join(texts, delim)
  }

  /**
   * Appending an item to a non-empty list appends the delimiter and the
   * item's text to the list's text.
   */
  lemma {:induction false} ListTextSnoc(texts: seq<string>, x: string, delim: char)
    requires texts != []
    ensures ListText(texts + [x], delim) == ListText(texts, delim) + [delim] + x
  {
    JoinSnoc(texts, x, delim);
  }

  lemma {:induction false} JoinSnoc(items: seq<string>, x: string, delim: char)
    requires items != []
    ensures Join(items + [x], delim) == Join(items, delim) + [delim] + x
  {
    if |items| > 1 {
      assert (items + [x])[1..] == items[1..] + [x];
      JoinSnoc(items[1..], x, delim);
    } else {
      assert items + [x] == [items[0], x];
      assert [items[0], x][1..] == [x];
    }
  }

  /** A list of items free of the delimiter renders with one delimiter fewer than items. */
  lemma ListTextDelimiters(texts: seq<string>, delim: char)
    requires texts != []
    requires forall i :: 0 <= i < |texts| ==> delim !in texts[i]
    ensures multiset(ListText(texts, delim))[delim] == |texts| - 1
  {
    JoinCount(texts, delim);
  }
}
