/**
 * The recent-query combo box and `add_recent_query`, which lus4n/gui.py and
 * lus4n/ui/query_tab.py both carry: the query moves to the top, its earlier
 * entry is removed, and the list is cut back to ten items.
 */
module Recent {
  import opened Seqs

  /** How many recent queries the combo box keeps. */
  const MAX_RECENT: nat := 10

  function Min(a: nat, b: nat): nat {
    if a <= b then a else b
  }

  /** A combo box's item texts in display order, with the Qt operations the query code uses. */
  class RecentCombo {
    var items: seq<string>

    constructor ()
      ensures items == []
    {
      items := [];
    }

    function Count(): (n: nat)
      reads this
      ensures n == |items|
    {
      |items|
    }

    /** `itemText`: the text at an index, or "" for an index out of range. */
    function ItemText(i: int): (text: string)
      reads this
      ensures 0 <= i < |items| ==> text == items[i]
      ensures !(0 <= i < |items|) ==> text == ""
    {
      if 0 <= i < |items| then items[i] else ""
    }

    /** `findText`: the index of the first item with this text, or -1. */
    function FindText(text: string): (i: int)
      reads this
      ensures -1 <= i < |items|
      ensures i == -1 <==> text !in items
      ensures i >= 0 ==> items[i] == text && text !in items[..i]
    {
      IndexOf(items, text)
    }

    /** `removeItem`: an index out of range leaves the box as it is. */
    method RemoveItem(i: int)
      modifies this
      ensures 0 <= i < |old(items)| ==> items == old(items)[..i] + old(items)[i + 1..]
      ensures !(0 <= i < |old(items)|) ==> items == old(items)
    {
      if 0 <= i < |items| {
        items := items[..i] + items[i + 1..];
      }
    }

    /** `insertItem`: an index past the end appends. */
    method InsertItem(i: nat, text: string)
      modifies this
      ensures i <= |old(items)| ==> items == old(items)[..i] + [text] + old(items)[i..]
      ensures i > |old(items)| ==> items == old(items) + [text]
      ensures i == 0 ==> items == [text] + old(items)
    {
      if i == 0 {
        items := [text] + items;
      } else if i <= |items| {
        items := items[..i] + [text] + items[i..];
      } else {
        items := items + [text];
      }
    }

    method Clear()
      modifies this
      ensures items == []
    {
      items := [];
    }

    method AddItems(texts: seq<string>)
      modifies this
      ensures items == old(items) + texts
    {
      items := items + texts;
    }
  }

  /** The items without the first occurrence of `q`. */
  function WithoutFirst(items: seq<string>, q: string): (r: seq<string>)
    ensures q in items ==> |r| == |items| - 1
    ensures q !in items ==> r == items
  {
    var i := IndexOf(items, q);
    if i == -1 then items else items[..i] + items[i + 1..]
  }

  /** The list `add_recent_query(q)` leaves. */
  function WithRecent(items: seq<string>, q: string): seq<string> {
    var all := [q] + WithoutFirst(items, q);
    all[..Min(|all|, MAX_RECENT)]
  }

  /** `add_recent_query` on a combo box. */
  method AddRecent(combo: RecentCombo, q: string)
    modifies combo
    ensures combo.items == WithRecent(old(combo.items), q)
  {
    MoveToTop(combo, q);
    Truncate(combo);
  }

  /** The first half of `add_recent_query`: drop the earlier entry, insert at the top. */
  method MoveToTop(combo: RecentCombo, q: string)
    modifies combo
    ensures combo.items == [q] + WithoutFirst(old(combo.items), q)
  {
    RemoveEarlier(combo, q);
    combo.InsertItem(0, q);
  }

  /** The query's earlier entry, if any, is removed. */
  method RemoveEarlier(combo: RecentCombo, q: string)
    modifies combo
    ensures combo.items == WithoutFirst(old(combo.items), q)
  {
    var found := combo.FindText(q);
    if found != -1 {
      combo.RemoveItem(found);
    }
  }

  /** The second half: remove the last item while there are more than ten. */
  method Truncate(combo: RecentCombo)
    modifies combo
    ensures combo.items == old(combo.items)[..Min(|old(combo.items)|, MAX_RECENT)]
  {
    ghost var all := combo.items;
    while combo.Count() > MAX_RECENT
      invariant |combo.items| <= |all|
      invariant combo.items == all[..|combo.items|]
      invariant MAX_RECENT <= |combo.items| || combo.items == all
      decreases |combo.items|
    {
      combo.RemoveItem(combo.Count() - 1);
    }
  }

  /**
   * After `add_recent_query(q)` the list starts with `q`, holds at most ten
   * items, and continues with the other items in their old order; if the old
   * list had no repeats, neither has the new one, so `q` is in it once.
   */
  lemma WithRecentProperties(items: seq<string>, q: string)
    ensures var r := WithRecent(items, q);
            && 1 <= |r| <= MAX_RECENT && r[0] == q
            && (Distinct(items) ==> Distinct(r) && Count(r, q) == 1)
            && (Distinct(items) ==> r[1..] <= Filter(items, x => x != q))
            && (|items| < MAX_RECENT ==> |r| == |WithoutFirst(items, q)| + 1)
  {
    var rest := WithoutFirst(items, q);
    var r := WithRecent(items, q);
    if Distinct(items) {
      WithoutFirstIsFilter(items, q);
      FilterDistinct(items, x => x != q);
      PrependFresh(q, rest);
      assert r == ([q] + rest)[..|r|];
      PrefixDistinct([q] + rest, |r|);
      CountDistinct(r, q);
      assert r[1..] == rest[..|r| - 1];
    }
  }

  lemma PrependFresh(q: string, rest: seq<string>)
    requires Distinct(rest) && q !in rest
    ensures Distinct([q] + rest)
  {
    forall i, j | 0 <= i < j < |[q] + rest| ensures ([q] + rest)[i] != ([q] + rest)[j] {
      assert ([q] + rest)[j] == rest[j - 1];
      if i > 0 {
        assert ([q] + rest)[i] == rest[i - 1];
      }
    }
  }

  lemma PrefixDistinct(s: seq<string>, k: nat)
    requires Distinct(s) && k <= |s|
    ensures Distinct(s[..k])
  {
  }

  /** Without repeats, removing the first occurrence removes every occurrence. */
  lemma {:induction false} WithoutFirstIsFilter(items: seq<string>, q: string)
    requires Distinct(items)
    ensures WithoutFirst(items, q) == Filter(items, x => x != q)
    decreases |items|
  {
    if |items| > 0 {
      var init := items[..|items| - 1];
      var last := items[|items| - 1];
      assert items == init + [last];
      assert Distinct(init);
      WithoutFirstIsFilter(init, q);
      FilterSnoc(init, last, q);
      WithoutFirstSnoc(init, last, q);
    }
  }

  /** Removing the first occurrence from a list one item longer. */
  lemma WithoutFirstSnoc(init: seq<string>, last: string, q: string)
    requires Distinct(init + [last])
    ensures WithoutFirst(init + [last], q)
            == if last == q then init else WithoutFirst(init, q) + [last]
  {
    var items := init + [last];
    IndexOfSnoc(init, last, q);
    if last == q {
      assert q !in init by {
        assert items[|init|] == q;
      }
      assert items[..|init|] == init;
    } else if q in init {
      var i := IndexOf(init, q);
      assert items[..i] == init[..i];
      assert items[i + 1..] == init[i + 1..] + [last];
    } else {
      assert q !in items;
    }
  }

  lemma FilterSnoc(init: seq<string>, last: string, q: string)
    ensures Filter(init + [last], x => x != q)
            == Filter(init, x => x != q) + (if last != q then [last] else [])
  {
    assert (init + [last])[..|init + [last]| - 1] == init;
  }

  lemma IndexOfSnoc(init: seq<string>, last: string, q: string)
    ensures q in init ==> IndexOf(init + [last], q) == IndexOf(init, q)
    ensures q !in init && last == q ==> IndexOf(init + [last], q) == |init|
  {
    var items := init + [last];
    var i := IndexOf(items, q);
    if q in init {
      var j := IndexOf(init, q);
      assert items[j] == q;
    }
  }
}
