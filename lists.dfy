/** The list renderers `createOrderedList` and `createUnorderedList`: each item
    becomes one `<li>`; an ordered item shows the marker text it was written with,
    an unordered item shows its content only. */
module Lists {
  import opened Text

  /** An item as the converter records it: ordered items keep the matched marker
      (`number`), unordered items a display symbol (`marker`) that no renderer shows. */
  datatype ListItem =
    | Numbered(number: string, content: string)
    | Bulleted(content: string, marker: string)

  /** `item.number || ''`. */
  function NumberOf(item: ListItem): string {
    if item.Numbered? then item.number else ""
  }

  const OlOpen: string := "<ol style=\"list-style-type:none; margin-left:0; padding-left:0;\" data-list-type=\"ordered\">"
  const OlItemOpen: string := "<li style=\"position:relative; padding-left:30px; margin-bottom:5px;\" data-list-type=\"ordered\" data-original-number=\""
  const MarkerOpen: string := "<span style=\"position:absolute; left:0; top:0;\" class=\"list-marker\">"
  const UlOpen: string := "<ul style=\"list-style-type:none; margin-left:0; padding-left:0;\" data-list-type=\"unordered\">"
  const UlItemOpen: string := "<li style=\"position:relative; padding-left:0; margin-bottom:8px; line-height:1.6;\" data-list-type=\"unordered\">"

  /** The marker span, present only when the item has a number. */
  function MarkerSpan(number: string): string {
    if number == "" then "" else MarkerOpen + number + "</span>"
  }

  function OrderedItemHtml(item: ListItem): string {
    OlItemOpen + NumberOf(item) + "\">" + MarkerSpan(NumberOf(item)) + item.content + "</li>"
  }

  /** The items of an ordered list, in order. */
  function OrderedItemsHtml(items: seq<ListItem>): string
    decreases |items|
  {
    if items == [] then "" else OrderedItemsHtml(items[..|items| - 1]) + OrderedItemHtml(items[|items| - 1])
  }

  function UnorderedItemHtml(item: ListItem): string {
    UlItemOpen + item.content + "</li>"
  }

  function UnorderedItemsHtml(items: seq<ListItem>): string
    decreases |items|
  {
    if items == [] then "" else UnorderedItemsHtml(items[..|items| - 1]) + UnorderedItemHtml(items[|items| - 1])
  }

  function OrderedListHtml(items: seq<ListItem>): string {
    OlOpen + OrderedItemsHtml(items) + "</ol>"
  }

  function UnorderedListHtml(items: seq<ListItem>): string {
    UlOpen + UnorderedItemsHtml(items) + "</ul>"
  }

  /** `createOrderedList`: the loop over the items. */
  method CreateOrderedList(items: seq<ListItem>) returns (html: string)
    ensures html == OrderedListHtml(items)
  {
    html := OlOpen;
    var k := 0;
    while k < |items|
      invariant 0 <= k <= |items|
      invariant html == OlOpen + OrderedItemsHtml(items[..k])
    {
      var item := items[k];
      var number := NumberOf(item);
      var span := "";
      if number != "" {
        span := MarkerOpen + number + "</span>";
      }
      var li := OlItemOpen + number + "\">" + span + item.content + "</li>";
      assert items[..k + 1][..k] == items[..k];
      ConcatAssoc(OlOpen, OrderedItemsHtml(items[..k]), li);
      html := html + li;
      k := k + 1;
    }
    assert items[..k] == items;
    html := html + "</ol>";
  }

  /** `createUnorderedList`: the loop over the items. */
  method CreateUnorderedList(items: seq<ListItem>) returns (html: string)
    ensures html == UnorderedListHtml(items)
  {
    html := UlOpen;
    var k := 0;
    while k < |items|
      invariant 0 <= k <= |items|
      invariant html == UlOpen + UnorderedItemsHtml(items[..k])
    {
      var item := items[k];
      var li := UlItemOpen + item.content + "</li>";
      assert items[..k + 1][..k] == items[..k];
      ConcatAssoc(UlOpen, UnorderedItemsHtml(items[..k]), li);
      html := html + li;
      k := k + 1;
    }
    assert items[..k] == items;
    html := html + "</ul>";
  }

  // ---------------------------------------------------------------------
  // Properties
  // ---------------------------------------------------------------------

  /** Each item is rendered on its own, whatever its position: the marker shown is
      the item's own text, never a computed index. */
  lemma {:induction false} OrderedItemsAppend(a: seq<ListItem>, b: seq<ListItem>)
    ensures OrderedItemsHtml(a + b) == OrderedItemsHtml(a) + OrderedItemsHtml(b)
    decreases |b|
  {
    if b == [] {
      assert a + b == a;
    } else {
      var n := |b| - 1;
      assert (a + b)[..|a + b| - 1] == a + b[..n];
      OrderedItemsAppend(a, b[..n]);
      ConcatAssoc(OrderedItemsHtml(a), OrderedItemsHtml(b[..n]), OrderedItemHtml(b[n]));
    }
  }

  lemma {:induction false} UnorderedItemsAppend(a: seq<ListItem>, b: seq<ListItem>)
    ensures UnorderedItemsHtml(a + b) == UnorderedItemsHtml(a) + UnorderedItemsHtml(b)
    decreases |b|
  {
    if b == [] {
      assert a + b == a;
    } else {
      var n := |b| - 1;
      assert (a + b)[..|a + b| - 1] == a + b[..n];
      UnorderedItemsAppend(a, b[..n]);
      ConcatAssoc(UnorderedItemsHtml(a), UnorderedItemsHtml(b[..n]), UnorderedItemHtml(b[n]));
    }
  }

  /** No marker is shown in an unordered list: two lists whose items have the same
      contents render the same, whatever symbols were recorded. */
  lemma {:induction false} UnorderedIgnoresMarkers(a: seq<ListItem>, b: seq<ListItem>)
    requires |a| == |b|
    requires forall k :: 0 <= k < |a| ==> a[k].content == b[k].content
    ensures UnorderedListHtml(a) == UnorderedListHtml(b)
  {
    UnorderedContentsDecide(a, b);
  }

  lemma {:induction false} UnorderedContentsDecide(a: seq<ListItem>, b: seq<ListItem>)
    requires |a| == |b|
    requires forall k :: 0 <= k < |a| ==> a[k].content == b[k].content
    ensures UnorderedItemsHtml(a) == UnorderedItemsHtml(b)
    decreases |a|
  {
    if a != [] {
      var n := |a| - 1;
      UnorderedContentsDecide(a[..n], b[..n]);
    }
  }
}
