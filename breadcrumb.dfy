/**
 * The breadcrumb trail: current items render as page text in Title Case,
 * the others as links (to "#" when they have no href), with one separator
 * between each adjacent pair.
 */
module Breadcrumb {
  import opened Wrappers
  import opened Text

  /** A `BreadcrumbItem`; a missing `isCurrent` is false. */
  datatype Item = Item(text: string, href: Option<string>, isCurrent: bool)

  datatype Node = PageText(text: string) | Link(href: string, text: string) | Separator

  /** One word: first character upper-cased, the rest lower-cased. */
  function TitleWord(w: string): (r: string)
    ensures |r| == |w|
    ensures '-' !in w ==> '-' !in r
  {
    if w == [] then [] else
      var r := [ToUpperChar(w[0])] + Lower(w[1..]);
      assert forall k :: 1 <= k < |r| ==> r[k] == ToLowerChar(w[k]);
      r
  }

  function TitleWords(ws: seq<string>): (rs: seq<string>)
    ensures |rs| == |ws|
    ensures forall k :: 0 <= k < |ws| ==> rs[k] == TitleWord(ws[k])
  {
    if ws == [] then [] else [TitleWord(ws[0])] + TitleWords(ws[1..])
  }

  /** `formatBreadcrumbText`: split on '-', title-case each piece, join with single spaces. */
  function FormatBreadcrumbText(s: string): string {
    Join(TitleWords(Split(s, '-')), ' ')
  }

  /** Joining parts of the same lengths gives strings of the same length. */
  lemma {:induction false} JoinLength(a: seq<string>, b: seq<string>, d: char)
    requires |a| == |b| && forall k :: 0 <= k < |a| ==> |a[k]| == |b[k]|
    ensures |Join(a, d)| == |Join(b, d)|
  {
    if |a| > 1 {
      JoinLength(a[1..], b[1..], d);
    }
  }

  /** Every character of a join is the separator or comes from a part. */
  lemma {:induction false} JoinChars(parts: seq<string>, d: char, c: char)
    requires c in Join(parts, d) && c != d
    ensures exists k :: 0 <= k < |parts| && c in parts[k]
  {
    if |parts| > 1 {
      var rest := Join(parts[1..], d);
      assert Join(parts, d) == parts[0] + [d] + rest;
      if c !in parts[0] {
        JoinChars(parts[1..], d, c);
        var k :| 0 <= k < |parts[1..]| && c in parts[1..][k];
        assert parts[k + 1] == parts[1..][k];
      }
    }
  }

  /** The formatted text has no '-' and, since case mapping keeps lengths here, the input's length. */
  lemma FormatProperties(s: string)
    ensures '-' !in FormatBreadcrumbText(s)
    ensures |FormatBreadcrumbText(s)| == |s|
  {
    var parts := Split(s, '-');
    var words := TitleWords(parts);
    JoinLength(words, parts, ' ');
    JoinSplit(s, '-', ' ');
    if '-' in FormatBreadcrumbText(s) {
      JoinChars(words, ' ', '-');
    }
  }

  /** How one item renders. */
  function RenderItem(item: Item): (n: Node)
    ensures n.PageText? <==> item.isCurrent
    ensures n.Link? ==> n.href == OrDefault(item.href, "#") && n.text == item.text
    ensures n.PageText? ==> n.text == FormatBreadcrumbText(item.text)
  {
    if item.isCurrent then PageText(FormatBreadcrumbText(item.text)) else Link(OrDefault(item.href, "#"), item.text)
  }

  /** `Breadcrumb`: each item, followed by a separator unless it is the last. */
  function Render(items: seq<Item>): seq<Node>
  {
    if |items| == 0 then []
    else if |items| == 1 then [RenderItem(items[0])]
    else [RenderItem(items[0]), Separator] + Render(items[1..])
  }

  /** n items give 2n - 1 nodes: items at even positions, separators at odd ones. */
  lemma {:induction false} RenderShape(items: seq<Item>)
    requires |items| >= 1
    ensures |Render(items)| == 2 * |items| - 1
    ensures forall j :: 0 <= j < |Render(items)| ==>
      Render(items)[j] == if j % 2 == 0 then RenderItem(items[j / 2]) else Separator
  {
    if |items| > 1 {
      RenderShape(items[1..]);
      var r := Render(items);
      var rest := Render(items[1..]);
      forall j | 2 <= j < |r| ensures r[j] == if j % 2 == 0 then RenderItem(items[j / 2]) else Separator {
        assert r[j] == rest[j - 2];
        assert items[1..][(j - 2) / 2] == items[j / 2];
      }
    }
  }

  function CountSeparators(nodes: seq<Node>): nat {
    if nodes == [] then 0 else (if nodes[0].Separator? then 1 else 0) + CountSeparators(nodes[1..])
  }

  /** n items render exactly n - 1 separators (none for an empty trail). */
  lemma {:induction false} SeparatorCount(items: seq<Item>)
    ensures CountSeparators(Render(items)) == if |items| == 0 then 0 else |items| - 1
  {
    if |items| > 1 {
      SeparatorCount(items[1..]);
      var r := Render(items);
      assert r[1..][1..] == Render(items[1..]);
    } else if |items| == 1 {
      assert Render(items)[1..] == [];
    }
  }
}
