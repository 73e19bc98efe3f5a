/**
 * The main layout's header: the breadcrumb trail computed from the current
 * path, and whether the back button is shown.
 */
module MainLayout {
  import opened Wrappers
  import opened Text
  import opened Breadcrumb

  const DashboardItem: Item := Item("Dashboard", Some("/dashboard"), false)
  const Details: string := "details"

  /** A segment that gets an item: every segment except "details". */
  predicate Kept(seg: string) {
    seg != Details
  }

  /** `filter(Boolean)` on strings: the non-empty ones, in order. */
  function NonEmpty(parts: seq<string>): (r: seq<string>)
    ensures |r| <= |parts|
    ensures forall k :: 0 <= k < |r| ==> r[k] != "" && r[k] in parts
  {
    if parts == [] then []
    else (if parts[0] != "" then [parts[0]] else []) + NonEmpty(parts[1..])
  }

  /** `pathname.split('/').filter(Boolean)`: non-empty segments without '/'. */
  function Segments(path: string): (segs: seq<string>)
    ensures forall k :: 0 <= k < |segs| ==> segs[k] != "" && '/' !in segs[k]
  {
    NonEmpty(Split(path, '/'))
  }

  /** `charAt(0).toUpperCase() + slice(1)`. */
  function Capitalize(seg: string): (r: string)
    ensures |r| == |seg|
    ensures |seg| > 0 ==> r[0] == ToUpperChar(seg[0]) && r[1..] == seg[1..]
  {
    if seg == "" then "" else [ToUpperChar(seg[0])] + seg[1..]
  }

  /** The item for segment j: linked to its path prefix unless it is the last segment. */
  function ItemFor(segs: seq<string>, j: int): (item: Item)
    requires 0 <= j < |segs|
    ensures item.isCurrent <==> j == |segs| - 1
    ensures item.isCurrent <==> item.href.None?
    ensures item.text == Capitalize(segs[j])
    ensures !item.isCurrent ==> item.href == Some("/" + Join(segs[..j + 1], '/'))
  {
    var isLast := j == |segs| - 1;
    Item(Capitalize(segs[j]), if isLast then None else Some("/" + Join(segs[..j + 1], '/')), isLast)
  }

  /** The items of the segments from index i on, "details" skipped. */
  function SegmentItems(segs: seq<string>, i: nat): seq<Item>
    requires i <= |segs|
    decreases |segs| - i
  {
    if i == |segs| then []
    else if !Kept(segs[i]) then SegmentItems(segs, i + 1)
    else [ItemFor(segs, i)] + SegmentItems(segs, i + 1)
  }

  /** `generateBreadcrumbs`: Dashboard, then the items of the segments; TrailItems places each one. */
  function GenerateBreadcrumbs(pathname: Option<string>): (items: seq<Item>)
    ensures !Truthy(pathname) ==> items == []
    ensures Truthy(pathname) ==> |items| >= 1 && items[0] == DashboardItem
    ensures Truthy(pathname) ==> items[1..] == SegmentItems(Segments(pathname.value), 0)
  {
    if !Truthy(pathname) then [] else [DashboardItem] + SegmentItems(Segments(pathname.value), 0)
  }

  function CountKept(segs: seq<string>, i: nat): nat
    requires i <= |segs|
    decreases |segs| - i
  {
    if i == |segs| then 0 else (if Kept(segs[i]) then 1 else 0) + CountKept(segs, i + 1)
  }

  /** One item per segment other than "details". */
  lemma {:induction false} ItemCount(segs: seq<string>, i: nat)
    requires i <= |segs|
    ensures |SegmentItems(segs, i)| == CountKept(segs, i)
    decreases |segs| - i
  {
    if i < |segs| {
      ItemCount(segs, i + 1);
    }
  }

  /** Item k of the items from index i on is the item of some kept segment at or after i. */
  predicate FromKeptSegment(segs: seq<string>, i: nat, k: nat)
    requires i <= |segs| && k < |SegmentItems(segs, i)|
  {
    exists j :: i <= j < |segs| && Kept(segs[j]) && SegmentItems(segs, i)[k] == ItemFor(segs, j)
  }

  /** Every item is the item of some segment other than "details". */
  lemma ItemsFromSegments(segs: seq<string>, i: nat)
    requires i <= |segs|
    ensures forall k: nat :: k < |SegmentItems(segs, i)| ==> FromKeptSegment(segs, i, k)
  {
    forall k: nat | k < |SegmentItems(segs, i)|
      ensures FromKeptSegment(segs, i, k)
    {
      var j := ItemOrigin(segs, i, k);
    }
  }

  /** The segment that item k of the items from index i on comes from. */
  lemma {:induction false} ItemOrigin(segs: seq<string>, i: nat, k: nat) returns (j: nat)
    requires i <= |segs| && k < |SegmentItems(segs, i)|
    ensures i <= j < |segs| && Kept(segs[j]) && SegmentItems(segs, i)[k] == ItemFor(segs, j)
    decreases |segs| - i
  {
    var rest := SegmentItems(segs, i + 1);
    if !Kept(segs[i]) {
      assert SegmentItems(segs, i) == rest;
      j := ItemOrigin(segs, i + 1, k);
    } else if k == 0 {
      j := i;
    } else {
      assert SegmentItems(segs, i) == [ItemFor(segs, i)] + rest;
      j := ItemOrigin(segs, i + 1, k - 1);
    }
  }

  /**
   * Each segment other than "details" has its item at the position given by
   * the number of kept segments before it, so the items follow segment order
   * and each kept segment appears exactly once.
   */
  lemma ItemPositions(segs: seq<string>, i: nat)
    requires i <= |segs|
    ensures forall j :: i <= j < |segs| && Kept(segs[j]) ==>
      (0 <= CountKept(segs, i) - CountKept(segs, j) < |SegmentItems(segs, i)|
       && SegmentItems(segs, i)[CountKept(segs, i) - CountKept(segs, j)] == ItemFor(segs, j))
  {
    forall j | i <= j < |segs| && Kept(segs[j])
      ensures 0 <= CountKept(segs, i) - CountKept(segs, j) < |SegmentItems(segs, i)|
        && SegmentItems(segs, i)[CountKept(segs, i) - CountKept(segs, j)] == ItemFor(segs, j)
    {
      ItemPosition(segs, i, j);
    }
  }

  /** The position of one kept segment's item among the items from index i on. */
  lemma {:induction false} ItemPosition(segs: seq<string>, i: nat, j: nat)
    requires i <= j < |segs| && Kept(segs[j])
    ensures 0 <= CountKept(segs, i) - CountKept(segs, j) < |SegmentItems(segs, i)|
    ensures SegmentItems(segs, i)[CountKept(segs, i) - CountKept(segs, j)] == ItemFor(segs, j)
    decreases j - i
  {
    if i == j {
      assert SegmentItems(segs, i) == [ItemFor(segs, i)] + SegmentItems(segs, i + 1);
    } else {
      ItemPosition(segs, i + 1, j);
      var rest := SegmentItems(segs, i + 1);
      var k := CountKept(segs, i + 1) - CountKept(segs, j);
      if !Kept(segs[i]) {
        assert SegmentItems(segs, i) == rest;
        assert CountKept(segs, i) == CountKept(segs, i + 1);
      } else {
        var items := SegmentItems(segs, i);
        assert items == [ItemFor(segs, i)] + rest;
        assert CountKept(segs, i) == 1 + CountKept(segs, i + 1);
        assert items[k + 1] == rest[k];
      }
    }
  }

  /** In the whole trail, the item of kept segment j follows Dashboard at its place in segment order. */
  lemma TrailItems(pathname: Option<string>)
    requires Truthy(pathname)
    ensures var items := GenerateBreadcrumbs(pathname);
      var segs := Segments(pathname.value);
      |items| == 1 + CountKept(segs, 0)
      && forall j :: 0 <= j < |segs| && Kept(segs[j]) ==>
        (1 <= 1 + CountKept(segs, 0) - CountKept(segs, j) < |items|
         && items[1 + CountKept(segs, 0) - CountKept(segs, j)] == ItemFor(segs, j))
  {
    var segs := Segments(pathname.value);
    ItemCount(segs, 0);
    ItemPositions(segs, 0);
  }

  /** `filter(Boolean)` keeps a list of non-empty strings as it is. */
  lemma {:induction false} NonEmptyKeeps(parts: seq<string>)
    requires forall k :: 0 <= k < |parts| ==> parts[k] != ""
    ensures NonEmpty(parts) == parts
  {
    if parts != [] {
      NonEmptyKeeps(parts[1..]);
      assert [parts[0]] + parts[1..] == parts;
    }
  }

  /**
   * Following the link of a non-last item leads to a path whose segments are
   * exactly the segments up to and including that item's own.
   */
  lemma LinkSegments(pathname: string, j: nat)
    requires j + 1 < |Segments(pathname)|
    ensures var segs := Segments(pathname);
      Segments(ItemFor(segs, j).href.value) == segs[..j + 1]
  {
    var segs := Segments(pathname);
    var prefix := segs[..j + 1];
    assert forall k :: 0 <= k < |prefix| ==> prefix[k] == segs[k];
    PathSegments(prefix);
    assert ItemFor(segs, j).href == Some("/" + Join(prefix, '/'));
  }

  /** "/" followed by segments joined with "/" splits back into those segments. */
  lemma PathSegments(prefix: seq<string>)
    requires |prefix| >= 1
    requires forall k :: 0 <= k < |prefix| ==> prefix[k] != "" && '/' !in prefix[k]
    ensures Segments("/" + Join(prefix, '/')) == prefix
  {
    SplitLeadingSlash(prefix);
    DropEmptyHead(prefix);
    NonEmptyKeeps(prefix);
  }

  lemma SplitLeadingSlash(prefix: seq<string>)
    requires |prefix| >= 1
    requires forall k :: 0 <= k < |prefix| ==> '/' !in prefix[k]
    ensures Split("/" + Join(prefix, '/'), '/') == [""] + prefix
  {
    var joined := Join(prefix, '/');
    SplitJoin(prefix, '/');
    SplitAfterPlain("", '/', joined);
    assert "" + ['/'] + joined == "/" + joined;
  }

  lemma DropEmptyHead(parts: seq<string>)
    ensures NonEmpty([""] + parts) == NonEmpty(parts)
  {
    assert ([""] + parts)[1..] == parts;
  }

  /** No item before the last is current. */
  predicate OnlyLastCurrent(items: seq<Item>) {
    forall k :: 0 <= k < |items| - 1 ==> !items[k].isCurrent
  }

  predicate LastCurrent(items: seq<Item>) {
    |items| > 0 && items[|items| - 1].isCurrent
  }

  /** Putting an item that is not current in front keeps both properties of the rest. */
  lemma ConsNotCurrent(x: Item, rest: seq<Item>)
    requires !x.isCurrent && OnlyLastCurrent(rest)
    ensures OnlyLastCurrent([x] + rest)
    ensures LastCurrent([x] + rest) <==> LastCurrent(rest)
  {
    var items := [x] + rest;
    forall k | 1 <= k < |items| - 1 ensures !items[k].isCurrent {
      assert items[k] == rest[k - 1];
    }
    if |rest| > 0 {
      assert items[|items| - 1] == rest[|rest| - 1];
    }
  }

  /**
   * Only the last item can be current, and it is current exactly when the
   * last segment is not "details".
   */
  lemma {:induction false} CurrentItem(segs: seq<string>, i: nat)
    requires i <= |segs|
    ensures OnlyLastCurrent(SegmentItems(segs, i))
    ensures LastCurrent(SegmentItems(segs, i)) <==> (i < |segs| && Kept(segs[|segs| - 1]))
    decreases |segs| - i
  {
    if i < |segs| {
      CurrentItem(segs, i + 1);
      var rest := SegmentItems(segs, i + 1);
      if Kept(segs[i]) {
        var x := ItemFor(segs, i);
        if i + 1 == |segs| {
          assert SegmentItems(segs, i) == [x] + [];
        } else {
          ConsNotCurrent(x, rest);
        }
      }
    }
  }

  /** In the whole trail the Dashboard item is never current, and only the last item can be. */
  lemma TrailCurrent(pathname: Option<string>)
    requires Truthy(pathname)
    ensures var items := GenerateBreadcrumbs(pathname);
      var segs := Segments(pathname.value);
      OnlyLastCurrent(items)
      && (LastCurrent(items) <==> |segs| > 0 && Kept(segs[|segs| - 1]))
      && |items| == 1 + CountKept(segs, 0)
  {
    var segs := Segments(pathname.value);
    CurrentItem(segs, 0);
    ItemCount(segs, 0);
    ConsNotCurrent(DashboardItem, SegmentItems(segs, 0));
  }

  /** `isDashboardPage` negated: the back button is shown everywhere except on "/dashboard". */
  function BackButtonShown(pathname: Option<string>): (shown: bool)
    ensures !shown <==> pathname == Some("/dashboard")
  {
    pathname != Some("/dashboard")
  }
}
