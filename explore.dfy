/** The explore screen's two-column masonry layout (app/Explore.jsx). */
module Explore {
  import opened Wrappers
  import opened Text
  import opened Schema

  /** A post as the layout sees it. `content` and `file` are what the screen's query
      returns; `postText` and `postImage` are the two properties the height estimate reads,
      which fetched rows do not carry (the renaming happens only when a card is rendered). */
  datatype Item = Item(postId: PostId, content: Option<string>, file: Option<string>,
                       postText: Option<string>, postImage: Option<string>)

  /** A row as the explore query delivers it: no `postText`, no `postImage`. */
  function FetchedRow(postId: PostId, content: Option<string>, file: Option<string>): Item {
    Item(postId, content, file, None, None)
  }

  const MaxCardHeight := 380

  /** `calculateCardHeight`: 150, plus 30 with text, plus 200 with an image. */
  function CardHeight(item: Item): (h: nat)
    ensures h == 150 || h == 180 || h == 350 || h == 380
    ensures h >= 350 <==> IsTruthy(item.postImage)
    ensures (h == 180 || h == 380) <==> IsTruthy(item.postText)
  {
    var baseHeight := 150;
    var withText := if IsTruthy(item.postText) then baseHeight + 30 else baseHeight;
    if IsTruthy(item.postImage) then withText + 200 else withText
  }

  /** The layout after some posts: the two columns and their running heights. */
  datatype Layout = Layout(col0: seq<Item>, col1: seq<Item>, h0: int, h1: int)

  /** The column the next post goes to: 0 unless column 0 is strictly taller. */
  function ShorterColumn(l: Layout): nat {
    if l.h0 <= l.h1 then 0 else 1
  }

  function Column(l: Layout, k: nat): seq<Item> {
    if k == 0 then l.col0 else l.col1
  }

  /** One step of the greedy walk. */
  function Place(l: Layout, item: Item): Layout {
    if ShorterColumn(l) == 0 then l.(col0 := l.col0 + [item], h0 := l.h0 + CardHeight(item))
    else l.(col1 := l.col1 + [item], h1 := l.h1 + CardHeight(item))
  }

  /** The layout the greedy walk produces for `posts`, taken in order. */
  function LayoutOf(posts: seq<Item>): Layout
    decreases |posts|
  {
    if posts == [] then Layout([], [], 0, 0)
    else Place(LayoutOf(posts[..|posts| - 1]), posts[|posts| - 1])
  }

  /** The `columns` memo: walks the posts, appends each to the shorter column (ties to
      column 0) and adds its card height to that column's accumulator. */
  method Columns(posts: seq<Item>) returns (columns: seq<seq<Item>>)
    ensures |columns| == 2
    ensures columns[0] == LayoutOf(posts).col0 && columns[1] == LayoutOf(posts).col1
    ensures posts == [] ==> columns == [[], []]
  {
    var tempColumns := new seq<Item>[2](_ => []);
    var columnHeights := new int[2](_ => 0);
    var i := 0;
    while i < |posts|
      invariant 0 <= i <= |posts|
      invariant LayoutOf(posts[..i])
             == Layout(tempColumns[0], tempColumns[1], columnHeights[0], columnHeights[1])
    {
      var item := posts[i];
      var cardHeight := CardHeight(item);
      var shorterColumn := if columnHeights[0] <= columnHeights[1] then 0 else 1;
      tempColumns[shorterColumn] := tempColumns[shorterColumn] + [item];
      columnHeights[shorterColumn] := columnHeights[shorterColumn] + cardHeight;
      assert posts[..i + 1][..i] == posts[..i];
      i := i + 1;
    }
    assert posts[..|posts|] == posts;
    columns := tempColumns[..];
  }

  function SumHeights(items: seq<Item>): int
    decreases |items|
  {
    if items == [] then 0 else SumHeights(items[..|items| - 1]) + CardHeight(items[|items| - 1])
  }

  /** Each accumulator is the total card height of its column. */
  lemma {:induction false} HeightsAreColumnSums(posts: seq<Item>)
    ensures LayoutOf(posts).h0 == SumHeights(LayoutOf(posts).col0)
    ensures LayoutOf(posts).h1 == SumHeights(LayoutOf(posts).col1)
    decreases |posts|
  {
    if posts != [] {
      var l := LayoutOf(posts[..|posts| - 1]);
      HeightsAreColumnSums(posts[..|posts| - 1]);
      var x := posts[|posts| - 1];
      assert (l.col0 + [x])[..|l.col0|] == l.col0;
      assert (l.col1 + [x])[..|l.col1|] == l.col1;
    }
  }

  /** After every step the columns differ in height by at most one card. */
  lemma {:induction false} ColumnsStayBalanced(posts: seq<Item>)
    ensures -MaxCardHeight <= LayoutOf(posts).h0 - LayoutOf(posts).h1 <= MaxCardHeight
    ensures LayoutOf(posts).h0 >= 0 && LayoutOf(posts).h1 >= 0
    decreases |posts|
  {
    if posts != [] {
      ColumnsStayBalanced(posts[..|posts| - 1]);
    }
  }

  /** The next post goes to column 0 exactly when column 0 is not taller (ties included),
      and the other column is left as it was. */
  lemma NextPostColumn(posts: seq<Item>, x: Item)
    ensures var l := LayoutOf(posts); var l' := LayoutOf(posts + [x]);
      if l.h0 <= l.h1 then l'.col0 == l.col0 + [x] && l'.col1 == l.col1
      else l'.col1 == l.col1 + [x] && l'.col0 == l.col0
  {
    assert (posts + [x])[..|posts|] == posts;
  }

  /** The input positions that end up in column `k`, in increasing order. */
  ghost function Slots(posts: seq<Item>, k: nat): seq<nat>
    decreases |posts|
  {
    if posts == [] then []
    else
      var pre := posts[..|posts| - 1];
      Slots(pre, k) + (if ShorterColumn(LayoutOf(pre)) == k then [|pre|] else [])
  }

  /** Column `k` lists exactly the posts at its slots, and the slots increase: within a
      column, posts keep their input order. */
  lemma {:induction false} ColumnsKeepInputOrder(posts: seq<Item>, k: nat)
    requires k < 2
    ensures |Column(LayoutOf(posts), k)| == |Slots(posts, k)|
    ensures forall j :: 0 <= j < |Slots(posts, k)| ==>
      Slots(posts, k)[j] < |posts| && Column(LayoutOf(posts), k)[j] == posts[Slots(posts, k)[j]]
    ensures forall a, b :: 0 <= a < b < |Slots(posts, k)| ==> Slots(posts, k)[a] < Slots(posts, k)[b]
    decreases |posts|
  {
    if posts != [] {
      var pre := posts[..|posts| - 1];
      var x := posts[|posts| - 1];
      var l := LayoutOf(pre);
      var slots := Slots(pre, k);
      ColumnsKeepInputOrder(pre, k);
      assert LayoutOf(posts) == Place(l, x);
      forall j | 0 <= j < |slots| ensures posts[slots[j]] == pre[slots[j]] {
      }
      if ShorterColumn(l) == k {
        assert Slots(posts, k) == slots + [|pre|];
        assert Column(LayoutOf(posts), k) == Column(l, k) + [x];
      } else {
        assert Slots(posts, k) == slots;
        assert Column(LayoutOf(posts), k) == Column(l, k);
      }
    }
  }

  /** Every input position is in exactly one column. */
  lemma {:induction false} ColumnsPartitionPositions(posts: seq<Item>)
    ensures forall i :: 0 <= i < |posts| ==> (i in Slots(posts, 0) <==> i !in Slots(posts, 1))
    ensures forall i :: i in Slots(posts, 0) || i in Slots(posts, 1) ==> 0 <= i < |posts|
    decreases |posts|
  {
    if posts != [] {
      var pre := posts[..|posts| - 1];
      ColumnsPartitionPositions(pre);
      var n := |pre|;
      if ShorterColumn(LayoutOf(pre)) == 0 {
        assert Slots(posts, 0) == Slots(pre, 0) + [n];
        assert Slots(posts, 1) == Slots(pre, 1);
      } else {
        assert Slots(posts, 0) == Slots(pre, 0);
        assert Slots(posts, 1) == Slots(pre, 1) + [n];
      }
    }
  }

  /** One placement adds the post to the columns' combined contents. */
  lemma PlaceAddsItem(l: Layout, x: Item)
    ensures |Place(l, x).col0| + |Place(l, x).col1| == |l.col0| + |l.col1| + 1
    ensures multiset(Place(l, x).col0) + multiset(Place(l, x).col1)
         == multiset(l.col0) + multiset(l.col1) + multiset{x}
  {
    if ShorterColumn(l) == 0 {
      assert multiset(l.col0 + [x]) == multiset(l.col0) + multiset{x};
    } else {
      assert multiset(l.col1 + [x]) == multiset(l.col1) + multiset{x};
    }
  }

  /** Together the columns hold the input posts, each as often as it occurs in the input. */
  lemma {:induction false} ColumnsPermuteInput(posts: seq<Item>)
    ensures |LayoutOf(posts).col0| + |LayoutOf(posts).col1| == |posts|
    ensures multiset(LayoutOf(posts).col0) + multiset(LayoutOf(posts).col1) == multiset(posts)
    decreases |posts|
  {
    if posts != [] {
      var pre := posts[..|posts| - 1];
      var x := posts[|posts| - 1];
      ColumnsPermuteInput(pre);
      PlaceAddsItem(LayoutOf(pre), x);
      assert posts == pre + [x];
      assert multiset(posts) == multiset(pre) + multiset{x};
    }
  }

  /** As wired, fetched rows lack `postText` and `postImage`, so every card is 150 high
      and the posts alternate: even positions in column 0, odd positions in column 1. */
  lemma {:induction false} FetchedRowsAlternate(posts: seq<Item>)
    requires forall i :: 0 <= i < |posts| ==> posts[i] == FetchedRow(posts[i].postId, posts[i].content, posts[i].file)
    ensures |LayoutOf(posts).col0| == (|posts| + 1) / 2 && |LayoutOf(posts).col1| == |posts| / 2
    ensures forall j :: 0 <= j < |LayoutOf(posts).col0| ==> LayoutOf(posts).col0[j] == posts[2 * j]
    ensures forall j :: 0 <= j < |LayoutOf(posts).col1| ==> LayoutOf(posts).col1[j] == posts[2 * j + 1]
    ensures LayoutOf(posts).h0 == 150 * ((|posts| + 1) / 2) && LayoutOf(posts).h1 == 150 * (|posts| / 2)
    decreases |posts|
  {
    if posts != [] {
      var pre := posts[..|posts| - 1];
      FetchedRowsAlternate(pre);
    }
  }

  /** Three posts of heights 150, 350 and 150 are laid out as [[A, C], [B]]: A goes to
      column 0 on the tie at 0, B to the then shorter column 1, C to column 0 (150 <= 350). */
  lemma ThreePostExample(a: Item, b: Item, c: Item)
    requires CardHeight(a) == 150 && CardHeight(b) == 350 && CardHeight(c) == 150
    ensures LayoutOf([a, b, c]).col0 == [a, c] && LayoutOf([a, b, c]).col1 == [b]
  {
    assert [a, b, c][..2] == [a, b];
    assert [a, b][..1] == [a];
    assert [a][..0] == [];
    assert LayoutOf([a]) == Layout([a], [], 150, 0);
    assert LayoutOf([a, b]) == Layout([a], [b], 150, 350);
  }
}
