/** Order-preserving selection of elements, shared by the screens' `filter` calls. */
module Seqs {

  /** `a` is `b` with some elements deleted: every element of `a` comes from `b`, in order. */
  predicate IsSubsequence<T(==)>(a: seq<T>, b: seq<T>)
    decreases |b|
  {
    if a == [] then true
    else if b == [] then false
    else if a[0] == b[0] then IsSubsequence(a[1..], b[1..])
    else IsSubsequence(a, b[1..])
  }

  /** Putting an element in front of the larger sequence keeps a subsequence a subsequence. */
  lemma {:induction false} SubsequenceOfLonger<T>(a: seq<T>, x: T, b: seq<T>)
    requires IsSubsequence(a, b)
    ensures IsSubsequence(a, [x] + b)
    decreases |b|, 1
  {
    assert ([x] + b)[1..] == b;
    if a != [] && a[0] == x {
      SubsequenceDropFirst(a, b);
    }
  }

  /** Dropping the first element of the smaller sequence keeps a subsequence a subsequence. */
  lemma {:induction false} SubsequenceDropFirst<T>(a: seq<T>, b: seq<T>)
    requires a != [] && IsSubsequence(a, b)
    ensures IsSubsequence(a[1..], b)
    decreases |b|, 0
  {
    assert b != [];
    assert [b[0]] + b[1..] == b;
    if a[0] == b[0] {
      SubsequenceOfLonger(a[1..], b[0], b[1..]);
    } else {
      SubsequenceDropFirst(a, b[1..]);
      SubsequenceOfLonger(a[1..], b[0], b[1..]);
    }
  }
}

/** Records the backend returns, shared by the screens that read them. */
module Schema {
  import opened Wrappers

  type UserId = string
  type PostId = string

  /** The embedded `users(name, username, profileImage)` of a post row. */
  datatype Author = Author(name: Option<string>, username: Option<string>, profileImage: Option<string>)

  /** A row of the `users` table as the social screen shows it. */
  datatype User = User(userid: UserId, name: Option<string>, profileImage: Option<string>)

  /** A row of the `follows` table. */
  datatype FollowRow = FollowRow(followerId: UserId, followingId: UserId)

  /** How a post's media is displayed. */
  datatype MediaType = Image | Video
}
