/** The home feed (app/Home.jsx): the transform of fetched rows into feed items, and the
    local updates after a like, a bookmark or a comment. The backend's answers are passed in;
    each handler returns the backend calls it issues, in order. */
module Home {
  import opened Wrappers
  import opened Text
  import opened Schema

  datatype Like = Like(userId: UserId)

  /** A comment as the feed shows it: its text and the embedded `users.username`. */
  datatype Comment = Comment(content: string, username: Option<string>)

  /** A row of the feed query: a post with its author, likes and comments embedded. */
  datatype PostRow = PostRow(postId: PostId, userId: UserId, content: Option<string>,
                             file: Option<string>, users: Option<Author>,
                             likes: seq<Like>, comments: Option<seq<Comment>>)

  /** A feed item: the row's fields under the names the feed card reads. */
  datatype FeedPost = FeedPost(id: PostId, ownerId: UserId, content: Option<string>,
                               name: string, username: string, avatar: string,
                               file: Option<string>, likes: int, comments: seq<Comment>,
                               isLiked: bool, isBookmarked: bool, mediaType: MediaType)

  const UnknownName := "Unknown User"
  const UnknownUsername := "unknown"
  const DefaultAvatar := "../assets/default-user.jpeg"

  /** A video is recognised by the folder name in its storage path. */
  function MediaTypeOf(file: string): (m: MediaType)
    ensures m == Video <==> Contains(file, "postVideos")
  {
    if Contains(file, "postVideos") then Video else Image
  }

  /** `v || default` for a nullable string. */
  function OrDefault(v: Option<string>, default: string): (r: string)
    ensures IsTruthy(v) ==> r == v.value
    ensures !IsTruthy(v) ==> r == default
  {
    if IsTruthy(v) then v.value else default
  }

  /** `likes.some(like => like.user_id === viewer)`. */
  function LikedBy(likes: seq<Like>, viewer: UserId): (r: bool)
    ensures r <==> exists l :: l in likes && l.userId == viewer
    decreases |likes|
  {
    if likes == [] then false
    else if likes[0].userId == viewer then true
    else
      assert forall l :: l in likes ==> l == likes[0] || l in likes[1..];
      LikedBy(likes[1..], viewer)
  }

  /** The transform of one row. Reading `includes` of a null `file` throws, so the row's
      file must be present; an empty file becomes null. */
  function TransformRow(row: PostRow, viewer: UserId): (p: FeedPost)
    requires row.file.Some?
    ensures p.id == row.postId && p.ownerId == row.userId && p.content == row.content
    ensures p.mediaType == Video <==> Contains(row.file.value, "postVideos")
    ensures p.isLiked <==> exists l :: l in row.likes && l.userId == viewer
    ensures p.isBookmarked == p.isLiked
    ensures p.likes == |row.likes|
    ensures p.comments == if row.comments.Some? then row.comments.value else []
    ensures p.file == if row.file.value == "" then None else row.file
    ensures p.name == if row.users.Some? && IsTruthy(row.users.value.name)
                      then row.users.value.name.value else UnknownName
    ensures p.username == if row.users.Some? && IsTruthy(row.users.value.username)
                          then row.users.value.username.value else UnknownUsername
    ensures p.avatar == if row.users.Some? && IsTruthy(row.users.value.profileImage)
                        then row.users.value.profileImage.value else DefaultAvatar
  {
    var mediaType := MediaTypeOf(row.file.value);
    var isLiked := LikedBy(row.likes, viewer);
    var isBookmarked := LikedBy(row.likes, viewer);
    FeedPost(
      row.postId, row.userId, row.content,
      if row.users.Some? then OrDefault(row.users.value.name, UnknownName) else UnknownName,
      if row.users.Some? then OrDefault(row.users.value.username, UnknownUsername) else UnknownUsername,
      if row.users.Some? then OrDefault(row.users.value.profileImage, DefaultAvatar) else DefaultAvatar,
      if IsTruthy(row.file) then row.file else None,
      |row.likes|,
      if row.comments.Some? then row.comments.value else [],
      isLiked, isBookmarked, mediaType)
  }

  /** `data.map(...)` over the fetched rows; a row with a null file makes it throw (None). */
  function TransformRows(rows: seq<PostRow>, viewer: UserId): (r: Option<seq<FeedPost>>)
    ensures r.None? <==> exists i :: 0 <= i < |rows| && rows[i].file.None?
    ensures r.Some? ==> |r.value| == |rows|
    ensures r.Some? ==> forall i :: 0 <= i < |rows| ==>
      rows[i].file.Some? && r.value[i] == TransformRow(rows[i], viewer)
  {
    if forall i :: 0 <= i < |rows| ==> rows[i].file.Some? then
      Some(seq(|rows|, i requires 0 <= i < |rows| => TransformRow(rows[i], viewer)))
    else None
  }

  /** Right after a load, every item's bookmark flag equals its like flag, because both
      are computed from the likes. */
  lemma {:induction false} LoadedBookmarkMirrorsLike(rows: seq<PostRow>, viewer: UserId)
    requires TransformRows(rows, viewer).Some?
    ensures forall p :: p in TransformRows(rows, viewer).value ==> p.isBookmarked == p.isLiked
  {
    var ps := TransformRows(rows, viewer).value;
    forall p | p in ps ensures p.isBookmarked == p.isLiked {
      var i :| 0 <= i < |ps| && ps[i] == p;
      assert p == TransformRow(rows[i], viewer);
    }
  }

  ghost predicate FirstWithId(posts: seq<FeedPost>, postId: PostId, i: int) {
    0 <= i < |posts| && posts[i].id == postId && forall j :: 0 <= j < i ==> posts[j].id != postId
  }

  /** `posts.find(p => p.id === postId)`: the first post with that id. */
  function FindPost(posts: seq<FeedPost>, postId: PostId): (r: Option<FeedPost>)
    ensures r.None? <==> forall i :: 0 <= i < |posts| ==> posts[i].id != postId
    ensures r.Some? ==> exists i :: FirstWithId(posts, postId, i) && posts[i] == r.value
    decreases |posts|
  {
    if posts == [] then None
    else if posts[0].id == postId then (assert FirstWithId(posts, postId, 0); Some(posts[0]))
    else
      var r := FindPost(posts[1..], postId);
      assert forall i :: 0 <= i < |posts| - 1 ==> posts[1..][i] == posts[i + 1];
      assert r.Some? ==> exists i :: FirstWithId(posts, postId, i) && posts[i] == r.value by {
        if r.Some? {
          var i :| FirstWithId(posts[1..], postId, i) && posts[1..][i] == r.value;
          assert FirstWithId(posts, postId, i + 1);
        }
      }
      r
  }

  /** One post after the like handler's update: the flag becomes the negation of the flag
      the card passed, and the count moves by one, with no floor at zero. */
  function ToggledLike(p: FeedPost, isLiked: bool): FeedPost {
    p.(isLiked := !isLiked, likes := if isLiked then p.likes - 1 else p.likes + 1)
  }

  /** The like handler's `posts.map`. */
  function ToggleLikeIn(posts: seq<FeedPost>, postId: PostId, isLiked: bool): (r: seq<FeedPost>)
    ensures |r| == |posts|
    ensures forall i :: 0 <= i < |posts| && posts[i].id != postId ==> r[i] == posts[i]
    ensures forall i :: 0 <= i < |posts| && posts[i].id == postId ==>
      r[i].isLiked == !isLiked && r[i].likes == posts[i].likes + (if isLiked then -1 else 1)
      && r[i] == posts[i].(isLiked := r[i].isLiked, likes := r[i].likes)
  {
    seq(|posts|, i requires 0 <= i < |posts| =>
      if posts[i].id == postId then ToggledLike(posts[i], isLiked) else posts[i])
  }

  /** The bookmark handler's `posts.map`: it flips the stored flag, whatever flag the card
      passed. */
  function FlipBookmarkIn(posts: seq<FeedPost>, postId: PostId): (r: seq<FeedPost>)
    ensures |r| == |posts|
    ensures forall i :: 0 <= i < |posts| && posts[i].id != postId ==> r[i] == posts[i]
    ensures forall i :: 0 <= i < |posts| && posts[i].id == postId ==>
      r[i].isBookmarked == !posts[i].isBookmarked && r[i] == posts[i].(isBookmarked := r[i].isBookmarked)
  {
    seq(|posts|, i requires 0 <= i < |posts| =>
      if posts[i].id == postId then posts[i].(isBookmarked := !posts[i].isBookmarked) else posts[i])
  }

  /** The comment handler's `posts.map`: the new comment goes last on that post. */
  function AppendCommentIn(posts: seq<FeedPost>, postId: PostId, c: Comment): (r: seq<FeedPost>)
    ensures |r| == |posts|
    ensures forall i :: 0 <= i < |posts| && posts[i].id != postId ==> r[i] == posts[i]
    ensures forall i :: 0 <= i < |posts| && posts[i].id == postId ==>
      |r[i].comments| == |posts[i].comments| + 1 && r[i].comments[..|posts[i].comments|] == posts[i].comments
      && r[i].comments[|posts[i].comments|] == c && r[i] == posts[i].(comments := r[i].comments)
  {
    seq(|posts|, i requires 0 <= i < |posts| =>
      if posts[i].id == postId then posts[i].(comments := posts[i].comments + [c]) else posts[i])
  }

  /** Two successful like toggles, each passing the post's current flag, give back the
      original flag and count. */
  lemma LikeToggleTwiceRestores(posts: seq<FeedPost>, postId: PostId, isLiked: bool)
    requires forall i :: 0 <= i < |posts| && posts[i].id == postId ==> posts[i].isLiked == isLiked
    ensures ToggleLikeIn(ToggleLikeIn(posts, postId, isLiked), postId, !isLiked) == posts
  {
    var once := ToggleLikeIn(posts, postId, isLiked);
    var twice := ToggleLikeIn(once, postId, !isLiked);
    forall i | 0 <= i < |posts| ensures twice[i] == posts[i] {
      if posts[i].id == postId {
        assert once[i].id == postId;
      }
    }
  }

  /** Bookmark flipping is an involution. */
  lemma BookmarkFlipTwiceRestores(posts: seq<FeedPost>, postId: PostId)
    ensures FlipBookmarkIn(FlipBookmarkIn(posts, postId), postId) == posts
  {
    var once := FlipBookmarkIn(posts, postId);
    var twice := FlipBookmarkIn(once, postId);
    forall i | 0 <= i < |posts| ensures twice[i] == posts[i] {
      if posts[i].id == postId {
        assert once[i].id == postId;
      }
    }
  }

  /** The count is not clamped: unliking a post shown with zero likes gives -1. */
  lemma UnlikeHasNoFloor(p: FeedPost)
    requires p.likes == 0
    ensures ToggleLikeIn([p], p.id, true)[0].likes == -1
  {
  }

  /** `handleCommentSubmit`'s guard: text that is empty after trimming is refused; other
      text is passed on untrimmed. */
  function CommentToSubmit(commentText: string): (r: Option<string>)
    ensures r.None? <==> AllWhitespace(commentText)
    ensures r.Some? ==> r.value == commentText
  {
    if Trim(commentText) != "" then Some(commentText) else None
  }

  lemma CommentSubmitExamples()
    ensures CommentToSubmit("  ") == None
    ensures CommentToSubmit(" hi ") == Some(" hi ")
  {
    assert !IsWhitespace(" hi "[1]);
  }

  datatype NotificationKind = LikeNotification | CommentNotification

  /** The backend writes the handlers issue. */
  datatype RemoteCall =
    | DeleteLike(postId: PostId, userId: UserId)
    | DeleteNotificationsOfPost(postId: PostId)
    | UpsertLike(postId: PostId, userId: UserId)
    | InsertNotification(recipient: UserId, postId: PostId, kind: NotificationKind, actor: UserId)
    | InsertComment(postId: PostId, userId: UserId, content: string)
    | DeleteSave(postId: PostId, userId: UserId)
    | InsertSave(postId: PostId, userId: UserId)

  /** The `Home` screen's state: the `posts` list, for a signed-in viewer. */
  class HomeFeed {
    var posts: seq<FeedPost>
    const viewer: UserId
    const viewerUsername: Option<string>

    constructor (viewer: UserId, viewerUsername: Option<string>)
      ensures this.viewer == viewer && this.viewerUsername == viewerUsername && posts == []
    {
      this.viewer := viewer;
      this.viewerUsername := viewerUsername;
      posts := [];
    }

    /** The fetch effect's last step: the transformed rows replace `posts`, unless the
        query failed or the transform threw. */
    method Load(rows: seq<PostRow>, queryOk: bool)
      modifies this
      ensures posts == if queryOk && TransformRows(rows, viewer).Some?
                       then TransformRows(rows, viewer).value else old(posts)
    {
      if queryOk {
        var transformed := TransformRows(rows, viewer);
        if transformed.Some? {
          posts := transformed.value;
        }
      }
    }

    /** `handleLikeToggle(postId, isLiked)`. An unlike deletes the viewer's like and every
        notification of the post; a like upserts the like and then notifies the post's owner.
        A failed write returns before `posts` is touched, and so does a like of a post that
        is not in the list (reading its owner throws). */
    method LikeToggle(postId: PostId, isLiked: bool, likeWriteOk: bool, noticeDeleteOk: bool)
      returns (calls: seq<RemoteCall>)
      modifies this
      ensures isLiked ==> calls == [DeleteLike(postId, viewer), DeleteNotificationsOfPost(postId)]
      ensures isLiked ==> posts == if likeWriteOk && noticeDeleteOk
                                   then ToggleLikeIn(old(posts), postId, true) else old(posts)
      ensures !isLiked ==> (calls == [UpsertLike(postId, viewer)] + (
        if likeWriteOk && FindPost(old(posts), postId).Some?
        then [InsertNotification(FindPost(old(posts), postId).value.ownerId, postId, LikeNotification, viewer)]
        else []))
      ensures !isLiked ==> posts == if likeWriteOk && FindPost(old(posts), postId).Some?
                                    then ToggleLikeIn(old(posts), postId, false) else old(posts)
    {
      if isLiked {
        calls := [DeleteLike(postId, viewer), DeleteNotificationsOfPost(postId)];
        if !likeWriteOk || !noticeDeleteOk {
          return;
        }
      } else {
        calls := [UpsertLike(postId, viewer)];
        if !likeWriteOk {
          return;
        }
        var postOwner := FindPost(posts, postId);
        if postOwner.None? {
          return;
        }
        calls := calls + [InsertNotification(postOwner.value.ownerId, postId, LikeNotification, viewer)];
      }
      posts := ToggleLikeIn(posts, postId, isLiked);
    }

    /** `handleAddComment(postId, commentText)`: after a successful insert the comment is
        appended to that post and the owner, if the post is listed, is notified. */
    method AddComment(postId: PostId, commentText: string, insertOk: bool)
      returns (calls: seq<RemoteCall>)
      modifies this
      ensures calls == [InsertComment(postId, viewer, commentText)] + (
        if insertOk && FindPost(old(posts), postId).Some?
        then [InsertNotification(FindPost(old(posts), postId).value.ownerId, postId, CommentNotification, viewer)]
        else [])
      ensures posts == if insertOk
                       then AppendCommentIn(old(posts), postId, Comment(commentText, viewerUsername))
                       else old(posts)
    {
      calls := [InsertComment(postId, viewer, commentText)];
      if insertOk {
        var postOwner := FindPost(posts, postId);
        posts := AppendCommentIn(posts, postId, Comment(commentText, viewerUsername));
        if postOwner.Some? {
          calls := calls + [InsertNotification(postOwner.value.ownerId, postId, CommentNotification, viewer)];
        }
      }
    }

    /** The comment box's submit: blank text only raises an alert; anything else goes to
        AddComment as typed. */
    method SubmitComment(postId: PostId, commentText: string, insertOk: bool)
      returns (calls: seq<RemoteCall>)
      modifies this
      ensures AllWhitespace(commentText) ==> calls == [] && posts == old(posts)
      ensures !AllWhitespace(commentText) ==>
        calls == [InsertComment(postId, viewer, commentText)] + (
          if insertOk && FindPost(old(posts), postId).Some?
          then [InsertNotification(FindPost(old(posts), postId).value.ownerId, postId, CommentNotification, viewer)]
          else [])
      ensures !AllWhitespace(commentText) ==>
        posts == if insertOk
                 then AppendCommentIn(old(posts), postId, Comment(commentText, viewerUsername))
                 else old(posts)
    {
      calls := [];
      var text := CommentToSubmit(commentText);
      if text.Some? {
        calls := AddComment(postId, text.value, insertOk);
      }
    }

    /** `handleBookmarkToggle(postId, isBookmarked)`: nothing happens for an unlisted post;
        otherwise the save row is deleted or inserted according to the passed flag, and on
        success the stored flag of that post is flipped. */
    method BookmarkToggle(postId: PostId, isBookmarked: bool, writeOk: bool)
      returns (calls: seq<RemoteCall>)
      modifies this
      ensures FindPost(old(posts), postId).None? ==> calls == [] && posts == old(posts)
      ensures FindPost(old(posts), postId).Some? ==>
        calls == [if isBookmarked then DeleteSave(postId, viewer) else InsertSave(postId, viewer)]
      ensures posts == if FindPost(old(posts), postId).Some? && writeOk
                       then FlipBookmarkIn(old(posts), postId) else old(posts)
    {
      var post := FindPost(posts, postId);
      if post.None? {
        return [];
      }
      calls := [if isBookmarked then DeleteSave(postId, viewer) else InsertSave(postId, viewer)];
      if !writeOk {
        return;
      }
      posts := FlipBookmarkIn(posts, postId);
    }
  }
}
