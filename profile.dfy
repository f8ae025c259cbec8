/** The profile screen (app/Profile.jsx): media classification, the user/saved switch,
    the local delete and the reshaping of saved posts. */
module Profile {
  import opened Wrappers
  import opened Text
  import opened Schema
  import opened Seqs

  /** A post as the profile lists it; `user` is set only on saved posts. */
  datatype ProfilePost = ProfilePost(postId: PostId, ownerId: UserId, content: Option<string>,
                                     file: Option<string>, users: Option<Author>, user: Option<Author>)

  /** A row of the `saves` query: the saved post with its author embedded, or null when
      the saved post no longer resolves. */
  datatype SaveRow = SaveRow(posts: Option<ProfilePost>)

  /** `getFileType`: null for a falsy file, an image when the path names the image folder,
      a video otherwise. */
  function FileType(file: Option<string>): (r: Option<MediaType>)
    ensures r.None? <==> !IsTruthy(file)
    ensures r == Some(Image) <==> IsTruthy(file) && Contains(file.value, "postImages")
  {
    if !IsTruthy(file) then None
    else if Contains(file.value, "postImages") then Some(Image)
    else Some(Video)
  }

  /** `profilePosts`: the user's own posts in "user" mode, the saved ones in any other. */
  function ProfilePosts(viewMode: string, userPosts: seq<ProfilePost>, savedPosts: seq<ProfilePost>)
    : (r: seq<ProfilePost>)
    ensures viewMode == "user" ==> r == userPosts
    ensures viewMode != "user" ==> r == savedPosts
  {
    if viewMode == "user" then userPosts else savedPosts
  }

  /** `userPosts.filter(post => post.post_id !== postId)`. */
  function WithoutPost(posts: seq<ProfilePost>, postId: PostId): (r: seq<ProfilePost>)
    ensures forall p :: multiset(r)[p] == if p.postId != postId then multiset(posts)[p] else 0
    ensures forall p :: p in r <==> p in posts && p.postId != postId
    ensures IsSubsequence(r, posts)
    decreases |posts|
  {
    if posts == [] then []
    else
      var x := posts[0];
      var tail := posts[1..];
      var rest := WithoutPost(tail, postId);
      assert posts == [x] + tail;
      assert multiset(posts) == multiset{x} + multiset(tail);
      if x.postId != postId then
        var r := [x] + rest;
        assert forall p :: multiset(r)[p] == if p.postId != postId then multiset(posts)[p] else 0 by {
          assert multiset(r) == multiset{x} + multiset(rest);
        }
        assert forall p :: p in r <==> p in posts && p.postId != postId by {
          assert forall p :: p in r <==> p == x || p in rest;
          assert forall p :: p in posts <==> p == x || p in tail;
        }
        assert IsSubsequence(r, posts) by {
          assert r[1..] == rest;
        }
        r
      else
        assert IsSubsequence(rest, posts) by {
          SubsequenceOfLonger(rest, x, tail);
        }
        assert forall p :: p in posts <==> p == x || p in tail;
        rest
  }

  /** Deleting an id no post has leaves the list as it was. */
  lemma {:induction false} WithoutAbsentIdKeepsAll(posts: seq<ProfilePost>, postId: PostId)
    requires forall i :: 0 <= i < |posts| ==> posts[i].postId != postId
    ensures WithoutPost(posts, postId) == posts
    decreases |posts|
  {
    if posts != [] {
      var tail := posts[1..];
      forall i | 0 <= i < |tail| ensures tail[i].postId != postId {
        assert tail[i] == posts[i + 1];
      }
      WithoutAbsentIdKeepsAll(tail, postId);
      assert posts[0].postId != postId;
      assert WithoutPost(posts, postId) == [posts[0]] + WithoutPost(tail, postId);
      assert posts == [posts[0]] + tail;
    }
  }

  /** Deleting the same id twice removes nothing more. */
  lemma DeleteIsIdempotent(posts: seq<ProfilePost>, postId: PostId)
    ensures WithoutPost(WithoutPost(posts, postId), postId) == WithoutPost(posts, postId)
  {
    var once := WithoutPost(posts, postId);
    forall i | 0 <= i < |once| ensures once[i].postId != postId {
      assert once[i] in once;
    }
    WithoutAbsentIdKeepsAll(once, postId);
  }

  /** `formattedSavedPosts`: one entry per save row, the saved post with `user` set to its
      embedded author. Reading `save.posts.users` throws on a null `posts`, so one such row
      makes the whole reshaping fail (None). */
  function FormattedSavedPosts(saves: seq<SaveRow>): (r: Option<seq<ProfilePost>>)
    ensures r.None? <==> exists i :: 0 <= i < |saves| && saves[i].posts.None?
    ensures r.Some? ==> |r.value| == |saves|
    ensures r.Some? ==> forall i :: 0 <= i < |saves| ==>
      r.value[i].user == saves[i].posts.value.users
      && r.value[i].(user := saves[i].posts.value.user) == saves[i].posts.value
  {
    if exists i :: 0 <= i < |saves| && saves[i].posts.None? then None
    else Some(seq(|saves|, i requires 0 <= i < |saves| =>
                saves[i].posts.value.(user := saves[i].posts.value.users)))
  }

  /** The profile screen's `postsState` and `viewMode`. */
  class ProfileScreen {
    var userPosts: seq<ProfilePost>
    var savedPosts: seq<ProfilePost>
    var viewMode: string

    constructor ()
      ensures userPosts == [] && savedPosts == [] && viewMode == "user"
    {
      userPosts, savedPosts := [], [];
      viewMode := "user";
    }

    /** The last step of `fetchPosts`: both lists are replaced together when every query
        succeeded and the saved rows could be reshaped; otherwise the exception skips
        `setPostsState` and both lists are kept. */
    method Load(ownPosts: seq<ProfilePost>, saves: seq<SaveRow>, queriesOk: bool)
      modifies this`userPosts, this`savedPosts
      ensures queriesOk && FormattedSavedPosts(saves).Some? ==>
        userPosts == ownPosts && savedPosts == FormattedSavedPosts(saves).value
      ensures !(queriesOk && FormattedSavedPosts(saves).Some?) ==>
        userPosts == old(userPosts) && savedPosts == old(savedPosts)
    {
      if queriesOk {
        var formatted := FormattedSavedPosts(saves);
        if formatted.Some? {
          userPosts := ownPosts;
          savedPosts := formatted.value;
        }
      }
    }

    /** `handleDeletePost(postId)`: after a successful delete every own post with that id
        is dropped and the rest keep their order; a failed delete changes nothing. Saved
        posts are never touched. */
    method DeletePost(postId: PostId, deleteOk: bool)
      modifies this`userPosts
      ensures userPosts == if deleteOk then WithoutPost(old(userPosts), postId) else old(userPosts)
      ensures deleteOk ==> forall p :: p in userPosts <==> p in old(userPosts) && p.postId != postId
      ensures savedPosts == old(savedPosts) && viewMode == old(viewMode)
    {
      if deleteOk {
        userPosts := WithoutPost(userPosts, postId);
      }
    }
  }
}
