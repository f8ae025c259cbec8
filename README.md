# FeelTok screens, modelled in Dafny

FeelTok is a React Native social app. People post short texts with an image or a video,
tagged with an emotion. They follow each other, and they like, comment on and bookmark
posts. This project models the logic behind the app's screens:

- the authentication gate and the tab bar of the root component (`App`);
- the sign-in and registration forms (`Login`, `Register`);
- the home feed and its like, comment and bookmark handlers (`Home`);
- the two-column masonry layout of the explore screen (`Explore`);
- the profile's user/saved switch and its post deletion (`Profile`);
- the follower, following and suggestion lists (`Social`);
- the post composer's file helpers and submit payload (`CreatePost`);
- the storage URLs and upload paths (`ImageServices`, `PostService`).

The screens whose handlers update their React state (root, sign-in, registration, home and
profile) become Dafny classes whose methods update those fields. The Explore, Social and
CreatePost logic only computes values from its inputs, so it is modelled as functions, and so
are the pure helpers of every screen. The one loop, Explore's column walk, is a method over
local arrays.

The backend is Supabase, and the model does not call it. Every query or write a handler
issues becomes an outcome parameter: the write succeeded, the row exists, a session exists.
Where the order and arguments of those calls matter, the handler returns them as a list of
`RemoteCall` or `AuthCall` values.

JavaScript values are modelled as follows:

- A nullable string is an `Option<string>`.
- "Truthy" means present and not `""` (`Text.IsTruthy`).
- `includes`, `trim` and `\s` are defined in `Text`, with JavaScript's white-space set.

Modules:

| file | module | models |
|---|---|---|
| wrappers.dfy | Wrappers | `Option` and `Result` |
| text.dfy | Text | the JavaScript string operations used |
| seqs.dfy | Seqs, Schema | the subsequence order, and the database rows shared by the screens |
| image_services.dfy | ImageServices | services/imageServices.js |
| post_service.dfy | PostService | the folder choice of services/postService.js |
| explore.dfy | Explore | app/Explore.jsx |
| home.dfy | Home | app/Home.jsx |
| register.dfy | Register | app/Register.jsx |
| login.dfy | Login | app/Login.jsx |
| profile.dfy | Profile | app/Profile.jsx |
| social.dfy | Social | app/Social.jsx |
| create_post.dfy | CreatePost | app/CreatePost.jsx |
| app.dfy | App | app/App.js |

Some behaviours of the code are surprising. The model follows the code as written:

- Unliking decrements the like count with no floor at zero.
- The feed's `isBookmarked` is computed from the likes, so it mirrors `isLiked`.
- Each handler changes local state only after the writes whose result it checks
  succeeded. The like notification's insert result is ignored, and the
  sign-in form is cleared even after a failed sign-in.
- A feed row whose `file` is null makes the whole load throw, so the previous list is kept.
- A saved row whose post is null makes the profile's load throw before its state is set,
  so both lists keep their old contents.
- The explore layout's height estimate reads `postText` and `postImage`, which the fetched
  rows do not have, so every card counts as 150 and the columns simply alternate.
- The composer's `getFileType` calls `file.include` on a storage path. Strings have no
  such method, so that call throws.
- The composer sends the post even after the empty-content alert.

## Model

| member | source | states |
|---|---|---|
| Text.Contains | app/Home.jsx:242 | `s.includes(sub)` holds exactly when `sub` occurs at some index of `s` |
| Text.MissingCharNotContained | app/Profile.jsx:32 | a string lacking one character of `sub` does not contain `sub` |
| Text.ContainedInMiddle | app/Home.jsx:242 | any string built around `sub` contains it |
| Text.ContainedInPart | app/Home.jsx:242 | a string that contains `sub` in its prefix, middle or suffix part contains it as a whole |
| Text.NotContainedAcross | app/Profile.jsx:32 | when the middle part's first and last characters are foreign to `sub` and no part contains `sub`, the whole does not contain it: no occurrence can straddle the parts |
| Text.Trim | app/Home.jsx:27 | the trimmed text is empty exactly when every character is JavaScript white space; otherwise it starts and ends with a non-space |
| Text.TrimStart | app/Home.jsx:27 | drops exactly the leading white space: the result is a suffix, the removed part is all white space, and the first character kept is not white space |
| Text.TrimEnd | app/Home.jsx:27 | drops exactly the trailing white space, symmetrically |
| Text.DecimalDigits | services/imageServices.js:52 | the millisecond timestamp in a file name is a non-empty string of decimal digits |
| Text.DigitsValueOfDecimalDigits | services/imageServices.js:52 | reading those digits back gives the timestamp |
| Text.IndexOf | services/imageServices.js:52 | the first occurrence of a character, or None exactly when it is absent |
| ImageServices.SupabaseFileUrl | services/imageServices.js:14-21 | a URL is produced exactly for a truthy path |
| ImageServices.FileUrlRoundTrip | services/imageServices.js:14-21 | the storage path can be read back from the signed-upload URL, and a URL that names a path is that path's URL |
| ImageServices.UserImageSrc | services/imageServices.js:6-12 | the default avatar is used exactly when the path is not truthy; otherwise the source is the path's signed URL |
| ImageServices.FilePathRoundTrip | services/imageServices.js:51-53 | `getFilePath` (ImageServices.FilePath) is invertible: for a folder without `/`, the folder, the timestamp and the image/video extension can all be parsed back from the path |
| PostService.UploadFolder | services/postService.js:7-12 | images go to a folder containing `postImages`, everything else to one containing `postVideos` |
| PostService.UploadPathShape | services/postService.js:7-12 | the path an upload is stored under (PostService.UploadPath) is `/postImages/<digits>.png` for an asset of type "image" and `/postVideos/<digits>.mp4` for any other |
| PostService.UploadPathParses | services/postService.js:7-12 | the path an upload is stored under (PostService.UploadPath) parses back into its folder, its timestamp, and whether the asset type was "image" |
| PostService.UploadedVideoReadsAsVideo | services/postService.js:7-12 | a stored video, wrapped in any URL, is a video for the feed; the profile shows it as a video exactly when neither the prefix nor the suffix contains `postImages` |
| PostService.UploadedImageReadsAsImage | services/postService.js:7-12 | a stored image, wrapped in any URL, is an image for the profile; the feed treats it as an image exactly when neither the prefix nor the suffix contains `postVideos` |
| Explore.CardHeight | app/Explore.jsx:102-107 | the height is 150, 180, 350 or 380; it is at least 350 exactly when there is an image, and 180 or 380 exactly when there is text |
| Explore.Columns | app/Explore.jsx:44-57 | the loop builds two columns, equal to the greedy layout that puts each post in the shorter column (ties go left); no posts gives two empty columns |
| Explore.HeightsAreColumnSums | app/Explore.jsx:44-57 | each tracked column height is the sum of its cards' heights |
| Explore.ColumnsStayBalanced | app/Explore.jsx:44-57 | both heights stay non-negative and differ by at most one maximal card (380) |
| Explore.NextPostColumn | app/Explore.jsx:50 | the next post is appended to the left column when the left height is not greater than the right one, and to the right column otherwise; the other column is unchanged |
| Explore.ColumnsKeepInputOrder | app/Explore.jsx:44-57 | each column lists its posts in their input order |
| Explore.ColumnsPartitionPositions | app/Explore.jsx:44-57 | every input position lands in exactly one column |
| Explore.ColumnsPermuteInput | app/Explore.jsx:44-57 | together the two columns hold exactly the input posts: a permutation, nothing lost or duplicated |
| Explore.FetchedRowsAlternate | app/Explore.jsx:44-57 | for rows as fetched, the posts alternate left and right, and the heights are 150 times the number of posts in each column |
| Explore.ThreePostExample | app/Explore.jsx:44-57 | posts a, b, c of card heights 150, 350 and 150 give the columns [a, c] and [b] (ties go to the left column) |
| Home.MediaTypeOf | app/Home.jsx:242 | a post is a video exactly when its file contains `postVideos` |
| Home.OrDefault | app/Home.jsx:250-252 | the value is kept when truthy, and the default is used otherwise |
| Home.LikedBy | app/Home.jsx:244 | true exactly when some like belongs to the viewer |
| Home.TransformRow | app/Home.jsx:241-261 | keeps the id, owner and content; media kind from the file; `isLiked` exactly when the viewer liked it; `isBookmarked` equal to `isLiked`; the like count is the number of likes; missing comments become []; an empty file becomes null; a missing or empty author name, username or avatar becomes `Unknown User`, `unknown` or the default image |
| Home.TransformRows | app/Home.jsx:241-261 | the load fails exactly when some row's file is null; otherwise each row is transformed in place |
| Home.LoadedBookmarkMirrorsLike | app/Home.jsx:244-245 | after a load, every post's bookmark flag equals its like flag |
| Home.FindPost | app/Home.jsx:307 | `posts.find`: None exactly when no post has the id; otherwise the first post with it |
| Home.ToggleLikeIn | app/Home.jsx:325-333 | other posts are unchanged; a matching post flips `isLiked` and moves its count by one |
| Home.FlipBookmarkIn | app/Home.jsx:420-427 | other posts are unchanged; a matching post flips `isBookmarked` |
| Home.AppendCommentIn | app/Home.jsx:350-363 | other posts are unchanged; a matching post gets the comment appended |
| Home.LikeToggleTwiceRestores | app/Home.jsx:325-333 | liking and then unliking (or the reverse) restores the list, when the passed flag matches the post |
| Home.BookmarkFlipTwiceRestores | app/Home.jsx:420-427 | two bookmark flips restore the list |
| Home.UnlikeHasNoFloor | app/Home.jsx:330 | unliking a post whose count is 0 gives -1 |
| Home.CommentToSubmit | app/Home.jsx:26-33 | blank text is refused; any other text is submitted as typed, untrimmed |
| Home.CommentSubmitExamples | app/Home.jsx:26-33 | "  " (two spaces) is refused and " hi " is sent unchanged |
| Home.HomeFeed.Load | app/Home.jsx:237-262 | posts are replaced by the transformed rows only when the query and the transform succeed |
| Home.HomeFeed.LikeToggle | app/Home.jsx:274-339 | the delete-like and delete-notifications calls, or the upsert and the owner's notification; on an unlike, `posts` changes only after both deletes succeed; on a like, only after the upsert succeeds and the post is listed, whatever the notification insert returns |
| Home.HomeFeed.AddComment | app/Home.jsx:341-385 | the insert, then the owner's notification when the post is listed; after success the comment is appended |
| Home.HomeFeed.SubmitComment | app/Home.jsx:26-33 | blank text makes no call and changes nothing; other text is inserted as typed, the owner of a listed post is notified after a successful insert, and the comment is appended to that post |
| Home.HomeFeed.BookmarkToggle | app/Home.jsx:387-433 | an unlisted post is ignored; otherwise the save is deleted or inserted according to the flag, and flipped locally after success |
| Register.EmailPatternTest | app/Register.jsx:46 | true exactly when some substring matches `\S+@\S+\.\S+` |
| Register.FormErrorsShape | app/Register.jsx:41-52 | errors only under `email` and `password`; the format message exactly when the pattern fails, the length message exactly when the password is shorter than 8; "required" never survives |
| Register.ErrorsAfterOverwrites | app/Register.jsx:44-47 | whatever the "required" checks set, the later checks overwrite it |
| Register.ValidateForm | app/Register.jsx:41-52 | the error map equals FormErrors; the form is valid exactly when the email matches and the password has at least 8 characters |
| Register.RegisterScreen.HandleSubmit | app/Register.jsx:55-110 | an invalid form calls nothing; a taken username stops after the lookup with a username error; otherwise sign-up, then on success the user row and the one-time-password screen |
| Login.FormErrorsShape | app/Login.jsx:32-41 | errors are exactly the empty fields; no format or length rule |
| Login.ValidateForm | app/Login.jsx:32-41 | the error map equals FormErrors; valid exactly when both fields are non-empty |
| Login.LoginScreen.HandleSubmit | app/Login.jsx:43-74 | an invalid form only records errors; a valid one ends in sign-in failure, a missing session or Home, and then clears the fields and errors |
| Profile.FileType | app/Profile.jsx:30-36 | None exactly for a falsy file; an image exactly when the file contains `postImages` |
| Profile.ProfilePosts | app/Profile.jsx:98-99 | "user" mode shows the user's posts, every other mode the saved ones |
| Profile.WithoutPost | app/Profile.jsx:114 | keeps exactly the posts with another id, each as often as in the input and in input order; drops every post with the id |
| Profile.WithoutAbsentIdKeepsAll | app/Profile.jsx:114 | deleting an id that no post has leaves the list unchanged |
| Profile.DeleteIsIdempotent | app/Profile.jsx:114 | deleting the same id twice equals deleting it once |
| Profile.FormattedSavedPosts | app/Profile.jsx:76-79 | fails exactly when some save row's post is null; otherwise one entry per save row: the saved post, with its author as `user` |
| Profile.ProfileScreen.Load | app/Profile.jsx:76-85 | both lists are replaced together when every query succeeded and the saved rows could be reshaped; otherwise both are kept |
| Profile.ProfileScreen.DeletePost | app/Profile.jsx:102-120 | after a successful delete, exactly the other own posts remain; saved posts and mode are untouched |
| Social.FollowerIds | app/Social.jsx:43 | the follower id of each row, in order |
| Social.FollowingIds | app/Social.jsx:62 | the followed id of each row, in order |
| Social.FilterSuggested | app/Social.jsx:81-83 | keeps exactly the suggested users not already followed, each as often as in the input and in input order; drops every followed one |
| Social.FilterSuggestedIdempotent | app/Social.jsx:81-83 | filtering twice equals filtering once |
| Social.SuggestionsExcludeFollowed | app/Social.jsx:62-83 | a user is suggested exactly when suggested by the query and no follow row points at them |
| Social.CurrentList | app/Social.jsx:114-119 | the list of the active tab; an unknown tab shows nothing |
| CreatePost.IsLocalFile | app/CreatePost.jsx:79-83 | None for a falsy file; true exactly for a picked asset |
| CreatePost.GetFileType | app/CreatePost.jsx:85-96 | None for a falsy file and the asset's type for a picked asset; a non-empty path throws |
| CreatePost.GetFileUri | app/CreatePost.jsx:70-76 | None exactly for a falsy file; the asset's own uri for a picked asset; for a path, the signed URL, which reads back to that path |
| CreatePost.PostSubmit | app/CreatePost.jsx:101-119 | the alert shows exactly for empty content, and the payload carries the file, content, user, emotion and visibility either way |
| CreatePost.CommentsSwitchIsNotSent | app/CreatePost.jsx:101-119 | the comments switch has no effect on what is sent |
| App.Authenticates | app/App.js:41-64 | signed in exactly when a session exists and the profile row was fetched, verified and completed |
| App.AppState.CheckAuthentication | app/App.js:36-70 | the app is ready afterwards, and authenticated exactly as Authenticates decides; every failure or exception leaves it signed out |
| App.AppState.HandleTabPress | app/App.js:77-95 | an index with a tab becomes active and resets to that tab's screen; other presses leave the index alone; "liked" navigates to Likes |

## Left out

- Backend calls, the network and the clock are parameters. The model does not cover the
  Supabase client, the `lib` and `hooks` code, `uploadFile`'s file reading and base64
  decoding, or `createPost`'s sequence of upload, signed-URL and insert calls. Only the
  folder choice and the resulting path are modelled.
- Rendering, styles, modals, alerts' texts, date formatting (`toLocaleDateString`) and the
  report and follow handlers of the screens are not modelled.
- The verification, one-time-password, account-creation, profile-editing, notifications,
  menu, navigation-bar, splash, auth and content-card screens are not part of this model.
- Home.HomeFeed.Load: only the last step of the fetch effect is modelled. The follows
  query and the `in`/`order` filters are the backend's.
- Register.RegisterScreen.HandleSubmit: the `catch` path, which sets `errors.general` from
  an exception, is not modelled, because the model has no exceptions in the SDK calls.
- ImageServices.SupabaseFileUrl: the signed URL's token is not part of the model, since
  the source builds the URL without one.
- String lengths are counted in characters, not UTF-16 code units, so the password-length
  rule differs for characters outside the Basic Multilingual Plane.
- App.AppState.HandleTabPress: only integer indices are modelled. A non-integer number
  finds no tab in the source and does nothing.
- The five-second splash delay is not modelled. CheckAuthentication is the timer's body.
