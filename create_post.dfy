/** The post composer's helpers (app/CreatePost.jsx): file classification, the preview
    URI and the payload handed to `createPost`. */
module CreatePost {
  import opened Wrappers
  import opened Schema
  import ImageServices

  /** The composer's `file` state: null, a string (a storage path; '' before anything is
      picked), or the asset object the image picker returns. */
  datatype FileValue = NullFile | PathString(path: string) | PickedAsset(uri: string, assetType: Option<string>)

  /** JavaScript truthiness: null and '' are falsy, every object is truthy. */
  predicate IsFileTruthy(f: FileValue) {
    match f
    case NullFile => false
    case PathString(p) => p != ""
    case PickedAsset(_, _) => true
  }

  /** `isLocalFile`: null for a falsy file, true for an object, false for a path. */
  function IsLocalFile(f: FileValue): (r: Option<bool>)
    ensures r.None? <==> !IsFileTruthy(f)
    ensures r == Some(true) <==> f.PickedAsset?
  {
    if !IsFileTruthy(f) then None else Some(f.PickedAsset?)
  }

  /** What calling the misspelt `file.include` on a string raises. */
  datatype TypeError = IncludeIsNotAFunction

  /** `getFileType`: null for a falsy file and the asset's `type` for a picked asset. A
      path reaches `file.include(...)`, which strings lack, so that branch throws. */
  function GetFileType(f: FileValue): (r: Result<Option<string>, TypeError>)
    ensures !IsFileTruthy(f) ==> r == Ok(None)
    ensures f.PickedAsset? ==> r == Ok(f.assetType)
    ensures r.Err? <==> f.PathString? && f.path != ""
  {
    match IsLocalFile(f)
    case None => Ok(None)
    case Some(local) => if local then Ok(f.assetType) else Err(IncludeIsNotAFunction)
  }

  /** `getFileUri`: null for a falsy file, the asset's own `uri` for a picked asset, and the
      signed-upload URL for a storage path. */
  function GetFileUri(supabaseUrl: string, f: FileValue): (r: Option<string>)
    ensures r.None? <==> !IsFileTruthy(f)
    ensures f.PickedAsset? ==> r == Some(f.uri)
    ensures f.PathString? && f.path != "" ==>
      r == ImageServices.SupabaseFileUrl(supabaseUrl, Some(f.path))
      && ImageServices.PathOfFileUrl(supabaseUrl, r.value) == Some(f.path)
  {
    match IsLocalFile(f)
    case None => None
    case Some(local) =>
      if local then Some(f.uri)
      else
        ImageServices.FileUrlRoundTrip(supabaseUrl, Some(f.path), "");
        ImageServices.SupabaseFileUrl(supabaseUrl, Some(f.path))
  }

  /** The object literal `handlePostSubmit` passes to `createPost`. */
  datatype PostPayload = PostPayload(file: FileValue, content: string, userId: UserId,
                                     emotion: string, visibility: string)

  /** What a press of "post" does: whether the empty-content alert shows, and the payload
      sent (the alert does not stop the send). */
  datatype Submission = Submission(alerted: bool, payload: PostPayload)

  /** `handlePostSubmit`. */
  function PostSubmit(file: FileValue, postContent: string, userId: UserId, emotion: string,
                      visibility: string, commentsEnabled: bool): (r: Submission)
    ensures r.alerted <==> postContent == ""
    ensures r.payload.content == postContent && r.payload.file == file && r.payload.userId == userId
    ensures r.payload.emotion == emotion && r.payload.visibility == visibility
  {
    Submission(postContent == "", PostPayload(file, postContent, userId, emotion, visibility))
  }

  /** The comments switch does not reach the payload. */
  lemma CommentsSwitchIsNotSent(file: FileValue, postContent: string, userId: UserId, emotion: string,
                                visibility: string)
    ensures PostSubmit(file, postContent, userId, emotion, visibility, true)
         == PostSubmit(file, postContent, userId, emotion, visibility, false)
  {
  }
}
