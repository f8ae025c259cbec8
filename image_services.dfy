/** Storage URLs and upload paths (services/imageServices.js). The backend's base URL is a
    parameter, and so is the clock reading `getFilePath` takes from `Date`. */
module ImageServices {
  import opened Wrappers
  import opened Text

  /** What follows the base URL in every signed-upload URL. */
  const SignedUploadsPath := "/storage/v1/object/sign/uploads/"

  /** `getSupabaseFileUrl`: the `uri` of the object it returns; None where it returns null. */
  function SupabaseFileUrl(supabaseUrl: string, filePath: Option<string>): (r: Option<string>)
    ensures r.Some? <==> IsTruthy(filePath)
  {
    if IsTruthy(filePath) then Some(supabaseUrl + SignedUploadsPath + filePath.value) else None
  }

  /** The storage path a signed-upload URL names: the inverse of SupabaseFileUrl. */
  function PathOfFileUrl(supabaseUrl: string, uri: string): Option<string> {
    var prefix := supabaseUrl + SignedUploadsPath;
    if |prefix| < |uri| && uri[..|prefix|] == prefix then Some(uri[|prefix|..]) else None
  }

  /** A URL built from a path gives that path back, and a URL that names a path is the one
      built from it: SupabaseFileUrl is a bijection between truthy paths and such URLs. */
  lemma FileUrlRoundTrip(supabaseUrl: string, filePath: Option<string>, uri: string)
    ensures IsTruthy(filePath) ==>
      PathOfFileUrl(supabaseUrl, SupabaseFileUrl(supabaseUrl, filePath).value) == filePath
    ensures PathOfFileUrl(supabaseUrl, uri).Some? ==>
      SupabaseFileUrl(supabaseUrl, PathOfFileUrl(supabaseUrl, uri)) == Some(uri)
  {
    var prefix := supabaseUrl + SignedUploadsPath;
    if IsTruthy(filePath) {
      var u := SupabaseFileUrl(supabaseUrl, filePath).value;
      assert u == prefix + filePath.value;
      assert u[..|prefix|] == prefix && u[|prefix|..] == filePath.value;
    }
    if PathOfFileUrl(supabaseUrl, uri).Some? {
      assert uri == uri[..|prefix|] + uri[|prefix|..];
    }
  }

  /** What an avatar `Image` is given: a remote `{uri}` or the bundled default picture. */
  datatype ImageSource = Uri(uri: string) | DefaultUserImage

  /** `getUserImageSrc`: the signed URL of a truthy path, the default picture otherwise. */
  function UserImageSrc(supabaseUrl: string, imagePath: Option<string>): (r: ImageSource)
    ensures r == DefaultUserImage <==> !IsTruthy(imagePath)
    ensures r.Uri? ==> SupabaseFileUrl(supabaseUrl, imagePath) == Some(r.uri)
  {
    match SupabaseFileUrl(supabaseUrl, imagePath)
    case Some(u) => Uri(u)
    case None => DefaultUserImage
  }

  /** `getFilePath`: `/<folder>/<milliseconds>.png` for an image, `.mp4` otherwise. */
  function FilePath(folderName: string, isImage: bool, timestamp: nat): string {
    "/" + folderName + "/" + DecimalDigits(timestamp) + (if isImage then ".png" else ".mp4")
  }

  datatype FilePathParts = FilePathParts(folderName: string, timestamp: nat, isImage: bool)

  predicate AllDigits(s: string) {
    forall i :: 0 <= i < |s| ==> '0' <= s[i] <= '9'
  }

  /** Reads a path of FilePath's shape back into its folder, timestamp and media kind. */
  function ParseFilePath(path: string): Option<FilePathParts> {
    if |path| == 0 || path[0] != '/' then None
    else
      match IndexOf(path[1..], '/')
      case None => None
      case Some(k) =>
        var rest := path[k + 2..];
        if |rest| < 5 then None
        else
          var ext := rest[|rest| - 4..];
          var digits := rest[..|rest| - 4];
          if (ext == ".png" || ext == ".mp4") && AllDigits(digits)
          then Some(FilePathParts(path[1..k + 1], DigitsValue(digits), ext == ".png"))
          else None
  }

  /** Where the pieces of a file path sit: the leading `/`, the folder, the separating
      `/`, then the digits and the extension. */
  lemma FilePathPieces(folderName: string, isImage: bool, timestamp: nat)
    ensures var path := FilePath(folderName, isImage, timestamp);
      |path| >= |folderName| + 2 && path[0] == '/'
      && path[1..][..|folderName|] == folderName && path[1..][|folderName|] == '/'
      && path[1..|folderName| + 1] == folderName
      && path[|folderName| + 2..] == DecimalDigits(timestamp) + (if isImage then ".png" else ".mp4")
  {
    var digits := DecimalDigits(timestamp);
    var ext := if isImage then ".png" else ".mp4";
    var path := FilePath(folderName, isImage, timestamp);
    assert path == "/" + folderName + ("/" + (digits + ext));
    Text.SliceOfJoinLeft("/" + folderName, "/" + (digits + ext), 1, |folderName| + 1);
    Text.SliceOfJoinRight("/" + folderName + "/", digits + ext, |folderName| + 2, |path|);
    assert path == "/" + folderName + "/" + (digits + ext);
  }

  /** The folder, the timestamp and the image/video choice can all be read back from the
      path, provided the folder name is a single path segment (as both callers' are). */
  lemma FilePathRoundTrip(folderName: string, isImage: bool, timestamp: nat)
    requires '/' !in folderName
    ensures ParseFilePath(FilePath(folderName, isImage, timestamp))
         == Some(FilePathParts(folderName, timestamp, isImage))
  {
    var digits := DecimalDigits(timestamp);
    var ext := if isImage then ".png" else ".mp4";
    var path := FilePath(folderName, isImage, timestamp);
    FilePathPieces(folderName, isImage, timestamp);
    var tail := path[1..];
    var k := IndexOf(tail, '/');
    assert k == Some(|folderName|);
    var rest := path[|folderName| + 2..];
    assert rest[|rest| - 4..] == ext;
    assert rest[..|rest| - 4] == digits;
    DigitsValueOfDecimalDigits(timestamp);
  }
}
