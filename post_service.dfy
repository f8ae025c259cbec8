/** The storage side of `createPost` (services/postService.js): which folder an upload goes
    to, and how the screens that later read the stored file classify it. */
module PostService {
  import opened Wrappers
  import opened Text
  import opened Schema
  import ImageServices
  import Home
  import Profile

  /** The bucket folder `createPost` picks: images and everything else (videos) apart. */
  function UploadFolder(isImage: bool): (folder: string)
    ensures isImage ==> Contains(folder, "postImages")
    ensures !isImage ==> Contains(folder, "postVideos")
  {
    if isImage then
      ContainedInMiddle([], "postImages", []);
      assert [] + "postImages" + [] == "postImages";
      "postImages"
    else
      ContainedInMiddle([], "postVideos", []);
      assert [] + "postVideos" + [] == "postVideos";
      "postVideos"
  }

  /** The object path `uploadFile` stores a picked asset under at `timestamp`: an asset whose
      `type` is "image" is an image, anything else a video. */
  function UploadPath(assetType: Option<string>, timestamp: nat): string
  {
    var isImage := assetType == Some("image");
    ImageServices.FilePath(UploadFolder(isImage), isImage, timestamp)
  }

  /** The stored path parses back into the folder, the timestamp and the kind it was made of. */
  lemma UploadPathParses(assetType: Option<string>, timestamp: nat)
    ensures ImageServices.ParseFilePath(UploadPath(assetType, timestamp))
         == Some(ImageServices.FilePathParts(UploadFolder(assetType == Some("image")), timestamp,
                                             assetType == Some("image")))
  {
    ImageServices.FilePathRoundTrip(UploadFolder(assetType == Some("image")), assetType == Some("image"), timestamp);
  }

  /** The path of an upload, spelled out. */
  lemma UploadPathShape(assetType: Option<string>, timestamp: nat)
    ensures assetType == Some("image") ==>
      UploadPath(assetType, timestamp) == "/" + "postImages" + ("/" + DecimalDigits(timestamp) + ".png")
    ensures assetType != Some("image") ==>
      UploadPath(assetType, timestamp) == "/" + "postVideos" + ("/" + DecimalDigits(timestamp) + ".mp4")
  {
  }

  /** A character absent from three strings is absent from their concatenation. */
  lemma AbsentFromJoin(a: string, b: string, c: string, ch: char)
    requires ch !in a && ch !in b && ch !in c
    ensures ch !in a + b + c
  {
  }

  /** No letter occurs in a timestamp's digits, nor in the literal parts of an upload path. */
  lemma LetterAbsentFromTail(timestamp: nat, ext: string, ch: char)
    requires ch == 'I' || ch == 'V'
    requires ch !in ext
    ensures ch !in "/" + DecimalDigits(timestamp) + ext
  {
    var d := DecimalDigits(timestamp);
    forall i | 0 <= i < |d| ensures d[i] != ch { }
    AbsentFromJoin("/", d, ext, ch);
  }

  /** A video's path names the video folder, not the image folder, and starts with `/`
      and ends with `4`, neither of which occurs in `postImages`. */
  lemma VideoPathFolders(assetType: Option<string>, timestamp: nat)
    requires assetType != Some("image")
    ensures var path := UploadPath(assetType, timestamp);
      |path| > 0 && path[0] == '/' && path[|path| - 1] == '4'
      && Contains(path, "postVideos") && !Contains(path, "postImages")
  {
    var rest := "/" + DecimalDigits(timestamp) + ".mp4";
    var path := UploadPath(assetType, timestamp);
    UploadPathShape(assetType, timestamp);
    ContainedInMiddle("/", "postVideos", rest);
    LetterAbsentFromTail(timestamp, ".mp4", 'I');
    AbsentFromJoin("/", "postVideos", rest, 'I');
    MissingCharNotContained(path, "postImages", 'I');
  }

  /** An image's path names the image folder, not the video folder, and starts with `/`
      and ends with `g`, neither of which occurs in `postVideos`. */
  lemma ImagePathFolders(assetType: Option<string>, timestamp: nat)
    requires assetType == Some("image")
    ensures var path := UploadPath(assetType, timestamp);
      |path| > 0 && path[0] == '/' && path[|path| - 1] == 'g'
      && Contains(path, "postImages") && !Contains(path, "postVideos")
  {
    var rest := "/" + DecimalDigits(timestamp) + ".png";
    var path := UploadPath(assetType, timestamp);
    UploadPathShape(assetType, timestamp);
    ContainedInMiddle("/", "postImages", rest);
    LetterAbsentFromTail(timestamp, ".png", 'V');
    AbsentFromJoin("/", "postImages", rest, 'V');
    MissingCharNotContained(path, "postVideos", 'V');
  }

  /** A stored video, wherever it sits inside the URL the feed later reads (the signed URL
      wraps the path in a host prefix and a token suffix), is played as a video by the feed.
      The profile grid shows it as a video exactly when neither part of the wrapper spells
      the image folder's name: no occurrence can straddle the path. */
  lemma UploadedVideoReadsAsVideo(assetType: Option<string>, timestamp: nat, before: string, after: string)
    requires assetType != Some("image")
    ensures Home.MediaTypeOf(before + UploadPath(assetType, timestamp) + after) == Video
    ensures Profile.FileType(Some(before + UploadPath(assetType, timestamp) + after)) == Some(Video)
        <==> !Contains(before, "postImages") && !Contains(after, "postImages")
  {
    var path := UploadPath(assetType, timestamp);
    var url := before + path + after;
    VideoPathFolders(assetType, timestamp);
    ContainedInPart(before, path, after, "postVideos");
    assert Home.MediaTypeOf(url) == Video;
    if !Contains(before, "postImages") && !Contains(after, "postImages") {
      NotContainedAcross(before, path, after, "postImages");
      assert Profile.FileType(Some(url)) == Some(Video);
    } else {
      ContainedInPart(before, path, after, "postImages");
      assert Profile.FileType(Some(url)) == Some(Image);
    }
  }

  /** A stored image is shown as an image by the profile grid wherever it sits inside the
      URL. The feed treats it as an image exactly when neither part of the wrapper spells
      the video folder's name. */
  lemma UploadedImageReadsAsImage(assetType: Option<string>, timestamp: nat, before: string, after: string)
    requires assetType == Some("image")
    ensures Profile.FileType(Some(before + UploadPath(assetType, timestamp) + after)) == Some(Image)
    ensures Home.MediaTypeOf(before + UploadPath(assetType, timestamp) + after) == Image
        <==> !Contains(before, "postVideos") && !Contains(after, "postVideos")
  {
    var path := UploadPath(assetType, timestamp);
    var url := before + path + after;
    ImagePathFolders(assetType, timestamp);
    ContainedInPart(before, path, after, "postImages");
    assert Profile.FileType(Some(url)) == Some(Image);
    if !Contains(before, "postVideos") && !Contains(after, "postVideos") {
      NotContainedAcross(before, path, after, "postVideos");
      assert Home.MediaTypeOf(url) == Image;
    } else {
      ContainedInPart(before, path, after, "postVideos");
      assert Home.MediaTypeOf(url) == Video;
    }
  }
}
