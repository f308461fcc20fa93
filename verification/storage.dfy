/**
 * Where an uploaded image goes (apps/mobile/lib/storage.ts): the file
 * extension taken from the picked image's URI, the object path
 * `{userId}/{timestamp}.{ext}` inside a bucket, and the content type.
 * The upload itself is not modelled; the clock reading `Date.now()` is a
 * parameter.
 */
module Storage {

  import opened Wrappers
  import Text

  datatype Bucket = Avatars | EventPhotos

  function BucketName(bucket: Bucket): string {
    match bucket
    case Avatars => "avatars"
    case EventPhotos => "event-photos"
  }

  /** Everything the upload call is given besides the image bytes. */
  datatype UploadPlan = UploadPlan(bucket: Bucket, path: string, contentType: string, upsert: bool)

  /**
   * `imageUri.split(".").pop() ?? "jpg"`: the text after the last "." of the
   * URI, that is a suffix of it, free of ".", and preceded by "." unless it
   * is the whole URI.
   */
  function Extension(imageUri: string): (ext: string)
    ensures |ext| <= |imageUri| && imageUri[|imageUri| - |ext|..] == ext
    ensures '.' !in ext
    ensures |ext| < |imageUri| ==> imageUri[|imageUri| - |ext| - 1] == '.'
  {
    Text.LastPieceIsSuffixAfterSeparator(imageUri, '.');
    Text.Pop(Text.Split(imageUri, '.')).GetOr("jpg")
  }

  /**
   * `${userId}/${timestamp}.${ext}`, which reads back as documented: for a
   * "."-free extension its text after the last "." is the extension, and,
   * for a user id without "/", its first "/"-piece is the user id.
   */
  function ObjectPath(userId: string, timestamp: int, ext: string): (path: string)
    ensures '.' !in ext ==> Extension(path) == ext
    ensures '/' !in userId ==> Text.FirstPiece(path, '/') == userId
  {
    var stamp := Text.IntToDecimal(timestamp);
    var path := userId + "/" + stamp + "." + ext;
    Text.DecimalAvoids(timestamp, '.');
    Text.DecimalAvoids(timestamp, '/');
    assert path == (userId + "/" + stamp) + ['.'] + ext;
    Text.PiecesAroundSeparator(userId + "/" + stamp, ext, '.');
    assert path == userId + ['/'] + (stamp + "." + ext);
    Text.PiecesAroundSeparator(userId, stamp + "." + ext, '/');
    path
  }

  /** What `uploadAvatar` sends: the avatars bucket, overwriting allowed. */
  function PlanAvatarUpload(userId: string, imageUri: string, timestamp: int): (plan: UploadPlan)
    ensures plan.bucket == Avatars && plan.upsert
    ensures plan.contentType == "image/" + Extension(imageUri)
  {
    var ext := Extension(imageUri);
    UploadPlan(Avatars, ObjectPath(userId, timestamp, ext), "image/" + ext, true)
  }

  /** What `uploadEventPhoto` sends: the event-photos bucket, no overwriting. */
  function PlanEventPhotoUpload(userId: string, imageUri: string, timestamp: int): (plan: UploadPlan)
    ensures plan.bucket == EventPhotos && !plan.upsert
    ensures plan.contentType == "image/" + Extension(imageUri)
  {
    var ext := Extension(imageUri);
    UploadPlan(EventPhotos, ObjectPath(userId, timestamp, ext), "image/" + ext, false)
  }

  /**
   * The "jpg" fallback is never taken: splitting always yields a piece, so
   * a URI without "." becomes its own extension, even the empty URI.
   */
  lemma JpgFallbackUnreachable(imageUri: string)
    ensures Text.Pop(Text.Split(imageUri, '.')).Some?
    ensures '.' !in imageUri ==> Extension(imageUri) == imageUri
    ensures Extension("") == ""
  {
    if '.' !in imageUri {
      Text.SplitNoSeparator(imageUri, '.');
    }
  }

  /**
   * The full storage location is `{bucket}/{userId}/{timestamp}.{ext}`, and
   * the two uploads differ only in the bucket and the upsert flag.
   */
  lemma UploadsDifferOnlyInBucketAndUpsert(userId: string, imageUri: string, timestamp: int)
    ensures var avatar := PlanAvatarUpload(userId, imageUri, timestamp);
      var photo := PlanEventPhotoUpload(userId, imageUri, timestamp);
      && avatar.path == photo.path
      && avatar.contentType == photo.contentType
      && avatar.bucket != photo.bucket
      && avatar.upsert != photo.upsert
      && BucketName(avatar.bucket) + "/" + avatar.path
         == "avatars/" + userId + "/" + Text.IntToDecimal(timestamp) + "." + Extension(imageUri)
      && BucketName(photo.bucket) + "/" + photo.path
         == "event-photos/" + userId + "/" + Text.IntToDecimal(timestamp) + "." + Extension(imageUri)
  {
    var ext := Extension(imageUri);
    var rest := userId + "/" + Text.IntToDecimal(timestamp) + "." + ext;
    assert PlanAvatarUpload(userId, imageUri, timestamp) == UploadPlan(Avatars, rest, "image/" + ext, true);
    assert PlanEventPhotoUpload(userId, imageUri, timestamp) == UploadPlan(EventPhotos, rest, "image/" + ext, false);
  }
}
