/** Avatar storage (backend/config/cloudinary.js): which uploads are accepted,
    and which stored image a replaced avatar's URL names for deletion. The
    image host itself is not modelled; `DeleteOldAvatar` answers the public
    identifier the host is asked to destroy. */
module Cloudinary {
  import opened Common
  import opened Text

  /** The upload size limit: 5 MB. */
  const MaxFileSize: int := 5 * 1024 * 1024

  /** The image host's domain, as it appears in the URLs of stored images. */
  const Host: string := "cloudinary.com"

  /** The folder avatars are stored in, as a public identifier prefix. */
  const AvatarPrefix: string := "freefor-games/avatars/"

  datatype UploadedFile = UploadedFile(mimetype: string, size: int, path: string)

  /** `fileFilter`: only image types are accepted. */
  predicate FileFilter(mimetype: string) {
    StartsWith(mimetype, "image/")
  }

  /** What the upload middleware lets through to the route handler. */
  predicate Accepted(f: UploadedFile) {
    FileFilter(f.mimetype) && f.size <= MaxFileSize
  }

  /** The public identifier named by a URL: its last path segment up to the
      first dot. */
  function AvatarId(url: string): (id: string)
    ensures '/' !in id && '.' !in id && StartsWith(AfterLast(url, '/'), id)
    ensures |id| == |AfterLast(url, '/')| || AfterLast(url, '/')[|id|] == '.'
  {
    var file := AfterLast(url, '/');
    var id := BeforeFirst(file, '.');
    PrefixKeepsAbsent(id, file, '/');
    id
  }

  /** A character missing from a string is missing from each of its prefixes. */
  lemma PrefixKeepsAbsent(a: string, b: string, c: char)
    requires a <= b && c !in b
    ensures c !in a
  {
    forall k | 0 <= k < |a| ensures a[k] != c {
      assert a[k] == b[k];
    }
  }

  /** `deleteOldAvatar(url)`: the public identifier destroyed for a hosted
      avatar URL (the last path segment up to its first dot, in the avatar
      folder), or nothing for any other URL. It never fails. */
  function DeleteOldAvatar(url: string): (destroyed: Option<string>)
    ensures destroyed.Some? <==> url != "" && Contains(url, Host)
    ensures destroyed.Some? ==> StartsWith(destroyed.value, AvatarPrefix)
    ensures destroyed.Some? ==>
      var id := destroyed.value[|AvatarPrefix|..];
      && '/' !in id && '.' !in id && StartsWith(AfterLast(url, '/'), id)
      && (|id| == |AfterLast(url, '/')| || AfterLast(url, '/')[|id|] == '.')
  {
    if url != "" && Contains(url, Host) then
      var id := AvatarId(url);
      assert (AvatarPrefix + id)[|AvatarPrefix|..] == id;
      Some(AvatarPrefix + id)
    else None
  }

  /** An avatar the host stored as `<base>/<name>.<ext>` is destroyed under
      the public identifier it was uploaded with. */
  lemma DeleteOldAvatarFindsUpload(base: string, name: string, ext: string)
    requires Contains(base, Host)
    requires '/' !in name && '.' !in name && '/' !in ext
    ensures DeleteOldAvatar(base + "/" + name + "." + ext) == Some(AvatarPrefix + name)
  {
    var file := name + "." + ext;
    var url := base + "/" + name + "." + ext;
    assert url == base + ("/" + file) && url == base + "/" + file;
    ContainsExtend(base, "/" + file, Host);
    AfterLastOfSuffix(base, file);
    BeforeFirstOfPrefix(name, ext);
    assert url != "";
  }
}
