/**
 * The object-storage string functions (`S3Service`): the `s3://` URI and the
 * public `https://` URL of a key, and the key recovered from a URI. The AWS
 * calls themselves are outcomes given to the functions.
 */
module Storage {
  import opened Wrappers
  import opened Text

  /** The bucket and region an `S3Service` was built with (region defaults to eu-west-1). */
  datatype S3Service = S3Service(bucketName: string, region: string)

  const DefaultRegion: string := "eu-west-1"

  /** A key with at most one leading '/' removed (`charAt(0) == '/'` then `slice(1)`). */
  function StripLeadingSlash(key: string): (k: string)
    ensures |key| > 0 && key[0] == '/' ==> key == "/" + k
    ensures !(|key| > 0 && key[0] == '/') ==> k == key
  {
    if |key| > 0 && key[0] == '/' then key[1..] else key
  }

  function UriPrefix(s: S3Service): string
  {
    "s3://" + s.bucketName + "/"
  }

  function UrlPrefix(s: S3Service): string
  {
    "https://" + s.bucketName + ".s3." + s.region + ".amazonaws.com/"
  }

  /** `buildUri`: `s3://{bucket}/{key}`. */
  function BuildUri(s: S3Service, key: string): (uri: string)
    ensures StartsWith(uri, UriPrefix(s))
    ensures uri[|UriPrefix(s)|..] == StripLeadingSlash(key)
  {
    UriPrefix(s) + StripLeadingSlash(key)
  }

  /** `buildUrl`: `https://{bucket}.s3.{region}.amazonaws.com/{key}`. */
  function BuildUrl(s: S3Service, key: string): (url: string)
    ensures StartsWith(url, "https://")
    ensures StartsWith(url, UrlPrefix(s)) && url[|UrlPrefix(s)|..] == StripLeadingSlash(key)
  {
    UrlPrefix(s) + StripLeadingSlash(key)
  }

  /**
   * `extractKey`: for an `s3://` URI, the first occurrence of `s3://{bucket}/`
   * is removed (`String.replace` with a string pattern); every other URI,
   * `https://` ones included, is returned unchanged.
   */
  function ExtractKey(s: S3Service, uri: string): (key: string)
    ensures !StartsWith(uri, "s3://") ==> key == uri
    ensures StartsWith(uri, UriPrefix(s)) ==> key == uri[|UriPrefix(s)|..]
  {
    var p := UriPrefix(s);
    assert StartsWith(uri, p) ==> StartsWith(uri, "s3://") by {
      if StartsWith(uri, p) { assert uri[..5] == p[..5]; }
    }
    if !StartsWith(uri, "s3://") then uri
    else
      assert StartsWith(uri, p) ==> ReplaceFirst(uri, p, "") == uri[|p|..] by {
        if StartsWith(uri, p) {
          assert uri == p + uri[|p|..];
          ReplaceFirstAtStart(p, uri[|p|..]);
        }
      }
      ReplaceFirst(uri, p, "")
  }

  /** Round trip: the key of a built URI is the key without its leading slash. */
  lemma {:induction false} ExtractKeyOfBuildUri(s: S3Service, key: string)
    ensures ExtractKey(s, BuildUri(s, key)) == StripLeadingSlash(key)
  {
    var uri := BuildUri(s, key);
    assert uri[..5] == "s3://";
    ReplaceFirstAtStart(UriPrefix(s), StripLeadingSlash(key));
  }

  /** A URI that is not an `s3://` one, such as an `https://` URL, comes back unchanged. */
  lemma {:induction false} ExtractKeyKeepsOtherUris(s: S3Service, uri: string)
    requires !StartsWith(uri, "s3://")
    ensures ExtractKey(s, uri) == uri
  {
  }

  /** An `s3://` URI that never mentions the service's own bucket prefix comes back unchanged. */
  lemma {:induction false} ExtractKeyForeignBucket(s: S3Service, uri: string)
    requires forall j :: 0 <= j <= |uri| ==> !OccursAt(uri, UriPrefix(s), j)
    ensures ExtractKey(s, uri) == uri
  {
    assert IndexOf(uri, UriPrefix(s)).None?;
  }

  /** Only one leading slash is dropped: `//k` keeps the second one. */
  lemma {:induction false} BuildUriStripsOneSlash(s: S3Service, key: string)
    ensures BuildUri(s, "/" + key) == UriPrefix(s) + key
    ensures BuildUrl(s, "/" + key) == UrlPrefix(s) + key
  {
    assert ("/" + key)[1..] == key;
  }

  /** A presigned PUT URL and the public URL of the key it uploads to (`S3SignedURL`). */
  datatype SignedUrl = SignedUrl(signed: string, url: string)

  /**
   * The result mapping of `getSignedUploadUrl`. `signing` is what the presigner
   * produced (`None` when it threw); an empty string is falsy and fails too.
   */
  function SignedUploadUrl(s: S3Service, key: string, signing: Option<string>): (r: Result<SignedUrl, ()>)
    ensures r.Ok? <==> signing.Some? && signing.value != ""
    ensures r.Ok? ==> r.value.signed == signing.value && r.value.url == BuildUrl(s, key)
  {
    if signing.Some? && signing.value != "" then Ok(SignedUrl(signing.value, BuildUrl(s, key)))
    else Fail(())
  }

  /** Outcome of `headObject`: a content length, a NotFound error, or another error. */
  datatype HeadOutcome = Head(contentLength: int) | NotFound | OtherError(cause: string)

  /** The result mapping of `fileSize`: a missing object has size 0, other errors fail. */
  function FileSize(head: HeadOutcome): (r: Result<int, string>)
    ensures r.Fail? <==> head.OtherError?
    ensures head.NotFound? ==> r == Ok(0)
    ensures head.Head? ==> r == Ok(head.contentLength)
    ensures r.Fail? ==> r.error == head.cause
  {
    match head
    case Head(n) => Ok(n)
    case NotFound => Ok(0)
    case OtherError(e) => Fail(e)
  }
}
