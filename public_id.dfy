/**
 * The public id that `deleteFile` hands to the media service: the text after
 * `/upload/` in a delivery URL, without a leading version folder `v<digits>/`
 * and without a trailing media extension. The call to the media service
 * itself is not part of this model.
 */
module PublicId {
  import opened Wrappers
  import opened Api
  import Decimal

  const UploadMarker: string := "/upload/"

  /** The extensions of `/\.(mp4|ogv|webm|jpg)$/`. */
  const MediaExtensions: seq<string> := [".mp4", ".ogv", ".webm", ".jpg"]

  const InvalidUrl: ApiError := ApiError(500, "Invalid url!!")

  predicate OccursAt(s: string, pat: string, k: int)
  {
    0 <= k && k + |pat| <= |s| && s[k..k + |pat|] == pat
  }

  /** The first occurrence of `pat` in `s` at or after `from`. */
  function IndexOfFrom(s: string, pat: string, from: nat): (r: Option<nat>)
    ensures r.Some? ==> from <= r.value && OccursAt(s, pat, r.value) &&
                        forall k :: from <= k < r.value ==> !OccursAt(s, pat, k)
    ensures r.None? ==> forall k :: from <= k ==> !OccursAt(s, pat, k)
    decreases |s| - from
  {
    if from + |pat| > |s| then None
    else if s[from..from + |pat|] == pat then Some(from)
    else IndexOfFrom(s, pat, from + 1)
  }

  /**
   * `parts[1]` of `url.split("/upload/")` when `url` holds `i` as its first
   * occurrence of the marker: the text from the end of that occurrence up to
   * the next occurrence, or to the end of the string.
   */
  ghost predicate SecondPartAt(url: string, i: nat, seg: string)
  {
    var start := i + |UploadMarker|;
    && OccursAt(url, UploadMarker, i)
    && (forall k :: 0 <= k < i ==> !OccursAt(url, UploadMarker, k))
    && start + |seg| <= |url|
    && url[start..start + |seg|] == seg
    && (forall k :: start <= k < start + |seg| ==> !OccursAt(url, UploadMarker, k))
    && (start + |seg| == |url| || OccursAt(url, UploadMarker, start + |seg|))
  }

  ghost predicate IsSecondPart(url: string, seg: string)
  {
    exists i: nat :: SecondPartAt(url, i, seg)
  }

  /** `parts[1]`, or None when the split yields fewer than two parts. */
  function SecondPart(url: string): (r: Option<string>)
    ensures r.None? <==> forall k :: !OccursAt(url, UploadMarker, k)
    ensures r.Some? ==> IsSecondPart(url, r.value)
  {
    match IndexOfFrom(url, UploadMarker, 0)
    case None => None
    case Some(i) =>
      var start := i + |UploadMarker|;
      var end := match IndexOfFrom(url, UploadMarker, start)
        case None => |url|
        case Some(j) => j;
      var seg := url[start..end];
      assert SecondPartAt(url, i, seg);
      Some(seg)
  }

  /** A URL has at most one second part. */
  lemma SecondPartUnique(url: string, s1: string, s2: string)
    requires IsSecondPart(url, s1) && IsSecondPart(url, s2)
    ensures s1 == s2
  {
    var i: nat :| SecondPartAt(url, i, s1);
    var j: nat :| SecondPartAt(url, j, s2);
    assert i == j;
    assert |s1| == |s2|;
  }

  /** Length of the run of digits in `s` that starts at `from`. */
  function DigitRun(s: string, from: nat): (n: nat)
    requires from <= |s|
    ensures from + n <= |s|
    ensures forall k :: from <= k < from + n ==> Decimal.IsDigit(s[k])
    ensures from + n < |s| ==> !Decimal.IsDigit(s[from + n])
    decreases |s| - from
  {
    if from < |s| && Decimal.IsDigit(s[from]) then 1 + DigitRun(s, from + 1) else 0
  }

  /** `s` starts with `v`, then the `k >= 1` digits `s[1..k + 1]`, then `/`: what `/^v\d+\//` matches. */
  ghost predicate VersionPrefix(s: string, k: nat)
  {
    1 <= k && k + 2 <= |s| && s[0] == 'v' &&
    (forall j :: 1 <= j <= k ==> Decimal.IsDigit(s[j])) && s[k + 1] == '/'
  }

  /** `replace(/^v\d+\//, '')`: a version folder is removed at the very start only, and once. */
  function StripVersion(s: string): (r: string)
    ensures forall k :: VersionPrefix(s, k) ==> r == s[k + 2..]
    ensures (forall k :: !VersionPrefix(s, k)) ==> r == s
  {
    if |s| >= 1 && s[0] == 'v' then
      var n := DigitRun(s, 1);
      if n >= 1 && n + 1 < |s| && s[n + 1] == '/' then
        assert VersionPrefix(s, n);
        VersionPrefixUnique(s, n);
        s[n + 2..]
      else
        assert forall k :: VersionPrefix(s, k) ==> k == n by {
          forall k | VersionPrefix(s, k) ensures k == n { VersionRunLength(s, k); }
        }
        s
    else s
  }

  /** The digits of a version prefix are the whole digit run after the `v`. */
  lemma VersionRunLength(s: string, k: nat)
    requires VersionPrefix(s, k)
    ensures DigitRun(s, 1) == k
  {
  }

  lemma VersionPrefixUnique(s: string, n: nat)
    requires VersionPrefix(s, n)
    ensures forall k :: VersionPrefix(s, k) ==> k == n
  {
    forall k | VersionPrefix(s, k) ensures k == n {
      VersionRunLength(s, k);
      VersionRunLength(s, n);
    }
  }

  predicate EndsWith(s: string, suffix: string)
  {
    |suffix| <= |s| && s[|s| - |suffix|..] == suffix
  }

  /** The media extension `s` ends with, tried in the order of the alternation. */
  function ExtensionOf(s: string): (e: Option<string>)
    ensures e.Some? ==> e.value in MediaExtensions && EndsWith(s, e.value)
    ensures e.None? ==> forall x :: x in MediaExtensions ==> !EndsWith(s, x)
  {
    if EndsWith(s, ".mp4") then Some(".mp4")
    else if EndsWith(s, ".ogv") then Some(".ogv")
    else if EndsWith(s, ".webm") then Some(".webm")
    else if EndsWith(s, ".jpg") then Some(".jpg")
    else None
  }

  /** `replace(/\.(mp4|ogv|webm|jpg)$/, '')`: one trailing media extension is removed. */
  function StripExtension(s: string): (r: string)
    ensures forall e :: e in MediaExtensions && EndsWith(s, e) ==> r + e == s
    ensures (forall e :: e in MediaExtensions ==> !EndsWith(s, e)) ==> r == s
  {
    match ExtensionOf(s)
    case None => s
    case Some(e0) =>
      OnlyExtension(s, e0);
      assert s[..|s| - |e0|] + e0 == s;
      s[..|s| - |e0|]
  }

  /** A string ends with at most one media extension. */
  lemma OnlyExtension(s: string, e0: string)
    requires e0 in MediaExtensions && EndsWith(s, e0)
    ensures forall e :: e in MediaExtensions && EndsWith(s, e) ==> e == e0
  {
    forall e | e in MediaExtensions && EndsWith(s, e) ensures e == e0 {
      ExtensionsEndDifferently(s, e, e0);
    }
  }

  /** No string ends with two different media extensions: their last characters differ. */
  lemma ExtensionsEndDifferently(s: string, e1: string, e2: string)
    requires e1 in MediaExtensions && e2 in MediaExtensions
    requires EndsWith(s, e1) && EndsWith(s, e2)
    ensures e1 == e2
  {
    assert s[|s| - 1] == e1[|e1| - 1];
    assert s[|s| - 1] == e2[|e2| - 1];
  }

  /**
   * The public-id extraction of `deleteFile`: an error when the URL has no
   * `/upload/`, otherwise the second part of the split with the version and
   * extension removed.
   */
  function ExtractPublicId(url: string): (r: Result<string, ApiError>)
    ensures r.Failure? <==> forall k :: !OccursAt(url, UploadMarker, k)
    ensures r.Failure? ==> r.error == InvalidUrl
    ensures r.Success? ==> exists seg :: IsSecondPart(url, seg) && r.value == StripExtension(StripVersion(seg))
  {
    match SecondPart(url)
    case None => Failure(InvalidUrl)
    case Some(seg) => Success(StripExtension(StripVersion(seg)))
  }

  /** The version folder is removed once: a second one stays. */
  lemma StripVersionOnce()
    ensures StripVersion("v1/v2/clip") == "v2/clip"
  {
    assert VersionPrefix("v1/v2/clip", 1);
  }

  /** A `v` that is not followed by digits and a slash is kept. */
  lemma StripVersionNeedsDigits()
    ensures StripVersion("v/clip") == "v/clip"
    ensures StripVersion("video/clip") == "video/clip"
  {
    assert "v/clip"[1] == '/';
    assert "video/clip"[1] == 'i';
  }

  /** Only the listed extensions are removed, and only at the end. */
  lemma StripExtensionExamples()
    ensures StripExtension("folder/clip.mp4") == "folder/clip"
    ensures StripExtension("folder/clip.png") == "folder/clip.png"
    ensures StripExtension("folder/clip.mp4.gz") == "folder/clip.mp4.gz"
  {
    var a, b, c := "folder/clip.mp4", "folder/clip.png", "folder/clip.mp4.gz";
    assert a[|a| - 4..] == ".mp4";
    assert ExtensionOf(a) == Some(".mp4");
    assert a[..|a| - 4] == "folder/clip";
    assert b[|b| - 1] == 'g' && c[|c| - 1] == 'z';
    assert ExtensionOf(b) == None && ExtensionOf(c) == None;
  }
}
