/**
 * Locating the latest firmware release.
 *
 * The manager asks the GitHub releases API for the latest release, reads its
 * `tag_name`, strips one leading 'v', builds the download URL of the binary
 * from a fixed template and (h1 only) follows one redirect to the final
 * location. The HTTP client and the JSON parser are foreign code: their
 * answers arrive here as values.
 */
module ReleaseLocator {

  const GITHUB_DOWNLOAD_BASE: string := "https://github.com/heartoken/satisfactron-fw/releases/download/"

  /** The h1 asset name stem, as in `satisfactron-h1-fw_24.06.01.2.bin`. */
  const H1_ASSET_STEM: string := "/satisfactron-h1-fw_"

  /** The poc_v1 asset name stem, as in `satisfactron-fw-h1_24.06.01.2.bin`. */
  const POC_ASSET_STEM: string := "/satisfactron-fw-h1_"

  const HTTP_CODE_OK: int := 200

  /** What `deserializeJson` made of the body: an error, or the release's fields. */
  datatype JsonOutcome =
    | JsonError
    | JsonOk(tagName: string, prerelease: bool)

  /** The answer to `GET .../releases/latest`: the status code and the parsed body. */
  datatype ReleaseReply = ReleaseReply(httpCode: int, body: JsonOutcome)

  /** `tagName.startsWith("v")` then `tagName.substring(1)`. */
  function StripVPrefix(tag: string): (version: string)
    ensures |tag| > 0 && tag[0] == 'v' ==> version == tag[1..]
    ensures !(|tag| > 0 && tag[0] == 'v') ==> version == tag
  {
    if |tag| > 0 && tag[0] == 'v' then tag[1..] else tag
  }

  /**
   * `getLatestReleaseVersion`: "" when the request or the JSON parse fails,
   * otherwise the tag without its 'v'. The `prerelease` flag plays no part.
   */
  function LatestReleaseVersion(reply: ReleaseReply): (version: string)
    ensures reply.httpCode != HTTP_CODE_OK ==> version == ""
    ensures reply.body.JsonError? ==> version == ""
    ensures reply.httpCode == HTTP_CODE_OK && reply.body.JsonOk? ==>
              version == StripVPrefix(reply.body.tagName)
  {
    if reply.httpCode != HTTP_CODE_OK then ""
    else match reply.body
      case JsonError => ""
      case JsonOk(tag, _) => StripVPrefix(tag)
  }

  /** Exactly one 'v' is removed: a tag "v" + x yields x, even when x starts with 'v'. */
  lemma StripRemovesOneV(x: string)
    ensures StripVPrefix("v" + x) == x
  {
    assert ("v" + x)[1..] == x;
  }

  lemma StripDoubleV()
    ensures StripVPrefix("vv1") == "v1"
  {
    StripRemovesOneV("v1");
    assert "v" + "v1" == "vv1";
  }

  /** Stripping can be undone: the tag is "v" + version or the version itself. */
  lemma StripIsRecoverable(tag: string)
    ensures tag == "v" + StripVPrefix(tag) || (tag == StripVPrefix(tag) && (|tag| == 0 || tag[0] != 'v'))
  {
    if |tag| > 0 && tag[0] == 'v' {
      assert tag == [tag[0]] + tag[1..];
    }
  }

  /** A release is found exactly when the request succeeded, parsed, and the tag is not just "v" or "". */
  lemma FoundExactlyWhen(reply: ReleaseReply)
    ensures LatestReleaseVersion(reply) != "" <==>
              reply.httpCode == HTTP_CODE_OK && reply.body.JsonOk? &&
              reply.body.tagName != "" && reply.body.tagName != "v"
  {
    if reply.httpCode == HTTP_CODE_OK && reply.body.JsonOk? {
      var tag := reply.body.tagName;
      if |tag| > 0 && tag[0] == 'v' && |tag| == 1 {
        assert tag == "v";
      }
    }
  }

  /** The prerelease flag is read but decides nothing. */
  lemma PrereleaseIgnored(code: int, tag: string, p: bool, q: bool)
    ensures LatestReleaseVersion(ReleaseReply(code, JsonOk(tag, p))) ==
            LatestReleaseVersion(ReleaseReply(code, JsonOk(tag, q)))
  {
  }

  // ---------------------------------------------------------------------
  // Download URLs
  // ---------------------------------------------------------------------

  /** The release asset URL: base, "v", the version, the stem, the version, ".bin". */
  function AssetUrl(stem: string, version: string): (url: string)
    ensures |url| == |GITHUB_DOWNLOAD_BASE| + 1 + 2 * |version| + |stem| + 4
  {
    GITHUB_DOWNLOAD_BASE + "v" + version + stem + version + ".bin"
  }

  /** h1's `constructDownloadUrl`. */
  function H1DownloadUrl(version: string): string
  {
    AssetUrl(H1_ASSET_STEM, version)
  }

  /** poc_v1's `constructDownloadUrl`. */
  function PocDownloadUrl(version: string): string
  {
    AssetUrl(POC_ASSET_STEM, version)
  }

  /** The version can be read back from the URL: it follows the base and the "v". */
  lemma AssetUrlNamesVersion(stem: string, version: string)
    ensures var url := AssetUrl(stem, version);
      var start := |GITHUB_DOWNLOAD_BASE| + 1;
      url[..start] == GITHUB_DOWNLOAD_BASE + "v" &&
      url[start..start + |version|] == version &&
      url[start + |version|..start + |version| + |stem|] == stem &&
      url[start + |version| + |stem|..|url| - 4] == version &&
      url[|url| - 4..] == ".bin"
  {
    var url := AssetUrl(stem, version);
    var start := |GITHUB_DOWNLOAD_BASE| + 1;
    assert url == (GITHUB_DOWNLOAD_BASE + "v") + version + stem + version + ".bin";
  }

  /** Distinct versions give distinct URLs under the same template. */
  lemma AssetUrlInjective(stem: string, v: string, w: string)
    requires AssetUrl(stem, v) == AssetUrl(stem, w)
    ensures v == w
  {
    assert |v| == |w|;
    AssetUrlNamesVersion(stem, v);
    AssetUrlNamesVersion(stem, w);
  }

  /** The two variants never point at the same asset. */
  lemma VariantsDiffer(v: string, w: string)
    ensures H1DownloadUrl(v) != PocDownloadUrl(w)
  {
    AssetUrlNamesVersion(H1_ASSET_STEM, v);
    AssetUrlNamesVersion(POC_ASSET_STEM, w);
    assert H1_ASSET_STEM != POC_ASSET_STEM by {
      assert H1_ASSET_STEM[14] != POC_ASSET_STEM[14];
    }
  }

  // ---------------------------------------------------------------------
  // Redirect resolution (h1)
  // ---------------------------------------------------------------------

  /** The answer to `followRedirect`'s GET: the status code and `getLocation()`. */
  datatype RedirectReply = RedirectReply(httpCode: int, location: string)

  /** `followRedirect`'s choice: the resolved location on 200 with a location, else the input. */
  function FollowRedirect(url: string, httpCode: int, location: string): (finalUrl: string)
    ensures httpCode == HTTP_CODE_OK && |location| > 0 ==> finalUrl == location
    ensures !(httpCode == HTTP_CODE_OK && |location| > 0) ==> finalUrl == url
  {
    if httpCode == HTTP_CODE_OK && |location| > 0 then location else url
  }

  /** The answer never loses the URL: it is the location or the original. */
  lemma RedirectNeverEmpty(url: string, httpCode: int, location: string)
    requires |url| > 0
    ensures |FollowRedirect(url, httpCode, location)| > 0
  {
  }
}
