/**
 * Client-side avatar helpers: turning a stored avatar value into a URL the browser can
 * load, and the initials shown when a contact has no picture.
 */
module AvatarUtils {
  import opened Optional
  import opened JsStrings

  /**
   * Where the base-URL helper runs: in a browser, where NEXT_PUBLIC_API_URL may be
   * configured, or on the server, where there is no window.
   */
  datatype Runtime = Server | Browser(apiUrl: Option<string>)

  const DefaultApiUrl: string := "http://localhost:8080/api"
  const ServerBaseUrl: string := "http://localhost:8080"

  /** The API URL the browser uses: the configured one, unless it is unset or empty (JavaScript `||`). */
  function ApiUrl(configured: Option<string>): (u: string)
    ensures u != ""
  {
    if configured.None? || configured.value == "" then DefaultApiUrl else configured.value
  }

  /**
   * The backend's origin: on the server a fixed default; in the browser the API URL with its
   * first "/api" removed, so either the API URL itself or one exactly four characters shorter.
   */
  function BackendBaseUrl(rt: Runtime): (url: string)
    ensures rt.Server? ==> url == ServerBaseUrl
    ensures rt.Browser? ==> url == ApiUrl(rt.apiUrl) || |url| + 4 == |ApiUrl(rt.apiUrl)|
  {
    match rt
    case Server => ServerBaseUrl
    case Browser(configured) => ReplaceFirst(ApiUrl(configured), "/api", "")
  }

  /** A configured URL without "/api" anywhere is used as it is. */
  lemma ApiFreeUrlKept(u: string)
    requires u != ""
    requires forall j :: 0 <= j <= |u| ==> !OccursAt(u, "/api", j)
    ensures BackendBaseUrl(Browser(Some(u))) == u
  {
  }

  /** In the browser only the first "/api" of the configured URL is removed; what follows it is kept. */
  lemma FirstApiRemoved(prefix: string, rest: string)
    requires forall j :: 0 <= j <= |prefix| ==> !OccursAt(prefix, "/api", j)
    ensures BackendBaseUrl(Browser(Some(prefix + "/api" + rest))) == prefix + rest
  {
    var s := prefix + "/api" + rest;
    FirstApiAt(prefix, rest);
    ReplaceFirstAt(s, "/api", "", |prefix|);
    assert s[..|prefix|] + "" + s[|prefix| + 4..] == prefix + rest by {
      assert s[..|prefix|] == prefix;
      assert s[|prefix| + 4..] == rest;
    }
  }

  /** The first "/api" of `prefix + "/api" + rest` is the one after `prefix`. */
  lemma FirstApiAt(prefix: string, rest: string)
    requires forall j :: 0 <= j <= |prefix| ==> !OccursAt(prefix, "/api", j)
    ensures OccursAt(prefix + "/api" + rest, "/api", |prefix|)
    ensures forall j :: 0 <= j < |prefix| ==> !OccursAt(prefix + "/api" + rest, "/api", j)
  {
    var s := prefix + "/api" + rest;
    assert s[|prefix|..|prefix| + 4] == "/api";
    forall j | 0 <= j < |prefix| ensures !OccursAt(s, "/api", j) {
      NoEarlierApi(prefix, rest, j);
    }
  }

  /** "/api" cannot start inside a prefix free of it: it would lie within the prefix or straddle its end. */
  lemma NoEarlierApi(prefix: string, rest: string, j: nat)
    requires forall j :: 0 <= j <= |prefix| ==> !OccursAt(prefix, "/api", j)
    requires j < |prefix|
    ensures !OccursAt(prefix + "/api" + rest, "/api", j)
  {
    var s := prefix + "/api" + rest;
    if j + 4 <= |prefix| {
      assert !OccursAt(prefix, "/api", j);
      assert s[j..j + 4] == prefix[j..j + 4];
    } else if j + 4 <= |s| {
      // the '/' that follows prefix would have to be 'a', 'p' or 'i'
      var k := |prefix| - j;
      assert s[j..j + 4][k] == s[|prefix|] == '/';
      assert k == 1 || k == 2 || k == 3;
    }
  }

  /** Without configuration the browser and the server agree on http://localhost:8080. */
  lemma DefaultBaseUrl()
    ensures BackendBaseUrl(Browser(None)) == ServerBaseUrl
    ensures BackendBaseUrl(Browser(Some(""))) == ServerBaseUrl
    ensures BackendBaseUrl(Server) == ServerBaseUrl
  {
    NoApiInServerBaseUrl();
    FirstApiRemoved(ServerBaseUrl, "");
    assert ServerBaseUrl + "/api" + "" == DefaultApiUrl;
  }

  /** "/api" does not occur in http://localhost:8080, which has no 'i'. */
  lemma NoApiInServerBaseUrl()
    ensures forall j :: 0 <= j <= |ServerBaseUrl| ==> !OccursAt(ServerBaseUrl, "/api", j)
  {
    var p := ServerBaseUrl;
    assert 'i' !in p;
    forall j | 0 <= j <= |p| ensures !OccursAt(p, "/api", j) {
      if j + 4 <= |p| {
        assert p[j..j + 4][3] == p[j + 3] != 'i';
      }
    }
  }

  /** Backslashes turned into forward slashes. */
  function Normalize(path: string): (n: string)
    ensures |n| == |path|
    ensures '\\' !in n
  {
    ReplaceAllChar(path, '\\', '/')
  }

  /** The URL for a stored avatar value, or None (null) when there is no picture. */
  function AvatarUrl(avatar: Option<string>, baseUrl: string): (url: Option<string>)
    ensures url.None? <==> avatar.None? || avatar.value == ""
    ensures avatar.Some? && StartsWith(avatar.value, "http") ==> url == avatar
    ensures avatar.Some? && avatar.value != "" && !StartsWith(avatar.value, "http") ==>
      url.Some? && StartsWith(url.value, baseUrl) && '\\' !in url.value[|baseUrl|..]
  {
    if avatar.None? || avatar.value == "" then None
    else if StartsWith(avatar.value, "http") then avatar
    else
      var path := UploadPath(Normalize(avatar.value));
      assert (baseUrl + path)[|baseUrl|..] == path;
      Some(baseUrl + path)
  }

  /**
   * The path, under the backend's origin, of a normalized relative value: values under uploads/
   * get a leading '/', anything else is taken to be a file under /uploads/profile_pictures/.
   */
  function UploadPath(n: string): (path: string)
    ensures '\\' !in n ==> '\\' !in path
  {
    if StartsWith(n, "uploads/") || StartsWith(n, "/uploads/") then
      (if StartsWith(n, "/") then n else "/" + n)
    else "/uploads/profile_pictures/" + n
  }

  /** Normalizing leaves a fixed prefix without backslashes in place. */
  lemma NormalizePrefixed(prefix: string, x: string)
    requires '\\' !in prefix
    ensures Normalize(prefix + x) == prefix + Normalize(x)
  {
    ReplaceAllCharAppend(prefix, x, '\\', '/');
    assert ReplaceAllChar(prefix, '\\', '/') == prefix;
  }

  /** A value starting with a character other than 'h' is not an absolute URL. */
  lemma NotHttp(v: string)
    requires v != [] && v[0] != 'h'
    ensures !StartsWith(v, "http")
  {
    if |v| >= 4 { assert v[..4][0] == v[0]; }
  }

  /** A relative value yields the backend's origin followed by the path of its normalized form. */
  lemma RelativeAvatarUrl(baseUrl: string, v: string)
    requires v != [] && !StartsWith(v, "http")
    ensures AvatarUrl(Some(v), baseUrl) == Some(baseUrl + UploadPath(Normalize(v)))
  {
  }

  /** "uploads/x" and "/uploads/x" name the same file: both are served from the backend's /uploads. */
  lemma UploadsPathsAgree(baseUrl: string, x: string)
    ensures AvatarUrl(Some("uploads/" + x), baseUrl) == Some(baseUrl + "/uploads/" + Normalize(x))
    ensures AvatarUrl(Some("/uploads/" + x), baseUrl) == Some(baseUrl + "/uploads/" + Normalize(x))
  {
    var n := Normalize(x);
    NormalizePrefixed("uploads/", x);
    NormalizePrefixed("/uploads/", x);
    NotHttp("uploads/" + x);
    NotHttp("/uploads/" + x);
    RelativeAvatarUrl(baseUrl, "uploads/" + x);
    RelativeAvatarUrl(baseUrl, "/uploads/" + x);
    UploadPathOfUploads(n);
    assert baseUrl + ("/uploads/" + n) == baseUrl + "/uploads/" + n;
  }

  /** Both spellings of a path under uploads/ come out as "/uploads/...". */
  lemma UploadPathOfUploads(n: string)
    ensures UploadPath("uploads/" + n) == "/uploads/" + n
    ensures UploadPath("/uploads/" + n) == "/uploads/" + n
  {
    assert ("uploads/" + n)[..8] == "uploads/";
    assert ("/uploads/" + n)[..9] == "/uploads/";
    assert ("uploads/" + n)[..1][0] == 'u';
    assert ("/uploads/" + n)[..1] == "/";
    assert "/" + ("uploads/" + n) == "/uploads/" + n;
  }

  /** Any other relative value is taken to be a file under uploads/profile_pictures. */
  lemma OtherPathsUnderProfilePictures(baseUrl: string, v: string)
    requires v != "" && !StartsWith(v, "http")
    requires !StartsWith(Normalize(v), "uploads/") && !StartsWith(Normalize(v), "/uploads/")
    ensures AvatarUrl(Some(v), baseUrl) == Some(baseUrl + "/uploads/profile_pictures/" + Normalize(v))
  {
    assert baseUrl + ("/uploads/profile_pictures/" + Normalize(v))
        == baseUrl + "/uploads/profile_pictures/" + Normalize(v);
  }

  /**
   * The backend stores contact pictures as "contact_images/<file>"; given that value, this helper
   * still points under profile_pictures.
   */
  lemma ContactImagePathUnderProfilePictures(baseUrl: string, file: string)
    ensures AvatarUrl(Some("contact_images/" + file), baseUrl)
         == Some(baseUrl + "/uploads/profile_pictures/" + "contact_images/" + Normalize(file))
  {
    var v := "contact_images/" + file;
    var n := Normalize(file);
    var path := UploadPath(Normalize(v));
    assert path == "/uploads/profile_pictures/" + ("contact_images/" + n) by {
      NormalizePrefixed("contact_images/", file);
      assert ("contact_images/" + n)[0] == 'c';
      UploadPathOfOther("contact_images/" + n);
    }
    NotHttp(v);
    RelativeAvatarUrl(baseUrl, v);
    assert baseUrl + path == baseUrl + "/uploads/profile_pictures/" + "contact_images/" + n;
  }

  /** A value that starts with neither 'u' nor '/' is not under uploads/. */
  lemma UploadPathOfOther(n: string)
    requires n != [] && n[0] != 'u' && n[0] != '/'
    ensures UploadPath(n) == "/uploads/profile_pictures/" + n
  {
    if |n| >= 8 { assert n[..8][0] == n[0]; }
    if |n| >= 9 { assert n[..9][0] == n[0]; }
  }

  /** Backslashes in a relative value do not change the URL it yields. */
  lemma BackslashesDoNotMatter(baseUrl: string, v: string)
    requires !StartsWith(v, "http")
    ensures AvatarUrl(Some(v), baseUrl) == AvatarUrl(Some(Normalize(v)), baseUrl)
  {
    var n := Normalize(v);
    assert Normalize(n) == n;
    NormalizeKeepsHttp(v);
  }

  /** Normalizing does not make a value look like, or stop it looking like, an absolute URL. */
  lemma NormalizeKeepsHttp(v: string)
    ensures StartsWith(Normalize(v), "http") == StartsWith(v, "http")
  {
    var n := Normalize(v);
    if |v| >= 4 {
      forall i | 0 <= i < 4 ensures (n[..4][i] == "http"[i]) == (v[..4][i] == "http"[i]) {
        assert n[..4][i] == n[i] && v[..4][i] == v[i];
      }
    }
  }

  /** The initials shown in place of a contact's picture. */
  function Initials(fullName: string): (r: string)
    ensures |r| <= 2
  {
    var names := Split(Trim(fullName), ' ');
    if |names| >= 2 then ToUpper(FirstChar(names[0]) + FirstChar(names[|names| - 1]))
    else ToUpper(fullName[..Min(2, |fullName|)])
  }

  /** A trimmed name with a space gives two initials: its first letter and the first letter after its last space. */
  lemma InitialsOfSeveralWords(fullName: string)
    requires ' ' in Trim(fullName)
    ensures var t := Trim(fullName);
            var k := AfterLast(t, ' ');
            var r := Initials(fullName);
            0 < k < |t| && |r| == 2 && r[0] == UpperChar(t[0]) && r[1] == UpperChar(t[k])
  {
    var t := Trim(fullName);
    assert IsWhitespace(' ');
    TwoInitials(t);
  }

  /** The first characters of the first and the last of several space-separated words. */
  lemma TwoInitials(t: string)
    requires ' ' in t && t[0] != ' ' && t[|t| - 1] != ' '
    ensures var names := Split(t, ' ');
            var k := AfterLast(t, ' ');
            |names| >= 2 && 0 < k < |t| &&
            FirstChar(names[0]) + FirstChar(names[|names| - 1]) == [t[0], t[k]]
  {
    SplitEnds(t, ' ');
  }

  /** Otherwise the initials are the first two characters of the untrimmed name, upper-cased. */
  lemma InitialsOfOneWord(fullName: string)
    requires ' ' !in Trim(fullName)
    ensures |Initials(fullName)| == Min(2, |fullName|)
    ensures forall i :: 0 <= i < |Initials(fullName)| ==> Initials(fullName)[i] == UpperChar(fullName[i])
  {
  }
}
