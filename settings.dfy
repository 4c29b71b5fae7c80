/** The validated profile data and the choice of the server the browser is sent to. */
module Settings {
  import opened Wrappers
  import opened JsStrings

  /** The fields of the validated configuration the plugin reads. */
  datatype AuthConfig = AuthConfig(serverType: Option<string>, cookienames: Option<string>)

  datatype Role = PkgServer | DataServer

  /** Arguments of `util.urlResolver.getBaseUrl(role, forced)`. */
  datatype UrlRequest = UrlRequest(role: Role, forced: bool)

  /** The host's URL resolver, reduced to the base URL it gives for each role. */
  datatype UrlResolver = UrlResolver(pkgServerUrl: string, dataServerUrl: string)

  /**
   * The role of the base URL. `None` stands for the TypeError raised by
   * `data.server_type.includes(...)` when the profile has no server type.
   */
  function BaseUrlRequest(serverType: Option<string>): (req: Option<UrlRequest>)
    ensures req.None? <==> serverType.None?
    ensures req.Some? ==> req.value.forced
    ensures req.Some? ==>
      (req.value.role == PkgServer <==>
         serverType.value == "pkgServer" || exists i :: 0 <= i <= |serverType.value| && StartsWith(serverType.value[i..], "package"))
  {
    match serverType
    case None => None
    case Some(t) =>
      Some(UrlRequest(if t == "pkgServer" || Includes(t, "package") then PkgServer else DataServer, true))
  }

  function GetBaseUrl(resolver: UrlResolver, req: UrlRequest): string {
    match req.role
    case PkgServer => resolver.pkgServerUrl
    case DataServer => resolver.dataServerUrl
  }

  /** Examples: a package server named in either way, and a data server. */
  lemma RoleExamples()
    ensures BaseUrlRequest(Some("pkgServer")) == Some(UrlRequest(PkgServer, true))
    ensures BaseUrlRequest(Some("packageServer")) == Some(UrlRequest(PkgServer, true))
    ensures BaseUrlRequest(Some("dataServer")) == Some(UrlRequest(DataServer, true))
  {
    assert StartsWith("packageServer"[0..], "package");
    var d := "dataServer";
    forall i | 0 <= i <= |d| ensures !StartsWith(d[i..], "package") {
      if |"package"| <= |d[i..]| {
        assert d[i..][0] != 'p' by { assert d[i..][0] == d[i]; }
      }
    }
  }
}
