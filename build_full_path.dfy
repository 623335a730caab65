/** src/core/buildFullPath.js: a request URL resolved against the base URL
    unless it is already absolute. `isAbsoluteURL` (src/helpers/isAbsoluteURL.js)
    is a parameter. */
module BuildFullPath {
  import opened CombineUrls

  function BuildFullPath(baseURL: string, requestedURL: string, isAbsoluteURL: string -> bool): (r: string)
    ensures baseURL == "" ==> r == requestedURL
    ensures isAbsoluteURL(requestedURL) ==> r == requestedURL
    ensures baseURL != "" && !isAbsoluteURL(requestedURL) ==> r == CombineURLs(baseURL, requestedURL)
  {
    if baseURL != "" && !isAbsoluteURL(requestedURL) then CombineURLs(baseURL, requestedURL)
    else requestedURL
  }

  /** A relative URL under a non-empty base starts with the base stripped of
      its trailing slashes; a non-empty one continues with a single '/'. */
  lemma {:induction false} RelativeUnderBase(baseURL: string, requestedURL: string, isAbsoluteURL: string -> bool)
    requires baseURL != "" && !isAbsoluteURL(requestedURL)
    ensures var b := StripTrailingSlashes(baseURL);
            var r := BuildFullPath(baseURL, requestedURL, isAbsoluteURL);
            |b| <= |r| && r[..|b|] == b &&
            (requestedURL != "" ==> r[|b|] == '/' && r[|b| + 1..] == StripLeadingSlashes(requestedURL))
  {
    if requestedURL != "" {
      Joined(baseURL, requestedURL);
    }
  }
}
