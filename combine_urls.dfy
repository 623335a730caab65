/** src/helpers/combineURLs.js: joins a base URL and a relative URL with
    exactly one '/' between them. */
module CombineUrls {

  /** `s.replace(/\/+$/, '')`: s without its run of trailing slashes. */
  function StripTrailingSlashes(s: string): (r: string)
    ensures |r| <= |s| && r == s[..|r|]
    ensures r == "" || r[|r| - 1] != '/'
    ensures forall i :: |r| <= i < |s| ==> s[i] == '/'
  {
    if s != "" && s[|s| - 1] == '/' then StripTrailingSlashes(s[..|s| - 1]) else s
  }

  /** `s.replace(/^\/+/, '')`: s without its run of leading slashes. */
  function StripLeadingSlashes(s: string): (r: string)
    ensures |r| <= |s| && r == s[|s| - |r|..]
    ensures r == "" || r[0] != '/'
    ensures forall i :: 0 <= i < |s| - |r| ==> s[i] == '/'
  {
    if s != "" && s[0] == '/' then StripLeadingSlashes(s[1..]) else s
  }

  /** combineURLs(baseURL, relativeURL) on strings; the empty string is the
      only falsy one. */
  function CombineURLs(baseURL: string, relativeURL: string): (r: string)
    ensures relativeURL == "" ==> r == baseURL
    ensures relativeURL != "" ==>
              |r| == |StripTrailingSlashes(baseURL)| + 1 + |StripLeadingSlashes(relativeURL)|
  {
    if relativeURL != "" then
      StripTrailingSlashes(baseURL) + "/" + StripLeadingSlashes(relativeURL)
    else baseURL
  }

  /** For a non-empty relative URL: the base without its trailing slashes,
      one '/', then the relative URL without its leading slashes. */
  lemma {:induction false} Joined(baseURL: string, relativeURL: string)
    requires relativeURL != ""
    ensures var b := StripTrailingSlashes(baseURL);
            var r := CombineURLs(baseURL, relativeURL);
            r[..|b|] == b && r[|b|] == '/' && r[|b| + 1..] == StripLeadingSlashes(relativeURL)
  {
    var b := StripTrailingSlashes(baseURL);
    var rel := StripLeadingSlashes(relativeURL);
    var r := b + "/" + rel;
    assert r[..|b|] == b;
    assert r[|b| + 1..] == rel;
  }

  /** A run of k slashes. */
  function Slashes(k: nat): (r: string)
    ensures |r| == k && forall i :: 0 <= i < k ==> r[i] == '/'
  {
    seq(k, i => '/')
  }

  lemma {:induction false} StripTrailingExtra(s: string, k: nat)
    ensures StripTrailingSlashes(s + Slashes(k)) == StripTrailingSlashes(s)
  {
    if k > 0 {
      var t := s + Slashes(k);
      assert t[|t| - 1] == '/';
      assert t[..|t| - 1] == s + Slashes(k - 1);
      StripTrailingExtra(s, k - 1);
    } else {
      assert s + Slashes(k) == s;
    }
  }

  lemma {:induction false} StripLeadingExtra(s: string, k: nat)
    ensures StripLeadingSlashes(Slashes(k) + s) == StripLeadingSlashes(s)
  {
    if k > 0 {
      var t := Slashes(k) + s;
      assert t[0] == '/';
      assert t[1..] == Slashes(k - 1) + s;
      StripLeadingExtra(s, k - 1);
    } else {
      assert Slashes(k) + s == s;
    }
  }

  /** Extra trailing slashes on the base or leading slashes on a non-empty
      relative URL do not change the result. */
  lemma {:induction false} SlashInsensitive(baseURL: string, relativeURL: string, k: nat, m: nat)
    requires relativeURL != ""
    ensures CombineURLs(baseURL + Slashes(k), Slashes(m) + relativeURL) == CombineURLs(baseURL, relativeURL)
  {
    StripTrailingExtra(baseURL, k);
    StripLeadingExtra(relativeURL, m);
  }

  /** Without slashes at the seam the result is base + '/' + relative. */
  lemma {:induction false} PlainJoin(baseURL: string, relativeURL: string)
    requires relativeURL != "" && relativeURL[0] != '/'
    requires baseURL == "" || baseURL[|baseURL| - 1] != '/'
    ensures CombineURLs(baseURL, relativeURL) == baseURL + "/" + relativeURL
  {
  }
}
