/** The one piece of configuration handling that is logic rather than
    I/O: normalising the BASE_URL_PREFIX setting (app.py, `load_config`). */
module Configuration {

  /** The setting's value when config.ini does not give one. */
  const DefaultBaseUrlPrefix: string := "/gallery"

  predicate AllSlashes(s: string)
  {
    forall k :: 0 <= k < |s| ==> s[k] == '/'
  }

  /** `s.lstrip('/')`. */
  function StripLeadingSlashes(s: string): (r: string)
    ensures |r| <= |s| && r == s[|s| - |r|..]
    ensures AllSlashes(s[..|s| - |r|])
    ensures r == [] || r[0] != '/'
    decreases |s|
  {
    if s != [] && s[0] == '/' then
      var r := StripLeadingSlashes(s[1..]);
      assert s[..|s| - |r|] == [s[0]] + s[1..][..|s| - 1 - |r|];
      r
    else s
  }

  /** `s.rstrip('/')`. */
  function StripTrailingSlashes(s: string): (r: string)
    ensures |r| <= |s| && r == s[..|r|]
    ensures AllSlashes(s[|r|..])
    ensures r == [] || r[|r| - 1] != '/'
    decreases |s|
  {
    if s != [] && s[|s| - 1] == '/' then
      var r := StripTrailingSlashes(s[..|s| - 1]);
      assert s[|r|..] == s[..|s| - 1][|r|..] + [s[|s| - 1]];
      r
    else s
  }

  /** `s.strip('/')`. */
  function StripSlashes(s: string): string
  {
    StripTrailingSlashes(StripLeadingSlashes(s))
  }

  /** BASE_URL_PREFIX after `load_config`: the slashes around the setting
      are removed, and what is left, if anything, gets one leading slash. */
  function NormalizeBaseUrlPrefix(setting: string): string
  {
    var core := StripSlashes(setting);
    if core != "" then "/" + core else ""
  }

  /** The prefix is empty, for a setting made only of slashes, or else one
      slash followed by the setting's text with the surrounding slashes
      taken off: it never ends with a slash and never starts with two. */
  lemma NormalizeBaseUrlPrefixShape(setting: string)
    ensures NormalizeBaseUrlPrefix(setting) == "" <==> AllSlashes(setting)
    ensures var r := NormalizeBaseUrlPrefix(setting);
      r != "" ==>
        && |r| >= 2 && r[0] == '/' && r[1] != '/' && r[|r| - 1] != '/'
        && (exists i :: 0 <= i && i + |r| - 1 <= |setting|
             && setting[i..i + |r| - 1] == r[1..]
             && AllSlashes(setting[..i]) && AllSlashes(setting[i + |r| - 1..]))
  {
    var left := StripLeadingSlashes(setting);
    var core := StripTrailingSlashes(left);
    var i := |setting| - |left|;
    var r := NormalizeBaseUrlPrefix(setting);
    if core == "" {
      assert left == [] by {
        assert left[|core|..] == left;
      }
      assert setting[..i] == setting;
    } else {
      assert r[1..] == core;
      assert core[0] == left[0];
      assert setting[i..i + |core|] == core;
      assert setting[i + |core|..] == left[|core|..];
      assert !AllSlashes(setting) by {
        assert setting[i] == core[0];
      }
    }
  }

  /** Normalising an already normalised prefix changes nothing. */
  lemma NormalizeBaseUrlPrefixIdempotent(setting: string)
    ensures NormalizeBaseUrlPrefix(NormalizeBaseUrlPrefix(setting)) == NormalizeBaseUrlPrefix(setting)
  {
    var core := StripSlashes(setting);
    if core != "" {
      var r := "/" + core;
      NormalizeBaseUrlPrefixShape(setting);
      var left := StripLeadingSlashes(r);
      assert r[1..] == core;
      assert left == core by {
        assert StripLeadingSlashes(r[1..]) == r[1..];
      }
      assert StripTrailingSlashes(core) == core;
    }
  }

  /** Without a setting the gallery is served under `/gallery`. */
  lemma DefaultBaseUrlPrefixNormalized()
    ensures NormalizeBaseUrlPrefix(DefaultBaseUrlPrefix) == "/gallery"
  {
    var left := StripLeadingSlashes("/gallery");
    assert StripLeadingSlashes("gallery") == "gallery";
    assert left == "gallery";
    assert StripTrailingSlashes("gallery") == "gallery";
  }
}
