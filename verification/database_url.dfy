/** The start-up rewrite of the `DATABASE_URL` setting (database.py, module level).
    The environment lookup becomes the `env` parameter: `None` when the variable is unset. */
module DatabaseUrl {
  import opened Wrappers
  import opened Text

  /** The scheme SQLAlchemy reads as the default driver. */
  const LegacyScheme := "postgresql://"
  /** The scheme that selects the psycopg 3 driver. */
  const PsycopgScheme := "postgresql+psycopg://"
  const SslKey := "sslmode"
  const SslRequirement := "sslmode=require"

  /** The only failure: start-up aborts with a ValueError. */
  datatype ConfigError = DatabaseUrlNotFound

  /** First step: swap the legacy scheme for the psycopg one; any other URL is kept. */
  function RewriteScheme(url: string): (r: string)
    ensures StartsWith(url, LegacyScheme) ==> r == PsycopgScheme + url[|LegacyScheme|..]
    ensures !StartsWith(url, LegacyScheme) ==> r == url
  {
    if StartsWith(url, LegacyScheme) then ReplaceFirst(url, LegacyScheme, PsycopgScheme) else url
  }

  /** Second step: ask for TLS unless the URL already mentions `sslmode` somewhere. */
  function RequireSsl(url: string): (r: string)
    ensures (exists j :: OccursAt(url, SslKey, j)) ==> r == url
    ensures (forall j :: !OccursAt(url, SslKey, j)) && '?' in url ==> r == url + "&" + SslRequirement
    ensures (forall j :: !OccursAt(url, SslKey, j)) && '?' !in url ==> r == url + "?" + SslRequirement
    ensures Contains(r, SslKey)
    ensures StartsWith(r, url)
  {
    if !Contains(url, SslKey) then
      var sep := if Contains(url, "?") then "&" else "?";
      ContainsChar(url, '?');
      AppendedRequirementHasKey(url, sep);
      url + sep + SslRequirement
    else
      url
  }

  /** The appended `sslmode=require` provides an occurrence of `sslmode`. */
  lemma AppendedRequirementHasKey(url: string, sep: string)
    requires |sep| == 1
    ensures Contains(url + sep + SslRequirement, SslKey)
  {
    var r := url + sep + SslRequirement;
    var j := |url| + 1;
    assert r[j..j + |SslKey|] == SslKey;
    assert OccursAt(r, SslKey, j);
  }

  /** The whole module-level computation: reject a missing or empty URL, then apply both steps. */
  function NormalizeDatabaseUrl(env: Option<string>): (r: Result<string, ConfigError>)
    ensures r.Failure? <==> env == None || env == Some("")
    ensures r.Success? ==> Contains(r.value, SslKey) && r.value != ""
  {
    match env
    case None => Failure(DatabaseUrlNotFound)
    case Some(url) =>
      if url == "" then Failure(DatabaseUrlNotFound)
      else Success(RequireSsl(RewriteScheme(url)))
  }

  /** Appending text that begins with `?` or `&` cannot create the legacy scheme prefix,
      since that prefix contains neither character. */
  lemma NoLegacyByAppending(url: string, tail: string)
    requires !StartsWith(url, LegacyScheme)
    requires |tail| > 0 && (tail[0] == '?' || tail[0] == '&')
    ensures !StartsWith(url + tail, LegacyScheme)
  {
    var u := url + tail;
    if |url| >= |LegacyScheme| {
      assert u[..|LegacyScheme|] == url[..|LegacyScheme|];
    } else {
      assert forall i :: 0 <= i < |LegacyScheme| ==> LegacyScheme[i] != '?' && LegacyScheme[i] != '&';
      assert |LegacyScheme| <= |u| ==> u[..|LegacyScheme|][|url|] == tail[0];
    }
  }

  /** The psycopg scheme and the legacy scheme first differ at index 10 (`+` against `:`). */
  lemma PsycopgIsNotLegacy(s: string)
    requires StartsWith(s, PsycopgScheme)
    ensures !StartsWith(s, LegacyScheme)
  {
    assert s[10] == s[..|PsycopgScheme|][10] == '+';
  }

  /** A normalised URL never carries the legacy scheme any more. */
  lemma NormalizedNotLegacy(url: string)
    ensures !StartsWith(RequireSsl(RewriteScheme(url)), LegacyScheme)
  {
    var s1 := RewriteScheme(url);
    var r := RequireSsl(s1);
    if StartsWith(url, LegacyScheme) {
      assert StartsWith(s1, PsycopgScheme);
      PrefixTransitive(r, s1, PsycopgScheme);
      PsycopgIsNotLegacy(r);
    } else if r != s1 {
      var tail := r[|s1|..];
      assert r == s1 + tail;
      NoLegacyByAppending(s1, tail);
    }
  }

  /** Normalising an already normalised URL changes nothing (every present, non-empty setting is accepted). */
  lemma NormalizeIdempotent(env: Option<string>)
    requires env != None && env != Some("")
    ensures NormalizeDatabaseUrl(Some(NormalizeDatabaseUrl(env).value)) == NormalizeDatabaseUrl(env)
  {
    var r := NormalizeDatabaseUrl(env).value;
    NormalizedNotLegacy(env.value);
    assert RewriteScheme(r) == r;
    assert RequireSsl(r) == r;
  }

  /** A URL that already sets `sslmode` and does not use the legacy scheme is accepted verbatim. */
  lemma ExplicitSslModeKept(url: string)
    requires url != "" && !StartsWith(url, LegacyScheme)
    requires exists j :: OccursAt(url, SslKey, j)
    ensures NormalizeDatabaseUrl(Some(url)) == Success(url)
  {
  }
}
