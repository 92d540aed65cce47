/** getSupabaseEnv: reads the project URL and anon key and refuses, in this order, missing values,
    a URL that does not parse and a host that is not `<20-character project ref>.supabase.co`. */
module SupabaseEnv {
  import opened Wrappers
  import opened Url

  const MissingMessage := "Missing Supabase environment variables. Set NEXT_PUBLIC_SUPABASE_URL and NEXT_PUBLIC_SUPABASE_ANON_KEY."
  const InvalidUrlMessage := "NEXT_PUBLIC_SUPABASE_URL must be a valid URL like https://<project-ref>.supabase.co"
  const InvalidHostMessage := "NEXT_PUBLIC_SUPABASE_URL host looks invalid. Use the exact Project URL from Supabase: https://<20-char-project-ref>.supabase.co"

  const HostSuffix := ".supabase.co"

  /** The three errors the function throws. */
  datatype EnvError = MissingVariables | InvalidUrl | InvalidHost {
    function Message(): string {
      match this
      case MissingVariables => MissingMessage
      case InvalidUrl => InvalidUrlMessage
      case InvalidHost => InvalidHostMessage
    }
  }

  /** `{ supabaseUrl, supabaseAnonKey }`. */
  datatype EnvVars = EnvVars(supabaseUrl: string, supabaseAnonKey: string)

  /** The character class [a-z0-9]. */
  predicate IsRefChar(c: char) {
    ('a' <= c <= 'z') || ('0' <= c <= '9')
  }

  /** A Supabase project ref: exactly 20 characters of [a-z0-9]. */
  predicate IsProjectRef(s: string) {
    |s| == 20 && forall i :: 0 <= i < |s| ==> IsRefChar(s[i])
  }

  /** The test /^([a-z0-9]{20})\.supabase\.co$/ on a host name, read off position by position. */
  predicate IsSupabaseHost(host: string) {
    && |host| == 20 + |HostSuffix|
    && (forall i :: 0 <= i < 20 ==> IsRefChar(host[i]))
    && host[20..] == HostSuffix
  }

  /** The pattern accepts exactly a project ref followed by ".supabase.co". */
  lemma SupabaseHostIsRefAndSuffix(host: string)
    ensures IsSupabaseHost(host) <==> exists ref :: IsProjectRef(ref) && host == ref + HostSuffix
  {
    if IsSupabaseHost(host) {
      var ref := host[..20];
      assert IsProjectRef(ref);
      assert host == ref + HostSuffix;
    }
    if exists ref :: IsProjectRef(ref) && host == ref + HostSuffix {
      var ref :| IsProjectRef(ref) && host == ref + HostSuffix;
      assert host[..20] == ref && host[20..] == HostSuffix;
      assert forall i :: 0 <= i < 20 ==> host[i] == ref[i];
    }
  }

  /** A host with an upper-case letter anywhere is refused. */
  lemma UpperCaseHostRefused(host: string, k: int)
    requires 0 <= k < |host| && 'A' <= host[k] <= 'Z'
    ensures !IsSupabaseHost(host)
  {
  }

  /** A host with an extra label in front of the project ref is refused. */
  lemma SubdomainHostRefused(extra: string, ref: string)
    requires IsProjectRef(ref)
    ensures !IsSupabaseHost(extra + "." + ref + HostSuffix)
  {
  }

  /** getSupabaseEnv(): `url` and `key` are the two variables as read from the environment
      (None when unset); `parse` is `new URL`. */
  function GetSupabaseEnv(url: Option<string>, key: Option<string>, parse: UrlParser): (r: Result<EnvVars, EnvError>)
    ensures r == Failure(MissingVariables) <==> url.None? || url.value == "" || key.None? || key.value == ""
    ensures r == Failure(InvalidUrl) <==>
      url.Some? && url.value != "" && key.Some? && key.value != "" && parse(url.value).None?
    ensures r == Failure(InvalidHost) <==>
      && url.Some? && url.value != "" && key.Some? && key.value != ""
      && parse(url.value).Some? && !IsSupabaseHost(parse(url.value).value.hostname)
    ensures r.Success? ==> r.value == EnvVars(url.value, key.value)
  {
    if url.None? || url.value == "" || key.None? || key.value == "" then Failure(MissingVariables)
    else
      match parse(url.value)
      case None => Failure(InvalidUrl)
      case Some(parsed) =>
        if !IsSupabaseHost(parsed.hostname) then Failure(InvalidHost)
        else Success(EnvVars(url.value, key.value))
  }

  /** The presence check comes first: with a variable missing the URL is never parsed, so the
      parser cannot change the outcome. */
  lemma MissingCheckedBeforeParse(url: Option<string>, key: Option<string>, p1: UrlParser, p2: UrlParser)
    requires url.None? || key.None? || url == Some("") || key == Some("")
    ensures GetSupabaseEnv(url, key, p1) == GetSupabaseEnv(url, key, p2) == Failure(MissingVariables)
  {
  }

  /** Success exactly returns the two inputs, and only for a URL whose host is a project ref
      followed by ".supabase.co". */
  lemma EnvAcceptsOnlyProjectUrls(url: Option<string>, key: Option<string>, parse: UrlParser)
    ensures GetSupabaseEnv(url, key, parse).Success? <==>
      && url.Some? && url.value != "" && key.Some? && key.value != ""
      && parse(url.value).Some?
      && exists ref :: IsProjectRef(ref) && parse(url.value).value.hostname == ref + HostSuffix
  {
    if url.Some? && parse(url.value).Some? {
      SupabaseHostIsRefAndSuffix(parse(url.value).value.hostname);
    }
  }
}
