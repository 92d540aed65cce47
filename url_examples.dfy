/** Worked inputs for normalizeUrl: what string reaches the URL parser. */
module UrlExamples {
  import opened JsString
  import opened Url

  /** An input without a written http(s) scheme, such as "example.com" (or "ftp://x.com", whose
      scheme is not recognised), with any whitespace around it, reaches the parser as "https://"
      followed by the input. */
  lemma BareHostGetsHttps(before: string, host: string, after: string)
    requires AllWhitespace(before) && AllWhitespace(after)
    requires host != [] && !IsJsWhitespace(host[0]) && !IsJsWhitespace(host[|host| - 1])
    requires AsciiLower(host[0]) != 'h'
    ensures WithProtocol(Trim(before + host + after)) == "https://" + host
  {
    TrimDropsPadding(before, host, after);
    if |host| >= 7 {
      assert host[..4][0] == host[0] && host[..5][0] == host[0];
    }
  }

  /** An input that already starts with "http://" or "https://" in any ASCII case ("HTTP://",
      "hTTpS://") is handed to the parser as written, without its surrounding whitespace. */
  lemma WrittenSchemeKept(before: string, core: string, after: string)
    requires AllWhitespace(before) && AllWhitespace(after)
    requires HasHttpPrefix(core) && !IsJsWhitespace(core[|core| - 1])
    ensures WithProtocol(Trim(before + core + after)) == core
  {
    assert !IsJsWhitespace(core[0]) by { assert core[..4][0] == core[0]; }
    TrimDropsPadding(before, core, after);
  }
}
