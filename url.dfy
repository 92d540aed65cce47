/** normalizeUrl, which the dashboard (client) and the list/create route (server) define with the
    same text: trim, reject empty input, infer `https://` when no http(s) scheme is written, parse,
    and keep only http and https URLs, in their serialised form. */
module Url {
  import opened Wrappers
  import opened JsString

  /** What the WHATWG URL Standard's basic URL parser (section 4.4, "URL parsing") gives the code:
      the `protocol` getter (the scheme followed by ':'), the `hostname` getter and the serialised
      URL (`toString()`/`href`). */
  datatype ParsedUrl = ParsedUrl(protocol: string, hostname: string, href: string)

  /** `new URL(s)`: None where the constructor throws. The parser itself is not modelled. */
  type UrlParser = string -> Option<ParsedUrl>

  /** The test /^https?:\/\//i: "http" or "https" in any ASCII case, then "://". */
  predicate HasHttpPrefix(s: string) {
    || (|s| >= 7 && EqualsIgnoringCase(s[..4], "http") && s[4..7] == "://")
    || (|s| >= 8 && EqualsIgnoringCase(s[..5], "https") && s[5..8] == "://")
  }

  /** The prefix test accepts exactly the ASCII case variants of "http" (each letter as written
      or in upper case), then an optional s or S, then "://". */
  lemma {:induction false} HttpPrefixIsCaseVariant(s: string)
    ensures HasHttpPrefix(s) <==>
      && |s| >= 7
      && (forall i :: 0 <= i < 4 ==> s[i] == "http"[i] || s[i] as int == "http"[i] as int - 32)
      && (s[4..7] == "://" || (|s| >= 8 && (s[4] == 's' || s[4] == 'S') && s[5..8] == "://"))
  {
    if |s| >= 7 {
      forall i | 0 <= i < 4
        ensures AsciiLower(s[i]) == "http"[i] <==> s[i] == "http"[i] || s[i] as int == "http"[i] as int - 32
      {
        AsciiLowerPreimage(s[i], "http"[i]);
      }
      AsciiLowerPreimage(s[4], 's');
      assert EqualsIgnoringCase(s[..4], "http") <==> forall i :: 0 <= i < 4 ==> AsciiLower(s[i]) == "http"[i];
      if |s| >= 8 {
        assert EqualsIgnoringCase(s[..5], "https") <==>
          (forall i :: 0 <= i < 4 ==> AsciiLower(s[i]) == "http"[i]) && AsciiLower(s[4]) == 's';
      }
    }
  }

  /** The string handed to the parser for the trimmed input `value`. */
  function WithProtocol(value: string): (s: string)
    ensures HasHttpPrefix(s)
    ensures HasHttpPrefix(value) ==> s == value
    ensures !HasHttpPrefix(value) ==> s == "https://" + value
  {
    if HasHttpPrefix(value) then value
    else
      var s := "https://" + value;
      assert s[..5] == "https" && s[5..8] == "://";
      s
  }

  /** JavaScript truthiness of a `string | null`: neither null nor "". */
  predicate IsTruthy(r: Option<string>) {
    r.Some? && r.value != ""
  }

  predicate IsWebProtocol(protocol: string) {
    protocol == "http:" || protocol == "https:"
  }

  /** normalizeUrl(input): None is the function's `null`. */
  function NormalizeUrl(input: string, parse: UrlParser): (r: Option<string>)
    ensures r.Some? <==>
      && Trim(input) != []
      && parse(WithProtocol(Trim(input))).Some?
      && IsWebProtocol(parse(WithProtocol(Trim(input))).value.protocol)
    ensures r.Some? ==> r.value == parse(WithProtocol(Trim(input))).value.href
  {
    var value := Trim(input);
    if value == [] then None
    else
      match parse(WithProtocol(value))
      case None => None
      case Some(parsed) =>
        if !IsWebProtocol(parsed.protocol) then None else Some(parsed.href)
  }

  /** Empty and whitespace-only input is null, whatever the parser would say. */
  lemma NormalizeUrlRejectsBlank(input: string, parse: UrlParser)
    requires AllWhitespace(input)
    ensures NormalizeUrl(input, parse) == None
  {
  }

  /** The parser is consulted at one string only: two parsers that agree there give the same answer. */
  lemma NormalizeUrlConsultsParserOnce(input: string, p1: UrlParser, p2: UrlParser)
    requires p1(WithProtocol(Trim(input))) == p2(WithProtocol(Trim(input)))
    ensures NormalizeUrl(input, p1) == NormalizeUrl(input, p2)
  {
  }

  /** Leading and trailing whitespace never changes the outcome. */
  lemma NormalizeUrlIgnoresSurroundingWhitespace(input: string, parse: UrlParser)
    ensures NormalizeUrl(Trim(input), parse) == NormalizeUrl(input, parse)
  {
    TrimIdempotent(input);
  }

  /** A parser that reports the scheme it was given, as the WHATWG parser does for an input
      starting with a special scheme ("http" and "https" are special, and the parser lower-cases
      the scheme). */
  ghost predicate ReportsHttpScheme(parse: UrlParser) {
    forall s :: HasHttpPrefix(s) && parse(s).Some? ==> IsWebProtocol(parse(s).value.protocol)
  }

  /** Since the parser always sees an http(s) prefix, the protocol check rejects nothing a
      scheme-reporting parser accepts: the result is non-null exactly when the trimmed input is
      non-empty and parses. */
  lemma NormalizeUrlAcceptsWhatParses(input: string, parse: UrlParser)
    requires ReportsHttpScheme(parse)
    ensures NormalizeUrl(input, parse).Some? <==>
      Trim(input) != [] && parse(WithProtocol(Trim(input))).Some?
  {
    var s := WithProtocol(Trim(input));
    assert HasHttpPrefix(s);
  }
}
