/** One Caddy access-log record and its conversion to a GoAccess line:
    the filters, the client-address resolution and the 11-field projection. */
module Caddy {
  import opened Text
  import opened Strconv
  import opened Headers

  /** The three prefix rules; an empty string switches a rule off. */
  datatype Config = Config(includeHosts: string, excludeClients: string, excludeURLs: string)

  /** The GoAccess log-format declaration. It is written in Go as a raw string,
      so its separators are a backslash followed by the letter t, not tabs. */
  const LogFormat: string := "%x\\t%v\\t%h\\t%m\\t%U\\t%s\\t%b\\t%R\\t%u\\t%M\\t%T"

  /** The format specifiers of LogFormat, in the order of the output fields:
      timestamp, virtual host, client, method, URL, status, size, referer,
      user agent, MIME type, duration. */
  const Specifiers: seq<string> := ["%x", "%v", "%h", "%m", "%U", "%s", "%b", "%R", "%u", "%M", "%T"]

  /** LogFormat written out as its specifiers and separators. */
  lemma LogFormatPieces()
    ensures LogFormat == "%x" + "\\t" + ("%v" + "\\t" + ("%h" + "\\t" + ("%m" + "\\t" + ("%U" + "\\t" +
      ("%s" + "\\t" + ("%b" + "\\t" + ("%R" + "\\t" + ("%u" + "\\t" + ("%M" + "\\t" + "%T")))))))))
  {
  }

  /** Joining the specifiers with any separator, written out. */
  lemma JoinSpecifiers(sep: string)
    ensures Join(Specifiers, sep) == "%x" + sep + ("%v" + sep + ("%h" + sep + ("%m" + sep + ("%U" + sep +
      ("%s" + sep + ("%b" + sep + ("%R" + sep + ("%u" + sep + ("%M" + sep + "%T")))))))))
  {
    var s := Specifiers;
    assert Join(s[9..], sep) == "%M" + sep + "%T";
    assert Join(s[8..], sep) == "%u" + sep + Join(s[9..], sep);
    assert Join(s[7..], sep) == "%R" + sep + Join(s[8..], sep);
    assert Join(s[6..], sep) == "%b" + sep + Join(s[7..], sep);
    assert Join(s[5..], sep) == "%s" + sep + Join(s[6..], sep);
    assert Join(s[4..], sep) == "%U" + sep + Join(s[5..], sep);
    assert Join(s[3..], sep) == "%m" + sep + Join(s[4..], sep);
    assert Join(s[2..], sep) == "%h" + sep + Join(s[3..], sep);
    assert Join(s[1..], sep) == "%v" + sep + Join(s[2..], sep);
  }

  /** LogFormat declares one specifier per output field, joined by the two
      characters backslash and t; it holds no tab character. */
  lemma LogFormatLayout()
    ensures LogFormat == Join(Specifiers, "\\t")
    ensures |Specifiers| == 11
    ensures '\t' !in LogFormat
  {
    LogFormatPieces();
    JoinSpecifiers("\\t");
    LogFormatHasNoTab();
  }

  lemma LogFormatHasNoTab()
    ensures '\t' !in LogFormat
  {
  }

  /** The request part of a decoded record (the TLS block is not used). */
  datatype Request = Request(
    remoteAddr: string,
    proto: string,
    verb: string,
    host: string,
    uri: string,
    headers: HeaderMap)

  /** A decoded record. `ts` is the whole-second part of the floating-point
      timestamp and `duration` the shortest decimal text of the floating-point
      duration; both conversions are done outside this model. */
  datatype Entry = Entry(
    ts: int,
    request: Request,
    duration: string,
    size: int,
    status: int,
    respHeaders: HeaderMap)

  /** The outcome of net.SplitHostPort. */
  datatype HostPort = HostPort(host: string, port: string) | BadAddress

  /** The host result of net.SplitHostPort, which is empty when splitting fails. */
  function HostOf(r: HostPort): string
  {
    if r.HostPort? then r.host else ""
  }

  /** The library calls whose code is not part of this model: net.SplitHostPort,
      and the media type returned by mime.ParseMediaType ("" on failure). */
  datatype Library = Library(
    splitHostPort: string -> HostPort,
    parseMediaType: string -> string)

  /** A Go map lookup: the zero value "" for a missing key. */
  function Lookup(m: map<string, string>, key: string): string
  {
    if key in m then m[key] else ""
  }

  /** The include-host rule rejects a host lacking its prefix. */
  predicate IncludeHostRejects(conf: Config, host: string)
  {
    conf.includeHosts != "" && !HasPrefix(host, conf.includeHosts)
  }

  /** The exclude-URL rule rejects a URI carrying its prefix. */
  predicate ExcludeURLRejects(conf: Config, uri: string)
  {
    conf.excludeURLs != "" && HasPrefix(uri, conf.excludeURLs)
  }

  /** The exclude-client rule rejects a client carrying its prefix. */
  predicate ExcludeClientRejects(conf: Config, client: string)
  {
    conf.excludeClients != "" && HasPrefix(client, conf.excludeClients)
  }

  /** The two rules checked before the record is normalised. */
  predicate RejectedEarly(e: Entry, conf: Config)
  {
    IncludeHostRejects(conf, e.request.host) || ExcludeURLRejects(conf, e.request.uri)
  }

  /** The client address: the host part of the remote address, unless the
      request carries a non-empty X-Forwarded-For, whose first entry wins. */
  function ResolveClient(remoteAddr: string, nh: map<string, string>, lib: Library): string
  {
    var xff := Lookup(nh, "x-forwarded-for");
    if xff != "" then TrimSpace(BeforeFirst(xff, ',')) else HostOf(lib.splitHostPort(remoteAddr))
  }

  /** The 11 output fields, in the order of Specifiers. */
  function Fields(e: Entry, client: string, nh: map<string, string>, nrh: map<string, string>, lib: Library): (fs: seq<string>)
    ensures |fs| == |Specifiers|
  {
    [ Itoa(e.ts),
      e.request.host,
      client,
      e.request.verb,
      e.request.uri,
      Itoa(e.status),
      Itoa(e.size),
      Lookup(nh, "referer"),
      Lookup(nh, "user-agent"),
      lib.parseMediaType(Lookup(nrh, "content-type")),
      e.duration ]
  }

  /** What Format returns for record `e` once its request and response
      headers have been normalised to `nh` and `nrh`. */
  function FormatWith(e: Entry, conf: Config, nh: map<string, string>, nrh: map<string, string>, lib: Library): (string, bool)
  {
    if RejectedEarly(e, conf) then ("", false)
    else
      var client := ResolveClient(e.request.remoteAddr, nh, lib);
      if ExcludeClientRejects(conf, client) then ("", false)
      else (Join(Fields(e, client, nh, nrh, lib), "\t"), true)
  }

  /** A decoded record. The decoded fields never change; Format fills in the
      two normalised header views. */
  class CaddyLog {
    const ts: int
    const request: Request
    const duration: string
    const size: int
    const status: int
    const respHeaders: HeaderMap
    var normalizedHeaders: map<string, string>
    var normalizedRespHeaders: map<string, string>

    /** The decoded fields as a value. */
    function Record(): Entry
    {
      Entry(ts, request, duration, size, status, respHeaders)
    }

    constructor (e: Entry)
      ensures Record() == e
      ensures normalizedHeaders == map[] && normalizedRespHeaders == map[]
    {
      ts, request, duration := e.ts, e.request, e.duration;
      size, status, respHeaders := e.size, e.status, e.respHeaders;
      normalizedHeaders, normalizedRespHeaders := map[], map[];
    }

    /** Format: apply the filters and, for an accepted record, build its line.
        A record rejected by the host or URL rule is left untouched; otherwise
        both header views are normalised first. */
    method Format(conf: Config, lib: Library) returns (line: string, ok: bool)
      modifies this
      ensures RejectedEarly(Record(), conf) ==> !ok && line == "" && unchanged(this)
      ensures !RejectedEarly(Record(), conf) ==>
        IsNormalizationOf(request.headers, normalizedHeaders) &&
        IsNormalizationOf(respHeaders, normalizedRespHeaders)
      ensures (line, ok) == FormatWith(Record(), conf, normalizedHeaders, normalizedRespHeaders, lib)
    {
      if IncludeHostRejects(conf, request.host) {
        return "", false;
      }
      if ExcludeURLRejects(conf, request.uri) {
        return "", false;
      }
      normalizedHeaders := NormalizeHeaders(request.headers);
      normalizedRespHeaders := NormalizeHeaders(respHeaders);
      var remoteHost := HostOf(lib.splitHostPort(request.remoteAddr));
      var xff := Lookup(normalizedHeaders, "x-forwarded-for");
      if xff != "" {
        remoteHost := TrimSpace(BeforeFirst(xff, ','));
      }
      if ExcludeClientRejects(conf, remoteHost) {
        return "", false;
      }
      var contentType := lib.parseMediaType(Lookup(normalizedRespHeaders, "content-type"));
      var fields := [Itoa(ts), request.host, remoteHost, request.verb, request.uri,
                     Itoa(status), Itoa(size), Lookup(normalizedHeaders, "referer"),
                     Lookup(normalizedHeaders, "user-agent"), contentType, duration];
      return Join(fields, "\t"), true;
    }
  }

  /** The filters, in both directions: each enabled rule that matches rejects
      the record with an empty line, whatever the rest of the record and the
      header views; a record no rule matches is accepted. */
  lemma FilterDecision(e: Entry, conf: Config, nh: map<string, string>, nrh: map<string, string>, lib: Library)
    ensures var client := ResolveClient(e.request.remoteAddr, nh, lib);
      var (line, ok) := FormatWith(e, conf, nh, nrh, lib);
      && (IncludeHostRejects(conf, e.request.host) ==> line == "" && !ok)
      && (ExcludeURLRejects(conf, e.request.uri) ==> line == "" && !ok)
      && (ExcludeClientRejects(conf, client) ==> line == "" && !ok)
      && (ok <==> !IncludeHostRejects(conf, e.request.host) && !ExcludeURLRejects(conf, e.request.uri)
                  && !ExcludeClientRejects(conf, client))
  {
  }

  /** With every rule switched off, every record is accepted. */
  lemma NoFiltersAcceptAll(e: Entry, nh: map<string, string>, nrh: map<string, string>, lib: Library)
    ensures FormatWith(e, Config("", "", ""), nh, nrh, lib).1
  {
  }

  /** A non-empty X-Forwarded-For decides the client whatever the remote
      address: its first comma-separated entry, with surrounding white space
      removed. */
  lemma ForwardedForWins(remoteAddr: string, otherAddr: string, nh: map<string, string>, lib: Library)
    requires Lookup(nh, "x-forwarded-for") != ""
    ensures var xff := Lookup(nh, "x-forwarded-for");
      var client := ResolveClient(remoteAddr, nh, lib);
      && client == TrimSpace(BeforeFirst(xff, ','))
      && client == ResolveClient(otherAddr, nh, lib)
      && ',' !in client
      && (|client| > 0 ==> !IsSpace(client[0]) && !IsSpace(client[|client| - 1]))
  {
    var xff := Lookup(nh, "x-forwarded-for");
    var first := BeforeFirst(xff, ',');
    var client := TrimSpace(first);
    TrimSpaceIsSlice(first);
    var i :| IsTrimOf(first, client, i);
  }

  /** Without X-Forwarded-For the client is the host part of the remote
      address, and empty when the address does not split. */
  lemma RemoteAddrClient(remoteAddr: string, nh: map<string, string>, lib: Library)
    requires Lookup(nh, "x-forwarded-for") == ""
    ensures lib.splitHostPort(remoteAddr).HostPort? ==>
      ResolveClient(remoteAddr, nh, lib) == lib.splitHostPort(remoteAddr).host
    ensures lib.splitHostPort(remoteAddr).BadAddress? ==> ResolveClient(remoteAddr, nh, lib) == ""
  {
  }

  /** The text before the first comma of the example header. */
  lemma ExampleFirstEntry()
    ensures BeforeFirst("203.0.113.5, 10.0.0.1", ',') == "203.0.113.5"
  {
    var first := "203.0.113.5";
    assert "203.0.113.5, 10.0.0.1" == first + [','] + " 10.0.0.1";
    BeforeFirstOfJoin(first, ',', " 10.0.0.1");
  }

  /** The example's first entry has no white space to trim. */
  lemma ExampleEntryTrimmed()
    ensures TrimSpace("203.0.113.5") == "203.0.113.5"
  {
    var first := "203.0.113.5";
    assert first[0] == '2' && first[|first| - 1] == '5';
    DigitIsNotSpace('2');
    DigitIsNotSpace('5');
  }

  /** The proxy example: "203.0.113.5, 10.0.0.1" resolves to "203.0.113.5". */
  lemma ForwardedForExample(lib: Library)
    ensures ResolveClient("10.0.0.1:443", map["x-forwarded-for" := "203.0.113.5, 10.0.0.1"], lib) == "203.0.113.5"
  {
    var nh := map["x-forwarded-for" := "203.0.113.5, 10.0.0.1"];
    assert Lookup(nh, "x-forwarded-for") == "203.0.113.5, 10.0.0.1";
    ExampleFirstEntry();
    ExampleEntryTrimmed();
  }

  /** The fields of Fields that are copied from text of the record or the
      headers, as opposed to rendered numbers. */
  function TextFields(e: Entry, client: string, nh: map<string, string>, nrh: map<string, string>, lib: Library): seq<string>
  {
    [e.request.host, client, e.request.verb, e.request.uri, Lookup(nh, "referer"),
     Lookup(nh, "user-agent"), lib.parseMediaType(Lookup(nrh, "content-type")), e.duration]
  }

  /** No field holds a tab when no text field does: the numbers are digits. */
  lemma FieldsHaveNoTab(e: Entry, client: string, nh: map<string, string>, nrh: map<string, string>, lib: Library)
    requires forall t :: t in TextFields(e, client, nh, nrh, lib) ==> '\t' !in t
    ensures var fs := Fields(e, client, nh, nrh, lib);
      forall k :: 0 <= k < |fs| ==> '\t' !in fs[k]
  {
    var fs := Fields(e, client, nh, nrh, lib);
    var ts := TextFields(e, client, nh, nrh, lib);
    ItoaHasNoTab(e.ts);
    ItoaHasNoTab(e.status);
    ItoaHasNoTab(e.size);
    forall k | 0 <= k < |fs| ensures '\t' !in fs[k] {
      if 0 < k < 5 {
        assert fs[k] == ts[k - 1];
      } else if 6 < k {
        assert fs[k] == ts[k - 3];
      }
    }
  }

  /** The tab-joined fields split back into themselves when no text field
      holds a tab. */
  lemma FieldsSplitBack(e: Entry, client: string, nh: map<string, string>, nrh: map<string, string>, lib: Library)
    requires forall t :: t in TextFields(e, client, nh, nrh, lib) ==> '\t' !in t
    ensures var fs := Fields(e, client, nh, nrh, lib);
      Split(Join(fs, "\t"), '\t') == fs
  {
    FieldsHaveNoTab(e, client, nh, nrh, lib);
    SplitJoin(Fields(e, client, nh, nrh, lib), '\t');
  }

  /** An accepted line splits on tabs into the 11 fields, in the order of
      Specifiers, provided no text field holds a tab; the numbers parse back
      to the record's timestamp, status and size. */
  lemma AcceptedLineFields(e: Entry, conf: Config, nh: map<string, string>, nrh: map<string, string>, lib: Library)
    requires FormatWith(e, conf, nh, nrh, lib).1
    requires forall t :: t in TextFields(e, ResolveClient(e.request.remoteAddr, nh, lib), nh, nrh, lib) ==> '\t' !in t
    ensures var parts := Split(FormatWith(e, conf, nh, nrh, lib).0, '\t');
      && parts == Fields(e, ResolveClient(e.request.remoteAddr, nh, lib), nh, nrh, lib)
      && |parts| == |Specifiers|
      && Atoi(parts[0]) == Some(e.ts)
      && Atoi(parts[5]) == Some(e.status)
      && Atoi(parts[6]) == Some(e.size)
  {
    var client := ResolveClient(e.request.remoteAddr, nh, lib);
    var fs := Fields(e, client, nh, nrh, lib);
    assert FormatWith(e, conf, nh, nrh, lib).0 == Join(fs, "\t");
    FieldsSplitBack(e, client, nh, nrh, lib);
    assert fs[0] == Itoa(e.ts) && fs[5] == Itoa(e.status) && fs[6] == Itoa(e.size);
    ItoaRoundTrip(e.ts);
    ItoaRoundTrip(e.status);
    ItoaRoundTrip(e.size);
  }
}
