# caddy2goaccess in Dafny

caddy2goaccess turns Caddy's JSON access logs into tab-separated lines that
GoAccess reads with a fixed log-format declaration. This project models the
core of `main.go`:

- **Header normalisation** (`normalizeHeaders`). A multi-valued header map
  becomes a single-valued map keyed by lower-cased names. The model is the
  same loop over a key set, with the key chosen by `:|` because Go visits a
  map in no fixed order. Its contract is the relation `IsNormalizationOf`.
  Which name wins when two names lower-case alike is left open.
- **Record formatting** (`CaddyLog.Format`). This covers:
  - the three prefix rules, in the order the code checks them: include-host,
    exclude-URL, then exclude-client;
  - normalisation of both header maps, done only when the first two rules
    let the record through;
  - client resolution: the host part of the remote address, overridden by
    the first `X-Forwarded-For` entry with white space trimmed;
  - the 11-field projection, joined with tab characters.

  `CaddyLog` is a class. The decoded fields are constants and the two
  normalised views are fields that `Format` assigns. `FormatWith` is the
  function the method is proved against.
- **The `logFormat` constant.** It is a Go raw string, so its separators are
  the two characters backslash and `t`, not tabs.
- **The per-file loop of `processFile`.**
  - It formats the records one by one.
  - It prints each accepted line at once and counts included and excluded
    records.
  - It writes a progress notice after every 1000th record.
  - It stops at the first decoding error, and the lines already printed stay
    printed.

Two library calls are parameters, held in the `Library` datatype.
`net.SplitHostPort` returns a host and port, or a failure. The media type
that `mime.ParseMediaType` returns is an arbitrary function of the header
text.

When `net.SplitHostPort` fails (say on `"not-a-valid-addr"`), `main.go:84`
discards the error, so the client is the empty host it returns, not the raw
address. `RemoteAddrClient` states this.

Files:

- `text.dfy`: the `strings` functions the tool uses.
- `strconv.dfy`: `Itoa`, and the parser `Atoi` it is proved against.
- `headers.dfy`: normalisation.
- `caddylog.dfy`: the record, the filters, the projection and `LogFormat`.
- `pipeline.dfy`: the stream loop.

## Model

| member | source | states |
|---|---|---|
| Text.HasPrefix | main.go:74-91 | The prefix test of the three rules: `s` is at least as long as `p` and begins with it, character by character |
| Text.PrefixOfConcat | main.go:74-91 | `s` begins with `p` exactly when `s` is `p` followed by some text; every string begins with the empty prefix, which is why each rule is guarded by a non-empty check |
| Text.Join | main.go:112 | `strings.Join`: empty for no elements; otherwise as long as the elements plus one separator per gap, and beginning with the first element |
| Text.ToLower | main.go:121 | Same length and no upper-case ASCII letter left; each character is the lower-case form of the input's; lower-case input comes back unchanged |
| Text.TrimSpace | main.go:87 | Neither end of the result is white space; input whose ends are not white space comes back unchanged |
| Text.TrimSpaceIsSlice | main.go:87 | The trimmed text is a contiguous slice of the input, with only white space before and after it |
| Text.BeforeFirst | main.go:86-87 | The first part of `SplitN(s, ",", 2)`: a prefix of `s` with no comma, followed in `s` by a comma unless it is all of `s`; all of `s` when `s` has no comma |
| Text.IndexOf | main.go:86 | -1 exactly when the character is absent; otherwise the position of its first occurrence |
| Text.SplitJoin | main.go:112 | Joining pieces that do not contain a one-character separator, then splitting on that separator, gives the pieces back |
| Text.JoinExcludes | main.go:112 | A character absent from every piece and from the separator is absent from the joined text |
| Strconv.Itoa | main.go:99-105 | The canonical decimal form: at least one character; a leading minus exactly for negative numbers and a digit first otherwise; digits after the first position; no leading zero except for 0 itself |
| Strconv.ItoaRoundTrip | main.go:99-105 | Every rendered integer parses back to itself |
| Strconv.ItoaHasNoTab | main.go:99-105 | A rendered number never contains a tab |
| Headers.NormalizeHeaders | main.go:115-124 | The map returned, whatever order the keys are visited in, is a normalisation of the input: every name with a value appears lower-cased, and every entry is the first value of a name that lower-cases to its key |
| Headers.NormalizedFirstValue | main.go:117-122 | When no two names lower-case alike, the entry for a lower-cased name is the first value received under that name |
| Headers.NormalizationUnique | main.go:117-122 | When no two names lower-case alike, all normalisations are equal, so the visiting order is invisible |
| Headers.NormalizedKeysLower | main.go:121 | Every key of a normalised map is lower case |
| Headers.EmptyListSkipped | main.go:118-120 | A name with an empty value list produces no entry: its lower-cased name is absent unless a name carrying values lower-cases to it |
| Headers.EmptyListsExample | main.go:118-120 | `{"X-A": [], "x-a": []}` normalises to the empty map |
| Headers.NormalizeSingletons | main.go:115-124 | Normalising a lower-case single-valued map, seen as one-element lists, gives it back |
| Headers.NormalizeOneHeader | main.go:115-124 | A single name with values normalises to its lower-cased name with its first value |
| Headers.NormalizeExample | main.go:115-124 | `{"X-Test": ["a", "b"]}` normalises to `{"x-test": "a"}` |
| Caddy.IncludeHostRejects | main.go:74-76 | The include-host rule: enabled by a non-empty prefix, it rejects a host that does not begin with it |
| Caddy.ExcludeURLRejects | main.go:78-80 | The exclude-URL rule: enabled by a non-empty prefix, it rejects a URI that begins with it |
| Caddy.ExcludeClientRejects | main.go:89-91 | The exclude-client rule: enabled by a non-empty prefix, it rejects a resolved client that begins with it |
| Caddy.ResolveClient | main.go:84-88 | The client: the trimmed text before the first comma of a non-empty `x-forwarded-for`, else the host `SplitHostPort` returns; its properties are `ForwardedForWins` and `RemoteAddrClient` |
| Caddy.Fields | main.go:98-110 | The output fields, one per specifier of `logFormat`, in the order the comments at main.go:95-97 give |
| Caddy.FormatWith | main.go:74-112 | What `Format` returns once the views are normalised: `("", false)` for a rejected record, else the tab-joined fields and `true`; its properties are `FilterDecision` and `AcceptedLineFields` |
| Caddy.CaddyLog.constructor | main.go:17-43 | The object holds the decoded record, and both normalised views are empty |
| Caddy.CaddyLog.Format | main.go:45-113 | A record rejected by the host or URL rule returns `("", false)` and leaves the object untouched. Any other record gets both views normalised, and the result is `FormatWith` of the record under those views |
| Caddy.FilterDecision | main.go:74-91 | Each enabled rule that matches rejects the record with an empty line. A record is accepted exactly when no rule matches |
| Caddy.NoFiltersAcceptAll | main.go:74-91 | With every rule switched off, every record is accepted |
| Caddy.ForwardedForWins | main.go:84-88 | With a non-empty `x-forwarded-for`, the client is the trimmed text before its first comma, whatever the remote address. That client has no comma and no white space at either end |
| Caddy.RemoteAddrClient | main.go:84-88 | Without `x-forwarded-for`, the client is the host `SplitHostPort` returns, and `""` when the address does not split |
| Caddy.ExampleFirstEntry | main.go:86 | The text before the first comma of `"203.0.113.5, 10.0.0.1"` is `"203.0.113.5"` |
| Caddy.ExampleEntryTrimmed | main.go:87 | Trimming `"203.0.113.5"` leaves it unchanged |
| Caddy.ForwardedForExample | main.go:84-88 | Remote address `10.0.0.1:443` with forwarded-for `"203.0.113.5, 10.0.0.1"` resolves to `203.0.113.5` |
| Caddy.FieldsHaveNoTab | main.go:98-110 | No field holds a tab when none of the text fields does |
| Caddy.FieldsSplitBack | main.go:98-112 | The tab-joined fields split back into the same 11 fields when no text field holds a tab |
| Caddy.AcceptedLineFields | main.go:95-112 | An accepted line splits on tabs into exactly the 11 fields, one per specifier, when no text field holds a tab; the timestamp, status and size fields parse back to the record's numbers |
| Caddy.LogFormatPieces | main.go:132 | The constant spelled out as specifiers separated by backslash-t |
| Caddy.JoinSpecifiers | main.go:95-97 | Joining the 11 specifiers with a separator, spelled out |
| Caddy.LogFormatLayout | main.go:132 | `logFormat` is the 11 specifiers in field order joined by the two characters backslash and `t`, and it holds no tab |
| Pipeline.Emitted | main.go:184-186 | The lines printed for a run of `Format` results: the lines of the accepted ones, in record order; characterised by `EmittedMembers`, `EmittedFrom` and `EmittedAppend` |
| Pipeline.IncludedCount | main.go:184-189 | How many of a run of `Format` results are acceptances, at most the length of the run |
| Pipeline.Notices | main.go:190-193 | The progress notices over a run of records: one after each 1000th, carrying the counts at that point; `NoticeCount` gives their number |
| Pipeline.ProgressLine | main.go:191-193 | The text of a progress notice, as `fmt.Fprintf` writes it to standard error |
| Pipeline.DecodedPrefix | main.go:177-183 | The number of records decoded before the first error or the end: each is a record, and the item after them is a failure |
| Pipeline.DecodedPrefixAt | main.go:177-183 | If the first `n` items are records and the next item is a failure or the end, then the decoder yields exactly `n` records |
| Pipeline.FormatRecord | main.go:179-184 | A fresh object for one decoded record, formatted; the result and the views left on it satisfy `Format`'s contract |
| Pipeline.ProcessRecords | main.go:176-196 | The loop formats exactly the records decoded before the first error. It reports failure exactly when it stopped early. The lines printed are the accepted lines in record order. `included` is their number, and `included + excluded` is the number of records. The notices are those of `Notices` |
| Pipeline.FormattedStep | main.go:179-190 | Formatting one more decoded record extends what is known about every record so far |
| Pipeline.EmitStep | main.go:184-194 | One more record adds its line only if accepted, adds one to the count only if accepted, and adds a notice only at a multiple of 1000 |
| Pipeline.NoticeAtCounts | main.go:190-193 | At a multiple of 1000 records the notice carries the running total, included and excluded counts; otherwise there is none |
| Pipeline.EmittedCount | main.go:184-189 | The number of lines printed is the number of accepted records, and at most the number of records |
| Pipeline.EmittedAppend | main.go:178-189 | Output is append-only and in record order: the lines for two runs of records are the first run's lines followed by the second's |
| Pipeline.EmittedMembers | main.go:184-186 | Every accepted record's line is printed |
| Pipeline.EmittedFrom | main.go:184-186 | Every printed line is the line of an accepted record |
| Pipeline.NoticeCount | main.go:190-193 | One notice is written per complete thousand records |
| Pipeline.AllAccepted | main.go:184-187 | A run of accepted records is counted in full |
| Pipeline.NoFiltersEmitAll | main.go:176-196 | With every rule switched off, every record's line is printed |

## Left out

- Opening files, gzip decompression, the `bufio` reader, JSON decoding, command-line flags, `-print-log-format`, and printing a per-file error before exiting. A file is modelled as the sequence of decoder results (`Item`).
- The `logger`, `msg` and `tls` fields of a record, which `Format` never reads. (`proto` is kept in `Request`, though `Format` does not read it either.)
- Floating point. The timestamp is the integer `int(l.Ts)`, already truncated toward zero. The duration is the text `strconv.FormatFloat(d, 'f', -1, 64)` produces. Both conversions happen outside the model.
- `net.SplitHostPort` and `mime.ParseMediaType`. They are parameters (`Library`), not modelled.
- Text.ToLower: only ASCII letters are lower-cased. Go's `strings.ToLower` also maps other Unicode letters.
- Text.TrimSpace: the white-space set is the Latin-1 one (space, `\t`, `\n`, `\v`, `\f`, `\r`, U+0085, U+00A0). Go also trims other Unicode spaces.
- Integer range: `Entry`'s integers are unbounded, so the model formats records whose `size` or `status` lies outside 64 bits, which Go's decoder refuses (main.go:181-183), and timestamps whose `int(l.Ts)` conversion Go leaves implementation-defined.
- Caddy.CaddyLog: the normalised request headers live on the object and not in its nested `Request` value. Only the logical state is modelled, not the aliasing of the Go struct.
- Pipeline.ProcessRecords:
  - printed lines are modelled without their trailing newline;
  - progress notices are modelled as their three counts (`Progress`), and `ProgressLine` gives their text;
  - standard output and standard error are sequences returned by the method.
- Headers.NormalizeHeaders: when two names lower-case alike, which first value wins is left open, as Go's map order leaves it.
