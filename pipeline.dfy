/** The per-file loop of processFile: decode records one at a time, format
    each one, print the accepted lines and count what was included and
    excluded, with a progress notice every 1000 records. */
module Pipeline {
  import opened Strconv
  import opened Headers
  import opened Caddy

  /** One step of the JSON decoder: a decoded record, or a decoding error. */
  datatype Item = Decoded(entry: Entry) | DecodeFailure

  /** The header views Format left on one record. */
  datatype Views = Views(headers: map<string, string>, respHeaders: map<string, string>)

  /** `v` is a pair of views Format can leave on record `e`: for a record the
      host or URL rule rejects nothing is normalised, so any views fit. */
  ghost predicate ViewsFit(e: Entry, conf: Config, v: Views)
  {
    RejectedEarly(e, conf) ||
    (IsNormalizationOf(e.request.headers, v.headers) && IsNormalizationOf(e.respHeaders, v.respHeaders))
  }

  /** What Format returns for record `e` with views `v`. */
  function Outcome(e: Entry, conf: Config, v: Views, lib: Library): (string, bool)
  {
    FormatWith(e, conf, v.headers, v.respHeaders, lib)
  }

  /** `o` is what Format returned for record `e`, leaving views `v` on it. */
  ghost predicate Formatted(e: Entry, conf: Config, v: Views, lib: Library, o: (string, bool))
  {
    ViewsFit(e, conf, v) && o == Outcome(e, conf, v, lib)
  }

  /** The first `n` items were decoded, and `outs` and `views` hold what
      Format returned for each of them and the views it left. */
  ghost predicate AllFormatted(items: seq<Item>, conf: Config, lib: Library, views: seq<Views>, outs: seq<(string, bool)>, n: nat)
  {
    && n <= |items| && |views| == |outs| == n
    && forall i :: 0 <= i < n ==> items[i].Decoded? && Formatted(items[i].entry, conf, views[i], lib, outs[i])
  }

  /** The lines printed for a run of Format results, in record order. */
  function Emitted(outs: seq<(string, bool)>): seq<string>
    decreases |outs|
  {
    if outs == [] then []
    else
      var n := |outs| - 1;
      Emitted(outs[..n]) + (if outs[n].1 then [outs[n].0] else [])
  }

  /** How many of a run of Format results are acceptances. */
  function IncludedCount(outs: seq<(string, bool)>): (c: nat)
    ensures c <= |outs|
    decreases |outs|
  {
    if outs == [] then 0
    else
      var n := |outs| - 1;
      IncludedCount(outs[..n]) + (if outs[n].1 then 1 else 0)
  }

  /** A progress notice: the counts processFile writes to standard error. */
  datatype Progress = Progress(total: nat, included: nat, excluded: nat)

  /** The text of a progress notice, as written to standard error. */
  function ProgressLine(p: Progress): string
  {
    "processed " + Itoa(p.total) + " (" + Itoa(p.included) + " included, " + Itoa(p.excluded) + " excluded)\n"
  }

  /** The notice written once the last of `outs` is counted: one after every
      1000th record, with the counts at that point. */
  function NoticeAt(outs: seq<(string, bool)>): seq<Progress>
  {
    var n, c := |outs|, IncludedCount(outs);
    if n > 0 && n % 1000 == 0 then [Progress(n, c, n - c)] else []
  }

  /** The notices written over a run of Format results. */
  function Notices(outs: seq<(string, bool)>): seq<Progress>
    decreases |outs|
  {
    if outs == [] then [] else Notices(outs[..|outs| - 1]) + NoticeAt(outs)
  }

  /** How many items the decoder yields before its first failure. */
  function DecodedPrefix(items: seq<Item>): (n: nat)
    ensures n <= |items|
    ensures forall i :: 0 <= i < n ==> items[i].Decoded?
    ensures n < |items| ==> items[n].DecodeFailure?
    decreases |items|
  {
    if items == [] || items[0].DecodeFailure? then 0 else 1 + DecodedPrefix(items[1..])
  }

  /** The body of the loop for one record: a fresh CaddyLog holding the
      decoded record, formatted under `conf`. */
  method FormatRecord(e: Entry, conf: Config, lib: Library) returns (line: string, ok: bool, ghost v: Views)
    ensures Formatted(e, conf, v, lib, (line, ok))
  {
    var l := new CaddyLog(e);
    line, ok := l.Format(conf, lib);
    v := Views(l.normalizedHeaders, l.normalizedRespHeaders);
  }

  /** processFile from the decoding loop on: each record gets a fresh CaddyLog
      and is formatted; an accepted line is printed at once, so a decoding
      error stops the loop with the lines printed so far kept. `failed` is
      the error processFile returns. `views` and `outs` record what Format
      left on each record and what it returned. */
  method ProcessRecords(items: seq<Item>, conf: Config, lib: Library)
    returns (lines: seq<string>, notices: seq<Progress>, total: nat, included: nat, excluded: nat,
             failed: bool, ghost views: seq<Views>, ghost outs: seq<(string, bool)>)
    ensures total == DecodedPrefix(items) && total == included + excluded
    ensures failed <==> total < |items|
    ensures AllFormatted(items, conf, lib, views, outs, total)
    ensures lines == Emitted(outs)
    ensures included == |lines| == IncludedCount(outs)
    ensures notices == Notices(outs)
  {
    lines, notices := [], [];
    total, included, excluded := 0, 0, 0;
    views, outs := [], [];
    while total < |items|
      invariant total == included + excluded
      invariant AllFormatted(items, conf, lib, views, outs, total)
      invariant lines == Emitted(outs)
      invariant included == |lines| == IncludedCount(outs)
      invariant notices == Notices(outs)
      decreases |items| - total
    {
      if items[total].DecodeFailure? {
        DecodedPrefixAt(items, total);
        failed := true;
        return;
      }
      var line, ok, v := FormatRecord(items[total].entry, conf, lib);
      FormattedStep(items, conf, lib, views, outs, total, v, (line, ok));
      EmitStep(outs, (line, ok));
      ghost var outs0 := outs;
      outs := outs + [(line, ok)];
      views := views + [v];
      if ok {
        lines := lines + [line];
        included := included + 1;
      } else {
        excluded := excluded + 1;
      }
      total := total + 1;
      NoticeAtCounts(outs, included, excluded);
      if total % 1000 == 0 {
        notices := notices + [Progress(total, included, excluded)];
      }
      assert notices == Notices(outs0) + NoticeAt(outs);
    }
    DecodedPrefixAt(items, total);
    failed := false;
  }

  /** Formatting one more decoded record extends what is known about the run. */
  lemma FormattedStep(items: seq<Item>, conf: Config, lib: Library, views: seq<Views>, outs: seq<(string, bool)>,
                      n: nat, v: Views, o: (string, bool))
    requires AllFormatted(items, conf, lib, views, outs, n)
    requires n < |items| && items[n].Decoded? && Formatted(items[n].entry, conf, v, lib, o)
    ensures AllFormatted(items, conf, lib, views + [v], outs + [o], n + 1)
  {
    forall i | 0 <= i <= n
      ensures items[i].Decoded? && Formatted(items[i].entry, conf, (views + [v])[i], lib, (outs + [o])[i])
    {
      if i < n {
        assert (views + [v])[i] == views[i] && (outs + [o])[i] == outs[i];
      }
    }
  }

  /** One more record extends the lines, the count and the notices by what
      that record contributes and nothing else. */
  lemma EmitStep(outs: seq<(string, bool)>, o: (string, bool))
    ensures Emitted(outs + [o]) == Emitted(outs) + (if o.1 then [o.0] else [])
    ensures IncludedCount(outs + [o]) == IncludedCount(outs) + (if o.1 then 1 else 0)
    ensures Notices(outs + [o]) == Notices(outs) + NoticeAt(outs + [o])
  {
    assert (outs + [o])[..|outs|] == outs;
  }

  /** The notice for the last record, given the running counts. */
  lemma NoticeAtCounts(outs: seq<(string, bool)>, included: nat, excluded: nat)
    requires included == IncludedCount(outs) && |outs| == included + excluded
    ensures NoticeAt(outs) ==
      if |outs| > 0 && |outs| % 1000 == 0 then [Progress(|outs|, included, excluded)] else []
  {
  }

  /** If the first `n` items decoded and item `n` is a failure or the end,
      the decoder yields exactly `n` records. */
  lemma {:induction false} DecodedPrefixAt(items: seq<Item>, n: nat)
    requires n <= |items|
    requires forall i :: 0 <= i < n ==> items[i].Decoded?
    requires n < |items| ==> items[n].DecodeFailure?
    ensures DecodedPrefix(items) == n
    decreases n
  {
    if n > 0 {
      DecodedPrefixAt(items[1..], n - 1);
    }
  }

  /** Exactly the accepted records produce a line. */
  lemma {:induction false} EmittedCount(outs: seq<(string, bool)>)
    ensures |Emitted(outs)| == IncludedCount(outs) <= |outs|
    decreases |outs|
  {
    if outs != [] {
      EmittedCount(outs[..|outs| - 1]);
    }
  }

  /** Output is append-only and in record order: the lines for a longer run
      of records are those of its first part followed by those of the rest. */
  lemma {:induction false} EmittedAppend(a: seq<(string, bool)>, b: seq<(string, bool)>)
    ensures Emitted(a + b) == Emitted(a) + Emitted(b)
    decreases |b|
  {
    if b == [] {
      assert a + b == a;
    } else {
      var n := |b| - 1;
      assert (a + b)[..|a| + n] == a + b[..n];
      EmittedAppend(a, b[..n]);
    }
  }

  /** Every accepted record's line is printed. */
  lemma {:induction false} EmittedMembers(outs: seq<(string, bool)>, i: nat)
    requires i < |outs| && outs[i].1
    ensures outs[i].0 in Emitted(outs)
    decreases |outs|
  {
    var n := |outs| - 1;
    if i < n {
      EmittedMembers(outs[..n], i);
    }
  }

  /** Every printed line is the line of an accepted record. */
  lemma {:induction false} EmittedFrom(outs: seq<(string, bool)>, line: string)
    requires line in Emitted(outs)
    ensures exists i :: 0 <= i < |outs| && outs[i].1 && outs[i].0 == line
    decreases |outs|
  {
    var n := |outs| - 1;
    if line in Emitted(outs[..n]) {
      EmittedFrom(outs[..n], line);
      var i :| 0 <= i < n && outs[..n][i].1 && outs[..n][i].0 == line;
      assert outs[i] == outs[..n][i];
    } else {
      assert outs[n].1 && outs[n].0 == line;
    }
  }

  /** One notice is written per complete thousand records. */
  lemma {:induction false} NoticeCount(outs: seq<(string, bool)>)
    ensures |Notices(outs)| == |outs| / 1000
    decreases |outs|
  {
    if outs != [] {
      var n := |outs| - 1;
      NoticeCount(outs[..n]);
      assert |outs| / 1000 == n / 1000 + (if |outs| % 1000 == 0 then 1 else 0);
    }
  }

  /** With every rule switched off, every record produces a line. */
  lemma NoFiltersEmitAll(es: seq<Entry>, vs: seq<Views>, outs: seq<(string, bool)>, lib: Library)
    requires |es| == |vs| == |outs|
    requires forall i :: 0 <= i < |outs| ==> outs[i] == Outcome(es[i], Config("", "", ""), vs[i], lib)
    ensures IncludedCount(outs) == |Emitted(outs)| == |outs|
  {
    forall i | 0 <= i < |outs|
      ensures outs[i].1
    {
      NoFiltersAcceptAll(es[i], vs[i].headers, vs[i].respHeaders, lib);
    }
    AllAccepted(outs);
    EmittedCount(outs);
  }

  /** A run of acceptances is counted in full. */
  lemma {:induction false} AllAccepted(outs: seq<(string, bool)>)
    requires forall i :: 0 <= i < |outs| ==> outs[i].1
    ensures IncludedCount(outs) == |outs|
    decreases |outs|
  {
    if outs != [] {
      AllAccepted(outs[..|outs| - 1]);
    }
  }
}
