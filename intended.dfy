/** Corrected definitions for the three places where `main.rs` departs from
    what the program evidently means to do, each with the intended property
    proved.  The modules above model the code as written; the lemmas here
    that end in `AsWritten` exhibit each departure on that model.

    1. After a void the gateway accepted, `fetch_n_void` prints
       "Voiding failed" with the void envelope's first error, and panics when
       that envelope carries none (which is what an accepted void sends).
       Intended: report "<reference> - Voided" alone and return `Ok(())`.
    2. Lines of the batch file are used as read: a blank line becomes a
       lookup of the bare purchases path, and surrounding blanks become part
       of the URL.  Intended: strip each line and skip the empty ones.
    3. With neither `--reference` nor `--filename`, `main` still calls
       `fetch_n_void` with every parameter empty.  Intended: do nothing and
       exit successfully. */
module Intended {
  import opened Wrappers
  import opened Envelope
  import opened Gateway
  import opened Workflow
  import opened Driver
  import Endpoints

  // 1. Reporting an accepted void.

  /** A void the gateway accepted. */
  predicate Accepted(voidReply: Reply) {
    Decoded(voidReply).Some? && Decoded(voidReply).value.successful
  }

  /** `fetch_n_void` as intended: identical to the code as written, except
      that an accepted void ends the call with `Ok(())` after the "Voided"
      line `void_transaction` prints. */
  function RunIntended(params: Params, reference: Option<string>, fetchReply: Reply, voidReply: Reply): (t: Transcript)
    ensures t.requests == Run(params, reference, fetchReply, voidReply).requests
  {
    var asWritten := Run(params, reference, fetchReply, voidReply);
    match FetchedId(fetchReply)
    case None => asWritten
    case Some(id) =>
      var void := VoidTransaction(params, ReferenceOf(params, reference), id, voidReply);
      if void.outcome.Returned? && void.outcome.result.Ok? then
        Transcript(Returned(Ok(())), asWritten.requests, void.printed)
      else
        asWritten
  }

  /** Intended: the call returns `Ok(())` exactly when the lookup yielded an
      id and the gateway accepted the void of it. */
  lemma IntendedOkIff(params: Params, reference: Option<string>, fetchReply: Reply, voidReply: Reply)
    ensures RunIntended(params, reference, fetchReply, voidReply).outcome == Returned(Ok(()))
            <==> FetchedId(fetchReply).Some? && Accepted(voidReply)
  {
    if !(FetchedId(fetchReply).Some? && Accepted(voidReply))
       && Run(params, reference, fetchReply, voidReply).outcome == Returned(Ok(())) {
      OkOnlyAfterAcceptedVoid(params, reference, fetchReply, voidReply);
    }
  }

  /** Intended: an accepted void prints exactly "<reference> - Voided", and
      no "Voiding failed" line. */
  lemma IntendedAcceptedVoid(params: Params, reference: Option<string>, fetchReply: Reply, voidReply: Reply)
    requires FetchedId(fetchReply).Some? && Accepted(voidReply)
    ensures var t := RunIntended(params, reference, fetchReply, voidReply);
      t.outcome == Returned(Ok(())) && t.printed == [VoidedLine(ReferenceOf(params, reference))]
      && t.requests == [FetchRequest(params, ReferenceOf(params, reference)),
                        VoidRequest(params, FetchedId(fetchReply).value)]
  {
  }

  /** The correction touches nothing else: without an accepted void the
      intended call is the call as written. */
  lemma IntendedAgreesOtherwise(params: Params, reference: Option<string>, fetchReply: Reply, voidReply: Reply)
    requires !(FetchedId(fetchReply).Some? && Accepted(voidReply))
    ensures RunIntended(params, reference, fetchReply, voidReply) == Run(params, reference, fetchReply, voidReply)
  {
  }

  /** As written, an accepted void whose envelope has no errors (the usual
      success reply) panics after the "Voided" line, where the intended call
      returns `Ok(())`. */
  lemma AcceptedVoidAsWritten(params: Params, reference: Option<string>, fetchReply: Reply, voidReply: Reply)
    requires FetchedId(fetchReply).Some? && Accepted(voidReply)
    requires Decoded(voidReply).value.errors.None?
    ensures Run(params, reference, fetchReply, voidReply).outcome.Panicked?
    ensures RunIntended(params, reference, fetchReply, voidReply).outcome == Returned(Ok(()))
  {
    VoidSuccess(params, reference, fetchReply, voidReply);
    IntendedAcceptedVoid(params, reference, fetchReply, voidReply);
  }

  /** The void of reference "abc-1", for any merchant: the lookup answers
      `{"successful":true,"response":{"id":"txn-9"}}` and the void
      `{"successful":true}`.  As written the process prints "abc-1 - Voided"
      and then panics. */
  lemma AcceptedVoidScenarioAsWritten(username: string, token: string)
    ensures var p := Params(username, token, "abc-1", "");
      var lookup := Received(Document(EncodeEnvelope(Envelope(true, Some(Some(FetchResponse("txn-9"))), None))));
      var void := Received(Document(EncodeEnvelope(Envelope(true, None, None))));
      Run(p, None, lookup, void) == Transcript(Panicked, [FetchRequest(p, "abc-1"), VoidRequest(p, "txn-9")], ["abc-1 - Voided"])
      && RunIntended(p, None, lookup, void).outcome == Returned(Ok(()))
  {
    var p := Params(username, token, "abc-1", "");
    var lookupEnvelope := Envelope(true, Some(Some(FetchResponse("txn-9"))), None);
    var voidEnvelope := Envelope(true, None, None);
    var lookup := Received(Document(EncodeEnvelope(lookupEnvelope)));
    var void := Received(Document(EncodeEnvelope(voidEnvelope)));
    DecodeEncodeEnvelope(lookupEnvelope);
    DecodeEncodeEnvelope(voidEnvelope);
    assert Decoded(lookup) == Some(lookupEnvelope);
    assert Decoded(void) == Some(voidEnvelope);
    assert VoidedLine("abc-1") == "abc-1 - Voided";
    VoidSuccess(p, None, lookup, void);
    AcceptedVoidAsWritten(p, None, lookup, void);
  }

  // 2. Cleaning the lines of the batch file.

  /** The blanks `str::trim` strips, restricted to ASCII. */
  predicate IsBlank(c: char) {
    c in Blanks
  }

  const Blanks: set<char> := {' ', '\t', '\r', '\n', '\U{B}', '\U{C}'}

  /** The number of blanks the string starts with. */
  function LeadingBlanks(s: string): (k: nat)
    ensures k <= |s|
    ensures forall i :: 0 <= i < k ==> IsBlank(s[i])
    ensures k < |s| ==> !IsBlank(s[k])
    decreases |s|
  {
    if s != [] && IsBlank(s[0]) then 1 + LeadingBlanks(s[1..]) else 0
  }

  /** The number of blanks the string ends with. */
  function TrailingBlanks(s: string): (m: nat)
    ensures m <= |s|
    ensures forall i :: |s| - m <= i < |s| ==> IsBlank(s[i])
    ensures m < |s| ==> !IsBlank(s[|s| - m - 1])
    decreases |s|
  {
    if s != [] && IsBlank(s[|s| - 1]) then 1 + TrailingBlanks(s[..|s| - 1]) else 0
  }

  /** `trim_start`: the string without its leading blanks. */
  function TrimStart(s: string): (r: string)
    ensures |r| <= |s| && r == s[|s| - |r|..]
    ensures r == [] || !IsBlank(r[0])
    ensures forall i :: 0 <= i < |s| - |r| ==> IsBlank(s[i])
  {
    s[LeadingBlanks(s)..]
  }

  /** `trim_end`: the string without its trailing blanks. */
  function TrimEnd(s: string): (r: string)
    ensures |r| <= |s| && r == s[..|r|]
    ensures r == [] || !IsBlank(r[|r| - 1])
    ensures forall i :: |r| <= i < |s| ==> IsBlank(s[i])
  {
    s[..|s| - TrailingBlanks(s)]
  }

  /** `line.trim()`: the line without its leading and trailing blanks.  The
      result is the slice of `s` that starts after its leading blanks and
      has only blanks after it, so nothing but blanks is removed. */
  function Trim(s: string): (r: string)
    ensures r == [] || (!IsBlank(r[0]) && !IsBlank(r[|r| - 1]))
    ensures |r| <= |s|
    ensures var k := LeadingBlanks(s);
      k + |r| <= |s| && r == s[k..k + |r|] && forall i :: k + |r| <= i < |s| ==> IsBlank(s[i])
  {
    var k := LeadingBlanks(s);
    var t := s[k..];
    var r := TrimEnd(t);
    assert r == s[k..k + |r|];
    forall i | k + |r| <= i < |s| ensures IsBlank(s[i]) {
      assert s[i] == t[i - k];
    }
    r
  }

  /** A reference as intended: not empty, and neither starting nor ending
      with a blank. */
  predicate Clean(s: string) {
    s != [] && !IsBlank(s[0]) && !IsBlank(s[|s| - 1])
  }

  /** A clean line is its own trim. */
  lemma TrimClean(s: string)
    requires Clean(s)
    ensures Trim(s) == s
  {
  }

  /** What one line of a batch file contributes: its trim, unless that is
      empty, which happens exactly for a line of blanks. */
  function Kept(line: string): (r: seq<string>)
    ensures |r| <= 1
    ensures forall i :: 0 <= i < |r| ==> Clean(r[i])
    ensures r == [] <==> forall i :: 0 <= i < |line| ==> IsBlank(line[i])
    ensures r != [] ==> r == [Trim(line)]
  {
    var t := Trim(line);
    if t == "" then [] else [t]
  }

  /** The references of a batch file, as intended: each line stripped, the
      empty ones skipped, the rest kept in file order. */
  function References(lines: seq<string>): (refs: seq<string>)
    ensures |refs| <= |lines|
    ensures forall i :: 0 <= i < |refs| ==> Clean(refs[i])
    decreases |lines|
  {
    if lines == [] then [] else Kept(lines[0]) + References(lines[1..])
  }

  /** A file of clean references is used unchanged. */
  lemma {:induction false} CleanFileUnchanged(lines: seq<string>)
    requires forall i :: 0 <= i < |lines| ==> Clean(lines[i])
    ensures References(lines) == lines
    decreases |lines|
  {
    if lines != [] {
      TrimClean(lines[0]);
      CleanFileUnchanged(lines[1..]);
    }
  }

  /** A line is kept, trimmed, exactly when it is not all blanks. */
  lemma ReferencesSingle(line: string)
    ensures References([line]) == Kept(line)
  {
    assert [line][1..] == [];
  }

  /** The references of a file are those of its parts, in order. */
  lemma {:induction false} ReferencesAppend(a: seq<string>, b: seq<string>)
    ensures References(a + b) == References(a) + References(b)
    decreases |a|
  {
    if a == [] {
      assert a + b == b;
    } else {
      assert (a + b)[0] == a[0] && (a + b)[1..] == a[1..] + b;
      ReferencesAppend(a[1..], b);
    }
  }

  /** A clean reference padded with blanks is kept without them. */
  lemma PaddedLineTrimmed(r: string)
    requires Clean(r)
    ensures References([" " + r + "\t"]) == [r]
  {
    var s := " " + r + "\t";
    assert LeadingBlanks(s) == 1 by {
      assert IsBlank(s[0]) && s[1] == r[0];
    }
    var t := Trim(s);
    assert |t| == |r| by {
      assert s[|r|] == r[|r| - 1] && IsBlank(s[|r| + 1]);
    }
    assert t == s[1..|r| + 1] == r;
    ReferencesSingle(s);
  }

  /** `References` line by line from the front. */
  lemma ReferencesCons(line: string, rest: seq<string>)
    ensures References([line] + rest) == (if Trim(line) == "" then [] else [Trim(line)]) + References(rest)
  {
    assert ([line] + rest)[0] == line && ([line] + rest)[1..] == rest;
  }

  /** A line of blanks, wherever it stands, contributes nothing. */
  lemma BlankLineDropped(a: seq<string>, blank: string, b: seq<string>)
    requires forall i :: 0 <= i < |blank| ==> IsBlank(blank[i])
    ensures References(a + [blank] + b) == References(a) + References(b)
  {
    ReferencesAppend(a + [blank], b);
    ReferencesAppend(a, [blank]);
    ReferencesSingle(blank);
  }

  /** A batch file of clean references with a blank line among them, such
      as "r1\nr2\n\nr3\n": the blank line is skipped and the references
      keep their order. */
  lemma BlankLineSkipped(a: seq<string>, blank: string, b: seq<string>)
    requires forall i :: 0 <= i < |a| ==> Clean(a[i])
    requires forall i :: 0 <= i < |blank| ==> IsBlank(blank[i])
    requires forall i :: 0 <= i < |b| ==> Clean(b[i])
    ensures References(a + [blank] + b) == a + b
  {
    BlankLineDropped(a, blank, b);
    CleanFileUnchanged(a);
    CleanFileUnchanged(b);
  }

  /** As written the file "r1\nr2\n\nr3\n" yields four lookups, the third for
      the bare purchases path. */
  lemma BlankLineAsWritten(params: Params)
    ensures var t := Batch(params, ["r1", "r2", "", "r3"], _ => Exchange(SendError, SendError));
      |t.requests| == 4 && t.requests[2].url == Endpoints.FetchBase(params.username)
  {
    UnreachableGateway(params, ["r1", "r2", "", "r3"]);
    assert FetchRequests(params, ["r1", "r2", "", "r3"])[2] == FetchRequest(params, "");
  }

  /** The call of the intended `fetch_n_void` for each reference. */
  function StepsIntended(params: Params, refs: seq<string>, replies: Replies): (ts: seq<Transcript>)
    ensures |ts| == |refs|
  {
    seq(|refs|, i requires 0 <= i < |refs| => RunIntended(params, Some(refs[i]), replies(i).lookup, replies(i).void))
  }

  /** The batch mode as intended, over the cleaned references: it never
      returns an error, and its first request is the lookup of the first
      reference. */
  function BatchIntended(params: Params, lines: seq<string>, replies: Replies): (t: Transcript)
    ensures t.outcome == Returned(Ok(())) || t.outcome.Panicked?
    ensures var refs := References(lines);
      |refs| > 0 ==> |t.requests| >= 1 && t.requests[0] == FetchRequest(params, refs[0])
  {
    var ts := StepsIntended(params, References(lines), replies);
    SweepStartsWithFirst(ts);
    Sweep(ts)
  }

  /** Intended: the lookups are those of the cleaned references, in order,
      and none of them is for the bare purchases path. */
  lemma BatchIntendedLookups(params: Params, lines: seq<string>, replies: Replies)
    ensures var t := BatchIntended(params, lines, replies);
      var lookups := Lookups(t.requests);
      |lookups| <= |References(lines)| &&
      lookups == FetchRequests(params, References(lines))[..|lookups|] &&
      (!t.outcome.Panicked? ==> lookups == FetchRequests(params, References(lines))) &&
      forall i :: 0 <= i < |lookups| ==> lookups[i].url != Endpoints.FetchBase(params.username)
  {
    var refs := References(lines);
    var t := Sweep(StepsIntended(params, refs, replies));
    assert BatchIntended(params, lines, replies) == t;
    StepsIntendedLookups(params, refs, replies);
    NoBareLookup(params, refs, Lookups(t.requests));
  }

  /** The corrected calls, one per reference, look the references up in order. */
  lemma StepsIntendedLookups(params: Params, refs: seq<string>, replies: Replies)
    ensures var t := Sweep(StepsIntended(params, refs, replies));
      var lookups := Lookups(t.requests);
      |lookups| <= |refs| &&
      lookups == FetchRequests(params, refs)[..|lookups|] &&
      (!t.outcome.Panicked? ==> lookups == FetchRequests(params, refs))
  {
    var ts := StepsIntended(params, refs, replies);
    var expected := FetchRequests(params, refs);
    forall i | 0 <= i < |ts| ensures Lookups(ts[i].requests) == [expected[i]] {
      RunLookups(params, Some(refs[i]), replies(i).lookup, replies(i).void);
    }
    SweepLookups(ts, expected);
  }

  /** Lookups for non-empty references are never for the bare purchases path. */
  lemma NoBareLookup(params: Params, refs: seq<string>, lookups: seq<Request>)
    requires forall i :: 0 <= i < |refs| ==> refs[i] != []
    requires |lookups| <= |refs| && lookups == FetchRequests(params, refs)[..|lookups|]
    ensures forall i :: 0 <= i < |lookups| ==> lookups[i].url != Endpoints.FetchBase(params.username)
  {
    var expected := FetchRequests(params, refs);
    forall i | 0 <= i < |lookups| ensures lookups[i].url != Endpoints.FetchBase(params.username) {
      assert lookups[i] == expected[i] == FetchRequest(params, refs[i]);
      assert |lookups[i].url| == |Endpoints.FetchBase(params.username)| + |refs[i]|;
    }
  }

  // 3. A run without flags, and `main` as intended.

  /** `main` as intended: nothing to do without either flag; otherwise the
      code as written, with the intended `fetch_n_void` and batch. */
  function InvocationIntended(cli: Cli, fileLines: seq<string>, replies: Replies): (t: Transcript)
    ensures t.requests == [] <==>
      (cli.filename.None? && cli.reference.None?) ||
      (|SelectParams(cli).filename| > 0 && (|fileLines| == 0 || References(fileLines) == []))
  {
    var params := SelectParams(cli);
    if cli.filename.None? && cli.reference.None? then
      Transcript(Returned(Ok(())), [], [])
    else if |params.filename| == 0 then
      RunIntended(params, None, replies(0).lookup, replies(0).void)
    else if |fileLines| == 0 then
      Transcript(Returned(ReturnError(FileErrorPrefix, FileErrorDetail)), [], [])
    else
      BatchIntended(params, fileLines, replies)
  }

  /** Intended: without flags no request is made, nothing is printed and
      the exit status is 0. */
  lemma IntendedNoFlags(cli: Cli, fileLines: seq<string>, replies: Replies)
    requires cli.filename.None? && cli.reference.None?
    ensures var t := InvocationIntended(cli, fileLines, replies);
      t.requests == [] && t.printed == [] && ExitCode(t.outcome) == 0
  {
  }

  /** As written the same command line issues a lookup: see `NoFlags`. */
  lemma NoFlagsAsWritten(cli: Cli, fileLines: seq<string>, replies: Replies)
    requires cli.filename.None? && cli.reference.None?
    ensures |Invocation(cli, fileLines, replies).requests| >= 1
    ensures InvocationIntended(cli, fileLines, replies).requests == []
  {
  }
}
