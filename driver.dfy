/** `main`: parameter selection from the command line, and either one call
    of `fetch_n_void` or one per line of the batch file.  The parsed command
    line, the lines `read_file` returns (none for a file that cannot be
    opened) and the gateway's replies are inputs. */
module Driver {
  import opened Wrappers
  import opened Envelope
  import opened Gateway
  import opened Workflow
  import Endpoints
  import Auth

  /** The parsed command line: `--username`, `--token`, and the optional
      `--reference` and `--filename`. */
  datatype Cli = Cli(username: string, token: string, reference: Option<string>, filename: Option<string>)

  /** What the gateway answers to one `fetch_n_void`: the reply to its
      lookup, and the reply to its void should it issue one. */
  datatype Exchange = Exchange(lookup: Reply, void: Reply)

  /** The gateway's answers to one run: `replies(i)` serves the i-th call of
      `fetch_n_void` (the single call, or the call for line i of the file). */
  type Replies = nat -> Exchange

  const FileErrorPrefix := "Error opening file: "
  const FileErrorDetail := "please check file and path"

  /** How `main` fills `Params` from the command line: a file name wins and
      clears the reference; with neither flag every field stays empty,
      username and token included. */
  function SelectParams(cli: Cli): (p: Params)
    ensures cli.filename.Some? ==> p == Params(cli.username, cli.token, "", cli.filename.value)
    ensures cli.filename.None? && cli.reference.Some? ==> p == Params(cli.username, cli.token, cli.reference.value, "")
    ensures cli.filename.None? && cli.reference.None? ==> p == Params("", "", "", "")
  {
    match (cli.filename, cli.reference)
    case (Some(filename), None) => Params(cli.username, cli.token, "", filename)
    case (None, Some(reference)) => Params(cli.username, cli.token, reference, "")
    case (Some(filename), Some(_)) => Params(cli.username, cli.token, "", filename)
    case _ => Params("", "", "", "")
  }

  /** The call of `fetch_n_void` for each line, with the line itself as the
      reference. */
  function Steps(params: Params, lines: seq<string>, replies: Replies): (ts: seq<Transcript>)
    ensures |ts| == |lines|
  {
    seq(|lines|, i requires 0 <= i < |lines| => Run(params, Some(lines[i]), replies(i).lookup, replies(i).void))
  }

  /** The batch loop over calls: one after the other, in order; every
      returned result is discarded, and a panic ends the process. */
  function Sweep(ts: seq<Transcript>): (t: Transcript)
    ensures t.outcome == Returned(Ok(())) || t.outcome.Panicked?
    decreases |ts|
  {
    if ts == [] then
      Transcript(Returned(Ok(())), [], [])
    else
      var before := Sweep(ts[..|ts| - 1]);
      if before.outcome.Panicked? then
        before
      else
        var w := ts[|ts| - 1];
        Transcript(if w.outcome.Panicked? then Panicked else Returned(Ok(())),
                   before.requests + w.requests, before.printed + w.printed)
  }

  /** The loop's requests start with those of its first call. */
  lemma {:induction false} SweepStartsWithFirst(ts: seq<Transcript>)
    ensures |ts| > 0 ==> ts[0].requests <= Sweep(ts).requests
    decreases |ts|
  {
    if |ts| == 1 {
      assert ts[..0] == [];
    } else if |ts| > 1 {
      SweepStartsWithFirst(ts[..|ts| - 1]);
      assert ts[..|ts| - 1][0] == ts[0];
    }
  }

  /** The batch mode of `main`, as a specification: it never returns an
      error, and its first request is the lookup of the file's first line. */
  function Batch(params: Params, lines: seq<string>, replies: Replies): (t: Transcript)
    ensures t.outcome == Returned(Ok(())) || t.outcome.Panicked?
    ensures |lines| > 0 ==> |t.requests| >= 1 && t.requests[0] == FetchRequest(params, lines[0])
  {
    var ts := Steps(params, lines, replies);
    SweepStartsWithFirst(ts);
    Sweep(ts)
  }

  /** What `main` does, as a specification: it issues no request exactly
      when the file named is empty or unreadable, and it returns an error
      only in single mode or for that file. */
  function Invocation(cli: Cli, fileLines: seq<string>, replies: Replies): (t: Transcript)
    ensures t.requests == [] <==> |SelectParams(cli).filename| > 0 && |fileLines| == 0
    ensures t.outcome.Returned? && t.outcome.result.Err? ==> |SelectParams(cli).filename| == 0 || |fileLines| == 0
  {
    var params := SelectParams(cli);
    if |params.filename| == 0 then
      Run(params, None, replies(0).lookup, replies(0).void)
    else if |fileLines| == 0 then
      Transcript(Returned(ReturnError(FileErrorPrefix, FileErrorDetail)), [], [])
    else
      Batch(params, fileLines, replies)
  }

  /** The process exit status: 0 when `main` returns `Ok`, 1 when it
      returns an error, 101 on a panic. */
  function ExitCode(outcome: Outcome<()>): (code: int)
    ensures code == 0 <==> outcome.Returned? && outcome.result.Ok?
    ensures code == 101 <==> outcome.Panicked?
  {
    match outcome
    case Returned(Ok(_)) => 0
    case Returned(Err(_)) => 1
    case Panicked => 101
  }

  /** Once a call has panicked, later calls are never made. */
  lemma {:induction false} PanicEndsSweep(ts: seq<Transcript>, k: nat)
    requires k <= |ts|
    requires Sweep(ts[..k]).outcome.Panicked?
    ensures Sweep(ts) == Sweep(ts[..k])
    decreases |ts|
  {
    if k < |ts| {
      var prefix := ts[..|ts| - 1];
      assert prefix[..k] == ts[..k];
      PanicEndsSweep(prefix, k);
    } else {
      assert ts[..k] == ts;
    }
  }

  /** One more call of the loop, after calls that all returned. */
  lemma SweepExtend(ts: seq<Transcript>, k: nat, requests: seq<Request>, printed: seq<string>)
    requires k < |ts|
    requires Sweep(ts[..k]) == Transcript(Returned(Ok(())), requests, printed)
    ensures Sweep(ts[..k + 1])
            == Transcript(if ts[k].outcome.Panicked? then Panicked else Returned(Ok(())),
                          requests + ts[k].requests, printed + ts[k].printed)
  {
    assert ts[..k + 1][..k] == ts[..k];
  }

  /** `main`, step by step as the source does it. */
  method Execute(cli: Cli, fileLines: seq<string>, replies: Replies)
    returns (outcome: Outcome<()>, requests: seq<Request>, printed: seq<string>)
    ensures Transcript(outcome, requests, printed) == Invocation(cli, fileLines, replies)
  {
    var params := Params("", "", "", "");
    match (cli.filename, cli.reference) {
      case (Some(filename), None) =>
        params := params.(username := cli.username);
        params := params.(token := cli.token);
        params := params.(filename := filename);
        params := params.(reference := "");
      case (None, Some(reference)) =>
        params := params.(username := cli.username);
        params := params.(token := cli.token);
        params := params.(filename := "");
        params := params.(reference := reference);
      case (Some(filename), Some(_)) =>
        params := params.(username := cli.username);
        params := params.(token := cli.token);
        params := params.(filename := filename);
        params := params.(reference := "");
      case _ =>
    }
    assert params == SelectParams(cli);

    if |params.filename| == 0 {
      outcome, requests, printed := FetchNVoid(params, None, replies(0).lookup, replies(0).void);
      return;
    }
    var voidTrxs := fileLines;
    if |voidTrxs| == 0 {
      outcome, requests, printed := Returned(ReturnError(FileErrorPrefix, FileErrorDetail)), [], [];
      return;
    }
    ghost var steps := Steps(params, voidTrxs, replies);
    requests, printed := [], [];
    for k := 0 to |voidTrxs|
      invariant Sweep(steps[..k]) == Transcript(Returned(Ok(())), requests, printed)
    {
      var o, rq, pr := FetchNVoid(params, Some(voidTrxs[k]), replies(k).lookup, replies(k).void);
      SweepExtend(steps, k, requests, printed);
      requests, printed := requests + rq, printed + pr;
      if o.Panicked? {
        PanicEndsSweep(steps, k + 1);
        outcome := Panicked;
        return;
      }
    }
    assert steps[..|voidTrxs|] == steps;
    outcome := Returned(Ok(()));
  }

  // Properties of the batch loop.

  /** The lookups among a run's requests, in the order they were issued. */
  function Lookups(requests: seq<Request>): (r: seq<Request>)
    ensures |r| <= |requests|
    decreases |requests|
  {
    if requests == [] then []
    else (if requests[0].verb == Get then [requests[0]] else []) + Lookups(requests[1..])
  }

  lemma {:induction false} LookupsAppend(a: seq<Request>, b: seq<Request>)
    ensures Lookups(a + b) == Lookups(a) + Lookups(b)
    decreases |a|
  {
    if a != [] {
      var head := if a[0].verb == Get then [a[0]] else [];
      assert (a + b)[0] == a[0] && (a + b)[1..] == a[1..] + b;
      LookupsAppend(a[1..], b);
      assert Lookups(a + b) == head + (Lookups(a[1..]) + Lookups(b));
      assert head + (Lookups(a[1..]) + Lookups(b)) == (head + Lookups(a[1..])) + Lookups(b);
    } else {
      assert a + b == b;
    }
  }

  /** The lookup of each reference in turn. */
  function FetchRequests(params: Params, refs: seq<string>): (r: seq<Request>)
    ensures |r| == |refs|
  {
    seq(|refs|, i requires 0 <= i < |refs| => FetchRequest(params, refs[i]))
  }

  /** A single `fetch_n_void` issues exactly one lookup, for its reference. */
  lemma RunLookups(params: Params, reference: Option<string>, fetchReply: Reply, voidReply: Reply)
    ensures Lookups(Run(params, reference, fetchReply, voidReply).requests)
            == [FetchRequest(params, ReferenceOf(params, reference))]
  {
    var rq := Run(params, reference, fetchReply, voidReply).requests;
    assert Lookups(rq[1..]) == [] by {
      if |rq| == 2 {
        assert rq[1..][1..] == [];
      }
    }
  }

  /** For calls that each issue exactly one lookup: the lookups come out in
      the order of the calls, all of them unless a panic ended the loop
      early. */
  lemma {:induction false} SweepLookups(ts: seq<Transcript>, lookups: seq<Request>)
    requires |lookups| == |ts|
    requires forall i :: 0 <= i < |ts| ==> Lookups(ts[i].requests) == [lookups[i]]
    ensures var t := Sweep(ts);
      |Lookups(t.requests)| <= |ts| &&
      Lookups(t.requests) == lookups[..|Lookups(t.requests)|] &&
      (!t.outcome.Panicked? ==> |Lookups(t.requests)| == |ts|)
    decreases |ts|
  {
    if ts != [] {
      var k := |ts| - 1;
      SweepLookups(ts[..k], lookups[..k]);
      var before := Sweep(ts[..k]);
      var m := |Lookups(before.requests)|;
      assert lookups[..k][..m] == lookups[..m];
      if !before.outcome.Panicked? {
        LookupsAppend(before.requests, ts[k].requests);
        assert lookups[..k] + [lookups[k]] == lookups[..k + 1];
        assert lookups[..|ts|] == lookups;
      }
    }
  }

  /** Each line of the file shows up as exactly one lookup, in file order;
      all of them unless a panic ended the run early. */
  lemma BatchLookups(params: Params, lines: seq<string>, replies: Replies)
    ensures var t := Batch(params, lines, replies);
      |Lookups(t.requests)| <= |lines| &&
      Lookups(t.requests) == FetchRequests(params, lines)[..|Lookups(t.requests)|] &&
      (!t.outcome.Panicked? ==> Lookups(t.requests) == FetchRequests(params, lines))
  {
    var ts := Steps(params, lines, replies);
    var lookups := FetchRequests(params, lines);
    forall i | 0 <= i < |ts| ensures Lookups(ts[i].requests) == [lookups[i]] {
      RunLookups(params, Some(lines[i]), replies(i).lookup, replies(i).void);
    }
    SweepLookups(ts, lookups);
  }

  /** For calls that each issue one or two requests and print at most two
      lines: the totals stay within twice the number of calls, and a loop
      that did not panic issued at least one request per call. */
  lemma {:induction false} SweepBounds(ts: seq<Transcript>)
    requires forall i :: 0 <= i < |ts| ==> 1 <= |ts[i].requests| <= 2 && |ts[i].printed| <= 2
    ensures var t := Sweep(ts);
      |t.requests| <= 2 * |ts| && |t.printed| <= 2 * |ts| &&
      (!t.outcome.Panicked? ==> |ts| <= |t.requests|)
    decreases |ts|
  {
    if ts != [] {
      SweepBounds(ts[..|ts| - 1]);
    }
  }

  /** Each line costs at most one lookup and one void, and prints at most
      two lines; a run that did not panic issued a request for every line. */
  lemma BatchBounds(params: Params, lines: seq<string>, replies: Replies)
    ensures var t := Batch(params, lines, replies);
      |t.requests| <= 2 * |lines| && |t.printed| <= 2 * |lines| &&
      (!t.outcome.Panicked? ==> |lines| <= |t.requests|)
  {
    var ts := Steps(params, lines, replies);
    forall i | 0 <= i < |ts| ensures 1 <= |ts[i].requests| <= 2 && |ts[i].printed| <= 2 {
      assert ts[i] == Run(params, Some(lines[i]), replies(i).lookup, replies(i).void);
    }
    SweepBounds(ts);
  }

  /** For calls that all return after their lookup alone, printing nothing:
      the loop returns `Ok(())` after all the lookups. */
  lemma {:induction false} SweepOfErrors(ts: seq<Transcript>, lookups: seq<Request>)
    requires |lookups| == |ts|
    requires forall i :: 0 <= i < |ts| ==>
               ts[i].outcome.Returned? && ts[i].requests == [lookups[i]] && ts[i].printed == []
    ensures Sweep(ts) == Transcript(Returned(Ok(())), lookups, [])
    decreases |ts|
  {
    if ts != [] {
      var k := |ts| - 1;
      SweepOfErrors(ts[..k], lookups[..k]);
      assert lookups[..k] + [lookups[k]] == lookups;
    }
  }

  /** With a gateway that cannot be reached every lookup fails; those errors
      are discarded, so the batch still ends with `Ok(())` after looking
      every line up, voiding nothing and printing nothing. */
  lemma UnreachableGateway(params: Params, lines: seq<string>)
    ensures Batch(params, lines, _ => Exchange(SendError, SendError))
            == Transcript(Returned(Ok(())), FetchRequests(params, lines), [])
  {
    var replies: Replies := _ => Exchange(SendError, SendError);
    var ts := Steps(params, lines, replies);
    var lookups := FetchRequests(params, lines);
    forall i | 0 <= i < |ts|
      ensures ts[i].outcome.Returned? && ts[i].requests == [lookups[i]] && ts[i].printed == []
    {
      LookupFailure(params, Some(lines[i]), SendError, SendError);
    }
    SweepOfErrors(ts, lookups);
  }

  // Properties of `main`.

  /** A batch file that yields no lines ends the process with the file error
      before any request: exit status 1. */
  lemma EmptyFile(cli: Cli, replies: Replies)
    requires cli.filename.Some? && cli.filename.value != ""
    ensures var t := Invocation(cli, [], replies);
      t == Transcript(Returned(Err(Message(FileErrorPrefix + FileErrorDetail))), [], [])
      && ExitCode(t.outcome) == 1
  {
  }

  /** A batch returns `Ok(())` or panics, never an error: exit status 0 or
      101. */
  lemma BatchExitCode(cli: Cli, fileLines: seq<string>, replies: Replies)
    requires cli.filename.Some? && cli.filename.value != "" && fileLines != []
    ensures ExitCode(Invocation(cli, fileLines, replies).outcome) in {0, 101}
  {
  }

  /** With a file name, the reference flag is ignored. */
  lemma FilenameWins(cli: Cli, reference: Option<string>, fileLines: seq<string>, replies: Replies)
    requires cli.filename.Some?
    ensures Invocation(cli.(reference := reference), fileLines, replies) == Invocation(cli, fileLines, replies)
  {
  }

  /** With a reference and no file name, there is one `fetch_n_void` of that
      reference, and its lookup is the first request. */
  lemma SingleReference(cli: Cli, fileLines: seq<string>, replies: Replies)
    requires cli.filename.None? && cli.reference.Some?
    ensures var p := Params(cli.username, cli.token, cli.reference.value, "");
      Invocation(cli, fileLines, replies) == Run(p, None, replies(0).lookup, replies(0).void)
      && Invocation(cli, fileLines, replies).requests[0] == FetchRequest(p, cli.reference.value)
  {
  }

  /** An empty file name selects the single mode, with an empty reference
      whatever the reference flag says: the lookup targets the bare
      purchases path. */
  lemma EmptyFilenameIsSingle(cli: Cli, fileLines: seq<string>, replies: Replies)
    requires cli.filename == Some("")
    ensures var p := Params(cli.username, cli.token, "", "");
      Invocation(cli, fileLines, replies) == Run(p, None, replies(0).lookup, replies(0).void)
      && Invocation(cli, fileLines, replies).requests[0].url == Endpoints.FetchBase(cli.username)
  {
  }

  /** With neither flag, `main` still calls `fetch_n_void` with every
      parameter empty: a lookup of the production base path, authorised as
      the empty user with the empty token. */
  lemma NoFlags(cli: Cli, fileLines: seq<string>, replies: Replies)
    requires cli.filename.None? && cli.reference.None?
    ensures var r := Invocation(cli, fileLines, replies).requests[0];
      r.verb == Get && r.url == "https://gateway.pmnts.io/v1.0/purchases/"
      && ("Authorization", "Basic Og==") in r.headers
  {
    Auth.EmptyCredentials();
    assert Endpoints.FetchBase("") == Endpoints.ProductionHost + Endpoints.FetchPath;
  }
}
