/**
 * One cleanup run, `hideDuplicateIndoorRides`, and the `GET /` handlers that start it.
 *
 * The run lists the most recent activities through the client, picks the duplicates with the
 * matcher and, candidate by candidate, sends an update that hides each duplicate from the home
 * feed. The first rejection ends the run and is what it rejects with. The list that the list
 * call resolves with is the parameter `fetched`. `RunCleanup` specifies the run over the token
 * triple and the wire, and the method `HideDuplicateIndoorRides` is proved to do exactly that
 * on a `StravaClient`.
 */
module CleanupRun {
  import opened Wrappers
  import opened TokenLifecycle
  import opened TokenLifecycleProperties
  import opened DuplicateMatcher
  import opened DuplicateMatcherProperties

  /** `getAllActivities()` with its defaults: page 1, five activities per page. */
  const FirstPage: int := 1
  const PageSize: int := 5

  function ListCall(): Call
  {
    ListActivities(FirstPage, PageSize)
  }

  /** The update the run sends for a duplicate: `{hide_from_home: true}`. */
  function HideCall(id: int): Call
  {
    UpdateActivity(id, true)
  }

  /**
   * How a run ends: its result or the error it rejects with, the ids whose update resolved
   * (in order), and the client's tokens and the wire afterwards.
   */
  datatype Run = Run(result: Result<CleanupResult, ApiError>, hidden: seq<int>, tokens: TokenState, wire: Wire)

  /**
   * The loop over the remaining `candidates`, with `done` accumulated so far. Each update is a
   * new request: no `Authorization` header yet and `_retry` unset.
   */
  function HideFrom(c: Credentials, s: TokenState, w: Wire, now: int, candidates: seq<Activity>,
                    virtualRides: seq<Activity>, done: CleanupResult): (r: Run)
    decreases |candidates|
    ensures done.hidden <= r.hidden && |r.hidden| <= |done.hidden| + |candidates|
    ensures r.result.Success? ==> r.hidden == r.result.value.hidden && done.matches <= r.result.value.matches
    ensures w.apiLog <= r.wire.apiLog
  {
    if candidates == [] then Run(Success(done), done.hidden, s, w)
    else
      var indoor := candidates[0];
      match CorrespondingVirtualRide(virtualRides, indoor)
      case None => HideFrom(c, s, w, now, candidates[1..], virtualRides, done)
      case Some(v) =>
        var ex := Perform(c, s, w, now, HideCall(indoor.id), false, "");
        match ex.outcome
        case Rejected(e) => Run(Failure(e), done.hidden, ex.tokens, ex.wire)
        case Resolved(_) =>
          HideFrom(c, ex.tokens, ex.wire, now, candidates[1..], virtualRides,
                   CleanupResult(done.hidden + [indoor.id], done.matches + [MatchOf(indoor, v)]))
  }

  /** `hideDuplicateIndoorRides()`: list, match, then hide each duplicate in turn. */
  function RunCleanup(c: Credentials, s: TokenState, w: Wire, now: int, fetched: seq<Activity>): (r: Run)
    ensures r.result.Success? ==> r.hidden == r.result.value.hidden
    ensures |r.hidden| <= |PublicIndoorBikeActivities(fetched)|
    ensures w.apiLog <= r.wire.apiLog
    ensures r.wire.apiLog == w.apiLog ==> r.result.Failure? && r.hidden == []
  {
    var ex := Perform(c, s, w, now, ListCall(), false, "");
    match ex.outcome
    case Rejected(e) => Run(Failure(e), [], ex.tokens, ex.wire)
    case Resolved(_) =>
      HideFrom(c, ex.tokens, ex.wire, now, PublicIndoorBikeActivities(fetched), VirtualRideActivities(fetched), CleanupResult([], []))
  }

  /**
   * The run on the client object. The match is recorded before its update is sent and the id
   * after the update resolves, as the loop of the run does.
   */
  method HideDuplicateIndoorRides(client: StravaClient, fetched: seq<Activity>, now: int, w: Wire)
    returns (result: Result<CleanupResult, ApiError>, hidden: seq<int>, w': Wire)
    modifies client
    ensures RunCleanup(client.Client(), old(client.Tokens()), w, now, fetched)
            == Run(result, hidden, client.Tokens(), w')
  {
    var c := client.Client();
    var list := new RequestConfig(ListCall());
    var outcome: Outcome;
    outcome, w' := client.Request(list, now, w);
    if outcome.Rejected? {
      return Failure(outcome.error), [], w';
    }
    var candidates := PublicIndoorBikeActivities(fetched);
    var virtualRides := VirtualRideActivities(fetched);
    hidden := [];
    var matches: seq<ActivityMatch> := [];
    for i := 0 to |candidates|
      invariant client.Client() == c
      invariant HideFrom(c, client.Tokens(), w', now, candidates[i..], virtualRides, CleanupResult(hidden, matches))
                == RunCleanup(c, old(client.Tokens()), w, now, fetched)
    {
      assert candidates[i..][1..] == candidates[i + 1..];
      var indoor := candidates[i];
      var found := CorrespondingVirtualRide(virtualRides, indoor);
      if found.Some? {
        matches := matches + [MatchOf(indoor, found.value)];
        var update := new RequestConfig(HideCall(indoor.id));
        outcome, w' := client.Request(update, now, w');
        if outcome.Rejected? {
          return Failure(outcome.error), hidden, w';
        }
        hidden := hidden + [indoor.id];
      }
    }
    result := Success(CleanupResult(hidden, matches));
  }

  // ---- what a run achieves ----

  /**
   * The loop, started after the candidates `before` were handled: it succeeds with the matcher's
   * result for all candidates, or fails having hidden a prefix that stops short of a duplicate
   * whose update was rejected.
   */
  lemma {:induction false} HideFromOutcome(c: Credentials, s: TokenState, w: Wire, now: int, before: seq<Activity>,
                                           candidates: seq<Activity>, virtualRides: seq<Activity>)
    decreases |candidates|
    ensures var r := HideFrom(c, s, w, now, candidates, virtualRides, Pairs(before, virtualRides));
      && (r.result.Success? ==> r.result.value == Pairs(before + candidates, virtualRides) && r.hidden == r.result.value.hidden)
      && (r.result.Failure? ==> Pairs(before, virtualRides).hidden <= r.hidden < Pairs(before + candidates, virtualRides).hidden)
  {
    if candidates != [] {
      var x, rest := candidates[0], candidates[1..];
      assert before + candidates == (before + [x]) + rest;
      PairsSnoc(before, x, virtualRides);
      PairsPrefix(before + candidates, virtualRides, |before + [x]|);
      assert (before + candidates)[..|before + [x]|] == before + [x];
      match CorrespondingVirtualRide(virtualRides, x)
      case None =>
        HideFromOutcome(c, s, w, now, before + [x], rest, virtualRides);
      case Some(v) =>
        var ex := Perform(c, s, w, now, HideCall(x.id), false, "");
        if ex.outcome.Resolved? {
          HideFromOutcome(c, ex.tokens, ex.wire, now, before + [x], rest, virtualRides);
        }
    } else {
      assert before + candidates == before;
    }
  }

  /**
   * A run that succeeds returns exactly the matcher's result for the fetched list, and the ids
   * it hid are its `hidden` list. A run whose list call was rejected fails before any update; a
   * run that fails later has hidden a strict prefix of that list, stopping at a duplicate whose
   * update was rejected.
   */
  lemma CleanupOutcome(c: Credentials, s: TokenState, w: Wire, now: int, fetched: seq<Activity>)
    ensures var r := RunCleanup(c, s, w, now, fetched);
      r.result.Success? ==> r.result.value == Cleanup(fetched) && r.hidden == Cleanup(fetched).hidden
    ensures var ex := Perform(c, s, w, now, ListCall(), false, "");
      var r := RunCleanup(c, s, w, now, fetched);
      && (ex.outcome.Rejected? ==> r == Run(Failure(ex.outcome.error), [], ex.tokens, ex.wire))
      && (ex.outcome.Resolved? && r.result.Failure? ==> r.hidden < Cleanup(fetched).hidden)
  {
    var ex := Perform(c, s, w, now, ListCall(), false, "");
    var candidates := PublicIndoorBikeActivities(fetched);
    if ex.outcome.Resolved? {
      assert Pairs([], VirtualRideActivities(fetched)) == CleanupResult([], []);
      assert [] + candidates == candidates;
      HideFromOutcome(c, ex.tokens, ex.wire, now, [], candidates, VirtualRideActivities(fetched));
    }
  }

  /** The calls a run over `fetched` may send: the list call, and hiding one of its duplicates. */
  function AllowedCalls(fetched: seq<Activity>): set<Call>
  {
    {ListCall()} + set id | id in Cleanup(fetched).hidden :: HideCall(id)
  }

  lemma {:induction false} HideFromFrame(c: Credentials, s: TokenState, w: Wire, now: int, candidates: seq<Activity>,
                                         virtualRides: seq<Activity>, done: CleanupResult, calls: set<Call>)
    requires forall x :: x in candidates && CorrespondingVirtualRide(virtualRides, x).Some? ==> HideCall(x.id) in calls
    decreases |candidates|
    ensures var r := HideFrom(c, s, w, now, candidates, virtualRides, done);
      && Extends(w, r.wire) && SendsWithin(w, r.wire, calls)
      && (r.tokens == s || Grant(r.tokens) in w.tokenReplies)
  {
    if candidates != [] {
      var x, rest := candidates[0], candidates[1..];
      assert forall y :: y in rest ==> y in candidates;
      match CorrespondingVirtualRide(virtualRides, x)
      case None =>
        HideFromFrame(c, s, w, now, rest, virtualRides, done, calls);
      case Some(v) =>
        var ex := Perform(c, s, w, now, HideCall(x.id), false, "");
        PerformFrame(c, s, w, now, HideCall(x.id), false, "");
        PerformSendsOnlyItsCall(c, s, w, now, HideCall(x.id), false, "", calls);
        if ex.outcome.Resolved? {
          var next := CleanupResult(done.hidden + [x.id], done.matches + [MatchOf(x, v)]);
          HideFromFrame(c, ex.tokens, ex.wire, now, rest, virtualRides, next, calls);
          var r := HideFrom(c, ex.tokens, ex.wire, now, rest, virtualRides, next);
          StepFrame(w, ex.wire, r.wire, s, ex.tokens, r.tokens);
          SendsWithinTransitive(w, ex.wire, r.wire, calls);
        }
    }
  }

  /**
   * Whatever the API and the token endpoint answer, a run only appends to the wire, sends
   * nothing but the list call and `hide_from_home` updates of duplicates of the fetched list,
   * and leaves the client holding its old tokens or a triple that the token endpoint granted.
   */
  lemma RunFrame(c: Credentials, s: TokenState, w: Wire, now: int, fetched: seq<Activity>)
    ensures var r := RunCleanup(c, s, w, now, fetched);
      && Extends(w, r.wire) && SendsWithin(w, r.wire, AllowedCalls(fetched))
      && (r.tokens == s || Grant(r.tokens) in w.tokenReplies)
  {
    var calls := AllowedCalls(fetched);
    var ex := Perform(c, s, w, now, ListCall(), false, "");
    PerformFrame(c, s, w, now, ListCall(), false, "");
    PerformSendsOnlyItsCall(c, s, w, now, ListCall(), false, "", calls);
    if ex.outcome.Resolved? {
      var candidates, rides := PublicIndoorBikeActivities(fetched), VirtualRideActivities(fetched);
      forall x | x in candidates && CorrespondingVirtualRide(rides, x).Some?
        ensures HideCall(x.id) in calls
      {
        PairsHidesEveryMatched(candidates, rides, x);
      }
      HideFromFrame(c, ex.tokens, ex.wire, now, candidates, rides, CleanupResult([], []), calls);
      var r := HideFrom(c, ex.tokens, ex.wire, now, candidates, rides, CleanupResult([], []));
      StepFrame(w, ex.wire, r.wire, s, ex.tokens, r.tokens);
      SendsWithinTransitive(w, ex.wire, r.wire, calls);
    }
  }

  /** A request for `call` was sent between `w` and `w'`. */
  ghost predicate SentBetween(w: Wire, w': Wire, call: Call)
  {
    exists k :: |w.apiLog| <= k < |w'.apiLog| && w'.apiLog[k].call == call
  }

  lemma SentBetweenWidens(w1: Wire, w2: Wire, w3: Wire, call: Call)
    requires w1.apiLog <= w2.apiLog && SentBetween(w2, w3, call)
    ensures SentBetween(w1, w3, call)
  {
    var k :| |w2.apiLog| <= k < |w3.apiLog| && w3.apiLog[k].call == call;
  }

  /** Every id the loop adds to `hidden` had its hide update sent by the loop. */
  lemma {:induction false} HideFromSendsHidden(c: Credentials, s: TokenState, w: Wire, now: int, candidates: seq<Activity>,
                                               virtualRides: seq<Activity>, done: CleanupResult)
    decreases |candidates|
    ensures var r := HideFrom(c, s, w, now, candidates, virtualRides, done);
      forall id :: id in r.hidden ==> id in done.hidden || SentBetween(w, r.wire, HideCall(id))
  {
    if candidates != [] {
      var x, rest := candidates[0], candidates[1..];
      match CorrespondingVirtualRide(virtualRides, x)
      case None =>
        HideFromSendsHidden(c, s, w, now, rest, virtualRides, done);
      case Some(v) =>
        var ex := Perform(c, s, w, now, HideCall(x.id), false, "");
        if ex.outcome.Resolved? {
          var next := CleanupResult(done.hidden + [x.id], done.matches + [MatchOf(x, v)]);
          var r := HideFrom(c, ex.tokens, ex.wire, now, rest, virtualRides, next);
          PerformSends(c, s, w, now, HideCall(x.id), false, "");
          HideFromSendsHidden(c, ex.tokens, ex.wire, now, rest, virtualRides, next);
          var k := |ex.wire.apiLog| - 1;
          assert r.wire.apiLog[k] == ex.wire.apiLog[k];
          assert SentBetween(w, r.wire, HideCall(x.id));
          forall id | id in r.hidden && id !in done.hidden && id != x.id
            ensures SentBetween(w, r.wire, HideCall(id))
          {
            SentBetweenWidens(w, ex.wire, r.wire, HideCall(id));
          }
        }
    }
  }

  /**
   * Every id a run reports as hidden had its `hide_from_home` update sent during the run, and a
   * successful run sent one for every duplicate the matcher picks from the fetched list.
   */
  lemma RunSendsEveryHide(c: Credentials, s: TokenState, w: Wire, now: int, fetched: seq<Activity>)
    ensures var r := RunCleanup(c, s, w, now, fetched);
      && (forall id :: id in r.hidden ==> SentBetween(w, r.wire, HideCall(id)))
      && (r.result.Success? ==> forall id :: id in Cleanup(fetched).hidden ==> SentBetween(w, r.wire, HideCall(id)))
  {
    var ex := Perform(c, s, w, now, ListCall(), false, "");
    var r := RunCleanup(c, s, w, now, fetched);
    if ex.outcome.Resolved? {
      var empty := CleanupResult([], []);
      HideFromSendsHidden(c, ex.tokens, ex.wire, now, PublicIndoorBikeActivities(fetched), VirtualRideActivities(fetched), empty);
      forall id | id in r.hidden
        ensures SentBetween(w, r.wire, HideCall(id))
      {
        SentBetweenWidens(w, ex.wire, r.wire, HideCall(id));
      }
      CleanupOutcome(c, s, w, now, fetched);
    }
  }

  // ---- the `GET /` handlers ----

  /** A JSON body: `success`, the run's lists when they are shown, and the error message. */
  datatype Body = Body(success: bool, hidden: Option<seq<int>>, matches: Option<seq<ActivityMatch>>, error: Option<string>)

  datatype HttpResponse = HttpResponse(status: int, body: Body)

  const StatusOk: int := 200
  const StatusInternalServerError: int := 500

  /** A rejected run answers 500 with `success: false` and the error's message. */
  function FailureResponse(e: ApiError): HttpResponse
  {
    HttpResponse(StatusInternalServerError, Body(false, None, None, Some(e.message)))
  }

  /** The serverless handler: `success: true` together with the run's own `hidden` and `matches`. */
  function ApiRoot(run: Result<CleanupResult, ApiError>): (response: HttpResponse)
    ensures response.status == StatusOk <==> run.Success?
    ensures run.Failure? ==> response.status == StatusInternalServerError
    ensures response.body.success <==> run.Success?
    ensures run.Failure? ==> response.body.error == Some(run.error.message)
  {
    match run
    case Success(r) => HttpResponse(StatusOk, Body(true, Some(r.hidden), Some(r.matches), None))
    case Failure(e) => FailureResponse(e)
  }

  /** The long-running server's handler: `success: true` alone; the run's result is dropped. */
  function ServerRoot(run: Result<CleanupResult, ApiError>): (response: HttpResponse)
    ensures response.status == StatusOk <==> run.Success?
    ensures run.Failure? ==> response.status == StatusInternalServerError
    ensures response.body.success <==> run.Success?
    ensures run.Failure? ==> response.body.error == Some(run.error.message)
  {
    match run
    case Success(_) => HttpResponse(StatusOk, Body(true, None, None, None))
    case Failure(e) => FailureResponse(e)
  }

  /** The serverless response of a successful run carries exactly the matcher's result. */
  lemma ApiRootShowsCleanup(c: Credentials, s: TokenState, w: Wire, now: int, fetched: seq<Activity>)
    ensures var response := ApiRoot(RunCleanup(c, s, w, now, fetched).result);
      response.status == StatusOk ==>
        response.body.hidden == Some(Cleanup(fetched).hidden) && response.body.matches == Some(Cleanup(fetched).matches)
  {
    CleanupOutcome(c, s, w, now, fetched);
  }

  /** Different successful runs give different serverless responses: nothing of the result is lost. */
  lemma ApiRootKeepsResult(a: CleanupResult, b: CleanupResult)
    ensures ApiRoot(Success(a)) == ApiRoot(Success(b)) ==> a == b
  {
  }

  /**
   * The two handlers differ only in what a success shows: the server answers every successful
   * run alike, and both answer a failure alike.
   */
  lemma HandlersAgreeExceptOnSuccessBody(run: Result<CleanupResult, ApiError>, other: CleanupResult)
    ensures ServerRoot(run).status == ApiRoot(run).status
    ensures run.Failure? ==> ServerRoot(run) == ApiRoot(run)
    ensures run.Success? ==> ServerRoot(run) == ServerRoot(Success(other))
  {
  }
}
