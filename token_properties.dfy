/**
 * What the token lifecycle guarantees about one request: at most two sends, a resend only after
 * a 401, a second 401 is final, other rejections and refresh failures pass through, the token
 * triple is only ever replaced whole by one the token endpoint issued, and a new client refreshes
 * before its first request.
 */
module TokenLifecycleProperties {
  import opened Wrappers
  import opened TokenLifecycle

  ghost predicate IsSuffix<T>(a: seq<T>, b: seq<T>)
  {
    |a| <= |b| && b[|b| - |a|..] == a
  }

  /** What a request can do to the wire: append to both logs and use up answers from the front. */
  ghost predicate Extends(w: Wire, w': Wire)
  {
    && w.apiLog <= w'.apiLog
    && w.tokenLog <= w'.tokenLog
    && IsSuffix(w'.apiReplies, w.apiReplies)
    && IsSuffix(w'.tokenReplies, w.tokenReplies)
  }

  /** The `k`-th answer still to come from the API (none once the script is exhausted). */
  function ReplyAt(w: Wire, k: nat): Reply
  {
    if k < |w.apiReplies| then w.apiReplies[k] else NoAnswer(NoAnswerMessage)
  }

  lemma DropIsSuffix<T>(s: seq<T>)
    ensures IsSuffix(Drop(s), s)
  {
  }

  lemma SuffixMember<T>(x: T, a: seq<T>, b: seq<T>)
    requires IsSuffix(a, b) && x in a
    ensures x in b
  {
    var i :| 0 <= i < |a| && a[i] == x;
    assert b[|b| - |a| + i] == x;
  }

  lemma ExtendsTransitive(w1: Wire, w2: Wire, w3: Wire)
    requires Extends(w1, w2) && Extends(w2, w3)
    ensures Extends(w1, w3)
  {
    var a1, a2, a3 := w1.apiReplies, w2.apiReplies, w3.apiReplies;
    assert a1[|a1| - |a3|..] == a2[|a2| - |a3|..];
    var t1, t2, t3 := w1.tokenReplies, w2.tokenReplies, w3.tokenReplies;
    assert t1[|t1| - |t3|..] == t2[|t2| - |t3|..];
  }

  /** A refresh appends one token POST, uses up one token answer, and installs a whole grant or nothing. */
  lemma RefreshFrame(c: Credentials, s: TokenState, w: Wire)
    ensures var f := Refresh(c, s, w);
      && Extends(w, f.wire)
      && (f.tokens == s || Grant(f.tokens) in w.tokenReplies)
  {
    DropIsSuffix(w.tokenReplies);
  }

  /** The request gate only appends to the wire, and installs a whole grant or nothing. */
  lemma AuthorizeFrame(c: Credentials, s: TokenState, w: Wire, now: int, authorization: string)
    ensures var g := Authorize(c, s, w, now, authorization);
      && Extends(w, g.wire)
      && (g.tokens == s || Grant(g.tokens) in w.tokenReplies)
      && ReplyAt(g.wire, 0) == ReplyAt(w, 0) && ReplyAt(g.wire, 1) == ReplyAt(w, 1)
  {
    RefreshFrame(c, s, w);
  }

  /**
   * One request, whatever the answers: the wire only grows, and the tokens it leaves are the old
   * triple or one that the token endpoint granted, never a mixture.
   */
  lemma {:induction false} PerformFrame(c: Credentials, s: TokenState, w: Wire, now: int, call: Call, retry: bool, authorization: string)
    decreases Rank(retry), 2
    ensures var ex := Perform(c, s, w, now, call, retry, authorization);
      Extends(w, ex.wire) && (ex.tokens == s || Grant(ex.tokens) in w.tokenReplies)
  {
    var g := Authorize(c, s, w, now, authorization);
    AuthorizeFrame(c, s, w, now, authorization);
    if g.error.Some? {
      OnRejectedFrame(c, g.tokens, g.wire, now, call, retry, g.authorization, g.error.value);
      var ex := OnRejected(c, g.tokens, g.wire, now, call, retry, g.authorization, g.error.value);
      StepFrame(w, g.wire, ex.wire, s, g.tokens, ex.tokens);
    } else {
      SentFrame(c, g.tokens, g.wire, now, call, retry, g.authorization);
      var w' := Deliver(g.wire, Sent(call, g.authorization));
      var ex := Perform(c, s, w, now, call, retry, authorization);
      match Settle(NextReply(g.wire))
      case Resolved(status) =>
        assert ex == Exchange(Resolved(status), g.tokens, w', retry, g.authorization);
        StepFrame(w, g.wire, ex.wire, s, g.tokens, ex.tokens);
      case Rejected(e) =>
        assert ex == OnRejected(c, g.tokens, w', now, call, retry, g.authorization, e);
        StepFrame(w, g.wire, ex.wire, s, g.tokens, ex.tokens);
    }
  }

  /** The part of `Perform` after the gate has let the request through. */
  lemma {:induction false} SentFrame(c: Credentials, s: TokenState, w: Wire, now: int, call: Call, retry: bool, authorization: string)
    decreases Rank(retry), 1
    ensures var w' := Deliver(w, Sent(call, authorization));
      var ex := match Settle(NextReply(w))
        case Resolved(status) => Exchange(Resolved(status), s, w', retry, authorization)
        case Rejected(e) => OnRejected(c, s, w', now, call, retry, authorization, e);
      Extends(w, ex.wire) && (ex.tokens == s || Grant(ex.tokens) in w.tokenReplies)
  {
    var w' := Deliver(w, Sent(call, authorization));
    DeliverFrame(w, Sent(call, authorization));
    var o := Settle(NextReply(w));
    if o.Rejected? {
      OnRejectedFrame(c, s, w', now, call, retry, authorization, o.error);
      var ex := OnRejected(c, s, w', now, call, retry, authorization, o.error);
      StepFrame(w, w', ex.wire, s, s, ex.tokens);
    }
  }

  lemma DeliverFrame(w: Wire, sent: Sent)
    ensures Extends(w, Deliver(w, sent))
  {
    DropIsSuffix(w.apiReplies);
  }

  /** Two steps that each keep the frame keep it together. */
  lemma StepFrame(w1: Wire, w2: Wire, w3: Wire, t1: TokenState, t2: TokenState, t3: TokenState)
    requires Extends(w1, w2) && (t2 == t1 || Grant(t2) in w1.tokenReplies)
    requires Extends(w2, w3) && (t3 == t2 || Grant(t3) in w2.tokenReplies)
    ensures Extends(w1, w3) && (t3 == t1 || Grant(t3) in w1.tokenReplies)
  {
    ExtendsTransitive(w1, w2, w3);
    if t3 != t2 {
      SuffixMember(Grant(t3), w2.tokenReplies, w1.tokenReplies);
    }
  }

  lemma {:induction false} OnRejectedFrame(c: Credentials, s: TokenState, w: Wire, now: int, call: Call, retry: bool, authorization: string, e: ApiError)
    decreases Rank(retry), 0
    ensures var ex := OnRejected(c, s, w, now, call, retry, authorization, e);
      Extends(w, ex.wire) && (ex.tokens == s || Grant(ex.tokens) in w.tokenReplies)
  {
    if IsUnauthorized(e) && !retry {
      var f := Refresh(c, s, w);
      RefreshFrame(c, s, w);
      if f.error.None? {
        PerformFrame(c, f.tokens, f.wire, now, call, true, Bearer(f.tokens.accessToken));
        var ex := Perform(c, f.tokens, f.wire, now, call, true, Bearer(f.tokens.accessToken));
        StepFrame(w, f.wire, ex.wire, s, f.tokens, ex.tokens);
      }
    } else {
      assert IsSuffix(w.apiReplies, w.apiReplies) && IsSuffix(w.tokenReplies, w.tokenReplies);
    }
  }

  /**
   * One request sends at most `Rank(retry) + 1` times (twice for a new request), and a request
   * that resolves was last sent with the bearer header of the token the client now holds.
   */
  lemma {:induction false} PerformSends(c: Credentials, s: TokenState, w: Wire, now: int, call: Call, retry: bool, authorization: string)
    decreases Rank(retry), 1
    ensures var ex := Perform(c, s, w, now, call, retry, authorization);
      && w.apiLog <= ex.wire.apiLog
      && |ex.wire.apiLog| <= |w.apiLog| + Rank(retry) + 1
      && (ex.outcome.Resolved? ==>
            && ex.authorization == Bearer(ex.tokens.accessToken)
            && |ex.wire.apiLog| > |w.apiLog|
            && ex.wire.apiLog[|ex.wire.apiLog| - 1] == Sent(call, ex.authorization))
  {
    var g := Authorize(c, s, w, now, authorization);
    var w' := Deliver(g.wire, Sent(call, g.authorization));
    var o := Settle(NextReply(g.wire));
    if g.error.Some? {
      OnRejectedSends(c, g.tokens, g.wire, now, call, retry, g.authorization, g.error.value);
    } else if o.Rejected? {
      OnRejectedSends(c, g.tokens, w', now, call, retry, g.authorization, o.error);
    }
  }

  lemma {:induction false} OnRejectedSends(c: Credentials, s: TokenState, w: Wire, now: int, call: Call, retry: bool, authorization: string, e: ApiError)
    decreases Rank(retry), 0
    ensures var ex := OnRejected(c, s, w, now, call, retry, authorization, e);
      && w.apiLog <= ex.wire.apiLog
      && |ex.wire.apiLog| <= |w.apiLog| + Rank(retry)
      && (ex.outcome.Resolved? ==>
            && ex.authorization == Bearer(ex.tokens.accessToken)
            && |ex.wire.apiLog| > |w.apiLog|
            && ex.wire.apiLog[|ex.wire.apiLog| - 1] == Sent(call, ex.authorization))
  {
    if IsUnauthorized(e) && !retry {
      var f := Refresh(c, s, w);
      if f.error.None? {
        PerformSends(c, f.tokens, f.wire, now, call, true, Bearer(f.tokens.accessToken));
      }
    }
  }

  /** Between `w` and `w'` only requests whose call is in `calls` were sent. */
  ghost predicate SendsWithin(w: Wire, w': Wire, calls: set<Call>)
  {
    && w.apiLog <= w'.apiLog
    && forall k :: |w.apiLog| <= k < |w'.apiLog| ==> w'.apiLog[k].call in calls
  }

  lemma SendsWithinTransitive(w1: Wire, w2: Wire, w3: Wire, calls: set<Call>)
    requires SendsWithin(w1, w2, calls) && SendsWithin(w2, w3, calls)
    ensures SendsWithin(w1, w3, calls)
  {
    forall k | |w1.apiLog| <= k < |w3.apiLog|
      ensures w3.apiLog[k].call in calls
    {
      if k < |w2.apiLog| {
        assert w3.apiLog[k] == w2.apiLog[k];
      }
    }
  }

  /** Whatever it is answered, a request sends nothing but its own call, first or resent. */
  lemma {:induction false} PerformSendsOnlyItsCall(c: Credentials, s: TokenState, w: Wire, now: int, call: Call, retry: bool, authorization: string, calls: set<Call>)
    requires call in calls
    decreases Rank(retry), 1
    ensures SendsWithin(w, Perform(c, s, w, now, call, retry, authorization).wire, calls)
  {
    var g := Authorize(c, s, w, now, authorization);
    if g.error.Some? {
      OnRejectedSendsOnlyItsCall(c, g.tokens, g.wire, now, call, retry, g.authorization, g.error.value, calls);
    } else {
      var w' := Deliver(g.wire, Sent(call, g.authorization));
      var o := Settle(NextReply(g.wire));
      if o.Rejected? {
        OnRejectedSendsOnlyItsCall(c, g.tokens, w', now, call, retry, g.authorization, o.error, calls);
        SendsWithinTransitive(w, w', OnRejected(c, g.tokens, w', now, call, retry, g.authorization, o.error).wire, calls);
      }
    }
  }

  lemma {:induction false} OnRejectedSendsOnlyItsCall(c: Credentials, s: TokenState, w: Wire, now: int, call: Call, retry: bool, authorization: string, e: ApiError, calls: set<Call>)
    requires call in calls
    decreases Rank(retry), 0
    ensures SendsWithin(w, OnRejected(c, s, w, now, call, retry, authorization, e).wire, calls)
  {
    if IsUnauthorized(e) && !retry {
      var f := Refresh(c, s, w);
      if f.error.None? {
        PerformSendsOnlyItsCall(c, f.tokens, f.wire, now, call, true, Bearer(f.tokens.accessToken), calls);
      }
    }
  }

  /** A resent request is never resent again: its `_retry` flag stays set. */
  lemma ResendStaysRetried(c: Credentials, s: TokenState, w: Wire, now: int, call: Call, authorization: string)
    ensures Perform(c, s, w, now, call, true, authorization).retry
  {
    var g := Authorize(c, s, w, now, authorization);
    if g.error.None? {
      var o := Settle(NextReply(g.wire));
      if o.Rejected? {
        assert !(IsUnauthorized(o.error) && !true);
      }
    }
  }

  /**
   * For a new request, `_retry` ends up set exactly when the gate let it through and the API
   * answered its first send with 401.
   */
  lemma RetryOnlyAfterUnauthorized(c: Credentials, s: TokenState, w: Wire, now: int, call: Call, authorization: string)
    ensures Perform(c, s, w, now, call, false, authorization).retry
            <==> Authorize(c, s, w, now, authorization).error.None? && ReplyAt(w, 0).Answered? && ReplyAt(w, 0).status == 401
  {
    var g := Authorize(c, s, w, now, authorization);
    AuthorizeFrame(c, s, w, now, authorization);
    if g.error.None? {
      var w' := Deliver(g.wire, Sent(call, g.authorization));
      var o := Settle(NextReply(g.wire));
      if o.Rejected? && IsUnauthorized(o.error) {
        var f := Refresh(c, g.tokens, w');
        if f.error.None? {
          ResendStaysRetried(c, f.tokens, f.wire, now, call, Bearer(f.tokens.accessToken));
        }
      }
    }
  }

  /**
   * When a new request is sent twice, the first answer was a 401, the request is marked retried,
   * and it settles with the second answer alone: a second 401 is the final rejection.
   */
  lemma SecondSendIsFinal(c: Credentials, s: TokenState, w: Wire, now: int, call: Call, authorization: string)
    requires |Perform(c, s, w, now, call, false, authorization).wire.apiLog| == |w.apiLog| + 2
    ensures var ex := Perform(c, s, w, now, call, false, authorization);
      && ReplyAt(w, 0).Answered? && ReplyAt(w, 0).status == 401
      && ex.retry
      && ex.outcome == Settle(ReplyAt(w, 1))
      && (ReplyAt(w, 1).Answered? && ReplyAt(w, 1).status == 401 ==> ex.outcome == Rejected(HttpError(401, ReplyAt(w, 1).message)))
  {
    var g := Authorize(c, s, w, now, authorization);
    AuthorizeFrame(c, s, w, now, authorization);
    if g.error.Some? {
      OnRejectedSends(c, g.tokens, g.wire, now, call, false, g.authorization, g.error.value);
      assert false;
    }
    var w' := Deliver(g.wire, Sent(call, g.authorization));
    var o := Settle(NextReply(g.wire));
    if o.Resolved? || !IsUnauthorized(o.error) {
      assert false;
    }
    var f := Refresh(c, g.tokens, w');
    if f.error.Some? {
      assert false;
    }
    ResendSettlesWithNextAnswer(c, f.tokens, f.wire, now, call, Bearer(f.tokens.accessToken));
    assert ReplyAt(w', 0) == ReplyAt(w, 1);
  }

  /** A resent request that reaches the API settles with the answer it gets: no further retry. */
  lemma ResendSettlesWithNextAnswer(c: Credentials, s: TokenState, w: Wire, now: int, call: Call, authorization: string)
    requires |Perform(c, s, w, now, call, true, authorization).wire.apiLog| > |w.apiLog|
    ensures var ex := Perform(c, s, w, now, call, true, authorization);
      ex.retry && ex.outcome == Settle(ReplyAt(w, 0))
  {
    var g := Authorize(c, s, w, now, authorization);
    AuthorizeFrame(c, s, w, now, authorization);
  }

  /** A rejection other than a 401 on the first send passes through unchanged, after one send. */
  lemma OtherRejectionsPassThrough(c: Credentials, s: TokenState, w: Wire, now: int, call: Call, authorization: string)
    requires Authorize(c, s, w, now, authorization).error.None?
    requires Settle(ReplyAt(w, 0)).Rejected? && !IsUnauthorized(Settle(ReplyAt(w, 0)).error)
    ensures var ex := Perform(c, s, w, now, call, false, authorization);
      && ex.outcome == Settle(ReplyAt(w, 0))
      && |ex.wire.apiLog| == |w.apiLog| + 1
      && !ex.retry
      && ex.tokens == Authorize(c, s, w, now, authorization).tokens
  {
    AuthorizeFrame(c, s, w, now, authorization);
  }

  /** A refresh that fails in the gate rejects the request with the refresh error, before anything is sent. */
  lemma GateFailureRejects(c: Credentials, s: TokenState, w: Wire, now: int, call: Call, retry: bool, authorization: string)
    requires Authorize(c, s, w, now, authorization).error.Some?
    ensures var ex := Perform(c, s, w, now, call, retry, authorization);
      && ex.outcome == Rejected(Authorize(c, s, w, now, authorization).error.value)
      && ex.outcome.error.RefreshError?
      && ex.wire.apiLog == w.apiLog
      && ex.tokens == s
      && ex.retry == retry
  {
  }

  /**
   * An expired token whose refresh is refused: the request rejects with that refusal as its
   * refresh error, nothing reaches the API, and the tokens stay as they were.
   */
  lemma ExpiredRefusalRejects(c: Credentials, s: TokenState, w: Wire, now: int, call: Call, retry: bool, authorization: string)
    requires Expired(s.expiresAt, now) && NextTokenReply(w).Refused?
    ensures var ex := Perform(c, s, w, now, call, retry, authorization);
      && ex.outcome == Rejected(RefreshError(NextTokenReply(w).message))
      && ex.wire.apiLog == w.apiLog
      && ex.tokens == s
  {
  }

  /**
   * After a 401, a failed refresh rejects the request with the refresh error rather than the
   * 401, the request is not resent, and the tokens stay as the gate left them.
   */
  lemma RetryRefreshFailureWins(c: Credentials, s: TokenState, w: Wire, now: int, call: Call, authorization: string)
    requires Authorize(c, s, w, now, authorization).error.None?
    requires ReplyAt(w, 0).Answered? && ReplyAt(w, 0).status == 401
    requires NextTokenReply(Authorize(c, s, w, now, authorization).wire).Refused?
    ensures var ex := Perform(c, s, w, now, call, false, authorization);
      && ex.outcome == Rejected(RefreshError(NextTokenReply(Authorize(c, s, w, now, authorization).wire).message))
      && |ex.wire.apiLog| == |w.apiLog| + 1
      && ex.retry
      && ex.tokens == Authorize(c, s, w, now, authorization).tokens
  {
    AuthorizeFrame(c, s, w, now, authorization);
  }

  /**
   * A new client's token counts as expired at every clock reading from the epoch on, so its
   * first request POSTs the seed refresh token with the stored credentials before anything else;
   * if that refresh fails, nothing is sent to the API, and if it succeeds, the first request
   * sent carries the granted access token.
   */
  lemma NewClientRefreshesFirst(c: Credentials, seed: string, w: Wire, now: int, call: Call)
    requires now >= 0
    ensures var ex := Perform(c, InitialTokens(seed), w, now, call, false, "");
      && |ex.wire.tokenLog| > |w.tokenLog|
      && ex.wire.tokenLog[|w.tokenLog|] == TokenRequest(c.clientId, c.clientSecret, seed, RefreshGrantType)
      && (NextTokenReply(w).Refused? ==>
            ex.outcome == Rejected(RefreshError(NextTokenReply(w).message)) && ex.wire.apiLog == w.apiLog)
      && (NextTokenReply(w).Granted? ==>
            |ex.wire.apiLog| > |w.apiLog|
            && ex.wire.apiLog[|w.apiLog|] == Sent(call, Bearer(NextTokenReply(w).accessToken)))
  {
    var s := InitialTokens(seed);
    assert Expired(s.expiresAt, now);
    var g := Authorize(c, s, w, now, "");
    var ex := Perform(c, s, w, now, call, false, "");
    assert g.wire.tokenLog == w.tokenLog + [TokenRequest(c.clientId, c.clientSecret, seed, RefreshGrantType)];
    match g.error
    case Some(e) =>
      assert ex == Exchange(Rejected(e), s, g.wire, false, "");
    case None =>
      SentFrame(c, g.tokens, g.wire, now, call, false, g.authorization);
      var w' := Deliver(g.wire, Sent(call, g.authorization));
      assert w'.apiLog[|w.apiLog|] == Sent(call, Bearer(NextTokenReply(w).accessToken));
      match Settle(NextReply(g.wire))
      case Resolved(_) =>
      case Rejected(e) =>
        OnRejectedSends(c, g.tokens, w', now, call, false, g.authorization, e);
  }

  /**
   * A 401 on a valid token, a successful refresh to a token good for five more minutes and a
   * successful resend: the request resolves as if nothing had happened, holding the new tokens.
   */
  lemma UnauthorizedThenRecovered(c: Credentials, s: TokenState, w: Wire, now: int, call: Call, authorization: string,
                                  access: string, refresh: string, expiresAt: int, message: string)
    requires !Expired(s.expiresAt, now) && !Expired(expiresAt, now)
    requires w.apiReplies == [Answered(401, message), Answered(200, message)]
    requires w.tokenReplies == [Granted(access, refresh, expiresAt)]
    ensures var ex := Perform(c, s, w, now, call, false, authorization);
      && ex.outcome == Resolved(200)
      && ex.tokens == TokenState(access, refresh, expiresAt)
      && ex.wire.apiLog == w.apiLog + [Sent(call, Bearer(s.accessToken)), Sent(call, Bearer(access))]
      && ex.wire.tokenLog == w.tokenLog + [TokenRequest(c.clientId, c.clientSecret, s.refreshToken, RefreshGrantType)]
  {
    var g := Authorize(c, s, w, now, authorization);
    var w' := Deliver(g.wire, Sent(call, g.authorization));
    var f := Refresh(c, g.tokens, w');
    assert NextTokenReply(w') == Granted(access, refresh, expiresAt);
    assert f.tokens == TokenState(access, refresh, expiresAt);
    assert NextReply(f.wire) == Answered(200, message);
  }

  /** Once a token counts as expired it stays so as the clock advances, as does any token expiring no later. */
  lemma ExpiredStaysExpired(expiresAt: int, now: int, earlierExpiresAt: int, laterNow: int)
    requires Expired(expiresAt, now) && earlierExpiresAt <= expiresAt && now <= laterNow
    ensures Expired(earlierExpiresAt, laterNow)
  {
  }

  /** The five-minute buffer: expiry 100 s away counts as expired, 400 s or exactly 300 s away does not. */
  lemma ExpiryBufferBoundary(now: int)
    ensures Expired(now + 100, now)
    ensures !Expired(now + 400, now)
    ensures !Expired(now + 300, now)
  {
  }
}
