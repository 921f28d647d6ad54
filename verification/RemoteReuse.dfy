/** Which clients always get their own answers, whatever the server does. */
module RemoteReuse {
  import opened Text
  import opened RemoteWorker
  import opened RemoteProtocol

  /** The ids the client asks under, in order: the part of a run the caller decides. */
  function Asked(moves: seq<Move>): seq<RequestId> {
    if moves == [] then []
    else
      var n := |moves| - 1;
      Asked(moves[..n]) + if moves[n].ClientRequests? then [moves[n].id] else []
  }

  ghost predicate AllDifferent(ids: seq<RequestId>) {
    forall i, j :: 0 <= i < j < |ids| ==> ids[i] != ids[j]
  }

  // ----- an id used once identifies its waiter -----

  predicate Owned(r: InFlight, asked: seq<RequestId>) {
    r.token < |asked| && asked[r.token] == r.id
  }

  ghost predicate AllOwned(rs: seq<InFlight>, asked: seq<RequestId>) {
    forall i :: 0 <= i < |rs| ==> Owned(rs[i], asked)
  }

  predicate Attributed(m: Inbound, asked: seq<RequestId>, answers: seq<Sent>) {
    if m.Answering? then Owned(InFlight(m.id, m.token), asked) && Sent(m.token, Answered(m.answer)) in answers
    else !IsReply(m.frame)
  }

  /** Every request and answer under way carries the token its id was asked with. */
  ghost predicate Traced(s: System, asked: seq<RequestId>) {
    && |s.taken| <= |asked| && (s.worker.running ==> |s.taken| == |asked|)
    && AllOwned(s.toServer, asked) && AllOwned(s.held, asked) && AllOwned(s.answered, asked)
    && (forall i :: 0 <= i < |s.toClient| ==> Attributed(s.toClient[i], asked, s.answers))
    && (forall id :: id in s.worker.pending ==> Owned(InFlight(id, s.worker.pending[id]), asked))
    && OwnAnswers(s)
  }

  lemma RequestTraced(s: System, asked: seq<RequestId>, id: RequestId, writeOk: bool, consumerOpen: bool)
    requires Traced(s, asked)
    ensures Traced(Apply(s, ClientRequests(id, writeOk, consumerOpen)), asked + [id])
  {
    var s' := Apply(s, ClientRequests(id, writeOk, consumerOpen));
    assert forall r :: Owned(r, asked) ==> Owned(r, asked + [id]);
    assert forall m :: Attributed(m, asked, s.answers) ==> Attributed(m, asked + [id], s.answers);
    if s.worker.running {
      assert Owned(InFlight(id, FreshToken(s)), asked + [id]);
    }
  }

  lemma GiveTraced(s: System, asked: seq<RequestId>, r: InFlight, answer: Answer)
    requires Traced(s, asked) && Owned(r, asked)
    ensures Traced(GiveAnswer(s, r, answer), asked)
  {
    var s' := GiveAnswer(s, r, answer);
    assert forall m :: Attributed(m, asked, s.answers) ==> Attributed(m, asked, s'.answers);
    assert InFlight(r.id, r.token) == r;
  }

  lemma AnswerTraced(s: System, asked: seq<RequestId>, k: nat, answer: Answer)
    requires Traced(s, asked) && k < |s.held|
    ensures Traced(Apply(s, ServerAnswers(k, answer)), asked)
  {
    GiveTraced(s, asked, s.held[k], answer);
    var s' := Apply(s, ServerAnswers(k, answer));
    assert AllOwned(s'.held, asked) && AllOwned(s'.answered, asked);
  }

  /** The waiter under the answer's id is the one the answer was given to, since the id was asked under once. */
  lemma AnswerReceivedTraced(s: System, asked: seq<RequestId>, writeOk: bool, consumerOpen: bool)
    requires Traced(s, asked) && AllDifferent(asked) && s.worker.running && s.toClient != [] && s.toClient[0].Answering?
    ensures Traced(Apply(s, ClientReceives(writeOk, consumerOpen)), asked)
  {
    var m := s.toClient[0];
    var s' := Apply(s, ClientReceives(writeOk, consumerOpen));
    assert Attributed(m, asked, s.answers);
    assert s'.worker == Resolve(s.worker, m.id, m.answer);
    if m.id in s.worker.pending {
      assert Owned(InFlight(m.id, s.worker.pending[m.id]), asked);
      assert s.worker.pending[m.id] == m.token;
    }
    assert forall i :: 0 <= i < |s'.toClient| ==> s'.toClient[i] == s.toClient[i + 1];
  }

  lemma FrameReceivedTraced(s: System, asked: seq<RequestId>, writeOk: bool, consumerOpen: bool)
    requires Traced(s, asked) && s.worker.running && s.toClient != [] && s.toClient[0].Other?
    ensures Traced(Apply(s, ClientReceives(writeOk, consumerOpen)), asked)
  {
    var s' := Apply(s, ClientReceives(writeOk, consumerOpen));
    assert Attributed(s.toClient[0], asked, s.answers);
    assert s'.worker.pending == s.worker.pending && s'.worker.replies == s.worker.replies;
    assert forall i :: 0 <= i < |s'.toClient| ==> s'.toClient[i] == s.toClient[i + 1];
  }

  lemma OtherMoveTraced(s: System, asked: seq<RequestId>, m: Move)
    requires Traced(s, asked) && Enabled(s, m) && (m.ClientDoes? || m.ServerReceives? || m.ServerEmits?)
    ensures Traced(Apply(s, m), asked)
  {
    var s' := Apply(s, m);
    assert s'.worker.pending == s.worker.pending && s'.worker.replies == s.worker.replies;
  }

  lemma {:induction false} RunTraced(moves: seq<Move>)
    requires AllDifferent(Asked(moves))
    ensures Traced(RunSystem(moves), Asked(moves))
  {
    if moves != [] {
      var n := |moves| - 1;
      var s, m, asked := RunSystem(moves[..n]), moves[n], Asked(moves[..n]);
      assert forall i :: 0 <= i < |asked| ==> Asked(moves)[i] == asked[i];
      RunTraced(moves[..n]);
      assert asked + [] == asked;
      if Enabled(s, m) {
        match m {
          case ClientRequests(id, writeOk, consumerOpen) => RequestTraced(s, asked, id, writeOk, consumerOpen);
          case ServerAnswers(k, answer) => AnswerTraced(s, asked, k, answer);
          case ServerAnswersAgain(k, answer) => GiveTraced(s, asked, s.answered[k], answer);
          case ClientReceives(writeOk, consumerOpen) =>
            if s.worker.running {
              if s.toClient[0].Answering? {
                AnswerReceivedTraced(s, asked, writeOk, consumerOpen);
              } else {
                FrameReceivedTraced(s, asked, writeOk, consumerOpen);
              }
            }
          case _ => OtherMoveTraced(s, asked, m);
        }
      }
    }
  }

  // ----- a reused id can be misled -----

  const FIRST := Success(0)
  const STALE := Success(1)

  lemma RunSnoc(moves: seq<Move>, m: Move)
    ensures RunSystem(moves + [m]) == if Enabled(RunSystem(moves), m) then Apply(RunSystem(moves), m) else RunSystem(moves)
    ensures Asked(moves + [m]) == Asked(moves) + if m.ClientRequests? then [m.id] else []
  {
    assert (moves + [m])[..|moves|] == moves;
  }

  /** Nothing under way, and one answered request per id asked. */
  ghost predicate Settled(s: System, asked: seq<RequestId>) {
    && s.worker.running && s.worker.pending == map[] && s.toServer == [] && s.held == [] && s.toClient == []
    && |s.taken| == |asked| == |s.answered|
    && (forall i :: 0 <= i < |asked| ==> s.answered[i] == InFlight(asked[i], i))
    && (forall x :: x in s.answers ==> x.token < |asked|)
  }

  /** Asking on a settled system leaves the one new request, waiting. */
  lemma AskSettled(s: System, asked: seq<RequestId>, id: RequestId)
    requires Settled(s, asked)
    ensures var s' := Apply(s, ClientRequests(id, true, true));
            && s' == s.(worker := s'.worker, toServer := [InFlight(id, |asked|)], taken := s.taken + [|asked|])
            && s'.worker == s.worker.(pending := map[id := |asked|], written := s'.worker.written)
  {
  }

  /** Receiving the answer to the only waiter settles it. */
  lemma AnswerArrives(s: System, id: RequestId, token: Token, origin: Token, answer: Answer)
    requires s.worker.running && s.worker.pending == map[id := token] && s.toClient == [Answering(id, origin, answer)]
    ensures var s' := Apply(s, ClientReceives(true, true));
            && s' == s.(worker := s'.worker, toClient := [])
            && s'.worker == s.worker.(pending := map[], replies := s.worker.replies + [Sent(token, Answered(answer))])
  {
    var s' := Apply(s, ClientReceives(true, true));
    assert s'.worker == Resolve(s.worker, id, answer);
    assert s.worker.pending - {id} == map[];
  }

  lemma AnswerOnly(s: System, r: InFlight, answer: Answer)
    requires s.toServer == [r] && s.held == [] && s.toClient == []
    ensures var s' := Apply(Apply(s, ServerReceives), ServerAnswers(0, answer));
            && s' == s.(toServer := [], answered := s.answered + [r], toClient := [Answering(r.id, r.token, answer)],
                        answers := s.answers + [Sent(r.token, Answered(answer))])
            && Enabled(s, ServerReceives) && Enabled(Apply(s, ServerReceives), ServerAnswers(0, answer))
  {
    var s1 := Apply(s, ServerReceives);
    assert s1.held == [r] && s1.toServer == [];
    assert s1.held[..0] + s1.held[1..] == [];
  }

  lemma RoundSettles(s: System, asked: seq<RequestId>, id: RequestId) returns (last: System)
    requires Settled(s, asked)
    ensures last == Apply(Apply(Apply(Apply(s, ClientRequests(id, true, true)), ServerReceives), ServerAnswers(0, FIRST)), ClientReceives(true, true))
    ensures Settled(last, asked + [id])
  {
    var r := InFlight(id, |asked|);
    var s1 := Apply(s, ClientRequests(id, true, true));
    AskSettled(s, asked, id);
    AnswerOnly(s1, r, FIRST);
    var s3 := Apply(Apply(s1, ServerReceives), ServerAnswers(0, FIRST));
    AnswerArrives(s3, id, |asked|, |asked|, FIRST);
    last := Apply(s3, ClientReceives(true, true));
  }

  /** The request, its arrival, its answer and the answer's arrival. */
  lemma PromptRound(moves: seq<Move>, asked: seq<RequestId>, id: RequestId) returns (more: seq<Move>)
    requires Settled(RunSystem(moves), asked) && Asked(moves) == asked
    ensures Settled(RunSystem(more), asked + [id]) && Asked(more) == asked + [id]
  {
    var s := RunSystem(moves);
    var last := RoundSettles(s, asked, id);
    AskSettled(s, asked, id);
    AnswerOnly(Apply(s, ClientRequests(id, true, true)), InFlight(id, |asked|), FIRST);
    var m1 := moves + [ClientRequests(id, true, true)];
    var m2 := m1 + [ServerReceives];
    var m3 := m2 + [ServerAnswers(0, FIRST)];
    more := m3 + [ClientReceives(true, true)];
    RunSnoc(moves, ClientRequests(id, true, true));
    RunSnoc(m1, ServerReceives);
    RunSnoc(m2, ServerAnswers(0, FIRST));
    RunSnoc(m3, ClientReceives(true, true));
    assert RunSystem(more) == last;
  }

  lemma {:induction false} PromptRun(asked: seq<RequestId>) returns (moves: seq<Move>)
    ensures Settled(RunSystem(moves), asked) && Asked(moves) == asked
  {
    if asked == [] {
      moves := [];
    } else {
      var n := |asked| - 1;
      var before := PromptRun(asked[..n]);
      moves := PromptRound(before, asked[..n], asked[n]);
      assert asked == asked[..n] + [asked[n]];
    }
  }

  /** A waiter holds an answer that was given to another. */
  ghost predicate Misled(s: System, x: Sent) {
    x in s.worker.replies && x.reply.Answered? && x !in s.answers
  }

  /** A second answer to the `i`-th request meets the next waiter under the same id. */
  lemma StaleRound(moves: seq<Move>, asked: seq<RequestId>, i: nat) returns (more: seq<Move>, x: Sent)
    requires Settled(RunSystem(moves), asked) && Asked(moves) == asked && i < |asked|
    ensures Asked(more) == asked + [asked[i]] && Misled(RunSystem(more), x)
  {
    var id, token := asked[i], |asked|;
    var s := RunSystem(moves);
    x := Sent(token, Answered(STALE));
    var m1 := moves + [ClientRequests(id, true, true)];
    var m2 := m1 + [ServerAnswersAgain(i, STALE)];
    more := m2 + [ClientReceives(true, true)];
    RunSnoc(moves, ClientRequests(id, true, true));
    AskSettled(s, asked, id);
    RunSnoc(m1, ServerAnswersAgain(i, STALE));
    RunSnoc(m2, ClientReceives(true, true));
    AnswerArrives(RunSystem(m2), id, token, i, STALE);
    assert RunSystem(more).answers == s.answers + [Sent(i, Answered(STALE))];
  }

  /** Requests asked afterwards do not undo it. */
  lemma {:induction false} AskOn(moves: seq<Move>, rest: seq<RequestId>, x: Sent) returns (more: seq<Move>)
    requires Misled(RunSystem(moves), x)
    ensures Asked(more) == Asked(moves) + rest && Misled(RunSystem(more), x)
    decreases rest
  {
    if rest == [] {
      more := moves;
      assert Asked(moves) + [] == Asked(moves);
    } else {
      RunSnoc(moves, ClientRequests(rest[0], true, true));
      more := AskOn(moves + [ClientRequests(rest[0], true, true)], rest[1..], x);
      assert Asked(moves) + [rest[0]] + rest[1..] == Asked(moves) + rest;
    }
  }

  /** Whatever else the client asks, if it asks twice under one id some server misleads the later waiter. */
  lemma ReusedIdMisled(ids: seq<RequestId>, i: nat, j: nat) returns (moves: seq<Move>)
    requires i < j < |ids| && ids[i] == ids[j]
    ensures Asked(moves) == ids && !OwnAnswers(RunSystem(moves))
  {
    var prompt := PromptRun(ids[..j]);
    var stale, x := StaleRound(prompt, ids[..j], i);
    moves := AskOn(stale, ids[j + 1..], x);
    assert ids[..j] + [ids[j]] + ids[j + 1..] == ids;
  }

  /**
   * A client is safe from every server, even one that answers requests again, if and only if it
   * never asks twice under the same id.
   */
  lemma OwnAnswersExactly(ids: seq<RequestId>)
    ensures (forall moves :: Asked(moves) == ids ==> OwnAnswers(RunSystem(moves))) <==> AllDifferent(ids)
  {
    if AllDifferent(ids) {
      forall moves | Asked(moves) == ids ensures OwnAnswers(RunSystem(moves)) {
        RunTraced(moves);
      }
    } else {
      var i, j :| 0 <= i < j < |ids| && ids[i] == ids[j];
      var moves := ReusedIdMisled(ids, i, j);
      assert Asked(moves) == ids;
    }
  }
}
