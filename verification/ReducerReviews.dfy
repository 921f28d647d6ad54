/** The review summary on a tool event tells exactly the reviews finished for that item. */
module ReducerReviews {
  import opened Text
  import opened Sequences
  import opened Reducer
  import opened ReducerHistory
  import opened ReducerSources

  // ----- the reference: who was asked, and what they said -----

  /** A question with a usable start time replaces the one waiting under its id; an answer settles it. */
  function Settle(waiting: Option<ReviewFact>, f: ReviewFact, request: RequestId): Option<ReviewFact> {
    if f.GuardianCompleted? || f.request != request then waiting
    else
      match f
      case CommandApprovalRequested(_, _, _, _, startedAt, _, _, _) => if startedAt < 0 then waiting else Some(f)
      case FileApprovalRequested(_, _, _, _, startedAt, _) => if startedAt < 0 then waiting else Some(f)
      case PermissionsRequested(_, _, _, _, startedAt, _, _) => if startedAt < 0 then waiting else Some(f)
      case _ => None
  }

  /** The question waiting under an id. */
  function Asked(facts: seq<Fact>, request: RequestId): Option<ReviewFact> {
    if facts == [] then None
    else
      var past, now := facts[..|facts| - 1], facts[|facts| - 1];
      if now.OfReview? then Settle(Asked(past, request), now.reviewFact, request) else Asked(past, request)
  }

  /** What is counted of a review: who gave the verdict, what it was, and what had been asked for. */
  datatype Verdict = Verdict(byGuardian: bool, outcome: Outcome, additionalPermissions: bool, networkAccess: bool)

  /** A user's answer, or the withdrawal of the question. */
  function UserOutcome(f: ReviewFact): Outcome {
    match f
    case CommandApprovalAnswered(_, Accept, _) => UserApproved
    case CommandApprovalAnswered(_, AcceptWithExecpolicyAmendment, _) => UserApproved
    case CommandApprovalAnswered(_, ApplyNetworkPolicy(true), _) => UserApproved
    case CommandApprovalAnswered(_, AcceptForSession, _) => UserApprovedForSession
    case CommandApprovalAnswered(_, ApplyNetworkPolicy(false), _) => UserDenied
    case CommandApprovalAnswered(_, Decline, _) => UserDenied
    case FileApprovalAnswered(_, AcceptFile, _) => UserApproved
    case FileApprovalAnswered(_, AcceptFileForSession, _) => UserApprovedForSession
    case FileApprovalAnswered(_, DeclineFile, _) => UserDenied
    case PermissionsAnswered(_, true, false, _) => UserApproved
    case PermissionsAnswered(_, true, true, _) => UserApprovedForSession
    case PermissionsAnswered(_, false, _, _) => UserDenied
    case _ => UserAborted
  }

  /** An answer counts for the item of the question, if that was about running a command or changing files. */
  function Answered(ask: ReviewFact, answer: ReviewFact, key: ItemKey): seq<Verdict> {
    match ask
    case CommandApprovalRequested(_, thread, turn, item, _, networkContext, amendments, additional) =>
      if networkContext || key != ItemKey(thread, turn, item) then []
      else [Verdict(false, UserOutcome(answer), additional.Some?, amendments || additional == Some(true))]
    case FileApprovalRequested(_, thread, turn, item, _, grantRoot) =>
      if key != ItemKey(thread, turn, item) then [] else [Verdict(false, UserOutcome(answer), grantRoot, false)]
    case _ => []
  }

  /** The guardian's verdict counts for its target, unless it was about network access or permissions. */
  function GuardianSays(f: ReviewFact, key: ItemKey): seq<Verdict>
    requires f.GuardianCompleted?
  {
    if f.target != Some(key.item) || f.thread != key.thread || f.turn != key.turn || f.startedAt < 0 || f.finishedAt < 0 then []
    else if f.action.NetworkAccess? || f.action.RequestPermissions? then []
    else
      match f.verdict
      case InProgress => []
      case GuardianSaysApproved => [Verdict(true, GuardianApproved, f.action.ApplyPatch?, false)]
      case GuardianSaysDenied => [Verdict(true, GuardianDenied, f.action.ApplyPatch?, false)]
      case GuardianTimedOut => [Verdict(true, GuardianAborted, f.action.ApplyPatch?, false)]
      case GuardianSaysAborted => [Verdict(true, GuardianAborted, f.action.ApplyPatch?, false)]
  }

  /** The verdict one more fact brings for an item: at most one. */
  function VerdictOf(facts: seq<Fact>, f: Fact, key: ItemKey): seq<Verdict> {
    match f
    case OfReview(CommandApprovalRequested(_, _, _, _, _, _, _, _)) => []
    case OfReview(FileApprovalRequested(_, _, _, _, _, _)) => []
    case OfReview(PermissionsRequested(_, _, _, _, _, _, _)) => []
    case OfReview(GuardianCompleted(_, _, _, _, _, _, _)) => GuardianSays(f.reviewFact, key)
    case OfReview(_) =>
      var ask := Asked(facts, f.reviewFact.request);
      if ask.Some? then Answered(ask.value, f.reviewFact, key) else []
    case _ => []
  }

  // ----- items -----

  predicate Completes(f: Fact, key: ItemKey) {
    && f.OfItem? && f.itemFact.ItemCompleted? && !f.itemFact.item.kind.Untracked?
    && f.itemFact.thread == key.thread && f.itemFact.turn == key.turn && f.itemFact.item.id == key.item
  }

  /** When a tracked item was last started, unless it has been completed since in a turn that was known. */
  function StartedAt(facts: seq<Fact>, key: ItemKey): Option<nat> {
    if facts == [] then None
    else
      var past, now := facts[..|facts| - 1], facts[|facts| - 1];
      match now
      case OfItem(ItemStarted(thread, turn, item, at)) =>
        if key == ItemKey(thread, turn, item.id) && !item.kind.Untracked? && at >= 0 then Some(at) else StartedAt(past, key)
      case _ => if Completes(now, key) && Said(past, key.turn) != [] then None else StartedAt(past, key)
  }

  /** A completion that reaches the reporting step: the item's verdicts are used up. */
  predicate Consumes(facts: seq<Fact>, f: Fact, key: ItemKey) {
    && Completes(f, key) && f.itemFact.at >= 0
    && Said(facts, key.turn) != [] && StartedAt(facts, key).Some? && ClientSaid(facts, key.thread).Some?
  }

  /** The verdicts for an item since they were last used up, oldest first. */
  function Verdicts(facts: seq<Fact>, key: ItemKey): seq<Verdict> {
    if facts == [] then []
    else
      var past, now := facts[..|facts| - 1], facts[|facts| - 1];
      if Consumes(past, now, key) then [] else Verdicts(past, key) + VerdictOf(past, now, key)
  }

  function ByGuardian(v: Verdict): seq<Verdict> {
    if v.byGuardian then [v] else []
  }

  function ByUser(v: Verdict): seq<Verdict> {
    if v.byGuardian then [] else [v]
  }

  /** The tally of the verdicts, the outcome of the latest, and what any of them was asked for. */
  function SummaryOf(verdicts: seq<Verdict>): Summary {
    Summary(|verdicts|, |FlatMap(ByGuardian, verdicts)|, |FlatMap(ByUser, verdicts)|,
            if verdicts == [] then None else Some(verdicts[|verdicts| - 1].outcome),
            exists v :: v in verdicts && v.additionalPermissions, exists v :: v in verdicts && v.networkAccess)
  }

  lemma {:induction false} SummaryAdds(verdicts: seq<Verdict>)
    ensures SummaryOf(verdicts).guardian + SummaryOf(verdicts).user == SummaryOf(verdicts).reviews
  {
    if verdicts != [] {
      var n := |verdicts| - 1;
      SummaryAdds(verdicts[..n]);
      FlatMapSnoc(ByGuardian, verdicts[..n], verdicts[n]);
      FlatMapSnoc(ByUser, verdicts[..n], verdicts[n]);
      assert verdicts[..n] + [verdicts[n]] == verdicts;
    }
  }

  // ----- the questions the reducer holds -----

  /** A review says what was asked, where and when. */
  ghost predicate Holds(r: Review, ask: ReviewFact) {
    match ask
    case CommandApprovalRequested(_, thread, turn, item, startedAt, networkContext, amendments, additional) =>
      && r.thread == thread && r.turn == turn && r.item == Some(item) && r.startedAt == startedAt
      && (networkContext ==> r.subject == NetworkSubject) && (!networkContext ==> r.subject == CommandSubject)
      && (r.additionalPermissions <==> additional != None)
      && (r.networkAccess <==> networkContext || amendments || additional == Some(true))
    case FileApprovalRequested(_, thread, turn, item, startedAt, grantRoot) =>
      && r.thread == thread && r.turn == turn && r.item == Some(item) && r.startedAt == startedAt
      && r.subject == FileSubject && (r.additionalPermissions <==> grantRoot) && !r.networkAccess
    case PermissionsRequested(_, thread, turn, item, startedAt, network, fileSystem) =>
      && r.thread == thread && r.turn == turn && r.item == Some(item) && r.startedAt == startedAt
      && r.subject == PermissionsSubject && (r.additionalPermissions <==> network || fileSystem) && (r.networkAccess <==> network)
    case GuardianCompleted(thread, turn, target, _, action, startedAt, _) =>
      && r.thread == thread && r.turn == turn && r.item == target && r.startedAt == startedAt
      && (match action
          case Command => r.subject == CommandSubject && !r.additionalPermissions && !r.networkAccess
          case Execve => r.subject == CommandSubject && !r.additionalPermissions && !r.networkAccess
          case ApplyPatch => r.subject == FileSubject && r.additionalPermissions && !r.networkAccess
          case McpCall => r.subject == McpSubject && !r.additionalPermissions && !r.networkAccess
          case NetworkAccess => r.subject == NetworkSubject && r.additionalPermissions && r.networkAccess
          case RequestPermissions(network, fileSystem) =>
            r.subject == PermissionsSubject && (r.additionalPermissions <==> network || fileSystem) && (r.networkAccess <==> network))
    case _ => false
  }

  predicate IsAnswer(f: ReviewFact) {
    f.CommandApprovalAnswered? || f.FileApprovalAnswered? || f.PermissionsAnswered? || f.ServerRequestAborted?
  }

  predicate IsQuestion(f: ReviewFact) {
    f.CommandApprovalRequested? || f.FileApprovalRequested? || f.PermissionsRequested?
  }

  ghost predicate HoldsAsked(s: State, request: RequestId, ask: Option<ReviewFact>) {
    && (request in s.reviews <==> ask.Some?)
    && (ask.Some? ==> IsQuestion(ask.value) && Holds(s.reviews[request], ask.value))
  }

  lemma QuestionOpens(f: ReviewFact)
    requires IsQuestion(f)
    ensures f.startedAt >= 0 ==> Opened(f).Some? && Holds(Opened(f).value, f)
    ensures f.startedAt < 0 ==> Opened(f) == None
  {
  }

  lemma AnswerCloses(s: State, f: ReviewFact)
    requires IsAnswer(f)
    ensures IngestReview(s, f).state.reviews == s.reviews - {f.request}
  {
    assert f.request !in s.reviews ==> s.reviews - {f.request} == s.reviews;
  }

  lemma GuardianKeepsQuestions(s: State, f: ReviewFact)
    requires f.GuardianCompleted?
    ensures IngestReview(s, f).state.reviews == s.reviews
  {
  }

  lemma HoldsNext(s: State, waiting: Option<ReviewFact>, f: ReviewFact, request: RequestId)
    requires HoldsAsked(s, request, waiting)
    ensures HoldsAsked(IngestReview(s, f).state, request, Settle(waiting, f, request))
  {
    if IsAnswer(f) {
      AnswerCloses(s, f);
    } else if f.GuardianCompleted? {
      GuardianKeepsQuestions(s, f);
    } else {
      QuestionOpens(f);
    }
  }

  /** In every run the pending reviews are the questions not yet answered. */
  lemma {:induction false} PendingAsAsked(facts: seq<Fact>, request: RequestId)
    ensures HoldsAsked(After(FRESH, facts), request, Asked(facts, request))
  {
    if facts != [] {
      var n := |facts| - 1;
      PendingAsAsked(facts[..n], request);
      if facts[n].OfReview? {
        HoldsNext(After(FRESH, facts[..n]), Asked(facts[..n], request), facts[n].reviewFact, request);
      }
    }
  }

  // ----- what one fact does to one item's summary -----

  /** One verdict more on the summary. */
  function Counted(summary: Summary, v: Verdict): Summary {
    Summary(summary.reviews + 1, summary.guardian + (if v.byGuardian then 1 else 0), summary.user + (if v.byGuardian then 0 else 1),
            Some(v.outcome), summary.additionalPermissions || v.additionalPermissions, summary.networkAccess || v.networkAccess)
  }

  function NextSummary(summary: Summary, verdict: seq<Verdict>, consumed: bool): Summary {
    if consumed then NO_REVIEWS else if verdict == [] then summary else Counted(summary, verdict[0])
  }

  lemma EmitSummary(s: State, r: Review, f: Finished, completedAt: nat, key: ItemKey)
    ensures SummaryAt(EmitReview(s, r, f, completedAt).state, key)
         == if SummaryKey(r) == Some(key)
            then Counted(SummaryAt(s, key), Verdict(f.reviewer.Guardian?, OutcomeOf(f), f.additionalPermissions, f.networkAccess))
            else SummaryAt(s, key)
  {
  }

  lemma UserOutcomeMeans(r: Review, f: ReviewFact)
    requires IsAnswer(f)
    ensures OutcomeOf(FinishedBy(r, User, UserResult(f))) == UserOutcome(f)
  {
  }

  lemma AnswerSummary(s: State, ask: ReviewFact, f: ReviewFact, key: ItemKey)
    requires IsAnswer(f) && IsQuestion(ask) && f.request in s.reviews && Holds(s.reviews[f.request], ask)
    ensures SummaryAt(IngestReview(s, f).state, key) == NextSummary(SummaryAt(s, key), Answered(ask, f, key), false)
  {
    var r := s.reviews[f.request];
    UserOutcomeMeans(r, f);
    var s1, finished := s.(reviews := s.reviews - {f.request}), FinishedBy(r, User, UserResult(f));
    assert IngestReview(s, f) == EmitReview(s1, r, finished, f.completedAt);
    EmitSummary(s1, r, finished, f.completedAt, key);
    assert SummaryAt(s1, key) == SummaryAt(s, key);
    AnswerCounts(r, ask, f, key);
  }

  lemma AnswerCounts(r: Review, ask: ReviewFact, f: ReviewFact, key: ItemKey)
    requires IsQuestion(ask) && Holds(r, ask)
    ensures Answered(ask, f, key)
         == if SummaryKey(r) == Some(key) then [Verdict(false, UserOutcome(f), r.additionalPermissions, r.networkAccess)] else []
  {
  }

  lemma GuardianCounts(f: ReviewFact, key: ItemKey)
    requires f.GuardianCompleted? && GuardianResult(f.verdict).Some? && f.startedAt >= 0 && f.finishedAt >= 0
    ensures var r := Review(f.thread, f.turn, f.target, GuardianSubject(f.action), f.startedAt, GuardianAdditional(f.action), GuardianNetwork(f.action));
            var finished := FinishedBy(r, Guardian, GuardianResult(f.verdict).value);
            GuardianSays(f, key)
            == if SummaryKey(r) == Some(key) then [Verdict(true, OutcomeOf(finished), r.additionalPermissions, r.networkAccess)] else []
  {
  }

  lemma GuardianSummary(s: State, f: ReviewFact, key: ItemKey)
    requires f.GuardianCompleted?
    ensures SummaryAt(IngestReview(s, f).state, key) == NextSummary(SummaryAt(s, key), GuardianSays(f, key), false)
  {
    if GuardianResult(f.verdict).Some? && f.startedAt >= 0 && f.finishedAt >= 0 {
      var r := Review(f.thread, f.turn, f.target, GuardianSubject(f.action), f.startedAt, GuardianAdditional(f.action), GuardianNetwork(f.action));
      var finished := FinishedBy(r, Guardian, GuardianResult(f.verdict).value);
      assert IngestReview(s, f) == EmitReview(s, r, finished, f.finishedAt);
      EmitSummary(s, r, finished, f.finishedAt, key);
      GuardianCounts(f, key);
    }
  }

  lemma ReviewFactSummary(facts: seq<Fact>, f: ReviewFact, key: ItemKey)
    ensures var s := After(FRESH, facts);
            SummaryAt(IngestReview(s, f).state, key) == NextSummary(SummaryAt(s, key), VerdictOf(facts, OfReview(f), key), false)
  {
    if f.GuardianCompleted? {
      GuardianSummary(After(FRESH, facts), f, key);
    } else {
      PendingAsAsked(facts, f.request);
      if IsAnswer(f) && Asked(facts, f.request).Some? {
        AnswerSummary(After(FRESH, facts), Asked(facts, f.request).value, f, key);
      }
    }
  }

  lemma ItemSteps(s: State, f: ItemFact, key: ItemKey)
    requires f.ItemCompleted?
    ensures var complete := Completes(OfItem(f), key) && key.turn in s.turns;
            var used := complete && key in s.started && f.at >= 0 && ContextOf(s, key.thread).Found?;
            && SummaryAt(IngestItem(s, f).state, key) == (if used then NO_REVIEWS else SummaryAt(s, key))
            && (key in IngestItem(s, f).state.started <==> key in s.started && !complete)
            && (key in IngestItem(s, f).state.started ==> IngestItem(s, f).state.started[key] == s.started[key])
  {
  }

  /** In every run an item's start time is held from its start to its completion. */
  lemma {:induction false} StartedAsSaid(facts: seq<Fact>, key: ItemKey)
    ensures var s := After(FRESH, facts);
            && (key in s.started <==> StartedAt(facts, key).Some?)
            && (key in s.started ==> StartedAt(facts, key) == Some(s.started[key]))
  {
    if facts != [] {
      var past, now := facts[..|facts| - 1], facts[|facts| - 1];
      StartedAsSaid(past, key);
      TurnsAsSaid(past, key.turn);
      match now {
        case OfItem(f) =>
          if f.ItemCompleted? {
            ItemSteps(After(FRESH, past), f, key);
          }
        case _ => assert After(FRESH, facts).started == After(FRESH, past).started;
      }
    }
  }

  lemma ItemFactSummary(facts: seq<Fact>, f: ItemFact, key: ItemKey)
    ensures var s := After(FRESH, facts);
            SummaryAt(IngestItem(s, f).state, key) == if Consumes(facts, OfItem(f), key) then NO_REVIEWS else SummaryAt(s, key)
  {
    if f.ItemCompleted? {
      ItemSteps(After(FRESH, facts), f, key);
      TurnsAsSaid(facts, key.turn);
      StartedAsSaid(facts, key);
      ContextAsSaid(facts, key.thread);
    }
  }

  lemma OtherFactsKeepSummaries(s: State, f: Fact)
    requires !f.OfReview? && !f.OfItem?
    ensures Ingest(s, f).state.summaries == s.summaries
  {
  }

  /** A fact adds its verdict to the summary of its item, or uses the summary up, or leaves every summary alone. */
  lemma SummaryAfter(facts: seq<Fact>, f: Fact, key: ItemKey)
    ensures var s := After(FRESH, facts);
            SummaryAt(Ingest(s, f).state, key) == NextSummary(SummaryAt(s, key), VerdictOf(facts, f, key), Consumes(facts, f, key))
    ensures |VerdictOf(facts, f, key)| <= 1
  {
    match f {
      case OfReview(r) => ReviewFactSummary(facts, r, key);
      case OfItem(i) => ItemFactSummary(facts, i, key);
      case _ => OtherFactsKeepSummaries(After(FRESH, facts), f);
    }
  }

  lemma CountedSummary(verdicts: seq<Verdict>, v: Verdict)
    ensures Counted(SummaryOf(verdicts), v) == SummaryOf(verdicts + [v])
  {
    FlatMapSnoc(ByGuardian, verdicts, v);
    FlatMapSnoc(ByUser, verdicts, v);
    var more := verdicts + [v];
    assert v in more;
    assert forall u :: u in verdicts ==> u in more;
  }

  lemma NextSummaryOf(verdicts: seq<Verdict>, next: seq<Verdict>, consumed: bool)
    requires |next| <= 1
    ensures NextSummary(SummaryOf(verdicts), next, consumed) == SummaryOf(if consumed then [] else verdicts + next)
  {
    if next == [] {
      assert verdicts + next == verdicts;
    } else {
      assert next == [next[0]];
      CountedSummary(verdicts, next[0]);
    }
  }

  /** In every run an item's summary is the tally of the verdicts given for it and not yet used up. */
  lemma {:induction false} SummaryDescribesReviews(facts: seq<Fact>, key: ItemKey)
    ensures SummaryAt(After(FRESH, facts), key) == SummaryOf(Verdicts(facts, key))
  {
    if facts != [] {
      var past, now := facts[..|facts| - 1], facts[|facts| - 1];
      SummaryDescribesReviews(past, key);
      SummaryAfter(past, now, key);
      NextSummaryOf(Verdicts(past, key), VerdictOf(past, now, key), Consumes(past, now, key));
    }
  }

  // ----- what is reported -----

  /** A search and a generated image are always done; the other tools say whether they still run. */
  predicate Done(item: Item) {
    match item.kind
    case WebSearch => true
    case ImageGeneration => true
    case _ => !item.inProgress
  }

  /** What an item fact reports, on the strength of the facts before it. */
  function ToolTold(facts: seq<Fact>, f: ItemFact): seq<Event> {
    var key := ItemKey(f.thread, f.turn, f.item.id);
    if Consumes(facts, OfItem(f), key) && Done(f.item)
    then [ToolEvent(key, f.item.kind, ClientSaid(facts, f.thread).value, StartedAt(facts, key).value, f.at, SummaryOf(Verdicts(facts, key)))]
    else []
  }

  lemma CompletionTold(s: State, f: ItemFact)
    ensures var key, c := ItemKey(f.thread, f.turn, f.item.id), ContextOf(s, f.thread);
            IngestItem(s, f).out
            == if f.ItemCompleted? && !f.item.kind.Untracked? && f.turn in s.turns && key in s.started && f.at >= 0 && c.Found? && Done(f.item)
               then [ToolEvent(key, f.item.kind, c.client, s.started[key], f.at, SummaryAt(s, key))] else []
  {
  }

  /** In every run a tool is reported exactly when it completes under all conditions, with its times and the tally of its verdicts. */
  lemma ToolEventsCarryTheirReviews(facts: seq<Fact>, f: ItemFact)
    ensures IngestItem(After(FRESH, facts), f).out == ToolTold(facts, f)
  {
    var key := ItemKey(f.thread, f.turn, f.item.id);
    CompletionTold(After(FRESH, facts), f);
    TurnsAsSaid(facts, f.turn);
    StartedAsSaid(facts, key);
    ContextAsSaid(facts, f.thread);
    SummaryDescribesReviews(facts, key);
  }

  /** No other fact reports a tool. */
  lemma OnlyCompletionsReportTools(facts: seq<Fact>, f: Fact, e: Event)
    requires e.ToolEvent? && e in Ingest(After(FRESH, facts), f).out
    ensures f.OfItem? && Consumes(facts, f, e.key) && ToolTold(facts, f.itemFact) == [e]
  {
    match f {
      case OfThread(t) => ThreadsTold(facts, t);
      case OfTurn(t) => TurnEventsTellFacts(facts, t);
      case OfReview(r) =>
      case OfItem(i) => ToolEventsCarryTheirReviews(facts, i);
    }
  }

  /** And uses the verdicts up, whether or not it is done. */
  lemma CompletionUsesVerdicts(facts: seq<Fact>, f: Fact, key: ItemKey)
    requires Consumes(facts, f, key)
    ensures Verdicts(facts + [f], key) == []
  {
    assert (facts + [f])[..|facts|] == facts;
  }

  /** A completion that is not tracked, not started, wrongly timed or without context keeps the verdicts for later. */
  lemma FailedCompletionKeepsReviews(facts: seq<Fact>, f: Fact, key: ItemKey)
    requires f.OfItem? && !Consumes(facts, f, key)
    ensures Verdicts(facts + [f], key) == Verdicts(facts, key)
    ensures SummaryAt(Ingest(After(FRESH, facts), f).state, key) == SummaryAt(After(FRESH, facts), key)
  {
    ItemFactSummary(facts, f.itemFact, key);
    assert (facts + [f])[..|facts|] == facts;
  }

  /** What was answered: the status of the review. */
  function StatusOf(f: ReviewFact): Status {
    match f
    case CommandApprovalAnswered(_, Decline, _) => Denied
    case CommandApprovalAnswered(_, ApplyNetworkPolicy(false), _) => Denied
    case CommandApprovalAnswered(_, Cancel, _) => Aborted
    case FileApprovalAnswered(_, DeclineFile, _) => Denied
    case FileApprovalAnswered(_, CancelFile, _) => Aborted
    case PermissionsAnswered(_, false, _, _) => Denied
    case ServerRequestAborted(_, _) => Aborted
    case GuardianCompleted(_, _, _, GuardianSaysDenied, _, _, _) => Denied
    case GuardianCompleted(_, _, _, GuardianTimedOut, _, _, _) => TimedOut
    case GuardianCompleted(_, _, _, GuardianSaysAborted, _, _, _) => Aborted
    case _ => Approved
  }

  /** And what the answer changes beyond this once. */
  function ResolutionOf(f: ReviewFact): Resolution {
    match f
    case CommandApprovalAnswered(_, AcceptForSession, _) => SessionApproval
    case CommandApprovalAnswered(_, AcceptWithExecpolicyAmendment, _) => ExecPolicyAmendment
    case CommandApprovalAnswered(_, ApplyNetworkPolicy(_), _) => NetworkPolicyAmendment
    case FileApprovalAnswered(_, AcceptFileForSession, _) => SessionApproval
    case PermissionsAnswered(_, true, true, _) => SessionApproval
    case _ => NoResolution
  }

  /** The one event about a review says what was asked, who answered and how, for the client of its thread if there is one. */
  ghost predicate ReviewTold(out: seq<Event>, question: ReviewFact, answer: ReviewFact, client: Option<Client>, completedAt: int) {
    match client
    case None => out == []
    case Some(c) =>
      && |out| == 1 && out[0].ReviewEvent? && out[0].client == c && out[0].completedAt == completedAt
      && Holds(out[0].review, question)
      && out[0].finished == Finished(if question.GuardianCompleted? then Guardian else User, StatusOf(answer), ResolutionOf(answer),
                                     out[0].review.additionalPermissions, out[0].review.networkAccess)
  }

  lemma UserResultMeans(f: ReviewFact)
    requires IsAnswer(f)
    ensures UserResult(f) == (StatusOf(f), ResolutionOf(f))
  {
  }

  lemma AnswerOut(s: State, f: ReviewFact)
    requires IsAnswer(f)
    ensures IngestReview(s, f).out
         == if f.request in s.reviews && ContextOf(s, s.reviews[f.request].thread).Found?
            then var r := s.reviews[f.request];
                 [ReviewEvent(r, Finished(User, StatusOf(f), ResolutionOf(f), r.additionalPermissions, r.networkAccess),
                              ContextOf(s, r.thread).client, f.completedAt)]
            else []
  {
    UserResultMeans(f);
  }

  /** In every run an answer to a question that waits is told with the question; any other answer is not. */
  lemma AnswersTold(facts: seq<Fact>, f: ReviewFact)
    requires IsAnswer(f)
    ensures var out := IngestReview(After(FRESH, facts), f).out;
            match Asked(facts, f.request)
            case Some(ask) => IsQuestion(ask) && ReviewTold(out, ask, f, ClientSaid(facts, ask.thread), f.completedAt)
            case None => out == []
  {
    PendingAsAsked(facts, f.request);
    AnswerOut(After(FRESH, facts), f);
    if Asked(facts, f.request).Some? {
      ContextAsSaid(facts, Asked(facts, f.request).value.thread);
    }
  }

  lemma GuardianHolds(f: ReviewFact)
    requires f.GuardianCompleted? && f.startedAt >= 0
    ensures var r := Review(f.thread, f.turn, f.target, GuardianSubject(f.action), f.startedAt, GuardianAdditional(f.action), GuardianNetwork(f.action));
            Holds(r, f)
    ensures f.verdict.InProgress? ==> GuardianResult(f.verdict) == None
    ensures !f.verdict.InProgress? ==> GuardianResult(f.verdict) == Some((StatusOf(f), ResolutionOf(f)))
  {
  }

  /** In every run the guardian's verdict is told, unless it is still open or its times are unusable. */
  lemma GuardianTold(facts: seq<Fact>, f: ReviewFact)
    requires f.GuardianCompleted?
    ensures var out := IngestReview(After(FRESH, facts), f).out;
            if f.verdict.InProgress? || f.startedAt < 0 || f.finishedAt < 0 then out == []
            else ReviewTold(out, f, f, ClientSaid(facts, f.thread), f.finishedAt)
  {
    ContextAsSaid(facts, f.thread);
    if f.startedAt >= 0 {
      GuardianHolds(f);
    }
  }
}
