/** The stages before retrieval: `apply_temporal_guard` of src/legal_chatbot/chat/policy.py
    and `_plan_retrieval` of src/legal_chatbot/chat/service.py, over an adversarial planner
    and anchor resolver; then the whole of `respond`. */
module RetrievalPlanning {
  import opened Wrappers
  import opened Sequences
  import opened ChatModels
  import opened ContextProjection
  import opened Prompt
  import opened GroundedChat

  const QUOTE := '"'
  const OR_SEPARATOR := " OR "

  datatype TemporalScope = NoScope | AsOf | CurrentEffect

  datatype ChatRequest = ChatRequest(question: string, scope: TemporalScope, retrievalQuery: Option<string>)

  /** What the planner may decompose a question into. */
  datatype Plan = Plan(anchors: seq<string>, phrases: seq<string>, terms: seq<string>)
  {
    function Parts(): seq<string> { phrases + terms }
  }

  /** The phrase lists and patterns of the source: which questions ask for a point in time,
      which plans are safe for a question, and which texts name another legal identity. */
  datatype Lexicon = Lexicon(
    asOf: string -> bool, current: string -> bool, safe: (Plan, string) -> bool, drifts: (string, string) -> bool)

  datatype PlannerSettings = PlannerSettings(enabled: bool, maxInput: nat, maxQueries: nat)

  /** The optional ports. A planner that returns no plan returns None; a resolver that does
      not resolve every mention returns something malformed. */
  datatype Planners = Planners(
    plan: Option<string -> PortValue<Option<Plan>>>, anchors: Option<seq<string> -> PortValue<seq<Id>>>)

  datatype PlannerCall = AskPlanner(question: string) | ResolveAnchors(mentions: seq<string>)

  datatype Expansion = Expansion(query: Option<string>, documents: seq<Id>)

  const NO_EXPANSION := Expansion(None, [])

  datatype RetrievalRequest = RetrievalRequest(query: string, expansion: Expansion, topK: nat, scope: TemporalScope)

  // ----- the temporal guard -----

  /** Explicit intent stands; otherwise the phrases decide. */
  function EffectiveScope(request: ChatRequest, lexicon: Lexicon): TemporalScope {
    if !request.scope.NoScope? then request.scope
    else if lexicon.asOf(request.question) then AsOf
    else if lexicon.current(request.question) then CurrentEffect
    else NoScope
  }

  // ----- the expansion -----

  predicate Quotable(part: string) {
    forall i :: 0 <= i < |part| ==> part[i] != QUOTE && part[i] != '\\'
  }

  function Quoted(part: string): string {
    [QUOTE] + part + [QUOTE]
  }

  /** _build_expansion_query */
  function ExpansionQuery(plan: Plan, question: string, lexicon: Lexicon, settings: PlannerSettings): Option<string> {
    var parts := plan.Parts();
    var plain := Join(" ", parts);
    if settings.maxQueries < 2 || parts == [] || exists part :: part in parts && !Quotable(part) then None
    else if plain == "" || plain == question || lexicon.drifts(plain, question) then None
    else Some(Join(OR_SEPARATOR, Map(Quoted, parts)))
  }

  /** _resolve_anchor_documents */
  function AnchorDocuments(plan: Plan, planners: Planners): Option<seq<Id>> {
    if plan.anchors == [] then Some([])
    else if planners.anchors.None? then None
    else match planners.anchors.value(plan.anchors)
      case Returned(ids) => if ids != [] && Distinct(ids) then Some(ids) else None
      case _ => None
  }

  /** The planner is asked at all: no temporal intent, enabled, and within its bounds. */
  predicate MayPlan(request: ChatRequest, planners: Planners, lexicon: Lexicon, settings: PlannerSettings) {
    && EffectiveScope(request, lexicon).NoScope? && settings.enabled && planners.plan.Some?
    && |request.question| <= settings.maxInput && settings.maxQueries >= 2
  }

  function AcceptedPlan(request: ChatRequest, planners: Planners, lexicon: Lexicon): Option<Plan>
    requires planners.plan.Some?
  {
    match planners.plan.value(request.question)
    case Returned(Some(plan)) => if lexicon.safe(plan, request.question) then Some(plan) else None
    case _ => None
  }

  function Planned(request: ChatRequest, planners: Planners, lexicon: Lexicon, settings: PlannerSettings): Expansion {
    if !MayPlan(request, planners, lexicon, settings) then NO_EXPANSION
    else match AcceptedPlan(request, planners, lexicon)
      case None => NO_EXPANSION
      case Some(plan) =>
        match (AnchorDocuments(plan, planners), ExpansionQuery(plan, request.question, lexicon, settings))
        case (Some(ids), Some(query)) => Expansion(Some(query), ids)
        case _ => NO_EXPANSION
  }

  function PlanningCalls(request: ChatRequest, planners: Planners, lexicon: Lexicon, settings: PlannerSettings): seq<PlannerCall> {
    if !MayPlan(request, planners, lexicon, settings) then []
    else match AcceptedPlan(request, planners, lexicon)
      case None => [AskPlanner(request.question)]
      case Some(plan) =>
        [AskPlanner(request.question)]
        + (if plan.anchors != [] && planners.anchors.Some? then [ResolveAnchors(plan.anchors)] else [])
  }

  /** _plan_retrieval: one validated optional expansion, only after the temporal guard. */
  method PlanRetrieval(request: ChatRequest, planners: Planners, lexicon: Lexicon, settings: PlannerSettings)
    returns (expansion: Expansion, calls: seq<PlannerCall>)
    ensures expansion == Planned(request, planners, lexicon, settings)
    ensures calls == PlanningCalls(request, planners, lexicon, settings)
  {
    hide Join, Map, Distinct;
    calls := [];
    if !EffectiveScope(request, lexicon).NoScope? {
      return NO_EXPANSION, calls;
    }
    if !settings.enabled || planners.plan.None? {
      return NO_EXPANSION, calls;
    }
    if |request.question| > settings.maxInput || settings.maxQueries < 2 {
      return NO_EXPANSION, calls;
    }
    calls := [AskPlanner(request.question)];
    var value := planners.plan.value(request.question);
    if !value.Returned? || value.value.None? || !lexicon.safe(value.value.value, request.question) {
      return NO_EXPANSION, calls;
    }
    var plan := value.value.value;
    var documents: seq<Id> := [];
    if plan.anchors != [] {
      if planners.anchors.None? {
        return NO_EXPANSION, calls;
      }
      calls := calls + [ResolveAnchors(plan.anchors)];
      var resolved := planners.anchors.value(plan.anchors);
      if !resolved.Returned? || resolved.value == [] || !Distinct(resolved.value) {
        return NO_EXPANSION, calls;
      }
      documents := resolved.value;
    }
    var query := ExpansionQuery(plan, request.question, lexicon, settings);
    if query.None? {
      return NO_EXPANSION, calls;
    }
    expansion := Expansion(query, documents);
  }

  // ----- reading an expansion back -----

  /** The texts between quotation marks. */
  function Phrases(s: string): seq<string>
    decreases |s|
  {
    if s == "" then []
    else if s[0] != QUOTE then Phrases(s[1..])
    else
      var k := IndexWhere(IsQuote, s[1..]);
      if k == |s| - 1 then [] else [s[1..k + 1]] + Phrases(s[k + 2..])
  }

  predicate IsQuote(c: char) {
    c == QUOTE
  }

  lemma QuoteEnds(part: string, rest: string)
    requires Quotable(part)
    ensures IndexWhere(IsQuote, part + [QUOTE] + rest) == |part|
  {
    var s := part + [QUOTE] + rest;
    assert s[|part|] == QUOTE && forall i :: 0 <= i < |part| ==> s[i] == part[i];
  }

  lemma PhrasesOfQuoted(part: string, rest: string)
    requires Quotable(part)
    ensures Phrases(Quoted(part) + rest) == [part] + Phrases(rest)
  {
    var s := Quoted(part) + rest;
    QuoteEnds(part, rest);
    assert s[1..] == part + [QUOTE] + rest;
    assert s[1..|part| + 1] == part && s[|part| + 2..] == rest;
  }

  lemma PhrasesSkipChar(c: char, rest: string)
    requires c != QUOTE
    ensures Phrases([c] + rest) == Phrases(rest)
  {
    assert ([c] + rest)[1..] == rest;
  }

  lemma PhrasesSkip(rest: string)
    ensures Phrases(OR_SEPARATOR + rest) == Phrases(rest)
  {
    assert OR_SEPARATOR + rest == [' '] + (['O'] + (['R'] + ([' '] + rest)));
    hide Phrases;
    PhrasesSkipChar(' ', rest);
    PhrasesSkipChar('R', [' '] + rest);
    PhrasesSkipChar('O', ['R'] + ([' '] + rest));
    PhrasesSkipChar(' ', ['O'] + (['R'] + ([' '] + rest)));
  }

  lemma {:induction false} ExpansionReadsBack(parts: seq<string>)
    requires forall part :: part in parts ==> Quotable(part)
    ensures Phrases(Join(OR_SEPARATOR, Map(Quoted, parts))) == parts
  {
    if |parts| == 1 {
      PhrasesOfQuoted(parts[0], "");
      assert Quoted(parts[0]) + "" == Quoted(parts[0]);
    } else if |parts| > 1 {
      var rest := Join(OR_SEPARATOR, Map(Quoted, parts[1..]));
      assert Map(Quoted, parts) == [Quoted(parts[0])] + Map(Quoted, parts[1..]);
      JoinConcat(OR_SEPARATOR, [Quoted(parts[0])], Map(Quoted, parts[1..]));
      ConcatAssociates(Quoted(parts[0]), OR_SEPARATOR, rest);
      hide Quoted, Join;
      PhrasesOfQuoted(parts[0], OR_SEPARATOR + rest);
      PhrasesSkip(rest);
      ExpansionReadsBack(parts[1..]);
    }
  }

  /** The query that is built is exactly a disjunction of the plan's own phrases and terms:
      nothing the planner returns becomes query syntax. */
  lemma ExpansionIsThePlan(plan: Plan, question: string, lexicon: Lexicon, settings: PlannerSettings)
    requires ExpansionQuery(plan, question, lexicon, settings).Some?
    ensures Phrases(ExpansionQuery(plan, question, lexicon, settings).value) == plan.Parts()
  {
    hide Join, Map, Phrases, Quotable;
    ExpansionReadsBack(plan.Parts());
  }

  /** No part can leave its quotation marks; and together they are more than the question, and
      name no other legal identity. */
  predicate Expandable(plan: Plan, question: string, lexicon: Lexicon) {
    var plain := Join(" ", plan.phrases + plan.terms);
    && plan.phrases + plan.terms != []
    && (forall part :: part in plan.phrases + plan.terms ==> '"' !in part && '\\' !in part)
    && plain != "" && plain != question && !lexicon.drifts(plain, question)
  }

  /** The resolver finds one document or more for the anchors, each once, if there are any. */
  predicate AnchorsResolve(plan: Plan, planners: Planners) {
    plan.anchors != [] ==>
      && planners.anchors.Some? && planners.anchors.value(plan.anchors).Returned?
      && var ids := planners.anchors.value(plan.anchors).value; ids != [] && Distinct(ids)
  }

  /** The intent that retrieval is asked for: the explicit one, or what the phrases say. */
  predicate ScopeIs(scope: TemporalScope, request: ChatRequest, lexicon: Lexicon) {
    if !request.scope.NoScope? then scope == request.scope
    else
      && (scope.AsOf? <==> lexicon.asOf(request.question))
      && (scope.CurrentEffect? <==> !lexicon.asOf(request.question) && lexicon.current(request.question))
  }

  lemma QuotableIff(part: string)
    ensures Quotable(part) <==> '"' !in part && '\\' !in part
  {
    if !Quotable(part) {
      var i :| 0 <= i < |part| && (part[i] == QUOTE || part[i] == '\\');
      assert part[i] in part;
    }
  }

  lemma QueryIff(plan: Plan, question: string, lexicon: Lexicon, settings: PlannerSettings)
    ensures ExpansionQuery(plan, question, lexicon, settings).Some? <==> settings.maxQueries >= 2 && Expandable(plan, question, lexicon)
  {
    hide Join, Map;
    forall part ensures Quotable(part) <==> '"' !in part && '\\' !in part {
      QuotableIff(part);
    }
  }

  /** A plan was asked for, within the bounds and without temporal intent, and came back safe. */
  predicate PlansSafely(request: ChatRequest, planners: Planners, lexicon: Lexicon, settings: PlannerSettings, plan: Plan) {
    && settings.enabled && settings.maxQueries >= 2 && |request.question| <= settings.maxInput
    && ScopeIs(NoScope, request, lexicon) && planners.plan.Some?
    && planners.plan.value(request.question) == Returned(Some(plan)) && lexicon.safe(plan, request.question)
  }

  /** The request is expanded exactly when a safe plan came back that can be quoted and whose
      anchors resolve; and the documents are then those of its anchors. */
  lemma ExpandsIff(request: ChatRequest, planners: Planners, lexicon: Lexicon, settings: PlannerSettings)
    ensures var expansion := Planned(request, planners, lexicon, settings);
      && (expansion.query.Some? <==>
            exists plan :: PlansSafely(request, planners, lexicon, settings, plan)
              && Expandable(plan, request.question, lexicon) && AnchorsResolve(plan, planners))
      && (expansion.query.None? ==> expansion.documents == [])
      && (forall plan :: expansion.query.Some? && PlansSafely(request, planners, lexicon, settings, plan) ==>
            if plan.anchors == [] then expansion.documents == []
            else planners.anchors.Some? && planners.anchors.value(plan.anchors) == Returned(expansion.documents))
  {
    hide Join, Map, Expandable, ExpansionQuery, Distinct;
    if MayPlan(request, planners, lexicon, settings) && AcceptedPlan(request, planners, lexicon).Some? {
      var plan := AcceptedPlan(request, planners, lexicon).value;
      QueryIff(plan, request.question, lexicon, settings);
      assert PlansSafely(request, planners, lexicon, settings, plan);
    }
  }

  // ----- the whole request -----

  /** The sole retrieval request, from the user's text and the guarded intent. */
  function RequestFor(request: ChatRequest, planners: Planners, lexicon: Lexicon, settings: PlannerSettings, topK: nat): RetrievalRequest {
    RetrievalRequest(
      if request.retrievalQuery.Some? && request.retrievalQuery.value != "" then request.retrievalQuery.value else request.question,
      Planned(request, planners, lexicon, settings), topK, EffectiveScope(request, lexicon))
  }

  /** What the retrieval port, which may look at everything it is asked, returns. */
  function After(ports: Ports, retrieve: RetrievalRequest -> PortValue<Retrieval>, asked: RetrievalRequest): Ports {
    ports.(retrieve := retrieve(asked))
  }

  /** respond: guard, plan, retrieve once, and the pipeline from there. */
  method RespondToRequest(request: ChatRequest, planners: Planners, lexicon: Lexicon, planning: PlannerSettings,
                          retrieve: RetrievalRequest -> PortValue<Retrieval>, ports: Ports,
                          context: Option<Context>, wording: Wording, settings: ChatSettings)
    returns (result: ChatResult, planned: seq<PlannerCall>, asked: RetrievalRequest, calls: seq<PortCall>)
    ensures planned == PlanningCalls(request, planners, lexicon, planning)
    ensures asked == RequestFor(request, planners, lexicon, planning, settings.prompt.maxCitations)
    ensures var question := Question(request.question, context, wording);
      && result == Responded(question, After(ports, retrieve, asked), settings)
      && CallsAreGuarded(question, After(ports, retrieve, asked), settings, calls)
  {
    var expansion: Expansion;
    expansion, planned := PlanRetrieval(request, planners, lexicon, planning);
    var own := request.retrievalQuery.Some? && request.retrievalQuery.value != "";
    asked := RetrievalRequest(
      if own then request.retrievalQuery.value else request.question,
      expansion, settings.prompt.maxCitations, EffectiveScope(request, lexicon));
    result, calls := Respond(Question(request.question, context, wording), After(ports, retrieve, asked), settings);
  }

  /** The whole request, whatever the ports do. No planner for temporal intent, and at most one
      planner, one retrieval and one provider call, in this order. The retrieval is asked for
      the user's own text and the guarded scope, expanded at most by a disjunction that reads
      back to exactly a safe plan's phrases. And an answer cites exactly the candidates that
      this retrieval returned, in order. */
  lemma RequestIsGuarded(request: ChatRequest, planners: Planners, lexicon: Lexicon, planning: PlannerSettings,
                         retrieve: RetrievalRequest -> PortValue<Retrieval>, ports: Ports, question: Question,
                         settings: ChatSettings, calls: seq<PortCall>)
    requires var asked := RequestFor(request, planners, lexicon, planning, settings.prompt.maxCitations);
      CallsAreGuarded(question, After(ports, retrieve, asked), settings, calls)
    ensures var asked := RequestFor(request, planners, lexicon, planning, settings.prompt.maxCitations);
      var planned := PlanningCalls(request, planners, lexicon, planning);
      var result := Responded(question, After(ports, retrieve, asked), settings);
      && ScopeIs(asked.scope, request, lexicon)
      && (!asked.scope.NoScope? ==> planned == [] && asked.expansion == NO_EXPANSION)
      && (if request.retrievalQuery.None? || request.retrievalQuery == Some("") then asked.query == request.question
          else Some(asked.query) == request.retrievalQuery)
      && asked.topK == settings.prompt.maxCitations
      && (forall i :: 0 <= i < |planned| && planned[i].AskPlanner? ==> i == 0)
      && Orderly(calls) && calls != [] && calls[0] == Retrieve
      && (asked.expansion.query.Some? ==>
            && planners.plan.Some? && AcceptedPlan(request, planners, lexicon).Some?
            && Phrases(asked.expansion.query.value) == AcceptedPlan(request, planners, lexicon).value.Parts())
      && (result.outcome.Answer? ==>
            && retrieve(asked).Returned?
            && CitationIds(result.citations) == Map(RetrievedCitation, retrieve(asked).value.candidates))
  {
    hide Join, Map, Phrases, Quotable, Responded, Orderly, ExpansionQuery, Distinct, EligibleCalls;
    var asked := RequestFor(request, planners, lexicon, planning, settings.prompt.maxCitations);
    ProviderIsGuarded(question, After(ports, retrieve, asked), settings, calls);
    AnswersExactlyWhenGrounded(question, After(ports, retrieve, asked), settings);
    StartsWithRetrieval(question, After(ports, retrieve, asked), settings, calls);
    if asked.expansion.query.Some? {
      ExpansionIsThePlan(AcceptedPlan(request, planners, lexicon).value, request.question, lexicon, planning);
    }
  }

  lemma StartsWithRetrieval(question: Question, ports: Ports, settings: ChatSettings, calls: seq<PortCall>)
    requires CallsAreGuarded(question, ports, settings, calls)
    ensures calls != [] && calls[0] == Retrieve
  {
    hide PromptFor, AcceptedEvidence, AcceptedGeneration, AcceptedAnswer, AcceptedRetrieval, Passing, ResolveCalls;
  }
}
