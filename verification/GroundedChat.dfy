/** The fail-closed answer pipeline over adversarial ports: `GroundedChatService.respond`
    of src/legal_chatbot/chat/service.py.

    A port may raise, return something else than its contract, or return any value of its
    contract. Each port is called at most once per request, the resolver once for each
    citation, so ports that remember earlier calls add no further behaviour. */
module GroundedChat {
  import opened Wrappers
  import opened Sequences
  import opened ChatModels
  import opened ConversationModels
  import opened ConversationStore
  import opened ConversationFacts
  import opened ContextProjection
  import opened Json
  import opened Prompt
  import opened Encoding

  const EXCERPT_MAX_CHARS := 2_000
  const TOTAL_EVIDENCE_MAX_CHARS := 6_000
  const GENERATION_MAX_CHARS := 1_048_576

  datatype PortValue<+T> = Raised | Malformed | Returned(value: T)

  datatype Decision = EvidenceAvailable | NoEvidence | TemporalUnsupported | BrokenChain

  datatype Retrieved = Retrieved(citationId: Id, chunkId: Id)

  function RetrievedCitation(c: Retrieved): Id { c.citationId }

  function RetrievedChunk(c: Retrieved): Id { c.chunkId }

  /** `structured` stands for the prompt of the quality adapter, if it supplied its context:
      any text made of the evidence, or a failure. */
  datatype Retrieval = Retrieval(
    runId: Id, candidates: seq<Retrieved>, decision: Decision, structured: Option<Evidence -> Option<string>>)
  {
    predicate Valid() {
      && Distinct(Map(RetrievedCitation, candidates)) && Distinct(Map(RetrievedChunk, candidates))
      && (decision.EvidenceAvailable? <==> candidates != [])
    }
  }

  datatype Excerpt = Excerpt(citation: Citation, text: string)

  function CitationOf(e: Excerpt): Citation { e.citation }

  function TextOf(e: Excerpt): string { e.text }

  function ChunkOf(c: Citation): Id { c.chunkId }

  datatype Evidence = Evidence(runId: Id, excerpts: seq<Excerpt>)
  {
    function Citations(): seq<Citation> { Map(CitationOf, excerpts) }

    function Texts(): seq<string> { Map(TextOf, excerpts) }

    predicate Valid() {
      && 1 <= |excerpts| <= MAX_CITATIONS
      && Distinct(CitationIds(Citations()))
      && (forall e :: e in excerpts ==> e.citation.runId == runId && 1 <= |e.text| <= EXCERPT_MAX_CHARS)
      && TotalLength(Texts()) <= TOTAL_EVIDENCE_MAX_CHARS
    }
  }

  datatype Generation = Generation(text: string, provider: string, model: string, requestId: Option<string>)
  {
    predicate Valid() {
      && 1 <= |text| <= GENERATION_MAX_CHARS
      && ValidName(Some(provider)) && ValidName(Some(model)) && ValidRequestId(requestId)
    }
  }

  /** Provider prose: nonblank, bounded, no control but line breaks and tabs. */
  predicate ValidAnswer(text: string) {
    && 1 <= |text| <= ANSWER_MAX_CHARS
    && forall i :: 0 <= i < |text| ==> !IsControl(text[i]) || text[i] == '\n' || text[i] == '\r' || text[i] == '\t'
  }

  /** `permits` stands for the content filters of an answer: URL schemes, identifiers and
      evidence tokens. */
  datatype ChatSettingsData = ChatSettingsData(
    prompt: PromptSettings, answerMax: nat, maxResponseBytes: nat, permits: string -> bool)
  {
    predicate Valid() {
      1 <= prompt.maxCitations <= MAX_CITATIONS && 1 <= answerMax <= ANSWER_MAX_CHARS
    }
  }

  type ChatSettings = s: ChatSettingsData | s.Valid()
    witness ChatSettingsData(PromptSettings(4_000, 3, 2_000, 6_000, 12_000, 1_000), ANSWER_MAX_CHARS, 65_536, text => true)

  datatype Question = Question(text: string, context: Option<Context>, wording: Wording)

  datatype Ports = Ports(
    retrieve: PortValue<Retrieval>,
    load: PortValue<Evidence>,
    generate: PortValue<Generation>,
    parse: PortValue<string>,
    resolve: Id -> PortValue<Citation>)

  datatype PortCall =
    | Retrieve
    | Load(runId: Id, ids: seq<Id>)
    | Generate(prompt: string)
    | Parse(text: string)
    | Resolve(citationId: Id, run: Id)

  // ----- what each stage accepts -----

  function AcceptedRetrieval(ports: Ports, settings: ChatSettings): Option<Retrieval> {
    match ports.retrieve
    case Returned(r) => if r.Valid() && |r.candidates| <= settings.prompt.maxCitations then Some(r) else None
    case _ => None
  }

  /** Evidence of exactly the retrieved run and candidates, in their order. */
  predicate Matches(evidence: Evidence, retrieval: Retrieval) {
    && evidence.runId == retrieval.runId
    && CitationIds(evidence.Citations()) == Map(RetrievedCitation, retrieval.candidates)
    && Map(ChunkOf, evidence.Citations()) == Map(RetrievedChunk, retrieval.candidates)
  }

  function AcceptedEvidence(ports: Ports, retrieval: Retrieval): Option<Evidence> {
    match ports.load
    case Returned(e) => if e.Valid() && Matches(e, retrieval) then Some(e) else None
    case _ => None
  }

  function PromptFor(question: Question, retrieval: Retrieval, evidence: Evidence, settings: ChatSettings): Option<string> {
    if retrieval.structured.Some? then retrieval.structured.value(evidence)
    else match BuildGroundedPrompt(question.text, evidence.Texts(), question.context, question.wording, settings.prompt)
    case Ok(prompt) => Some(prompt)
    case Err(_) => None
  }

  function AcceptedGeneration(ports: Ports, settings: ChatSettings): Option<Generation> {
    match ports.generate
    case Returned(g) => if g.Valid() && |Utf8(g.text)| <= settings.maxResponseBytes then Some(g) else None
    case _ => None
  }

  function AcceptedAnswer(ports: Ports, settings: ChatSettings): Option<string> {
    match ports.parse
    case Returned(text) => if ValidAnswer(text) && settings.permits(text) && |text| <= settings.answerMax then Some(text) else None
    case _ => None
  }

  /** Every immutable identity field agrees; display metadata may differ. */
  predicate SameIdentity(a: Citation, b: Citation) {
    && a.citationId == b.citationId && a.runId == b.runId && a.chunkId == b.chunkId && a.versionId == b.versionId
    && a.documentId == b.documentId && a.provenanceId == b.provenanceId
    && a.trustMode == b.trustMode && a.trustLabel == b.trustLabel
  }

  predicate StillResolves(ports: Ports, excerpt: Excerpt) {
    var value := ports.resolve(excerpt.citation.citationId);
    value.Returned? && SameIdentity(value.value, excerpt.citation)
  }

  /** How many of the leading citations re-resolve to the same identity. */
  function Passing(ports: Ports, excerpts: seq<Excerpt>): (n: nat)
    ensures n <= |excerpts|
    ensures n < |excerpts| ==> !StillResolves(ports, excerpts[n])
    ensures forall i :: 0 <= i < n ==> StillResolves(ports, excerpts[i])
  {
    if excerpts == [] || !StillResolves(ports, excerpts[0]) then 0 else 1 + Passing(ports, excerpts[1..])
  }

  function Reresolved(ports: Ports, excerpts: seq<Excerpt>): seq<Citation>
    requires Passing(ports, excerpts) == |excerpts|
  {
    seq(|excerpts|, i requires 0 <= i < |excerpts| => ports.resolve(excerpts[i].citation.citationId).value)
  }

  // ----- the result -----

  function Fallback(decision: Decision, runId: Id): ChatResult {
    match decision
    case NoEvidence => ChatResult(Clarification, NoResults, NO_RESULTS_CLARIFICATION_TEXT, Some(runId), [], None, None, None)
    case TemporalUnsupported => FixedRefusal(UnsupportedTemporalScope, Some(runId))
    case _ => FixedRefusal(InvalidEvidenceChain, Some(runId))
  }

  /** What the first stage that does not accept makes of the request. */
  function Responded(question: Question, ports: Ports, settings: ChatSettings): ChatResult {
    match AcceptedRetrieval(ports, settings)
    case None => FixedRefusal(RetrievalFailure, None)
    case Some(retrieval) =>
      var run := Some(retrieval.runId);
      if !retrieval.decision.EvidenceAvailable? then Fallback(retrieval.decision, retrieval.runId)
      else match AcceptedEvidence(ports, retrieval)
        case None => FixedRefusal(GroundingFailure, run)
        case Some(evidence) =>
          match PromptFor(question, retrieval, evidence, settings)
          case None => FixedRefusal(GroundingFailure, run)
          case Some(_) =>
            if ports.generate.Raised? then FixedRefusal(ProviderFailure, run)
            else match (AcceptedGeneration(ports, settings), AcceptedAnswer(ports, settings))
              case (Some(generation), Some(answer)) =>
                if Passing(ports, evidence.excerpts) < |evidence.excerpts| then FixedRefusal(CitationRevalidationFailure, run)
                else ChatResult(Answer, AnswerGrounded, answer, run, Reresolved(ports, evidence.excerpts),
                       Some(generation.provider), Some(generation.model), generation.requestId)
              case _ => FixedRefusal(InvalidProviderOutput, run)
  }

  /** The pipeline, one port after the other; every port call is recorded. */
  method Respond(question: Question, ports: Ports, settings: ChatSettings) returns (result: ChatResult, calls: seq<PortCall>)
    ensures result == Responded(question, ports, settings)
    ensures CallsAreGuarded(question, ports, settings, calls)
  {
    hide ChatSettingsData.Valid, Retrieval.Valid, Evidence.Valid, Generation.Valid, BuildGroundedPrompt, Matches;
    hide ValidAnswer, Utf8, RefusalText, Passing, Reresolved, ResolveCalls, StillResolves;
    calls := [Retrieve];
    if !ports.retrieve.Returned? {
      return FixedRefusal(RetrievalFailure, None), calls;
    }
    var retrieval := ports.retrieve.value;
    if !retrieval.Valid() || |retrieval.candidates| > settings.prompt.maxCitations {
      return FixedRefusal(RetrievalFailure, None), calls;
    }
    var run := Some(retrieval.runId);
    if retrieval.decision.NoEvidence? {
      return ChatResult(Clarification, NoResults, NO_RESULTS_CLARIFICATION_TEXT, run, [], None, None, None), calls;
    }
    if retrieval.decision.TemporalUnsupported? {
      return FixedRefusal(UnsupportedTemporalScope, run), calls;
    }
    if retrieval.decision.BrokenChain? {
      return FixedRefusal(InvalidEvidenceChain, run), calls;
    }
    calls := calls + [Load(retrieval.runId, Map(RetrievedCitation, retrieval.candidates))];
    if !ports.load.Returned? || !ports.load.value.Valid() || !Matches(ports.load.value, retrieval) {
      return FixedRefusal(GroundingFailure, run), calls;
    }
    var evidence := ports.load.value;
    var prompt := PromptFor(question, retrieval, evidence, settings);
    if prompt.None? {
      return FixedRefusal(GroundingFailure, run), calls;
    }
    calls := calls + [Generate(prompt.value)];
    if ports.generate.Raised? {
      return FixedRefusal(ProviderFailure, run), calls;
    }
    if ports.generate.Malformed? || !ports.generate.value.Valid() {
      return FixedRefusal(InvalidProviderOutput, run), calls;
    }
    var generation := ports.generate.value;
    if |Utf8(generation.text)| > settings.maxResponseBytes {
      return FixedRefusal(InvalidProviderOutput, run), calls;
    }
    calls := calls + [Parse(generation.text)];
    if !ports.parse.Returned? || !ValidAnswer(ports.parse.value) || !settings.permits(ports.parse.value)
      || |ports.parse.value| > settings.answerMax {
      return FixedRefusal(InvalidProviderOutput, run), calls;
    }
    var answer := ports.parse.value;
    assert evidence.runId == retrieval.runId by { MatchedRun(evidence, retrieval); }
    var citations, asked := ReresolveCitations(ports, evidence);
    calls := calls + asked;
    if citations.None? {
      return FixedRefusal(CitationRevalidationFailure, run), calls;
    }
    result := ChatResult(Answer, AnswerGrounded, answer, run, citations.value, Some(generation.provider), Some(generation.model), generation.requestId);
  }

  /** _reresolve_citations: each citation once, in order, until one has drifted. */
  method ReresolveCitations(ports: Ports, evidence: Evidence) returns (citations: Option<seq<Citation>>, asked: seq<PortCall>)
    ensures var passing := Passing(ports, evidence.excerpts);
      && asked == ResolveCalls(evidence, if passing < |evidence.excerpts| then passing + 1 else passing)
      && (citations.Some? <==> passing == |evidence.excerpts|)
      && (citations.Some? ==> citations.value == Reresolved(ports, evidence.excerpts))
  {
    asked := [];
    var resolved: seq<Citation> := [];
    for i := 0 to |evidence.excerpts|
      invariant |resolved| == i <= Passing(ports, evidence.excerpts)
      invariant forall k :: 0 <= k < i ==> resolved[k] == ports.resolve(evidence.excerpts[k].citation.citationId).value
      invariant asked == ResolveCalls(evidence, i)
    {
      var expected := evidence.excerpts[i].citation;
      asked := asked + [Resolve(expected.citationId, evidence.runId)];
      assert asked == ResolveCalls(evidence, i + 1);
      var value := ports.resolve(expected.citationId);
      if !value.Returned? || !SameIdentity(value.value, expected) {
        return None, asked;
      }
      resolved := resolved + [value.value];
    }
    assert resolved == Reresolved(ports, evidence.excerpts);
    citations := Some(resolved);
  }

  lemma MatchedRun(evidence: Evidence, retrieval: Retrieval)
    requires Matches(evidence, retrieval)
    ensures evidence.runId == retrieval.runId
  {
  }

  // ----- the calls -----

  function UpToParse(retrieval: Retrieval, prompt: string, generation: Generation): seq<PortCall> {
    [Retrieve, Load(retrieval.runId, Map(RetrievedCitation, retrieval.candidates)), Generate(prompt), Parse(generation.text)]
  }

  function ResolveCalls(evidence: Evidence, n: nat): seq<PortCall>
    requires n <= |evidence.excerpts|
  {
    seq(n, i requires 0 <= i < n => Resolve(evidence.excerpts[i].citation.citationId, evidence.runId))
  }

  /** The calls made for an eligible request: up to the first stage that does not accept;
      the resolver is asked for each citation in order up to the first that fails. */
  function EligibleCalls(question: Question, ports: Ports, settings: ChatSettings, retrieval: Retrieval): seq<PortCall> {
    var loaded := [Retrieve, Load(retrieval.runId, Map(RetrievedCitation, retrieval.candidates))];
    match AcceptedEvidence(ports, retrieval)
    case None => loaded
    case Some(evidence) =>
      match PromptFor(question, retrieval, evidence, settings)
      case None => loaded
      case Some(prompt) =>
        match AcceptedGeneration(ports, settings)
        case None => loaded + [Generate(prompt)]
        case Some(generation) =>
          var passing := Passing(ports, evidence.excerpts);
          var asked := if passing < |evidence.excerpts| then passing + 1 else passing;
          UpToParse(retrieval, prompt, generation) + (if AcceptedAnswer(ports, settings).Some? then ResolveCalls(evidence, asked) else [])
  }

  predicate CallsAreGuarded(question: Question, ports: Ports, settings: ChatSettings, calls: seq<PortCall>) {
    match AcceptedRetrieval(ports, settings)
    case None => calls == [Retrieve]
    case Some(retrieval) =>
      calls == if retrieval.decision.EvidenceAvailable? then EligibleCalls(question, ports, settings, retrieval) else [Retrieve]
  }

  /** No call is made twice; the provider is asked third and the resolver after the parser. */
  predicate Orderly(calls: seq<PortCall>) {
    && (forall i, j :: 0 <= i < j < |calls| ==> calls[i] != calls[j])
    && (forall i :: 0 <= i < |calls| && calls[i].Generate? ==> i == 2 && calls[0] == Retrieve && calls[1].Load?)
    && (forall i :: 0 <= i < |calls| && calls[i].Resolve? ==> i >= 4 && calls[2].Generate? && calls[3].Parse?)
  }

  lemma FullCallsAreOrderly(retrieval: Retrieval, prompt: string, generation: Generation, evidence: Evidence, n: nat)
    requires evidence.Valid() && n <= |evidence.excerpts|
    ensures Orderly(UpToParse(retrieval, prompt, generation) + ResolveCalls(evidence, n))
  {
    EvidenceIdsDiffer(evidence);
    hide Evidence.Valid;
    var calls := UpToParse(retrieval, prompt, generation) + ResolveCalls(evidence, n);
    assert forall i :: 4 <= i < |calls| ==> calls[i] == Resolve(evidence.excerpts[i - 4].citation.citationId, evidence.runId);
  }

  /** The provider is called at most once, and only with the prompt built from evidence that
      matches the candidates in order; no citation is resolved twice, and none before. */
  lemma ProviderIsGuarded(question: Question, ports: Ports, settings: ChatSettings, calls: seq<PortCall>)
    requires CallsAreGuarded(question, ports, settings, calls)
    ensures Orderly(calls)
    ensures |calls| > 2 ==>
      && AcceptedRetrieval(ports, settings).Some? && AcceptedEvidence(ports, AcceptedRetrieval(ports, settings).value).Some?
      && calls[2].Generate?
      && PromptFor(question, AcceptedRetrieval(ports, settings).value, AcceptedEvidence(ports, AcceptedRetrieval(ports, settings).value).value, settings)
         == Some(calls[2].prompt)
  {
    hide ChatSettingsData.Valid, Retrieval.Valid, Evidence.Valid, Generation.Valid, BuildGroundedPrompt, Matches;
    hide ValidAnswer, Utf8, Orderly, AcceptedRetrieval;
    ShortCallsAreOrderly();
    if AcceptedRetrieval(ports, settings).Some? && AcceptedRetrieval(ports, settings).value.decision.EvidenceAvailable? {
      EligibleCallsAreOrderly(question, ports, settings, AcceptedRetrieval(ports, settings).value);
    }
  }

  lemma ShortCallsAreOrderly()
    ensures Orderly([Retrieve])
    ensures forall runId, ids :: Orderly([Retrieve, Load(runId, ids)])
    ensures forall runId, ids, prompt :: Orderly([Retrieve, Load(runId, ids), Generate(prompt)])
  {
  }

  lemma EligibleCallsAreOrderly(question: Question, ports: Ports, settings: ChatSettings, retrieval: Retrieval)
    ensures var calls := EligibleCalls(question, ports, settings, retrieval);
      && Orderly(calls)
      && (|calls| > 2 ==>
            && AcceptedEvidence(ports, retrieval).Some? && calls[2].Generate?
            && PromptFor(question, retrieval, AcceptedEvidence(ports, retrieval).value, settings) == Some(calls[2].prompt))
  {
    hide ChatSettingsData.Valid, Retrieval.Valid, Evidence.Valid, Generation.Valid, Matches, AcceptedAnswer;
    hide AcceptedGeneration, PromptFor, Orderly, ResolveCalls, Passing;
    ShortCallsAreOrderly();
    if AcceptedEvidence(ports, retrieval).Some? {
      var evidence := AcceptedEvidence(ports, retrieval).value;
      if PromptFor(question, retrieval, evidence, settings).Some? {
        var prompt := PromptFor(question, retrieval, evidence, settings).value;
        var loaded := Load(retrieval.runId, Map(RetrievedCitation, retrieval.candidates));
        assert [Retrieve, loaded] + [Generate(prompt)] == [Retrieve, loaded, Generate(prompt)];
        if AcceptedGeneration(ports, settings).Some? {
          var generation := AcceptedGeneration(ports, settings).value;
          var passing := Passing(ports, evidence.excerpts);
          FullCallsAreOrderly(retrieval, prompt, generation, evidence, 0);
          FullCallsAreOrderly(retrieval, prompt, generation, evidence, if passing < |evidence.excerpts| then passing + 1 else passing);
          assert ResolveCalls(evidence, 0) == [] by { NoResolveCalls(evidence); }
        }
      }
    }
  }

  lemma NoResolveCalls(evidence: Evidence)
    ensures ResolveCalls(evidence, 0) == []
  {
  }

  lemma EvidenceIdsDiffer(evidence: Evidence)
    requires evidence.Valid()
    ensures forall i, j :: 0 <= i < j < |evidence.excerpts| ==>
      evidence.excerpts[i].citation.citationId != evidence.excerpts[j].citation.citationId
  {
    var ids := CitationIds(evidence.Citations());
    forall i, j | 0 <= i < j < |evidence.excerpts|
      ensures evidence.excerpts[i].citation.citationId != evidence.excerpts[j].citation.citationId
    {
      assert ids[i] != ids[j];
    }
  }

  // ----- what an answer guarantees -----

  /** Every stage accepts. */
  predicate Grounded(question: Question, ports: Ports, settings: ChatSettings) {
    && AcceptedRetrieval(ports, settings).Some?
    && var retrieval := AcceptedRetrieval(ports, settings).value;
    && retrieval.decision.EvidenceAvailable? && AcceptedEvidence(ports, retrieval).Some?
    && var evidence := AcceptedEvidence(ports, retrieval).value;
    && PromptFor(question, retrieval, evidence, settings).Some?
    && AcceptedGeneration(ports, settings).Some? && AcceptedAnswer(ports, settings).Some?
    && forall e :: e in evidence.excerpts ==> StillResolves(ports, e)
  }

  lemma AllPass(ports: Ports, excerpts: seq<Excerpt>)
    ensures Passing(ports, excerpts) == |excerpts| <==> forall e :: e in excerpts ==> StillResolves(ports, e)
  {
    if Passing(ports, excerpts) < |excerpts| {
      assert excerpts[Passing(ports, excerpts)] in excerpts;
    }
  }

  /** Fail closed: there is an answer exactly when every stage accepts, and then it carries
      the parsed text and exactly the candidates' citation ids, in order. */
  lemma AnswersExactlyWhenGrounded(question: Question, ports: Ports, settings: ChatSettings)
    ensures var result := Responded(question, ports, settings);
      && (result.outcome.Answer? <==> Grounded(question, ports, settings))
      && (result.outcome.Answer? ==>
            && result.answer == AcceptedAnswer(ports, settings).value
            && result.runId == Some(AcceptedRetrieval(ports, settings).value.runId)
            && CitationIds(result.citations) == Map(RetrievedCitation, AcceptedRetrieval(ports, settings).value.candidates))
  {
    hide ChatSettingsData.Valid, Retrieval.Valid, Evidence.Valid, Generation.Valid, BuildGroundedPrompt;
    hide ValidAnswer, Utf8, RefusalText;
    match AcceptedRetrieval(ports, settings)
    case None =>
    case Some(retrieval) =>
      if retrieval.decision.EvidenceAvailable? && AcceptedEvidence(ports, retrieval).Some? {
        var evidence := AcceptedEvidence(ports, retrieval).value;
        AllPass(ports, evidence.excerpts);
        if Passing(ports, evidence.excerpts) == |evidence.excerpts| {
          ReresolvedIds(ports, evidence.excerpts);
          assert evidence.Citations() == Map(CitationOf, evidence.excerpts);
        }
      }
  }

  lemma ReresolvedIds(ports: Ports, excerpts: seq<Excerpt>)
    requires Passing(ports, excerpts) == |excerpts|
    ensures var citations := Reresolved(ports, excerpts);
      && CitationIds(citations) == CitationIds(Map(CitationOf, excerpts))
      && forall i :: 0 <= i < |citations| ==> citations[i].runId == excerpts[i].citation.runId
  {
    var citations := Reresolved(ports, excerpts);
    forall i | 0 <= i < |citations| ensures SameIdentity(citations[i], excerpts[i].citation) {
      assert StillResolves(ports, excerpts[i]);
    }
  }

  lemma FallbackIsValid(decision: Decision, runId: Id)
    ensures Fallback(decision, runId).Valid() && Storable(Fallback(decision, runId))
  {
    FixedTextsAreStorable(UnsupportedTemporalScope);
    FixedTextsAreStorable(InvalidEvidenceChain);
    hide RefusalText;
  }

  lemma AnswerIsValid(ports: Ports, retrieval: Retrieval, evidence: Evidence, generation: Generation, answer: string)
    requires evidence.Valid() && evidence.runId == retrieval.runId && generation.Valid() && ValidAnswer(answer)
    requires Passing(ports, evidence.excerpts) == |evidence.excerpts|
    ensures ChatResult(Answer, AnswerGrounded, answer, Some(retrieval.runId), Reresolved(ports, evidence.excerpts),
      Some(generation.provider), Some(generation.model), generation.requestId).Valid()
  {
    ReresolvedIds(ports, evidence.excerpts);
    var citations := Reresolved(ports, evidence.excerpts);
    hide Distinct, Passing, Reresolved, TotalLength;
    forall c | c in citations ensures c.runId == retrieval.runId {
      var i :| 0 <= i < |citations| && citations[i] == c;
      assert evidence.excerpts[i] in evidence.excerpts;
    }
  }

  /** The only results that cannot be stored: a grounded request whose parsed answer holds a
      control character. */
  predicate CannotBeStored(question: Question, ports: Ports, settings: ChatSettings) {
    Grounded(question, ports, settings) && !NoControls(AcceptedAnswer(ports, settings).value)
  }

  /** The result is always valid, so building it never raises; it meets the database's shape
      check; and it can be stored unless the request is grounded and the parser's answer
      holds a control character, which is then a line break or a tab. */
  lemma EveryResultFitsTheStore(question: Question, ports: Ports, settings: ChatSettings)
    ensures var result := Responded(question, ports, settings);
      && result.Valid()
      && (Storable(result) <==> !CannotBeStored(question, ports, settings))
      && forall e, now :: CompletedRow(e, result, now).ResultShape()
  {
    hide ChatSettingsData.Valid, Retrieval.Valid, Evidence.Valid, Generation.Valid, BuildGroundedPrompt, Matches;
    hide ValidAnswer, Utf8, RefusalText, SafeText, NoControls, ChatResult.Valid, StillResolves, Passing;
    hide Reresolved, Responded, AcceptedAnswer, Grounded;
    var result := Responded(question, ports, settings);
    ResponseIsValid(question, ports, settings);
    forall e, now ensures CompletedRow(e, result, now).ResultShape() {
      ShapeOfValidResults(e, result, now);
    }
    ValidTextIsSafe(result);
    AnswersExactlyWhenGrounded(question, ports, settings);
    if !result.outcome.Answer? {
      FixedTextsAreSafe(question, ports, settings);
    }
  }

  /** Everything but an answer is one of the fixed texts. */
  lemma FixedTextsAreSafe(question: Question, ports: Ports, settings: ChatSettings)
    requires !Responded(question, ports, settings).outcome.Answer?
    ensures NoControls(Responded(question, ports, settings).answer)
  {
    hide ChatSettingsData.Valid, Retrieval.Valid, Evidence.Valid, Generation.Valid, BuildGroundedPrompt, Matches;
    hide ValidAnswer, Utf8, RefusalText, ChatResult.Valid, StillResolves, Passing, Reresolved, Fallback;
    FixedRefusalIsValid(RetrievalFailure, None);
    if AcceptedRetrieval(ports, settings).Some? {
      var retrieval := AcceptedRetrieval(ports, settings).value;
      var run := Some(retrieval.runId);
      FallbackIsValid(retrieval.decision, retrieval.runId);
      FixedRefusalIsValid(GroundingFailure, run);
      FixedRefusalIsValid(ProviderFailure, run);
      FixedRefusalIsValid(InvalidProviderOutput, run);
      FixedRefusalIsValid(CitationRevalidationFailure, run);
    }
  }

  lemma ValidTextIsSafe(result: ChatResult)
    requires result.Valid()
    ensures SafeText(result.answer, ASSISTANT_TEXT_MAX_CHARS) <==> NoControls(result.answer)
  {
    hide NoControls, Distinct;
  }

  lemma ResponseIsValid(question: Question, ports: Ports, settings: ChatSettings)
    ensures var result := Responded(question, ports, settings);
      result.Valid() && (result.outcome.Refusal? ==> (result.reason.RetrievalFailure? <==> result.runId.None?))
  {
    hide ChatSettingsData.Valid, Retrieval.Valid, Evidence.Valid, Generation.Valid, BuildGroundedPrompt;
    hide ValidAnswer, Utf8, RefusalText, ChatResult.Valid, StillResolves, Passing, Reresolved, Storable;
    FixedRefusalIsValid(RetrievalFailure, None);
    match AcceptedRetrieval(ports, settings)
    case None =>
    case Some(retrieval) =>
      var run := Some(retrieval.runId);
      FallbackIsValid(retrieval.decision, retrieval.runId);
      FixedRefusalIsValid(GroundingFailure, run);
      FixedRefusalIsValid(ProviderFailure, run);
      FixedRefusalIsValid(InvalidProviderOutput, run);
      FixedRefusalIsValid(CitationRevalidationFailure, run);
      if Grounded(question, ports, settings) {
        var evidence := AcceptedEvidence(ports, retrieval).value;
        AllPass(ports, evidence.excerpts);
        AnswerIsValid(ports, retrieval, evidence, AcceptedGeneration(ports, settings).value, AcceptedAnswer(ports, settings).value);
      } else {
        NotGroundedNoAnswer(question, ports, settings);
      }
  }

  lemma NotGroundedNoAnswer(question: Question, ports: Ports, settings: ChatSettings)
    requires !Grounded(question, ports, settings)
    ensures !Responded(question, ports, settings).outcome.Answer?
  {
    AnswersExactlyWhenGrounded(question, ports, settings);
  }

  /** Neither the database's shape check nor the result's own validator implies the other: a
      retrieval failure that names a run is a valid result that no row can hold, and an answer
      without citations is held by a row although it is not valid. */
  lemma ShapeAndValidatorDiffer(runId: Id, e: Exchange, now: Time)
    ensures var refusal := FixedRefusal(RetrievalFailure, Some(runId));
      refusal.Valid() && !CompletedRow(e, refusal, now).ResultShape()
    ensures var answer := ChatResult(Answer, AnswerGrounded, "a", Some(runId), [], Some("p"), Some("m"), None);
      !answer.Valid() && CompletedRow(e, answer, now).ResultShape()
  {
    FixedRefusalIsValid(RetrievalFailure, Some(runId));
    hide RefusalText;
  }

  // ----- an answer that cannot be stored -----

  const ASKED := Question("q", None, WordingData("", ""))

  const CITED := Citation(0, 0, 0, 0, 0, 0, 0, 0, "")

  const DEFAULTS: ChatSettings :=
    ChatSettingsData(PromptSettings(4_000, 3, 2_000, 6_000, 12_000, 1_000), ANSWER_MAX_CHARS, 65_536, text => true)

  /** Ports that all work, and an answer of two lines. */
  function TwoLinePorts(): Ports {
    Ports(
      Returned(Retrieval(0, [Retrieved(0, 0)], EvidenceAvailable, None)),
      Returned(Evidence(0, [Excerpt(CITED, "e")])),
      Returned(Generation("g", "p", "m", None)),
      Returned("a\nb"),
      id => Returned(CITED))
  }

  lemma {:induction false} JoinAtMost(lines: seq<string>)
    requires forall i :: 0 <= i < |lines| ==> |lines[i]| <= 600
    ensures |Join(NEWLINE, lines)| <= 601 * |lines|
  {
    if |lines| > 1 {
      JoinAtMost(lines[..|lines| - 1]);
    }
  }

  lemma SmallValuesPrint()
    ensures |Compact(QuestionValue("q"))| <= 600 && |Compact(EvidenceValue(["e"]))| <= 600
  {
    hide PrintText, Guard;
    PrintTextAtMost("question");
    PrintTextAtMost("q");
    GuardAtMost(Print(QuestionValue("q")));
    assert |Print(QuestionValue("q"))| <= 100 by {
      var f := Field("question", Text("q"));
      assert PrintFields([f]) == PrintField(f);
    }
    var fields := [Field("id", Text("E" + PrintNumber(1))), Field("text", Text("e"))];
    assert EvidenceValue(["e"]) == List([Object(fields)]);
    assert PrintFields(fields) == PrintField(fields[0]) + "," + PrintField(fields[1]) by {
      assert fields[1..] == [fields[1]];
    }
    assert |PrintNumber(1)| == 1;
    PrintTextAtMost("id");
    PrintTextAtMost("E" + PrintNumber(1));
    PrintTextAtMost("text");
    PrintTextAtMost("e");
    assert |PrintField(fields[0])| <= 40 && |PrintField(fields[1])| <= 40;
    assert |Print(Object(fields))| <= 90;
    assert PrintItems([Object(fields)]) == Print(Object(fields));
    assert |Print(List([Object(fields)]))| <= 100;
    GuardAtMost(Print(EvidenceValue(["e"])));
  }

  lemma TwoLinePromptFits()
    ensures BuildGroundedPrompt("q", ["e"], None, WordingData("", ""), DEFAULTS.prompt).Ok?
  {
    hide Compact, Join;
    SmallValuesPrint();
    JoinAtMost(BaseLines("q", ["e"], WordingData("", "")));
    TotalOfOne("e");
  }

  lemma TwoLineEvidence()
    ensures AcceptedRetrieval(TwoLinePorts(), DEFAULTS) == Some(TwoLinePorts().retrieve.value)
    ensures AcceptedEvidence(TwoLinePorts(), TwoLinePorts().retrieve.value) == Some(TwoLinePorts().load.value)
    ensures TwoLinePorts().load.value.Texts() == ["e"]
  {
    var evidence := TwoLinePorts().load.value;
    TotalOfOne("e");
    assert evidence.Citations() == [CITED] && evidence.Texts() == ["e"];
    assert CitationIds([CITED]) == [0] && Map(ChunkOf, [CITED]) == [0];
    assert Map(RetrievedCitation, [Retrieved(0, 0)]) == [0] && Map(RetrievedChunk, [Retrieved(0, 0)]) == [0];
  }

  lemma TwoLineProse()
    ensures AcceptedGeneration(TwoLinePorts(), DEFAULTS).Some? && AcceptedAnswer(TwoLinePorts(), DEFAULTS) == Some("a\nb")
    ensures !NoControls("a\nb")
  {
    assert "g"[1..] == "";
    assert |Utf8("g")| == 1;
    assert IsControl("a\nb"[1]);
  }

  /** The condition can hold: with these ports the request is grounded, the result is an
      answer, and no conversation can store it. */
  lemma TwoLinesCannotBeStored()
    ensures CannotBeStored(ASKED, TwoLinePorts(), DEFAULTS)
    ensures Responded(ASKED, TwoLinePorts(), DEFAULTS).answer == "a\nb"
    ensures !Storable(Responded(ASKED, TwoLinePorts(), DEFAULTS))
  {
    hide BuildGroundedPrompt, AcceptedRetrieval, AcceptedEvidence, AcceptedGeneration, AcceptedAnswer, Responded;
    hide Storable, NoControls;
    TwoLinePromptFits();
    TwoLineEvidence();
    TwoLineProse();
    AnswersExactlyWhenGrounded(ASKED, TwoLinePorts(), DEFAULTS);
    EveryResultFitsTheStore(ASKED, TwoLinePorts(), DEFAULTS);
  }
}
