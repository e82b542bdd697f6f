/** What the result of the answer pipeline tells, stage by stage and field by field, and
    what the provider was shown: `GroundedChatService.respond` of
    src/legal_chatbot/chat/service.py. */
module GroundedResults {
  import opened Wrappers
  import opened Sequences
  import opened ChatModels
  import opened Prompt
  import opened Encoding
  import opened GroundedChat

  // ----- how each stage fails -----

  predicate RetrievalFails(ports: Ports, settings: ChatSettings) {
    || !ports.retrieve.Returned? || |ports.retrieve.value.candidates| > settings.prompt.maxCitations
    || Repeats(ports.retrieve.value.candidates)
    || (ports.retrieve.value.decision.EvidenceAvailable? != (ports.retrieve.value.candidates != []))
  }

  /** Two candidates share their citation or their chunk. */
  predicate Repeats(candidates: seq<Retrieved>) {
    exists i, j :: 0 <= i < j < |candidates|
      && (candidates[i].citationId == candidates[j].citationId || candidates[i].chunkId == candidates[j].chunkId)
  }

  /** The excerpt is not of the candidate, or not of the run, or not of a length allowed. */
  predicate Strays(e: Excerpt, candidate: Retrieved, runId: Id) {
    || e.citation.citationId != candidate.citationId || e.citation.chunkId != candidate.chunkId
    || e.citation.runId != runId || e.text == "" || |e.text| > 2_000
  }

  predicate AnyStrays(evidence: Evidence, retrieval: Retrieval) {
    exists i :: 0 <= i < |evidence.excerpts| && i < |retrieval.candidates|
      && Strays(evidence.excerpts[i], retrieval.candidates[i], retrieval.runId)
  }

  predicate EvidenceFails(ports: Ports, retrieval: Retrieval) {
    || !ports.load.Returned?
    || ports.load.value.runId != retrieval.runId
    || |ports.load.value.excerpts| != |retrieval.candidates| || |ports.load.value.excerpts| > 6
    || AnyStrays(ports.load.value, retrieval)
    || |Flatten(ports.load.value.Texts())| > 6_000
  }

  predicate PromptFails(question: Question, retrieval: Retrieval, evidence: Evidence, settings: ChatSettings) {
    match retrieval.structured
    case Some(structured) => structured(evidence).None?
    case None =>
      BuildGroundedPrompt(question.text, evidence.Texts(), question.context, question.wording, settings.prompt).Err?
  }

  predicate NameFails(name: string) {
    name == "" || |name| > 128
  }

  predicate RequestIdFails(requestId: string) {
    NameFails(requestId) || exists i :: 0 <= i < |requestId| && !('!' <= requestId[i] <= '~')
  }

  predicate GenerationFails(g: Generation, settings: ChatSettings) {
    || g.text == "" || |g.text| > 1_048_576 || |Utf8(g.text)| > settings.maxResponseBytes
    || NameFails(g.provider) || NameFails(g.model) || (g.requestId.Some? && RequestIdFails(g.requestId.value))
  }

  /** A control character that is no line break and no tab. */
  predicate IsForbidden(c: char) {
    (c as int <= 31 || 127 <= c as int <= 159) && c != '\n' && c != '\r' && c != '\t'
  }

  predicate AnswerFails(text: string, settings: ChatSettings) {
    || text == "" || |text| > settings.answerMax || !settings.permits(text)
    || exists i :: 0 <= i < |text| && IsForbidden(text[i])
  }

  predicate OutputFails(ports: Ports, settings: ChatSettings) {
    || !ports.generate.Returned? || GenerationFails(ports.generate.value, settings)
    || !ports.parse.Returned? || AnswerFails(ports.parse.value, settings)
  }

  /** What the resolver returns for a citation is not that citation. */
  predicate Drifts(ports: Ports, c: Citation) {
    || !ports.resolve(c.citationId).Returned?
    || var now := ports.resolve(c.citationId).value;
       || now.citationId != c.citationId || now.runId != c.runId || now.chunkId != c.chunkId
       || now.versionId != c.versionId || now.documentId != c.documentId || now.provenanceId != c.provenanceId
       || now.trustMode != c.trustMode || now.trustLabel != c.trustLabel
  }

  predicate CitationsFail(ports: Ports, evidence: Evidence) {
    exists i :: 0 <= i < |evidence.excerpts| && Drifts(ports, evidence.excerpts[i].citation)
  }

  // ----- the stages accept exactly when they do not fail -----

  lemma {:induction false} DistinctIffNone(candidates: seq<Retrieved>)
    ensures Distinct(Map(RetrievedCitation, candidates)) && Distinct(Map(RetrievedChunk, candidates)) <==> !Repeats(candidates)
  {
    var ids, chunks := Map(RetrievedCitation, candidates), Map(RetrievedChunk, candidates);
    if Repeats(candidates) {
      var i, j :| 0 <= i < j < |candidates|
        && (candidates[i].citationId == candidates[j].citationId || candidates[i].chunkId == candidates[j].chunkId);
      assert ids[i] == candidates[i].citationId && ids[j] == candidates[j].citationId;
      assert chunks[i] == candidates[i].chunkId && chunks[j] == candidates[j].chunkId;
    } else {
      forall i, j | 0 <= i < j < |candidates| ensures ids[i] != ids[j] && chunks[i] != chunks[j] {
      }
    }
  }

  lemma RetrievalIff(ports: Ports, settings: ChatSettings)
    ensures AcceptedRetrieval(ports, settings) == if RetrievalFails(ports, settings) then None else Some(ports.retrieve.value)
  {
    hide Repeats;
    if ports.retrieve.Returned? {
      DistinctIffNone(ports.retrieve.value.candidates);
    }
  }

  lemma SameLengthMatch(evidence: Evidence, retrieval: Retrieval)
    requires |evidence.excerpts| == |retrieval.candidates|
    ensures CitationIds(evidence.Citations()) == Map(RetrievedCitation, retrieval.candidates) <==>
      forall i :: 0 <= i < |evidence.excerpts| ==> evidence.excerpts[i].citation.citationId == retrieval.candidates[i].citationId
    ensures Map(ChunkOf, evidence.Citations()) == Map(RetrievedChunk, retrieval.candidates) <==>
      forall i :: 0 <= i < |evidence.excerpts| ==> evidence.excerpts[i].citation.chunkId == retrieval.candidates[i].chunkId
  {
    var ids, asked := CitationIds(evidence.Citations()), Map(RetrievedCitation, retrieval.candidates);
    var chunks, wanted := Map(ChunkOf, evidence.Citations()), Map(RetrievedChunk, retrieval.candidates);
    assert forall i :: 0 <= i < |evidence.excerpts| ==>
      ids[i] == evidence.excerpts[i].citation.citationId && asked[i] == retrieval.candidates[i].citationId
      && chunks[i] == evidence.excerpts[i].citation.chunkId && wanted[i] == retrieval.candidates[i].chunkId;
  }

  lemma EvidenceIff(ports: Ports, retrieval: Retrieval)
    requires retrieval.Valid() && retrieval.candidates != []
    ensures AcceptedEvidence(ports, retrieval) == if EvidenceFails(ports, retrieval) then None else Some(ports.load.value)
  {
    if ports.load.Returned? {
      var evidence := ports.load.value;
      TotalLengthIsTheText(evidence.Texts());
      hide TotalLength, Flatten, Distinct;
      if |evidence.excerpts| == |retrieval.candidates| {
        SameLengthMatch(evidence, retrieval);
        EachIsFor(evidence, retrieval);
      } else {
        assert |CitationIds(evidence.Citations())| == |evidence.excerpts|;
      }
    }
  }

  lemma EachIsFor(evidence: Evidence, retrieval: Retrieval)
    requires |evidence.excerpts| == |retrieval.candidates|
    ensures evidence.runId == retrieval.runId ==>
      (!AnyStrays(evidence, retrieval) <==>
        && (forall i :: 0 <= i < |evidence.excerpts| ==> evidence.excerpts[i].citation.citationId == retrieval.candidates[i].citationId)
        && (forall i :: 0 <= i < |evidence.excerpts| ==> evidence.excerpts[i].citation.chunkId == retrieval.candidates[i].chunkId)
        && forall e :: e in evidence.excerpts ==> e.citation.runId == evidence.runId && 1 <= |e.text| <= EXCERPT_MAX_CHARS)
  {
    if evidence.runId == retrieval.runId && !AnyStrays(evidence, retrieval) {
      forall i | 0 <= i < |evidence.excerpts| ensures !Strays(evidence.excerpts[i], retrieval.candidates[i], retrieval.runId) {
      }
    }
  }

  lemma NameIff(name: string)
    ensures ValidName(Some(name)) <==> !NameFails(name)
  {
  }

  lemma GenerationIff(ports: Ports, settings: ChatSettings)
    ensures AcceptedGeneration(ports, settings)
      == if !ports.generate.Returned? || GenerationFails(ports.generate.value, settings) then None else Some(ports.generate.value)
  {
    hide Utf8;
    if ports.generate.Returned? {
      NameIff(ports.generate.value.provider);
      NameIff(ports.generate.value.model);
    }
  }

  lemma AnswerIff(ports: Ports, settings: ChatSettings)
    ensures AcceptedAnswer(ports, settings)
      == if !ports.parse.Returned? || AnswerFails(ports.parse.value, settings) then None else Some(ports.parse.value)
  {
    assert settings.answerMax <= ANSWER_MAX_CHARS;
  }

  lemma ResolvesIff(ports: Ports, e: Excerpt)
    ensures StillResolves(ports, e) <==> !Drifts(ports, e.citation)
  {
  }

  lemma CitationsIff(ports: Ports, evidence: Evidence)
    ensures Passing(ports, evidence.excerpts) == |evidence.excerpts| <==> !CitationsFail(ports, evidence)
  {
    hide StillResolves, Drifts;
    var n := Passing(ports, evidence.excerpts);
    if n < |evidence.excerpts| {
      ResolvesIff(ports, evidence.excerpts[n]);
    } else if CitationsFail(ports, evidence) {
      var i :| 0 <= i < |evidence.excerpts| && Drifts(ports, evidence.excerpts[i].citation);
      ResolvesIff(ports, evidence.excerpts[i]);
      assert false;
    }
  }

  // ----- the result -----

  /** The citation is the one of the excerpt: the eight fields that identify it. */
  predicate Cites(c: Citation, e: Excerpt) {
    && c.citationId == e.citation.citationId && c.runId == e.citation.runId && c.chunkId == e.citation.chunkId
    && c.versionId == e.citation.versionId && c.documentId == e.citation.documentId
    && c.provenanceId == e.citation.provenanceId && c.trustMode == e.citation.trustMode
    && c.trustLabel == e.citation.trustLabel
  }

  predicate CiteAll(citations: seq<Citation>, excerpts: seq<Excerpt>) {
    |citations| == |excerpts| && forall i :: 0 <= i < |citations| ==> Cites(citations[i], excerpts[i])
  }

  /** A refusal of the fixed text, or the temporal one, without citations and provider. */
  function Refused(reason: ReasonCode, text: string, runId: Option<Id>): ChatResult {
    ChatResult(Refusal, reason, text, runId, [], None, None, None)
  }

  /** The result once retrieval has found candidates. */
  ghost predicate TellsFromEvidence(question: Question, ports: Ports, settings: ChatSettings, result: ChatResult)
    requires ports.retrieve.Returned?
  {
    var retrieval := ports.retrieve.value;
    var run := Some(retrieval.runId);
    if EvidenceFails(ports, retrieval) || PromptFails(question, retrieval, ports.load.value, settings)
    then result == Refused(GroundingFailure, GENERIC_REFUSAL_TEXT, run)
    else if ports.generate.Raised? then result == Refused(ProviderFailure, GENERIC_REFUSAL_TEXT, run)
    else if OutputFails(ports, settings) then result == Refused(InvalidProviderOutput, GENERIC_REFUSAL_TEXT, run)
    else if CitationsFail(ports, ports.load.value) then result == Refused(CitationRevalidationFailure, GENERIC_REFUSAL_TEXT, run)
    else
      && result.outcome.Answer? && result.reason.AnswerGrounded? && result.answer == ports.parse.value
      && result.runId == run && CiteAll(result.citations, ports.load.value.excerpts)
      && result.provider == Some(ports.generate.value.provider) && result.model == Some(ports.generate.value.model)
      && result.requestId == ports.generate.value.requestId
  }

  lemma FromEvidence(question: Question, ports: Ports, settings: ChatSettings)
    requires !RetrievalFails(ports, settings) && ports.retrieve.value.decision.EvidenceAvailable?
    ensures TellsFromEvidence(question, ports, settings, Responded(question, ports, settings))
  {
    hide ChatSettingsData.Valid, Evidence.Valid, Generation.Valid, BuildGroundedPrompt, Matches, Utf8, Flatten;
    hide GenerationFails, AnswerFails, CitationsFail, Reresolved, Passing, RetrievalFails, EvidenceFails;
    hide AcceptedRetrieval, AcceptedEvidence, AcceptedGeneration, AcceptedAnswer, GENERIC_REFUSAL_TEXT;
    RetrievalIsValid(ports, settings);
    var retrieval := ports.retrieve.value;
    RetrievalIff(ports, settings);
    EvidenceIff(ports, retrieval);
    GenerationIff(ports, settings);
    AnswerIff(ports, settings);
    if !EvidenceFails(ports, retrieval) {
      ReturnedEvidence(ports, retrieval);
      var evidence := ports.load.value;
      CitationsIff(ports, evidence);
      if Passing(ports, evidence.excerpts) == |evidence.excerpts| {
        ReresolvedCite(ports, evidence.excerpts);
      }
    }
  }

  lemma ReturnedEvidence(ports: Ports, retrieval: Retrieval)
    requires !EvidenceFails(ports, retrieval)
    ensures ports.load.Returned?
  {
  }

  lemma RetrievalIsValid(ports: Ports, settings: ChatSettings)
    requires !RetrievalFails(ports, settings)
    ensures ports.retrieve.Returned? && ports.retrieve.value.Valid()
  {
    DistinctIffNone(ports.retrieve.value.candidates);
  }

  lemma ReresolvedCite(ports: Ports, excerpts: seq<Excerpt>)
    requires Passing(ports, excerpts) == |excerpts|
    ensures CiteAll(Reresolved(ports, excerpts), excerpts)
  {
    forall i | 0 <= i < |excerpts| ensures Cites(Reresolved(ports, excerpts)[i], excerpts[i]) {
      assert StillResolves(ports, excerpts[i]);
      ResolvesIff(ports, excerpts[i]);
    }
  }

  /** What comes back, for any ports. The first stage that fails names its reason, with its
      fixed text and nothing else; and when none fails it is the parser's text with the
      provider's names and, excerpt by excerpt, citations of the very same identity. */
  lemma ResultTellsTheStage(question: Question, ports: Ports, settings: ChatSettings)
    ensures var result := Responded(question, ports, settings);
      if RetrievalFails(ports, settings) then result == Refused(RetrievalFailure, GENERIC_REFUSAL_TEXT, None)
      else
        var run := Some(ports.retrieve.value.runId);
        match ports.retrieve.value.decision
        case NoEvidence =>
          result == ChatResult(Clarification, NoResults, NO_RESULTS_CLARIFICATION_TEXT, run, [], None, None, None)
        case TemporalUnsupported => result == Refused(UnsupportedTemporalScope, TEMPORAL_REFUSAL_TEXT, run)
        case BrokenChain => result == Refused(InvalidEvidenceChain, GENERIC_REFUSAL_TEXT, run)
        case EvidenceAvailable => TellsFromEvidence(question, ports, settings, result)
  {
    hide TellsFromEvidence, AcceptedEvidence, AcceptedGeneration, AcceptedAnswer, PromptFor, Passing, Reresolved;
    hide AcceptedRetrieval;
    RetrievalIff(ports, settings);
    if !RetrievalFails(ports, settings) && ports.retrieve.value.decision.EvidenceAvailable? {
      FromEvidence(question, ports, settings);
    }
  }

  /** A citation that drifts in any one of its fields is never answered with: when everything
      before has worked, the result is the refusal that says so. */
  lemma DriftIsRefused(question: Question, ports: Ports, settings: ChatSettings, i: nat)
    requires !RetrievalFails(ports, settings) && ports.retrieve.value.decision.EvidenceAvailable?
    requires var retrieval := ports.retrieve.value;
      && !EvidenceFails(ports, retrieval) && !PromptFails(question, retrieval, ports.load.value, settings)
      && !OutputFails(ports, settings)
      && i < |ports.load.value.excerpts| && Drifts(ports, ports.load.value.excerpts[i].citation)
    ensures Responded(question, ports, settings)
      == Refused(CitationRevalidationFailure, GENERIC_REFUSAL_TEXT, Some(ports.retrieve.value.runId))
  {
    hide RetrievalFails, EvidenceFails, PromptFails, GenerationFails, AnswerFails, Drifts, Responded;
    FromEvidence(question, ports, settings);
  }

  // ----- what the provider is shown -----

  /** The question, the excerpts in order, and the context if it is included: what decoding the
      prompt gives back. */
  ghost predicate Shows(prompt: string, question: Question, evidence: Evidence) {
    && QuestionOf(Held(Section(prompt, QUESTION_START, QUESTION_END))) == Some(question.text)
    && EvidenceOf(Held(Section(prompt, EVIDENCE_START, EVIDENCE_END))) == Some(evidence.Texts())
    && Section(prompt, POLICY_START, POLICY_END) == question.wording.policy
  }

  /** Whatever the ports return: when the provider is asked without the quality adapter, its
      prompt decodes to the user's question and to the very excerpts of the candidates. */
  lemma ProviderIsShownTheEvidence(question: Question, ports: Ports, settings: ChatSettings, calls: seq<PortCall>)
    requires CallsAreGuarded(question, ports, settings, calls) && |calls| > 2
    requires ports.retrieve.Returned? && ports.retrieve.value.structured.None?
    ensures !RetrievalFails(ports, settings) && !EvidenceFails(ports, ports.retrieve.value)
    ensures calls[2].Generate? && Shows(calls[2].prompt, question, ports.load.value)
    ensures BuildGroundedPrompt(question.text, ports.load.value.Texts(), question.context, question.wording, settings.prompt)
      == Ok(calls[2].prompt)
  {
    hide BuildGroundedPrompt, AcceptedRetrieval, AcceptedEvidence, CallsAreGuarded, RetrievalFails, EvidenceFails;
    ProviderIsGuarded(question, ports, settings, calls);
    RetrievalIff(ports, settings);
    RetrievalIsValid(ports, settings);
    var retrieval := ports.retrieve.value;
    AskedHasCandidates(question, ports, settings, calls);
    EvidenceIff(ports, retrieval);
    ReturnedEvidence(ports, retrieval);
    hide Section, Held, QuestionOf, EvidenceOf;
    PromptRoundTrip(question.text, ports.load.value.Texts(), question.context, question.wording, settings.prompt);
  }

  lemma AskedHasCandidates(question: Question, ports: Ports, settings: ChatSettings, calls: seq<PortCall>)
    requires CallsAreGuarded(question, ports, settings, calls) && |calls| > 2
    ensures ports.retrieve.Returned? && ports.retrieve.value.candidates != []
  {
    hide EligibleCalls;
  }
}
