/** The routing part of `ChatbotService.generateResponse`: the early refusals, the
    support-request redirect, and the keyword classification that picks how much
    of the user's data goes into the prompt. The prompt texts, the call to the
    language model and the reply parsing are outside the model. */
module Chatbot {
  import opened Wrappers
  import opened JavaText

  /** Whether `s` contains one of `words`. */
  function ContainsAny(s: string, words: seq<string>): (r: bool)
    ensures r <==> exists k :: 0 <= k < |words| && Contains(s, words[k])
  {
    if words == [] then false
    else if Contains(s, words[0]) then true
    else
      assert forall k :: 1 <= k < |words| ==> words[k] == words[1..][k - 1];
      ContainsAny(s, words[1..])
  }

  // ---------------------------------------------------------------- support

  /** `isSupportRequest`, with Java's precedence: `&&` binds tighter than `||`. */
  predicate IsSupportRequest(userMessage: string) {
    var m := Lower(userMessage);
    Contains(m, "customer care")
    || Contains(m, "customer servic")
    || Contains(m, "customer support")
    || Contains(m, "support")
    || (Contains(m, "help") && (Contains(m, "contact") || Contains(m, "reach")))
    || Contains(m, "complaint")
    || (Contains(m, "issue") && Contains(m, "help"))
    || Contains(m, "contact us")
    || Contains(m, "reach out")
    || (Contains(m, "talk to") && Contains(m, "support"))
  }

  /** The support test is equivalent to a shorter one: "customer support" and
      "talk to … support" are subsumed by "support", and the two "help" clauses
      merge. */
  lemma SupportRequestSimplified(userMessage: string)
    ensures var m := Lower(userMessage);
      IsSupportRequest(userMessage) <==>
        Contains(m, "support") || Contains(m, "customer care") || Contains(m, "customer servic")
        || Contains(m, "complaint") || Contains(m, "contact us") || Contains(m, "reach out")
        || (Contains(m, "help") && (Contains(m, "contact") || Contains(m, "reach") || Contains(m, "issue")))
  {
    var m := Lower(userMessage);
    if Contains(m, "customer support") {
      ContainsAt("customer support", "support", 9);
      ContainsTrans(m, "customer support", "support");
    }
  }

  // ---------------------------------------------------------------- classification

  datatype QuestionType = GeneralKnowledge | RideRelated | AccountRelated | FeatureRelated | Ambiguous

  /** A regex word character: an ASCII letter, digit or underscore. */
  predicate IsWordChar(c: char) {
    'a' <= c <= 'z' || 'A' <= c <= 'Z' || '0' <= c <= '9' || c == '_'
  }

  /** The characters a regex `.` does not match. */
  predicate IsLineTerminator(c: char) {
    c == '\n' || c == '\r' || c == '\U{85}' || c == '\U{2028}' || c == '\U{2029}'
  }

  const QuestionWords: seq<string> := ["what is", "what are", "how", "why", "tell me", "explain"]

  /** `kw` occurs at `i` with a word boundary on both sides. */
  predicate WordAt(s: string, i: nat, kw: string) {
    && i + |kw| <= |s|
    && s[i..i + |kw|] == kw
    && (i == 0 || !IsWordChar(s[i - 1]))
    && (i + |kw| == |s| || !IsWordChar(s[i + |kw|]))
  }

  /** `s.matches(".*\\b(what is|what are|how|why|tell me|explain)\\b.*")`: the whole
      text is one line and one of the question words stands as a whole word in it. */
  predicate AsksGeneralQuestion(s: string) {
    && (forall i :: 0 <= i < |s| ==> !IsLineTerminator(s[i]))
    && exists i: nat, k :: i <= |s| && 0 <= k < |QuestionWords| && WordAt(s, i, QuestionWords[k])
  }

  const RideWords: seq<string> := ["ride", "booking", "journey", "driver", "passenger", "route"]
  const AccountWords: seq<string> := ["credit", "rating", "profile", "account", "history"]
  const FeatureWords: seq<string> := ["how do i", "how to", "can i", "feature", "help"]

  /** The two general-knowledge rules, tried first. */
  predicate IsGeneralKnowledge(m: string) {
    (Contains(m, "distance between") && !Contains(m, "my ride") && !Contains(m, "my journey"))
    || (AsksGeneralQuestion(m) && !Contains(m, "ride") && !Contains(m, "booking") && !Contains(m, "my"))
  }

  /** A keyword of `words` occurs in `m`. */
  predicate Mentions(m: string, words: seq<string>) {
    exists k :: 0 <= k < |words| && Contains(m, words[k])
  }

  /** `analyzeQuestion`: the first rule that fires, on the lower-cased message, in the
      order general knowledge, ride, account, feature, with AMBIGUOUS as the default. */
  function AnalyzeQuestion(userMessage: string): (r: QuestionType)
    ensures var m := Lower(userMessage);
      && (r == GeneralKnowledge <==> IsGeneralKnowledge(m))
      && (r == RideRelated <==> !IsGeneralKnowledge(m) && Mentions(m, RideWords))
      && (r == AccountRelated <==> !IsGeneralKnowledge(m) && !Mentions(m, RideWords) && Mentions(m, AccountWords))
      && (r == FeatureRelated <==>
            !IsGeneralKnowledge(m) && !Mentions(m, RideWords) && !Mentions(m, AccountWords) && Mentions(m, FeatureWords))
      && (r == Ambiguous <==>
            !IsGeneralKnowledge(m) && !Mentions(m, RideWords) && !Mentions(m, AccountWords) && !Mentions(m, FeatureWords))
  {
    var m := Lower(userMessage);
    if IsGeneralKnowledge(m) then GeneralKnowledge
    else if ContainsAny(m, RideWords) then RideRelated
    else if ContainsAny(m, AccountWords) then AccountRelated
    else if ContainsAny(m, FeatureWords) then FeatureRelated
    else Ambiguous
  }

  /** A distance question that is not about the user's own ride or journey is general
      knowledge, whatever else it mentions. */
  lemma DistanceQuestionIsGeneral(userMessage: string)
    requires Contains(Lower(userMessage), "distance between")
    requires !Contains(Lower(userMessage), "my ride") && !Contains(Lower(userMessage), "my journey")
    ensures AnalyzeQuestion(userMessage) == GeneralKnowledge
  {
  }

  /** Once no distance question is asked, any mention of "ride" makes the question
      ride-related: the question-word rule is barred by the same word. */
  lemma RideWordWins(userMessage: string)
    requires Contains(Lower(userMessage), "ride") && !Contains(Lower(userMessage), "distance between")
    ensures AnalyzeQuestion(userMessage) == RideRelated
  {
    assert Contains(Lower(userMessage), RideWords[0]);
  }

  /** A question word is never enough on its own when the message mentions "my":
      such a message is general knowledge only through the distance rule. */
  lemma MyBlocksQuestionWords(userMessage: string)
    requires Contains(Lower(userMessage), "my") && !Contains(Lower(userMessage), "distance between")
    ensures AnalyzeQuestion(userMessage) != GeneralKnowledge
  {
  }

  /** A message that runs over several lines never passes the question-word rule. */
  lemma MultiLineNeverQuestionWord(s: string, i: nat)
    requires i < |s| && s[i] == '\n'
    ensures !AsksGeneralQuestion(s)
  {
  }

  /** The classification does not depend on letter case. */
  lemma AnalyzeIgnoresCase(userMessage: string)
    ensures AnalyzeQuestion(Lower(userMessage)) == AnalyzeQuestion(userMessage)
    ensures IsSupportRequest(Lower(userMessage)) == IsSupportRequest(userMessage)
  {
    LowerIdempotent(userMessage);
  }

  // ---------------------------------------------------------------- response

  /** The user data put into the prompt (`buildMinimalUserContext`,
      `buildComprehensiveUserContext`, `buildAccountContext`). */
  datatype ContextKind = Minimal | Comprehensive | AccountOnly

  /** `buildContextBasedOnQuestionType`. */
  function ContextFor(t: QuestionType): (r: ContextKind)
    ensures r == Minimal <==> t == GeneralKnowledge || t == FeatureRelated
    ensures r == AccountOnly <==> t == AccountRelated
  {
    match t
    case GeneralKnowledge => Minimal
    case RideRelated => Comprehensive
    case AccountRelated => AccountOnly
    case FeatureRelated => Minimal
    case Ambiguous => Comprehensive
  }

  /** What `generateResponse` does with a request: refuse when the model client is
      missing, refuse an unidentified user, redirect support requests to the contact
      page, or ask the model with a question type and context. */
  datatype ChatAction = ModelUnavailable | UnidentifiedUser | SupportRedirect | AskModel(kind: QuestionType, context: ContextKind)

  /** `generateResponse`, up to the model call. The message is trimmed first. */
  function Respond(clientReady: bool, message: string, userEmail: JString): (r: ChatAction)
    ensures !clientReady <==> r == ModelUnavailable
    ensures clientReady && IsNullOrBlank(userEmail) <==> r == UnidentifiedUser
    ensures clientReady && !IsNullOrBlank(userEmail) ==> (r == SupportRedirect <==> IsSupportRequest(Trim(message)))
    ensures r.AskModel? <==> clientReady && !IsNullOrBlank(userEmail) && !IsSupportRequest(Trim(message))
    ensures r.AskModel? ==> r.context == ContextFor(r.kind) && r.kind == AnalyzeQuestion(Trim(message))
  {
    var text := Trim(message);
    if !clientReady then ModelUnavailable
    else if IsNullOrBlank(userEmail) then UnidentifiedUser
    else if IsSupportRequest(text) then SupportRedirect
    else
      var kind := AnalyzeQuestion(text);
      AskModel(kind, ContextFor(kind))
  }

  /** A support request from an identified user is always redirected, never sent to
      the model, whatever else it asks. */
  lemma SupportNeverReachesModel(message: string, userEmail: JString)
    requires !IsNullOrBlank(userEmail)
    requires Contains(Lower(Trim(message)), "support")
    ensures Respond(true, message, userEmail) == SupportRedirect
  {
  }
}
