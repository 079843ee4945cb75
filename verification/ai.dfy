/** The content generator: a user-facing reply, an internal summary and a
    list of recommended actions for one rating and review text, produced by
    three provider calls or by fixed fallback text. The provider is an
    oracle: the reply each of the three calls would receive. */
module Ai {
  import opened Wrappers
  import opened Text

  /** Provider configuration; the key comes from the environment. */
  datatype Config = Config(apiKey: Option<string>)

  /** `not OPENROUTER_API_KEY`: an unset or empty key means no key. */
  predicate HasKey(cfg: Config) {
    cfg.apiKey.Some? && cfg.apiKey.value != []
  }

  /** Number of provider calls one generation makes when all succeed. */
  const CallsPerGeneration: nat := 3

  // ---- Provider replies, at the level the code inspects them ----

  /** The `content` member of a message: a string or any other JSON value. */
  datatype Content = TextContent(text: string) | NonTextContent

  /** `None` in an optional member means the key is absent. */
  datatype Message = MessageObject(content: Option<Content>) | NonObjectMessage
  datatype Choice = ChoiceObject(message: Option<Message>) | NonObjectChoice
  datatype Choices = ChoiceArray(items: seq<Choice>) | NonArrayChoices
  datatype Body = JsonObject(choices: Option<Choices>) | NotAJsonObject

  /** One HTTP exchange: a transport failure (including the 30 s timeout) or
      a response with a status code and a body. */
  datatype HttpReply = TransportError | Response(status: int, body: Body)

  /** What one call yields inside the `try`: the stripped reply text, or an
      exception. */
  datatype CallOutcome = Replied(text: string) | Raised

  predicate IsSuccessStatus(status: int) {
    200 <= status < 300
  }

  /** `.get("content", "").strip()` on the message object. */
  function ReadMessage(m: Message): (o: CallOutcome)
    ensures o.Replied? ==> Strip(o.text) == o.text
    ensures m == MessageObject(None) ==> o == Replied("")
    ensures m.MessageObject? && m.content.Some? && m.content.value.TextContent? ==>
      o == Replied(Strip(m.content.value.text))
    ensures m.NonObjectMessage? || m == MessageObject(Some(NonTextContent)) ==> o == Raised
  {
    match m
    case NonObjectMessage => Raised
    case MessageObject(None) => Replied("")
    case MessageObject(Some(NonTextContent)) => Raised
    case MessageObject(Some(TextContent(t))) =>
      StripIdempotent(t);
      Replied(Strip(t))
  }

  /** `.get("message", {})` on the first choice, then its content is read. */
  function ReadChoice(c: Choice): (o: CallOutcome)
    ensures o.Replied? ==> Strip(o.text) == o.text
    ensures c.NonObjectChoice? ==> o == Raised
    ensures c == ChoiceObject(None) ==> o == Replied("")
    ensures c.ChoiceObject? && c.message.Some? ==> o == ReadMessage(c.message.value)
    ensures c.ChoiceObject? && c.message.Some? && c.message.value.MessageObject?
            && c.message.value.content.Some? && c.message.value.content.value.TextContent? ==>
      o == Replied(Strip(c.message.value.content.value.text))
  {
    match c
    case NonObjectChoice => Raised
    case ChoiceObject(None) => Replied("")
    case ChoiceObject(Some(m)) => ReadMessage(m)
  }

  /** `.get("choices", [{}])[0]` on the decoded body; an absent key takes
      the literal default, whose one choice has no message. */
  function ReadBody(body: Body): (o: CallOutcome)
    ensures o.Replied? ==> Strip(o.text) == o.text
    ensures body == JsonObject(None) ==> o == Replied("")
    ensures body.NotAJsonObject? || body == JsonObject(Some(NonArrayChoices)) ==> o == Raised
    ensures body == JsonObject(Some(ChoiceArray([]))) ==> o == Raised
    ensures body.JsonObject? && body.choices.Some? && body.choices.value.ChoiceArray?
            && body.choices.value.items != [] ==>
      o == ReadChoice(body.choices.value.items[0])
  {
    match body
    case NotAJsonObject => Raised
    case JsonObject(None) => Replied("")
    case JsonObject(Some(NonArrayChoices)) => Raised
    case JsonObject(Some(ChoiceArray(items))) =>
      if items == [] then Raised else ReadChoice(items[0])
  }

  /** One call: `raise_for_status()`, then the body is read. A transport
      error, a status outside 2xx or a malformed body raises. */
  function ReadReply(reply: HttpReply): (o: CallOutcome)
    ensures o.Replied? ==> reply.Response? && IsSuccessStatus(reply.status)
    ensures o.Replied? ==> Strip(o.text) == o.text
    ensures reply.Response? && IsSuccessStatus(reply.status) ==> o == ReadBody(reply.body)
  {
    match reply
    case TransportError => Raised
    case Response(status, body) =>
      if IsSuccessStatus(status) then ReadBody(body) else Raised
  }

  /** A 2xx completion whose first choice's message has string content `t`,
      followed by any further choices. */
  function CompletionReply(status: int, t: string, more: seq<Choice>): HttpReply {
    Response(status, JsonObject(Some(ChoiceArray([ChoiceObject(Some(MessageObject(Some(TextContent(t)))))] + more))))
  }

  /** The provider's text in a well-formed 2xx reply is what the call yields,
      stripped; later choices are ignored. */
  lemma ReplyTakesFirstText(status: int, t: string, more: seq<Choice>)
    requires IsSuccessStatus(status)
    ensures ReadReply(CompletionReply(status, t, more)) == Replied(Strip(t))
  {
  }

  // ---- Fixed texts ----

  /** The no-key fallback reply, written as adjacent literals. */
  const NoKeyUserResponse: string :=
    "Thank you for your feedback! "
    + "We truly appreciate you taking the time "
    + "to share your experience with us."

  /** The reply of the exception path, split at a different word. */
  const ErrorUserResponse: string :=
    "Thank you for your feedback! "
    + "We truly appreciate you taking the "
    + "time to share your experience with us."

  /** The fallback actions for a rating of 4 or more. */
  const PositiveActions: string :=
    "• Celebrate positive feedback\n"
    + "• Share with the team\n"
    + "• Consider featuring this in testimonials"

  /** The fallback actions for a rating below 4. */
  const ImprovementActions: string :=
    "• Review the feedback in detail\n"
    + "• Follow up with the user if possible\n"
    + "• Identify and track improvement actions"

  /** Per-field defaults for an empty reply on the success path. */
  const DefaultUserResponse: string :=
    "Thank you for your feedback! We "
    + "appreciate you sharing your experience."
  const DefaultActions: string :=
    "• Review feedback\n"
    + "• Share with the team\n"
    + "• Plan concrete improvements"

  /** Length of the review excerpt quoted in a summary. */
  const ExcerptLength: nat := 100

  /** The printed rating and `-star review`, then `: `, the review's first
      100 characters and `...`, or ` without written feedback.` when the
      review is empty. */
  function SummaryTemplate(rating: int, review: string): string {
    IntToString(rating) + ("-star review" + SummaryTail(review))
  }

  /** What follows `-star review` in a summary. */
  function SummaryTail(review: string): string {
    if review != [] then ": " + Prefix(review, ExcerptLength) + "..." else " without written feedback."
  }

  /** The action list chosen by the rating when falling back. */
  function FallbackActions(rating: int): string {
    if rating >= 4 then PositiveActions else ImprovementActions
  }

  datatype AiContent = AiContent(userResponse: string, summary: string, recommendedActions: string) {
    predicate AllNonEmpty() {
      userResponse != [] && summary != [] && recommendedActions != []
    }
  }

  /** The content returned when no key is configured. */
  function NoKeyFallback(rating: int, review: string): AiContent {
    AiContent(NoKeyUserResponse, SummaryTemplate(rating, review), FallbackActions(rating))
  }

  /** The content returned from the `except` branch. */
  function ErrorFallback(rating: int, review: string): AiContent {
    AiContent(ErrorUserResponse, SummaryTemplate(rating, review), FallbackActions(rating))
  }

  // ---- The three sequential calls ----

  datatype CallsResult = AllReplied(texts: seq<string>) | RaisedAt(index: nat)

  /** Issues calls `k`, `k+1`, ... in order, stopping at the first one that
      raises; a call after a raising one is never issued. */
  function IssueCalls(outcomes: seq<CallOutcome>, k: nat): (c: CallsResult)
    requires k <= |outcomes|
    ensures c.AllReplied? ==> |c.texts| == |outcomes| - k
    ensures c.AllReplied? ==> forall j :: 0 <= j < |c.texts| ==> outcomes[k + j] == Replied(c.texts[j])
    ensures c.RaisedAt? ==> k <= c.index < |outcomes| && outcomes[c.index].Raised?
    ensures c.RaisedAt? ==> forall j :: k <= j < c.index ==> outcomes[j].Replied?
    ensures c.AllReplied? <==> forall j :: k <= j < |outcomes| ==> outcomes[j].Replied?
    decreases |outcomes| - k
  {
    if k == |outcomes| then AllReplied([])
    else if outcomes[k].Raised? then RaisedAt(k)
    else
      var rest := IssueCalls(outcomes, k + 1);
      if rest.RaisedAt? then rest
      else AllReplied([outcomes[k].text] + rest.texts)
  }

  /** The outcome each reply would give, in call order. */
  function ReadAll(replies: seq<HttpReply>): (os: seq<CallOutcome>)
    ensures |os| == |replies|
    ensures forall i :: 0 <= i < |replies| ==> os[i] == ReadReply(replies[i])
  {
    if replies == [] then [] else [ReadReply(replies[0])] + ReadAll(replies[1..])
  }

  /** The generated content together with the number of calls issued. */
  datatype Generation = Generation(content: AiContent, callsIssued: nat)

  /** `generate_ai_content(rating, review)` with the provider's replies to
      the user-response, summary and actions calls, in that order. It never
      fails outward, and every field it returns is non-empty. */
  function GenerateAiContent(cfg: Config, rating: int, review: string, replies: seq<HttpReply>): (g: Generation)
    requires |replies| == CallsPerGeneration
    ensures g.content.AllNonEmpty()
    ensures g.callsIssued <= CallsPerGeneration
    ensures !HasKey(cfg) ==> g.callsIssued == 0
    ensures HasKey(cfg) ==> g.callsIssued > 0
  {
    if !HasKey(cfg) then
      Generation(NoKeyFallback(rating, review), 0)
    else
      AfterCalls(IssueCalls(ReadAll(replies), 0), rating, review)
  }

  /** The content once the calls are over: the exception path after a
      raising call, otherwise the replies with their per-field defaults. */
  function AfterCalls(c: CallsResult, rating: int, review: string): (g: Generation)
    requires c.AllReplied? ==> |c.texts| == CallsPerGeneration
    requires c.RaisedAt? ==> c.index < CallsPerGeneration
    ensures g.content.AllNonEmpty()
    ensures 0 < g.callsIssued <= CallsPerGeneration
    ensures c.RaisedAt? ==> g.content == ErrorFallback(rating, review) && g.callsIssued == c.index + 1
  {
    match c
    case RaisedAt(i) => Generation(ErrorFallback(rating, review), i + 1)
    case AllReplied(texts) =>
      Generation(
        AiContent(
          OrDefault(texts[0], DefaultUserResponse),
          OrDefault(texts[1], SummaryTemplate(rating, review)),
          OrDefault(texts[2], DefaultActions)),
        CallsPerGeneration)
  }

  // ---- Properties ----

  /** Without a key no call is made, the provider's behaviour is irrelevant,
      and the result is the fixed fallback. */
  lemma NoKeyIgnoresProvider(cfg: Config, rating: int, review: string, replies: seq<HttpReply>, others: seq<HttpReply>)
    requires !HasKey(cfg)
    requires |replies| == CallsPerGeneration && |others| == CallsPerGeneration
    ensures GenerateAiContent(cfg, rating, review, replies) == Generation(NoKeyFallback(rating, review), 0)
    ensures GenerateAiContent(cfg, rating, review, replies) == GenerateAiContent(cfg, rating, review, others)
  {
  }

  /** All or nothing: if any of the three calls raises, all three fields are
      the fallback, replies already received are discarded, and exactly the
      calls up to the first raising one were issued. */
  lemma {:induction false} AnyFailureFallsBackEntirely(cfg: Config, rating: int, review: string, replies: seq<HttpReply>, i: nat)
    requires HasKey(cfg) && |replies| == CallsPerGeneration
    requires i < |replies| && ReadReply(replies[i]).Raised?
    ensures GenerateAiContent(cfg, rating, review, replies).content == ErrorFallback(rating, review)
    ensures var n := GenerateAiContent(cfg, rating, review, replies).callsIssued;
      1 <= n <= i + 1 && ReadReply(replies[n - 1]).Raised?
      && forall j :: 0 <= j < n - 1 ==> ReadReply(replies[j]).Replied?
  {
    var os := ReadAll(replies);
    FirstRaiseBounds(os, i);
    var n := IssueCalls(os, 0).index + 1;
    assert ReadReply(replies[n - 1]) == os[n - 1];
    forall j | 0 <= j < n - 1 ensures ReadReply(replies[j]).Replied? {
      assert os[j].Replied?;
    }
  }

  /** A raising call at position `i` stops the sequence at or before `i`. */
  lemma FirstRaiseBounds(os: seq<CallOutcome>, i: nat)
    requires i < |os| && os[i].Raised?
    ensures IssueCalls(os, 0).RaisedAt? && IssueCalls(os, 0).index <= i
  {
    var c := IssueCalls(os, 0);
    assert !os[i].Replied?;
  }

  /** On full success each field is the stripped reply, or that field's
      default when the reply is empty. */
  lemma SuccessTakesReplies(cfg: Config, rating: int, review: string, replies: seq<HttpReply>)
    requires HasKey(cfg) && |replies| == CallsPerGeneration
    requires forall j :: 0 <= j < |replies| ==> ReadReply(replies[j]).Replied?
    ensures var g := GenerateAiContent(cfg, rating, review, replies);
      && g.callsIssued == CallsPerGeneration
      && g.content.userResponse == OrDefault(ReadReply(replies[0]).text, DefaultUserResponse)
      && g.content.summary == OrDefault(ReadReply(replies[1]).text, SummaryTemplate(rating, review))
      && g.content.recommendedActions == OrDefault(ReadReply(replies[2]).text, DefaultActions)
  {
    var c := IssueCalls(ReadAll(replies), 0);
    assert ReadAll(replies)[0 + 0] == Replied(c.texts[0]);
    assert ReadAll(replies)[0 + 1] == Replied(c.texts[1]);
    assert ReadAll(replies)[0 + 2] == Replied(c.texts[2]);
  }

  /** When all three calls get well-formed 2xx completions, the returned
      fields are the provider's stripped texts, each replaced by its default
      only when empty. */
  lemma SuccessReturnsProviderText(cfg: Config, rating: int, review: string, replies: seq<HttpReply>,
                                   statuses: seq<int>, texts: seq<string>, more: seq<seq<Choice>>)
    requires HasKey(cfg)
    requires |replies| == |statuses| == |texts| == |more| == CallsPerGeneration
    requires forall j :: 0 <= j < CallsPerGeneration ==>
      IsSuccessStatus(statuses[j]) && replies[j] == CompletionReply(statuses[j], texts[j], more[j])
    ensures GenerateAiContent(cfg, rating, review, replies).content == AiContent(
      OrDefault(Strip(texts[0]), DefaultUserResponse),
      OrDefault(Strip(texts[1]), SummaryTemplate(rating, review)),
      OrDefault(Strip(texts[2]), DefaultActions))
  {
    forall j | 0 <= j < |replies| ensures ReadReply(replies[j]) == Replied(Strip(texts[j])) {
      ReplyTakesFirstText(statuses[j], texts[j], more[j]);
    }
    SuccessTakesReplies(cfg, rating, review, replies);
  }

  /** The exception path and the no-key path return the same content for the
      same rating and review, although their reply literal is split
      differently in the two branches. */
  lemma ErrorPathMatchesNoKey(withKey: Config, withoutKey: Config, rating: int, review: string,
                              replies: seq<HttpReply>, others: seq<HttpReply>, i: nat)
    requires HasKey(withKey) && !HasKey(withoutKey)
    requires |replies| == CallsPerGeneration && |others| == CallsPerGeneration
    requires i < |replies| && ReadReply(replies[i]).Raised?
    ensures GenerateAiContent(withKey, rating, review, replies).content
         == GenerateAiContent(withoutKey, rating, review, others).content
  {
    AnyFailureFallsBackEntirely(withKey, rating, review, replies, i);
    FallbackRepliesAgree();
  }

  /** The two spellings of the fallback reply denote the same text. */
  lemma FallbackRepliesAgree()
    ensures ErrorUserResponse == NoKeyUserResponse
  {
    var thanks, appreciate, time, share :=
      "Thank you for your feedback! ", "We truly appreciate you taking the ", "time ", "to share your experience with us.";
    assert "We truly appreciate you taking the time " == appreciate + time;
    assert "time to share your experience with us." == time + share;
    calc {
      NoKeyUserResponse;
      thanks + (appreciate + time) + share;
      thanks + appreciate + (time + share);
      ErrorUserResponse;
    }
  }

  /** Two provider runs that both fail somewhere produce the same content,
      whatever replies arrived before the failure. */
  lemma PartialRepliesDiscarded(cfg: Config, rating: int, review: string,
                                a: seq<HttpReply>, b: seq<HttpReply>, i: nat, j: nat)
    requires HasKey(cfg) && |a| == CallsPerGeneration && |b| == CallsPerGeneration
    requires i < |a| && ReadReply(a[i]).Raised?
    requires j < |b| && ReadReply(b[j]).Raised?
    ensures GenerateAiContent(cfg, rating, review, a).content == GenerateAiContent(cfg, rating, review, b).content
  {
    AnyFailureFallsBackEntirely(cfg, rating, review, a, i);
    AnyFailureFallsBackEntirely(cfg, rating, review, b, j);
  }

  /** An empty summary reply falls back to the very summary the no-key path
      produces. */
  lemma EmptySummaryUsesFallbackTemplate(cfg: Config, rating: int, review: string, replies: seq<HttpReply>)
    requires HasKey(cfg) && |replies| == CallsPerGeneration
    requires forall j :: 0 <= j < |replies| ==> ReadReply(replies[j]).Replied?
    requires ReadReply(replies[1]).text == []
    ensures GenerateAiContent(cfg, rating, review, replies).content.summary == NoKeyFallback(rating, review).summary
  {
    SuccessTakesReplies(cfg, rating, review, replies);
  }

  /** The per-field defaults for an empty reply are not the fallback texts. */
  lemma DefaultsDifferFromFallback(rating: int)
    ensures DefaultUserResponse != NoKeyUserResponse
    ensures DefaultActions != FallbackActions(rating)
  {
    assert DefaultUserResponse[33] != NoKeyUserResponse[33];
    assert DefaultActions[2] != PositiveActions[2];
    assert DefaultActions[9] != ImprovementActions[9];
  }

  /** The fallback reply is the same for every rating and review; the action
      list depends on the rating only through `rating >= 4`. */
  lemma FallbackReplyIsFixed(rating: int, review: string, rating': int, review': string)
    ensures NoKeyFallback(rating, review).userResponse == NoKeyFallback(rating', review').userResponse
    ensures FallbackActions(rating) == FallbackActions(rating') <==> (rating >= 4 <==> rating' >= 4)
  {
    assert PositiveActions[2] != ImprovementActions[2];
  }

  /** A summary records the rating and the quoted excerpt: two summaries are
      equal only when their ratings and 100-character excerpts are. An empty
      review and a non-empty one never share a summary. */
  lemma SummaryDeterminesRatingAndExcerpt(rating: int, review: string, rating': int, review': string)
    requires SummaryTemplate(rating, review) == SummaryTemplate(rating', review')
    ensures rating == rating'
    ensures review == [] <==> review' == []
    ensures Prefix(review, ExcerptLength) == Prefix(review', ExcerptLength)
  {
    var x, y := "-star review" + SummaryTail(review), "-star review" + SummaryTail(review');
    assert x[0] == '-' && y[0] == '-';
    NumberThenText(rating, rating', x, y);
    assert SummaryTail(review) == x[|"-star review"|..];
    assert SummaryTail(review') == y[|"-star review"|..];
    TailDeterminesExcerpt(review, review');
  }

  /** A tail opens with a colon exactly when a review is quoted. */
  lemma TailOpensWithColon(review: string)
    ensures SummaryTail(review) != [] && (SummaryTail(review)[0] == ':' <==> review != [])
  {
    if review == [] {
      assert " without written feedback."[0] == ' ';
    }
  }

  /** Equal summary tails come from reviews that are both empty or both
      non-empty with the same excerpt. */
  lemma TailDeterminesExcerpt(review: string, review': string)
    requires SummaryTail(review) == SummaryTail(review')
    ensures review == [] <==> review' == []
    ensures Prefix(review, ExcerptLength) == Prefix(review', ExcerptLength)
  {
    TailOpensWithColon(review);
    TailOpensWithColon(review');
    var t := SummaryTail(review);
    if review != [] && review' != [] {
      var p, p' := Prefix(review, ExcerptLength), Prefix(review', ExcerptLength);
      assert p == t[2..|t| - 3];
      assert p' == t[2..|t| - 3];
    }
  }

  /** The quoted excerpt is the review's first 100 characters, and the
      ellipsis is appended even when the review is shorter. */
  lemma SummaryQuotesExcerpt(rating: int, review: string)
    requires review != []
    ensures var s := SummaryTemplate(rating, review);
      var e := Prefix(review, ExcerptLength);
      && s[..|IntToString(rating)|] == IntToString(rating)
      && s[|s| - 3..] == "..."
      && s[|IntToString(rating)| + |"-star review: "|..|s| - 3] == e
      && e <= review && |e| == if |review| < ExcerptLength then |review| else ExcerptLength
  {
    var n, e := IntToString(rating), Prefix(review, ExcerptLength);
    SplitQuoted(n, "-star review", ": ", e, "...");
    assert |"-star review: "| == |"-star review"| + |": "|;
  }

  /** Where the pieces of `n + (p + (q + e + z))` lie. */
  lemma SplitQuoted(n: string, p: string, q: string, e: string, z: string)
    ensures var s := n + (p + (q + e + z));
      && s[..|n|] == n
      && s[|s| - |z|..] == z
      && s[|n| + |p| + |q|..|s| - |z|] == e
  {
    var s := n + (p + (q + e + z));
    assert s == n + p + q + e + z;
  }
}
