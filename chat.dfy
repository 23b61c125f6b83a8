/** The chat delivery pipeline: a user's message is posted to the webhook with bounded retries,
    failures are turned into replies, and two flags escalate delivery from the direct URL to the
    CORS relay and then to a local canned-response generator. */
module Chat {
  import opened Wrappers
  import opened Text

  const WEBHOOK_URL: string := "https://pepsibasic.app.n8n.cloud/webhook-test/7909f9c7-932a-4b96-8c85-cd22cb17b312"
  const CORS_PROXY_URL: string := "https://corsproxy.io/?"
  /** Retries after the first POST of one send. */
  const MAX_RETRIES: nat := 3
  /** The pause before each retry, in milliseconds. */
  const RETRY_DELAY: nat := 1000
  /** The simulated network delay of local fallback mode, in milliseconds. */
  const LOCAL_DELAY: nat := 1000
  /** The message axios gives an error where no response came back at all. */
  const NETWORK_ERROR: string := "Network Error"

  const WELCOME: string := "Welcome to AstroApp Chat! I am the Astro Master. How can I guide you on your celestial journey today?"
  /** The error texts are built from short pieces; the pieces' first characters tell the texts
      apart. */
  const ASTRO_MASTER: string := "The Astro Master "
  const AWAKEN_PREFIX: string := ASTRO_MASTER + "needs to be awakened. "
  const MEDITATION: string := ASTRO_MASTER + "is currently in deep meditation. " + "Please try again in a moment."
  const SERVER_ERROR_PREFIX: string := "Server error ("
  const UNKNOWN_ERROR: string := "Unknown error"
  const NETWORK_DIAGNOSTIC: string :=
    "Unable to reach " + "the Astro Master (Network Error). This could be due to:\n"
    + "- The n8n server might be down or not responding\n"
    + "- CORS issues preventing the request\n"
    + "- Network connectivity problems\n"
    + "- Firewall or security settings blocking the request\n"
    + "\n"
    + "Please try again in a few moments. The system will attempt to use alternative methods to reach the Astro Master."
  const CONNECTION_ERROR_PREFIX: string := "Connection error: "
  const APOLOGY: string := "I apologize, but I'm having trouble processing that request."
  const PROXY_NOTE: string := "\n\nTrying alternative connection method for your next message..."
  const LOCAL_NOTE: string := "\n\nSwitching to local fallback mode for future messages due to continued network issues."
  const LOCAL_SUFFIX: string := "\n\n[Local Fallback Mode: Network connection issues detected]"
  const RESET_TEXT: string := "Network settings have been reset. The app will attempt to connect directly to the Astro Master on your next message."

  /** The response carried by an axios error: its status and the `message` and `hint` of its
      body (the empty string standing for a missing or empty field, which JavaScript treats
      alike). */
  datatype ErrorResponse = ErrorResponse(status: int, message: string, hint: string)

  /** An error thrown by `axios.post`: it has a response when the server answered, and always a
      message. */
  datatype ApiError = ApiError(response: Option<ErrorResponse>, message: string)

  /** The outcome of one POST: delivered with the body's `output` (empty when missing), or
      failed with an error. */
  datatype Attempt = Delivered(output: string) | Failed(error: ApiError)

  /** `getErrorMessage(error)`: the text shown for a failed send. */
  function GetErrorMessage(error: ApiError): string {
    match error.response
    case Some(r) =>
      if r.status == 404 then
        if r.hint != "" then AWAKEN_PREFIX + r.hint else MEDITATION
      else
        SERVER_ERROR_PREFIX + IntToString(r.status) + "): " + (if r.message != "" then r.message else UNKNOWN_ERROR)
    case None =>
      if error.message == NETWORK_ERROR then NETWORK_DIAGNOSTIC else CONNECTION_ERROR_PREFIX + error.message
  }

  /** The five kinds of error text, in the priority order `getErrorMessage` tests them. */
  datatype ErrorKind = Awaken | Meditation | ServerError | Unreachable | ConnectionError

  /** The kind of an error: a response takes precedence over the message. */
  function KindOf(error: ApiError): ErrorKind {
    if error.response.Some? then
      if error.response.value.status == 404 then
        if error.response.value.hint != "" then Awaken else Meditation
      else ServerError
    else if error.message == NETWORK_ERROR then Unreachable
    else ConnectionError
  }

  predicate StartsWith(s: string, prefix: string) {
    |prefix| <= |s| && s[..|prefix|] == prefix
  }

  /** Reads the kind of an error back from its text alone. */
  function KindOfText(text: string): ErrorKind {
    if StartsWith(text, AWAKEN_PREFIX) then Awaken
    else if text == MEDITATION then Meditation
    else if StartsWith(text, SERVER_ERROR_PREFIX) then ServerError
    else if text == NETWORK_DIAGNOSTIC then Unreachable
    else ConnectionError
  }

  /** The text of an error tells which rule produced it. */
  lemma ErrorTextDeterminesKind(error: ApiError)
    ensures KindOfText(GetErrorMessage(error)) == KindOf(error)
  {
    var text := GetErrorMessage(error);
    assert AWAKEN_PREFIX[0] == 'T' && AWAKEN_PREFIX[17] == 'n';
    assert MEDITATION[0] == 'T' && MEDITATION[17] == 'i';
    assert NETWORK_DIAGNOSTIC[0] == 'U';
    assert SERVER_ERROR_PREFIX[0] == 'S';
    match KindOf(error)
    case Awaken =>
      assert text[..|AWAKEN_PREFIX|] == AWAKEN_PREFIX;
    case Meditation =>
      assert text[17] != AWAKEN_PREFIX[17];
    case ServerError =>
      assert text[0] == 'S';
      assert text[..|SERVER_ERROR_PREFIX|] == SERVER_ERROR_PREFIX;
    case Unreachable =>
    case ConnectionError =>
      assert text[0] == 'C';
  }

  /** The texts of the server-side cases, as the source builds them. */
  lemma ErrorTextOfResponse(r: ErrorResponse, message: string)
    ensures r.status == 404 && r.hint != "" ==> GetErrorMessage(ApiError(Some(r), message)) == AWAKEN_PREFIX + r.hint
    ensures r.status == 404 && r.hint == "" ==> GetErrorMessage(ApiError(Some(r), message)) == MEDITATION
    ensures r.status != 404 ==>
      GetErrorMessage(ApiError(Some(r), message))
        == SERVER_ERROR_PREFIX + IntToString(r.status) + "): " + (if r.message != "" then r.message else UNKNOWN_ERROR)
    ensures r.status != 404 ==> StartsWith(GetErrorMessage(ApiError(Some(r), message)), SERVER_ERROR_PREFIX + IntToString(r.status) + "): ")
    ensures forall other :: GetErrorMessage(ApiError(Some(r), other)) == GetErrorMessage(ApiError(Some(r), message))
  {
    if r.status != 404 {
      var prefix := SERVER_ERROR_PREFIX + IntToString(r.status) + "): ";
      var text := GetErrorMessage(ApiError(Some(r), message));
      assert text == prefix + (if r.message != "" then r.message else UNKNOWN_ERROR);
      assert text[..|prefix|] == prefix;
    }
  }

  /** The texts of the cases without a response: the network diagnostic for axios's
      "Network Error", and the message after a fixed prefix for any other error. */
  lemma ErrorTextWithoutResponse(message: string)
    ensures message == NETWORK_ERROR ==> GetErrorMessage(ApiError(None, message)) == NETWORK_DIAGNOSTIC
    ensures message != NETWORK_ERROR ==> GetErrorMessage(ApiError(None, message)) == CONNECTION_ERROR_PREFIX + message
  {
  }

  /** What the browser does during a send, in order: a POST of the message to a URL, or a pause. */
  datatype Effect = Post(url: string, message: string) | Sleep(ms: nat)

  /** A failure that `retryRequest` retries: no response came back. */
  predicate Retriable(a: Attempt) {
    a.Failed? && a.error.response.None?
  }

  /** The end of `retryRequest`: the attempt it stopped at, how many POSTs it made, and its
      effects. */
  datatype Delivery = Delivery(final: Attempt, attempts: nat, effects: seq<Effect>)

  /** `retryRequest(url, {message}, config, retries)`, where `net(first + j)` is the outcome of
      its `j`-th POST: the first success or server answer ends it, a response-less failure is
      retried after a pause while retries remain. */
  function RetryRequest(url: string, message: string, net: nat -> Attempt, first: nat, retries: nat): (d: Delivery)
    ensures 1 <= d.attempts <= retries + 1
    ensures d.final == net(first + d.attempts - 1)
    ensures forall j :: first <= j < first + d.attempts - 1 ==> Retriable(net(j))
    ensures d.attempts < retries + 1 ==> !Retriable(d.final)
    ensures |d.effects| == 2 * d.attempts - 1
    ensures forall k :: 0 <= k < |d.effects| ==>
      d.effects[k] == if k % 2 == 0 then Post(url, message) else Sleep(RETRY_DELAY)
    decreases retries
  {
    var attempt := net(first);
    if attempt.Delivered? || retries == 0 || attempt.error.response.Some? then
      Delivery(attempt, 1, [Post(url, message)])
    else
      var rest := RetryRequest(url, message, net, first + 1, retries - 1);
      var effects := [Post(url, message), Sleep(RETRY_DELAY)] + rest.effects;
      forall k | 2 <= k < |effects|
        ensures effects[k] == if k % 2 == 0 then Post(url, message) else Sleep(RETRY_DELAY)
      {
        assert effects[k] == rest.effects[k - 2];
        assert (k - 2) % 2 == k % 2;
      }
      Delivery(rest.final, rest.attempts + 1, effects)
  }

  /** The number of POSTs among some effects. */
  function PostCount(effects: seq<Effect>): nat {
    if effects == [] then 0 else (if effects[0].Post? then 1 else 0) + PostCount(effects[1..])
  }

  /** Effects that alternate POST and pause, starting with a POST when `phase` is 0 and with a
      pause when it is 1, hold one POST for every two effects, rounded to cover the first. */
  lemma {:induction false} PostCountAlternates(effects: seq<Effect>, url: string, message: string, phase: nat)
    requires phase < 2
    requires forall k :: 0 <= k < |effects| ==>
      effects[k] == if (k + phase) % 2 == 0 then Post(url, message) else Sleep(RETRY_DELAY)
    ensures PostCount(effects) == (|effects| + 1 - phase) / 2
    decreases |effects|
  {
    if effects != [] {
      var rest := effects[1..];
      forall k | 0 <= k < |rest|
        ensures rest[k] == if (k + (1 - phase)) % 2 == 0 then Post(url, message) else Sleep(RETRY_DELAY)
      {
        assert rest[k] == effects[k + 1];
        assert (k + 1 + phase) % 2 == (k + (1 - phase)) % 2;
      }
      PostCountAlternates(rest, url, message, 1 - phase);
    }
  }

  /** `retryRequest` posts once per attempt. */
  lemma RetryPostCount(url: string, message: string, net: nat -> Attempt, first: nat, retries: nat)
    ensures PostCount(RetryRequest(url, message, net, first, retries).effects)
      == RetryRequest(url, message, net, first, retries).attempts
  {
    var d := RetryRequest(url, message, net, first, retries);
    PostCountAlternates(d.effects, url, message, 0);
  }

  /** A failure that came with a response is never retried: one POST, and that error. */
  lemma ServerAnswerNotRetried(url: string, message: string, net: nat -> Attempt, retries: nat)
    requires net(0).Failed? && net(0).error.response.Some?
    ensures RetryRequest(url, message, net, 0, retries) == Delivery(net(0), 1, [Post(url, message)])
  {
  }

  /** One send of the source makes at most `MAX_RETRIES + 1` = 4 POSTs, with a pause before
      each retry; when it makes all four, the first three found no response. */
  lemma RetryBound(url: string, message: string, net: nat -> Attempt)
    ensures var d := RetryRequest(url, message, net, 0, MAX_RETRIES);
      && 1 <= d.attempts <= 4
      && (d.attempts == 4 ==> Retriable(net(0)) && Retriable(net(1)) && Retriable(net(2)))
      && (d.attempts < 4 ==> !Retriable(d.final))
  {
  }

  /** The topics of the local canned responses, in the order they are tested. */
  datatype Topic = Greeting | Fortune | Romance | Career | Wellness | Cosmic

  /** The topic `generateLocalResponse` picks: the first group of keywords that occurs anywhere
      in the lower-cased query. */
  function TopicOf(query: string): Topic {
    var q := ToLower(query);
    if Contains(q, "hello") || Contains(q, "hi") then Greeting
    else if Contains(q, "luck") || Contains(q, "future") then Fortune
    else if Contains(q, "love") || Contains(q, "relationship") then Romance
    else if Contains(q, "career") || Contains(q, "job") || Contains(q, "work") then Career
    else if Contains(q, "health") || Contains(q, "wellness") then Wellness
    else Cosmic
  }

  // The six canned replies. Each is split after its first word so that the replies can be told
  // apart by their first characters (`ReplyTopic`) without the verifier unfolding whole literals.
  const GREETING_REPLY: string := "Greetings" + ", seeker of celestial wisdom! How may I illuminate your path today?"
  const FORTUNE_REPLY: string := "The stars" + " suggest a period of transformation ahead. Stay open to new opportunities, and fortune will favor your endeavors."
  const ROMANCE_REPLY: string := "Venus" + " aligns favorably in your chart. This is an excellent time to nurture existing bonds or open your heart to new connections."
  const CAREER_REPLY: string := "Mercury's" + " position indicates favorable communication at work. Share your ideas confidently, as they are likely to be well-received."
  const WELLNESS_REPLY: string := "The celestial" + " energies suggest focusing on balance. Integrate both rest and activity for optimal well-being during this cycle."
  const COSMIC_REPLY: string := "The cosmic" + " patterns relevant to your query are complex. I sense that patience and mindfulness will serve you well as the stars reveal their message over time."

  /** The canned reply of each topic. */
  function TopicReply(t: Topic): string {
    match t
    case Greeting => GREETING_REPLY
    case Fortune => FORTUNE_REPLY
    case Romance => ROMANCE_REPLY
    case Career => CAREER_REPLY
    case Wellness => WELLNESS_REPLY
    case Cosmic => COSMIC_REPLY
  }

  /** `generateLocalResponse(query)`. */
  function GenerateLocalResponse(query: string): string {
    TopicReply(TopicOf(query))
  }

  /** The six fixed replies. */
  const LOCAL_REPLIES: seq<string> :=
    [TopicReply(Greeting), TopicReply(Fortune), TopicReply(Romance),
     TopicReply(Career), TopicReply(Wellness), TopicReply(Cosmic)]

  /** Reads the topic back from one of the six replies by its first characters. */
  function ReplyTopic(reply: string): Topic
    requires |reply| > 5
  {
    if reply[0] == 'G' then Greeting
    else if reply[0] == 'V' then Romance
    else if reply[0] == 'M' then Career
    else if reply[4] == 's' then Fortune
    else if reply[5] == 'e' then Wellness
    else Cosmic
  }

  /** Each reply tells its topic. */
  lemma ReplyDeterminesTopic(t: Topic)
    ensures |TopicReply(t)| > 5 && ReplyTopic(TopicReply(t)) == t
  {
    match t
    case Greeting => assert GREETING_REPLY[0] == 'G';
    case Fortune => assert FORTUNE_REPLY[0] == 'T' && FORTUNE_REPLY[4] == 's';
    case Romance => assert ROMANCE_REPLY[0] == 'V';
    case Career => assert CAREER_REPLY[0] == 'M';
    case Wellness => assert WELLNESS_REPLY[0] == 'T' && WELLNESS_REPLY[4] == 'c' && WELLNESS_REPLY[5] == 'e';
    case Cosmic => assert COSMIC_REPLY[0] == 'T' && COSMIC_REPLY[4] == 'c' && COSMIC_REPLY[5] == 'o';
  }

  /** The local generator only ever answers with one of the six fixed replies, and distinct
      topics get distinct replies. */
  lemma LocalResponseIsFixed(query: string)
    ensures GenerateLocalResponse(query) in LOCAL_REPLIES
    ensures forall t, u :: t != u ==> TopicReply(t) != TopicReply(u)
  {
    var t := TopicOf(query);
    var i := match t
      case Greeting => 0 case Fortune => 1 case Romance => 2
      case Career => 3 case Wellness => 4 case Cosmic => 5;
    assert LOCAL_REPLIES[i] == TopicReply(t) == GenerateLocalResponse(query);
    forall t, u | t != u
      ensures TopicReply(t) != TopicReply(u)
    {
      ReplyDeterminesTopic(t);
      ReplyDeterminesTopic(u);
    }
  }

  /** The greeting is chosen exactly when "hello" or "hi" occurs at some position of the
      lower-cased query, inside a word as well as on its own. */
  lemma GreetingIff(query: string)
    ensures TopicOf(query) == Greeting <==>
      (exists i :: OccursAt(ToLower(query), "hello", i)) || (exists i :: OccursAt(ToLower(query), "hi", i))
  {
    ContainsIff(ToLower(query), "hello");
    ContainsIff(ToLower(query), "hi");
    assert TopicOf(query) == Greeting <==> Contains(ToLower(query), "hello") || Contains(ToLower(query), "hi");
  }

  /** A later topic is chosen only when no keyword of an earlier group occurs. */
  lemma FirstMatchWins(query: string)
    ensures var q := ToLower(query);
      && (TopicOf(query) != Greeting ==> !Contains(q, "hello") && !Contains(q, "hi"))
      && (TopicOf(query) == Fortune ==> Contains(q, "luck") || Contains(q, "future"))
      && (TopicOf(query) == Romance ==>
            (!Contains(q, "luck") && !Contains(q, "future") && (Contains(q, "love") || Contains(q, "relationship"))))
      && (TopicOf(query) == Career ==>
            !Contains(q, "luck") && !Contains(q, "future") && !Contains(q, "love") && !Contains(q, "relationship")
            && (Contains(q, "career") || Contains(q, "job") || Contains(q, "work")))
      && (TopicOf(query) == Wellness ==>
            !Contains(q, "luck") && !Contains(q, "future") && !Contains(q, "love") && !Contains(q, "relationship")
            && !Contains(q, "career") && !Contains(q, "job") && !Contains(q, "work")
            && (Contains(q, "health") || Contains(q, "wellness")))
      && (TopicOf(query) == Cosmic ==>
            !Contains(q, "luck") && !Contains(q, "future") && !Contains(q, "love") && !Contains(q, "relationship")
            && !Contains(q, "career") && !Contains(q, "job") && !Contains(q, "work")
            && !Contains(q, "health") && !Contains(q, "wellness"))
  {
  }

  /** Letter case does not matter to the generator. */
  lemma TopicIgnoresCase(query: string)
    ensures TopicOf(ToLower(query)) == TopicOf(query)
  {
    ToLowerIdempotent(query);
  }

  /** "hi" inside "this" selects the greeting, whatever else the query asks about. */
  lemma HiInsideWordGreets(before: string, after: string)
    ensures TopicOf(before + "this" + after) == Greeting
  {
    var query := before + "this" + after;
    var q := ToLower(query);
    var i := |before| + 1;
    assert query[i] == 'h' && query[i + 1] == 'i';
    assert q[i..i + 2] == "hi";
    ContainsAt(q, "hi", i);
  }

  /** A chat message (its timestamp is not modelled). */
  datatype Message = Message(text: string, isUser: bool, isError: bool)

  /** `!input.trim()`: the input is empty or white space only. */
  predicate IsBlank(input: string) {
    Trim(input) == []
  }

  /** The URL a send posts to: the webhook itself, or the relay's prefix followed by the webhook
      URL escaped as one query value. */
  function TargetUrl(webhook: string, useCorsProxy: bool): string {
    if useCorsProxy then CORS_PROXY_URL + EncodeUriComponent(webhook) else webhook
  }

  /** The relay URL differs from the direct one, starts with the relay's prefix and carries the
      webhook URL reduced to unreserved characters and escapes. */
  lemma TargetUrlsDiffer(webhook: string)
    ensures TargetUrl(webhook, true) != TargetUrl(webhook, false)
    ensures StartsWith(TargetUrl(webhook, true), CORS_PROXY_URL)
    ensures forall i :: |CORS_PROXY_URL| <= i < |TargetUrl(webhook, true)| ==>
      IsUriUnreserved(TargetUrl(webhook, true)[i]) || TargetUrl(webhook, true)[i] == '%'
  {
    var encoded := EncodeUriComponent(webhook);
    var t := CORS_PROXY_URL + encoded;
    assert |t| > |webhook|;
    assert t[..|CORS_PROXY_URL|] == CORS_PROXY_URL;
    forall i | |CORS_PROXY_URL| <= i < |t|
      ensures IsUriUnreserved(t[i]) || t[i] == '%'
    {
      assert t[i] == encoded[i - |CORS_PROXY_URL|];
    }
  }

  /** What one non-blank send produces: the reply, the new flags and the effects. */
  datatype SendOutcome = SendOutcome(reply: Message, useCorsProxy: bool, useLocalFallback: bool, effects: seq<Effect>)

  /** The part of `handleSend` after the user's message is shown, for the input `text` and the
      flags at the time of the send; `webhook` is the configured webhook URL. */
  function Deliver(webhook: string, text: string, useCorsProxy: bool, useLocalFallback: bool, net: nat -> Attempt): SendOutcome {
    if useLocalFallback then
      SendOutcome(Message(GenerateLocalResponse(text) + LOCAL_SUFFIX, false, false),
                  useCorsProxy, useLocalFallback, [Sleep(LOCAL_DELAY)])
    else
      var d := RetryRequest(TargetUrl(webhook, useCorsProxy), text, net, 0, MAX_RETRIES);
      match d.final
      case Delivered(output) =>
        SendOutcome(Message(if output != "" then output else APOLOGY, false, false),
                    useCorsProxy, if useCorsProxy then false else useLocalFallback, d.effects)
      case Failed(e) =>
        var shown := GetErrorMessage(e);
        if !useCorsProxy && e.message == NETWORK_ERROR then
          SendOutcome(Message(shown + PROXY_NOTE, false, true), true, useLocalFallback, d.effects)
        else if useCorsProxy && e.message == NETWORK_ERROR then
          SendOutcome(Message(shown + LOCAL_NOTE, false, true), useCorsProxy, true, d.effects)
        else
          SendOutcome(Message(shown, false, true), useCorsProxy, useLocalFallback, d.effects)
  }

  /** The flag invariant: the local fallback is only ever on together with the relay. */
  predicate FlagsValid(useCorsProxy: bool, useLocalFallback: bool) {
    useLocalFallback ==> useCorsProxy
  }

  /** Every send keeps the flag invariant. */
  lemma DeliverKeepsFlags(webhook: string, text: string, useCorsProxy: bool, useLocalFallback: bool, net: nat -> Attempt)
    requires FlagsValid(useCorsProxy, useLocalFallback)
    ensures var o := Deliver(webhook, text, useCorsProxy, useLocalFallback, net);
      FlagsValid(o.useCorsProxy, o.useLocalFallback)
  {
  }

  /** In local fallback mode nothing is posted: one simulated pause, the canned reply with its
      suffix, and the flags stay. */
  lemma LocalModeMakesNoRequest(webhook: string, text: string, useCorsProxy: bool, net: nat -> Attempt)
    ensures Deliver(webhook, text, useCorsProxy, true, net) ==
      SendOutcome(Message(GenerateLocalResponse(text) + LOCAL_SUFFIX, false, false), useCorsProxy, true, [Sleep(LOCAL_DELAY)])
    ensures PostCount(Deliver(webhook, text, useCorsProxy, true, net).effects) == 0
  {
    assert [Sleep(LOCAL_DELAY)][1..] == [];
  }

  /** Outside local fallback mode, every POST of a send goes to the URL the relay flag selects and
      carries the user's text; the first effect is a POST and there are at most seven effects. */
  lemma PostsGoToTarget(webhook: string, text: string, useCorsProxy: bool, net: nat -> Attempt)
    ensures var o := Deliver(webhook, text, useCorsProxy, false, net);
      && (forall k :: 0 <= k < |o.effects| && o.effects[k].Post? ==> o.effects[k] == Post(TargetUrl(webhook, useCorsProxy), text))
      && 1 <= |o.effects| <= 7
      && o.effects[0] == Post(TargetUrl(webhook, useCorsProxy), text)
  {
    RetryBound(TargetUrl(webhook, useCorsProxy), text, net);
  }

  /** How a send outside local mode ends, by the last attempt's outcome: a delivered output (or the
      apology when it is empty) with unchanged relay flag; a "Network Error" escalates one step;
      any other error is shown, marked as an error, with both flags unchanged. */
  lemma DeliverOutcomes(webhook: string, text: string, useCorsProxy: bool, net: nat -> Attempt)
    ensures var d := RetryRequest(TargetUrl(webhook, useCorsProxy), text, net, 0, MAX_RETRIES);
      var o := Deliver(webhook, text, useCorsProxy, false, net);
      && (d.final.Delivered? ==>
            (o.reply == Message(if d.final.output != "" then d.final.output else APOLOGY, false, false)
             && o.useCorsProxy == useCorsProxy && !o.useLocalFallback))
      && (d.final.Failed? ==>
            (o.reply.isError && !o.reply.isUser && StartsWith(o.reply.text, GetErrorMessage(d.final.error))))
      && (d.final.Failed? && d.final.error.message == NETWORK_ERROR && !useCorsProxy ==>
            o.useCorsProxy && !o.useLocalFallback && o.reply.text == GetErrorMessage(d.final.error) + PROXY_NOTE)
      && (d.final.Failed? && d.final.error.message == NETWORK_ERROR && useCorsProxy ==>
            o.useCorsProxy && o.useLocalFallback && o.reply.text == GetErrorMessage(d.final.error) + LOCAL_NOTE)
      && (d.final.Failed? && d.final.error.message != NETWORK_ERROR ==>
            o.useCorsProxy == useCorsProxy && !o.useLocalFallback && o.reply.text == GetErrorMessage(d.final.error))
  {
    var d := RetryRequest(TargetUrl(webhook, useCorsProxy), text, net, 0, MAX_RETRIES);
    if d.final.Failed? {
      var shown := GetErrorMessage(d.final.error);
      assert (shown + PROXY_NOTE)[..|shown|] == shown;
      assert (shown + LOCAL_NOTE)[..|shown|] == shown;
      assert shown[..|shown|] == shown;
    }
  }

  /** A server answer (any status) on the first POST ends the send after exactly one POST. */
  lemma ServerErrorSendsOnce(webhook: string, text: string, useCorsProxy: bool, net: nat -> Attempt)
    requires net(0).Failed? && net(0).error.response.Some?
    ensures Deliver(webhook, text, useCorsProxy, false, net).effects == [Post(TargetUrl(webhook, useCorsProxy), text)]
  {
    ServerAnswerNotRetried(TargetUrl(webhook, useCorsProxy), text, net, MAX_RETRIES);
  }

  /** Four response-less "Network Error" failures on the direct URL switch on the relay, and the
      next send posts to the relay URL only. */
  lemma DirectFailuresSwitchToRelay(webhook: string, text: string, next: string, net: nat -> Attempt, net2: nat -> Attempt)
    requires forall i :: 0 <= i < 4 ==> net(i) == Failed(ApiError(None, NETWORK_ERROR))
    ensures var o := Deliver(webhook, text, false, false, net);
      && o.useCorsProxy && !o.useLocalFallback
      && PostCount(o.effects) == 4
      && var o2 := Deliver(webhook, next, o.useCorsProxy, o.useLocalFallback, net2);
         forall k :: 0 <= k < |o2.effects| && o2.effects[k].Post? ==>
           o2.effects[k].url == TargetUrl(webhook, true) && o2.effects[k].url != webhook
  {
    var url := TargetUrl(webhook, false);
    RetryBound(url, text, net);
    RetryPostCount(url, text, net, 0, MAX_RETRIES);
    PostsGoToTarget(webhook, next, true, net2);
    TargetUrlsDiffer(webhook);
  }

  /** With both flags off, a send goes to the direct URL first. */
  lemma ResetSendsDirect(webhook: string, text: string, net: nat -> Attempt)
    ensures Deliver(webhook, text, false, false, net).effects[0] == Post(webhook, text)
  {
    PostsGoToTarget(webhook, text, false, net);
  }

  /** The state of the chat screen; `webhookUrl` is the configured webhook. */
  class ChatSession {
    const webhookUrl: string
    var messages: seq<Message>
    var input: string
    var isTyping: bool
    var useCorsProxy: bool
    var useLocalFallback: bool

    ghost predicate Valid()
      reads this
    {
      FlagsValid(useCorsProxy, useLocalFallback) && |messages| >= 1
    }

    /** The screen as it opens: the welcome message, direct delivery. */
    constructor ()
      ensures Valid()
      ensures webhookUrl == WEBHOOK_URL
      ensures messages == [Message(WELCOME, false, false)]
      ensures input == "" && !isTyping && !useCorsProxy && !useLocalFallback
    {
      webhookUrl := WEBHOOK_URL;
      messages := [Message(WELCOME, false, false)];
      input := "";
      isTyping := false;
      useCorsProxy := false;
      useLocalFallback := false;
    }

    /** The input box's `onChange`. */
    method SetInput(text: string)
      modifies this
      ensures input == text
      ensures messages == old(messages) && isTyping == old(isTyping)
      ensures useCorsProxy == old(useCorsProxy) && useLocalFallback == old(useLocalFallback)
    {
      input := text;
    }

    /** `handleSend()`: a blank input changes nothing; otherwise the user's message and then
        exactly one reply are appended, the input is cleared and the flags move as `Deliver`
        says. `net(j)` is the outcome of the `j`-th POST of this send. */
    method HandleSend(net: nat -> Attempt) returns (effects: seq<Effect>)
      requires Valid()
      modifies this
      ensures Valid()
      ensures IsBlank(old(input)) ==>
        && effects == [] && messages == old(messages) && input == old(input) && isTyping == old(isTyping)
        && useCorsProxy == old(useCorsProxy) && useLocalFallback == old(useLocalFallback)
      ensures !IsBlank(old(input)) ==>
        var o := Deliver(webhookUrl, old(input), old(useCorsProxy), old(useLocalFallback), net);
        && messages == old(messages) + [Message(old(input), true, false), o.reply]
        && useCorsProxy == o.useCorsProxy && useLocalFallback == o.useLocalFallback
        && effects == o.effects && input == "" && !isTyping
    {
      if IsBlank(input) {
        return [];
      }
      effects := SendInput(net);
    }

    /** The body of `handleSend` past its guard: show the user's message, clear the input, deliver
        and show the reply. */
    method SendInput(net: nat -> Attempt) returns (effects: seq<Effect>)
      requires Valid()
      modifies this
      ensures Valid()
      ensures var o := Deliver(webhookUrl, old(input), old(useCorsProxy), old(useLocalFallback), net);
        && messages == old(messages) + [Message(old(input), true, false), o.reply]
        && useCorsProxy == o.useCorsProxy && useLocalFallback == o.useLocalFallback
        && effects == o.effects && input == "" && !isTyping
    {
      var text := input;
      input := "";
      isTyping := true;
      DeliverKeepsFlags(webhookUrl, text, useCorsProxy, useLocalFallback, net);
      var o := Deliver(webhookUrl, text, useCorsProxy, useLocalFallback, net);
      messages := messages + [Message(text, true, false), o.reply];
      useCorsProxy, useLocalFallback := o.useCorsProxy, o.useLocalFallback;
      effects := o.effects;
      isTyping := false;
    }

    /** `resetNetworkSettings()`: both flags off and one system message appended. */
    method ResetNetworkSettings()
      requires Valid()
      modifies this
      ensures Valid()
      ensures !useCorsProxy && !useLocalFallback
      ensures messages == old(messages) + [Message(RESET_TEXT, false, false)]
      ensures input == old(input) && isTyping == old(isTyping)
    {
      useLocalFallback := false;
      useCorsProxy := false;
      messages := messages + [Message(RESET_TEXT, false, false)];
    }
  }
}
