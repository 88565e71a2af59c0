/**
 * `POST /advisor`: the auth gate followed by the handler, which checks the
 * message and answers with a fixed placeholder text naming the mode.
 */
module Advisor {
  import opened JsValues
  import opened JsStrings
  import opened Auth

  /** The JSON body fields the handler reads; a missing body has neither. */
  datatype AdvisorBody = AdvisorBody(message: Option<string>, mode: Option<string>)

  /** The route's response: an error, or `200 { ok: true, text }`. */
  datatype AdvisorReply = Rejected(reply: ErrorReply) | Answered(text: string)

  const DefaultMode: string := "biblico"
  const EmptyMessageError: string := "Mensagem vazia."
  const EmptyMessage: ErrorReply := ErrorReply(400, EmptyMessageError)

  const ReplyHeading: string := "1) **Entendimento da crise**\n"
  /** The reply text up to the mode. */
  const ReplyHead: string := ReplyHeading + "Recebi sua mensagem ("
  /** The reply text after the mode. */
  const ReplyTail: string := ").\n\n" + "2) **Direcionamento**\n" + "...\n"

  /** The message as the handler sees it: trimmed, "" when missing. */
  function Message(b: AdvisorBody): (r: string)
    ensures Trimmed(r)
    ensures !Truthy(b.message) ==> r == ""
    ensures Truthy(b.message) ==> r == Trim(b.message.value)
  {
    Trim(OrElse(b.message, ""))
  }

  /**
   * The mode as the handler sees it: "biblico" when missing or empty,
   * otherwise trimmed (so a blank mode becomes "").
   */
  function Mode(b: AdvisorBody): (m: string)
    ensures Trimmed(m)
    ensures !Truthy(b.mode) ==> m == DefaultMode
    ensures Truthy(b.mode) ==> m == Trim(b.mode.value)
  {
    assert DefaultMode == "" + DefaultMode + "";
    TrimOfPadded("", DefaultMode, "");
    Trim(OrElse(b.mode, DefaultMode))
  }

  /** A mode of only whitespace is not replaced by the default: it becomes "". */
  lemma BlankModeIsEmpty(b: AdvisorBody)
    requires Truthy(b.mode) && AllSpace(b.mode.value)
    ensures Mode(b) == ""
  {
    TrimEmptyIff(b.mode.value);
  }

  /** The placeholder answer: the first two section headings, naming the mode. */
  function PlaceholderText(mode: string): (t: string)
    ensures StartsWith(t, ReplyHeading)
    ensures |t| == |ReplyHead| + |mode| + |ReplyTail|
  {
    assert (ReplyHead + mode + ReplyTail)[..|ReplyHeading|] == ReplyHeading;
    ReplyHead + mode + ReplyTail
  }

  /** Reads the mode back out of a placeholder answer. */
  function ModeOfText(t: string): (m: Option<string>)
    ensures m.Some? ==> |m.value| + |ReplyHead| + |ReplyTail| == |t|
  {
    if |ReplyHead| + |ReplyTail| <= |t|
       && t[..|ReplyHead|] == ReplyHead
       && t[|t| - |ReplyTail|..] == ReplyTail
    then Some(t[|ReplyHead|..|t| - |ReplyTail|])
    else None
  }

  /** The mode embedded in the placeholder text can be read back unchanged. */
  lemma PlaceholderTextRoundTrip(mode: string)
    ensures ModeOfText(PlaceholderText(mode)) == Some(mode)
  {
    var t := ReplyHead + mode + ReplyTail;
    assert t[..|ReplyHead|] == ReplyHead;
    assert t[|t| - |ReplyTail|..] == ReplyTail;
    assert t[|ReplyHead|..|t| - |ReplyTail|] == mode;
  }

  /** Different modes give different answers. */
  lemma PlaceholderTextInjective(m1: string, m2: string)
    requires PlaceholderText(m1) == PlaceholderText(m2)
    ensures m1 == m2
  {
    PlaceholderTextRoundTrip(m1);
    PlaceholderTextRoundTrip(m2);
  }

  /**
   * The route handler, reached after the gate: 400 for a blank message,
   * otherwise the placeholder text for the mode.
   */
  function Handle(b: AdvisorBody): (r: AdvisorReply)
    ensures r.Rejected? <==> Message(b) == ""
    ensures r.Rejected? ==> r.reply == EmptyMessage
    ensures r.Answered? ==> StartsWith(r.text, ReplyHeading) && ModeOfText(r.text) == Some(Mode(b))
  {
    var message := Message(b);
    var mode := Mode(b);
    if message == "" then Rejected(EmptyMessage)
    else
      PlaceholderTextRoundTrip(mode);
      Answered(PlaceholderText(mode))
  }

  /** A message of only whitespace (or none at all) is refused with 400. */
  lemma BlankMessageRejected(b: AdvisorBody)
    requires !Truthy(b.message) || AllSpace(b.message.value)
    ensures Handle(b) == Rejected(EmptyMessage)
  {
    TrimEmptyIff(OrElse(b.message, ""));
  }

  /**
   * The answer does not depend on what the message says, only on the mode:
   * the message is checked for emptiness and otherwise unused.
   */
  lemma AnswerIgnoresMessage(b1: AdvisorBody, b2: AdvisorBody)
    requires Message(b1) != "" && Message(b2) != "" && Mode(b1) == Mode(b2)
    ensures Handle(b1) == Handle(b2)
  {
  }

  /** `POST /advisor`: `requireAuth`, then the handler. */
  function Route(env: Env, h: Headers, b: AdvisorBody): (r: AdvisorReply)
    ensures RequireAuth(env, h).Deny? ==> r == Rejected(RequireAuth(env, h).reply)
    ensures RequireAuth(env, h).Pass? ==> r == Handle(b)
  {
    match RequireAuth(env, h)
    case Deny(reply) => Rejected(reply)
    case Pass => Handle(b)
  }

  /**
   * Every outcome of the route, by status: 500 exactly when no secret is
   * configured, 401 exactly for a configured secret and a wrong or missing
   * token, 400 exactly for an authorised request with a blank message, and
   * an answer otherwise.
   */
  lemma RouteOutcomes(env: Env, h: Headers, b: AdvisorBody)
    ensures Route(env, h, b).Rejected? ==> Route(env, h, b).reply.status in {400, 401, 500}
    ensures Route(env, h, b) == Rejected(Misconfigured) <==> ServiceToken(env) == ""
    ensures Route(env, h, b) == Rejected(Unauthorized) <==>
      ServiceToken(env) != "" && ExtractToken(h) != ServiceToken(env)
    ensures Route(env, h, b) == Rejected(EmptyMessage) <==>
      RequireAuth(env, h).Pass? && Message(b) == ""
    ensures Route(env, h, b).Answered? <==> RequireAuth(env, h).Pass? && Message(b) != ""
  {
  }

  /** A request the gate turns away gets the same answer whatever its body. */
  lemma DeniedIgnoresBody(env: Env, h: Headers, b1: AdvisorBody, b2: AdvisorBody)
    requires !RequireAuth(env, h).Pass?
    ensures Route(env, h, b1) == Route(env, h, b2)
  {
  }
}
