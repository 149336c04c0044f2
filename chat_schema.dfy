/** The body of POST /api/chat: its field constraints (main.py:98-106), the fallback to the
    default model (main.py:169-180) and the conversion of messages to the completion API's
    dictionaries (main.py:183-186). */
module ChatSchema {
  import opened Options

  /** The defaults of the `model` and `max_tokens` fields. */
  const DefaultModel: string := "gpt-3.5-turbo"
  const DefaultMaxTokens: int := 1024
  const MaxContentLength: int := 10000
  const MaxMessages: int := 50

  /** The roles a message may carry. */
  const Roles: seq<string> := ["user", "assistant", "system"]

  /** The models the endpoint forwards; any other name is replaced by DefaultModel. */
  const ValidModels: seq<string> :=
    ["gpt-3.5-turbo", "gpt-4", "gpt-4-turbo-preview", "gpt-4-turbo", "gpt-4o", "gpt-4o-mini"]

  datatype Message = Message(role: string, content: string)

  /** An optional JSON field as it arrives: left out, given as null, or given a value. */
  datatype Field<T> = Absent | Null | Given(value: T)

  /** A request body before validation. `messages` is required and may not be null. */
  datatype RawChatRequest = RawChatRequest(messages: Field<seq<Message>>, model: Field<string>, maxTokens: Field<int>)

  /** A request body that passed validation, with the defaults of absent fields filled in;
      `None` is an explicit null. */
  datatype ChatRequest = ChatRequest(messages: seq<Message>, model: Option<string>, maxTokens: Option<int>)

  /** A message's own constraints: the role matches `^(user|assistant|system)$` and the content
      has between 1 and 10000 characters. */
  predicate ValidMessage(m: Message): (ok: bool)
    ensures ok <==> (m.role == "user" || m.role == "assistant" || m.role == "system")
                    && 0 < |m.content| && |m.content| <= 10000
  {
    m.role in Roles && 1 <= |m.content| <= MaxContentLength
  }

  /** Each message of the list is checked in turn. */
  function AllMessagesValid(ms: seq<Message>): (ok: bool)
    ensures ok <==> forall i :: 0 <= i < |ms| ==> ValidMessage(ms[i])
  {
    if ms == [] then true
    else ValidMessage(ms[0]) && AllMessagesValid(ms[1..])
  }

  /** An optional field's value: the default when it is absent; a null stays null. */
  function ApplyDefault<T>(f: Field<T>, default: T): (r: Option<T>)
    ensures f.Absent? ==> r == Some(default)
    ensures f.Null? ==> r == None
    ensures f.Given? ==> r == Some(f.value)
  {
    match f
    case Absent => Some(default)
    case Null => None
    case Given(v) => Some(v)
  }

  /** Field validation of the request body against the MAX_TOKENS bound `maxTokensCap`.
      A default is filled in as it is, without being checked against the bounds. */
  function Validate(raw: RawChatRequest, maxTokensCap: int): (r: Option<ChatRequest>)
    ensures r.Some? <==>
      && raw.messages.Given?
      && 1 <= |raw.messages.value| <= MaxMessages
      && (forall i :: 0 <= i < |raw.messages.value| ==>
            raw.messages.value[i].role in Roles
            && 1 <= |raw.messages.value[i].content| <= MaxContentLength)
      && (raw.maxTokens.Given? ==> 1 <= raw.maxTokens.value <= maxTokensCap)
    ensures r.Some? ==> r.value.messages == raw.messages.value
    ensures r.Some? && raw.model.Given? ==> r.value.model == Some(raw.model.value)
    ensures r.Some? && raw.model.Absent? ==> r.value.model == Some(DefaultModel)
    ensures r.Some? && raw.model.Null? ==> r.value.model == None
    ensures r.Some? && raw.maxTokens.Given? ==> r.value.maxTokens == Some(raw.maxTokens.value)
    ensures r.Some? && raw.maxTokens.Absent? ==> r.value.maxTokens == Some(DefaultMaxTokens)
    ensures r.Some? && raw.maxTokens.Null? ==> r.value.maxTokens == None
  {
    match raw.messages
    case Given(ms) =>
      var tokensOk := match raw.maxTokens
        case Given(n) => 1 <= n <= maxTokensCap
        case _ => true;
      if 1 <= |ms| <= MaxMessages && AllMessagesValid(ms) && tokensOk then
        Some(ChatRequest(ms, ApplyDefault(raw.model, DefaultModel), ApplyDefault(raw.maxTokens, DefaultMaxTokens)))
      else None
    case _ => None
  }

  /** A body without `max_tokens` is accepted whatever MAX_TOKENS is, and then asks for the
      default 1024 tokens even when MAX_TOKENS is smaller. */
  lemma DefaultTokensNotBounded(ms: seq<Message>, maxTokensCap: int)
    requires 1 <= |ms| <= MaxMessages && forall i :: 0 <= i < |ms| ==> ValidMessage(ms[i])
    ensures Validate(RawChatRequest(Given(ms), Absent, Absent), maxTokensCap).Some?
    ensures Validate(RawChatRequest(Given(ms), Absent, Absent), maxTokensCap).value.maxTokens == Some(DefaultMaxTokens)
  {
  }

  /** The model that is forwarded: a whitelisted name is kept, anything else (a null included)
      becomes DefaultModel. */
  function NormalizeModel(model: Option<string>): (r: string)
    ensures r in ValidModels
    ensures model.Some? && model.value in ValidModels ==> r == model.value
    ensures model.None? || model.value !in ValidModels ==> r == DefaultModel
  {
    if model.Some? && model.value in ValidModels then model.value else DefaultModel
  }

  /** Normalizing an already normalized model changes nothing. */
  lemma NormalizeModelIdempotent(model: Option<string>)
    ensures NormalizeModel(Some(NormalizeModel(model))) == NormalizeModel(model)
  {
  }

  /** A message as the completion API receives it: a dictionary with keys "role" and "content". */
  type ApiMessage = map<string, string>

  function ToApiMessage(m: Message): (d: ApiMessage)
    ensures d.Keys == {"role", "content"}
    ensures d["role"] == m.role && d["content"] == m.content
  {
    map["role" := m.role, "content" := m.content]
  }

  /** The message list as dictionaries: same length, same order, each one built from the
      message at the same position. */
  function ToApiMessages(ms: seq<Message>): (r: seq<ApiMessage>)
    ensures |r| == |ms|
    ensures forall i :: 0 <= i < |ms| ==> r[i].Keys == {"role", "content"}
    ensures forall i :: 0 <= i < |ms| ==> r[i]["role"] == ms[i].role && r[i]["content"] == ms[i].content
  {
    if ms == [] then [] else [ToApiMessage(ms[0])] + ToApiMessages(ms[1..])
  }

  /** Reads a message back from its dictionary. */
  function FromApiMessage(d: ApiMessage): Message
    requires "role" in d && "content" in d
  {
    Message(d["role"], d["content"])
  }

  function FromApiMessages(ds: seq<ApiMessage>): seq<Message>
    requires forall i :: 0 <= i < |ds| ==> "role" in ds[i] && "content" in ds[i]
  {
    if ds == [] then [] else [FromApiMessage(ds[0])] + FromApiMessages(ds[1..])
  }

  /** The conversion loses nothing: reading the dictionaries back gives the original messages. */
  lemma {:induction false} ApiMessagesRoundTrip(ms: seq<Message>)
    ensures forall i :: 0 <= i < |ms| ==> "role" in ToApiMessages(ms)[i] && "content" in ToApiMessages(ms)[i]
    ensures FromApiMessages(ToApiMessages(ms)) == ms
  {
    if ms != [] {
      ApiMessagesRoundTrip(ms[1..]);
      assert ToApiMessages(ms)[1..] == ToApiMessages(ms[1..]);
    }
  }
}
