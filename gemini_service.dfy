/** The mood-analysis gateway: a guard in front of the external text-analysis
    call and the normalisation of what it returns. The call itself (and the
    JSON parsing of its text) is not modelled; its outcome is an input. */
module GeminiService {
  import opened Wrappers
  import opened JsArray
  import opened JsString

  /** The properties the parsed reply carries; `None` for one that is missing
      (or null). An empty reply text is parsed as `"{}"`, i.e. both missing. */
  datatype Reply = Reply(mood: Option<string>, summary: Option<string>)

  /** What the gateway hands back on success. */
  datatype Insight = Insight(mood: string, summary: string)

  /** Content shorter than this, in UTF-16 code units, is not analysed. */
  const MinContentLength: nat := 10

  /** The placeholder used when the reply has no usable mood. */
  const PlaceholderMood: string := "📝"

  /** `process.env.API_KEY` is truthy: present and not empty. */
  predicate HasCredential(apiKey: Option<string>)
  {
    apiKey.Some? && apiKey.value != ""
  }

  /** The guard in front of the call: a credential and enough content. */
  predicate ShouldCall(apiKey: Option<string>, content: string)
  {
    HasCredential(apiKey) && Utf16Length(content) >= MinContentLength
  }

  /** `data.mood || "📝"` and `data.summary || ""`. */
  function Normalize(reply: Reply): (r: Insight)
    ensures r.mood != ""
    ensures reply.mood.Some? && reply.mood.value != "" ==> r.mood == reply.mood.value
    ensures reply.mood.None? || reply.mood.value == "" ==> r.mood == PlaceholderMood
    ensures r.summary == reply.summary.GetOr("")
  {
    Insight(
      if reply.mood.Some? && reply.mood.value != "" then reply.mood.value else PlaceholderMood,
      reply.summary.GetOr(""))
  }

  /** `analyzeMoodAndSummary(content)`. `reply` is the outcome of the call and
      of parsing its text: `None` when either threw. */
  function AnalyzeMoodAndSummary(apiKey: Option<string>, content: string, reply: Option<Reply>)
    : (r: Option<Insight>)
    ensures !HasCredential(apiKey) ==> r.None?
    ensures Utf16Length(content) < MinContentLength ==> r.None?
    ensures ShouldCall(apiKey, content) ==> (r.None? <==> reply.None?)
    ensures r.Some? ==> reply.Some? && r.value == Normalize(reply.value) && r.value.mood != ""
  {
    if !ShouldCall(apiKey, content) then None
    else match reply
      case None => None
      case Some(data) => Some(Normalize(data))
  }

  /** When the guard refuses, the result does not depend on the call at all:
      the call is never made. */
  lemma GuardSkipsCall(apiKey: Option<string>, content: string, r1: Option<Reply>, r2: Option<Reply>)
    requires !ShouldCall(apiKey, content)
    ensures AnalyzeMoodAndSummary(apiKey, content, r1) == AnalyzeMoodAndSummary(apiKey, content, r2) == None
  {
  }

  /** The guard on `content.length` counts characters plus those that need
      a surrogate pair: with a credential, content is analysed exactly when
      that sum reaches ten. */
  lemma GuardCountsCodeUnits(apiKey: Option<string>, content: string)
    requires HasCredential(apiKey)
    ensures ShouldCall(apiKey, content) <==>
      |content| + Count(content, NeedsSurrogatePair) >= MinContentLength
  {
    Utf16LengthCountsPairs(content);
  }

  /** Content of at least ten characters always passes the length guard, but
      so does shorter content whose characters need surrogate pairs. */
  lemma {:induction false} LengthGuardCountsCodeUnits(content: string)
    ensures |content| >= MinContentLength ==> Utf16Length(content) >= MinContentLength
    ensures Utf16Length("😊😊😊😊😊") == MinContentLength
  {
  }
}
