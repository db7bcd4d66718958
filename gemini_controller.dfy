/** The Gemini handlers (backend/controllers/geminiController.js). Its usage and history
    handlers, and its checks, context and system prompt, are the OpenAI handler's code
    repeated, on the same collection; they are the members of GptController. What differs is
    the provider call and how its errors are told apart. */
module GeminiController {
  import opened Wrappers
  import opened Db
  import opened Http
  import opened Text
  import opened ChatModel
  import opened CourseController
  import opened GptController

  /** The single prompt Gemini is sent: the system prompt, then the question as typed. */
  function FullPrompt(system: string, prompt: string): (p: string)
    ensures system <= p && p[|system|..] == "\n\nStudent Question: " + prompt
  {
    system + "\n\nStudent Question: " + prompt
  }

  function GeminiAsk(gemini: string -> Completion): (string, string) -> Completion {
    (system: string, prompt: string) => gemini(FullPrompt(system, prompt))
  }

  /** The catch block of the Gemini handler: by words in the error's message, "API key"
      before "quota"; the message of any other error only in development. */
  function GeminiError(f: Fault, development: bool): (r: Reply<GenerateData>)
    ensures f.message.Some? && Contains(f.message.value, "API key") ==> r == Faulted(401, "Invalid Gemini API key")
    ensures f.message.Some? && !Contains(f.message.value, "API key") && Contains(f.message.value, "quota") ==>
              r == Faulted(402, "Gemini API quota exceeded")
    ensures f.message.None? || (!Contains(f.message.value, "API key") && !Contains(f.message.value, "quota")) ==>
              r == Reply(500, Envelope(Error, Some(GenerateFailed), None, if development then f.message else None))
  {
    if f.message.Some? && Contains(f.message.value, "API key") then Faulted(401, "Invalid Gemini API key")
    else if f.message.Some? && Contains(f.message.value, "quota") then Faulted(402, "Gemini API quota exceeded")
    else Reply(500, Envelope(Error, Some(GenerateFailed), None, if development then f.message else None))
  }

  function GeminiErrors(development: bool): Fault -> Reply<GenerateData> {
    (f: Fault) => GeminiError(f, development)
  }

  /** `generateResponse` of the Gemini handler. */
  method GenerateResponse(log: ChatLog, views: seq<CourseView>, body: RequestBody, user: Id,
                          gemini: string -> Completion, development: bool) returns (reply: Reply<GenerateData>)
    modifies log
    ensures Served(reply, log.records) == Generate(old(log.records), views, body, user, GeminiAsk(gemini), GeminiErrors(development))
  {
    reply := Serve(log, views, body, user, GeminiAsk(gemini), GeminiErrors(development));
  }

  /** The two providers share one cap: answers stored through OpenAI count against Gemini
      and the other way round, so once 250 are stored, both refuse with 429 and store
      nothing. */
  lemma SharedCap(records: seq<ChatRecord>, views: seq<CourseView>, body: RequestBody, user: Id,
                  openai: seq<Message> -> Completion, gemini: string -> Completion, development: bool)
    requires Usable(body) && |records| >= Cap
    ensures Generate(records, views, body, user, OpenAiAsk(openai), OpenAiErrors(development))
            == Served(Refused(429, LimitReached), records)
    ensures Generate(records, views, body, user, GeminiAsk(gemini), GeminiErrors(development))
            == Served(Refused(429, LimitReached), records)
  {
  }

  /** Alternating providers keeps the cap: a prompt to each in turn, from at most 250
      stored answers, leaves at most 250. */
  lemma {:induction false} AlternatingProvidersKeepCap(records: seq<ChatRecord>, views: seq<CourseView>,
                                                      first: RequestBody, second: RequestBody, user: Id,
                                                      openai: seq<Message> -> Completion, gemini: string -> Completion,
                                                      development: bool)
    requires |records| <= Cap
    ensures var a := Generate(records, views, first, user, OpenAiAsk(openai), OpenAiErrors(development));
            var b := Generate(a.records, views, second, user, GeminiAsk(gemini), GeminiErrors(development));
            |a.records| <= Cap && |b.records| <= Cap
  {
    var a := Generate(records, views, first, user, OpenAiAsk(openai), OpenAiErrors(development));
    CapPreserved(records, views, first, user, OpenAiAsk(openai), OpenAiErrors(development));
    CapPreserved(a.records, views, second, user, GeminiAsk(gemini), GeminiErrors(development));
  }

  /** At the handler, a Gemini error whose message names both an API key and a quota is
      answered as a key problem (401), and nothing is stored. */
  lemma KeyBeforeQuota(records: seq<ChatRecord>, views: seq<CourseView>, body: RequestBody, user: Id,
                       gemini: string -> Completion, development: bool, code: Option<string>, m: string)
    requires Refusal<GenerateData>(body, |records|).None? && CourseContext(views).Some?
    requires gemini(FullPrompt(SystemPrompt(CourseContext(views).value), body.prompt.value)) == Failed(Fault(code, Some(m)))
    requires Contains(m, "API key") && Contains(m, "quota")
    ensures Generate(records, views, body, user, GeminiAsk(gemini), GeminiErrors(development))
            == Served(Faulted(401, "Invalid Gemini API key"), records)
  {
    assert GeminiAsk(gemini)(SystemPrompt(CourseContext(views).value), body.prompt.value)
           == Failed(Fault(code, Some(m)));
  }
}
