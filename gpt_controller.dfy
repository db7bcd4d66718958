/** The assistant handlers (backend/controllers/gptController.js): usage figures, answering a
    prompt under a platform-wide cap of 250 stored answers, and the paged chat history. The
    chat provider is a parameter; what it is asked, and what is stored from its answer, is
    modelled. */
module GptController {
  import opened Wrappers
  import opened Db
  import opened Http
  import opened Text
  import opened ChatModel
  import opened CourseController
  import opened CourseModel
  import opened UserModel

  /** The platform-wide number of stored answers after which prompts are refused. */
  const Cap := 250

  const UsageFailed := "Error fetching API usage"
  const BodyRequired := "Request body is required"
  const PromptRequired := "Prompt is required"
  const LimitReached := "API request limit reached (250/250)"
  const GenerateFailed := "Error generating response"
  const HistoryFailed := "Error fetching chat history"

  /** `Math.max(0, 250 - total)` */
  function Remaining(total: nat): (r: nat)
    ensures r <= Cap
    ensures r == 0 <==> total >= Cap
    ensures r > 0 ==> r + total == Cap
  {
    if total >= Cap then 0 else Cap - total
  }

  /** The `data` of `getApiUsage`. */
  datatype UsageStats = UsageStats(totalApiRequests: nat, userRequests: nat, remainingRequests: nat)

  /** `getApiUsage`: the platform-wide count, the caller's count and what is left. */
  function GetApiUsage(records: seq<ChatRecord>, user: Id): (r: Reply<UsageStats>)
    ensures r.code == 200 && r.body.Envelope? && r.body.status == Success && r.body.message.None?
    ensures r.body.data.Some?
    ensures var d := r.body.data.value;
            && d.totalApiRequests == |records|
            && d.userRequests == CountFor(records, user) <= d.totalApiRequests
            && d.remainingRequests == Remaining(|records|)
  {
    Reply(200, Envelope(Success, None, Some(UsageStats(|records|, CountFor(records, user), Remaining(|records|))), None))
  }

  /** The request body: not an object (absent, null or a scalar), or an object whose `prompt`
      is a string (None when the field is absent or falsy). */
  datatype RequestBody = NotAnObject | Object(prompt: Option<string>)

  /** A usable prompt: present and not only spaces. */
  predicate Usable(body: RequestBody) {
    body.Object? && body.prompt.Some? && Trim(body.prompt.value) != ""
  }

  /** The three early refusals, in the order the handler makes them; None lets the request
      through. */
  function Refusal<T>(body: RequestBody, total: nat): (r: Option<Reply<T>>)
    ensures r.None? <==> Usable(body) && total < Cap
    ensures body.NotAnObject? ==> r == Some(Refused(400, BodyRequired))
    ensures body.Object? && !Usable(body) ==> r == Some(Refused(400, PromptRequired))
    ensures Usable(body) && total >= Cap ==> r == Some(Refused(429, LimitReached))
  {
    if body.NotAnObject? then Some(Refused(400, BodyRequired))
    else if body.prompt.None? || Trim(body.prompt.value) == "" then Some(Refused(400, PromptRequired))
    else if total >= Cap then Some(Refused(429, LimitReached))
    else None
  }

  /** One line of the course context. */
  function CourseLine(title: string, description: string, instructor: string): string {
    "- " + title + ": " + description + " (Instructor: " + instructor + ")"
  }

  /** The course context: one line per course, joined by newlines; None when a course has
      no instructor, where reading `course.instructor.name` throws. */
  function CourseContext(views: seq<CourseView>): (ctx: Option<string>)
    ensures ctx.Some? <==> forall k :: 0 <= k < |views| ==> views[k].instructor.Some?
  {
    if forall k :: 0 <= k < |views| ==> views[k].instructor.Some? then
      Some(Join(seq(|views|, k requires 0 <= k < |views| =>
        CourseLine(views[k].title, views[k].description, views[k].instructor.value.name)), "\n"))
    else None
  }

  /** The fixed parts of a course line hold no newline. */
  lemma LineSeparatorsHaveNoNewline()
    ensures Occurrences("- ", '\n') == 0 && Occurrences(": ", '\n') == 0
    ensures Occurrences(" (Instructor: ", '\n') == 0 && Occurrences(")", '\n') == 0
  {
    NoOccurrences("- ", '\n');
    NoOccurrences(": ", '\n');
    NoOccurrences(" (Instructor: ", '\n');
    NoOccurrences(")", '\n');
  }

  lemma {:induction false} CourseLineHasNoNewline(title: string, description: string, instructor: string)
    requires Occurrences(title, '\n') == 0 && Occurrences(description, '\n') == 0 && Occurrences(instructor, '\n') == 0
    ensures Occurrences(CourseLine(title, description, instructor), '\n') == 0
  {
    var p1, p2, p3, p4 := "- ", ": ", " (Instructor: ", ")";
    LineSeparatorsHaveNoNewline();
    var a := p1 + title;
    OccurrencesConcat(p1, title, '\n');
    var b := a + p2;
    OccurrencesConcat(a, p2, '\n');
    var c := b + description;
    OccurrencesConcat(b, description, '\n');
    var d := c + p3;
    OccurrencesConcat(c, p3, '\n');
    var e := d + instructor;
    OccurrencesConcat(d, instructor, '\n');
    OccurrencesConcat(e, p4, '\n');
  }

  /** When titles, descriptions and instructor names hold no newline, the context holds
      exactly one line per course. */
  lemma {:induction false} OneLinePerCourse(views: seq<CourseView>)
    requires |views| > 0
    requires forall k :: 0 <= k < |views| ==> views[k].instructor.Some?
    requires forall k :: 0 <= k < |views| ==>
               && Occurrences(views[k].title, '\n') == 0 && Occurrences(views[k].description, '\n') == 0
               && Occurrences(views[k].instructor.value.name, '\n') == 0
    ensures CourseContext(views).Some? && Occurrences(CourseContext(views).value, '\n') == |views| - 1
  {
    var lines := seq(|views|, k requires 0 <= k < |views| =>
      CourseLine(views[k].title, views[k].description, views[k].instructor.value.name));
    forall k | 0 <= k < |lines|
      ensures Occurrences(lines[k], '\n') == 0
    {
      CourseLineHasNoNewline(views[k].title, views[k].description, views[k].instructor.value.name);
    }
    JoinSeparators(lines, '\n');
  }

  /** The part of the system prompt before the context (the space before the blank line is
      there in the source). */
  const PromptHead := "You are EduBot, a helpful assistant for an online learning platform. \n\nAvailable courses:\n"
  const PromptTail := "\n\nHelp students with:\n- Course recommendations based on interests/goals\n- Course information and prerequisites\n- Learning paths and study advice\n- Platform navigation\n\nBe friendly, concise, and educational-focused. Redirect off-topic questions politely."

  function SystemPrompt(ctx: string): (p: string)
    ensures |p| == |PromptHead| + |ctx| + |PromptTail|
    ensures PromptHead <= p && p[|PromptHead|..|PromptHead| + |ctx|] == ctx
    ensures p[|PromptHead| + |ctx|..] == PromptTail
  {
    PromptHead + ctx + PromptTail
  }

  /** The system prompt determines the context it was built from. */
  lemma SystemPromptInjective(a: string, b: string)
    requires SystemPrompt(a) == SystemPrompt(b)
    ensures a == b
  {
    assert |a| == |b|;
  }

  /** An error the handler catches: its `code` and its `message`, each possibly undefined. */
  datatype Fault = Fault(code: Option<string>, message: Option<string>)

  /** The error reading `course.instructor.name` raises on a course without instructor. */
  const NullInstructor := Fault(None, Some("Cannot read properties of null (reading 'name')"))
  /** The validation error of `save()` when the provider's text is empty or missing. */
  const ResponseMissing := Fault(None, Some("GPT validation failed: response: Path `response` is required."))

  /** What the provider returns: the text of its answer (None when it has none), or an error. */
  datatype Completion = Content(text: Option<string>) | Failed(fault: Fault)

  /** The provider gave a text that the schema accepts. */
  predicate Answers(c: Completion) {
    c.Content? && c.text.Some? && c.text.value != ""
  }

  datatype ApiUsage = ApiUsage(totalRequests: nat, remainingRequests: nat, userRequests: nat)

  /** The `data` of a generated answer. */
  datatype GenerateData = GenerateData(response: string, apiUsage: ApiUsage)

  /** The reply and the chat records after a prompt. */
  datatype Served = Served(reply: Reply<GenerateData>, records: seq<ChatRecord>)

  /** `generateResponse`, with the provider call and the error handling of the catch block as
      parameters: `ask(systemPrompt, prompt)` is the provider's answer, `onError` the reply to
      a caught error. An answer is stored, and replied with, only when it passes the checks,
      the context builds and the provider gives a non-empty text. */
  function Generate(records: seq<ChatRecord>, views: seq<CourseView>, body: RequestBody, user: Id,
                    ask: (string, string) -> Completion, onError: Fault -> Reply<GenerateData>): (s: Served)
    ensures s.records == records || (|s.records| == |records| + 1 && s.records[..|records|] == records)
    ensures s.records != records <==> && Refusal<GenerateData>(body, |records|).None? && CourseContext(views).Some?
                                       && Answers(ask(SystemPrompt(CourseContext(views).value), body.prompt.value))
    ensures Refusal<GenerateData>(body, |records|).Some? ==> s == Served(Refusal<GenerateData>(body, |records|).value, records)
    ensures Refusal<GenerateData>(body, |records|).None? && CourseContext(views).None? ==>
              s == Served(onError(NullInstructor), records)
    ensures Refusal<GenerateData>(body, |records|).None? && CourseContext(views).Some? ==>
              var a := ask(SystemPrompt(CourseContext(views).value), body.prompt.value);
              && (a.Failed? ==> s == Served(onError(a.fault), records))
              && (a.Content? && !Answers(a) ==> s == Served(onError(ResponseMissing), records))
              && (Answers(a) ==>
                    && s.records == records + [ChatRecord(Trim(body.prompt.value), a.text.value, user)]
                    && s.reply == Reply(200, Envelope(Success, None, Some(GenerateData(a.text.value,
                         ApiUsage(|records| + 1, Remaining(|records| + 1), CountFor(records, user) + 1))), None)))
  {
    var refusal := Refusal(body, |records|);
    if refusal.Some? then Served(refusal.value, records)
    else
      var ctx := CourseContext(views);
      if ctx.None? then Served(onError(NullInstructor), records)
      else
        var prompt := body.prompt.value;
        match ask(SystemPrompt(ctx.value), prompt)
        case Failed(f) => Served(onError(f), records)
        case Content(text) =>
          if text.None? || text.value == "" then Served(onError(ResponseMissing), records)
          else
            var saved := ChatRecord(Trim(prompt), text.value, user);
            var after := records + [saved];
            HistoryAfterSave(records, saved, user);
            Served(Reply(200, Envelope(Success, None, Some(GenerateData(text.value,
              ApiUsage(|after|, Remaining(|after|), CountFor(after, user)))), None)), after)
  }

  /** `generateResponse` on the live collection. */
  method Serve(log: ChatLog, views: seq<CourseView>, body: RequestBody, user: Id,
               ask: (string, string) -> Completion, onError: Fault -> Reply<GenerateData>) returns (reply: Reply<GenerateData>)
    modifies log
    ensures Served(reply, log.records) == Generate(old(log.records), views, body, user, ask, onError)
  {
    var refusal := Refusal(body, |log.records|);
    if refusal.Some? {
      return refusal.value;
    }
    var ctx := CourseContext(views);
    if ctx.None? {
      return onError(NullInstructor);
    }
    var prompt := body.prompt.value;
    var answer := ask(SystemPrompt(ctx.value), prompt);
    if answer.Failed? {
      return onError(answer.fault);
    }
    var saved := log.Save(ChatRecord(Trim(prompt), answer.text.GetOr(""), user));
    if !saved {
      return onError(ResponseMissing);
    }
    var total := |log.records|;
    reply := Reply(200, Envelope(Success, None, Some(GenerateData(answer.text.value,
      ApiUsage(total, Remaining(total), CountFor(log.records, user)))), None));
  }

  /** A refused request never reaches the provider: the outcome does not depend on it, and
      nothing is stored. */
  lemma RefusedBeforeProvider(records: seq<ChatRecord>, views: seq<CourseView>, body: RequestBody, user: Id,
                              ask1: (string, string) -> Completion, ask2: (string, string) -> Completion,
                              onError: Fault -> Reply<GenerateData>)
    requires !Usable(body) || |records| >= Cap
    ensures Generate(records, views, body, user, ask1, onError) == Generate(records, views, body, user, ask2, onError)
    ensures Generate(records, views, body, user, ask1, onError) == Served(Refusal(body, |records|).value, records)
  {
  }

  /** The cap holds: from at most 250 stored answers, a prompt never takes the count above 250. */
  lemma CapPreserved(records: seq<ChatRecord>, views: seq<CourseView>, body: RequestBody, user: Id,
                     ask: (string, string) -> Completion, onError: Fault -> Reply<GenerateData>)
    requires |records| <= Cap
    ensures |Generate(records, views, body, user, ask, onError).records| <= Cap
  {
  }

  /** An answered prompt goes to the front of the caller's history, trimmed, and the
      remaining count goes down by one. */
  lemma {:induction false} AnsweredPromptHeadsHistory(records: seq<ChatRecord>, views: seq<CourseView>, body: RequestBody, user: Id,
                                                     ask: (string, string) -> Completion, onError: Fault -> Reply<GenerateData>)
    requires Generate(records, views, body, user, ask, onError).reply.code == 200
    requires Generate(records, views, body, user, ask, onError).records != records
    ensures var s := Generate(records, views, body, user, ask, onError);
            && HistoryOf(s.records, user)[0].prompt == Trim(body.prompt.value)
            && HistoryOf(s.records, user)[1..] == HistoryOf(records, user)
            && Remaining(|s.records|) == Remaining(|records|) - 1
  {
    var s := Generate(records, views, body, user, ask, onError);
    HistoryAfterSave(records, s.records[|records|], user);
    assert s.records == records + [s.records[|records|]];
  }

  /** The OpenAI chat call: the system prompt, then the prompt as the user typed it. */
  datatype Message = Message(role: string, content: string)

  function OpenAiAsk(openai: seq<Message> -> Completion): (string, string) -> Completion {
    (system: string, prompt: string) => openai([Message("system", system), Message("user", prompt)])
  }

  /** The catch block of the OpenAI handler: by the error's `code`; the message of any other
      error only in development. */
  function OpenAiError(f: Fault, development: bool): (r: Reply<GenerateData>)
    ensures f.code == Some("insufficient_quota") ==> r == Faulted(402, "OpenAI API quota exceeded")
    ensures f.code == Some("invalid_api_key") ==> r == Faulted(401, "Invalid OpenAI API key")
    ensures f.code != Some("insufficient_quota") && f.code != Some("invalid_api_key") ==>
              r == Reply(500, Envelope(Error, Some(GenerateFailed), None, if development then f.message else None))
  {
    if f.code == Some("insufficient_quota") then Faulted(402, "OpenAI API quota exceeded")
    else if f.code == Some("invalid_api_key") then Faulted(401, "Invalid OpenAI API key")
    else Reply(500, Envelope(Error, Some(GenerateFailed), None, if development then f.message else None))
  }

  function OpenAiErrors(development: bool): Fault -> Reply<GenerateData> {
    (f: Fault) => OpenAiError(f, development)
  }

  /** `generateResponse` of the OpenAI handler. */
  method GenerateResponse(log: ChatLog, views: seq<CourseView>, body: RequestBody, user: Id,
                          openai: seq<Message> -> Completion, development: bool) returns (reply: Reply<GenerateData>)
    modifies log
    ensures Served(reply, log.records) == Generate(old(log.records), views, body, user, OpenAiAsk(openai), OpenAiErrors(development))
  {
    reply := Serve(log, views, body, user, OpenAiAsk(openai), OpenAiErrors(development));
  }

  /** A course without instructor breaks every prompt that passes the checks: a 500, and the
      provider is not asked. */
  lemma OrphanCourseBreaksAssistant(records: seq<ChatRecord>, views: seq<CourseView>, body: RequestBody, user: Id,
                                    openai: seq<Message> -> Completion, k: nat)
    requires Usable(body) && |records| < Cap
    requires k < |views| && views[k].instructor.None?
    ensures Generate(records, views, body, user, OpenAiAsk(openai), OpenAiErrors(false))
            == Served(Reply(500, Envelope(Error, Some(GenerateFailed), None, None)), records)
  {
  }

  /** The course list the handler reads is `Catalog` of the course table: once the instructor
      of any course has been deleted, every admitted prompt fails with 500 and nothing is
      stored. */
  lemma DeletedInstructorBreaksAssistant(records: seq<ChatRecord>, courses: map<Id, Course>, n: nat,
                                         users: map<Id, User>, body: RequestBody, user: Id,
                                         openai: seq<Message> -> Completion, c: Id)
    requires Indexed(courses, n) && c in courses && courses[c].instructor !in users
    requires Usable(body) && |records| < Cap
    ensures Generate(records, Catalog(courses, n, users), body, user, OpenAiAsk(openai), OpenAiErrors(false))
            == Served(Reply(500, Envelope(Error, Some(GenerateFailed), None, None)), records)
  {
    var views := Catalog(courses, n, users);
    var k :| 0 <= k < |views| && views[k].id == c;
    OrphanCourseBreaksAssistant(records, views, body, user, openai, k);
  }

  /** At the handler, an OpenAI error with code `insufficient_quota` is answered with 402,
      and nothing is stored. */
  lemma QuotaFaultIs402(records: seq<ChatRecord>, views: seq<CourseView>, body: RequestBody, user: Id,
                        openai: seq<Message> -> Completion, development: bool, message: Option<string>)
    requires Refusal<GenerateData>(body, |records|).None? && CourseContext(views).Some?
    requires openai([Message("system", SystemPrompt(CourseContext(views).value)), Message("user", body.prompt.value)])
             == Failed(Fault(Some("insufficient_quota"), message))
    ensures Generate(records, views, body, user, OpenAiAsk(openai), OpenAiErrors(development))
            == Served(Faulted(402, "OpenAI API quota exceeded"), records)
  {
    assert OpenAiAsk(openai)(SystemPrompt(CourseContext(views).value), body.prompt.value)
           == Failed(Fault(Some("insufficient_quota"), message));
  }

  /** `parseInt(value) || fallback`: None stands for NaN (an absent or unparsable value). */
  function QueryNumber(q: Option<int>, fallback: int): (r: int)
    ensures q.Some? && q.value != 0 ==> r == q.value
    ensures q.None? || q.value == 0 ==> r == fallback
  {
    if q.None? || q.value == 0 then fallback else q.value
  }

  /** `Math.ceil(a / b)` */
  function CeilDiv(a: nat, b: int): (r: int)
    requires b != 0
    ensures b > 0 ==> (r - 1) * b < a <= r * b
    ensures b < 0 ==> r * b <= a < (r - 1) * b
  {
    if b > 0 then (a + b - 1) / b else -(a / -b)
  }

  /** The items `skip` to `skip + take` of `s`, as far as they exist. */
  function Window<T>(s: seq<T>, skip: nat, take: nat): (w: seq<T>)
    ensures |w| <= take
    ensures forall k :: 0 <= k < |w| ==> skip + k < |s| && w[k] == s[skip + k]
    ensures |w| == take || skip + |w| >= |s|
  {
    if skip >= |s| then [] else if skip + take >= |s| then s[skip..] else s[skip..skip + take]
  }

  datatype Pagination = Pagination(currentPage: int, totalPages: int, totalChats: nat, hasNext: bool, hasPrev: bool)

  datatype HistoryData = HistoryData(chats: seq<ChatEntry>, pagination: Pagination)

  /** `getChatHistory`: the caller's chats, newest first, one page of them. A negative skip
      (a page below 1) makes the query fail; a negative limit is taken by its size. */
  function GetChatHistory(records: seq<ChatRecord>, user: Id, pageQuery: Option<int>, limitQuery: Option<int>): (r: Reply<HistoryData>)
    ensures var page := QueryNumber(pageQuery, 1);
            var limit := QueryNumber(limitQuery, 10);
            var skip := (page - 1) * limit;
            && (r.code == 500 <==> skip < 0)
            && (r.code == 500 ==> r == Faulted(500, HistoryFailed))
            && (r.code != 500 ==>
                  && r.code == 200 && r.body.Envelope? && r.body.message.None? && r.body.data.Some?
                  && r.body.data.value.chats == Window(HistoryOf(records, user), skip, if limit < 0 then -limit else limit)
                  && r.body.data.value.pagination
                     == Pagination(page, CeilDiv(CountFor(records, user), limit), CountFor(records, user),
                                   page < CeilDiv(CountFor(records, user), limit), page > 1))
  {
    var page := QueryNumber(pageQuery, 1);
    var limit := QueryNumber(limitQuery, 10);
    var skip := (page - 1) * limit;
    if skip < 0 then Faulted(500, HistoryFailed)
    else
      var total := CountFor(records, user);
      var chats := Window(HistoryOf(records, user), skip, if limit < 0 then -limit else limit);
      var pages := CeilDiv(total, limit);
      Reply(200, Envelope(Success, None, Some(HistoryData(chats, Pagination(page, pages, total, page < pages, page > 1))), None))
  }
  lemma ScaleMonotone(a: int, b: int, l: int)
    requires a <= b && l > 0
    ensures a * l <= b * l
  {
  }

  /** A positive page is before the last page exactly when chats exist beyond it. */
  lemma {:induction false} PagesAhead(page: int, limit: int, total: nat)
    requires page >= 1 && limit >= 1
    ensures page < CeilDiv(total, limit) <==> page * limit < total
  {
    var c := CeilDiv(total, limit);
    if page < c {
      ScaleMonotone(page, c - 1, limit);
    } else {
      ScaleMonotone(c, page, limit);
    }
  }

  /** With a positive page and limit, `hasNext` says exactly that chats exist beyond this
      page, and the page holds `limit` chats unless it is the last. */
  lemma {:induction false} HasNextMeansMore(records: seq<ChatRecord>, user: Id, pageQuery: Option<int>, limitQuery: Option<int>)
    requires QueryNumber(pageQuery, 1) >= 1 && QueryNumber(limitQuery, 10) >= 1
    ensures var page := QueryNumber(pageQuery, 1);
            var limit := QueryNumber(limitQuery, 10);
            var total := CountFor(records, user);
            var r := GetChatHistory(records, user, pageQuery, limitQuery);
            && r.code == 200
            && (r.body.data.value.pagination.hasNext <==> page * limit < total)
            && (page * limit <= total ==> |r.body.data.value.chats| == limit)
  {
    var page := QueryNumber(pageQuery, 1);
    var limit := QueryNumber(limitQuery, 10);
    var skip := (page - 1) * limit;
    PagesAhead(page, limit, CountFor(records, user));
    ScaleMonotone(0, page - 1, limit);
    assert skip + limit == page * limit;
  }

  /** Page `k / limit + 1` starts at `k - k % limit`, and `k` lies `k % limit` into it. */
  lemma PageStart(k: nat, limit: int)
    requires limit >= 1
    ensures (k / limit + 1 - 1) * limit == k - k % limit
    ensures 0 <= k % limit < limit && k / limit + 1 >= 1
  {
  }

  /** The chat at position `k` of the history, newest first, is shown on page
      `k / limit + 1`, at position `k % limit`. */
  lemma {:induction false} EveryChatOnItsPage(records: seq<ChatRecord>, user: Id, k: nat, limit: int)
    requires k < CountFor(records, user) && limit >= 1
    ensures var r := GetChatHistory(records, user, Some(k / limit + 1), Some(limit));
            && r.code == 200
            && k % limit < |r.body.data.value.chats|
            && r.body.data.value.chats[k % limit] == HistoryOf(records, user)[k]
  {
    PageStart(k, limit);
    var page, at := k / limit + 1, k % limit;
    var skip := k - at;
    assert QueryNumber(Some(page), 1) == page && QueryNumber(Some(limit), 10) == limit;
    assert (page - 1) * limit == skip;
    var w := Window(HistoryOf(records, user), skip, limit);
    assert at < |w| && w[at] == HistoryOf(records, user)[k];
  }
}
