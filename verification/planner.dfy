/** The decision logic of the task planner: which provider answers a command, when Groq is
    asked as a fallback, how a missing answer propagates, and which planned tasks survive
    validation. The HTTP clients and the response parser are parameters. */
module Planner {
  import opened Wrappers
  import Text

  // ---- Task validation --------------------------------------------------------------------

  /** A planned task: its action name and the names of the parameters it carries. */
  datatype Task = Task(action: string, parameters: set<string>)

  /** `task.hasParameters(k1, ..., kn)`: every named parameter is present. */
  predicate HasParameters(t: Task, keys: set<string>) {
    keys <= t.parameters
  }

  /** The switch in `validateTask`: each known action with the parameters it needs; any other
      action is rejected. */
  predicate ValidateTask(t: Task) {
    match t.action
    case "pathfind" => HasParameters(t, {"x", "y", "z"})
    case "mine" => HasParameters(t, {"block", "quantity"})
    case "place" => HasParameters(t, {"block", "x", "y", "z"})
    case "craft" => HasParameters(t, {"item", "quantity"})
    case "attack" => HasParameters(t, {"target"})
    case "follow" => HasParameters(t, {"player"})
    case "gather" => HasParameters(t, {"resource", "quantity"})
    case "build" => HasParameters(t, {"structure", "blocks", "dimensions"})
    case _ => false
  }

  /** The required-parameter table, as data. */
  const RequiredKeys: map<string, set<string>> := map[
    "pathfind" := {"x", "y", "z"},
    "mine" := {"block", "quantity"},
    "place" := {"block", "x", "y", "z"},
    "craft" := {"item", "quantity"},
    "attack" := {"target"},
    "follow" := {"player"},
    "gather" := {"resource", "quantity"},
    "build" := {"structure", "blocks", "dimensions"}
  ]

  /** Validation is exactly the table: the action is listed and every key it lists is present.
      In particular an action outside the table never validates. */
  lemma ValidateMatchesTable(t: Task)
    ensures ValidateTask(t) <==> t.action in RequiredKeys && RequiredKeys[t.action] <= t.parameters
    ensures t.action !in RequiredKeys ==> !ValidateTask(t)
  {
  }

  /** A stream filter: the tasks of `ts` that `keep` accepts, in their original order. */
  function Filter(ts: seq<Task>, keep: Task -> bool): (r: seq<Task>)
    ensures |r| <= |ts|
    ensures forall k :: 0 <= k < |r| ==> keep(r[k])
  {
    if |ts| == 0 then []
    else (if keep(ts[0]) then [ts[0]] else []) + Filter(ts[1..], keep)
  }

  /** `validateAndFilterTasks`: keep the tasks that validate. */
  function FilterTasks(ts: seq<Task>): seq<Task> {
    Filter(ts, ValidateTask)
  }

  /** Filtering a concatenation filters each part: the filter decides task by task. */
  lemma {:induction false} FilterAppend(a: seq<Task>, b: seq<Task>, keep: Task -> bool)
    ensures Filter(a + b, keep) == Filter(a, keep) + Filter(b, keep)
  {
    if |a| == 0 {
      assert a + b == b;
    } else {
      assert (a + b)[0] == a[0];
      assert (a + b)[1..] == a[1..] + b;
      FilterAppend(a[1..], b, keep);
    }
  }

  /** A single task survives exactly when it is accepted. */
  lemma FilterOne(t: Task, keep: Task -> bool)
    ensures Filter([t], keep) == (if keep(t) then [t] else [])
  {
    assert [t][1..] == [];
  }

  /** The survivors are exactly the tasks of the input that are accepted. */
  lemma {:induction false} FilterMembers(ts: seq<Task>, keep: Task -> bool, t: Task)
    ensures t in Filter(ts, keep) <==> t in ts && keep(t)
  {
    if |ts| > 0 {
      FilterMembers(ts[1..], keep, t);
      assert ts == [ts[0]] + ts[1..];
      assert t in ts <==> t == ts[0] || t in ts[1..];
    }
  }

  /** Every accepted task survives as often as it occurs in the input; a rejected one never. */
  lemma {:induction false} FilterCount(ts: seq<Task>, keep: Task -> bool, t: Task)
    ensures multiset(Filter(ts, keep))[t] == if keep(t) then multiset(ts)[t] else 0
  {
    if |ts| > 0 {
      FilterCount(ts[1..], keep, t);
      var head := if keep(ts[0]) then [ts[0]] else [];
      assert Filter(ts, keep) == head + Filter(ts[1..], keep);
      assert ts == [ts[0]] + ts[1..];
      assert multiset(ts) == multiset([ts[0]]) + multiset(ts[1..]);
    }
  }

  /** Filtering a filtered list changes nothing. */
  lemma {:induction false} FilterIdempotent(ts: seq<Task>, keep: Task -> bool)
    ensures Filter(Filter(ts, keep), keep) == Filter(ts, keep)
  {
    if |ts| > 0 {
      var head := if keep(ts[0]) then [ts[0]] else [];
      FilterIdempotent(ts[1..], keep);
      FilterAppend(head, Filter(ts[1..], keep), keep);
      if keep(ts[0]) {
        FilterOne(ts[0], keep);
      }
    }
  }

  /** `r` is `ts` with some elements dropped, the rest kept in order. */
  predicate IsSubsequence(r: seq<Task>, ts: seq<Task>)
    decreases |ts|
  {
    if |r| == 0 then true
    else if |ts| == 0 then false
    else (r[0] == ts[0] && IsSubsequence(r[1..], ts[1..])) || IsSubsequence(r, ts[1..])
  }

  /** The survivors keep their relative order: they form a subsequence of the input. */
  lemma {:induction false} FilterIsSubsequence(ts: seq<Task>, keep: Task -> bool)
    ensures IsSubsequence(Filter(ts, keep), ts)
  {
    if |ts| > 0 {
      var tail := Filter(ts[1..], keep);
      FilterIsSubsequence(ts[1..], keep);
      if keep(ts[0]) {
        var r := Filter(ts, keep);
        assert r == [ts[0]] + tail;
        assert r[0] == ts[0] && r[1..] == tail;
      } else {
        assert Filter(ts, keep) == tail;
      }
    }
  }

  /** `validateAndFilterTasks` returns exactly the valid tasks, in order and with their
      multiplicities, and is idempotent. */
  lemma FilterTasksKeepsValid(ts: seq<Task>)
    ensures IsSubsequence(FilterTasks(ts), ts)
    ensures forall t :: t in FilterTasks(ts) <==> t in ts && ValidateTask(t)
    ensures FilterTasks(FilterTasks(ts)) == FilterTasks(ts)
    ensures forall t :: multiset(FilterTasks(ts))[t] == if ValidateTask(t) then multiset(ts)[t] else 0
  {
    FilterIsSubsequence(ts, ValidateTask);
    forall t ensures t in FilterTasks(ts) <==> t in ts && ValidateTask(t) {
      FilterMembers(ts, ValidateTask, t);
    }
    FilterIdempotent(ts, ValidateTask);
    forall t ensures multiset(FilterTasks(ts))[t] == if ValidateTask(t) then multiset(ts)[t] else 0 {
      FilterCount(ts, ValidateTask, t);
    }
  }

  // ---- Provider dispatch and fallback ------------------------------------------------------

  /** The three LLM clients. */
  datatype Provider = Groq | Gemini | OpenAI

  /** The switch in `getAIResponse` on the (already lower-cased) provider name. Unknown
      names go to Groq. */
  function Route(provider: string): (c: Provider)
    ensures c == Gemini <==> provider == "gemini"
    ensures c == OpenAI <==> provider == "openai"
    ensures c == Groq <==> provider != "gemini" && provider != "openai"
  {
    match provider
    case "groq" => Groq
    case "gemini" => Gemini
    case "openai" => OpenAI
    case _ => Groq
  }

  /** A client's answer to the `n`-th request of one planning round; `None` is a failed request
      (the client returns `null`). */
  type Respond = (Provider, nat) -> Option<string>

  /** `getAIResponse`: ask the routed client; if it fails and the provider is not literally
      "groq", ask Groq once more. Returns the answer and the clients asked, in order. */
  function GetAIResponse(provider: string, respond: Respond): (r: (Option<string>, seq<Provider>))
    ensures 1 <= |r.1| <= 2
    ensures r.1[0] == Route(provider)
    ensures |r.1| == 2 ==> r.1[1] == Groq
  {
    var first := Route(provider);
    var answer := respond(first, 0);
    if answer.None? && provider != "groq" then (respond(Groq, 1), [first, Groq])
    else (answer, [first])
  }

  /** The fallback is taken exactly when the first answer failed and the provider is not "groq";
      the answer returned is the last one received, and it is missing only when every request
      failed. */
  lemma FallbackRule(provider: string, respond: Respond)
    ensures |GetAIResponse(provider, respond).1| == 2
        <==> respond(Route(provider), 0).None? && provider != "groq"
    ensures GetAIResponse(provider, respond).0.None?
        <==> forall n :: 0 <= n < |GetAIResponse(provider, respond).1| ==>
                respond(GetAIResponse(provider, respond).1[n], n).None?
    ensures GetAIResponse(provider, respond).0.Some? ==>
              var calls := GetAIResponse(provider, respond).1;
              GetAIResponse(provider, respond).0 == respond(calls[|calls| - 1], |calls| - 1)
  {
  }

  /** Provider "groq" is asked exactly once, whatever it answers. */
  lemma GroqAskedOnce(respond: Respond)
    ensures GetAIResponse("groq", respond).1 == [Groq]
    ensures GetAIResponse("groq", respond).0 == respond(Groq, 0)
  {
  }

  /** An unknown provider whose first request fails makes Groq answer twice. */
  lemma UnknownProviderAsksGroqTwice(provider: string, respond: Respond)
    requires provider != "groq" && provider != "gemini" && provider != "openai"
    requires respond(Groq, 0).None?
    ensures GetAIResponse(provider, respond).1 == [Groq, Groq]
    ensures GetAIResponse(provider, respond).0 == respond(Groq, 1)
  {
  }

  // ---- planTasks -----------------------------------------------------------------------------

  /** `planTasks`: lower-case the configured provider, get a response, parse it. A missing
      response or a failed parse is a missing plan. */
  function PlanTasks<P>(configured: string, respond: Respond, parse: string -> Option<P>): (r: Option<P>)
  {
    match GetAIResponse(Text.Lower(configured), respond).0
    case None => None
    case Some(text) => parse(text)
  }

  /** A plan exists exactly when some response arrived and it parsed; the plan is the parse of
      that response. */
  lemma PlanTasksNull<P>(configured: string, respond: Respond, parse: string -> Option<P>)
    ensures PlanTasks(configured, respond, parse).Some?
        <==> GetAIResponse(Text.Lower(configured), respond).0.Some?
             && parse(GetAIResponse(Text.Lower(configured), respond).0.value).Some?
    ensures GetAIResponse(Text.Lower(configured), respond).0.None? ==> PlanTasks(configured, respond, parse).None?
    ensures GetAIResponse(Text.Lower(configured), respond).0.Some? ==>
      PlanTasks(configured, respond, parse) == parse(GetAIResponse(Text.Lower(configured), respond).0.value)
  {
  }

  /** The provider setting is case-insensitive: names with the same lower-case form plan alike. */
  lemma PlanIgnoresCase<P>(a: string, b: string, respond: Respond, parse: string -> Option<P>)
    requires Text.Lower(a) == Text.Lower(b)
    ensures PlanTasks(a, respond, parse) == PlanTasks(b, respond, parse)
    ensures GetAIResponse(Text.Lower(a), respond).1 == GetAIResponse(Text.Lower(b), respond).1
  {
  }
}
