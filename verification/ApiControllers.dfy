/** `McmaApiController`: how a request finds its route, and what it is answered if it finds none. */
module ApiControllers {
  import opened Wrappers
  import opened Text
  import opened ApiPipelines

  /** A response as handlers see it; of a body only whether there is one. */
  datatype Reply = Reply(statusCode: nat, headers: map<string, string>, hasBody: bool)

  /** A handler changes the response, or throws. */
  type Handler = Reply -> Outcome<Reply>

  datatype ApiRoute = ApiRoute(template: string, httpMethod: string, handler: Handler)

  /** Whether a template matches a path; the library decides. */
  type Templates = (string, string) -> bool

  /** Header names are in lower case. `bodyIsOk` is false for a body that claims to be JSON and is not. */
  datatype Request = Request(httpMethod: string, path: string, headers: map<string, string>, bodyIsOk: bool)

  function DefaultHeaders(): map<string, string> {
    map["Content-Type" := "application/json", "Access-Control-Allow-Origin" := "*"]
  }

  // ---------------------------------------------------------------- the specification

  predicate Matches(t: Templates, route: ApiRoute, request: Request) {
    t(route.template, request.path)
  }

  /** The index of the first route with the template and the method of the request. */
  function First(t: Templates, routes: seq<ApiRoute>, request: Request): (i: nat)
    ensures i <= |routes|
    ensures i < |routes| ==> Matches(t, routes[i], request) && routes[i].httpMethod == request.httpMethod
    ensures forall j | 0 <= j < i :: !(Matches(t, routes[j], request) && routes[j].httpMethod == request.httpMethod)
  {
    if routes == [] || (Matches(t, routes[0], request) && routes[0].httpMethod == request.httpMethod) then 0
    else 1 + First(t, routes[1..], request)
  }

  /** The methods of the routes with the template, in order. */
  function MethodsOf(t: Templates, routes: seq<ApiRoute>, request: Request): seq<string> {
    if routes == [] then []
    else (if Matches(t, routes[0], request) then [routes[0].httpMethod] else []) + MethodsOf(t, routes[1..], request)
  }

  /** A list as the loop writes it: a comma goes in only after something. */
  function Listed(methods: seq<string>): string {
    if methods == [] then ""
    else Extended(Listed(methods[..|methods| - 1]), methods[|methods| - 1])
  }

  function Extended(list: string, method': string): string {
    (if list == "" then "" else list + ", ") + method'
  }

  predicate Contains(s: string, sub: string) {
    exists i :: 0 <= i <= |s| && sub <= s[i..]
  }

  predicate SomeContains(methods: seq<string>, word: string) {
    exists k :: 0 <= k < |methods| && Contains(methods[k], word)
  }

  /** The list with OPTIONS in it. */
  function WithOptions(list: string): string {
    With(list, "OPTIONS")
  }

  function With(list: string, word: string): string {
    if Contains(list, word) then list else Extended(list, word)
  }

  /** The answer to a request whose path has routes, but none with its method. */
  function Unmatched(list: string, request: Request, reply: Reply): Reply {
    var allowed, headers := WithOptions(list), request.headers;
    if request.httpMethod != "OPTIONS" then Reply(405, DefaultHeaders()["Allow" := allowed], true)
    else if "access-control-request-method" in headers && headers["access-control-request-method"] != "" then
      var cors := DefaultHeaders()["Access-Control-Allow-Methods" := allowed];
      if "access-control-request-headers" in headers && headers["access-control-request-headers"] != "" then
        reply.(statusCode := 200, headers := cors["Access-Control-Allow-Headers" := headers["access-control-request-headers"]])
      else reply.(statusCode := 200, headers := cors)
    else reply.(statusCode := 200, headers := DefaultHeaders()["Allow" := allowed])
  }

  /** What is left to do after a handler. */
  function Finished(reply: Reply): Reply {
    if reply.statusCode / 200 * 200 == 400 then reply.(hasBody := true)
    else if reply.statusCode == 0 then reply.(statusCode := 200)
    else reply
  }

  /** What a handler leaves behind, once it is finished. */
  function Handled(handled: Outcome<Reply>): Outcome<Reply> {
    match handled
    case Threw(_, _) => handled
    case Returned(reply) => Returned(Finished(reply))
  }

  function Processed(t: Templates, routes: seq<ApiRoute>, request: Request, reply: Reply): Outcome<Reply> {
    var i := First(t, routes, request);
    if !request.bodyIsOk then Returned(reply.(statusCode := 400, hasBody := true))
    else if i < |routes| then Handled(routes[i].handler(reply))
    else if forall j | 0 <= j < |routes| :: !Matches(t, routes[j], request) then Returned(Reply(404, DefaultHeaders(), true))
    else Returned(Unmatched(Listed(MethodsOf(t, routes, request)), request, reply))
  }

  // ---------------------------------------------------------------- the loop

  class ApiResponse {
    var statusCode: nat
    var headers: map<string, string>
    var hasBody: bool

    function View(): Reply
      reads this
    {
      Reply(statusCode, headers, hasBody)
    }

    method Become(reply: Reply)
      modifies this
      ensures View() == reply
    {
      statusCode, headers, hasBody := reply.statusCode, reply.headers, reply.hasBody;
    }
  }

  /** What a step that changes a response in place comes to. */
  function OutcomeOf<C>(value: C, error: Option<string>): Outcome<C> {
    match error
    case None => Returned(value)
    case Some(e) => Threw(value, e)
  }

  /** `processRoute`; an error where a handler throws. */
  method ProcessRoute(t: Templates, routes: seq<ApiRoute>, request: Request, response: ApiResponse) returns (error: Option<string>)
    modifies response
    ensures OutcomeOf(response.View(), error) == Processed(t, routes, request, old(response.View()))
  {
    if !request.bodyIsOk {
      response.statusCode := 400;
      response.hasBody := true;
      return None;
    }
    var pathMatched, methodMatched, methodsAllowed, thrown := TryRoutes(t, routes, request, response);
    if thrown.Some? {
      return thrown;
    }
    NoMethods(t, routes, request);
    if !pathMatched {
      response.Become(Reply(404, DefaultHeaders(), true));
    } else if !methodMatched {
      AnswerUnmatched(methodsAllowed, request, response);
    } else {
      response.Become(Finished(response.View()));
    }
    error := None;
  }

  /** The loop of `processRoute` over the routes, up to the one whose handler it calls. */
  method TryRoutes(t: Templates, routes: seq<ApiRoute>, request: Request, response: ApiResponse)
    returns (pathMatched: bool, methodMatched: bool, methodsAllowed: string, thrown: Option<string>)
    modifies response
    ensures methodMatched <==> First(t, routes, request) < |routes|
    ensures methodMatched ==>
      OutcomeOf(response.View(), thrown) == routes[First(t, routes, request)].handler(old(response.View()))
    ensures pathMatched <==> MethodsOf(t, routes, request) != [] || methodMatched
    ensures !methodMatched ==>
      thrown == None && response.View() == old(response.View()) && methodsAllowed == Listed(MethodsOf(t, routes, request))
  {
    pathMatched, methodMatched, methodsAllowed, thrown := false, false, "", None;
    ghost var before := response.View();
    for i := 0 to |routes|
      invariant !methodMatched && thrown == None && response.View() == before
      invariant forall j | 0 <= j < i :: !(Matches(t, routes[j], request) && routes[j].httpMethod == request.httpMethod)
      invariant pathMatched <==> MethodsOf(t, routes[..i], request) != []
      invariant methodsAllowed == Listed(MethodsOf(t, routes[..i], request))
    {
      MethodsPush(t, routes, i, request);
      if t(routes[i].template, request.path) {
        assert Matches(t, routes[i], request);
        pathMatched := true;
        if methodsAllowed != "" {
          methodsAllowed := methodsAllowed + ", ";
        }
        methodsAllowed := methodsAllowed + routes[i].httpMethod;
        if routes[i].httpMethod == request.httpMethod {
          methodMatched := true;
          FirstIs(t, routes, request, i);
          var handled := routes[i].handler(response.View());
          response.Become(handled.value);
          if handled.Threw? {
            thrown := Some(handled.error);
          }
          return;
        }
      }
    }
    assert routes[..|routes|] == routes;
    FirstIs(t, routes, request, |routes|);
  }

  /** The part of `processRoute` for a path that has routes, but none with the method. */
  method AnswerUnmatched(methods: string, request: Request, response: ApiResponse)
    modifies response
    ensures response.View() == Unmatched(methods, request, old(response.View()))
  {
    var methodsAllowed := methods;
    if !Contains(methodsAllowed, "OPTIONS") {
      if methodsAllowed != "" {
        methodsAllowed := methodsAllowed + ", ";
      }
      methodsAllowed := methodsAllowed + "OPTIONS";
    }
    response.headers := DefaultHeaders();
    if request.httpMethod == "OPTIONS" {
      response.statusCode := 200;
      var headers := request.headers;
      if "access-control-request-method" in headers && headers["access-control-request-method"] != "" {
        response.headers := response.headers["Access-Control-Allow-Methods" := methodsAllowed];
        if "access-control-request-headers" in headers && headers["access-control-request-headers"] != "" {
          response.headers := response.headers["Access-Control-Allow-Headers" := headers["access-control-request-headers"]];
        }
      } else {
        response.headers := response.headers["Allow" := methodsAllowed];
      }
    } else {
      response.statusCode := 405;
      response.headers := response.headers["Allow" := methodsAllowed];
      response.hasBody := true;
    }
  }

  // ---------------------------------------------------------------- the pipeline

  /** What a request carries through the pipeline. */
  datatype Exchange = Exchange(request: Request, reply: Reply)

  function Routed(t: Templates, routes: seq<ApiRoute>, x: Exchange): Outcome<Exchange> {
    match Processed(t, routes, x.request, x.reply)
    case Returned(reply) => Returned(x.(reply := reply))
    case Threw(reply, e) => Threw(x.(reply := reply), e)
  }

  function RouteStep(t: Templates, routes: seq<ApiRoute>): Step<Exchange> {
    (x: Exchange) => Routed(t, routes, x)
  }

  function ErrorReply(): Reply {
    Reply(500, DefaultHeaders(), true)
  }

  /** What a request is answered. */
  function Answered(t: Templates, routes: seq<ApiRoute>, middleware: seq<Middleware<Exchange>>, request: Request, reply: Reply): Reply {
    match Run(Nested(middleware), RouteStep(t, routes), Exchange(request, reply.(headers := DefaultHeaders())))
    case Returned(x) => x.reply
    case Threw(_, _) => ErrorReply()
  }

  class McmaApiController {
    const templates: Templates
    const routes: seq<ApiRoute>
    var pipeline: Pipeline<Exchange>

    constructor (templates: Templates, routes: seq<ApiRoute>, middleware: seq<Middleware<Exchange>>)
      ensures this.templates == templates && this.routes == routes && pipeline == Nested(middleware)
    {
      this.templates, this.routes := templates, routes;
      var nested := BuildPipeline(middleware);
      pipeline := nested;
    }

    /** One closure of the pipeline, changing the response in place. */
    method Execute(pipeline: Pipeline<Exchange>, request: Request, response: ApiResponse) returns (request': Request, error: Option<string>)
      modifies response
      ensures OutcomeOf(Exchange(request', response.View()), error)
           == Run(pipeline, RouteStep(templates, routes), Exchange(request, old(response.View())))
      decreases pipeline
    {
      request', error := request, None;
      match pipeline
      case Route =>
        error := ProcessRoute(templates, routes, request, response);
      case Wrapped(m, inner) =>
        var outcome := m.before(Exchange(request, response.View()));
        response.Become(outcome.value.reply);
        if outcome.Returned? && m.goesOn(outcome.value) {
          request', error := Execute(inner, outcome.value.request, response);
          outcome := m.after(OutcomeOf(Exchange(request', response.View()), error));
          response.Become(outcome.value.reply);
        }
        request' := outcome.value.request;
        error := if outcome.Threw? then Some(outcome.error) else None;
    }

    /** `handleRequest`: every request is answered, and with 500 if what a handler or a middleware throws comes out. */
    method HandleRequest(request: Request, response: ApiResponse, ghost middleware: seq<Middleware<Exchange>>)
      requires pipeline == Nested(middleware)
      modifies response
      ensures response.View() == Answered(templates, routes, middleware, request, old(response.View()))
    {
      response.headers := DefaultHeaders();
      var _, thrown := Execute(pipeline, request, response);
      if thrown.Some? {
        response.statusCode := 500;
        response.headers := DefaultHeaders();
        response.hasBody := true;
      }
    }
  }

  /** The answer is what comes out of the layers that went on around the route, or around the one that
      refused; and 500, whatever the layers had done, if something is thrown that none of them catches. */
  lemma AnsweredThroughLayers(t: Templates, routes: seq<ApiRoute>, middleware: seq<Middleware<Exchange>>, request: Request, reply: Reply)
    ensures var x := Exchange(request, reply.(headers := DefaultHeaders()));
            var inner, k := Innermost(middleware, RouteStep(t, routes), x), Entered(middleware, x).1;
            && (Left(middleware[..k], inner).Returned? ==>
                  Answered(t, routes, middleware, request, reply) == Left(middleware[..k], inner).value.reply)
            && (inner.Threw? && (forall i | 0 <= i < k :: ThrowsOn(middleware[i])) ==>
                  var answer := Answered(t, routes, middleware, request, reply);
                  answer.statusCode == 500 && answer.headers == DefaultHeaders() && answer.hasBody)
  {
    var x := Exchange(request, reply.(headers := DefaultHeaders()));
    var inner, k := Innermost(middleware, RouteStep(t, routes), x), Entered(middleware, x).1;
    LayersAreNested(middleware, RouteStep(t, routes), x);
    if inner.Threw? && (forall i | 0 <= i < k :: ThrowsOn(middleware[i])) {
      assert forall i | 0 <= i < k :: middleware[..k][i] == middleware[i];
      ThrownIsThrownOn(middleware[..k], inner);
    }
  }

  lemma {:induction false} MethodsTogether(t: Templates, a: seq<ApiRoute>, b: seq<ApiRoute>, request: Request)
    ensures MethodsOf(t, a + b, request) == MethodsOf(t, a, request) + MethodsOf(t, b, request)
  {
    if a == [] {
      assert a + b == b;
    } else {
      MethodsTogether(t, a[1..], b, request);
      assert (a + b)[1..] == a[1..] + b;
    }
  }

  lemma {:induction false} NoMethods(t: Templates, routes: seq<ApiRoute>, request: Request)
    ensures MethodsOf(t, routes, request) == [] <==> forall j | 0 <= j < |routes| :: !Matches(t, routes[j], request)
  {
    if routes != [] {
      var rest := routes[1..];
      NoMethods(t, rest, request);
      assert forall j | 0 <= j < |rest| :: rest[j] == routes[j + 1];
      assert forall j | 1 <= j < |routes| :: routes[j] == rest[j - 1];
    }
  }

  lemma MethodsPush(t: Templates, routes: seq<ApiRoute>, i: nat, request: Request)
    requires i < |routes|
    ensures var methods, methods' := MethodsOf(t, routes[..i], request), MethodsOf(t, routes[..i + 1], request);
            if Matches(t, routes[i], request)
            then methods' != [] && Listed(methods') == Extended(Listed(methods), routes[i].httpMethod)
            else methods' == methods
  {
    var methods := MethodsOf(t, routes[..i], request);
    MethodsTogether(t, routes[..i], [routes[i]], request);
    assert routes[..i] + [routes[i]] == routes[..i + 1];
    if Matches(t, routes[i], request) {
      assert MethodsOf(t, routes[..i + 1], request) == methods + [routes[i].httpMethod];
      assert (methods + [routes[i].httpMethod])[..|methods|] == methods;
    } else {
      assert methods + [] == methods;
    }
  }

  lemma FirstIs(t: Templates, routes: seq<ApiRoute>, request: Request, i: nat)
    requires i <= |routes|
    requires forall j | 0 <= j < i :: !(Matches(t, routes[j], request) && routes[j].httpMethod == request.httpMethod)
    requires i < |routes| ==> Matches(t, routes[i], request) && routes[i].httpMethod == request.httpMethod
    ensures First(t, routes, request) == i
  {
  }

  // ---------------------------------------------------------------- the list of methods

  predicate AllNamed(methods: seq<string>) {
    forall k | 0 <= k < |methods| :: methods[k] != ""
  }

  /** A word is found in a list just if it is found in an element. */
  lemma ContainsInPair(a: string, b: string, word: string)
    requires word != "" && ',' !in word && ' ' !in word
    ensures Contains(a + ", " + b, word) <==> Contains(a, word) || Contains(b, word)
  {
    var s := a + ", " + b;
    assert s[|a|] == ',' && s[|a| + 1] == ' ';
    if i :| 0 <= i <= |s| && word <= s[i..] {
      forall p | i <= p < i + |word| ensures s[p] != ',' && s[p] != ' ' {
        assert s[p] == word[p - i];
      }
      if i + |word| <= |a| {
        assert word <= a[i..];
      } else {
        assert i >= |a| + 2;
        assert word <= b[i - |a| - 2..];
      }
    }
    if i :| 0 <= i <= |a| && word <= a[i..] {
      assert word <= s[i..];
    }
    if i :| 0 <= i <= |b| && word <= b[i..] {
      assert s[|a| + 2 + i..] == b[i..];
    }
  }

  lemma {:induction false} ContainsInJoin(methods: seq<string>, word: string)
    requires word != "" && ',' !in word && ' ' !in word
    ensures Contains(Join(methods, ", "), word) <==> exists k :: 0 <= k < |methods| && Contains(methods[k], word)
  {
    if |methods| > 1 {
      var rest := methods[1..];
      ContainsInPair(methods[0], Join(rest, ", "), word);
      ContainsInJoin(rest, word);
      assert forall k | 0 <= k < |rest| :: rest[k] == methods[k + 1];
      assert forall k | 1 <= k < |methods| :: methods[k] == rest[k - 1];
    }
  }

  lemma {:induction false} JoinPush(methods: seq<string>, m: string)
    requires methods != []
    ensures Join(methods + [m], ", ") == Join(methods, ", ") + ", " + m
  {
    assert (methods + [m])[1..] == methods[1..] + [m];
    if |methods| > 1 {
      JoinPush(methods[1..], m);
      assert methods[0] + ", " + (Join(methods[1..], ", ") + ", " + m) == methods[0] + ", " + Join(methods[1..], ", ") + ", " + m;
    }
  }

  lemma {:induction false} ListedIsJoin(methods: seq<string>)
    requires AllNamed(methods)
    ensures Listed(methods) == Join(methods, ", ")
    ensures methods != [] ==> Listed(methods) != ""
  {
    if methods != [] {
      var n := |methods| - 1;
      ListedIsJoin(methods[..n]);
      assert methods[..n] + [methods[n]] == methods;
      if n > 0 {
        JoinPush(methods[..n], methods[n]);
      }
    }
  }

  /** The methods that a refusal names. */
  function Allowed(methods: seq<string>): seq<string> {
    if SomeContains(methods, "OPTIONS") then methods else methods + ["OPTIONS"]
  }

  /** The header lists the methods of the routes with the template, in order, and OPTIONS after them
      unless some method has it in its name; so OPTIONS itself is missing exactly when it is only part
      of other names. */
  lemma AllowedExactly(methods: seq<string>)
    requires AllNamed(methods)
    ensures WithOptions(Listed(methods)) == Join(Allowed(methods), ", ")
    ensures "OPTIONS" in Allowed(methods)
       <==> "OPTIONS" in methods || forall k | 0 <= k < |methods| :: !Contains(methods[k], "OPTIONS")
  {
    AllowedIsJoin(methods);
    OptionsIsNamed(methods);
  }

  lemma ExtendedIsJoin(methods: seq<string>, m: string)
    requires AllNamed(methods)
    ensures Extended(Listed(methods), m) == Join(methods + [m], ", ")
  {
    ListedIsJoin(methods);
    if methods == [] {
      assert [] + [m] == [m];
    } else {
      JoinPush(methods, m);
    }
  }

  lemma ListContains(methods: seq<string>, word: string)
    requires word != "" && ',' !in word && ' ' !in word
    requires AllNamed(methods)
    ensures Contains(Listed(methods), word) <==> SomeContains(methods, word)
  {
    ListedIsJoin(methods);
    ContainsInJoin(methods, word);
  }

  lemma WithIsJoin(methods: seq<string>, word: string)
    requires word != "" && ',' !in word && ' ' !in word
    requires AllNamed(methods)
    ensures With(Listed(methods), word) == Join(if SomeContains(methods, word) then methods else methods + [word], ", ")
  {
    ListContains(methods, word);
    ListedIsJoin(methods);
    ExtendedIsJoin(methods, word);
  }

  lemma AllowedIsJoin(methods: seq<string>)
    requires AllNamed(methods)
    ensures WithOptions(Listed(methods)) == Join(Allowed(methods), ", ")
  {
    OptionsIsAWord();
    WithIsJoin(methods, "OPTIONS");
  }

  lemma OptionsIsAWord()
    ensures "OPTIONS" != "" && ',' !in "OPTIONS" && ' ' !in "OPTIONS"
  {
  }

  lemma OptionsIsNamed(methods: seq<string>)
    ensures "OPTIONS" in Allowed(methods)
       <==> "OPTIONS" in methods || forall k | 0 <= k < |methods| :: !Contains(methods[k], "OPTIONS")
  {
    var all := methods + ["OPTIONS"];
    assert all[|methods|] == "OPTIONS";
    if "OPTIONS" in methods {
      var k :| 0 <= k < |methods| && methods[k] == "OPTIONS";
      assert "OPTIONS" <= "OPTIONS"[0..];
      assert Contains(methods[k], "OPTIONS");
    }
  }

  /** No route before it has both the template and the method. */
  predicate IsFirst(t: Templates, routes: seq<ApiRoute>, request: Request, i: nat)
    requires i < |routes|
  {
    && Matches(t, routes[i], request) && routes[i].httpMethod == request.httpMethod
    && forall j | 0 <= j < i :: !(Matches(t, routes[j], request) && routes[j].httpMethod == request.httpMethod)
  }

  /** A request with a good body is handled by the first route with its template and its method, and by no
      other: what that handler returns is the answer, with 200 where it set no status and a body where it
      set an error, and what it throws is thrown. */
  lemma HandledByFirst(t: Templates, routes: seq<ApiRoute>, request: Request, reply: Reply, i: nat)
    requires request.bodyIsOk && i < |routes| && IsFirst(t, routes, request, i)
    ensures var handled, processed := routes[i].handler(reply), Processed(t, routes, request, reply);
            && (handled.Threw? ==> processed == handled)
            && (handled.Returned? ==>
                  && processed.Returned?
                  && processed.value.headers == handled.value.headers
                  && processed.value.statusCode == (if handled.value.statusCode == 0 then 200 else handled.value.statusCode)
                  && (processed.value.hasBody <==> handled.value.hasBody || 400 <= handled.value.statusCode < 600))
  {
    FirstIs(t, routes, request, i);
  }

  /** A request with a good body is answered by what the first route with its template and its method does
      to the response, and by no other; and where the path has routes, but none with the method, with 405,
      or with 200 for OPTIONS, and the list of the methods that the path has. */
  lemma AnsweredExactly(t: Templates, routes: seq<ApiRoute>, request: Request, reply: Reply, i: nat)
    requires request.bodyIsOk && i < |routes| && Matches(t, routes[i], request)
    ensures First(t, routes, request) == i <==> IsFirst(t, routes, request, i)
    ensures IsFirst(t, routes, request, i) ==> Processed(t, routes, request, reply) == Handled(routes[i].handler(reply))
    ensures (forall j | 0 <= j < |routes| :: Matches(t, routes[j], request) ==> routes[j].httpMethod != request.httpMethod)
       ==> var methods := MethodsOf(t, routes, request);
           && Processed(t, routes, request, reply) == Returned(Unmatched(Listed(methods), request, reply))
           && routes[i].httpMethod in methods
           && Unmatched(Listed(methods), request, reply).statusCode == (if request.httpMethod == "OPTIONS" then 200 else 405)
  {
    if IsFirst(t, routes, request, i) {
      FirstIs(t, routes, request, i);
    }
    MethodIsListed(t, routes, request, i);
  }

  /** A request with a bad body is answered 400, with a body, whatever routes there are, and nothing else is done. */
  lemma BadBodyIsRefused(t: Templates, routes: seq<ApiRoute>, request: Request, reply: Reply)
    requires !request.bodyIsOk
    ensures var processed := Processed(t, routes, request, reply);
            && processed == Processed(t, [], request, reply) && processed.Returned?
            && processed.value.statusCode == 400 && processed.value.hasBody && processed.value.headers == reply.headers
  {
  }

  /** A refusal has a body, and the answer to OPTIONS the one there was. Only a CORS pre-flight request is told which
      headers are allowed, namely those it asks for. */
  lemma UnmatchedExactly(list: string, request: Request, reply: Reply)
    ensures var answer, asked, headers := Unmatched(list, request, reply), "access-control-request-headers", request.headers;
            && (answer.hasBody <==> request.httpMethod != "OPTIONS" || reply.hasBody)
            && ("Access-Control-Allow-Headers" in answer.headers
                <==> MethodsHeader(request) == "Access-Control-Allow-Methods" && asked in headers && headers[asked] != "")
            && ("Access-Control-Allow-Headers" in answer.headers ==> answer.headers["Access-Control-Allow-Headers"] == headers[asked])
            && answer.headers["Content-Type"] == "application/json" && answer.headers["Access-Control-Allow-Origin"] == "*"
  {
    assert "Allow" != "Access-Control-Allow-Headers" && "Access-Control-Allow-Methods" != "Access-Control-Allow-Headers";
    assert "Allow" != "Access-Control-Allow-Methods";
  }

  /** The header that names the methods: Allow, or its counterpart in a CORS pre-flight request. */
  function MethodsHeader(request: Request): string {
    var headers := request.headers;
    if request.httpMethod == "OPTIONS" && "access-control-request-method" in headers && headers["access-control-request-method"] != ""
    then "Access-Control-Allow-Methods" else "Allow"
  }

  /** A refusal names the methods of all routes with the template, in order, and OPTIONS. */
  lemma RefusalNamesMethods(t: Templates, routes: seq<ApiRoute>, request: Request, reply: Reply, i: nat)
    requires request.bodyIsOk && i < |routes| && Matches(t, routes[i], request)
    requires forall j | 0 <= j < |routes| && Matches(t, routes[j], request) ::
      routes[j].httpMethod != request.httpMethod && routes[j].httpMethod != ""
    ensures var processed := Processed(t, routes, request, reply);
            && processed.Returned? && MethodsHeader(request) in processed.value.headers
            && processed.value.headers[MethodsHeader(request)] == Join(Allowed(MethodsOf(t, routes, request)), ", ")
  {
    var methods := MethodsOf(t, routes, request);
    AnsweredExactly(t, routes, request, reply, i);
    HeaderNamesMethods(Listed(methods), request, reply);
    MethodsAreNamed(t, routes, request);
    AllowedIsJoin(methods);
  }

  lemma HeaderNamesMethods(list: string, request: Request, reply: Reply)
    ensures var headers := Unmatched(list, request, reply).headers;
            MethodsHeader(request) in headers && headers[MethodsHeader(request)] == WithOptions(list)
  {
    assert "Access-Control-Allow-Headers" != "Access-Control-Allow-Methods";
  }

  lemma {:induction false} MethodsAreNamed(t: Templates, routes: seq<ApiRoute>, request: Request)
    requires forall j | 0 <= j < |routes| && Matches(t, routes[j], request) :: routes[j].httpMethod != ""
    ensures AllNamed(MethodsOf(t, routes, request))
  {
    if routes != [] {
      var rest := routes[1..];
      forall j | 0 <= j < |rest| && Matches(t, rest[j], request) ensures rest[j].httpMethod != "" {
        assert rest[j] == routes[j + 1] && Matches(t, routes[j + 1], request);
      }
      MethodsAreNamed(t, rest, request);
    }
  }

  /** When no handler runs, the answer is 404 exactly if no route has the template. */
  lemma NotFoundExactly(t: Templates, routes: seq<ApiRoute>, request: Request, reply: Reply)
    requires request.bodyIsOk
    requires forall j | 0 <= j < |routes| && Matches(t, routes[j], request) :: routes[j].httpMethod != request.httpMethod
    ensures var processed := Processed(t, routes, request, reply);
            && processed.Returned?
            && (processed.value.statusCode == 404 <==> forall j | 0 <= j < |routes| :: !Matches(t, routes[j], request))
            && (processed.value.statusCode == 404 ==> processed.value.hasBody && processed.value.headers == DefaultHeaders())
  {
    FirstIs(t, routes, request, |routes|);
    if i :| 0 <= i < |routes| && Matches(t, routes[i], request) {
      AnsweredExactly(t, routes, request, reply, i);
    }
  }

  lemma MethodIsListed(t: Templates, routes: seq<ApiRoute>, request: Request, i: nat)
    requires i < |routes| && Matches(t, routes[i], request)
    ensures routes[i].httpMethod in MethodsOf(t, routes, request)
  {
    MethodsTogether(t, routes[..i], routes[i..], request);
    assert routes[..i] + routes[i..] == routes && routes[i..][0] == routes[i];
    var methods := MethodsOf(t, routes[i..], request);
    assert methods[0] == routes[i].httpMethod;
    assert MethodsOf(t, routes, request)[|MethodsOf(t, routes[..i], request)|] == routes[i].httpMethod;
  }
}
