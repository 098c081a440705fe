/** The request handlers of hello-server that carry logic: the greeting,
    the sum, and the two handlers that share the package-level counter
    (GET /incremental and POST /fizzbuzz). Routing, JSON binding and the
    network are not modelled; a handler's answer is a status and a body. */
module HelloServer {
  import opened Strconv
  import opened FizzBuzz

  const StatusOK := 200
  const StatusBadRequest := 400

  datatype Response = Response(status: int, body: string)

  /** The body of POST /hello/:name: the path segment placed verbatim
      between "Hello, " and ".\n". */
  function HelloBody(name: string): (r: string)
    ensures |r| == |name| + 9
    ensures r[..7] == "Hello, " && r[|r| - 2..] == ".\n"
    ensures r[7..|r| - 2] == name
  {
    "Hello, " + name + ".\n"
  }

  /** Different names give different greetings: the name can be read
      back from the body. */
  lemma HelloBodyInjective(a: string, b: string)
    requires HelloBody(a) == HelloBody(b)
    ensures a == b
  {
    var r := HelloBody(a);
    assert a == r[7..|r| - 2];
  }

  /** The request body of POST /add and its answer. */
  datatype AddData = AddData(right: int, left: int)
  datatype AnswerData = AnswerData(answer: int)

  /** POST /add after a successful bind: the answer is the sum of the two
      operands (mathematical integers, so no wrap-around). */
  function Add(data: AddData): (r: AnswerData)
    ensures r.answer - data.left == data.right
  {
    AnswerData(data.left + data.right)
  }

  /** The requests that read or write the shared counter. */
  datatype Request = IncrementalRequest | FizzBuzzRequest(count: string)

  /** The counter after a request, and the response to it. */
  datatype Step = Step(counter: int, response: Response)

  /** What one request does to the counter and what it answers.
      /incremental adds one and answers the new value in decimal.
      /fizzbuzz stores Atoi(count) in the counter before it validates,
      then answers 400 "BadRequest" or the FizzBuzz text. */
  ghost function Handle(counter: int, req: Request): (s: Step)
    ensures req.IncrementalRequest? ==>
      s.counter == counter + 1 && s.response.status == StatusOK &&
      Atoi(s.response.body) == s.counter
    ensures req.FizzBuzzRequest? ==> s.counter == Atoi(req.count)
    ensures s.response.status == StatusOK || s.response.status == StatusBadRequest
  {
    match req
    case IncrementalRequest =>
      ParseFormatInt(counter + 1);
      Step(counter + 1, Response(StatusOK, FormatInt(counter + 1)))
    case FizzBuzzRequest(count) =>
      var n := Atoi(count);
      if Rejected(count) then Step(n, Response(StatusBadRequest, "BadRequest"))
      else Step(n, Response(StatusOK, FizzBuzzText(n)))
  }

  /** The responses to a sequence of requests handled one after another,
      starting from the given counter. */
  ghost function Responses(counter: int, reqs: seq<Request>): (rs: seq<Response>)
    ensures |rs| == |reqs|
    decreases |reqs|
  {
    if reqs == [] then []
    else
      var s := Handle(counter, reqs[0]);
      [s.response] + Responses(s.counter, reqs[1..])
  }

  /** n calls of /incremental from counter c answer c+1, c+2, ..., c+n. */
  lemma {:induction false} IncrementalRun(c: int, n: nat)
    ensures var rs := Responses(c, seq(n, _ => IncrementalRequest));
      |rs| == n &&
      forall k :: 0 <= k < n ==> rs[k] == Response(StatusOK, FormatInt(c + k + 1))
    decreases n
  {
    if n > 0 {
      var reqs := seq(n, _ => IncrementalRequest);
      var rest := seq(n - 1, _ => IncrementalRequest);
      assert reqs[1..] == rest;
      IncrementalRun(c + 1, n - 1);
      IncrementalFirst(c, reqs);
      var tail := Responses(c + 1, rest);
      var rs := Responses(c, reqs);
      forall k | 1 <= k < n
        ensures rs[k] == Response(StatusOK, FormatInt(c + k + 1))
      {
        assert rs[k] == tail[k - 1];
      }
    }
  }

  /** A run that starts with /incremental answers c+1 first and goes on
      from counter c+1. */
  lemma IncrementalFirst(c: int, reqs: seq<Request>)
    requires |reqs| >= 1 && reqs[0] == IncrementalRequest
    ensures Responses(c, reqs)
      == [Response(StatusOK, FormatInt(c + 1))] + Responses(c + 1, reqs[1..])
  {
  }

  /** From a fresh server, the k-th call of /incremental answers k. */
  lemma IncrementalFromZero(n: nat)
    ensures var rs := Responses(0, seq(n, _ => IncrementalRequest));
      |rs| == n &&
      forall k :: 0 <= k < n ==> rs[k].status == StatusOK && Atoi(rs[k].body) == k + 1
  {
    IncrementalRun(0, n);
    var rs := Responses(0, seq(n, _ => IncrementalRequest));
    forall k | 0 <= k < n
      ensures Atoi(rs[k].body) == k + 1
    {
      ParseFormatInt(k + 1);
    }
  }

  /** /fizzbuzz answers 400 "BadRequest" exactly when Atoi(count) < 1 and
      otherwise 200 with Atoi(count) lines, line x being Line(x). */
  lemma FizzBuzzResponse(c: int, count: string)
    ensures var r := Handle(c, FizzBuzzRequest(count)).response;
      (r.status == StatusBadRequest <==> Atoi(count) < 1) &&
      (r.status == StatusBadRequest ==> r.body == "BadRequest") &&
      (r.status != StatusBadRequest ==>
        var n := Atoi(count);
        var lines := Split(r.body);
        r.status == StatusOK && n >= 1 && |lines| == n + 1 && lines[n] == "" &&
        forall k :: 0 <= k < n ==> lines[k] == Line(k + 1))
  {
    var n := Atoi(count);
    if n >= 1 {
      SplitFizzBuzzText(n);
    }
  }

  /** /fizzbuzz overwrites the counter with Atoi(count), whatever the
      counter held and whether or not the request is rejected, so the next
      /incremental answers Atoi(count) + 1. */
  lemma FizzBuzzResetsCounter(c: int, count: string)
    ensures Handle(c, FizzBuzzRequest(count)).counter == Atoi(count)
    ensures var after := Handle(c, FizzBuzzRequest(count)).counter;
      Atoi(Handle(after, IncrementalRequest).response.body) == Atoi(count) + 1
  {
    ParseFormatInt(Atoi(count) + 1);
  }

  /** "12abc" fails Atoi, so the request is rejected and the counter is
      reset to 0. */
  lemma FizzBuzzRejectsTrailingLetters(c: int)
    ensures Handle(c, FizzBuzzRequest("12abc"))
      == Step(0, Response(StatusBadRequest, "BadRequest"))
  {
    RejectedExamples();
    AtoiExamples();
  }

  /** The server state: the package-level counter `i` that /incremental
      increments and /fizzbuzz overwrites. */
  class Server {
    var counter: int

    constructor ()
      ensures counter == 0
    {
      counter := 0;
    }

    /** GET /incremental. */
    method IncrementalHandler() returns (resp: Response)
      modifies this
      ensures Step(counter, resp) == Handle(old(counter), IncrementalRequest)
      ensures counter == old(counter) + 1 && Atoi(resp.body) == counter
    {
      counter := counter + 1;
      resp := Response(StatusOK, FormatInt(counter));
      ParseFormatInt(counter);
    }

    /** POST /fizzbuzz?count=... */
    method FizzBuzzHandler(count: string) returns (resp: Response)
      modifies this
      ensures Step(counter, resp) == Handle(old(counter), FizzBuzzRequest(count))
      ensures counter == Atoi(count)
    {
      counter := Atoi(count);
      var hasDigit := NumCheck(count);
      if !hasDigit || counter < 1 {
        return Response(StatusBadRequest, "BadRequest");
      }
      var str := Generate(counter);
      resp := Response(StatusOK, str);
    }
  }
}
