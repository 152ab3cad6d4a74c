/** Sending a batch of requests to the server and handing the replies back: splitting the
    batch, correlating results by request id, and running each callback. */
module BatchCheck {
  import opened CacheTypes

  // ---- Decimal correlation ids -----------------------------------------------------------

  function Digit(d: nat): char
    requires d < 10
  {
    ['0', '1', '2', '3', '4', '5', '6', '7', '8', '9'][d]
  }

  /** A number in decimal notation. */
  function Decimal(n: nat): (s: string)
    ensures |s| > 0
  {
    if n < 10 then [Digit(n)] else Decimal(n / 10) + [Digit(n % 10)]
  }

  lemma {:induction false} DecimalInjective(m: nat, n: nat)
    requires Decimal(m) == Decimal(n)
    ensures m == n
    decreases m
  {
    var s, t := Decimal(m), Decimal(n);
    assert s[|s| - 1] == t[|t| - 1];
    if m >= 10 && n >= 10 {
      assert Decimal(m / 10) == s[..|s| - 1] == t[..|t| - 1] == Decimal(n / 10);
      DecimalInjective(m / 10, n / 10);
    }
  }

  // ---- Requests and replies --------------------------------------------------------------

  datatype Kind = Check | WriteTuple | DeleteTuple | GetStore | CreateStore | DeleteStore | Unsupported

  datatype Tuple = Tuple(object: string, user: string, relation: string)

  datatype Payload = Payload(kind: Kind, requestId: nat, store: string, model: string, tuple: Tuple)

  datatype Status = Ok | ClientError | TransportError | ServerError

  datatype Response = Response(status: Status, allow: bool, message: string)

  /** One entry of the server's result map. */
  datatype Result = Allowed(allowed: bool) | Failed(message: string) | Neither

  const MESSAGE_LEN: nat := 128

  function Truncated(s: string): string {
    if |s| < MESSAGE_LEN then s else s[..MESSAGE_LEN - 1]
  }

  /** What the callback of a batch writes for one item. */
  function Written(results: map<string, Result>, id: nat, was: Response): Response {
    if Decimal(id) !in results then was.(allow := false, status := ClientError)
    else match results[Decimal(id)]
      case Allowed(a) => was.(status := Ok, allow := a)
      case Failed(m) => Response(ServerError, false, Truncated(m))
      case Neither => Response(ClientError, false, "Invalid response received")
  }

  /** What it writes if the call as a whole may have failed. */
  function Outcome(ok: bool, error: string, results: map<string, Result>, id: nat, was: Response): Response {
    if ok then Written(results, id, was) else Response(ClientError, false, Truncated(error))
  }

  /** `cut` is `s`, or as much of it as a message holds. */
  predicate CutFrom(cut: string, s: string) {
    cut <= s && |cut| <= 127 && (|s| <= 127 ==> cut == s) && (|s| > 127 ==> |cut| == 127)
  }

  /** What the caller may conclude from a response: it is a verdict exactly if the call came back
      with one under the item's id, and access is never granted otherwise. */
  ghost predicate Truthful(r: Response, ok: bool, error: string, results: map<string, Result>, c: string) {
    && (r.status == Ok <==> ok && c in results && results[c].Allowed?)
    && (r.status == Ok ==> r.allow == results[c].allowed)
    && (r.allow ==> r.status == Ok)
    && (r.status == ServerError <==> ok && c in results && results[c].Failed?)
    && (r.status == ServerError ==> CutFrom(r.message, results[c].message))
    && (r.status in {Ok, ServerError, ClientError})
    && (!ok ==> CutFrom(r.message, error))
  }

  /** Every way a call can end is reported truthfully. */
  lemma OutcomeTruthful(ok: bool, error: string, results: map<string, Result>, id: nat, was: Response)
    ensures Truthful(Outcome(ok, error, results, id, was), ok, error, results, Decimal(id))
  {
    var c := Decimal(id);
  }

  datatype CheckItem = CheckItem(correlationId: string, tuple: Tuple)

  /** One batch request: a single store and model, and the items. */
  datatype BatchRequest = BatchRequest(store: string, model: string, checks: seq<CheckItem>)

  function ItemFor(p: Payload): CheckItem {
    CheckItem(Decimal(p.requestId), p.tuple)
  }

  method BuildBatch(items: seq<Payload>) returns (request: BatchRequest)
    requires items != []
    ensures IsBatchOf(request, items)
  {
    var checks := [];
    for i := 0 to |items|
      invariant |checks| == i && forall j :: 0 <= j < i ==> checks[j] == ItemFor(items[j])
    {
      checks := checks + [ItemFor(items[i])];
    }
    request := BatchRequest(items[0].store, items[0].model, checks);
  }

  /** The callback of a batch: `slots` names the response of each item. Every response is
      written from the result under the item's own id and every callback is run once. */
  method DeliverBatch(slots: seq<nat>, ids: seq<nat>, responses: array<Response>, ok: bool, error: string,
                      results: map<string, Result>) returns (called: seq<nat>)
    requires |slots| == |ids| && (forall i :: 0 <= i < |slots| ==> slots[i] < responses.Length)
    requires forall i, j :: 0 <= i < j < |slots| ==> slots[i] != slots[j]
    modifies responses
    ensures called == slots
    ensures forall i :: 0 <= i < |slots| ==>
      responses[slots[i]] == Outcome(ok, error, results, ids[i], old(responses[slots[i]]))
    ensures forall i :: 0 <= i < |slots| ==> Truthful(responses[slots[i]], ok, error, results, Decimal(ids[i]))
    ensures forall s :: 0 <= s < responses.Length && s !in slots ==> responses[s] == old(responses[s])
  {
    called := [];
    for i := 0 to |slots|
      invariant called == slots[..i]
      invariant forall j :: 0 <= j < i ==>
        responses[slots[j]] == Outcome(ok, error, results, ids[j], old(responses[slots[j]]))
      invariant forall j :: i <= j < |slots| ==> responses[slots[j]] == old(responses[slots[j]])
      invariant forall s :: 0 <= s < responses.Length && s !in slots ==> responses[s] == old(responses[s])
    {
      if ok {
        responses[slots[i]] := Written(results, ids[i], responses[slots[i]]);
      } else {
        responses[slots[i]] := Response(ClientError, false, Truncated(error));
      }
      called := called + [slots[i]];
    }
    assert slots[..|slots|] == slots;
    forall i | 0 <= i < |slots| ensures Truthful(responses[slots[i]], ok, error, results, Decimal(ids[i])) {
      OutcomeTruthful(ok, error, results, ids[i], old(responses[slots[i]]));
    }
  }

  // ---- Each item gets its own answer -----------------------------------------------------

  type Server = (string, string, Tuple) -> bool

  /** The server answers every item of the request, under its correlation id, for the store and
      model of the request. */
  ghost predicate Honest(results: map<string, Result>, request: BatchRequest, server: Server) {
    && (forall i :: 0 <= i < |request.checks| ==> request.checks[i].correlationId in results)
    && (forall c :: c in results ==> exists i :: 0 <= i < |request.checks| && Answers(results, request, server, c, i))
  }

  ghost predicate Answers(results: map<string, Result>, request: BatchRequest, server: Server, c: string, i: nat)
    requires c in results && i < |request.checks|
  {
    request.checks[i].correlationId == c
    && results[c] == Allowed(server(request.store, request.model, request.checks[i].tuple))
  }

  ghost predicate DistinctIds(items: seq<Payload>) {
    forall i, j :: 0 <= i < j < |items| ==> items[i].requestId != items[j].requestId
  }

  ghost predicate IsBatchOf(request: BatchRequest, items: seq<Payload>) {
    && items != [] && request.store == items[0].store && request.model == items[0].model
    && |request.checks| == |items| && forall i :: 0 <= i < |items| ==> request.checks[i] == ItemFor(items[i])
  }

  // The result found under a correlation id that no other item has.
  lemma OwnEntry(request: BatchRequest, results: map<string, Result>, server: Server, k: nat)
    requires Honest(results, request, server) && k < |request.checks| && Alone(request, k)
    ensures var c := request.checks[k].correlationId;
      c in results && results[c] == Allowed(server(request.store, request.model, request.checks[k].tuple))
  {
    var c := request.checks[k].correlationId;
    var i :| 0 <= i < |request.checks| && Answers(results, request, server, c, i);
  }

  ghost predicate Alone(request: BatchRequest, k: nat)
    requires k < |request.checks|
  {
    forall i :: 0 <= i < |request.checks| && request.checks[i].correlationId == request.checks[k].correlationId ==> i == k
  }

  lemma DistinctAlone(items: seq<Payload>, request: BatchRequest, k: nat)
    requires IsBatchOf(request, items) && DistinctIds(items) && k < |items|
    ensures Alone(request, k)
  {
    assert request.checks[k] == ItemFor(items[k]);
    forall i | 0 <= i < |items| && request.checks[i].correlationId == request.checks[k].correlationId ensures i == k {
      assert request.checks[i] == ItemFor(items[i]);
      DecimalInjective(items[i].requestId, items[k].requestId);
    }
  }

  /** Correlation is exact: with pairwise distinct request ids the result written for an item
      is the server's answer to that item's tuple, for the store and model of the first item. */
  lemma OwnResult(items: seq<Payload>, request: BatchRequest, results: map<string, Result>, server: Server, k: nat, was: Response)
    requires IsBatchOf(request, items) && DistinctIds(items) && Honest(results, request, server) && k < |items|
    ensures Written(results, items[k].requestId, was) ==
      was.(status := Ok, allow := server(items[0].store, items[0].model, items[k].tuple))
  {
    DistinctAlone(items, request, k);
    OwnEntry(request, results, server, k);
    assert request.checks[k] == ItemFor(items[k]);
  }

  /** Every item is answered for its own store and model, whatever the server knows. */
  ghost predicate OwnAnswers(items: seq<Payload>, request: BatchRequest) {
    forall server: Server, results, k: nat :: Honest(results, request, server) && k < |items| ==>
      Written(results, items[k].requestId, Response(Ok, false, "")).allow == server(items[k].store, items[k].model, items[k].tuple)
  }

  ghost function Table(request: BatchRequest, server: Server, n: nat): (m: map<string, Result>)
    requires n <= |request.checks|
  {
    if n == 0 then map[]
    else Table(request, server, n - 1)
      [request.checks[n - 1].correlationId := Allowed(server(request.store, request.model, request.checks[n - 1].tuple))]
  }

  lemma {:induction false} TableHonest(request: BatchRequest, server: Server, n: nat)
    requires n <= |request.checks|
    ensures forall i :: 0 <= i < n ==> request.checks[i].correlationId in Table(request, server, n)
    ensures forall c :: c in Table(request, server, n) ==>
      exists i :: 0 <= i < |request.checks| && Answers(Table(request, server, n), request, server, c, i)
  {
    if n > 0 {
      TableHonest(request, server, n - 1);
      var before, after := Table(request, server, n - 1), Table(request, server, n);
      forall c | c in after ensures exists i :: 0 <= i < |request.checks| && Answers(after, request, server, c, i) {
        if c == request.checks[n - 1].correlationId {
          assert Answers(after, request, server, c, n - 1);
        } else {
          var i :| 0 <= i < |request.checks| && Answers(before, request, server, c, i);
          assert Answers(after, request, server, c, i);
        }
      }
    }
  }

  /** A batch carries the store and model of its first item only. So every item is answered for
      its own store and model, for all servers, if and only if the items share them. */
  lemma OwnAnswersExactlyWhen(items: seq<Payload>, request: BatchRequest)
    requires IsBatchOf(request, items) && DistinctIds(items)
    ensures OwnAnswers(items, request) <==>
      forall k :: 0 <= k < |items| ==> items[k].store == items[0].store && items[k].model == items[0].model
  {
    if forall k :: 0 <= k < |items| ==> items[k].store == items[0].store && items[k].model == items[0].model {
      forall server: Server, results, k: nat | Honest(results, request, server) && k < |items|
        ensures Written(results, items[k].requestId, Response(Ok, false, "")).allow == server(items[k].store, items[k].model, items[k].tuple)
      {
        OwnResult(items, request, results, server, k, Response(Ok, false, ""));
      }
    } else {
      var k :| 0 <= k < |items| && !(items[k].store == items[0].store && items[k].model == items[0].model);
      MixedBatchMisled(items, request, k);
    }
  }

  // A server on which the item's own store and the first item's store disagree.
  lemma MixedBatchMisled(items: seq<Payload>, request: BatchRequest, k: nat)
    requires IsBatchOf(request, items) && DistinctIds(items) && k < |items|
    requires items[k].store != items[0].store || items[k].model != items[0].model
    ensures !OwnAnswers(items, request)
  {
    var first := items[0];
    var server: Server := (s, m, t) => s == first.store && m == first.model;
    var results := Table(request, server, |items|);
    TableHonest(request, server, |items|);
    OwnResult(items, request, results, server, k, Response(Ok, false, ""));
    assert Honest(results, request, server);
    assert server(first.store, first.model, items[k].tuple) && !server(items[k].store, items[k].model, items[k].tuple);
  }

  // ---- Splitting a batch -----------------------------------------------------------------

  /** Requests whose handler runs the callback; the others drop it. */
  predicate Handled(kind: Kind) {
    kind != GetStore && kind != Unsupported
  }

  /** A batch of two or more sends its checks together and the rest one by one, in order. */
  method ProcessBatch(items: seq<Payload>) returns (checks: seq<nat>, singles: seq<nat>)
    ensures |items| <= 1 ==> checks == [] && singles == seq(|items|, i => i)
    ensures |items| > 1 ==> checks == Selected(items, true, |items|) && singles == Selected(items, false, |items|)
  {
    checks, singles := [], [];
    if |items| == 0 {
      return;
    }
    if |items| == 1 {
      singles := [0];
      return;
    }
    for i := 0 to |items|
      invariant checks == Selected(items, true, i) && singles == Selected(items, false, i)
    {
      if items[i].kind == Check {
        checks := checks + [i];
      } else {
        singles := singles + [i];
      }
    }
  }

  /** Positions below `n` of the checks, or of the other requests. */
  function Selected(items: seq<Payload>, check: bool, n: nat): seq<nat>
    requires n <= |items|
  {
    if n == 0 then []
    else if (items[n - 1].kind == Check) == check then Selected(items, check, n - 1) + [n - 1]
    else Selected(items, check, n - 1)
  }

  /** The callbacks that run when every call to the server is answered once: all those of the
      batched checks, and those of the single requests that have a handler. */
  function Callbacks(items: seq<Payload>, checks: seq<nat>, singles: seq<nat>): multiset<nat>
    requires forall i :: 0 <= i < |singles| ==> singles[i] < |items|
  {
    multiset(checks) + multiset(HandledOnes(items, singles))
  }

  function HandledOnes(items: seq<Payload>, l: seq<nat>): seq<nat>
    requires forall i :: 0 <= i < |l| ==> l[i] < |items|
  {
    if l == [] then []
    else
      var before, last := HandledOnes(items, l[..|l| - 1]), l[|l| - 1];
      if Handled(items[last].kind) then before + [last] else before
  }

  /** The selection keeps the order of the items. */
  lemma {:induction false} SelectedInOrder(items: seq<Payload>, check: bool, n: nat)
    requires n <= |items|
    ensures forall i :: 0 <= i < |Selected(items, check, n)| ==> Selected(items, check, n)[i] < n
    ensures forall i, j :: 0 <= i < j < |Selected(items, check, n)| ==> Selected(items, check, n)[i] < Selected(items, check, n)[j]
  {
    if n > 0 {
      SelectedInOrder(items, check, n - 1);
    }
  }

  lemma CountAppended(l: seq<nat>, x: nat, k: nat)
    ensures multiset(l + [x])[k] == multiset(l)[k] + if k == x then 1 else 0
  {
  }

  // Dropping the requests without a handler changes no other count.
  lemma {:induction false} HandledCount(items: seq<Payload>, l: seq<nat>, k: nat)
    requires (forall i :: 0 <= i < |l| ==> l[i] < |items|) && k < |items|
    ensures multiset(HandledOnes(items, l))[k] == if Handled(items[k].kind) then multiset(l)[k] else 0
    decreases |l|
  {
    if l != [] {
      var before, last := l[..|l| - 1], l[|l| - 1];
      HandledCount(items, before, k);
      assert l == before + [last];
      CountAppended(before, last, k);
      CountAppended(HandledOnes(items, before), last, k);
    }
  }

  /** How often a position is selected: once by its kind. */
  lemma {:induction false} SelectedOnce(items: seq<Payload>, check: bool, n: nat, k: nat)
    requires n <= |items|
    ensures multiset(Selected(items, check, n))[k] == if k < n && (items[k].kind == Check) == check then 1 else 0
  {
    if n > 0 {
      SelectedOnce(items, check, n - 1, k);
      CountAppended(Selected(items, check, n - 1), n - 1, k);
    }
  }

  /** Splitting loses and repeats nothing: the callback of an item runs exactly once if its
      request has a handler, and never otherwise. */
  lemma CallbackOnceExactlyWhen(items: seq<Payload>, k: nat)
    requires |items| > 1 && k < |items|
    ensures forall i :: 0 <= i < |Selected(items, false, |items|)| ==> Selected(items, false, |items|)[i] < |items|
    ensures Callbacks(items, Selected(items, true, |items|), Selected(items, false, |items|))[k]
      == if items[k].kind in {Check, WriteTuple, DeleteTuple, CreateStore, DeleteStore} then 1 else 0
  {
    SelectedOnce(items, true, |items|, k);
    SelectedOnce(items, false, |items|, k);
    SelectedInOrder(items, false, |items|);
    HandledCount(items, Selected(items, false, |items|), k);
  }
}
