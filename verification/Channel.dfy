/** The channel between backends and the background worker, as a value: what each atomic
    section of the code does to the slots, the free list and the queue. */
module Channel {
  import opened CacheTypes

  datatype Word = Empty | Canceled | Pending | Processing | Done

  datatype Question = Question(object: string, subject: string, relation: string)

  /** A request as it was sent to the server. */
  datatype Job = Job(id: nat, question: Question)

  datatype Reply = Reply(ok: bool, allow: bool)

  /** What a client callback wrote: under which request id it looked the result up, for which
      request the server had computed it, and the result. */
  datatype Response = Response(id: nat, job: Job, reply: Reply)

  /** A slot; `pid` is absent for the invalid process id. */
  datatype Slot = Slot(word: Word, pid: Option<nat>, requestId: nat, question: Option<Question>, response: Option<Response>)

  /** `issued` counts the request ids handed out; the shared counter is this number in 64 bits. */
  datatype Chan = Chan(slots: seq<Slot>, free: seq<nat>, queue: seq<nat>, limit: nat, issued: nat)

  const MAX_BATCH: nat := 50

  predicate InRange(c: Chan, x: nat) {
    x < |c.slots|
  }

  function SetWord(c: Chan, x: nat, w: Word): Chan
    requires InRange(c, x)
  {
    c.(slots := c.slots[x := c.slots[x].(word := w)])
  }

  function Release(c: Chan, x: nat): Chan
    requires InRange(c, x)
  {
    SetWord(c, x, Empty).(free := [x] + c.free)
  }

  function NextId(c: Chan): nat {
    (c.issued + 1) % U64
  }

  function Acquire(c: Chan, b: nat): Chan
    requires c.free != [] ==> InRange(c, c.free[0])
  {
    if c.free == [] then c
    else
      var x := c.free[0];
      c.(slots := c.slots[x := Slot(Pending, Some(b), NextId(c), None, None)], free := c.free[1..], issued := c.issued + 1)
  }

  /** The backend writes its question and tries to enqueue; a full queue gives the slot back. */
  function Enqueue(c: Chan, x: nat, q: Question): Chan
    requires InRange(c, x)
  {
    var asked := c.(slots := c.slots[x := c.slots[x].(question := Some(q))]);
    if |c.queue| >= c.limit then Release(asked, x) else asked.(queue := c.queue + [x])
  }

  function DrainCount(c: Chan): (n: nat)
    ensures n <= 50 && n <= |c.queue| && (n == 50 || n == |c.queue|)
  {
    if |c.queue| < MAX_BATCH then |c.queue| else MAX_BATCH
  }

  function Drain(c: Chan): Chan {
    c.(queue := c.queue[DrainCount(c)..])
  }

  /** Compare-and-swap from pending to processing; a canceled slot is released here. */
  function Begin(c: Chan, x: nat): Chan
    requires InRange(c, x)
  {
    match c.slots[x].word
    case Pending => SetWord(c, x, Processing)
    case Canceled => Release(c, x)
    case _ => c
  }

  function Respond(c: Chan, x: nat, job: Job, reply: Reply): Chan
    requires InRange(c, x)
  {
    c.(slots := c.slots[x := c.slots[x].(response := Some(Response(c.slots[x].requestId, job, reply)))])
  }

  /** A finished slot is marked done if its backend can be woken, and released otherwise. */
  function Handle(c: Chan, x: nat, live: set<nat>): Chan
    requires InRange(c, x)
  {
    if c.slots[x].word == Canceled then Release(c, x)
    else if c.slots[x].pid.Some? && c.slots[x].pid.value in live then SetWord(c, x, Done)
    else Release(c, x)
  }

  /** The error exit of a waiting backend. */
  function Cancel(c: Chan, x: nat): Chan
    requires InRange(c, x)
  {
    var c' := match c.slots[x].word
      case Pending => SetWord(c, x, Canceled)
      case Processing => SetWord(c, x, Canceled)
      case Done => Release(c, x)
      case _ => c;
    c'.(slots := c'.slots[x := c'.slots[x].(pid := None)])
  }
}
