/** The messages of an HTTP/1 connection, as a function of its whole byte stream (serveConn in app.go). */
module Http1 {
  import opened Bytes
  import opened Options
  import Chunked
  import ChunkedGrammar

  /** What the connection loop uses of a parsed head. */
  datatype Parsed<H> = Parsed(head: H, chunked: bool, length: nat)

  datatype Request<H> = Request(head: H, body: bytes, trailers: seq<Header>)

  /** The next message of the stream and what follows it. Stop: the connection ends without
      dispatching. Depends: a chunk line is too long for the outcome to be determined. */
  datatype Next<H> = Message(req: Request<H>, rest: bytes) | Stop | Depends

  predicate EmptyLineAt(w: bytes, k: nat) {
    k + 4 <= |w| && w[k] == CR && w[k + 1] == LF && w[k + 2] == CR && w[k + 3] == LF
  }

  /** The first position of CR LF CR LF from i on, or -1. */
  function HeadEndFrom(w: bytes, i: nat): (r: int)
    ensures -1 <= r && (r >= 0 ==> i <= r && EmptyLineAt(w, r))
    ensures forall k: nat :: i <= k && (r < 0 || k < r) ==> !EmptyLineAt(w, k)
    decreases |w| - i
  {
    if i + 4 > |w| then -1 else if EmptyLineAt(w, i) then i else HeadEndFrom(w, i + 1)
  }

  function HeadEnd(w: bytes): (r: int)
    ensures -1 <= r && (r >= 0 ==> r + 4 <= |w|)
  {
    HeadEndFrom(w, 0)
  }

  /** The head is found as soon as it has arrived, whatever follows. */
  lemma HeadEndOfPrefix(a: bytes, b: bytes)
    ensures HeadEnd(a) >= 0 ==> HeadEnd(a + b) == HeadEnd(a)
    ensures HeadEnd(a) < 0 && HeadEnd(a + b) >= 0 ==> HeadEnd(a + b) + 4 > |a|
  {
    var w := a + b;
    assert forall k :: 0 <= k < |a| ==> w[k] == a[k];
    if HeadEnd(a) >= 0 { assert EmptyLineAt(w, HeadEnd(a)); }
    if HeadEnd(w) >= 0 && HeadEnd(w) + 4 <= |a| { assert EmptyLineAt(a, HeadEnd(w)); }
  }

  function NextMessage<H>(parse: bytes -> Option<Parsed<H>>, maxBody: nat, grants: nat -> bool, w: bytes): (n: Next<H>)
    ensures n.Message? ==> |n.rest| < |w|
  {
    var i := HeadEnd(w);
    if i < 0 then Stop
    else
      match parse(w[..i + 4])
      case None => Stop
      case Some(p) => Body(p, maxBody, grants, w[i + 4..])
  }

  /** Once the head is known and accepted, the message is its body's. */
  lemma MessageAfterHead<H>(parse: bytes -> Option<Parsed<H>>, maxBody: nat, grants: nat -> bool, w: bytes, i: nat, p: Parsed<H>)
    requires HeadEnd(w) == i && parse(w[..i + 4]) == Some(p)
    ensures NextMessage(parse, maxBody, grants, w) == Body(p, maxBody, grants, w[i + 4..])
  {
  }

  lemma RefusedHead<H>(parse: bytes -> Option<Parsed<H>>, maxBody: nat, grants: nat -> bool, w: bytes, i: nat)
    requires HeadEnd(w) == i && (parse(w[..i + 4]).None? || parse(w[..i + 4]).value.length > maxBody)
    ensures NextMessage(parse, maxBody, grants, w) == Stop
  {
  }

  /** The body that a head announces. `grants` answers the k-th request to the body budget: one for a
      body of known length, one for each chunk of a chunked body. */
  function Body<H>(p: Parsed<H>, maxBody: nat, grants: nat -> bool, w: bytes): (n: Next<H>)
    ensures n.Message? ==> |n.rest| <= |w|
  {
    if p.length > maxBody then Stop
    else if p.chunked then
      match Chunked.Decode(Chunked.Batch, maxBody, grants, w)
      case Success(body, trailers, rest) => Message(Request(p.head, body, trailers), rest)
      case Failure(_) => Stop
      case Depends => Depends
    else if p.length > 0 && !grants(0) then Stop
    else if |w| < p.length then Stop
    else Message(Request(p.head, w[..p.length], []), w[p.length..])
  }

  /** The requests that are dispatched, after those in `done`. Whether the connection is kept is
      decided by everything dispatched so far; `grants` answers the requests to the budget, for each
      message anew. */
  function Dispatched<H>(parse: bytes -> Option<Parsed<H>>, maxBody: nat, grants: nat -> nat -> bool, keep: seq<Request<H>> -> bool,
                         done: seq<Request<H>>, w: bytes): seq<Request<H>>
    decreases |w|
  {
    match NextMessage(parse, maxBody, grants(|done|), w)
    case Stop => done
    case Depends => done
    case Message(req, rest) =>
      if keep(done + [req]) then Dispatched(parse, maxBody, grants, keep, done + [req], rest) else done + [req]
  }

  /** No chunk line on the way is too long. */
  predicate Determined<H>(parse: bytes -> Option<Parsed<H>>, maxBody: nat, grants: nat -> nat -> bool, keep: seq<Request<H>> -> bool,
                          done: seq<Request<H>>, w: bytes)
    decreases |w|
  {
    match NextMessage(parse, maxBody, grants(|done|), w)
    case Stop => true
    case Depends => false
    case Message(req, rest) => keep(done + [req]) ==> Determined(parse, maxBody, grants, keep, done + [req], rest)
  }

  /** `goal` is what remains to be dispatched after `done`. */
  ghost predicate OnTrack<H>(goal: seq<Request<H>>, parse: bytes -> Option<Parsed<H>>, maxBody: nat, grants: nat -> nat -> bool,
                             keep: seq<Request<H>> -> bool, done: seq<Request<H>>, w: bytes) {
    Determined(parse, maxBody, grants, keep, done, w) && goal == Dispatched(parse, maxBody, grants, keep, done, w)
  }

  lemma GoesOn<H>(goal: seq<Request<H>>, parse: bytes -> Option<Parsed<H>>, maxBody: nat, grants: nat -> nat -> bool,
                  keep: seq<Request<H>> -> bool, done: seq<Request<H>>, w: bytes)
    requires OnTrack(goal, parse, maxBody, grants, keep, done, w)
    ensures var n := NextMessage(parse, maxBody, grants(|done|), w);
      match n
      case Depends => false
      case Stop => goal == done
      case Message(req, rest) => if keep(done + [req]) then OnTrack(goal, parse, maxBody, grants, keep, done + [req], rest) else goal == done + [req]
  {
  }

  ghost predicate Arrives<H>(parse: bytes -> Option<Parsed<H>>, maxBody: nat, grants: nat -> bool, w: bytes, req: Request<H>, rest: bytes) {
    NextMessage(parse, maxBody, grants, w) == Message(req, rest)
  }

  ghost predicate ArrivesAt<H>(parse: bytes -> Option<Parsed<H>>, maxBody: nat, grants: nat -> nat -> bool, ws: seq<bytes>, reqs: seq<Request<H>>, j: nat)
    requires j < |reqs| && |ws| == |reqs| + 1
  {
    Arrives(parse, maxBody, grants(j), ws[j], reqs[j], ws[j + 1])
  }

  /** The connection is kept until n requests have been dispatched. */
  ghost predicate KeptUntil<H(!new)>(keep: seq<Request<H>> -> bool, n: nat) {
    forall done :: |done| < n ==> keep(done)
  }

  /** The same with `next` in place of the parser; None if the outcome depends on how the stream arrives. */
  function Taken<H>(next: (nat, bytes) -> Next<H>, keep: seq<Request<H>> -> bool, done: seq<Request<H>>, w: bytes): Option<seq<Request<H>>>
    decreases |w|
  {
    match next(|done|, w)
    case Stop => Some(done)
    case Depends => None
    case Message(req, rest) => if keep(done + [req]) && |rest| < |w| then Taken(next, keep, done + [req], rest) else Some(done + [req])
  }

  lemma {:induction false} TakenIsDispatched<H>(parse: bytes -> Option<Parsed<H>>, maxBody: nat, grants: nat -> nat -> bool, keep: seq<Request<H>> -> bool,
                                                next: (nat, bytes) -> Next<H>, goal: seq<Request<H>>, done: seq<Request<H>>, w: bytes)
    requires (forall m, w :: next(m, w) == NextMessage(parse, maxBody, grants(m), w)) && Taken(next, keep, done, w) == Some(goal)
    ensures OnTrack(goal, parse, maxBody, grants, keep, done, w)
    decreases |w|
  {
    var n := next(|done|, w);
    assert n == NextMessage(parse, maxBody, grants(|done|), w);
    if n.Message? && keep(done + [n.req]) { TakenIsDispatched(parse, maxBody, grants, keep, next, goal, done + [n.req], n.rest); }
  }

  ghost predicate TakenAt<H>(next: (nat, bytes) -> Next<H>, ws: seq<bytes>, reqs: seq<Request<H>>, j: nat)
    requires j < |reqs| && |ws| == |reqs| + 1
  {
    next(j, ws[j]) == Message(reqs[j], ws[j + 1]) && |ws[j + 1]| < |ws[j]|
  }

  lemma {:induction false} ListIsTaken<H(!new)>(next: (nat, bytes) -> Next<H>, keep: seq<Request<H>> -> bool, ws: seq<bytes>, reqs: seq<Request<H>>, i: nat)
    requires i <= |reqs| && |ws| == |reqs| + 1 && next(|reqs|, ws[|reqs|]).Stop? && KeptUntil(keep, |reqs|)
    requires forall j :: 0 <= j < |reqs| ==> TakenAt(next, ws, reqs, j)
    ensures Taken(next, keep, reqs[..i], ws[i]) == Some(reqs)
    decreases |reqs| - i
  {
    if i < |reqs| {
      ListIsTaken(next, keep, ws, reqs, i + 1);
      assert TakenAt(next, ws, reqs, i) && reqs[..i] + [reqs[i]] == reqs[..i + 1];
      assert i + 1 == |reqs| ==> reqs[..i + 1] == reqs;
    } else {
      assert reqs[..i] == reqs;
    }
  }

  /** If ws[i] is what is left of a stream before the i-th of these requests, the stream is dispatched
      as these requests, given a connection that is kept until the last. */
  lemma ListIsDispatched<H(!new)>(parse: bytes -> Option<Parsed<H>>, maxBody: nat, grants: nat -> nat -> bool, keep: seq<Request<H>> -> bool,
                                  ws: seq<bytes>, reqs: seq<Request<H>>)
    requires |ws| == |reqs| + 1 && ws[|reqs|] == [] && KeptUntil(keep, |reqs|)
    requires forall j :: 0 <= j < |reqs| ==> ArrivesAt(parse, maxBody, grants, ws, reqs, j)
    ensures OnTrack(reqs, parse, maxBody, grants, keep, [], ws[0])
  {
    var next := (m: nat, w: bytes) => NextMessage(parse, maxBody, grants(m), w);
    forall j | 0 <= j < |reqs| ensures TakenAt(next, ws, reqs, j) { assert ArrivesAt(parse, maxBody, grants, ws, reqs, j); }
    assert next(|reqs|, []) == NextMessage(parse, maxBody, grants(|reqs|), []) == Stop;
    ListIsTaken(next, keep, ws, reqs, 0);
    assert reqs[..0] == [];
    TakenIsDispatched(parse, maxBody, grants, keep, next, reqs, [], ws[0]);
  }

  lemma BodyLeavesRest<H>(p: Parsed<H>, maxBody: nat, grants: nat -> bool, rest: bytes)
    ensures var n := Body(p, maxBody, grants, rest); n.Message? ==> IsSuffix(n.rest, rest)
  {
    if p.chunked {
      ChunkedGrammar.DecodeLeavesSuffix(Chunked.Batch, maxBody, grants, rest);
    } else if p.length <= |rest| {
      DropIsSuffix(rest, p.length);
    }
  }

  /** A message takes bytes off the front of the stream and leaves all others: consumed and remaining
      bytes together are always the bytes received. */
  lemma MessageLeavesRest<H>(parse: bytes -> Option<Parsed<H>>, maxBody: nat, grants: nat -> bool, w: bytes)
    ensures var n := NextMessage(parse, maxBody, grants, w); n.Message? ==> IsSuffix(n.rest, w)
  {
    var n, i := NextMessage(parse, maxBody, grants, w), HeadEnd(w);
    if n.Message? {
      var p, rest := parse(w[..i + 4]).value, w[i + 4..];
      DropIsSuffix(w, i + 4);
      BodyLeavesRest(p, maxBody, grants, rest);
      SuffixOfSuffix(n.rest, rest, w);
    }
  }
}
