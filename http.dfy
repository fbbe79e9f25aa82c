/** The remote HTTP endpoints both dispatchers POST to, modelled as an oracle:
    the responses the remote side will give, in order, plus a log of every
    body posted and of every `time.sleep` the client made between attempts.
    Also the specification of the retry loop both dispatchers run:
    `for attempt in range(1, retries + 1)`, stop at the first accepted
    response, otherwise sleep `backoff_factor ** attempt` and go on. */
module Http {
  import opened Common

  /** What one `requests.post` gives: a response with its HTTP status and the
      `meta.code` of its JSON body (None when the body has none), or a
      `requests.exceptions.RequestException`. */
  datatype Response = Response(status: int, metaCode: Option<int>) | RequestException

  /** The remote side's answer to the i-th post; once the oracle runs dry every
      further post fails with a transport error. */
  function ResponseAt(rs: seq<Response>, i: nat): Response {
    if i < |rs| then rs[i] else RequestException
  }

  /** The responses still to come after n posts. */
  function Drop(rs: seq<Response>, n: nat): seq<Response> {
    if n <= |rs| then rs[n..] else []
  }

  function Repeat<T>(x: T, n: nat): (r: seq<T>)
    ensures |r| == n && forall i :: 0 <= i < n ==> r[i] == x
  {
    seq(n, _ => x)
  }

  /** Python's `base ** e` for an int base and a positive int exponent. */
  function Pow(base: int, e: nat): int {
    if e == 0 then 1 else base * Pow(base, e - 1)
  }

  // --------------------------------------------------- retry-loop specification

  /** Whether attempt i (0-based) succeeds, given per-response verdicts. */
  predicate Succeeds(oks: seq<bool>, i: nat) {
    i < |oks| && oks[i]
  }

  function FirstSuccessFrom(oks: seq<bool>, i: nat, retries: int): (r: Option<nat>)
    ensures r.Some? ==> i <= r.value < retries && Succeeds(oks, r.value)
    ensures r.Some? ==> forall j :: i <= j < r.value ==> !Succeeds(oks, j)
    ensures r.None? ==> forall j :: i <= j < retries ==> !Succeeds(oks, j)
    decreases retries - i
  {
    if retries <= i then None
    else if Succeeds(oks, i) then Some(i)
    else FirstSuccessFrom(oks, i + 1, retries)
  }

  /** The 0-based index of the first accepted attempt among the first
      `retries`, if any. */
  function FirstSuccess(oks: seq<bool>, retries: int): Option<nat> {
    FirstSuccessFrom(oks, 0, retries)
  }

  /** Number of POSTs the loop makes: up to and including the first success,
      or all `retries` of them (none when `retries <= 0`). */
  function Attempts(oks: seq<bool>, retries: int): nat {
    match FirstSuccess(oks, retries)
    case Some(k) => k + 1
    case None => if retries > 0 then retries else 0
  }

  /** Number of failed attempts; each is followed by a sleep, the last one too. */
  function FailedAttempts(oks: seq<bool>, retries: int): nat {
    match FirstSuccess(oks, retries)
    case Some(k) => k
    case None => if retries > 0 then retries else 0
  }

  /** The sleeps after failed attempts 1..n: `backoff_factor ** attempt`. */
  function Backoffs(factor: int, n: nat): (r: seq<int>)
    ensures |r| == n
  {
    seq(n, k requires 0 <= k < n => Pow(factor, k + 1))
  }

  /** Never more than `retries` attempts; all of them when none succeeds;
      the loop stops right after the first success; one sleep per failure. */
  lemma AttemptsSpec(oks: seq<bool>, retries: int)
    ensures Attempts(oks, retries) <= (if retries > 0 then retries else 0)
    ensures FirstSuccess(oks, retries).None? ==> Attempts(oks, retries) == (if retries > 0 then retries else 0)
    ensures FirstSuccess(oks, retries).Some? <==> exists i :: 0 <= i < retries && Succeeds(oks, i)
    ensures FirstSuccess(oks, retries).Some? ==> Succeeds(oks, Attempts(oks, retries) - 1)
    ensures forall j :: 0 <= j < FailedAttempts(oks, retries) ==> !Succeeds(oks, j)
    ensures FailedAttempts(oks, retries)
         == if FirstSuccess(oks, retries).Some? then Attempts(oks, retries) - 1 else Attempts(oks, retries)
  {
  }

  /** If attempt k succeeds and every earlier one failed, the loop succeeds at k. */
  lemma FirstSuccessAt(oks: seq<bool>, k: nat, retries: int)
    requires k < retries && Succeeds(oks, k)
    requires forall j :: 0 <= j < k ==> !Succeeds(oks, j)
    ensures FirstSuccess(oks, retries) == Some(k)
  {
  }

  /** With the default factor 2 and three failures the sleeps are 2, 4 and 8. */
  lemma DefaultBackoffs()
    ensures Backoffs(2, 3) == [2, 4, 8]
  {
    var b := Backoffs(2, 3);
    assert b[0] == Pow(2, 1) == 2;
    assert b[1] == Pow(2, 2) == 4;
    assert b[2] == Pow(2, 3) == 8;
  }

  /** For a factor of at least 2 the sleeps strictly increase. */
  lemma {:induction false} BackoffsIncrease(factor: int, n: nat, i: nat, j: nat)
    requires factor >= 2 && i < j < n
    ensures Backoffs(factor, n)[i] < Backoffs(factor, n)[j]
    decreases j - i
  {
    PowPositive(factor, j);
    if i + 1 < j {
      BackoffsIncrease(factor, n, i, j - 1);
    }
  }

  lemma {:induction false} PowNonNegative(base: int, e: nat)
    requires base >= 0
    ensures Pow(base, e) >= 0
  {
    if e > 0 {
      PowNonNegative(base, e - 1);
    }
  }

  /** One more post: the next response is the one at the current position,
      and the remaining ones shift by one. */
  lemma DropStep(rs: seq<Response>, n: nat)
    ensures ResponseAt(Drop(rs, n), 0) == ResponseAt(rs, n)
    ensures Drop(Drop(rs, n), 1) == Drop(rs, n + 1)
  {
  }

  lemma {:induction false} PowPositive(base: int, e: nat)
    requires base >= 2
    ensures Pow(base, e) >= 1
  {
    if e > 0 {
      PowPositive(base, e - 1);
    }
  }

  // ------------------------------------------------------------ the oracle

  /** A remote endpoint: the responses it will give, what was posted to it and
      how long the client slept between attempts. */
  class Channel<P> {
    var pending: seq<Response>
    var posted: seq<P>
    ghost var sleeps: seq<int>

    constructor (responses: seq<Response>)
      ensures pending == responses && posted == [] && sleeps == []
    {
      pending := responses;
      posted := [];
      sleeps := [];
    }

    /** `requests.post(endpoint, json = body)`. */
    method Post(body: P) returns (r: Response)
      modifies this
      ensures r == ResponseAt(old(pending), 0)
      ensures pending == Drop(old(pending), 1)
      ensures posted == old(posted) + [body]
      ensures sleeps == old(sleeps)
    {
      if pending == [] {
        r := RequestException;
      } else {
        r := pending[0];
        pending := pending[1..];
      }
      posted := posted + [body];
    }

    /** `time.sleep(seconds)`. */
    method Sleep(seconds: int)
      requires seconds >= 0
      modifies this
      ensures sleeps == old(sleeps) + [seconds]
      ensures pending == old(pending) && posted == old(posted)
    {
      sleeps := sleeps + [seconds];
    }
  }
}
