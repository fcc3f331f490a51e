/** sendWithRetry of pkg/sender/otlp_client.go against an arbitrary script of server responses. */
module RetryLoop {
  import opened Seqs

  const SECOND: int := 1_000_000_000
  const MAX_RETRY_AFTER: int := 30
  const TWO_63: int := 0x8000_0000_0000_0000
  const TWO_64: int := 0x1_0000_0000_0000_0000

  /** `baseSec` is RetryBaseSec, 1.0 for a client made by NewOTLPClient. */
  datatype Policy = Policy(maxRetries: int, baseSec: real)

  /** One reply to a POST.  `interrupted` marks a transport error caused by the context ending;
      `retryAfter` is the Retry-After header when it parses as an integer. */
  datatype Reply = NetworkError(interrupted: bool) | Http(status: int, retryAfter: Option<int>)

  /** The world one call meets, indexed by attempt: whether the context ends during the wait
      before the attempt or is found ended after it, and what the server replies. */
  datatype Script = Script(
    marshals: bool,
    endpointValid: bool,
    endsInWait: nat -> bool,
    ended: nat -> bool,
    reply: nat -> Reply)

  datatype Outcome =
    | Sent | Rejected(status: int) | Exhausted(last: Option<Reply>) | Cancelled | NotMarshalled | BadEndpoint

  predicate Success(r: Reply) {
    r.Http? && 200 <= r.status < 300
  }

  function IsRetryableStatus(status: int): (r: bool) {
    if status == 429 || status == 408 then true
    else if status >= 500 && status < 600 then true
    else false
  }

  /** A reply after which the loop goes round again. */
  predicate Transient(r: Reply) {
    r.NetworkError? || (!Success(r) && IsRetryableStatus(r.status))
  }

  function Pow2(n: nat): (p: int)
    ensures p >= 1
  {
    if n == 0 then 1 else 2 * Pow2(n - 1)
  }

  /** `1 << n` in 64-bit two's complement. */
  function ShiftLeft1(n: nat): int {
    if n < 63 then Pow2(n) else if n == 63 then -TWO_63 else 0
  }

  function Wrap64(x: int): int {
    (x + TWO_63) % TWO_64 - TWO_63
  }

  function Trunc(r: real): int {
    if r >= 0.0 then r.Floor else -((-r).Floor)
  }

  /** The exponential wait before an attempt, in nanoseconds: the float product is cut to whole
      seconds before it is scaled, and the scaling wraps. */
  function Backoff(baseSec: real, attempt: nat): int
    requires attempt >= 1
  {
    Wrap64(Trunc(baseSec * (ShiftLeft1(attempt - 1) as real)) * SECOND)
  }

  /** The wait a reply asks for, 0 if it asks for none. */
  function Asked(r: Reply): int {
    if r.Http? && r.retryAfter.Some? && r.retryAfter.value > 0
    then (if r.retryAfter.value > MAX_RETRY_AFTER then MAX_RETRY_AFTER else r.retryAfter.value) * SECOND
    else 0
  }

  /** The wait before attempt k: what the reply just before asked for, or else the backoff. */
  function Wait(c: Policy, x: Script, k: nat): int
    requires k >= 1
  {
    if Asked(x.reply(k - 1)) > 0 then Asked(x.reply(k - 1)) else Backoff(c.baseSec, k)
  }

  function Attempts(c: Policy): nat {
    if c.maxRetries < 0 then 0 else c.maxRetries + 1
  }

  /** What a finished call looks like, without reference to how the loop got there. */
  ghost predicate Describes(c: Policy, x: Script, outcome: Outcome, posts: nat, waits: seq<int>) {
    && posts <= Attempts(c)
    && (forall i :: 0 <= i < posts ==> !x.ended(i) && (i > 0 ==> !x.endsInWait(i)))
    && (forall i :: 0 <= i < posts - 1 ==> Transient(x.reply(i)))
    && (forall i :: 0 <= i < |waits| ==> waits[i] == Wait(c, x, i + 1))
    && (posts > 0 ==> x.marshals && x.endpointValid)
    && match outcome
       case NotMarshalled => !x.marshals && posts == 0 && waits == []
       case Sent => posts > 0 && Success(x.reply(posts - 1)) && |waits| == posts - 1
       case Rejected(status) =>
         && posts > 0 && |waits| == posts - 1
         && !Success(x.reply(posts - 1)) && !Transient(x.reply(posts - 1))
         && status == x.reply(posts - 1).status
       case BadEndpoint => x.marshals && !x.endpointValid && posts == 0 && waits == [] && Attempts(c) > 0 && !x.ended(0)
       case Exhausted(last) =>
         && x.marshals && posts == Attempts(c) && |waits| == (if posts > 0 then posts - 1 else 0)
         && (posts > 0 ==> Transient(x.reply(posts - 1)))
         && last == (if posts > 0 then Some(x.reply(posts - 1)) else None)
       case Cancelled =>
         && x.marshals && posts < Attempts(c) && (posts > 0 ==> Transient(x.reply(posts - 1)))
         && (if posts > 0 && x.endsInWait(posts) then |waits| == posts - 1 else x.ended(posts) && |waits| == posts)
  }

  method SendWithRetry(c: Policy, x: Script) returns (outcome: Outcome, posts: nat, waits: seq<int>)
    ensures Describes(c, x, outcome, posts, waits)
  {
    posts, waits := 0, [];
    if !x.marshals {
      return NotMarshalled, posts, waits;
    }
    var last: Option<Reply> := None;
    var nextSleep := 0;
    var attempt := 0;
    while attempt <= c.maxRetries
      invariant 0 <= attempt <= Attempts(c) && posts == attempt
      invariant forall i :: 0 <= i < attempt ==> !x.ended(i) && (i > 0 ==> !x.endsInWait(i))
      invariant forall i :: 0 <= i < attempt ==> Transient(x.reply(i))
      invariant |waits| == (if attempt > 0 then attempt - 1 else 0)
      invariant forall i :: 0 <= i < |waits| ==> waits[i] == Wait(c, x, i + 1)
      invariant attempt > 0 ==> x.endpointValid
      invariant nextSleep == (if attempt > 0 then Asked(x.reply(attempt - 1)) else 0)
      invariant last == (if attempt > 0 then Some(x.reply(attempt - 1)) else None)
      decreases c.maxRetries - attempt
    {
      if attempt > 0 {
        var sleep := nextSleep;
        if sleep <= 0 {
          sleep := Backoff(c.baseSec, attempt);
        }
        nextSleep := 0;
        if x.endsInWait(attempt) {
          return Cancelled, posts, waits;
        }
        waits := waits + [sleep];
      }
      if x.ended(attempt) {
        return Cancelled, posts, waits;
      }
      if !x.endpointValid {
        return BadEndpoint, posts, waits;
      }
      posts := posts + 1;
      var reply := x.reply(attempt);
      last := Some(reply);
      match reply {
        case NetworkError(_) =>
        case Http(status, retryAfter) =>
          if 200 <= status < 300 {
            return Sent, posts, waits;
          }
          if !IsRetryableStatus(status) {
            return Rejected(status), posts, waits;
          }
          if retryAfter.Some? && retryAfter.value > 0 {
            nextSleep := (if retryAfter.value > MAX_RETRY_AFTER then MAX_RETRY_AFTER else retryAfter.value) * SECOND;
          }
      }
      attempt := attempt + 1;
    }
    return Exhausted(last), posts, waits;
  }

  // ---------------------------------------------------------------- what the description fixes

  /** The description determines the call: a script and a policy admit one result. */
  lemma DescriptionIsComplete(c: Policy, x: Script,
      o1: Outcome, p1: nat, w1: seq<int>, o2: Outcome, p2: nat, w2: seq<int>)
    requires Describes(c, x, o1, p1, w1) && Describes(c, x, o2, p2, w2)
    ensures o1 == o2 && p1 == p2 && w1 == w2
  {
    if p1 < p2 {
      assert false;
    } else if p2 < p1 {
      assert false;
    }
    assert |w1| == |w2|;
  }

  /** Number of 2xx replies among the first n. */
  function Accepts(x: Script, n: nat): nat {
    if n == 0 then 0 else Accepts(x, n - 1) + (if Success(x.reply(n - 1)) then 1 else 0)
  }

  lemma {:induction false} TransientMeansNoAccept(x: Script, n: nat)
    requires forall i :: 0 <= i < n ==> Transient(x.reply(i))
    ensures Accepts(x, n) == 0
  {
    if n > 0 {
      TransientMeansNoAccept(x, n - 1);
    }
  }

  /** A call that reports success got exactly one 2xx reply, its last; any other call got none. */
  lemma SentMeansAcceptedOnce(c: Policy, x: Script, outcome: Outcome, posts: nat, waits: seq<int>)
    requires Describes(c, x, outcome, posts, waits)
    ensures Accepts(x, posts) == (if outcome.Sent? then 1 else 0)
  {
    if posts > 0 {
      TransientMeansNoAccept(x, posts - 1);
    }
  }

  // ---------------------------------------------------------------- waiting time

  lemma {:induction false} Pow2Monotone(m: nat, n: nat)
    requires m <= n
    ensures Pow2(m) <= Pow2(n)
    decreases n - m
  {
    if m < n {
      Pow2Monotone(m + 1, n);
    }
  }

  lemma Pow2At33()
    ensures Pow2(33) == 8_589_934_592
  {
    assert Pow2(8) == 256;
    assert Pow2(16) == 65_536;
    assert Pow2(24) == 16_777_216;
    assert Pow2(32) == 4_294_967_296;
  }

  lemma TruncOfInt(n: int)
    ensures Trunc(1.0 * (n as real)) == n
  {
  }

  /** With base 1 the wait before attempt k is 2^(k-1) seconds exactly up to attempt 34; from
      attempt 35 on the nanosecond count no longer fits and what is waited is less. */
  lemma BackoffExact(k: nat)
    requires k >= 1
    ensures Backoff(1.0, k) == Pow2(k - 1) * SECOND <==> k <= 34
    ensures Backoff(1.0, k) <= Pow2(k - 1) * SECOND
  {
    TruncOfInt(ShiftLeft1(k - 1));
    Pow2At33();
    if k <= 34 {
      Pow2Monotone(k - 1, 33);
    } else {
      Pow2Monotone(34, k - 1);
      WrapBelow(ShiftLeft1(k - 1) * SECOND);
    }
  }

  /** With any base: whole seconds, as long as their nanoseconds fit into 64 bits. */
  lemma BackoffFits(base: real, k: nat)
    requires 1 <= k <= 63 && 0.0 <= base * (Pow2(k - 1) as real) < 9_223_372_036.0
    ensures Backoff(base, k) == (base * (Pow2(k - 1) as real)).Floor * 1_000_000_000
  {
    SecondsFit(base * (Pow2(k - 1) as real));
  }

  lemma SecondsFit(seconds: real)
    requires 0.0 <= seconds < 9_223_372_036.0
    ensures Wrap64(Trunc(seconds) * SECOND) == seconds.Floor * 1_000_000_000
  {
    assert 0 <= seconds.Floor <= 9_223_372_035;
  }

  /** Each wait of a call is fixed by the reply just before it: a Retry-After of s > 0 seconds means
      s seconds, but no more than 30; anything else means the backoff. */
  lemma RetryAfterGoverns(c: Policy, x: Script, outcome: Outcome, posts: nat, waits: seq<int>, i: nat)
    requires Describes(c, x, outcome, posts, waits) && i < |waits|
    ensures forall status, s :: x.reply(i) == Http(status, Some(s)) && 0 < s <= 30 ==> waits[i] == s * 1_000_000_000
    ensures forall status, s :: x.reply(i) == Http(status, Some(s)) && s > 30 ==> waits[i] == 30_000_000_000
    ensures (forall status, s :: x.reply(i) == Http(status, Some(s)) ==> s <= 0) ==>
              waits[i] == Backoff(c.baseSec, i + 1)
    ensures i < posts
  {
    assert waits[i] == Wait(c, x, i + 1);
  }

  lemma WrapBelow(v: int)
    ensures -TWO_63 <= Wrap64(v) < TWO_63
    ensures v >= -TWO_63 ==> Wrap64(v) <= v
  {
  }

  /** Time actually spent: a negative duration does not wait. */
  function Waited(waits: seq<int>): int {
    if waits == [] then 0
    else Waited(waits[..|waits| - 1]) + (if waits[|waits| - 1] > 0 then waits[|waits| - 1] else 0)
  }

  /** The waits of a base-1 client never add up to more than 30 r + 2^r - 1 seconds. */
  lemma {:induction false} TotalWaitBound(c: Policy, x: Script, waits: seq<int>)
    requires c.baseSec == 1.0
    requires forall i :: 0 <= i < |waits| ==> waits[i] == Wait(c, x, i + 1)
    ensures Waited(waits) <= (MAX_RETRY_AFTER * |waits| + Pow2(|waits|) - 1) * SECOND
  {
    var r := |waits|;
    if r > 0 {
      TotalWaitBound(c, x, waits[..r - 1]);
      BackoffExact(r);
      assert waits[r - 1] <= (MAX_RETRY_AFTER + Pow2(r - 1)) * SECOND;
    }
  }

  /** If no reply asked for a wait, they add up to at most 2^r - 1 seconds, and to exactly that
      much if and only if r is at most 34. */
  lemma {:induction false} TotalWaitExact(c: Policy, x: Script, waits: seq<int>)
    requires c.baseSec == 1.0
    requires forall i :: 0 <= i < |waits| ==> waits[i] == Wait(c, x, i + 1)
    requires forall i :: 0 <= i < |waits| ==> Asked(x.reply(i)) == 0
    ensures Waited(waits) <= (Pow2(|waits|) - 1) * SECOND
    ensures Waited(waits) == (Pow2(|waits|) - 1) * SECOND <==> |waits| <= 34
  {
    var r := |waits|;
    if r > 0 {
      TotalWaitExact(c, x, waits[..r - 1]);
      BackoffExact(r);
      assert waits[r - 1] == Backoff(1.0, r);
    }
  }

  /** The wait that the end of the context cut short, if one was. */
  function LastWait(c: Policy, x: Script, outcome: Outcome, posts: nat): seq<int> {
    if outcome.Cancelled? && posts > 0 && x.endsInWait(posts) then [Wait(c, x, posts)] else []
  }

  /** The bound for a whole call, a wait cut short by the context counted in full. */
  lemma CallWaitsAtMost(c: Policy, x: Script, outcome: Outcome, posts: nat, waits: seq<int>)
    requires c.baseSec == 1.0 && Describes(c, x, outcome, posts, waits)
    ensures
      var all := waits + LastWait(c, x, outcome, posts);
      posts <= Attempts(c) && |all| <= posts && Waited(all) <= (MAX_RETRY_AFTER * posts + Pow2(posts) - 1) * SECOND
  {
    var all := waits + LastWait(c, x, outcome, posts);
    TotalWaitBound(c, x, all);
    Pow2Monotone(|all|, posts);
  }

  // ---------------------------------------------------------------- what is retried

  /** A reply the sender takes for a passing failure: none at all, 408, 429, or 500 to 599. */
  predicate Passing(r: Reply) {
    r.NetworkError? || r.status in {408, 429} || 500 <= r.status <= 599
  }

  /** Every post but the last was answered by a passing failure; a call stops at a passing failure
      only when the attempts are used up or the context ends; and a status is reported as rejected
      exactly if it is neither a success nor a passing failure. */
  lemma OnlyPassingFailuresAreRetried(c: Policy, x: Script, outcome: Outcome, posts: nat, waits: seq<int>)
    requires Describes(c, x, outcome, posts, waits) && posts > 0
    ensures forall i :: 0 <= i < posts - 1 ==> Passing(x.reply(i)) && !Success(x.reply(i))
    ensures
      var last := x.reply(posts - 1);
      && posts <= c.maxRetries + 1
      && (outcome.Sent? <==> last.Http? && 200 <= last.status <= 299)
      && (outcome.Rejected? <==> last.Http? && !(200 <= last.status <= 299) && !Passing(last))
      && (Passing(last) ==> if posts <= c.maxRetries then outcome.Cancelled? else outcome == Exhausted(Some(last)))
  {
    assert forall i :: 0 <= i < posts ==> (Transient(x.reply(i)) <==> Passing(x.reply(i)));
  }

  // ---------------------------------------------------------------- every script has an outcome

  /** Nothing in the script has to do with the context ending. */
  ghost predicate Undisturbed(x: Script) {
    forall k :: !x.ended(k) && !x.endsInWait(k) && x.reply(k) != NetworkError(true)
  }

  /** The wait list before attempt k. */
  function WaitsBefore(c: Policy, x: Script, k: nat): seq<int> {
    if k <= 1 then [] else WaitsBefore(c, x, k - 1) + [Wait(c, x, k - 1)]
  }

  lemma {:induction false} WaitsBeforeAt(c: Policy, x: Script, k: nat)
    ensures |WaitsBefore(c, x, k)| == if k == 0 then 0 else k - 1
    ensures forall i :: 0 <= i < |WaitsBefore(c, x, k)| ==> WaitsBefore(c, x, k)[i] == Wait(c, x, i + 1)
  {
    if k > 1 {
      WaitsBeforeAt(c, x, k - 1);
    }
  }

  /** Undisturbed, every script leads the loop to an end. */
  lemma EveryScriptEnds(c: Policy, x: Script) returns (outcome: Outcome, posts: nat, waits: seq<int>)
    requires Undisturbed(x)
    ensures Describes(c, x, outcome, posts, waits) && !outcome.Cancelled?
  {
    if !x.marshals {
      return NotMarshalled, 0, [];
    }
    if !x.endpointValid && Attempts(c) > 0 {
      return BadEndpoint, 0, [];
    }
    posts := 0;
    while posts < Attempts(c) && (posts == 0 || Transient(x.reply(posts - 1)))
      invariant posts <= Attempts(c) && forall i :: 0 <= i < posts - 1 ==> Transient(x.reply(i))
      decreases Attempts(c) - posts
    {
      posts := posts + 1;
    }
    waits := WaitsBefore(c, x, posts);
    WaitsBeforeAt(c, x, posts);
    if posts == 0 {
      outcome := Exhausted(None);
    } else {
      var last := x.reply(posts - 1);
      outcome := if Success(last) then Sent else if Transient(last) then Exhausted(Some(last))
          else Rejected(last.status);
    }
  }
}
