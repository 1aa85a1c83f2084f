/**
 * The egress rate limiter (lora_bridge/core/ratelimit.py): an incremental token bucket, proved to
 * answer exactly as a specification that looks only at the history of requests.
 *
 * Reals stand for the source's floats; the clock never goes back.
 */
module TokenBucket {
  import opened Domain

  datatype Limits = Limits(capacity: real, rate: real) {
    ghost predicate Sensible() {
      capacity >= 0.0 && rate >= 0.0
    }
  }

  function Max(a: int, b: int): int {
    if a >= b then a else b
  }

  function LimitsOf(spec: RateSpec): Limits
    requires spec.windowSeconds != 0.0
  {
    Limits(Max(spec.burst, spec.msgsPerWindow) as real, spec.msgsPerWindow as real / spec.windowSeconds)
  }

  // ---- The incremental bucket -----------------------------------------------------------------

  // What flows in over a span. The lemmas below hide the product and use its two laws.
  function Refill(rate: real, span: real): real {
    rate * span
  }

  lemma RefillAdds(rate: real, x: real, y: real)
    ensures Refill(rate, x + y) == Refill(rate, x) + Refill(rate, y)
  {
  }

  lemma RefillOfNothing(rate: real)
    ensures Refill(rate, 0.0) == 0.0
  {
  }

  lemma RefillGrows(rate: real, x: real, y: real)
    requires rate >= 0.0 && 0.0 <= x <= y
    ensures 0.0 <= Refill(rate, x) <= Refill(rate, y)
  {
  }

  datatype Bucket = Bucket(tokens: real, last: real)

  function Full(l: Limits, now: real): Bucket {
    Bucket(l.capacity, now)
  }

  function ToppedUp(l: Limits, b: Bucket, now: real): Bucket {
    var elapsed := now - b.last;
    if elapsed > 0.0 then
      var level := b.tokens + Refill(l.rate, elapsed);
      Bucket(if level < l.capacity then level else l.capacity, now)
    else b
  }

  predicate Grants(l: Limits, b: Bucket, now: real, n: real) {
    ToppedUp(l, b, now).tokens >= n
  }

  function Consumed(l: Limits, b: Bucket, now: real, n: real): Bucket {
    var full := ToppedUp(l, b, now);
    if full.tokens >= n then full.(tokens := full.tokens - n) else full
  }

  // ---- Histories ------------------------------------------------------------------------------

  datatype Request = Request(at: real, amount: real, granted: bool)

  function Spent(r: Request): real {
    if r.granted then r.amount else 0.0
  }

  // Everything granted in a history.
  function Granted(h: seq<Request>): real {
    if h == [] then 0.0 else Granted(h[..|h| - 1]) + Spent(h[|h| - 1])
  }

  // Everything granted at instants within [a, b].
  function GrantedWithin(h: seq<Request>, a: real, b: real): real {
    if h == [] then 0.0
    else
      var r := h[|h| - 1];
      GrantedWithin(h[..|h| - 1], a, b) + (if a <= r.at <= b then Spent(r) else 0.0)
  }

  ghost predicate Ordered(birth: real, h: seq<Request>) {
    && (forall i :: 0 <= i < |h| ==> birth <= h[i].at && h[i].amount >= 0.0)
    && (forall i, j :: 0 <= i < j < |h| ==> h[i].at <= h[j].at)
  }

  ghost predicate NotBefore(birth: real, h: seq<Request>, now: real) {
    birth <= now && forall i :: 0 <= i < |h| ==> h[i].at <= now
  }

  // The bucket after a history, whatever its recorded answers.
  function Run(l: Limits, birth: real, h: seq<Request>): Bucket {
    if h == [] then Full(l, birth)
    else Consumed(l, Run(l, birth, h[..|h| - 1]), h[|h| - 1].at, h[|h| - 1].amount)
  }

  // The recorded answers are the bucket's own.
  ghost predicate Answered(l: Limits, birth: real, h: seq<Request>) {
    h != [] ==>
      var prior, r := h[..|h| - 1], h[|h| - 1];
      Answered(l, birth, prior) && r.granted == Grants(l, Run(l, birth, prior), r.at, r.amount)
  }

  // ---- The window specification ---------------------------------------------------------------

  // Room left for n at `now` in the window that opened at `since` and granted `spent`.
  predicate Fits(l: Limits, since: real, spent: real, now: real, n: real) {
    l.capacity + Refill(l.rate, now - since) - spent >= n
  }

  // n fits the capacity, the window since construction, and the window since every request.
  ghost predicate WindowAllows(l: Limits, birth: real, h: seq<Request>, now: real, n: real) {
    && n <= l.capacity
    && Fits(l, birth, Granted(h), now, n)
    && forall j :: 0 <= j < |h| ==> Fits(l, h[j].at, Granted(h[j..]), now, n)
  }

  // ---- Refinement -----------------------------------------------------------------------------

  lemma FitsShift(l: Limits, since: real, spent: real, t: real, more: real, now: real, n: real)
    ensures Fits(l, since, spent + more, now, n) <==> Fits(l, since, spent, t, n + more - Refill(l.rate, now - t))
  {
    hide Refill;
    RefillAdds(l.rate, t - since, now - t);
  }

  lemma GrantedStep(h: seq<Request>, r: Request, j: nat)
    requires j <= |h|
    ensures Granted((h + [r])[j..]) == Granted(h[j..]) + Spent(r)
  {
    hide Refill;
    assert (h + [r])[j..] == h[j..] + [r];
    assert (h[j..] + [r])[..|h| - j] == h[j..];
  }

  // One window, before and after one more request.
  lemma FitsStep(l: Limits, h: seq<Request>, r: Request, j: nat, since: real, now: real, n: real)
    requires j <= |h|
    ensures Fits(l, since, Granted((h + [r])[j..]), now, n) <==>
            Fits(l, since, Granted(h[j..]), r.at, n + Spent(r) - Refill(l.rate, now - r.at))
  {
    hide Refill;
    GrantedStep(h, r, j);
    FitsShift(l, since, Granted(h[j..]), r.at, Spent(r), now, n);
  }

  // The window that opens with the newest request asks only that its grant fit the capacity.
  lemma NewestWindow(l: Limits, h: seq<Request>, r: Request, now: real, n: real)
    ensures Fits(l, r.at, Granted((h + [r])[|h|..]), now, n) <==>
            n + Spent(r) - Refill(l.rate, now - r.at) <= l.capacity
  {
    hide Refill;
    FitsStep(l, h, r, |h|, r.at, now, n);
    assert h[|h|..] == [];
    RefillOfNothing(l.rate);
  }

  // The window condition after one more request, in terms of the one before it.
  lemma WindowStep(l: Limits, birth: real, h: seq<Request>, r: Request, now: real, n: real)
    ensures WindowAllows(l, birth, h + [r], now, n) <==>
            n <= l.capacity && WindowAllows(l, birth, h, r.at, n + Spent(r) - Refill(l.rate, now - r.at))
  {
    hide Refill;
    var h', m := h + [r], n + Spent(r) - Refill(l.rate, now - r.at);
    assert Fits(l, birth, Granted(h'), now, n) <==> Fits(l, birth, Granted(h), r.at, m) by {
      assert h'[0..] == h' && h[0..] == h;
      FitsStep(l, h, r, 0, birth, now, n);
    }
    NewestWindow(l, h, r, now, n);
    WindowsBefore(l, h, r, now, n);
  }

  lemma WindowsBefore(l: Limits, h: seq<Request>, r: Request, now: real, n: real)
    ensures var h', m := h + [r], n + Spent(r) - Refill(l.rate, now - r.at);
      (forall j :: 0 <= j < |h'| ==> Fits(l, h'[j].at, Granted(h'[j..]), now, n)) <==>
      && Fits(l, r.at, Granted(h'[|h|..]), now, n)
      && (forall j :: 0 <= j < |h| ==> Fits(l, h[j].at, Granted(h[j..]), r.at, m))
  {
    hide Refill;
    var h', m := h + [r], n + Spent(r) - Refill(l.rate, now - r.at);
    forall j | 0 <= j < |h|
      ensures Fits(l, h'[j].at, Granted(h'[j..]), now, n) <==> Fits(l, h[j].at, Granted(h[j..]), r.at, m)
    {
      FitsStep(l, h, r, j, h[j].at, now, n);
    }
  }

  lemma {:induction false} RunBounds(l: Limits, birth: real, h: seq<Request>)
    requires Ordered(birth, h)
    ensures Run(l, birth, h).last == if h == [] then birth else h[|h| - 1].at
    ensures Run(l, birth, h).tokens <= l.capacity
  {
    hide Refill;
    if h != [] {
      RunBounds(l, birth, h[..|h| - 1]);
    }
  }

  lemma OrderedPrefix(birth: real, h: seq<Request>, k: nat)
    requires Ordered(birth, h) && k <= |h|
    ensures Ordered(birth, h[..k])
  {
    hide Refill;
  }

  // How full the bucket is at `now`, after a request was served at r.at.
  lemma ConsumedLevel(l: Limits, b: Bucket, r: Request, now: real, n: real)
    requires b.tokens <= l.capacity && b.last <= r.at <= now && r.amount >= 0.0
    requires r.granted == Grants(l, b, r.at, r.amount)
    ensures Grants(l, Consumed(l, b, r.at, r.amount), now, n) <==>
            n <= l.capacity && Grants(l, b, r.at, n + Spent(r) - Refill(l.rate, now - r.at))
  {
    hide Refill;
    RefillOfNothing(l.rate);
  }

  lemma RunLevelStep(l: Limits, birth: real, h: seq<Request>, now: real, n: real)
    requires Ordered(birth, h) && Answered(l, birth, h) && NotBefore(birth, h, now) && h != []
    ensures var prior, r := h[..|h| - 1], h[|h| - 1];
      Grants(l, Run(l, birth, h), now, n) <==>
      n <= l.capacity && Grants(l, Run(l, birth, prior), r.at, n + Spent(r) - Refill(l.rate, now - r.at))
  {
    hide Refill;
    OrderedPrefix(birth, h, |h| - 1);
    RunBounds(l, birth, h[..|h| - 1]);
    ConsumedLevel(l, Run(l, birth, h[..|h| - 1]), h[|h| - 1], now, n);
  }

  lemma RefinesAtBirth(l: Limits, birth: real, now: real, n: real)
    requires l.Sensible() && birth <= now
    ensures Grants(l, Full(l, birth), now, n) <==> WindowAllows(l, birth, [], now, n)
  {
    hide Refill;
    RefillGrows(l.rate, now - birth, now - birth);
  }

  // The incremental bucket refines the window specification: for every history and every request
  // it grants n if and only if the specification does.
  lemma {:induction false} BucketRefinesWindow(l: Limits, birth: real, h: seq<Request>, now: real, n: real)
    requires l.Sensible() && Ordered(birth, h) && NotBefore(birth, h, now) && Answered(l, birth, h)
    ensures Grants(l, Run(l, birth, h), now, n) <==> WindowAllows(l, birth, h, now, n)
    decreases |h|
  {
    hide Refill, WindowAllows, Grants;
    if h == [] {
      RefinesAtBirth(l, birth, now, n);
    } else {
      var k := |h| - 1;
      var prior, r := h[..k], h[k];
      OrderedPrefix(birth, h, k);
      BucketRefinesWindow(l, birth, prior, r.at, n + Spent(r) - Refill(l.rate, now - r.at));
      assert prior + [r] == h;
      WindowStep(l, birth, prior, r, now, n);
      RunLevelStep(l, birth, h, now, n);
    }
  }

  // ---- The airtime bound ----------------------------------------------------------------------

  lemma {:induction false} WithinSuffix(h: seq<Request>, a: real, b: real, i: nat)
    requires i <= |h|
    requires forall j :: 0 <= j < |h| ==> h[j].amount >= 0.0
    requires forall j :: 0 <= j < i ==> h[j].at < a
    ensures GrantedWithin(h, a, b) <= Granted(h[i..])
    decreases |h|
  {
    hide Refill;
    if h != [] {
      var k := |h| - 1;
      if i <= k {
        WithinSuffix(h[..k], a, b, i);
        assert h[..k][i..] == h[i..][..k - i];
      } else {
        assert h[..k][k..] == [] && h[i..] == [];
        WithinSuffix(h[..k], a, b, k);
      }
    }
  }

  // A window that opened after `a` and still fits n bounds the whole span from `a`.
  lemma FitBoundsSpan(l: Limits, since: real, spent: real, now: real, n: real, a: real)
    requires Fits(l, since, spent, now, n) && l.rate >= 0.0 && a <= since <= now
    ensures spent + n <= l.capacity + Refill(l.rate, now - a)
  {
    hide Refill;
    RefillGrows(l.rate, now - since, now - a);
  }

  // What one granted request says about the span that ends with it.
  lemma GrantBoundsSpan(l: Limits, birth: real, h: seq<Request>, r: Request, a: real)
    requires Ordered(birth, h) && NotBefore(birth, h, r.at) && WindowAllows(l, birth, h, r.at, r.amount)
    requires l.rate >= 0.0 && a <= r.at
    ensures GrantedWithin(h, a, r.at) + r.amount <= l.capacity + Refill(l.rate, r.at - a)
  {
    hide Refill, WindowAllows;
    var i := FirstFrom(h, a);
    WithinSuffix(h, a, r.at, i);
    if i < |h| {
      assert Fits(l, h[i].at, Granted(h[i..]), r.at, r.amount) by { WindowFrom(l, birth, h, i, r.at, r.amount); }
      FitBoundsSpan(l, h[i].at, Granted(h[i..]), r.at, r.amount, a);
    } else {
      assert h[i..] == [];
      WindowFrom(l, birth, h, i, r.at, r.amount);
      RefillGrows(l.rate, 0.0, r.at - a);
    }
  }

  lemma WindowFrom(l: Limits, birth: real, h: seq<Request>, i: nat, now: real, n: real)
    requires WindowAllows(l, birth, h, now, n)
    ensures n <= l.capacity
    ensures i < |h| ==> Fits(l, h[i].at, Granted(h[i..]), now, n)
  {
    hide Refill;
  }

  lemma {:induction false} WithinUpTo(h: seq<Request>, a: real, b: real, c: real)
    requires b <= c && forall i :: 0 <= i < |h| ==> h[i].at <= b
    ensures GrantedWithin(h, a, b) == GrantedWithin(h, a, c)
  {
    hide Refill;
    if h != [] {
      WithinUpTo(h[..|h| - 1], a, b, c);
    }
  }

  // In any span [a, b] the limiter grants at most capacity + rate * (b - a).
  lemma {:induction false} GrantsAreBounded(l: Limits, birth: real, h: seq<Request>, a: real, b: real)
    requires l.Sensible() && Ordered(birth, h) && Answered(l, birth, h) && a <= b
    ensures GrantedWithin(h, a, b) <= l.capacity + Refill(l.rate, b - a)
    decreases |h|
  {
    hide Refill, WindowAllows, Grants, Run;
    RefillGrows(l.rate, b - a, b - a);
    if h != [] {
      var k := |h| - 1;
      var prior, r := h[..k], h[k];
      OrderedPrefix(birth, h, k);
      if a <= r.at <= b && r.granted {
        BucketRefinesWindow(l, birth, prior, r.at, r.amount);
        GrantBoundsSpan(l, birth, prior, r, a);
        WithinUpTo(prior, a, r.at, b);
        RefillGrows(l.rate, r.at - a, b - a);
      } else {
        GrantsAreBounded(l, birth, prior, a, b);
      }
    }
  }

  // The first request at or after `a`.
  function FirstFrom(h: seq<Request>, a: real): (i: nat)
    ensures i <= |h| && (i < |h| ==> h[i].at >= a)
    ensures forall j :: 0 <= j < i ==> h[j].at < a
  {
    if h == [] || h[0].at >= a then 0
    else
      assert forall j :: 0 < j < |h| ==> h[j] == h[1..][j - 1];
      FirstFrom(h[1..], a) + 1
  }

  // ---- The mutable limiter --------------------------------------------------------------------

  lemma {:induction false} UnitsGrantAtMostTheirNumber(h: seq<Request>)
    requires forall i :: 0 <= i < |h| ==> h[i].amount == 1.0
    ensures 0.0 <= Granted(h) <= |h| as real
  {
    if h != [] {
      UnitsGrantAtMostTheirNumber(h[..|h| - 1]);
    }
  }

  // Fewer single messages asked for than the bucket holds: one more is always allowed.
  lemma FewUnitsAreAllowed(l: Limits, birth: real, h: seq<Request>, now: real)
    requires l.Sensible() && NotBefore(birth, h, now) && (|h| + 1) as real <= l.capacity
    requires forall i :: 0 <= i < |h| ==> h[i].amount == 1.0
    ensures WindowAllows(l, birth, h, now, 1.0)
  {
    hide Refill, Granted;
    UnitsGrantAtMostTheirNumber(h);
    RefillGrows(l.rate, 0.0, now - birth);
    forall j | 0 <= j < |h|
      ensures Fits(l, h[j].at, Granted(h[j..]), now, 1.0)
    {
      UnitsGrantAtMostTheirNumber(h[j..]);
      RefillGrows(l.rate, 0.0, now - h[j].at);
    }
  }

  // ---- The configured rate --------------------------------------------------------------------

  lemma Scaled(x: real, y: real, w: real)
    requires w > 0.0
    ensures x <= y <==> x * w <= y * w
  {
  }

  // What flows in over d seconds, counted in the rate's own window.
  lemma RefillInWindows(spec: RateSpec, d: real)
    requires spec.windowSeconds > 0.0
    ensures Refill(LimitsOf(spec).rate, d) * spec.windowSeconds == d * spec.msgsPerWindow as real
  {
    var m, w := spec.msgsPerWindow as real, spec.windowSeconds;
    var r := m / w;
    assert r * w == m;
    assert (r * d) * w == d * (r * w);
  }

  lemma LevelInWindows(spec: RateSpec, b: Bucket, d: real, n: real)
    requires spec.windowSeconds > 0.0 && d >= 0.0 && b.tokens <= LimitsOf(spec).capacity
    ensures Grants(LimitsOf(spec), b, b.last + d, n) <==>
      && n <= Max(spec.burst, spec.msgsPerWindow) as real
      && n * spec.windowSeconds <= b.tokens * spec.windowSeconds + d * spec.msgsPerWindow as real
  {
    hide Refill;
    var l, w := LimitsOf(spec), spec.windowSeconds;
    RefillInWindows(spec, d);
    RefillOfNothing(l.rate);
    Scaled(n, b.tokens + Refill(l.rate, d), w);
    assert (b.tokens + Refill(l.rate, d)) * w == b.tokens * w + Refill(l.rate, d) * w;
    assert b.last + d - b.last == d;
  }

  lemma {:induction false} AnswerOf(l: Limits, birth: real, h: seq<Request>, i: nat)
    requires Answered(l, birth, h) && i < |h|
    ensures h[i].granted == Grants(l, Run(l, birth, h[..i]), h[i].at, h[i].amount)
  {
    hide Grants, Run;
    var k := |h| - 1;
    if i < k {
      AnswerOf(l, birth, h[..k], i);
      assert h[..k][..i] == h[..i];
    }
  }

  // Single messages asked for at the very beginning, of a bucket of c tokens.
  lemma {:induction false} BurstLevel(l: Limits, birth: real, h: seq<Request>, c: int)
    requires l.capacity == c as real && c >= 0
    requires forall i :: 0 <= i < |h| ==> h[i].at == birth && h[i].amount == 1.0
    ensures Run(l, birth, h) == Bucket((if |h| < c then c - |h| else 0) as real, birth)
  {
    if h != [] {
      BurstLevel(l, birth, h[..|h| - 1], c);
    }
  }

  class TokenBucket {
    ghost const spec: RateSpec
    const limits: Limits
    var tokens: real
    var last: real
    ghost const birth: real
    ghost var history: seq<Request>

    ghost predicate Valid()
      reads this
    {
      && spec.windowSeconds > 0.0 && spec.msgsPerWindow >= 0 && limits == LimitsOf(spec)
      && limits.Sensible()
      && Ordered(birth, history) && Answered(limits, birth, history)
      && Bucket(tokens, last) == Run(limits, birth, history)
    }

    constructor (spec: RateSpec, now: real)
      requires spec.windowSeconds > 0.0 && spec.msgsPerWindow >= 0
      ensures Valid() && this.spec == spec && limits == LimitsOf(spec) && birth == now && history == []
    {
      this.spec, limits := spec, LimitsOf(spec);
      tokens, last := LimitsOf(spec).capacity, now;
      birth, history := now, [];
      new;
      RateIsSensible(spec);
    }

    // Would n be granted at `now`?
    ghost predicate Allows(now: real, n: real)
      reads this
    {
      WindowAllows(limits, birth, history, now, n)
    }

    // d seconds after the last top-up n is granted exactly when the tokens left and what the configured
    // rate lets in over d seconds make up n, and a full bucket holds n.
    lemma LevelIsExact(d: real, n: real)
      requires Valid() && d >= 0.0
      ensures Allows(last + d, n) <==>
        && (n <= spec.burst as real || n <= spec.msgsPerWindow as real)
        && n * spec.windowSeconds <= tokens * spec.windowSeconds + d * spec.msgsPerWindow as real
    {
      hide Refill, WindowAllows, Grants, Run;
      RunBounds(limits, birth, history);
      LevelInWindows(spec, Bucket(tokens, last), d, n);
      BucketRefinesWindow(limits, birth, history, last + d, n);
    }

    // A drained bucket gains exactly the configured number of messages over one window; the next
    // single message is granted exactly when its share of the window has passed.
    lemma DrainedRefills(d: real, n: real)
      requires Valid() && tokens == 0.0 && d >= 0.0
      ensures Allows(last + spec.windowSeconds, n) <==> n <= spec.msgsPerWindow as real
      ensures Allows(last + d, 1.0) <==> d * spec.msgsPerWindow as real >= spec.windowSeconds
    {
      hide Refill, WindowAllows, Grants, Run;
      LevelIsExact(spec.windowSeconds, n);
      LevelIsExact(d, 1.0);
      Scaled(n, spec.msgsPerWindow as real, spec.windowSeconds);
      assert spec.msgsPerWindow == 0 ==> d * spec.msgsPerWindow as real == 0.0;
    }

    // Of the single messages asked for at the very beginning exactly the first max(burst, messages per
    // window) are granted.
    lemma BurstIsExact(k: nat)
      requires Valid() && k <= |history|
      requires forall i :: 0 <= i < k ==> history[i].at == birth && history[i].amount == 1.0
      ensures forall i :: 0 <= i < k ==> (history[i].granted <==> i < spec.burst || i < spec.msgsPerWindow)
    {
      hide Refill, Run;
      forall i | 0 <= i < k
        ensures history[i].granted <==> i < spec.burst || i < spec.msgsPerWindow
      {
        AnswerOf(limits, birth, history, i);
        BurstLevel(limits, birth, history[..i], Max(spec.burst, spec.msgsPerWindow));
      }
    }

    // In any span of one configured window at most a full bucket and one window's messages are granted.
    lemma GrantsPerWindow(a: real)
      requires Valid()
      ensures GrantedWithin(history, a, a + spec.windowSeconds) <=
        (if spec.burst >= spec.msgsPerWindow then spec.burst else spec.msgsPerWindow) as real
        + spec.msgsPerWindow as real
    {
      hide Refill, Run, Answered, Ordered;
      GrantsAreBounded(limits, birth, history, a, a + spec.windowSeconds);
      RefillInWindows(spec, spec.windowSeconds);
      var full := Refill(limits.rate, spec.windowSeconds);
      Scaled(full, spec.msgsPerWindow as real, spec.windowSeconds);
      assert a + spec.windowSeconds - a == spec.windowSeconds;
    }

    method TopUp(now: real)
      modifies this`tokens, this`last
      ensures Bucket(tokens, last) == ToppedUp(limits, old(Bucket(tokens, last)), now)
    {
      var elapsed := now - last;
      if elapsed > 0.0 {
        var level := tokens + Refill(limits.rate, elapsed);
        tokens := if level < limits.capacity then level else limits.capacity;
        last := now;
      }
    }

    // Granted exactly when the window specification allows it over the whole past.
    method TryConsume(n: real, now: real) returns (granted: bool)
      requires Valid() && NotBefore(birth, history, now) && n >= 0.0
      modifies this
      ensures Valid() && history == old(history) + [Request(now, n, granted)]
      ensures granted <==> WindowAllows(limits, birth, old(history), now, n)
    {
      BucketRefinesWindow(limits, birth, history, now, n);
      TopUp(now);
      granted := tokens >= n;
      if granted {
        tokens := tokens - n;
      }
      RunStep(limits, birth, history, Request(now, n, granted));
      history := history + [Request(now, n, granted)];
    }
  }

  lemma RateIsSensible(spec: RateSpec)
    requires spec.windowSeconds > 0.0 && spec.msgsPerWindow >= 0
    ensures LimitsOf(spec).Sensible()
  {
    hide Refill;
  }

  lemma RunStep(l: Limits, birth: real, h: seq<Request>, r: Request)
    requires Ordered(birth, h) && Answered(l, birth, h) && NotBefore(birth, h, r.at) && r.amount >= 0.0
    requires r.granted == Grants(l, Run(l, birth, h), r.at, r.amount)
    ensures Run(l, birth, h + [r]) == Consumed(l, Run(l, birth, h), r.at, r.amount)
    ensures Ordered(birth, h + [r]) && Answered(l, birth, h + [r])
  {
    hide Refill;
    assert (h + [r])[..|h|] == h;
  }
}
