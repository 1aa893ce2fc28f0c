/** The per-member lease around a billable provider call, and the windows that contain it.
    Time is in seconds on one clock; tokens are fresh. */
module Leases {
  import opened Basics
  import opened AiLimits

  type Id = nat

  const MIN_TIMEOUT := MIN_RESPONSE_TIMEOUT as real
  const MAX_TIMEOUT := MAX_RESPONSE_TIMEOUT as real
  const LEASE := LOCK_LEASE as real
  const STALE := STALE_SECONDS as real

  datatype Lease = Lease(token: Id, expires: real)

  type Store = map<Id, Lease>

  predicate Held(store: Store, member: Id, now: real) {
    member in store && now < store[member].expires
  }

  /** `SET key token NX EX lease` */
  function Granted(store: Store, member: Id, token: Id, now: real): (r: (Store, bool)) {
    if Held(store, member, now) then (store, false) else (store[member := Lease(token, now + LEASE)], true)
  }

  /** The release script: delete the key if it still carries the token. An expired key reads
      as absent, so deleting it changes nothing a client can see. */
  function Returned(store: Store, member: Id, token: Id): (r: Store) {
    if member in store && store[member].token == token then store - {member} else store
  }

  /** The Redis lock. */
  class MemberAiCallLock {
    var store: Store

    method Acquire(member: Id, token: Id, now: real) returns (acquired: bool)
      modifies this
      ensures (store, acquired) == Granted(old(store), member, token, now)
      ensures acquired <==> !Held(old(store), member, now)
      ensures acquired ==> Held(store, member, now) && store[member] == Lease(token, now + LEASE)
      ensures forall m | m != member :: (m in store <==> m in old(store)) && (m in store ==> store[m] == old(store[m]))
    {
      acquired := !Held(store, member, now);
      if acquired {
        store := store[member := Lease(token, now + LEASE)];
      }
    }

    method Release(member: Id, token: Id)
      modifies this
      ensures store == Returned(old(store), member, token)
      ensures forall m | m in old(store) :: m !in store ==> m == member && old(store[m]).token == token
    {
      if member in store && store[member].token == token {
        store := store - {member};
      }
    }
  }

  /** The process-local fallback: the same protocol without an expiry. */
  class InMemoryMemberAiCallLock {
    var tokens: map<Id, Id>

    method Acquire(member: Id, token: Id) returns (acquired: bool)
      modifies this
      ensures acquired <==> member !in old(tokens)
      ensures tokens == if acquired then old(tokens)[member := token] else old(tokens)
    {
      acquired := member !in tokens;
      if acquired {
        tokens := tokens[member := token];
      }
    }

    method Release(member: Id, token: Id)
      modifies this
      ensures tokens == if member in old(tokens) && old(tokens)[member] == token then old(tokens) - {member} else old(tokens)
    {
      if member in tokens && tokens[member] == token {
        tokens := tokens - {member};
      }
    }
  }

  function Tokens(store: Store): (r: map<Id, Id>) {
    map m | m in store :: store[m].token
  }

  /** While no lease has expired, the fallback answers as Redis does and holds the same tokens. */
  lemma FallbackAgrees(store: Store, member: Id, token: Id, now: real)
    requires forall m | m in store :: now < store[m].expires
    ensures Granted(store, member, token, now).1 <==> member !in Tokens(store)
    ensures Tokens(Granted(store, member, token, now).0) == if member in Tokens(store) then Tokens(store) else Tokens(store)[member := token]
    ensures Tokens(Returned(store, member, token)) ==
            if member in Tokens(store) && Tokens(store)[member] == token then Tokens(store) - {member} else Tokens(store)
  {
  }

  // ---------------------------------------------------------------- the protocol

  datatype Stage = Waiting | Claimed | Calling | Over

  /** One run that got the lease; `started` and `called` are set when it claims its operation
      and when it calls the provider. */
  datatype Holder = Holder(member: Id, acquired: real, stage: Stage, started: Option<real>, called: real, timeout: real)

  datatype State = State(store: Store, holders: map<Id, Holder>, now: real)

  datatype Step =
    | Acquire(member: Id, token: Id)
    | Claim(token: Id)
    | Call(token: Id, timeout: real)
    | Finish(token: Id)
    | Release(token: Id)
    | Pass(seconds: real)

  predicate In(s: State, token: Id, stage: Stage) {
    token in s.holders && s.holders[token].stage == stage
  }

  function Enter(s: State, token: Id, holder: Holder): (r: State) {
    s.(holders := s.holders[token := holder])
  }

  /** The provider's deadline cuts a call off: time does not pass it. */
  predicate MayPass(s: State, seconds: real) {
    seconds >= 0.0 &&
    forall t | t in s.holders && In(s, t, Calling) :: s.now + seconds <= s.holders[t].called + s.holders[t].timeout
  }

  /** `Finish` stands for every end of a run: an answer, an error, a crash. Its release may
      arrive much later, more than once, or never. */
  function Next(s: State, step: Step): (r: State) {
    match step
    case Acquire(member, token) =>
      var (store, ok) := Granted(s.store, member, token, s.now);
      if token in s.holders || !ok then s
      else State(store, s.holders[token := Holder(member, s.now, Waiting, None, 0.0, 0.0)], s.now)
    case Claim(t) => if In(s, t, Waiting) then Enter(s, t, s.holders[t].(stage := Claimed, started := Some(s.now))) else s
    case Call(t, timeout) =>
      if In(s, t, Claimed) && MIN_TIMEOUT <= timeout <= MAX_TIMEOUT
      then Enter(s, t, s.holders[t].(stage := Calling, called := s.now, timeout := timeout)) else s
    case Finish(t) => if t in s.holders then Enter(s, t, s.holders[t].(stage := Over)) else s
    case Release(t) => if In(s, t, Over) then s.(store := Returned(s.store, s.holders[t].member, t)) else s
    case Pass(seconds) => if MayPass(s, seconds) then s.(now := s.now + seconds) else s
  }

  function Run(s: State, steps: seq<Step>): (r: State) {
    if steps == [] then s else Next(Run(s, steps[..|steps| - 1]), steps[|steps| - 1])
  }

  function Initial(now: real): (s: State) { State(map[], map[], now) }

  lemma RunSnoc(s: State, steps: seq<Step>, step: Step)
    ensures Run(s, steps + [step]) == Next(Run(s, steps), step)
  {
    assert (steps + [step])[..|steps|] == steps;
  }

  // ---------------------------------------------------------------- the invariant

  function Expiry(h: Holder): (t: real) { h.acquired + LEASE }

  /** A run that has not ended and whose lease has not expired. */
  predicate Unexpired(s: State, t: Id) {
    t in s.holders && s.holders[t].stage != Over && s.now < Expiry(s.holders[t])
  }

  predicate HolderOk(s: State, t: Id)
    requires t in s.holders
  {
    var h := s.holders[t];
    && h.acquired <= s.now
    && (h.started.Some? ==> h.acquired <= h.started.value <= s.now)
    && (h.stage == Claimed ==> h.started.Some?)
    && (h.stage == Calling ==> h.started.Some? && h.started.value <= h.called <= s.now <= h.called + h.timeout && h.timeout <= MAX_TIMEOUT)
    && (Unexpired(s, t) ==> h.member in s.store && s.store[h.member].token == t)
  }

  predicate LeaseOk(s: State, m: Id)
    requires m in s.store
  {
    var lease := s.store[m];
    lease.token in s.holders && s.holders[lease.token].member == m && lease.expires == Expiry(s.holders[lease.token])
  }

  ghost predicate Inv(s: State) {
    && (forall t | t in s.holders :: HolderOk(s, t))
    && (forall m | m in s.store :: LeaseOk(s, m))
  }

  lemma HoldersStep(s: State, step: Step, t: Id)
    requires Inv(s) && t in Next(s, step).holders
    ensures HolderOk(Next(s, step), t)
  {
    if t in s.holders {
      assert HolderOk(s, t);
      var m := s.holders[t].member;
      assert m in s.store ==> LeaseOk(s, m);
    }
  }

  lemma LeasesStep(s: State, step: Step, m: Id)
    requires Inv(s) && m in Next(s, step).store
    ensures LeaseOk(Next(s, step), m)
  {
    assert m in s.store ==> LeaseOk(s, m);
  }

  lemma InvStep(s: State, step: Step)
    requires Inv(s)
    ensures Inv(Next(s, step))
  {
    forall t | t in Next(s, step).holders
      ensures HolderOk(Next(s, step), t)
    {
      HoldersStep(s, step, t);
    }
    forall m | m in Next(s, step).store
      ensures LeaseOk(Next(s, step), m)
    {
      LeasesStep(s, step, m);
    }
  }

  lemma {:induction false} InvAlways(now: real, steps: seq<Step>)
    ensures Inv(Run(Initial(now), steps))
  {
    if steps != [] {
      InvAlways(now, steps[..|steps| - 1]);
      InvStep(Run(Initial(now), steps[..|steps| - 1]), steps[|steps| - 1]);
    }
  }

  /** In every run at most one run of a member holds an unexpired lease. */
  lemma OneUnexpiredHolder(now: real, steps: seq<Step>, t: Id, u: Id)
    ensures
      var s := Run(Initial(now), steps);
      Unexpired(s, t) && Unexpired(s, u) && s.holders[t].member == s.holders[u].member ==> t == u
  {
    var s := Run(Initial(now), steps);
    InvAlways(now, steps);
    if Unexpired(s, t) && Unexpired(s, u) {
      assert HolderOk(s, t) && HolderOk(s, u);
    }
  }

  /** A release, however late, takes the lease from nobody else: every other run that could
      rely on its lease before still blocks the member's next acquisition. */
  lemma LateReleaseHarmless(now: real, steps: seq<Step>, late: Id, t: Id)
    requires t != late && Unexpired(Run(Initial(now), steps), t)
    ensures
      var s := Run(Initial(now), steps);
      var r := Next(s, Release(late));
      && Unexpired(r, t) && Held(r.store, r.holders[t].member, r.now) && r.store[r.holders[t].member].token == t
  {
    var s := Run(Initial(now), steps);
    InvAlways(now, steps);
    assert HolderOk(s, t);
    assert LeaseOk(s, s.holders[t].member);
  }

  // ---------------------------------------------------------------- calls never overlap

  /** In the run, no call starts later than `delay` after its lease, or lasts over `limit`. */
  ghost predicate Prompt(now: real, steps: seq<Step>, delay: real, limit: real) {
    forall i | 0 <= i < |steps| && steps[i].Call? && In(Run(Initial(now), steps[..i]), steps[i].token, Claimed) ::
      var s := Run(Initial(now), steps[..i]);
      s.now <= s.holders[steps[i].token].acquired + delay && steps[i].timeout <= limit
  }

  predicate CallsCovered(s: State, delay: real, limit: real) {
    forall t | t in s.holders && In(s, t, Calling) :: s.holders[t].called <= s.holders[t].acquired + delay && s.holders[t].timeout <= limit
  }

  /** No two provider calls of one member are open. */
  ghost predicate CallsApart(s: State) {
    forall t, u | In(s, t, Calling) && In(s, u, Calling) && s.holders[t].member == s.holders[u].member :: t == u
  }

  lemma PromptPrefix(now: real, steps: seq<Step>, delay: real, limit: real)
    requires steps != [] && Prompt(now, steps, delay, limit)
    ensures Prompt(now, steps[..|steps| - 1], delay, limit)
  {
    var front := steps[..|steps| - 1];
    forall i | 0 <= i < |front| && front[i].Call? && In(Run(Initial(now), front[..i]), front[i].token, Claimed)
      ensures
        var s := Run(Initial(now), front[..i]);
        s.now <= s.holders[front[i].token].acquired + delay && front[i].timeout <= limit
    {
      assert front[..i] == steps[..i] && front[i] == steps[i];
    }
  }

  lemma {:induction false} PromptCovers(now: real, steps: seq<Step>, delay: real, limit: real)
    requires Prompt(now, steps, delay, limit)
    ensures CallsCovered(Run(Initial(now), steps), delay, limit)
  {
    if steps != [] {
      var n := |steps| - 1;
      PromptPrefix(now, steps, delay, limit);
      PromptCovers(now, steps[..n], delay, limit);
      var s := Run(Initial(now), steps[..n]);
      var step := steps[n];
      assert step.Call? && In(s, step.token, Claimed) ==>
          s.now <= s.holders[step.token].acquired + delay && step.timeout <= limit;
      forall t | In(Next(s, step), t, Calling)
        ensures Next(s, step).holders[t].called <= Next(s, step).holders[t].acquired + delay && Next(s, step).holders[t].timeout <= limit
      {
        assert In(s, t, Calling) || step == Call(t, step.timeout);
      }
    }
  }

  lemma CoveredApart(s: State, delay: real, limit: real)
    requires Inv(s) && CallsCovered(s, delay, limit) && delay + limit < LEASE
    ensures CallsApart(s)
  {
    forall t, u | In(s, t, Calling) && In(s, u, Calling) && s.holders[t].member == s.holders[u].member
      ensures t == u
    {
      assert HolderOk(s, t) && HolderOk(s, u);
      assert Unexpired(s, t) && Unexpired(s, u);
    }
  }

  /** A run with two open calls of one member, when a call may outlive its lease. */
  lemma OverlapRun(delay: real, limit: real) returns (steps: seq<Step>)
    requires delay >= 0.0 && MIN_TIMEOUT <= limit <= MAX_TIMEOUT && delay + limit >= LEASE
    ensures Prompt(0.0, steps, delay, limit) && !CallsApart(Run(Initial(0.0), steps))
  {
    var wait := if delay < LEASE then delay else LEASE;
    steps := [Acquire(0, 1), Pass(wait), Claim(1), Call(1, limit), Pass(LEASE - wait), Acquire(0, 2), Claim(2), Call(2, limit)];
    var s0 := Initial(0.0);
    var h := Holder(0, 0.0, Waiting, None, 0.0, 0.0);
    var first := h.(stage := Calling, started := Some(wait), called := wait, timeout := limit);
    OverlapFirst(wait, limit);
    var s5 := State(map[0 := Lease(1, LEASE)], map[1 := first], LEASE);
    assert steps[..5] == [Acquire(0, 1), Pass(wait), Claim(1), Call(1, limit), Pass(LEASE - wait)];
    assert Run(s0, steps[..5]) == s5;
    RunSnoc(s0, steps[..5], steps[5]);
    assert steps[..6] == steps[..5] + [steps[5]];
    RunSnoc(s0, steps[..6], steps[6]);
    assert steps[..7] == steps[..6] + [steps[6]];
    RunSnoc(s0, steps[..7], steps[7]);
    assert steps == steps[..7] + [steps[7]];
    OverlapSecond(s5, limit);
    assert steps[..3] == [Acquire(0, 1), Pass(wait), Claim(1)];
    forall i | 0 <= i < |steps| && steps[i].Call?
      ensures
        var s := Run(s0, steps[..i]);
        In(s, steps[i].token, Claimed) ==> s.now <= s.holders[steps[i].token].acquired + delay && steps[i].timeout <= limit
    {
      assert i == 3 || i == 7;
    }
  }

  /** At that instant a second run gets the lease, claims and calls. */
  lemma OverlapSecond(s: State, limit: real)
    requires MIN_TIMEOUT <= limit <= MAX_TIMEOUT && s.now == LEASE && s.store == map[0 := Lease(1, LEASE)]
    requires s.holders.Keys == {1} && s.holders[1].stage == Calling && s.holders[1].member == 0
    ensures
      var claimed := Next(Next(s, Acquire(0, 2)), Claim(2));
      && 2 in claimed.holders && claimed.holders[2].acquired == claimed.now
      && !CallsApart(Next(claimed, Call(2, limit)))
  {
    var claimed := Next(Next(s, Acquire(0, 2)), Claim(2));
    var r := Next(claimed, Call(2, limit));
    assert In(r, 1, Calling) && In(r, 2, Calling);
  }

  /** The first call of that run, and the instant its lease expires. */
  lemma OverlapFirst(wait: real, limit: real)
    requires 0.0 <= wait <= LEASE && MIN_TIMEOUT <= limit <= MAX_TIMEOUT && wait + limit >= LEASE
    ensures
      var first := Holder(0, 0.0, Calling, Some(wait), wait, limit);
      && Run(Initial(0.0), [Acquire(0, 1), Pass(wait), Claim(1)]) ==
         State(map[0 := Lease(1, LEASE)], map[1 := first.(stage := Claimed, called := 0.0, timeout := 0.0)], wait)
      && Run(Initial(0.0), [Acquire(0, 1), Pass(wait), Claim(1), Call(1, limit), Pass(LEASE - wait)]) ==
         State(map[0 := Lease(1, LEASE)], map[1 := first], LEASE)
  {
    var s0 := Initial(0.0);
    var a, p, c, k, q := Acquire(0, 1), Pass(wait), Claim(1), Call(1, limit), Pass(LEASE - wait);
    var store: Store := map[0 := Lease(1, LEASE)];
    var h := Holder(0, 0.0, Waiting, None, 0.0, 0.0);
    RunSnoc(s0, [], a);
    assert [] + [a] == [a];
    assert Run(s0, [a]) == State(store, map[1 := h], 0.0);
    RunSnoc(s0, [a], p);
    assert [a] + [p] == [a, p];
    assert Run(s0, [a, p]) == State(store, map[1 := h], wait);
    RunSnoc(s0, [a, p], c);
    assert [a, p] + [c] == [a, p, c];
    var claimed := State(store, map[1 := h.(stage := Claimed, started := Some(wait))], wait);
    assert Run(s0, [a, p, c]) == claimed;
    OverlapCall(claimed, wait, limit);
    RunSnoc(s0, [a, p, c], k);
    RunSnoc(s0, [a, p, c, k], q);
    assert [a, p, c] + [k] == [a, p, c, k] && [a, p, c, k] + [q] == [a, p, c, k, q];
  }

  lemma OverlapCall(s: State, wait: real, limit: real)
    requires s == State(map[0 := Lease(1, LEASE)], map[1 := Holder(0, 0.0, Claimed, Some(wait), 0.0, 0.0)], wait)
    requires 0.0 <= wait <= LEASE && MIN_TIMEOUT <= limit <= MAX_TIMEOUT && wait + limit >= LEASE
    ensures Next(Next(s, Call(1, limit)), Pass(LEASE - wait)) ==
            State(s.store, map[1 := Holder(0, 0.0, Calling, Some(wait), wait, limit)], LEASE)
  {
  }

  /** The exact margin: calls that start at most `delay` after the lease and last at most
      `limit` never overlap, in any run, if and only if the two fit strictly in the lease. */
  lemma CallsApartExact(delay: real, limit: real)
    requires delay >= 0.0 && MIN_TIMEOUT <= limit <= MAX_TIMEOUT
    ensures (forall now: real, steps: seq<Step> {:trigger Prompt(now, steps, delay, limit)} ::
               Prompt(now, steps, delay, limit) ==> CallsApart(Run(Initial(now), steps)))
            <==> delay + limit < LEASE
  {
    if delay + limit < LEASE {
      forall now: real, steps: seq<Step> | Prompt(now, steps, delay, limit)
        ensures CallsApart(Run(Initial(now), steps))
      {
        InvAlways(now, steps);
        PromptCovers(now, steps, delay, limit);
        CoveredApart(Run(Initial(now), steps), delay, limit);
      }
    } else {
      var steps := OverlapRun(delay, limit);
    }
  }

  /** With the configured windows: under sixty seconds from lease to call is enough. */
  lemma UnderAMinuteApart(now: real, steps: seq<Step>, delay: real)
    requires 0.0 <= delay < 60.0 && Prompt(now, steps, delay, MAX_TIMEOUT)
    ensures CallsApart(Run(Initial(now), steps))
  {
    CallsApartExact(delay, MAX_TIMEOUT);
  }

  // ---------------------------------------------------------------- stale recovery

  /** The condition of `recover_stale_operations` on the claim of run `t`. */
  predicate ClaimStale(s: State, t: Id) {
    t in s.holders && s.holders[t].started.Some? && s.holders[t].started.value < s.now - STALE
  }

  /** Whenever recovery fires, the lease of that claim expired over a minute ago: it blocks
      nobody. And unless the call itself started more than two minutes after the claim, the
      call is over too. */
  lemma StaleMeansExpired(now: real, steps: seq<Step>, t: Id)
    requires ClaimStale(Run(Initial(now), steps), t)
    ensures
      var s := Run(Initial(now), steps);
      var h := s.holders[t];
      && Expiry(h) + 60.0 < s.now
      && !(Held(s.store, h.member, s.now) && s.store[h.member].token == t)
      && (h.stage == Calling ==> h.called > h.started.value + 120.0)
  {
    var s := Run(Initial(now), steps);
    InvAlways(now, steps);
    assert HolderOk(s, t);
    var m := s.holders[t].member;
    if m in s.store { assert LeaseOk(s, m); }
  }
}
