/**
 * The idempotency guard around a handler: for one key, any number of requests
 * look up a stored response, reserve the key, look again, run, store and
 * release, interleaved call by call.
 */
module Idempotency {
  import opened Wrappers

  // What the handler answered to a request, kept with the body it answered.
  datatype Response = Response(runner: nat, body: nat)

  // How a request was answered: by its own handler run, with a stored response, or not, for a
  // stored response of another body.
  datatype Answer = Own | Stored(response: Response) | Conflict(response: Response)

  // ran: how its handler run ended, if it had one.
  datatype Request = Request(body: nat, at: Place, answer: Option<Answer>, ran: Option<bool>)

  // Where a request stands between two of its calls.
  datatype Place =
    | Arrived | Checked | Reserved | Running | Succeeded | Releasing
    | Replayed | Mismatched | Refused | Finished

  /**
   * The cache entries of one key. The token of a reservation is the request that
   * took it. expired and forgotten record that a reservation or a stored response
   * ran out; runs and stores count handler runs started and responses stored.
   */
  datatype State = State(
    stored: Option<Response>,
    pending: Option<nat>,
    requests: map<nat, Request>,
    expired: bool,
    forgotten: bool,
    runs: nat,
    stores: nat)

  datatype Action =
    | Arrive(id: nat, body: nat)
    | Step(id: nat, success: bool)
    | PendingExpires
    | StoredExpires

  predicate Enabled(s: State, a: Action) {
    match a
    case Arrive(id, _) => id !in s.requests
    case Step(id, _) => id in s.requests
    case PendingExpires => true
    case StoredExpires => true
  }

  function Moved(s: State, id: nat, at: Place): State
    requires id in s.requests
  {
    s.(requests := s.requests[id := s.requests[id].(at := at)])
  }

  // A stored response is replayed to the body it belongs to and refused to another.
  function Replay(s: State, id: nat): State
    requires id in s.requests && s.stored.Some?
  {
    var r := s.requests[id];
    if s.stored.value.body == r.body then
      s.(requests := s.requests[id := r.(at := Replayed, answer := Some(Stored(s.stored.value)))])
    else
      s.(requests := s.requests[id := r.(at := Mismatched, answer := Some(Conflict(s.stored.value)))])
  }

  // Having reserved, a request that finds a response answers with it and gives its reservation back.
  function ReplayReserved(s: State, id: nat): State
    requires id in s.requests && s.stored.Some?
  {
    Moved(Replay(s, id), id, Releasing)
  }

  function Ran(s: State, id: nat, success: bool): State
    requires id in s.requests
  {
    var r := s.requests[id].(at := if success then Succeeded else Releasing, ran := Some(success));
    s.(requests := s.requests[id := r])
  }

  // A success is stored for the body it answers.
  function Store(s: State, id: nat): State
    requires id in s.requests
  {
    var r := s.requests[id];
    s.(requests := s.requests[id := r.(at := Releasing, answer := Some(Own))],
       stored := Some(Response(id, r.body)), stores := s.stores + 1)
  }

  function Stepped(s: State, id: nat, success: bool): State
    requires id in s.requests
  {
    match s.requests[id].at
    case Arrived => if s.stored.Some? then Replay(s, id) else Moved(s, id, Checked)
    case Checked => if s.pending.Some? then Moved(s, id, Refused) else Moved(s, id, Reserved).(pending := Some(id))
    case Reserved => if s.stored.Some? then ReplayReserved(s, id) else Moved(s, id, Running).(runs := s.runs + 1)
    case Running => Ran(s, id, success)
    case Succeeded => Store(s, id)
    case Releasing => Moved(s, id, Finished).(pending := if s.pending == Some(id) then None else s.pending)
    case _ => s
  }

  function Do(s: State, a: Action): State
    requires Enabled(s, a)
  {
    match a
    case Arrive(id, body) => s.(requests := s.requests[id := Request(body, Arrived, None, None)])
    case Step(id, success) => Stepped(s, id, success)
    case PendingExpires => if s.pending.Some? then s.(pending := None, expired := true) else s
    case StoredExpires => if s.stored.Some? then s.(stored := None, forgotten := true) else s
  }

  const START := State(None, None, map[], false, false, 0, 0)

  ghost predicate Runs(s: State, actions: seq<Action>, s': State)
    decreases |actions|
  {
    if actions == [] then s' == s
    else Enabled(s, actions[0]) && Runs(Do(s, actions[0]), actions[1..], s')
  }

  // Between taking the reservation and giving it back.
  predicate Holds(r: Request) {
    r.at == Reserved || r.at == Running || r.at == Succeeded || r.at == Releasing
  }

  // The handler has been entered and its response is not stored yet.
  predicate InHandler(r: Request) {
    r.at == Running || r.at == Succeeded
  }

  // A reservation always belongs to a request that will give it back.
  ghost predicate Owned(s: State) {
    s.pending.Some? ==> s.pending.value in s.requests && Holds(s.requests[s.pending.value])
  }

  // While no reservation ran out, whoever is past it holds it.
  ghost predicate Exclusive(s: State) {
    !s.expired ==> forall id :: id in s.requests && Holds(s.requests[id]) ==> s.pending == Some(id)
  }

  // While nothing ran out, a stored response is the only one and no handler is at work beside it.
  ghost predicate Single(s: State) {
    !s.expired && !s.forgotten ==>
      && s.stores <= 1 && (s.stored.Some? <==> s.stores == 1)
      && (s.stored.Some? ==> forall id :: id in s.requests ==> !InHandler(s.requests[id]))
  }

  ghost predicate Guarded(s: State) {
    Owned(s) && Exclusive(s) && Single(s)
  }

  lemma StepOwned(s: State, id: nat, success: bool)
    requires Owned(s) && id in s.requests
    ensures Owned(Stepped(s, id, success))
  {
  }

  lemma StepExclusive(s: State, id: nat, success: bool)
    requires Owned(s) && Exclusive(s) && id in s.requests
    ensures Exclusive(Stepped(s, id, success))
  {
    var s' := Stepped(s, id, success);
    if !s'.expired {
      forall k | k in s'.requests && Holds(s'.requests[k])
        ensures s'.pending == Some(k)
      {
        if k != id {
          assert Holds(s.requests[k]);
        }
      }
    }
  }

  lemma StepSingle(s: State, id: nat, success: bool)
    requires Exclusive(s) && Single(s) && id in s.requests
    ensures Single(Stepped(s, id, success))
  {
    var s' := Stepped(s, id, success);
    if !s'.expired && !s'.forgotten && s'.stored.Some? {
      forall k | k in s'.requests
        ensures !InHandler(s'.requests[k])
      {
        if k != id && s.requests[id].at == Succeeded {
          assert Holds(s.requests[id]);
          assert !Holds(s.requests[k]);
        }
      }
    }
  }

  lemma DoGuarded(s: State, a: Action)
    requires Guarded(s) && Enabled(s, a)
    ensures Guarded(Do(s, a))
  {
    if a.Step? {
      hide Owned, Exclusive, Single, Stepped;
      StepOwned(s, a.id, a.success);
      StepExclusive(s, a.id, a.success);
      StepSingle(s, a.id, a.success);
    }
  }

  lemma {:induction false} RunsGuarded(s: State, actions: seq<Action>, s': State)
    requires Guarded(s) && Runs(s, actions, s')
    ensures Guarded(s')
    decreases |actions|
  {
    hide Guarded;
    if actions != [] {
      DoGuarded(s, actions[0]);
      RunsGuarded(Do(s, actions[0]), actions[1..], s');
    }
  }

  /** Handler runs never overlap while no reservation expires. */
  lemma NoOverlap(actions: seq<Action>, s: State, a: nat, b: nat)
    requires Runs(START, actions, s) && !s.expired
    requires a in s.requests && b in s.requests && InHandler(s.requests[a]) && InHandler(s.requests[b])
    ensures a == b
  {
    RunsGuarded(START, actions, s);
  }

  lemma {:induction false} RunsForward(s: State, actions: seq<Action>, s': State)
    requires Runs(s, actions, s')
    ensures (s.expired ==> s'.expired) && (s.forgotten ==> s'.forgotten) && s.runs <= s'.runs && s.stores <= s'.stores
    decreases |actions|
  {
    if actions != [] {
      RunsForward(Do(s, actions[0]), actions[1..], s');
    }
  }

  /** Once a success is stored, and while nothing expires, no handler run starts and no other response is stored. */
  lemma {:induction false} NoRunAfterSuccess(s: State, actions: seq<Action>, s': State)
    requires Guarded(s) && s.stored.Some? && Runs(s, actions, s') && !s'.expired && !s'.forgotten
    ensures s'.runs == s.runs && s'.stores == s.stores && s'.stored == s.stored
    decreases |actions|
  {
    if actions != [] {
      var next := Do(s, actions[0]);
      DoGuarded(s, actions[0]);
      RunsForward(next, actions[1..], s');
      NoRunAfterSuccess(next, actions[1..], s');
    }
  }

  /**
   * Why the premise: a reservation that expires during a run lets a second run
   * start beside it. Overlaps happen exactly with expiry: never without it, and
   * here with it.
   */
  lemma OverlapAfterExpiry() returns (actions: seq<Action>, s: State)
    ensures Runs(START, actions, s) && s.expired
    ensures s.requests.Keys == {0, 1} && InHandler(s.requests[0]) && InHandler(s.requests[1])
  {
    var s0 := START;
    var s1 := Do(s0, Arrive(0, 7));
    var s2 := Do(s1, Step(0, true));
    var s3 := Do(s2, Step(0, true));
    var s4 := Do(s3, Step(0, true));
    var s5 := Do(s4, PendingExpires);
    var s6 := Do(s5, Arrive(1, 7));
    var s7 := Do(s6, Step(1, true));
    var s8 := Do(s7, Step(1, true));
    s := Do(s8, Step(1, true));
    assert s.requests.Keys == {0, 1};
    hide Runs, Do;
    NoActions(s);
    RunsStep(s8, Step(1, true), [], s);
    RunsStep(s7, Step(1, true), [Step(1, true)] + [], s);
    var tail := [Step(1, true)] + ([Step(1, true)] + []);
    RunsStep(s6, Step(1, true), tail, s);
    RunsStep(s5, Arrive(1, 7), [Step(1, true)] + tail, s);
    var half := [Arrive(1, 7)] + ([Step(1, true)] + tail);
    RunsStep(s4, PendingExpires, half, s);
    RunsStep(s3, Step(0, true), [PendingExpires] + half, s);
    RunsStep(s2, Step(0, true), [Step(0, true)] + ([PendingExpires] + half), s);
    RunsStep(s1, Step(0, true), [Step(0, true)] + ([Step(0, true)] + ([PendingExpires] + half)), s);
    actions := [Arrive(0, 7)] + ([Step(0, true)] + ([Step(0, true)] + ([Step(0, true)] + ([PendingExpires] + half))));
    RunsStep(s0, Arrive(0, 7), [Step(0, true)] + ([Step(0, true)] + ([Step(0, true)] + ([PendingExpires] + half))), s);
  }

  lemma NoActions(s: State)
    ensures Runs(s, [], s)
  {
  }

  lemma RunsStep(s: State, a: Action, rest: seq<Action>, s': State)
    requires Enabled(s, a) && Runs(Do(s, a), rest, s')
    ensures Runs(s, [a] + rest, s')
  {
    assert ([a] + rest)[1..] == rest;
  }

  // ----- who is answered with what -----

  // A response is that of a request with the same body whose handler ran to success.
  ghost predicate Earned(s: State, r: Response) {
    && r.runner in s.requests && s.requests[r.runner].body == r.body
    && s.requests[r.runner].answer == Some(Own) && s.requests[r.runner].ran == Some(true)
  }

  ghost predicate AnsweredRight(s: State, r: Request) {
    && (r.answer.Some? && r.answer.value.Stored? ==>
          r.answer.value.response.body == r.body && Earned(s, r.answer.value.response))
    && (r.answer.Some? && r.answer.value.Conflict? ==>
          r.answer.value.response.body != r.body && Earned(s, r.answer.value.response))
    && (r.at == Replayed ==> r.answer.Some? && r.answer.value.Stored?)
    && (r.at == Mismatched ==> r.answer.Some? && r.answer.value.Conflict?)
    && (r.at in {Arrived, Checked, Reserved, Running, Refused, Replayed, Mismatched} ==> r.ran.None?)
    && (r.at == Succeeded ==> r.ran == Some(true))
    && (r.at in {Arrived, Checked, Reserved, Running, Succeeded, Refused} ==> r.answer.None?)
  }

  /**
   * Every response stored or replayed is earned, and each request that met one got
   * it if and only if the bodies agree.
   */
  ghost predicate Answered(s: State) {
    && (s.stored.Some? ==> Earned(s, s.stored.value))
    && forall id :: id in s.requests ==> AnsweredRight(s, s.requests[id])
  }

  // Nobody but id changes, and id keeps its body and an answer it has.
  ghost predicate Touches(s: State, s': State, id: nat) {
    && id in s.requests && s'.requests.Keys == s.requests.Keys && s'.requests[id].body == s.requests[id].body
    && (s.requests[id].answer.Some? ==> s'.requests[id].answer == s.requests[id].answer)
    && (s.requests[id].ran.Some? ==> s'.requests[id].ran == s.requests[id].ran)
    && forall k :: k in s.requests && k != id ==> s'.requests[k] == s.requests[k]
  }

  lemma StepTouches(s: State, id: nat, success: bool)
    requires Answered(s) && id in s.requests
    ensures Touches(s, Stepped(s, id, success), id)
  {
    hide Earned;
    assert AnsweredRight(s, s.requests[id]);
  }

  // What one request's own step leaves right.
  ghost predicate LeavesRight(s: State, id: nat) {
    id in s.requests && AnsweredRight(s, s.requests[id]) && (s.stored.Some? ==> Earned(s, s.stored.value))
  }

  lemma ReplayRight(s: State, id: nat)
    requires Answered(s) && id in s.requests && s.stored.Some? && s.requests[id].at in {Arrived, Reserved}
    ensures LeavesRight(Replay(s, id), id)
    ensures s.requests[id].at == Reserved ==> LeavesRight(ReplayReserved(s, id), id)
  {
    assert AnsweredRight(s, s.requests[id]);
  }

  lemma StoreRight(s: State, id: nat)
    requires Answered(s) && id in s.requests && s.requests[id].at == Succeeded
    ensures LeavesRight(Store(s, id), id)
  {
    assert AnsweredRight(s, s.requests[id]);
  }

  lemma MovedRight(s: State, id: nat, at: Place, success: bool)
    requires Answered(s) && id in s.requests && at !in {Replayed, Mismatched, Succeeded}
    requires at in {Checked, Reserved, Running, Refused} ==> s.requests[id].answer.None? && s.requests[id].ran.None?
    requires at != Arrived
    ensures LeavesRight(Moved(s, id, at), id)
    ensures s.requests[id].at == Running ==> LeavesRight(Ran(s, id, success), id)
  {
    assert AnsweredRight(s, s.requests[id]);
  }

  lemma StepAnswersOwn(s: State, id: nat, success: bool)
    requires Answered(s) && id in s.requests
    ensures LeavesRight(Stepped(s, id, success), id)
  {
    hide LeavesRight, Replay, ReplayReserved, Store, Ran, Earned;
    var r := s.requests[id];
    assert AnsweredRight(s, r);
    match r.at
    case Arrived =>
      if s.stored.Some? {
        ReplayRight(s, id);
      } else {
        MovedRight(s, id, Checked, success);
      }
    case Checked =>
      MovedRight(s, id, if s.pending.Some? then Refused else Reserved, success);
      SameAnswers(Moved(s, id, Reserved), Moved(s, id, Reserved).(pending := Some(id)), id);
    case Reserved =>
      if s.stored.Some? {
        ReplayRight(s, id);
      } else {
        MovedRight(s, id, Running, success);
        SameAnswers(Moved(s, id, Running), Stepped(s, id, success), id);
      }
    case Running => MovedRight(s, id, Releasing, success);
    case Succeeded => StoreRight(s, id);
    case Releasing =>
      MovedRight(s, id, Finished, success);
      SameAnswers(Moved(s, id, Finished), Stepped(s, id, success), id);
    case _ => KeptRight(s, id);
  }

  lemma SameAnswers(s: State, s': State, id: nat)
    requires s'.requests == s.requests && s'.stored == s.stored
    ensures LeavesRight(s, id) ==> LeavesRight(s', id)
  {
  }

  lemma KeptRight(s: State, id: nat)
    requires Answered(s) && id in s.requests
    ensures LeavesRight(s, id)
  {
  }

  lemma StepAnswers(s: State, id: nat, success: bool)
    requires Answered(s) && id in s.requests
    ensures Answered(Stepped(s, id, success))
  {
    hide Stepped, Earned;
    var s' := Stepped(s, id, success);
    StepTouches(s, id, success);
    StepAnswersOwn(s, id, success);
    assert AnsweredRight(s', s'.requests[id]) && (s'.stored.Some? ==> Earned(s', s'.stored.value));
    forall k | k in s'.requests && k != id
      ensures AnsweredRight(s', s'.requests[k])
    {
      assert AnsweredRight(s, s.requests[k]);
      OtherStays(s, s', id, s.requests[k]);
    }
  }

  lemma OtherStays(s: State, s': State, id: nat, r: Request)
    requires AnsweredRight(s, r) && Touches(s, s', id)
    ensures AnsweredRight(s', r)
  {
  }

  lemma DoAnswers(s: State, a: Action)
    requires Answered(s) && Enabled(s, a)
    ensures Answered(Do(s, a))
  {
    if a.Step? {
      StepAnswers(s, a.id, a.success);
    } else {
      var s' := Do(s, a);
      forall k | k in s'.requests
        ensures AnsweredRight(s', s'.requests[k])
      {
        if k in s.requests {
          assert AnsweredRight(s, s.requests[k]);
        }
      }
    }
  }

  /**
   * Over every run a stored response carries the body of a request whose handler
   * ran to success, whoever is answered with it has that body, and whoever is
   * refused for it has another.
   */
  lemma {:induction false} RunsAnswer(s: State, actions: seq<Action>, s': State)
    requires Answered(s) && Runs(s, actions, s')
    ensures Answered(s')
    decreases |actions|
  {
    hide Answered, Do, Enabled;
    if actions != [] {
      DoAnswers(s, actions[0]);
      RunsAnswer(Do(s, actions[0]), actions[1..], s');
    }
  }

  // A request with the body ran its handler to success.
  ghost predicate Succeeds(s: State, runner: nat, body: nat) {
    runner in s.requests && s.requests[runner].body == body && s.requests[runner].ran == Some(true)
  }

  /**
   * So in every run: what is stored, or was when it answered a request, is the
   * response to a request with its body that ran to success; a request replayed
   * has that body, and one refused for it another; neither ran itself.
   */
  lemma AnswersAreEarned(actions: seq<Action>, s: State)
    requires Runs(START, actions, s)
    ensures s.stored.Some? ==> Succeeds(s, s.stored.value.runner, s.stored.value.body)
    ensures forall id :: id in s.requests && s.requests[id].at == Replayed ==>
              exists runner :: s.requests[id].answer == Some(Stored(Response(runner, s.requests[id].body)))
                               && s.requests[id].ran == None && Succeeds(s, runner, s.requests[id].body)
    ensures forall id :: id in s.requests && s.requests[id].at == Mismatched ==>
              exists runner, body :: s.requests[id].answer == Some(Conflict(Response(runner, body)))
                               && body != s.requests[id].body && s.requests[id].ran == None
                               && Succeeds(s, runner, body)
  {
    RunsAnswer(START, actions, s);
    hide Runs;
    forall id | id in s.requests
      ensures AnsweredRight(s, s.requests[id])
    {
    }
  }

  // What a request that came after r was stored can have come to.
  ghost predicate MetStored(q: Request, r: Response) {
    || (q.at == Arrived && q.answer == None)
    || (q.at == Replayed && q.body == r.body && q.answer == Some(Stored(r)))
    || (q.at == Mismatched && q.body != r.body && q.answer == Some(Conflict(r)))
  }

  /**
   * Once a success is stored, and while nothing expires, a later request with the
   * stored body can only be answered with that response, and one with another
   * body can only be refused.
   */
  lemma {:induction false} LaterAreReplayed(s: State, actions: seq<Action>, s': State, r: Response, early: set<nat>)
    requires Guarded(s) && s.stored == Some(r) && Runs(s, actions, s') && !s'.expired && !s'.forgotten
    requires forall id :: id in s.requests && id !in early ==> MetStored(s.requests[id], r)
    ensures forall id :: id in s'.requests && id !in early ==> MetStored(s'.requests[id], r)
    decreases |actions|
  {
    if actions != [] {
      var next := Do(s, actions[0]);
      DoGuarded(s, actions[0]);
      RunsForward(next, actions[1..], s');
      NextMeetsStored(s, actions[0], r, early);
      LaterAreReplayed(next, actions[1..], s', r, early);
    }
  }

  lemma NextMeetsStored(s: State, a: Action, r: Response, early: set<nat>)
    requires Guarded(s) && s.stored == Some(r) && Enabled(s, a) && !Do(s, a).expired && !Do(s, a).forgotten
    requires forall id :: id in s.requests && id !in early ==> MetStored(s.requests[id], r)
    ensures Do(s, a).stored == Some(r)
    ensures forall id :: id in Do(s, a).requests && id !in early ==> MetStored(Do(s, a).requests[id], r)
  {
  }

  /** Nobody takes a reservation another request holds. */
  lemma ReservationKept(s: State, id: nat, success: bool, k: nat)
    requires id in s.requests && s.pending == Some(k) && k != id
    ensures Stepped(s, id, success).pending == Some(k)
  {
    hide Replay, Ran;
    assert s.stored.Some? ==> Replay(s, id).pending == s.pending by { ReplayLeaves(s, id); }
    assert Ran(s, id, success).pending == s.pending by { RanLeaves(s, id, success); }
  }

  lemma ReplayLeaves(s: State, id: nat)
    requires id in s.requests
    ensures s.stored.Some? ==> Replay(s, id).pending == s.pending
  {
  }

  lemma RanLeaves(s: State, id: nat, success: bool)
    requires id in s.requests
    ensures Ran(s, id, success).pending == s.pending
  {
  }

  // id makes its next n calls, and a handler run of its own ends as success says.
  function Alone(s: State, id: nat, success: bool, n: nat): (s': State)
    requires id in s.requests
    ensures id in s'.requests
    decreases n
  {
    if n == 0 then s else Alone(Advanced(s, id, success), id, success, n - 1)
  }

  function Advanced(s: State, id: nat, success: bool): (s': State)
    requires id in s.requests
    ensures id in s'.requests
  {
    Stepped(s, id, success)
  }

  lemma {:induction false} AloneOnward(s: State, id: nat, success: bool, m: nat, n: nat)
    requires id in s.requests
    ensures Alone(s, id, success, m + n) == Alone(Alone(s, id, success, m), id, success, n)
    decreases m
  {
    hide Advanced;
    if m > 0 {
      AloneOnward(Advanced(s, id, success), id, success, m - 1, n);
    }
  }

  /**
   * A request that meets neither a response nor a reservation runs its handler,
   * once, and leaves the key free; its response is stored if and only if the run
   * was a success.
   */
  lemma AloneRuns(s: State, id: nat, success: bool)
    requires id in s.requests && s.requests[id].at == Arrived && s.stored.None? && s.pending.None?
    ensures var s' := Alone(s, id, success, if success then 6 else 5);
            && s'.requests[id].at == Finished && s'.pending == None && s'.runs == s.runs + 1
            && s'.stored == (if success then Some(Response(id, s.requests[id].body)) else None)
            && s'.stores == s.stores + if success then 1 else 0
  {
    hide Alone;
    RunStarts(s, id, success);
    AloneOnward(s, id, success, 3, if success then 3 else 2);
    RunEnds(Alone(s, id, success, 3), id, success);
  }

  lemma RunStarts(s: State, id: nat, success: bool)
    requires id in s.requests && s.requests[id].at == Arrived && s.stored.None? && s.pending.None?
    ensures var s' := Alone(s, id, success, 3);
            && s'.requests[id] == s.requests[id].(at := Running) && s'.pending == Some(id) && s'.stored == None
            && s'.runs == s.runs + 1 && s'.stores == s.stores
  {
    var s1 := Advanced(s, id, success);
    var s2 := Advanced(s1, id, success);
    assert Alone(s1, id, success, 2) == Alone(s2, id, success, 1) == Advanced(s2, id, success);
  }

  lemma RunEnds(s: State, id: nat, success: bool)
    requires id in s.requests && s.requests[id].at == Running && s.stored.None? && s.pending == Some(id)
    ensures var s' := Alone(s, id, success, if success then 3 else 2);
            && s'.requests[id].at == Finished && s'.pending == None && s'.runs == s.runs
            && s'.stored == (if success then Some(Response(id, s.requests[id].body)) else None)
            && s'.stores == s.stores + if success then 1 else 0
  {
    var s1 := Advanced(s, id, success);
    var s2 := Advanced(s1, id, success);
    assert Alone(s1, id, success, 1) == s2;
    if success {
      assert Alone(s1, id, true, 2) == Alone(s2, id, true, 1) == Advanced(s2, id, true);
    }
  }
}
