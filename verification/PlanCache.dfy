/**
 * The compiled-plan cache against revocation: any number of readers (read, set,
 * re-read, delete) and of writers that revoke a version (update its row, delete
 * its key), interleaved step by step.
 */
module PlanCache {
  datatype Status = Draft | Published | Archived

  datatype Row = Row(status: Status, valid: bool)

  predicate Usable(r: Row) {
    r.status == Published && r.valid
  }

  // Where a request stands between two of its calls to the store or the cache.
  datatype Actor =
    // CompiledPlanService.Get: a cache lookup, the row, the write, the second look at the row, the eviction.
    | Looking | Missed | Storing | Stored | Evicting
    // invalidateVersion: the row is read, marked invalid, and the key deleted.
    | Invalidating | Marking | Marked
    // Archive: the row is archived and the key deleted.
    | Archiving | ArchivedRow
    | Done

  // One version and the cache entry under its key. lost: some delete of the key failed.
  datatype State = State(row: Row, cached: bool, actors: map<nat, Actor>, lost: bool)

  datatype Action =
    | Begin(id: nat, role: Actor)
    | Step(id: nat)
    | StepFails(id: nat)
    | Publish
    | Expire

  predicate IsRole(a: Actor) {
    a == Looking || a == Invalidating || a == Archiving
  }

  predicate Enabled(s: State, a: Action) {
    match a
    case Begin(id, role) => id !in s.actors && IsRole(role)
    case Step(id) => id in s.actors && s.actors[id] != Done
    case StepFails(id) => id in s.actors && s.actors[id] != Done
    case Publish => s.row.status == Draft
    case Expire => true
  }

  // The next call of a request succeeds.
  function Stepped(s: State, id: nat): State
    requires id in s.actors
  {
    match s.actors[id]
    case Looking => s.(actors := s.actors[id := if s.cached then Done else Missed])
    case Missed => s.(actors := s.actors[id := if Usable(s.row) then Storing else Done])
    case Storing => s.(cached := true, actors := s.actors[id := Stored])
    case Stored => s.(actors := s.actors[id := if Usable(s.row) then Done else Evicting])
    case Evicting => s.(cached := false, actors := s.actors[id := Done])
    case Invalidating => s.(actors := s.actors[id := if s.row.status == Archived then Done else Marking])
    case Marking => s.(row := s.row.(valid := false), actors := s.actors[id := Marked])
    case Marked => s.(cached := false, actors := s.actors[id := Done])
    case Archiving => s.(row := s.row.(status := Archived), actors := s.actors[id := ArchivedRow])
    case ArchivedRow => s.(cached := false, actors := s.actors[id := Done])
    case Done => s
  }

  // The next call of a request fails: a second look that fails evicts all the same.
  function Missteps(s: State, id: nat): State
    requires id in s.actors
  {
    match s.actors[id]
    case Looking => s.(actors := s.actors[id := Missed])
    case Stored => s.(actors := s.actors[id := Evicting])
    case Evicting => s.(lost := true, actors := s.actors[id := Done])
    case Marked => s.(lost := true, actors := s.actors[id := Done])
    case ArchivedRow => s.(lost := true, actors := s.actors[id := Done])
    case _ => s.(actors := s.actors[id := Done])
  }

  function Do(s: State, a: Action): State
    requires Enabled(s, a)
  {
    match a
    case Begin(id, role) => s.(actors := s.actors[id := role])
    case Step(id) => Stepped(s, id)
    case StepFails(id) => Missteps(s, id)
    case Publish => s.(row := Row(Published, true))
    case Expire => s.(cached := false)
  }

  // The request will still delete the key before it is done.
  predicate WillDelete(a: Actor) {
    a == Evicting || a == Marked || a == ArchivedRow
  }

  // It will look at the row once more and delete the key if the version is revoked.
  predicate WillCheck(a: Actor) {
    WillDelete(a) || a == Stored
  }

  ghost predicate InFlight(s: State) {
    exists id :: id in s.actors && WillCheck(s.actors[id])
  }

  /** A cached entry for a revoked version means a request in flight will delete it, unless some delete failed. */
  ghost predicate NoStaleAtRest(s: State) {
    s.cached && !Usable(s.row) ==> InFlight(s) || s.lost
  }

  const START := State(Row(Draft, true), false, map[], false)

  // The states a sequence of actions leads through.
  ghost predicate Runs(s: State, actions: seq<Action>, s': State)
    decreases |actions|
  {
    if actions == [] then s' == s
    else Enabled(s, actions[0]) && Runs(Do(s, actions[0]), actions[1..], s')
  }

  lemma StillInFlight(s: State, s': State, id: nat)
    requires InFlight(s) && s'.actors.Keys >= s.actors.Keys
    requires forall k :: k in s.actors && k != id ==> s'.actors[k] == s.actors[k]
    requires id in s.actors && WillCheck(s.actors[id]) ==> id in s'.actors && WillCheck(s'.actors[id])
    ensures InFlight(s')
  {
    var k :| k in s.actors && WillCheck(s.actors[k]);
    assert k in s'.actors && WillCheck(s'.actors[k]);
  }

  lemma StepKeeps(s: State, id: nat)
    requires NoStaleAtRest(s) && id in s.actors
    ensures NoStaleAtRest(Stepped(s, id))
  {
    hide InFlight;
    var s' := Stepped(s, id);
    if s'.cached && !Usable(s'.row) {
      match s.actors[id]
      case Storing => ShowInFlight(s', id);
      case Stored => ShowInFlight(s', id);
      case Marking => ShowInFlight(s', id);
      case Archiving => ShowInFlight(s', id);
      case _ =>
        if InFlight(s) {
          StillInFlight(s, s', id);
        }
    }
  }

  lemma ShowInFlight(s: State, id: nat)
    requires id in s.actors && WillCheck(s.actors[id])
    ensures InFlight(s)
  {
  }

  lemma FailKeeps(s: State, id: nat)
    requires NoStaleAtRest(s) && id in s.actors
    ensures NoStaleAtRest(Missteps(s, id))
  {
    hide InFlight;
    var s' := Missteps(s, id);
    if InFlight(s) && !s'.lost {
      StillInFlight(s, s', id);
    }
  }

  lemma DoKeeps(s: State, a: Action)
    requires NoStaleAtRest(s) && Enabled(s, a)
    ensures NoStaleAtRest(Do(s, a))
  {
    hide InFlight;
    match a
    case Begin(id, role) =>
      if InFlight(s) {
        StillInFlight(s, Do(s, a), id);
      }
    case Step(id) => StepKeeps(s, id);
    case StepFails(id) => FailKeeps(s, id);
    case Publish =>
    case Expire =>
  }

  /** Over every run of any number of readers and writers the invariant holds at every moment. */
  lemma {:induction false} RunsKeep(s: State, actions: seq<Action>, s': State)
    requires NoStaleAtRest(s) && Runs(s, actions, s')
    ensures NoStaleAtRest(s')
    decreases |actions|
  {
    hide NoStaleAtRest;
    if actions != [] {
      DoKeeps(s, actions[0]);
      RunsKeep(Do(s, actions[0]), actions[1..], s');
    }
  }

  /**
   * When every request is done and no delete failed, a plan is cached only of a
   * version that is published and has not been marked invalid.
   */
  lemma NothingStaleWhenDone(actions: seq<Action>, s: State)
    requires Runs(START, actions, s) && !s.lost
    requires forall id :: id in s.actors ==> s.actors[id] == Done
    ensures s.cached ==> s.row.status == Published && s.row.valid
  {
    RunsKeep(START, actions, s);
  }

  // ----- why the reader looks twice -----

  // As Do, but a reader that has stored the plan is done, without a second look.
  function DoOnce(s: State, a: Action): State
    requires Enabled(s, a)
  {
    if a.Step? && s.actors[a.id] == Stored then s.(actors := s.actors[a.id := Done]) else Do(s, a)
  }

  ghost predicate RunsOnce(s: State, actions: seq<Action>, s': State)
    decreases |actions|
  {
    if actions == [] then s' == s
    else Enabled(s, actions[0]) && RunsOnce(DoOnce(s, actions[0]), actions[1..], s')
  }

  lemma RunsOnceStep(s: State, first: seq<Action>, rest: seq<Action>, s': State)
    requires first != [] && Enabled(s, first[0]) && RunsOnce(DoOnce(s, first[0]), first[1..] + rest, s')
    ensures RunsOnce(s, first + rest, s')
  {
    assert (first + rest)[1..] == first[1..] + rest;
  }

  // A reader has read the row and is about to store the plan.
  const READ := State(Row(Published, true), false, map[0 := Storing], false)
  // Meanwhile a writer has archived the version and deleted the key.
  const REVOKED := State(Row(Archived, true), false, map[0 := Storing, 1 := Done], false)

  lemma ReaderReads(rest: seq<Action>, s: State)
    requires RunsOnce(READ, rest, s)
    ensures RunsOnce(START, [Publish, Begin(0, Looking), Step(0), Step(0)] + rest, s)
  {
    var s1 := DoOnce(START, Publish);
    var s2 := DoOnce(s1, Begin(0, Looking));
    var s3 := DoOnce(s2, Step(0));
    assert DoOnce(s3, Step(0)) == READ;
    hide RunsOnce, DoOnce;
    assert [Step(0)][1..] + rest == rest;
    RunsOnceStep(s3, [Step(0)], rest, s);
    RunsOnceStep(s2, [Step(0), Step(0)], rest, s);
    RunsOnceStep(s1, [Begin(0, Looking), Step(0), Step(0)], rest, s);
    RunsOnceStep(START, [Publish, Begin(0, Looking), Step(0), Step(0)], rest, s);
  }

  lemma WriterRevokes(rest: seq<Action>, s: State)
    requires RunsOnce(REVOKED, rest, s)
    ensures RunsOnce(READ, [Begin(1, Archiving), Step(1), Step(1)] + rest, s)
  {
    var s1 := DoOnce(READ, Begin(1, Archiving));
    var s2 := DoOnce(s1, Step(1));
    assert DoOnce(s2, Step(1)) == REVOKED;
    hide RunsOnce, DoOnce;
    assert [Step(1)][1..] + rest == rest;
    RunsOnceStep(s2, [Step(1)], rest, s);
    RunsOnceStep(s1, [Step(1), Step(1)], rest, s);
    RunsOnceStep(READ, [Begin(1, Archiving), Step(1), Step(1)], rest, s);
  }

  /**
   * Without the second look a reader can leave a revoked plan behind: it reads
   * the row, the writer revokes and deletes, it stores.
   */
  lemma SecondLookNeeded() returns (actions: seq<Action>, s: State)
    ensures RunsOnce(START, actions, s)
    ensures !s.lost && s.cached && !Usable(s.row) && forall id :: id in s.actors ==> s.actors[id] == Done
  {
    var s1 := DoOnce(REVOKED, Step(0));
    s := DoOnce(s1, Step(0));
    hide RunsOnce, DoOnce;
    assert RunsOnce(s, [], s) by { RunsOnceNothing(s); }
    RunsOnceStep(s1, [Step(0)], [], s);
    RunsOnceStep(REVOKED, [Step(0), Step(0)], [], s);
    WriterRevokes([Step(0), Step(0)], s);
    ReaderReads([Begin(1, Archiving), Step(1), Step(1)] + [Step(0), Step(0)], s);
    actions := [Publish, Begin(0, Looking), Step(0), Step(0)]
    + ([Begin(1, Archiving), Step(1), Step(1)] + [Step(0), Step(0)]);
  }

  lemma RunsOnceNothing(s: State)
    ensures RunsOnce(s, [], s)
  {
  }

  // ----- what a request undisturbed comes to -----

  // id makes its next n calls.
  function Alone(s: State, id: nat, n: nat): State
    requires id in s.actors
    decreases n
  {
    if n == 0 then s else Alone(Stepped(s, id), id, n - 1)
  }

  lemma AloneStep(s: State, id: nat, n: nat)
    requires id in s.actors && n > 0
    ensures Alone(s, id, n) == Alone(Stepped(s, id), id, n - 1)
  {
  }

  lemma AloneDone(s: State, id: nat)
    requires id in s.actors
    ensures Alone(s, id, 0) == s
  {
  }

  lemma LastPlace<K, V>(m: map<K, V>, k: K, a: V, b: V)
    ensures m[k := a][k := b] == m[k := b]
  {
  }

  /** A reader leaves the plan of a published, valid version cached and caches no other. */
  lemma ReaderCaches(s: State, id: nat)
    requires id in s.actors && s.actors[id] == Looking && !s.cached
    ensures var good := s.row.status == Published && s.row.valid;
            Alone(s, id, if good then 4 else 2) == s.(actors := s.actors[id := Done], cached := good)
  {
    hide Alone;
    var s1 := Stepped(s, id);
    var s2 := Stepped(s1, id);
    AloneStep(s, id, if Usable(s.row) then 4 else 2);
    AloneStep(s1, id, if Usable(s.row) then 3 else 1);
    if Usable(s.row) {
      ReaderStores(s2, id);
      LastPlace(s.actors, id, Missed, Storing);
      LastPlace(s.actors, id, Storing, Done);
    } else {
      AloneDone(s2, id);
      LastPlace(s.actors, id, Missed, Done);
    }
  }

  lemma ReaderStores(s: State, id: nat)
    requires id in s.actors && s.actors[id] == Storing && Usable(s.row)
    ensures Alone(s, id, 2) == s.(actors := s.actors[id := Done], cached := true)
  {
    hide Alone;
    var s1 := Stepped(s, id);
    AloneStep(s, id, 2);
    AloneStep(s1, id, 1);
    AloneDone(Stepped(s1, id), id);
    LastPlace(s.actors, id, Stored, Done);
  }

  lemma ArchiverRevokes(s: State, id: nat)
    requires id in s.actors && s.actors[id] == Archiving
    ensures Alone(s, id, 2) == State(s.row.(status := Archived), false, s.actors[id := Done], s.lost)
  {
    hide Alone;
    var s1 := Stepped(s, id);
    AloneStep(s, id, 2);
    AloneStep(s1, id, 1);
    AloneDone(Stepped(s1, id), id);
    LastPlace(s.actors, id, ArchivedRow, Done);
  }

  lemma InvalidatorRevokes(s: State, id: nat)
    requires id in s.actors && s.actors[id] == Invalidating && s.row.status != Archived
    ensures Alone(s, id, 3) == State(s.row.(valid := false), false, s.actors[id := Done], s.lost)
  {
    hide Alone;
    var s1 := Stepped(s, id);
    var s2 := Stepped(s1, id);
    AloneStep(s, id, 3);
    AloneStep(s1, id, 2);
    AloneStep(s2, id, 1);
    AloneDone(Stepped(s2, id), id);
    LastPlace(s.actors, id, Marking, Marked);
    LastPlace(s.actors, id, Marked, Done);
  }

  /** Marking a version invalid, or archiving it, leaves it so and its plan not cached. */
  lemma WriterRevokesAlone(s: State, id: nat)
    requires id in s.actors
    ensures s.actors[id] == Invalidating && s.row.status != Archived ==>
              Alone(s, id, 3) == State(s.row.(valid := false), false, s.actors[id := Done], s.lost)
    ensures s.actors[id] == Archiving ==>
              Alone(s, id, 2) == State(s.row.(status := Archived), false, s.actors[id := Done], s.lost)
  {
    hide Alone;
    if s.actors[id] == Invalidating && s.row.status != Archived {
      InvalidatorRevokes(s, id);
    }
    if s.actors[id] == Archiving {
      ArchiverRevokes(s, id);
    }
  }
}
