/**
 * The version-fenced purge of a tenant: any number of sweeps, each holding the
 * record version it started from, beside whatever else changes the record or
 * adds rows. Repository calls are single guarded steps; deleting a credential is
 * a call of its own, after the check.
 */
module TenantPurge {

  // The tables of the purge, in the order a batch tries them.
  type Tables = seq<nat>

  predicate Empty(rows: Tables) {
    forall i :: 0 <= i < |rows| ==> rows[i] == 0
  }

  // A batch deletes up to limit rows of the first table that has any.
  function Batch(rows: Tables, limit: nat): (r: (Tables, nat))
    requires limit > 0
    ensures |r.0| == |rows|
    ensures r.1 == 0 <==> Empty(rows)
    ensures Empty(rows) ==> r.0 == rows
    ensures forall i :: 0 <= i < |rows| ==> r.0[i] <= rows[i]
    ensures Total(rows) == Total(r.0) + r.1 && r.1 <= limit
  {
    if rows == [] then ([], 0)
    else if rows[0] == 0 then
      var (rest, n) := Batch(rows[1..], limit);
      assert forall i :: 0 < i < |rows| ==> rows[i] == rows[1..][i - 1];
      ([0] + rest, n)
    else
      var n := if rows[0] < limit then rows[0] else limit;
      assert ([rows[0] - n] + rows[1..])[1..] == rows[1..];
      ([rows[0] - n] + rows[1..], n)
  }

  function Total(rows: Tables): nat {
    if rows == [] then 0 else rows[0] + Total(rows[1..])
  }

  datatype Place =
    | CheckCredential(i: nat) | DeleteCredential(i: nat) | MarkCredentials
    | Artifacts | LookForRows | MarkPurged
    | RecordFailure | Stopped | Finished

  /**
   * One run of purgeTenant: the record version it holds, where it stands, whether
   * a part of it failed, and whether credentials and artifacts are to be purged at
   * all. It counts what it deleted and marked; lastBatch is what its last batch
   * deleted, sawEmpty whether it then found no rows, added whether rows came in since.
   */
  datatype Sweep = Sweep(version: nat, at: Place, failed: bool, credentials: bool, artifacts: bool,
                         deletedCredentials: nat, deletedRows: nat, marks: nat, purge: Purge,
                         lastBatch: nat, sawEmpty: bool, added: bool)

  // The credentials a sweep deleted, and what it marked as purged.
  datatype Purge = Purge(erased: set<nat>, credentials: bool, tenant: bool)

  datatype State = State(version: nat, purged: bool, credentialsPurged: bool, rows: Tables, credentials: nat,
      sweeps: map<nat, Sweep>)

  datatype Action =
    | Begin(id: nat, credentials: bool, artifacts: bool)
    | Step(id: nat)
    | Fails(id: nat)
    | RecordChanges
    | RowsArrive(table: nat, n: nat)

  const LIMIT: nat := 500

  predicate Enabled(s: State, a: Action) {
    match a
    case Begin(id, _, _) => id !in s.sweeps
    case Step(id) => id in s.sweeps
    case Fails(id) => id in s.sweeps
    case RecordChanges => true
    case RowsArrive(table, _) => table < |s.rows|
  }

  predicate Stale(s: State, w: Sweep) {
    w.version != s.version
  }

  // What one call does: the sweep after it, and the tenant's rows and record.
  datatype Effect = Effect(sweep: Sweep, version: nat, purged: bool, credentialsPurged: bool, rows: Tables)

  function Only(s: State, w: Sweep): Effect {
    Effect(w, s.version, s.purged, s.credentialsPurged, s.rows)
  }

  function Apply(s: State, id: nat, e: Effect): State {
    State(e.version, e.purged, e.credentialsPurged, e.rows, s.credentials, s.sweeps[id := e.sweep])
  }

  // A guarded mark: it fails when the record has changed, else the record moves to its next version.
  function Mark(s: State, w: Sweep, next: Place, purge: Purge): Effect {
    if Stale(s, w) then Only(s, w.(at := Stopped))
    else
      Effect(w.(at := next, version := s.version + 1, marks := w.marks + 1, purge := purge),
             s.version + 1, s.purged, s.credentialsPurged, s.rows)
  }

  // When the parts are through, a failure of one is recorded.
  function After(w: Sweep): (p: Place)
    ensures p.RecordFailure? || p.Finished?
  {
    if w.failed then RecordFailure else Finished
  }

  // The artifacts follow the credentials, failed or not.
  function AfterCredentials(w: Sweep): (p: Place)
    ensures p.Artifacts? || p.RecordFailure? || p.Finished?
  {
    if w.artifacts then Artifacts else After(w)
  }

  // purgeCredentials: each credential is checked for and then deleted, and the record marked.
  function PurgeCredentials(s: State, w: Sweep): Effect {
    match w.at
    case CheckCredential(i) =>
      var next :=
        if i >= s.credentials then MarkCredentials else if Stale(s, w) then Stopped else DeleteCredential(i);
      Only(s, w.(at := next))
    case DeleteCredential(i) =>
      Only(s, w.(at := CheckCredential(i + 1), deletedCredentials := w.deletedCredentials + 1, 
                 purge := w.purge.(erased := w.purge.erased + {i})))
    case MarkCredentials =>
      var e := Mark(s, w, AfterCredentials(w), w.purge.(credentials := true));
      e.(credentialsPurged := s.credentialsPurged || !Stale(s, w))
    case _ => Only(s, w)
  }

  // PurgeBatch: the version check and the deletion are one transaction.
  function PurgeBatch(s: State, w: Sweep): Effect {
    if Stale(s, w) then Only(s, w.(at := Stopped))
    else
      var (rows, n) := Batch(s.rows, LIMIT);
      Only(s, w.(at := if n == 0 then LookForRows else Artifacts, deletedRows := w.deletedRows + n,
                 lastBatch := n, sawEmpty := false, added := false)).(rows := rows)
  }

  // purgeArtifacts: batches until one deletes nothing, a look for rows that remain, and the mark.
  function PurgeArtifacts(s: State, w: Sweep): Effect {
    match w.at
    case Artifacts => PurgeBatch(s, w)
    case LookForRows =>
      if Empty(s.rows) then Only(s, w.(at := MarkPurged, sawEmpty := true, added := false))
      else Only(s, w.(at := RecordFailure, failed := true))
    case MarkPurged =>
      var e := Mark(s, w, After(w), w.purge.(tenant := true));
      e.(purged := s.purged || !Stale(s, w))
    case RecordFailure => Mark(s, w, Finished, w.purge)
    case _ => Only(s, w)
  }

  predicate AtCredentials(w: Sweep) {
    w.at.CheckCredential? || w.at.DeleteCredential? || w.at.MarkCredentials?
  }

  function Advance(s: State, w: Sweep): Effect {
    if AtCredentials(w) then PurgeCredentials(s, w) else PurgeArtifacts(s, w)
  }

  // A call fails for another reason: after the credentials the artifacts are tried all the same.
  function Misstep(w: Sweep): Sweep {
    match w.at
    case CheckCredential(_) => w.(at := AfterCredentials(w.(failed := true)), failed := true)
    case DeleteCredential(_) => w.(at := AfterCredentials(w.(failed := true)), failed := true)
    case MarkCredentials => w.(at := AfterCredentials(w.(failed := true)), failed := true)
    case Artifacts => w.(at := RecordFailure, failed := true)
    case LookForRows => w.(at := RecordFailure, failed := true)
    case MarkPurged => w.(at := RecordFailure, failed := true)
    case RecordFailure => w.(at := Finished)
    case _ => w
  }

  function Stepped(s: State, id: nat): (s': State)
    requires id in s.sweeps
    ensures id in s'.sweeps
  {
    Apply(s, id, Advance(s, s.sweeps[id]))
  }

  function RowsCame(sweeps: map<nat, Sweep>): map<nat, Sweep> {
    map id | id in sweeps :: sweeps[id].(added := true)
  }

  function Do(s: State, a: Action): State
    requires Enabled(s, a)
  {
    match a
    case Begin(id, credentials, artifacts) =>
      var w := Sweep(s.version, CheckCredential(0), false, credentials, artifacts, 0, 0, 0,
                     Purge({}, false, false), 0, false, false);
      s.(sweeps := s.sweeps[id := if credentials then w else w.(at := AfterCredentials(w))])
    case Step(id) => Stepped(s, id)
    case Fails(id) => s.(sweeps := s.sweeps[id := Misstep(s.sweeps[id])])
    case RecordChanges => s.(version := s.version + 1)
    case RowsArrive(table, n) => s.(rows := s.rows[table := s.rows[table] + n], sweeps := RowsCame(s.sweeps))
  }

  ghost predicate Runs(s: State, actions: seq<Action>, s': State)
    decreases |actions|
  {
    if actions == [] then s' == s
    else Enabled(s, actions[0]) && Runs(Do(s, actions[0]), actions[1..], s')
  }

  // ----- the fence -----

  // No sweep holds a version the record has not had.
  ghost predicate Fenced(s: State) {
    forall id :: id in s.sweeps ==> s.sweeps[id].version <= s.version
  }

  predicate LeavesTenant(s: State, e: Effect) {
    e.version == s.version && e.rows == s.rows && e.purged == s.purged && e.credentialsPurged == s.credentialsPurged
  }

  lemma MarkFacts(s: State, w: Sweep, next: Place, purge: Purge)
    requires !next.LookForRows? && !next.MarkPurged? && !next.DeleteCredential?
    ensures var e := Mark(s, w, next, purge);
            && (w.version <= s.version ==> e.sweep.version <= e.version) && s.version <= e.version && e.rows == s.rows
            && !e.sweep.at.LookForRows? && !e.sweep.at.MarkPurged?
            && (Stale(s, w) ==> NoMore(w, e.sweep) && LeavesTenant(s, e))
  {
  }

  // What every call of a sweep keeps: the fence, and, once stale, everything but the sweep.
  ghost predicate KeepsFence(s: State, w: Sweep, e: Effect) {
    && (w.version <= s.version ==> e.sweep.version <= e.version) && s.version <= e.version
    && (Stale(s, w) ==> NoMore(w, e.sweep) && LeavesTenant(s, e))
  }

  lemma CredentialsFenced(s: State, w: Sweep)
    requires AtCredentials(w)
    ensures KeepsFence(s, w, PurgeCredentials(s, w))
  {
    hide AfterCredentials, NoMore;
    if w.at.MarkCredentials? {
      hide Mark;
      MarkFacts(s, w, AfterCredentials(w), w.purge.(credentials := true));
    } else {
      hide Mark;
      CredentialsLeave(s, w);
    }
  }

  lemma CredentialsLeave(s: State, w: Sweep)
    requires w.at.DeleteCredential? || w.at.CheckCredential?
    ensures Stale(s, w) ==> NoMore(w, PurgeCredentials(s, w).sweep)
  {
    hide Mark, AfterCredentials;
  }

  lemma BatchFenced(s: State, w: Sweep)
    requires w.at == Artifacts
    ensures KeepsFence(s, w, PurgeBatch(s, w))
  {
    hide Batch;
  }

  lemma MarksFenced(s: State, w: Sweep)
    requires w.at == MarkPurged || w.at == RecordFailure
    ensures KeepsFence(s, w, PurgeArtifacts(s, w))
  {
    hide Mark, After, NoMore;
    MarkFacts(s, w, After(w), w.purge.(tenant := true));
    MarkFacts(s, w, Finished, w.purge);
  }

  lemma ArtifactsFenced(s: State, w: Sweep)
    requires !AtCredentials(w)
    ensures KeepsFence(s, w, PurgeArtifacts(s, w))
  {
    if w.at == Artifacts {
      hide PurgeBatch, KeepsFence;
      BatchFenced(s, w);
    } else if w.at == MarkPurged || w.at == RecordFailure {
      hide PurgeArtifacts, KeepsFence;
      MarksFenced(s, w);
    } else {
      hide PurgeBatch, Mark, Empty;
    }
  }

  lemma AdvanceFenced(s: State, w: Sweep)
    ensures KeepsFence(s, w, Advance(s, w))
  {
    hide PurgeCredentials, PurgeArtifacts, KeepsFence;
    if AtCredentials(w) {
      CredentialsFenced(s, w);
    } else {
      ArtifactsFenced(s, w);
    }
  }

  lemma DoFenced(s: State, a: Action)
    requires Fenced(s) && Enabled(s, a)
    ensures Fenced(Do(s, a)) && s.version <= Do(s, a).version
  {
    hide Advance;
    if a.Step? {
      AdvanceFenced(s, s.sweeps[a.id]);
    }
  }

  // The deletion a sweep is already about to make.
  function Committed(w: Sweep): nat {
    if w.at.DeleteCredential? then 1 else 0
  }

  // It deleted no further row and marked nothing more; it made at most the deletion it was about to make.
  predicate NoMore(w: Sweep, w': Sweep) {
    && w'.version == w.version && w'.deletedRows == w.deletedRows && w'.marks == w.marks
    && w'.deletedCredentials + Committed(w') <= w.deletedCredentials + Committed(w)
  }

  // Once stale, a sweep stays stale and does no more.
  ghost predicate Harmless(s: State, s': State, id: nat) {
    id in s.sweeps && id in s'.sweeps && s'.sweeps[id].version < s'.version && NoMore(s.sweeps[id], s'.sweeps[id])
  }

  lemma StepHarmless(s: State, a: Action, id: nat)
    requires Fenced(s) && Enabled(s, a) && id in s.sweeps && Stale(s, s.sweeps[id])
    ensures Harmless(s, Do(s, a), id)
  {
    hide Advance, Misstep;
    match a
    case Step(k) =>
      AdvanceFenced(s, s.sweeps[k]);
    case Fails(k) => MisstepHarmless(s.sweeps[k]);
    case _ =>
  }

  lemma MisstepHarmless(w: Sweep)
    ensures NoMore(w, Misstep(w))
  {
  }

  lemma HarmlessTrans(a: State, b: State, c: State, id: nat)
    requires Harmless(a, b, id) && Harmless(b, c, id)
    ensures Harmless(a, c, id)
  {
  }

  /**
   * Once the record has changed, a sweep in progress deletes no further artifact
   * batch, marks nothing, and deletes at most one more credential.
   */
  lemma {:induction false} NoLateWork(s: State, actions: seq<Action>, s': State, id: nat)
    requires Fenced(s) && id in s.sweeps && Stale(s, s.sweeps[id]) && Runs(s, actions, s')
    ensures id in s'.sweeps
    ensures s'.sweeps[id].deletedRows == s.sweeps[id].deletedRows && s'.sweeps[id].marks == s.sweeps[id].marks
    ensures s'.sweeps[id].deletedCredentials <= s.sweeps[id].deletedCredentials + 1
    ensures Harmless(s, s', id)
    decreases |actions|
  {
    hide Do, Enabled;
    if actions != [] {
      var next := Do(s, actions[0]);
      DoFenced(s, actions[0]);
      StepHarmless(s, actions[0], id);
      NoLateWork(next, actions[1..], s', id);
      HarmlessTrans(s, next, s', id);
    }
  }

  // A step of a stale sweep changes nothing but the sweep itself.
  lemma StaleChangesNothing(s: State, id: nat)
    requires id in s.sweeps && Stale(s, s.sweeps[id])
    ensures var s' := Stepped(s, id);
            s'.rows == s.rows && s'.version == s.version && s'.purged == s.purged
                && s'.credentialsPurged == s.credentialsPurged
  {
    hide Advance;
    AdvanceFenced(s, s.sweeps[id]);
  }

  // ----- marking -----

  // Whoever is about to mark the tenant purged deleted nothing in its last batch and then found no rows.
  ghost predicate HonestSweep(s: State, w: Sweep) {
    && (w.at == LookForRows || w.at == MarkPurged ==> w.lastBatch == 0)
    && (w.at == MarkPurged ==> w.sawEmpty && (w.added || Empty(s.rows)))
  }

  ghost predicate Honest(s: State) {
    forall id :: id in s.sweeps ==> HonestSweep(s, s.sweeps[id])
  }

  ghost predicate KeepsHonest(s: State, e: Effect) {
    && (e.sweep.at == LookForRows || e.sweep.at == MarkPurged ==> e.sweep.lastBatch == 0)
    && (e.sweep.at == MarkPurged ==> e.sweep.sawEmpty && (e.sweep.added || Empty(e.rows)))
    && (Empty(s.rows) ==> Empty(e.rows))
  }

  lemma CredentialsHonest(s: State, w: Sweep)
    requires AtCredentials(w)
    ensures KeepsHonest(s, PurgeCredentials(s, w))
  {
    hide Mark, AfterCredentials, Empty, NoMore, LeavesTenant, Stale;
    if w.at.MarkCredentials? {
      MarkFacts(s, w, AfterCredentials(w), w.purge.(credentials := true));
    }
  }

  lemma BatchHonest(s: State, w: Sweep)
    requires w.at == Artifacts
    ensures KeepsHonest(s, PurgeBatch(s, w))
  {
    hide Batch, Empty;
  }

  lemma ArtifactsHonest(s: State, w: Sweep)
    requires HonestSweep(s, w) && !AtCredentials(w)
    ensures KeepsHonest(s, PurgeArtifacts(s, w))
  {
    hide Mark, After, PurgeBatch, Empty, NoMore, LeavesTenant, Stale;
    MarkFacts(s, w, After(w), w.purge.(tenant := true));
    MarkFacts(s, w, Finished, w.purge);
    if w.at == Artifacts {
      BatchHonest(s, w);
    }
  }

  lemma AdvanceHonest(s: State, w: Sweep)
    requires HonestSweep(s, w)
    ensures KeepsHonest(s, Advance(s, w))
  {
    hide PurgeCredentials, PurgeArtifacts, KeepsHonest;
    if AtCredentials(w) {
      CredentialsHonest(s, w);
    } else {
      ArtifactsHonest(s, w);
    }
  }

  lemma StepHonest(s: State, id: nat)
    requires Honest(s) && id in s.sweeps
    ensures Honest(Stepped(s, id))
  {
    hide Advance, Empty;
    var s' := Stepped(s, id);
    AdvanceHonest(s, s.sweeps[id]);
    forall k | k in s'.sweeps
      ensures HonestSweep(s', s'.sweeps[k])
    {
      if k != id {
        assert HonestSweep(s, s.sweeps[k]);
      }
    }
  }

  lemma DoHonest(s: State, a: Action)
    requires Honest(s) && Enabled(s, a)
    ensures Honest(Do(s, a))
  {
    hide Empty, Stepped;
    if a.Step? {
      StepHonest(s, a.id);
    } else {
      forall k | k in Do(s, a).sweeps
        ensures HonestSweep(Do(s, a), Do(s, a).sweeps[k])
      {
        if k in s.sweeps {
          assert HonestSweep(s, s.sweeps[k]);
        }
      }
    }
  }

  lemma {:induction false} RunsHonest(s: State, actions: seq<Action>, s': State)
    requires Honest(s) && Runs(s, actions, s')
    ensures Honest(s')
    decreases |actions|
  {
    hide Honest, Do, Enabled;
    if actions != [] {
      DoHonest(s, actions[0]);
      RunsHonest(Do(s, actions[0]), actions[1..], s');
    }
  }

  // The moments a tenant is marked purged.
  predicate Marks(s: State, id: nat) {
    id in s.sweeps && !s.purged && Stepped(s, id).purged
  }

  /**
   * In every run a tenant is marked purged only by a sweep whose record has not
   * changed and whose last pass deleted nothing and found no rows; unless rows
   * came in after that look, none are there.
   */
  lemma MarkedOnlyWhenEmpty(s0: State, actions: seq<Action>, s: State, id: nat)
    requires s0.sweeps == map[] && Runs(s0, actions, s) && Marks(s, id)
    ensures var w := s.sweeps[id];
            !Stale(s, w) && w.lastBatch == 0 && w.sawEmpty && (w.added || Empty(s.rows))
  {
    hide Empty, Do, Enabled, Runs, Batch;
    RunsHonest(s0, actions, s);
    assert HonestSweep(s, s.sweeps[id]);
  }

  // ----- what a sweep has done where it stands -----

  predicate AtArtifacts(w: Sweep) {
    w.at == Artifacts || w.at == LookForRows || w.at == MarkPurged
  }

  // The first n credentials are deleted.
  ghost predicate Erased(purge: Purge, n: nat) {
    forall i :: 0 <= i < n ==> i in purge.erased
  }

  /** A sweep comes to a place with what is to be done before it done, or failed. */
  ghost predicate InOrder(credentials: nat, w: Sweep) {
    && (AtCredentials(w) ==> w.credentials && !w.failed)
    && (w.at.CheckCredential? ==> Erased(w.purge, w.at.i))
    && (w.at.DeleteCredential? ==> Erased(w.purge, w.at.i))
    && (w.at.MarkCredentials? ==> Erased(w.purge, credentials))
    && (AtArtifacts(w) ==> w.artifacts)
    && (w.at.RecordFailure? ==> w.failed)
    && (AtArtifacts(w) || w.at.Finished? ==> w.failed || (w.credentials ==> w.purge.credentials))
    && (w.at.Finished? ==> w.failed || (w.artifacts ==> w.purge.tenant))
    && (w.purge.credentials ==> Erased(w.purge, credentials))
  }

  lemma CredentialsInOrder(s: State, w: Sweep)
    requires InOrder(s.credentials, w) && AtCredentials(w)
    ensures InOrder(s.credentials, PurgeCredentials(s, w).sweep)
  {
    if w.at.MarkCredentials? {
      MarkInOrder(s, w, AfterCredentials(w), w.purge.(credentials := true));
    } else {
      hide Mark, AfterCredentials;
    }
  }

  // A mark that succeeds leads on in order; one that fails stops the sweep.
  lemma MarkInOrder(s: State, w: Sweep, next: Place, purge: Purge)
    requires InOrder(s.credentials, w)
    requires InOrder(s.credentials, w.(at := next, version := s.version + 1, marks := w.marks + 1, purge := purge))
    ensures InOrder(s.credentials, Mark(s, w, next, purge).sweep)
  {
    hide Erased;
    if Stale(s, w) {
      assert Mark(s, w, next, purge).sweep == w.(at := Stopped);
      StoppedInOrder(s.credentials, w);
    } else {
      hide InOrder;
    }
  }

  lemma StoppedInOrder(credentials: nat, w: Sweep)
    requires InOrder(credentials, w)
    ensures InOrder(credentials, w.(at := Stopped))
  {
    hide Erased;
  }

  lemma ArtifactsInOrder(s: State, w: Sweep)
    requires InOrder(s.credentials, w) && !AtCredentials(w)
    ensures InOrder(s.credentials, PurgeArtifacts(s, w).sweep)
  {
    if w.at.MarkPurged? {
      MarkInOrder(s, w, After(w), w.purge.(tenant := true));
    } else if w.at.RecordFailure? {
      MarkInOrder(s, w, Finished, w.purge);
    } else if w.at.Artifacts? {
      BatchInOrder(s, w);
    } else {
      hide Mark, After, PurgeBatch, Empty, Erased;
    }
  }

  lemma BatchInOrder(s: State, w: Sweep)
    requires InOrder(s.credentials, w) && w.at == Artifacts
    ensures InOrder(s.credentials, PurgeBatch(s, w).sweep)
  {
    hide Batch, Empty, Erased;
  }

  lemma MisstepInOrder(credentials: nat, w: Sweep)
    requires InOrder(credentials, w)
    ensures InOrder(credentials, Misstep(w))
  {
  }

  ghost predicate AllInOrder(s: State) {
    forall id :: id in s.sweeps ==> InOrder(s.credentials, s.sweeps[id])
  }

  lemma DoInOrder(s: State, a: Action)
    requires AllInOrder(s) && Enabled(s, a)
    ensures AllInOrder(Do(s, a)) && Do(s, a).credentials == s.credentials
  {
    hide PurgeCredentials, PurgeArtifacts, Misstep;
    match a
    case Step(id) =>
      if AtCredentials(s.sweeps[id]) {
        CredentialsInOrder(s, s.sweeps[id]);
      } else {
        ArtifactsInOrder(s, s.sweeps[id]);
      }
    case Fails(id) => MisstepInOrder(s.credentials, s.sweeps[id]);
    case _ =>
  }

  /**
   * In every run a sweep that ends without a failure has marked what it was begun
   * for, and a sweep that marks the credentials purged has deleted every one of them.
   */
  lemma {:induction false} RunsInOrder(s: State, actions: seq<Action>, s': State)
    requires AllInOrder(s) && Runs(s, actions, s')
    ensures AllInOrder(s') && s'.credentials == s.credentials
    decreases |actions|
  {
    hide AllInOrder, Do, Enabled;
    if actions != [] {
      DoInOrder(s, actions[0]);
      RunsInOrder(Do(s, actions[0]), actions[1..], s');
    }
  }

  /**
   * The credentials are marked purged only by a sweep whose record has not changed
   * and that deleted every one of them.
   */
  lemma CredentialsMarkedWhenErased(s0: State, actions: seq<Action>, s: State, id: nat)
    requires s0.sweeps == map[] && Runs(s0, actions, s)
    requires id in s.sweeps && !s.credentialsPurged && Stepped(s, id).credentialsPurged
    ensures !Stale(s, s.sweeps[id]) && forall i :: 0 <= i < s.credentials ==> i in s.sweeps[id].purge.erased
  {
    RunsInOrder(s0, actions, s);
    assert InOrder(s.credentials, s.sweeps[id]);
    hide Runs, Batch, Empty;
  }

  /** A sweep that ends without a failure and was not stopped has marked what it was begun for. */
  lemma FinishedMarked(s0: State, actions: seq<Action>, s: State, id: nat)
    requires s0.sweeps == map[] && Runs(s0, actions, s) && id in s.sweeps
    requires s.sweeps[id].at == Finished && !s.sweeps[id].failed
    ensures var w := s.sweeps[id]; (w.credentials ==> w.purge.credentials) && (w.artifacts ==> w.purge.tenant)
  {
    RunsInOrder(s0, actions, s);
    assert InOrder(s.credentials, s.sweeps[id]);
  }

  // ----- a sweep undisturbed -----

  // The sweep makes its next n calls.
  function Alone(s: State, id: nat, n: nat): (s': State)
    requires id in s.sweeps
    ensures id in s'.sweeps
    decreases n
  {
    if n == 0 then s else Alone(Stepped(s, id), id, n - 1)
  }

  lemma {:induction false} AloneOnward(s: State, id: nat, m: nat, n: nat)
    requires id in s.sweeps
    ensures Alone(s, id, m + n) == Alone(Alone(s, id, m), id, n)
    decreases m
  {
    hide Stepped;
    if m > 0 {
      AloneOnward(Stepped(s, id), id, m - 1, n);
    }
  }

  // A sweep at work on an unchanged record, nothing having failed.
  predicate Working(s: State, id: nat) {
    id in s.sweeps && !Stale(s, s.sweeps[id]) && !s.sweeps[id].failed
  }

  // One call of it leaves it working and changes no credential.
  lemma CredentialStep(s: State, id: nat)
    requires Working(s, id) && s.sweeps[id].at.CheckCredential?
    ensures var i, s' := s.sweeps[id].at.i, Alone(s, id, if s.sweeps[id].at.i < s.credentials then 2 else 1);
            && Working(s', id) && s'.rows == s.rows && s'.purged == s.purged && s'.credentials == s.credentials
            && s'.sweeps[id].artifacts == s.sweeps[id].artifacts
            && if i < s.credentials then s'.sweeps[id].at == CheckCredential(i + 1)
                else s'.sweeps[id].at == MarkCredentials
  {
    var s1 := Stepped(s, id);
    hide AfterCredentials, Mark;
    if s.sweeps[id].at.i < s.credentials {
      assert s1.sweeps[id].at == DeleteCredential(s.sweeps[id].at.i);
      var s2 := Stepped(s1, id);
      assert Alone(s, id, 2) == Alone(s1, id, 1) == s2;
    } else {
      assert Alone(s, id, 1) == s1;
    }
  }

  lemma MarkStep(s: State, id: nat)
    requires Working(s, id) && s.sweeps[id].at == MarkCredentials
    ensures var s' := Alone(s, id, 1);
            && Working(s', id) && s'.credentialsPurged && s'.rows == s.rows && s'.purged == s.purged
            && s'.sweeps[id].at == if s.sweeps[id].artifacts then Artifacts else Finished
  {
    assert Alone(s, id, 1) == Stepped(s, id);
  }

  /** Undisturbed, a sweep deletes the credentials and marks them purged before it turns to the artifacts. */
  lemma {:induction false} CredentialsPurged(s: State, id: nat) returns (n: nat)
    requires Working(s, id) && s.sweeps[id].at.CheckCredential?
    ensures var s' := Alone(s, id, n);
            && Working(s', id) && s'.credentialsPurged && s'.rows == s.rows && s'.purged == s.purged
            && s'.sweeps[id].at == if s.sweeps[id].artifacts then Artifacts else Finished
    decreases if s.sweeps[id].at.CheckCredential? then s.credentials - s.sweeps[id].at.i else 0
  {
    hide Alone, Stale;
    var i := s.sweeps[id].at.i;
    CredentialStep(s, id);
    if i < s.credentials {
      var m := CredentialsPurged(Alone(s, id, 2), id);
      AloneOnward(s, id, 2, m);
      n := 2 + m;
    } else {
      MarkStep(Alone(s, id, 1), id);
      AloneOnward(s, id, 1, 1);
      n := 2;
    }
  }

  lemma ArtifactStep(s: State, id: nat)
    requires Working(s, id) && s.sweeps[id].at == Artifacts
    ensures var s' := Alone(s, id, 1);
            && Working(s', id) && s'.credentialsPurged == s.credentialsPurged && s'.rows == Batch(s.rows, LIMIT).0
            && s'.sweeps[id].at == if Empty(s.rows) then LookForRows else Artifacts
  {
    hide Empty;
    assert Alone(s, id, 1) == Stepped(s, id);
  }

  lemma LookStep(s: State, id: nat)
    requires Working(s, id) && s.sweeps[id].at == LookForRows && Empty(s.rows)
    ensures var s' := Alone(s, id, 2);
            s'.purged && s'.rows == s.rows && s'.sweeps[id].at == Finished
                && s'.credentialsPurged == s.credentialsPurged
  {
    hide Empty;
    var s1 := Stepped(s, id);
    assert Alone(s, id, 2) == Alone(s1, id, 1) == Stepped(s1, id);
  }

  /** Undisturbed, it deletes every row, batch by batch, and marks the tenant purged. */
  lemma {:induction false} ArtifactsPurged(s: State, id: nat) returns (n: nat)
    requires Working(s, id) && s.sweeps[id].at == Artifacts
    ensures var s' := Alone(s, id, n);
            s'.purged && Empty(s'.rows) && s'.sweeps[id].at == Finished && s'.credentialsPurged == s.credentialsPurged
    decreases Total(s.rows)
  {
    hide Alone, Stale, Empty;
    ArtifactStep(s, id);
    var s1 := Alone(s, id, 1);
    if Empty(s.rows) {
      LookStep(s1, id);
      AloneOnward(s, id, 1, 2);
      n := 3;
    } else {
      var m := ArtifactsPurged(s1, id);
      AloneOnward(s, id, 1, m);
      n := 1 + m;
    }
  }

  // ----- waiting after a failure -----

  function Doubled(interval: nat, times: nat): nat {
    if times == 0 then interval else 2 * Doubled(interval, times - 1)
  }

  lemma {:induction false} DoubledGrows(interval: nat, a: nat, b: nat)
    requires a <= b
    ensures Doubled(interval, a) <= Doubled(interval, b)
  {
    if a < b {
      DoubledGrows(interval, a, b - 1);
    }
  }

  /** The wait doubles with each attempt after the first, up to the limit. */
  method Backoff(interval: nat, attempts: nat, limit: nat) returns (wait: nat)
    ensures var full := Doubled(interval, if attempts == 0 then 0 else attempts - 1); wait == if full < limit then full
            else limit
  {
    wait := interval;
    var i := 1;
    while i < attempts && wait < limit
      invariant 1 <= i && (attempts >= 1 ==> i <= attempts)
      invariant attempts == 0 ==> i == 1
      invariant wait == Doubled(interval, i - 1)
    {
      wait := wait * 2;
      i := i + 1;
    }
    DoubledGrows(interval, i - 1, if attempts == 0 then 0 else attempts - 1);
    if limit < wait {
      wait := limit;
    }
  }
}
