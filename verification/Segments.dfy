/**
 * Segments are contiguous and closed: over every traversal, whatever the
 * graph, a segment another state filled keeps its stages, the state's own open
 * segment only grows at its end, and the store stays consistent.
 */
module Segments {
  import opened Wrappers
  import opened Graphs
  import opened Bpmn
  import opened Languages
  import opened Plans
  import opened Traversal

  // ----- the shared store -----

  ghost predicate Indexed(sd: Store) {
    && (forall s {:trigger sd.index[s]} :: s in sd.index ==> sd.index[s] < |sd.depts| && sd.depts[sd.index[s]].id == s)
    && (forall i {:trigger sd.depts[i]} :: 0 <= i < |sd.depts| ==>
        sd.depts[i].id in sd.index && sd.index[sd.depts[i].id] == i)
  }

  // The segments of a lane are numbered from 1 without a gap.
  ghost predicate Numbered(sd: Store) {
    forall s :: s in sd.index <==> 1 <= s.n <= Count(sd, s.lane)
  }

  function TotalStages(depts: seq<Department>): nat {
    if depts == [] then 0 else TotalStages(depts[..|depts|-1]) + |depts[|depts|-1].stages|
  }

  ghost predicate Counted(sd: Store) {
    Indexed(sd) && Numbered(sd) && sd.stages == TotalStages(sd.depts)
  }

  ghost predicate Filled(sd: Store, s: Segment) {
    s in sd.index && StagesOf(sd, s) != []
  }

  // A node is placed in a segment that has stages, and every task with a stage is placed.
  ghost predicate Placed(sd: Store) {
    && (forall n :: n in sd.nodeSegment ==> Filled(sd, sd.nodeSegment[n]))
    && (forall s, n {:trigger Task(n) in StagesOf(sd, s)} :: Task(n) in StagesOf(sd, s) ==> n in sd.nodeSegment)
  }

  // Of a lane's segments only the latest may be without stages.
  ghost predicate EarlierFilled(sd: Store) {
    forall s {:trigger s in sd.index} :: s in sd.index && s.n < Count(sd, s.lane) ==> StagesOf(sd, s) != []
  }

  ghost predicate StoreOk(sd: Store) {
    Counted(sd) && Placed(sd) && EarlierFilled(sd)
  }

  // Filled segments keep their stages; only the excepted one may get more, at its end.
  ghost predicate Kept(sd: Store, sd': Store, except: Option<Segment>) {
    forall s {:trigger Filled(sd, s)} {:trigger Filled(sd', s)} {:trigger StagesOf(sd', s)} :: Filled(sd, s) ==>
      && Filled(sd', s)
      && StagesOf(sd, s) <= StagesOf(sd', s)
      && (except != Some(s) ==> StagesOf(sd, s) == StagesOf(sd', s))
  }

  // ----- one state's own fields -----

  ghost predicate AllFilled(sd: Store, S: set<Segment>) {
    forall s :: s in S ==> Filled(sd, s)
  }

  ghost function BufSegs(buf: seq<Segment>): set<Segment> {
    set s | s in buf
  }

  // The open segment is the buffer's last and no earlier step or buffer entry names it.
  ghost predicate OpenLast(loc: Local) {
    if loc.buf == [] then loc.open == None
    else
      && loc.open == Some(loc.buf[|loc.buf|-1])
      && loc.open.value !in loc.buf[..|loc.buf|-1] && loc.open.value !in SegsOf(loc.steps)
  }

  ghost predicate Sound(st: State) {
    && StoreOk(st.sd)
    && AllFilled(st.sd, SegsOf(st.loc.steps))
    && AllFilled(st.sd, BufSegs(st.loc.buf))
    && OpenLast(st.loc)
  }

  // A segment open at the end was open at the start or is new.
  ghost predicate OpensNew(st: State, st': State) {
    st'.loc.open == None || st'.loc.open == st.loc.open || !Filled(st.sd, st'.loc.open.value)
  }

  ghost predicate Goes(st: State, st': State) {
    && Sound(st')
    && Kept(st.sd, st'.sd, st.loc.open)
    && OpensNew(st, st')
    && st.loc.steps <= st'.loc.steps
  }

  lemma GoesTrans(a: State, b: State, c: State)
    requires Goes(a, b) && Goes(b, c)
    ensures Goes(a, c)
  {
    hide Sound, Filled, StagesOf;
  }

  // ----- changes to the store -----

  // Departments and counts are the same.
  predicate SameCounts(sd: Store, sd': Store) {
    sd'.depts == sd.depts && sd'.index == sd.index && sd'.segments == sd.segments && sd'.stages == sd.stages
  }

  lemma SameCountsKept(sd: Store, sd': Store)
    requires Counted(sd) && SameCounts(sd, sd')
    ensures Counted(sd') && Kept(sd, sd', None)
    ensures forall s :: StagesOf(sd', s) == StagesOf(sd, s) && (Filled(sd, s) <==> Filled(sd', s))
    ensures EarlierFilled(sd) ==> EarlierFilled(sd')
  {
  }

  // Only visits and boundary steps differ.
  predicate SameDepts(sd: Store, sd': Store) {
    SameCounts(sd, sd') && sd'.nodeSegment == sd.nodeSegment
  }

  lemma SameDeptsKept(sd: Store, sd': Store)
    requires StoreOk(sd) && SameDepts(sd, sd')
    ensures StoreOk(sd') && Kept(sd, sd', None)
  {
    hide Counted, Filled, StagesOf, Kept, SameCounts;
    SameCountsKept(sd, sd');
  }

  lemma StoreGoes(st: State, sd: Store, loc: Local)
    requires Sound(st) && StoreOk(sd) && Kept(st.sd, sd, None)
    requires loc.steps == st.loc.steps && loc.buf == st.loc.buf && loc.open == st.loc.open
    ensures Goes(st, State(sd, loc))
  {
    hide StoreOk, Filled, StagesOf, SegsOf;
  }

  lemma NumberedGrows(sd: Store, lane: Lane, s: Segment)
    requires Numbered(sd) && s == Segment(lane, Count(sd, lane) + 1)
    ensures s !in sd.index
    ensures Numbered(EnsureDept(sd.(segments := sd.segments[lane := s.n]), s))
  {
    var sd' := EnsureDept(sd.(segments := sd.segments[lane := s.n]), s);
    forall t
      ensures t in sd'.index <==> 1 <= t.n <= Count(sd', t.lane)
    {
      assert t in sd.index <==> 1 <= t.n <= Count(sd, t.lane);
    }
  }

  lemma TotalSnoc(depts: seq<Department>, d: Department)
    ensures TotalStages(depts + [d]) == TotalStages(depts) + |d.stages|
  {
    assert (depts + [d])[..|depts|] == depts;
  }

  lemma OpensCounted(sd: Store, lane: Lane, s: Segment)
    requires Counted(sd) && s == Segment(lane, Count(sd, lane) + 1)
    ensures s !in sd.index
    ensures var sd' := EnsureDept(sd.(segments := sd.segments[lane := s.n]), s);
            && Counted(sd') && Kept(sd, sd', None) && s in sd'.index && sd'.nodeSegment == sd.nodeSegment
            && StagesOf(sd', s) == [] && forall t :: StagesOf(sd', t) == StagesOf(sd, t)
  {
    hide Numbered, TotalStages, Count;
    NumberedGrows(sd, lane, s);
    TotalSnoc(sd.depts, Department(s, []));
  }

  lemma OpensSegment(sd: Store, lane: Lane, s: Segment)
    requires StoreOk(sd) && s == Segment(lane, Count(sd, lane) + 1)
    requires s.n > 1 ==> StagesOf(sd, Segment(lane, Count(sd, lane))) != []
    ensures s !in sd.index
    ensures var sd' := EnsureDept(sd.(segments := sd.segments[lane := s.n]), s);
            StoreOk(sd') && Kept(sd, sd', None) && s in sd'.index && StagesOf(sd', s) == []
                && sd'.nodeSegment == sd.nodeSegment
  {
    hide Indexed, Numbered, TotalStages, StagesOf, Filled;
    OpensCounted(sd, lane, s);
    var sd' := EnsureDept(sd.(segments := sd.segments[lane := s.n]), s);
    assert EarlierFilled(sd') by { NextEarlier(sd, sd', lane, s); }
  }

  lemma NextEarlier(sd: Store, sd': Store, lane: Lane, s: Segment)
    requires EarlierFilled(sd) && Numbered(sd) && s == Segment(lane, Count(sd, lane) + 1)
    requires s.n > 1 ==> StagesOf(sd, Segment(lane, Count(sd, lane))) != []
    requires sd'.index.Keys == sd.index.Keys + {s} && sd'.segments == sd.segments[lane := s.n]
    requires forall t :: StagesOf(sd', t) == StagesOf(sd, t)
    ensures EarlierFilled(sd')
  {
    hide StagesOf;
    forall t {:trigger t in sd'.index} | t in sd'.index && t.n < Count(sd', t.lane)
      ensures StagesOf(sd', t) != []
    {
      assert t in sd'.index.Keys;
      if t.lane == lane && t.n == Count(sd, lane) {
        assert t == Segment(lane, Count(sd, lane));
      } else {
        assert t in sd.index;
      }
    }
  }

  lemma SameEarlier(sd: Store, sd': Store)
    requires EarlierFilled(sd) && sd'.index == sd.index && sd'.segments == sd.segments
    requires forall s :: StagesOf(sd, s) != [] ==> StagesOf(sd', s) != []
    ensures EarlierFilled(sd')
  {
    hide StagesOf;
  }

  lemma LatestKnown(sd: Store, lane: Lane)
    requires Counted(sd) && Count(sd, lane) > 0
    ensures Segment(lane, Count(sd, lane)) in sd.index
  {
    hide Indexed, TotalStages;
  }

  // What opening a lane's latest segment yields is empty, whoever filled the lane before.
  lemma LatestEmpty(sd: Store, lane: Lane)
    requires StoreOk(sd)
    ensures var (sd', s) := LatestSegment(sd, lane);
            && StoreOk(sd') && Kept(sd, sd', None) && sd'.nodeSegment == sd.nodeSegment
            && s in sd'.index && StagesOf(sd', s) == [] && s.lane == lane && !Filled(sd, s)
  {
    hide Counted, Placed, EnsureDept, StagesOf, Kept;
    if Count(sd, lane) > 0 {
      LatestKnown(sd, lane);
    }
    if Count(sd, lane) == 0 || StagesOf(sd, Segment(lane, Count(sd, lane))) != [] {
      OpensSegment(sd, lane, Segment(lane, Count(sd, lane) + 1));
    }
    SameDeptsKept(sd, sd);
  }

  lemma {:induction false} TotalGrows(depts: seq<Department>, i: nat, stage: Sym)
    requires i < |depts|
    ensures TotalStages(depts[i := depts[i].(stages := depts[i].stages + [stage])]) == TotalStages(depts) + 1
  {
    var last := |depts| - 1;
    var d := depts[i].(stages := depts[i].stages + [stage]);
    if i == last {
      assert depts[i := d][..last] == depts[..last];
    } else {
      TotalGrows(depts[..last], i, stage);
      assert depts[i := d][..last] == depts[..last][i := d];
    }
  }

  lemma StageAppended(sd: Store, s: Segment, stage: Sym)
    requires Counted(sd) && s in sd.index
    ensures var sd' := AppendStage(sd, s, stage);
            && Counted(sd')
            && sd'.index == sd.index && sd'.segments == sd.segments && sd'.nodeSegment == sd.nodeSegment
            && StagesOf(sd', s) == StagesOf(sd, s) + [stage]
            && forall t :: t != s ==> StagesOf(sd', t) == StagesOf(sd, t)
  {
    hide TotalStages;
    TotalGrows(sd.depts, sd.index[s], stage);
    var sd' := AppendStage(sd, s, stage);
    forall t | t in sd'.index
      ensures sd'.index[t] < |sd'.depts| && sd'.depts[sd'.index[t]].id == t
    {
    }
    forall t | t != s
      ensures StagesOf(sd', t) == StagesOf(sd, t)
    {
    }
  }

  // A task's node is placed and its stage appended.
  function Place(sd: Store, s: Segment, n: Node): Store {
    AppendStage(MarkNodeSegment(sd, n, Some(s)), s, Task(n))
  }

  lemma TaskAppended(sd: Store, s: Segment, n: Node)
    requires Counted(sd) && EarlierFilled(sd) && s in sd.index
    ensures var sd' := Place(sd, s, n);
            && Counted(sd') && EarlierFilled(sd')
            && sd'.index == sd.index
            && sd'.nodeSegment == (if n in sd.nodeSegment then sd.nodeSegment else sd.nodeSegment[n := s])
            && StagesOf(sd', s) == StagesOf(sd, s) + [Task(n)]
            && forall t :: t != s ==> StagesOf(sd', t) == StagesOf(sd, t)
  {
    hide Counted, StagesOf, AppendStage, EarlierFilled;
    var marked := MarkNodeSegment(sd, n, Some(s));
    SameCountsKept(sd, marked);
    StageAppended(marked, s, Task(n));
    SameEarlier(sd, Place(sd, s, n));
  }

  lemma TaskPlaced(sd: Store, s: Segment, n: Node)
    requires StoreOk(sd) && s in sd.index
    ensures var sd' := Place(sd, s, n);
            && StoreOk(sd')
            && sd'.index == sd.index
            && sd'.nodeSegment == (if n in sd.nodeSegment then sd.nodeSegment else sd.nodeSegment[n := s])
            && StagesOf(sd', s) == StagesOf(sd, s) + [Task(n)]
            && forall t :: t != s ==> StagesOf(sd', t) == StagesOf(sd, t)
  {
    hide Counted, StagesOf, Place, EarlierFilled;
    TaskAppended(sd, s, n);
    var sd' := Place(sd, s, n);
    forall t, m {:trigger Task(m) in StagesOf(sd', t)} | Task(m) in StagesOf(sd', t)
      ensures m in sd'.nodeSegment
    {
      assert Task(m) in StagesOf(sd, t) || m == n;
    }
  }

  lemma {:induction false} ReserveKept(sd: Store, lanes: seq<Lane>)
    requires StoreOk(sd)
    ensures StoreOk(ReserveLanes(sd, lanes)) && Kept(sd, ReserveLanes(sd, lanes), None)
    decreases lanes
  {
    hide StoreOk, Filled, StagesOf, EnsureDept;
    if lanes == [] {
      SameDeptsKept(sd, sd);
    } else {
      var l := lanes[0];
      var sd1 := if Count(sd, l) == 0 then EnsureDept(sd.(segments := sd.segments[l := 1]), Segment(l, 1)) else sd;
      if Count(sd, l) == 0 {
        OpensSegment(sd, l, Segment(l, 1));
      } else {
        SameDeptsKept(sd, sd);
      }
      ReserveKept(sd1, lanes[1..]);
    }
  }

  // ----- one state's steps -----

  lemma GoesSelf(st: State)
    requires Sound(st)
    ensures Goes(st, st)
  {
    hide Sound;
  }

  lemma FlushGoes(st: State)
    requires Sound(st)
    ensures Goes(st, Flush(st))
    ensures Flush(st).loc.buf == [] && Flush(st).sd == st.sd
  {
    hide StoreOk, Filled, StagesOf;
    if st.loc.buf != [] {
      SegsAppend(st.loc.steps, [Sequential(st.loc.buf)]);
      SegsOne(Sequential(st.loc.buf));
      assert BufSegs(st.loc.buf) == StepSegs(Sequential(st.loc.buf));
    }
  }

  lemma AddStepGoes(st: State, step: Step)
    requires Sound(st) && st.loc.buf == [] && AllFilled(st.sd, StepSegs(step))
    ensures Goes(st, AddStep(st, step))
  {
    hide StoreOk, Filled, StagesOf;
    SegsAppend(st.loc.steps, [step]);
    SegsOne(step);
  }

  // The buffer's segments are none but filled ones, which keep their stages.
  lemma BufferKept(st: State, sd: Store, s: Segment, n: Node)
    requires Sound(st) && StoreOk(sd) && Kept(st.sd, sd, None) && s in sd.index && !Filled(st.sd, s)
    ensures s !in st.loc.buf
    ensures forall t :: t in st.loc.buf ==> StagesOf(st.sd, t) == StagesOf(Place(sd, s, n), t)
  {
    hide StoreOk, StagesOf, Place, SegsOf, OpenLast;
    TaskPlaced(sd, s, n);
    forall t | t in st.loc.buf
      ensures t != s && StagesOf(st.sd, t) == StagesOf(Place(sd, s, n), t)
    {
      assert t in BufSegs(st.loc.buf);
      assert Filled(st.sd, t);
    }
  }

  lemma NewSegmentKept(st: State, sd: Store, s: Segment, n: Node)
    requires StoreOk(sd) && Kept(st.sd, sd, None) && s in sd.index && !Filled(st.sd, s)
    ensures Kept(st.sd, Place(sd, s, n), None) && Filled(Place(sd, s, n), s) && StoreOk(Place(sd, s, n))
  {
    hide StoreOk, StagesOf, Place;
    TaskPlaced(sd, s, n);
  }

  // The fields of a state whose buffer a newly filled segment joins.
  lemma NewSegmentSound(st: State, sd': Store, s: Segment)
    requires Sound(st) && StoreOk(sd') && Kept(st.sd, sd', None) && Filled(sd', s) && !Filled(st.sd, s)
             && s !in st.loc.buf
    ensures Sound(State(sd', st.loc.(open := Some(s), buf := st.loc.buf + [s])))
  {
    hide StoreOk, StagesOf, SegsOf, Filled;
    assert s !in SegsOf(st.loc.steps);
    StillFilled(st.sd, sd', SegsOf(st.loc.steps));
    StillFilled(st.sd, sd', BufSegs(st.loc.buf));
    hide Kept, AllFilled;
    var buf := st.loc.buf + [s];
    assert buf[..|buf|-1] == st.loc.buf && buf[|buf|-1] == s;
    assert AllFilled(sd', BufSegs(buf)) by { BufFilled(sd', st.loc.buf, s); }
  }

  lemma StillFilled(sd: Store, sd': Store, S: set<Segment>)
    requires Kept(sd, sd', None) && AllFilled(sd, S)
    ensures AllFilled(sd', S)
  {
    hide Filled, StagesOf;
  }

  lemma BufFilled(sd: Store, buf: seq<Segment>, s: Segment)
    requires AllFilled(sd, BufSegs(buf)) && Filled(sd, s)
    ensures AllFilled(sd, BufSegs(buf + [s]))
  {
    hide Filled;
    assert BufSegs(buf + [s]) == BufSegs(buf) + {s};
  }

  // A new segment at the end of the buffer, filled by its first stage.
  lemma NewSegmentGoes(st: State, sd: Store, s: Segment, n: Node)
    requires Sound(st) && StoreOk(sd) && Kept(st.sd, sd, None) && s in sd.index && StagesOf(sd, s) == []
             && !Filled(st.sd, s)
    ensures var st' := State(Place(sd, s, n), st.loc.(open := Some(s), buf := st.loc.buf + [s]));
            Goes(st, st') && StagesIn(st'.sd, st'.loc.buf) == StagesIn(st.sd, st.loc.buf) + [Task(n)]
  {
    hide StoreOk, StagesOf, Place, SegsOf, Filled, Sound;
    BufferKept(st, sd, s, n);
    NewSegmentKept(st, sd, s, n);
    var sd' := Place(sd, s, n);
    NewSegmentSound(st, sd', s);
    TaskPlaced(sd, s, n);
    SameStagesIn(st.sd, sd', st.loc.buf);
    assert (st.loc.buf + [s])[..|st.loc.buf|] == st.loc.buf;
  }

  // The open segment, last in the buffer, gets one stage more.
  lemma OpenSegmentGoes(st: State, sd: Store, s: Segment, n: Node)
    requires Sound(st) && StoreOk(sd) && Kept(st.sd, sd, None) && st.loc.open == Some(s)
    ensures var st' := State(Place(sd, s, n), st.loc);
            Goes(st, st') && StagesIn(st'.sd, st'.loc.buf) == StagesIn(st.sd, st.loc.buf) + [Task(n)]
  {
    hide StoreOk, StagesOf, Place, SegsOf;
    var buf := st.loc.buf;
    var init := buf[..|buf|-1];
    assert s in BufSegs(buf);
    assert Filled(st.sd, s) && StagesOf(sd, s) == StagesOf(st.sd, s);
    TaskPlaced(sd, s, n);
    var sd' := Place(sd, s, n);
    forall t | t in init
      ensures t != s && StagesOf(st.sd, t) == StagesOf(sd', t)
    {
      assert t in BufSegs(buf);
      assert Filled(st.sd, t);
    }
    SameStagesIn(st.sd, sd', init);
  }

  lemma MarkKept(sd: Store, n: Node, s: Option<Segment>)
    requires StoreOk(sd) && (s.Some? ==> Filled(sd, s.value))
    ensures StoreOk(MarkNodeSegment(sd, n, s)) && Kept(sd, MarkNodeSegment(sd, n, s), None)
  {
    hide Counted, Filled, StagesOf, Kept;
    SameCountsKept(sd, MarkNodeSegment(sd, n, s));
  }

  lemma KeptTrans(a: Store, b: Store, c: Store)
    requires Kept(a, b, None) && Kept(b, c, None)
    ensures Kept(a, c, None)
  {
    hide Filled, StagesOf;
  }

  /**
   * A task's stage comes right after those of the buffer: read in order, the
   * buffer's segments always give the stages in the order they were emitted.
   */
  lemma AddTaskGoes(p: Process, st: State, n: Node)
    requires Sound(st)
    ensures Goes(st, AddTask(p, st, n))
    ensures AddTask(p, st, n).loc.steps == st.loc.steps
    ensures StagesIn(AddTask(p, st, n).sd, AddTask(p, st, n).loc.buf) == StagesIn(st.sd, st.loc.buf) + [Task(n)]
  {
    hide StoreOk, StagesOf, AppendStage, SegsOf, MarkNodeSegment, LatestSegment, Kept, Filled, LaneOf, StartsSegment;
    var lane := LaneOf(p, n);
    if st.loc.open.None? || st.loc.open.value.lane != lane || StartsSegment(p, n) {
      var (sd, s) := LatestSegment(st.sd, lane);
      LatestEmpty(st.sd, lane);
      NotBuffered(st, s);
      NewSegmentGoes(st, sd, s, n);
    } else {
      var s := st.loc.open.value;
      assert s in st.loc.buf;
      SelfKept(st.sd);
      OpenSegmentGoes(st, st.sd, s, n);
    }
  }

  /**
   * Where a task's stage lands: at the end of a segment of the task's own
   * lane, which is the open one unless the lane changes or the task starts a
   * segment; then it is one that had no stage before. A node keeps its first place.
   */
  lemma AddTaskPlaces(p: Process, st: State, n: Node)
    requires Sound(st)
    ensures var st' := AddTask(p, st, n);
            st'.loc.open.Some? &&
            var s := st'.loc.open.value;
            && s.lane == LaneOf(p, n)
            && (if st.loc.open.Some? && st.loc.open.value.lane == LaneOf(p, n) && !StartsSegment(p, n)
                then s == st.loc.open.value && StagesOf(st'.sd, s) == StagesOf(st.sd, s) + [Task(n)]
                else !Filled(st.sd, s) && StagesOf(st'.sd, s) == [Task(n)])
            && st'.sd.nodeSegment == if n in st.sd.nodeSegment then st.sd.nodeSegment else st.sd.nodeSegment[n := s]
  {
    hide StoreOk, StagesOf, AppendStage, SegsOf, LatestSegment, Kept, Filled, LaneOf, StartsSegment;
    var lane := LaneOf(p, n);
    if st.loc.open.None? || st.loc.open.value.lane != lane || StartsSegment(p, n) {
      var (sd, s) := LatestSegment(st.sd, lane);
      LatestEmpty(st.sd, lane);
      TaskPlaced(sd, s, n);
    } else {
      var s := st.loc.open.value;
      assert s in st.loc.buf;
      OpenFilled(st, s);
      TaskPlaced(st.sd, s, n);
    }
  }

  lemma OpenFilled(st: State, s: Segment)
    requires Sound(st) && s in st.loc.buf
    ensures s in st.sd.index
  {
    hide StoreOk, SegsOf, StagesOf;
    assert s in BufSegs(st.loc.buf);
    assert Filled(st.sd, s);
  }

  lemma SelfKept(sd: Store)
    ensures Kept(sd, sd, None)
  {
    hide Filled, StagesOf;
  }

  lemma NotBuffered(st: State, s: Segment)
    requires Sound(st) && !Filled(st.sd, s)
    ensures s !in st.loc.buf
  {
    hide StoreOk, Filled, SegsOf;
    forall t | t in st.loc.buf
      ensures Filled(st.sd, t)
    {
      assert t in BufSegs(st.loc.buf);
    }
  }

  // ----- whole traversals -----

  // A sub-traversal ended: the state's own steps, buffer and open segment are as before.
  ghost predicate Apart(st: State, st': State) {
    && Sound(st')
    && Kept(st.sd, st'.sd, None)
    && st'.loc.steps == st.loc.steps && st'.loc.buf == st.loc.buf && st'.loc.open == st.loc.open
  }

  // Goes on with every segment filled so far shut, the open one included.
  ghost predicate Shuts(st: State, st': State) {
    Goes(st, st') && Kept(st.sd, st'.sd, None)
  }

  lemma ApartGoes(st: State, st': State)
    requires Apart(st, st')
    ensures Goes(st, st')
  {
    hide Sound, Filled, StagesOf;
  }

  lemma ApartTrans(a: State, b: State, c: State)
    requires Apart(a, b) && Apart(b, c)
    ensures Apart(a, c)
  {
    hide Sound, Kept;
    KeptTrans(a.sd, b.sd, c.sd);
  }

  lemma FilledStays(sd: Store, sd': Store, S: set<Segment>, except: Option<Segment>)
    requires AllFilled(sd, S) && Kept(sd, sd', except)
    ensures AllFilled(sd', S)
  {
    hide Filled, StagesOf;
  }

  lemma FilledJoins(sd: Store, A: set<Segment>, B: set<Segment>)
    requires AllFilled(sd, A) && AllFilled(sd, B)
    ensures AllFilled(sd, A + B)
  {
    hide Filled;
  }

  // A store a sub-traversal left, seen by the state that started it.
  lemma BackApart(st: State, sd: Store, loc: Local)
    requires Sound(st) && StoreOk(sd) && Kept(st.sd, sd, None)
    requires loc.steps == st.loc.steps && loc.buf == st.loc.buf && loc.open == st.loc.open
    ensures Apart(st, State(sd, loc))
  {
    hide StoreOk, Filled, StagesOf, SegsOf;
    FilledStays(st.sd, sd, SegsOf(st.loc.steps), None);
    FilledStays(st.sd, sd, BufSegs(st.loc.buf), None);
  }

  lemma FreshSound(st: State, rejoined: bool)
    requires Sound(st)
    ensures Sound(State(st.sd, Fresh(rejoined)))
  {
    hide StoreOk, Filled;
  }

  lemma VisitGoes(st: State, n: Node)
    requires Sound(st)
    ensures Goes(st, Visit(st, n))
  {
    hide Sound, Kept;
    assert StoreOk(st.sd) by { ShowStoreOk(st); }
    SameDeptsKept(st.sd, Visit(st, n).sd);
    StoreGoes(st, Visit(st, n).sd, Visit(st, n).loc);
  }

  lemma ShowStoreOk(st: State)
    requires Sound(st)
    ensures StoreOk(st.sd)
  {
  }

  lemma NodeGoes(ctx: Context, st: State, n: Node)
    requires Sound(st)
    ensures var r := TraverseNode(ctx, st, n); r.Done? ==> Goes(st, r.st)
    decreases Left(st.sd), 0, 0
  {
    hide Sound, Goes, Compile, IsEnd, Matched;
    GoesSelf(st);
    if ctx.stopAt == Some(n) {
    } else if ctx.stopAtCompiled && n in st.sd.visited {
      RejoinGoes(st);
    } else if n in st.loc.visited {
    } else if st.sd.stages > STAGE_BUDGET || st.sd.nodes + 1 > NODE_BUDGET {
    } else {
      VisitGoes(st, n);
      GoesSound(st, Visit(st, n));
      CompileGoes(ctx, Visit(st, n), n);
      if Compile(ctx, Visit(st, n), n).Done? {
        GoesTrans(st, Visit(st, n), Compile(ctx, Visit(st, n), n).st);
      }
    }
  }

  lemma RejoinGoes(st: State)
    requires Sound(st)
    ensures Goes(st, State(st.sd, st.loc.(rejoined := true)))
  {
    hide StoreOk, Filled;
  }

  lemma GoesSound(st: State, st': State)
    requires Goes(st, st')
    ensures Sound(st')
  {
    hide Sound, Kept;
  }

  lemma AllGoes(ctx: Context, st: State, ns: seq<Node>)
    requires Sound(st)
    ensures var r := TraverseAll(ctx, st, ns); r.Done? ==> Goes(st, r.st)
    decreases Left(st.sd), 1, |ns|
  {
    hide Sound, Goes, TraverseNode, Matched;
    if ns == [] {
      GoesSelf(st);
    } else {
      var r := TraverseNode(ctx, st, ns[0]);
      NodeGoes(ctx, st, ns[0]);
      if r.Done? {
        GoesSound(st, r.st);
        AllGoes(ctx, r.st, ns[1..]);
        if TraverseAll(ctx, st, ns).Done? {
          GoesTrans(st, r.st, TraverseAll(ctx, st, ns).st);
        }
      }
    }
  }

  lemma FirstGoes(ctx: Context, st: State, n: Node)
    requires Sound(st)
    ensures var r := TraverseFirst(ctx, st, n); r.Done? ==> Goes(st, r.st)
    decreases Left(st.sd), 1, 0
  {
    hide Sound, Goes, TraverseNode, Matched;
    GoesSelf(st);
    if Nexts(ctx.p, n) != [] {
      NodeGoes(ctx, st, Nexts(ctx.p, n)[0]);
    }
  }

  lemma TargetGoes(ctx: Context, st: State, n: Node)
    requires Sound(st)
    ensures var r := TraverseTarget(ctx, st, n); r.Done? ==> Goes(st, r.st)
    decreases Left(st.sd), 1, 0
  {
    hide Sound, Goes, TraverseNode, Matched;
    GoesSelf(st);
    if FirstTarget(ctx.p, n).Some? {
      NodeGoes(ctx, st, FirstTarget(ctx.p, n).value);
    }
  }

  lemma TaskGoes(ctx: Context, st: State, n: Node)
    requires Sound(st)
    ensures var r := TraverseFirst(ctx, AddTask(ctx.p, st, n), n); r.Done? ==> Goes(st, r.st)
    decreases Left(st.sd), 2, 0
  {
    hide Sound, Goes, AddTask, TraverseFirst, Matched;
    var st1 := AddTask(ctx.p, st, n);
    AddTaskGoes(ctx.p, st, n);
    AddTaskCounts(ctx.p, st, n);
    GoesSound(st, st1);
    FirstGoes(ctx, st1, n);
    if TraverseFirst(ctx, st1, n).Done? {
      GoesTrans(st, st1, TraverseFirst(ctx, st1, n).st);
    }
  }

  lemma CompileGoes(ctx: Context, st: State, n: Node)
    requires Sound(st)
    ensures var r := Compile(ctx, st, n); r.Done? ==> Goes(st, r.st)
    decreases Left(st.sd), 5, 0
  {
    hide Sound, Goes, AddTask, TraverseFirst, TraverseAll, TraverseTarget, HandleGateway, CompileSubProcess,
         CompileCall, Flush, Matched;
    if n in ctx.p.skipped || n !in ctx.p.g.kind {
      AllGoes(ctx, st, Nexts(ctx.p, n));
    } else {
      GoesSelf(st);
      match ctx.p.g.kind[n]
      case StartEvent =>
      case EndEvent => FlushGoes(st);
      case UserTask => TaskGoes(ctx, st, n);
      case SendTask => TaskGoes(ctx, st, n);
      case ReceiveTask => TaskGoes(ctx, st, n);
      case ParallelGateway => GatewayGoes(ctx, st, n, false);
      case InclusiveGateway => GatewayGoes(ctx, st, n, false);
      case ExclusiveGateway => GatewayGoes(ctx, st, n, true);
      case SubProcess => SubProcessShuts(ctx, st, n);
      case CallActivity => CallShuts(ctx, st, n);
      case TimerBoundaryEvent => TargetGoes(ctx, st, n);
      case MessageBoundaryEvent => TargetGoes(ctx, st, n);
      case ErrorBoundaryEvent =>
      case BoundaryEvent => AllGoes(ctx, st, Nexts(ctx.p, n));
    }
  }

  // After a flush, what goes on shuts what was open before it.
  lemma FlushShuts(st: State, st': State)
    requires Sound(st) && Goes(Flush(st), st')
    ensures Shuts(st, st')
  {
    hide Sound;
    FlushGoes(st);
    GoesTrans(st, Flush(st), st');
  }

  lemma GatewayGoes(ctx: Context, st: State, n: Node, exclusive: bool)
    requires Sound(st)
    ensures var r := HandleGateway(ctx, st, n, exclusive); r.Done? ==> Goes(st, r.st)
    ensures var r := HandleGateway(ctx, st, n, exclusive);
            r.Done? && (|Nexts(ctx.p, n)| >= 2 || RevertsOf(ctx.p, n) != []) ==> Shuts(st, r.st)
    decreases Left(st.sd), 4, 0
  {
    hide Sound, Goes, TraverseFirst, SingleForward, SplitNoJoin, SplitWithJoin, Flush, Matched, Reverts, JoinAt;
    var fwd := Nexts(ctx.p, n);
    var reverts := RevertsOf(ctx.p, n);
    FlushGoes(st);
    GoesSound(st, Flush(st));
    if |fwd| <= 1 && reverts == [] {
      FirstGoes(ctx, st, n);
    } else {
      var r := HandleGateway(ctx, st, n, exclusive);
      if |fwd| <= 1 {
        SingleGoes(ctx, Flush(st), n, fwd, reverts);
      } else if JoinAt(ctx.p.g.outgoing, ctx.p.back, n).None? {
        NoJoinGoes(ctx, Flush(st), n, fwd, reverts, exclusive);
      } else {
        WithJoinGoes(ctx, Flush(st), n, fwd, reverts, JoinAt(ctx.p.g.outgoing, ctx.p.back, n).value, exclusive);
      }
      if r.Done? {
        FlushShuts(st, r.st);
        hide Shuts;
        ShutsGoes(st, r.st);
      }
    }
  }

  lemma ShutsGoes(st: State, st': State)
    requires Shuts(st, st')
    ensures Goes(st, st')
  {
    hide Goes;
  }

  // A gateway step is appended and the traversal goes on.
  lemma StepGoes(ctx: Context, st: State, step: Step, next: Node)
    requires Sound(st) && st.loc.buf == [] && AllFilled(st.sd, StepSegs(step))
    ensures var r := TraverseNode(ctx, AddStep(st, step), next); r.Done? ==> Goes(st, r.st)
    decreases Left(st.sd), 1, 0
  {
    hide Sound, Goes, TraverseNode, Matched, StepSegs, AllFilled;
    AddStepGoes(st, step);
    GoesSound(st, AddStep(st, step));
    NodeGoes(ctx, AddStep(st, step), next);
    var r := TraverseNode(ctx, AddStep(st, step), next);
    if r.Done? {
      GoesTrans(st, AddStep(st, step), r.st);
    }
  }

  lemma SingleGoes(ctx: Context, st: State, n: Node, fwd: seq<Node>, reverts: seq<Branch>)
    requires Sound(st) && st.loc.buf == [] && forall b :: b in reverts ==> b.Revert?
    ensures var r := SingleForward(ctx, st, n, fwd, reverts); r.Done? ==> Goes(st, r.st)
    decreases Left(st.sd), 3, 0
  {
    hide Sound, Goes, TraverseNode, Matched, IsEnd, AddStep;
    RevertsRunNothing(st.sd, reverts, Eps());
    if fwd == [] {
      AddStepGoes(st, Gateway([], reverts));
    } else {
      var onward := Onward(Edge(n, fwd[0]), [], IsEnd(ctx.p.g, fwd[0]));
      assert BranchesSegs([onward]) == {} by {
        assert [onward][1..] == [] && BranchSegs(onward) == SegsOf([]);
      }
      BranchesAppend(st.sd, [onward], reverts, Eps());
      StepGoes(ctx, st, Gateway([], [onward] + reverts), fwd[0]);
    }
  }

  lemma NoJoinGoes(ctx: Context, st: State, n: Node, fwd: seq<Node>, reverts: seq<Branch>, exclusive: bool)
    requires Sound(st) && st.loc.buf == [] && forall b :: b in reverts ==> b.Revert?
    ensures var r := SplitNoJoin(ctx, st, n, fwd, reverts, exclusive); r.Done? ==> Goes(st, r.st)
    decreases Left(st.sd), 3, 0
  {
    hide Sound, Goes, Branches, Matched, AddStep, Apart;
    if exclusive {
      var r := Branches(ctx, st, n, fwd, None, true);
      BranchesApart(ctx, st, n, fwd, None, true);
      if r.Branched? {
        RevertsRunNothing(st.sd, reverts, Eps());
        BranchesAppend(st.sd, r.branches, reverts, Eps());
        StepAfterBranches(st, r.st, Gateway([], r.branches + reverts));
      }
    }
  }

  lemma WithJoinGoes(ctx: Context, st: State, n: Node, fwd: seq<Node>, reverts: seq<Branch>, join: Node,
                     exclusive: bool)
    requires Sound(st) && st.loc.buf == [] && forall b :: b in reverts ==> b.Revert?
    ensures var r := SplitWithJoin(ctx, st, n, fwd, reverts, join, exclusive); r.Done? ==> Goes(st, r.st)
    decreases Left(st.sd), 3, 0
  {
    hide Sound, Goes, Branches, Matched, AddStep, Apart, TraverseNode;
    var r := Branches(ctx, st, n, fwd, Some(join), false);
    BranchesApart(ctx, st, n, fwd, Some(join), false);
    if r.Branched? {
      RevertsRunNothing(st.sd, reverts, Eps());
      BranchesAppend(st.sd, r.branches, reverts, Eps());
      var step := if exclusive then Gateway([], r.branches + reverts) else Gateway(r.branches, reverts);
      assert StepSegs(step) == BranchesSegs(r.branches);
      StepAfterBranches(st, r.st, step);
      StepGoes(ctx, r.st, step, join);
      ApartGoes(st, r.st);
      var t := TraverseNode(ctx, AddStep(r.st, step), join);
      if t.Done? {
        GoesTrans(st, r.st, t.st);
      }
    }
  }

  // Back from its branches, the split state appends its gateway step.
  lemma StepAfterBranches(st: State, s: State, step: Step)
    requires Apart(st, s) && st.loc.buf == [] && AllFilled(s.sd, StepSegs(step))
    ensures Sound(s) && s.loc.buf == [] && Goes(st, AddStep(s, step))
  {
    hide Sound, Goes, Kept;
    AddStepGoes(s, step);
    ApartGoes(st, s);
    GoesTrans(st, s, AddStep(s, step));
  }

  lemma BranchesApart(ctx: Context, st: State, n: Node, starts: seq<Node>, stop: Option<Node>, terminates: bool)
    requires Sound(st)
    ensures var r := Branches(ctx, st, n, starts, stop, terminates);
            r.Branched? ==> Apart(st, r.st) && AllFilled(r.st.sd, BranchesSegs(r.branches))
    decreases Left(st.sd), 2, |starts|
  {
    hide Sound, Apart, BranchSteps, Matched, SegsOf;
    if starts == [] {
      ApartSelf(st);
    } else {
      var one := BranchSteps(ctx, st, starts[0], stop);
      BranchApart(ctx, st, starts[0], stop);
      if one.SubDone? {
        ApartSound(st, one.st);
        BranchesApart(ctx, one.st, n, starts[1..], stop, terminates);
        var rest := Branches(ctx, one.st, n, starts[1..], stop, terminates);
        if rest.Branched? {
          ApartSound(one.st, rest.st);
          FilledStays(one.st.sd, rest.st.sd, SegsOf(one.steps), None);
          ApartTrans(st, one.st, rest.st);
          BranchesCons(Onward(Edge(n, starts[0]), one.steps, terminates), rest.branches);
          FilledJoins(rest.st.sd, SegsOf(one.steps), BranchesSegs(rest.branches));
        }
      }
    }
  }

  lemma BranchesCons(b: Branch, bs: seq<Branch>)
    requires b.Onward?
    ensures BranchesSegs([b] + bs) == SegsOf(b.steps) + BranchesSegs(bs)
  {
    assert ([b] + bs)[1..] == bs;
  }

  lemma ApartSelf(st: State)
    requires Sound(st)
    ensures Apart(st, st)
  {
    hide Sound;
  }

  lemma ApartSound(st: State, st': State)
    requires Apart(st, st')
    ensures Sound(st') && Kept(st.sd, st'.sd, None)
  {
    hide Sound, Kept;
  }

  // A branch's own state, flushed, seen by the state it branched from.
  lemma SubApart(st: State, rejoined: bool, s: State, loc: Local)
    requires Sound(st) && Goes(State(st.sd, Fresh(rejoined)), s)
    requires loc.steps == st.loc.steps && loc.buf == st.loc.buf && loc.open == st.loc.open
    ensures Apart(st, State(s.sd, loc)) && AllFilled(s.sd, SegsOf(Flush(s).loc.steps))
            && AllFilled(s.sd, SegsOf(s.loc.steps))
  {
    hide Sound, Kept;
    FlushGoes(s);
    ShowSound(s);
    ShowSound(Flush(s));
    BackApart(st, s.sd, loc);
  }

  lemma ShowSound(st: State)
    requires Sound(st)
    ensures StoreOk(st.sd) && AllFilled(st.sd, SegsOf(st.loc.steps))
  {
  }

  lemma BranchApart(ctx: Context, st: State, start: Node, stop: Option<Node>)
    requires Sound(st)
    ensures var r := BranchSteps(ctx, st, start, stop);
            r.SubDone? ==> Apart(st, r.st) && AllFilled(r.st.sd, SegsOf(r.steps))
    decreases Left(st.sd), 1, 0
  {
    hide Sound, Goes, Apart, TraverseNode, Matched, SegsOf, AllFilled;
    var sub := State(st.sd, Fresh(st.loc.rejoined));
    FreshSound(st, st.loc.rejoined);
    NodeGoes(ctx.(stopAt := stop), sub, start);
    var r := TraverseNode(ctx.(stopAt := stop), sub, start);
    if r.Done? {
      SubApart(st, st.loc.rejoined, r.st, Back(st, Flush(r.st)).loc);
    }
  }

  lemma RunBodyApart(ctx: Context, st: State, n: Node)
    requires Sound(st) && n in ctx.bodies
    ensures var r := RunBody(ctx, st, n);
            r.SubDone? ==> Apart(st, r.st) && AllFilled(r.st.sd, SegsOf(r.steps))
    decreases Left(st.sd), 3, 0
  {
    hide Sound, Goes, Apart, RunProcess, Matched, SegsOf, AllFilled;
    var bctx := Context(Body(ctx.p, ctx.bodies, n), map[], None, false);
    var sub := State(st.sd, Fresh(false));
    FreshSound(st, false);
    RunGoes(bctx, sub);
    var r := RunProcess(bctx, sub);
    if r.Done? {
      SubApart(st, false, r.st, st.loc);
    }
  }

  /** A whole process: no segment filled before is touched, and every step reads filled segments. */
  lemma RunGoes(ctx: Context, st: State)
    requires Sound(st)
    ensures var r := RunProcess(ctx, st); r.Done? ==> Goes(st, r.st)
    decreases Left(st.sd), 2, 0
  {
    hide Sound, Goes, TraverseFirst, BoundaryPaths, Matched, Apart;
    GoesSelf(st);
    if ctx.p.start.Some? {
      FirstGoes(ctx, st, ctx.p.start.value);
    }
    var r := if ctx.p.start.None? then Done(st) else TraverseFirst(ctx, st, ctx.p.start.value);
    if r.Done? {
      GoesSound(st, r.st);
      BoundaryApart(ctx, r.st, ctx.p.boundaries);
      var b := BoundaryPaths(ctx, r.st, ctx.p.boundaries);
      if b.Done? {
        ApartGoes(r.st, b.st);
        GoesTrans(st, r.st, b.st);
      }
    }
  }

  lemma PathApart(ctx: Context, st: State, be: Node)
    requires Sound(st)
    ensures var r := BoundaryPath(ctx, st, be); r.Done? ==> Apart(st, r.st)
    decreases Left(st.sd), 1, 0
  {
    hide Sound, Goes, Apart, TraverseNode, Matched, SegsOf, AllFilled, TaskAhead, Flush;
    var task := BoundaryTask(ctx.p, be);
    if task.None? || task.value in st.sd.nodeSegment {
      ApartSelf(st);
    } else {
      var path := Context(ctx.p, ctx.bodies, None, true);
      var sub := State(st.sd, Fresh(false));
      FreshSound(st, false);
      NodeGoes(path, sub, FirstTarget(ctx.p, be).value);
      var r := TraverseNode(path, sub, FirstTarget(ctx.p, be).value);
      if r.Done? {
        SubApart(st, false, r.st, st.loc);
        StoredApart(st, r.st.sd, RecordPath(r.st, be));
      }
    }
  }

  lemma BoundaryApart(ctx: Context, st: State, bs: seq<Node>)
    requires Sound(st)
    ensures var r := BoundaryPaths(ctx, st, bs); r.Done? ==> Apart(st, r.st)
    decreases Left(st.sd), 1, |bs|
  {
    hide Sound, Apart, BoundaryPath, Matched;
    if bs == [] {
      ApartSelf(st);
    } else {
      var r := BoundaryPath(ctx, st, bs[0]);
      PathApart(ctx, st, bs[0]);
      if r.Done? {
        ApartSound(st, r.st);
        BoundaryApart(ctx, r.st, bs[1..]);
        var rest := BoundaryPaths(ctx, r.st, bs[1..]);
        if rest.Done? {
          ApartTrans(st, r.st, rest.st);
        }
      }
    }
  }

  lemma StoredApart(st: State, sd: Store, sd': Store)
    requires Sound(st) && Apart(st, State(sd, st.loc)) && SameDepts(sd, sd')
    ensures Apart(st, State(sd', st.loc))
  {
    hide StoreOk, Kept, AllFilled, SameDepts;
    SameDeptsKept(sd, sd');
    KeptTrans(st.sd, sd, sd');
    BackApart(st, sd', st.loc);
  }

  /**
   * A sub-process body shares the store, but the segment its parent had open is
   * shut: flushed after the body, it never gets another stage.
   */
  lemma SubProcessShuts(ctx: Context, st: State, n: Node)
    requires Sound(st)
    ensures var r := CompileSubProcess(ctx, st, n); r.Done? ==> Shuts(st, r.st) && Goes(st, r.st)
    decreases Left(st.sd), 4, 0
  {
    hide Sound, Goes, Apart, RunBody, TraverseFirst, Matched, AllFilled, FirstDepartment, Kept;
    if n in ctx.bodies {
      var b := RunBody(ctx, st, n);
      RunBodyApart(ctx, st, n);
      if b.SubDone? {
        var marked := State(MarkNodeSegment(b.st.sd, n, FirstDepartment(b.steps)), b.st.loc);
        FirstRead(b.steps);
        BodyMarked(st, b.st, n, FirstDepartment(b.steps), SegsOf(b.steps));
        SubProcessGoesOn(ctx, marked, n, b.steps);
        var r := CompileSubProcess(ctx, st, n);
        if r.Done? {
          ShutsGoes(marked, r.st);
          ApartGoes(st, marked);
          GoesTrans(st, marked, r.st);
          ShutThrough(st, marked, r.st);
        }
      }
    }
  }

  // The first department of a plan is one its steps read.
  lemma {:induction false} FirstRead(steps: seq<Step>)
    ensures FirstDepartment(steps).Some? ==> FirstDepartment(steps).value in SegsOf(steps)
    decreases steps
  {
    if steps != [] {
      match steps[0]
      case Sequential(_) =>
      case SubWorkflow(_, inner) => FirstRead(inner);
      case Gateway(parallel, exclusive) =>
        FirstReadIn(parallel);
        FirstReadIn(exclusive);
      case CallPlan(_) =>
    }
  }

  lemma {:induction false} FirstReadIn(bs: seq<Branch>)
    ensures FirstInBranches(bs).Some? ==> FirstInBranches(bs).value in BranchesSegs(bs)
    decreases bs
  {
    if bs != [] {
      if bs[0].Onward? {
        FirstRead(bs[0].steps);
      }
      FirstReadIn(bs[1..]);
    }
  }

  lemma ShutThrough(a: State, b: State, c: State)
    requires Apart(a, b) && Shuts(b, c)
    ensures Kept(a.sd, c.sd, None)
  {
    hide Sound, Kept;
    KeptTrans(a.sd, b.sd, c.sd);
  }

  lemma BodyMarked(st: State, s: State, n: Node, seg: Option<Segment>, S: set<Segment>)
    requires Sound(st) && Apart(st, s) && AllFilled(s.sd, S) && (seg.Some? ==> seg.value in S)
    ensures var marked := State(MarkNodeSegment(s.sd, n, seg), s.loc);
            Apart(st, marked) && Sound(marked) && AllFilled(marked.sd, S)
  {
    hide StoreOk, Kept, Filled, MarkNodeSegment;
    MarkKept(s.sd, n, seg);
    hide AllFilled;
    KeptTrans(st.sd, s.sd, MarkNodeSegment(s.sd, n, seg));
    FilledStays(s.sd, MarkNodeSegment(s.sd, n, seg), S, None);
    BackApart(st, MarkNodeSegment(s.sd, n, seg), s.loc);
  }

  lemma SubProcessGoesOn(ctx: Context, st: State, n: Node, steps: seq<Step>)
    requires Sound(st) && AllFilled(st.sd, SegsOf(steps))
    ensures var r := TraverseFirst(ctx, AddStep(Flush(st), SubWorkflow(n, steps)), n); r.Done? ==> Shuts(st, r.st)
    decreases Left(st.sd), 3, 0
  {
    hide Sound, Goes, TraverseFirst, Matched, AddStep, Flush;
    var step := SubWorkflow(n, steps);
    assert StepSegs(step) == SegsOf(steps);
    StepShuts(ctx, st, step, n);
  }

  // The buffer is flushed, a step appended, and the first forward flow taken.
  lemma StepShuts(ctx: Context, st: State, step: Step, n: Node)
    requires Sound(st) && AllFilled(st.sd, StepSegs(step))
    ensures var r := TraverseFirst(ctx, AddStep(Flush(st), step), n); r.Done? ==> Shuts(st, r.st)
    decreases Left(st.sd), 2, 0
  {
    hide Sound, Goes, TraverseFirst, Matched, StepSegs, AllFilled, Shuts;
    FlushGoes(st);
    GoesSound(st, Flush(st));
    var st1 := AddStep(Flush(st), step);
    AddStepGoes(Flush(st), step);
    GoesSound(Flush(st), st1);
    FirstGoes(ctx, st1, n);
    var r := TraverseFirst(ctx, st1, n);
    if r.Done? {
      GoesTrans(Flush(st), st1, r.st);
      FlushShuts(st, r.st);
    }
  }

  lemma CallShuts(ctx: Context, st: State, n: Node)
    requires Sound(st)
    ensures var r := CompileCall(ctx, st, n); r.Done? ==> Shuts(st, r.st) && Goes(st, r.st)
    decreases Left(st.sd), 4, 0
  {
    hide Sound, Goes, TraverseFirst, Matched, ReserveLanes, Flush, AddStep, Kept, Apart;
    if n !in ctx.p.failing {
      var lanes := if n in ctx.p.reserved then ctx.p.reserved[n] else [];
      var reserved := State(ReserveLanes(st.sd, lanes), st.loc);
      ReserveKeepsNodes(st.sd, lanes);
      ReservedApart(st, lanes);
      StepShuts(ctx, reserved, CallPlan(n), n);
      var r := CompileCall(ctx, st, n);
      if r.Done? {
        ShutsGoes(reserved, r.st);
        ApartGoes(st, reserved);
        GoesTrans(st, reserved, r.st);
        ShutThrough(st, reserved, r.st);
      }
    }
  }

  lemma ReservedApart(st: State, lanes: seq<Lane>)
    requires Sound(st)
    ensures Apart(st, State(ReserveLanes(st.sd, lanes), st.loc)) && Sound(State(ReserveLanes(st.sd, lanes), st.loc))
  {
    hide StoreOk, Kept, AllFilled, ReserveLanes;
    ReserveKept(st.sd, lanes);
    BackApart(st, ReserveLanes(st.sd, lanes), st.loc);
  }

  lemma EmptySound()
    ensures Sound(State(EMPTY_STORE, Fresh(false)))
  {
    assert SegsOf([]) == {};
  }

  lemma PlanSound(p: Process, bodies: Bodies, implicit: Option<Node>)
    ensures var r := CompilePlan(p, bodies, implicit);
            r.Done? ==> StoreOk(r.st.sd) && AllFilled(r.st.sd, SegsOf(r.st.loc.steps))
  {
    hide Sound, Goes, Apart, TraverseNode, RunProcess, BoundaryPaths, Matched, Keeps, AllFilled, StoreOk;
    var ctx := Context(p, bodies, None, false);
    var st := State(EMPTY_STORE, Fresh(false));
    EmptySound();
    var r := CompilePlan(p, bodies, implicit);
    if p.start.Some? {
      RunGoes(ctx, st);
      if r.Done? {
        GoesSound(st, r.st);
        ShowSound(r.st);
      }
    } else if implicit.Some? {
      NodeGoes(ctx, st, implicit.value);
      var t := TraverseNode(ctx, st, implicit.value);
      if t.Done? {
        GoesSound(st, t.st);
        BoundaryApart(ctx, t.st, p.boundaries);
        if r.Done? {
          ApartSound(t.st, r.st);
          ShowSound(r.st);
        }
      }
    }
  }

  /**
   * The departments of a whole plan: the index finds each by its id, every lane's
   * segments are numbered from 1 without a gap, the stage count is their total,
   * only the latest segment of a lane may be empty, a node is placed only where
   * there are stages, every task with a stage is placed, and the plan reads no
   * empty segment.
   */
  lemma PlanSegments(p: Process, bodies: Bodies, implicit: Option<Node>)
    ensures var r := CompilePlan(p, bodies, implicit);
            var sd := r.st.sd;
            r.Done? ==>
              && (forall i :: 0 <= i < |sd.depts| ==>
                  sd.depts[i].id in sd.index && sd.index[sd.depts[i].id] == i)
              && (forall s :: s in sd.index ==> sd.index[s] < |sd.depts| && sd.depts[sd.index[s]].id == s)
              && (forall s :: s in sd.index <==> 1 <= s.n <= Count(sd, s.lane))
              && sd.stages == TotalStages(sd.depts)
              && (forall s {:trigger s in sd.index} :: s in sd.index && s.n < Count(sd, s.lane) ==>
                  StagesOf(sd, s) != [])
              && (forall n :: n in sd.nodeSegment ==>
                  sd.nodeSegment[n] in sd.index && StagesOf(sd, sd.nodeSegment[n]) != [])
              && (forall s, n {:trigger Task(n) in StagesOf(sd, s)} :: Task(n) in StagesOf(sd, s) ==>
                  n in sd.nodeSegment)
              && (forall s {:trigger s in SegsOf(r.st.loc.steps)} :: s in SegsOf(r.st.loc.steps) ==>
                  s in sd.index && StagesOf(sd, s) != [])
  {
    hide CompilePlan, StagesOf, Count, TotalStages, SegsOf;
    PlanSound(p, bodies, implicit);
  }
}
