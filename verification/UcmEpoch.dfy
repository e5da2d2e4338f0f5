/** Turns of the migration loops of a policy epoch, once the free ring is drained. */
module UcmEpoch {
  import opened UcmState
  import opened UcmInvariant
  import opened UcmSafety
  import opened UcmMigration
  import opened UcmRuns

  /** The level the counters of each page give now; counters do not change during a loop. */
  ghost predicate HeatOk(heat: seq<nat>, n: nat) {
    |heat| == n && forall p | 0 <= p < n :: heat[p] < LEVELS
  }

  /** The policy thread may run its loops: the free ring of the process has been drained. */
  ghost predicate Ready(s: State, frames: set<Frame>, pid: Pid, heat: seq<nat>) {
    Inv(s, frames) && pid in s.proc && pid in s.ring && s.ring[pid] == [] && HeatOk(heat, |s.page|)
  }

  ghost function LevelNow(s: State, frames: set<Frame>, pid: Pid, up: bool, heat: seq<nat>): (level: nat)
    requires Ready(s, frames, pid, heat)
    ensures level < LEVELS
  {
    if Candidate(s, pid, up).None? then 0
    else PickedIs(s, frames, pid, up, 0); heat[Picked(s, pid, up)]
  }

  /** One turn of a migration loop. */
  ghost function Turn(s: State, frames: set<Frame>, pid: Pid, up: bool, heat: seq<nat>): (s': State)
    requires Ready(s, frames, pid, heat)
    ensures Inv(s', frames)
  {
    MigrateStep(s, frames, pid, up, LevelNow(s, frames, pid, up, heat))
  }

  /** Whether a turn has a candidate and a free page to pair it with. */
  ghost predicate Moves(s: State, pid: Pid, up: bool) {
    Candidate(s, pid, up).Some? && At(s.lists, Free(up)) != []
  }

  lemma TurnIs(s: State, frames: set<Frame>, pid: Pid, up: bool, heat: seq<nat>)
    requires Ready(s, frames, pid, heat) && Moves(s, pid, up)
    ensures pid in s.proc && Picked(s, pid, up) < |s.page| && Oldest(s, up) < |s.page|
    ensures At(Picking(s, pid, up), Free(up)) == At(s.lists, Free(up))
    ensures var level := LevelNow(s, frames, pid, up, heat);
      Turn(s, frames, pid, up, heat)
      == Swap(s, pid, up, Picked(s, pid, up), Oldest(s, up), HotAfter(s, pid, up, level))
        .(lists := ListsAfter(s, pid, up, level))
  {
    var level := LevelNow(s, frames, pid, up, heat);
    DrainedPicksAreLive(s, frames, pid, up, level);
    MigrateEffect(s, frames, pid, up, level);
  }

  /** What a turn that moves a page does to the rest. */
  lemma TurnMoves(s: State, frames: set<Frame>, pid: Pid, up: bool, heat: seq<nat>)
    requires Ready(s, frames, pid, heat) && Moves(s, pid, up)
    ensures var s' := Turn(s, frames, pid, up, heat);
      && pid in s.proc && s'.ring == s.ring && |s'.page| == |s.page|
      && s'.proc == s.proc[pid := Moved(s.proc[pid], up)]
      && |s'.log| == |s.log| + 1
      && |At(s'.lists, Free(up))| == |At(s.lists, Free(up))| - 1
  {
    TurnIs(s, frames, pid, up, heat);
    FreeListShrinks(s, pid, up, LevelNow(s, frames, pid, up, heat));
  }

  lemma FreeListShrinks(s: State, pid: Pid, up: bool, level: nat)
    requires Candidate(s, pid, up).Some? && At(Picking(s, pid, up), Free(up)) == At(s.lists, Free(up)) != []
    ensures |At(ListsAfter(s, pid, up, level), Free(up))| == |At(s.lists, Free(up))| - 1
  {}

  lemma NoRoomIs(s: State, frames: set<Frame>, pid: Pid, up: bool, heat: seq<nat>)
    requires Ready(s, frames, pid, heat) && Candidate(s, pid, up).Some? && At(s.lists, Free(up)) == []
    ensures Picked(s, pid, up) < |s.page|
    ensures var p := Picked(s, pid, up); var hot := HotAfter(s, pid, up, LevelNow(s, frames, pid, up, heat));
      Turn(s, frames, pid, up, heat)
      == s.(lists := Enqueue(Picking(s, pid, up), Hot(pid, !up, hot), p), page := s.page[p := WithHot(s.page[p], hot)])
  {
    var level := LevelNow(s, frames, pid, up, heat);
    PickedIs(s, frames, pid, up, level);
    PickingOk(s, frames, pid, up, level);
  }

  /** A turn without room changes only the candidate's place and level. */
  lemma TurnWithoutRoom(s: State, frames: set<Frame>, pid: Pid, up: bool, heat: seq<nat>)
    requires Ready(s, frames, pid, heat) && Candidate(s, pid, up).Some? && At(s.lists, Free(up)) == []
    ensures var s' := Turn(s, frames, pid, up, heat);
      s'.ring == s.ring && |s'.page| == |s.page| && s'.proc == s.proc && s'.log == s.log && At(s'.lists, Free(up)) == []
  {
    NoRoomIs(s, frames, pid, up, heat);
    PickingOk(s, frames, pid, up, 0);
  }

  /** No page is eligible any more, or the destination tier is full. */
  ghost predicate Stuck(s: State, pid: Pid, up: bool) {
    Candidate(s, pid, up).None? || At(s.lists, Free(up)) == []
  }

  /** After some turns: how the state relates to the one the loop started in. */
  ghost predicate SoFar(s: State, s1: State, pid: Pid, up: bool, moved: int) {
    && pid in s.proc && moved == PAGE_SIZE * (|s1.log| - |s.log|)
    && s1.proc == s.proc[pid := AddBytes(AddBytes(s.proc[pid], up, moved), !up, -moved)]
  }

  lemma SoFarStart(s: State, pid: Pid, up: bool)
    requires pid in s.proc
    ensures SoFar(s, s, pid, up, 0)
  {
    assert s.proc == s.proc[pid := s.proc[pid]];
  }

  lemma SoFarStep(s: State, s1: State, s2: State, pid: Pid, up: bool, moved: int)
    requires SoFar(s, s1, pid, up, moved) && pid in s1.proc
    requires s2.proc == s1.proc[pid := Moved(s1.proc[pid], up)] && |s2.log| == |s1.log| + 1
    ensures SoFar(s, s2, pid, up, moved + PAGE_SIZE)
  {
    var r := s.proc[pid];
    assert Moved(AddBytes(AddBytes(r, up, moved), !up, -moved), up)
      == AddBytes(AddBytes(r, up, moved + PAGE_SIZE), !up, -moved - PAGE_SIZE);
  }
}
