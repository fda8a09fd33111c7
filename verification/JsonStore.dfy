/**
 * The JSON Lines store of access tokens: packages/access-token/src/json-store.js.
 * A file is the sequence of its lines, each the JSON text of one key and value.
 * Renaming the temporary file over the store file is one atomic step.
 */
module JsonStore {
  import opened Wrappers

  datatype Line = Line(key: string, value: string)

  /** The load loop: each line sets its key. */
  function Load(lines: seq<Line>): map<string, string> {
    if lines == [] then map[]
    else Load(lines[..|lines| - 1])[lines[|lines| - 1].key := lines[|lines| - 1].value]
  }

  /** A missing store file loads as the empty map. */
  function LoadFile(file: Option<seq<Line>>): map<string, string> {
    if file.Some? then Load(file.value) else map[]
  }

  /** A key maps to the value of the last line that has it, and to nothing without such a line. */
  lemma {:induction false} LoadIs(lines: seq<Line>, key: string)
    ensures key in Load(lines) <==> exists k :: LastLine(lines, key, k)
    ensures forall k :: LastLine(lines, key, k) ==> key in Load(lines) && Load(lines)[key] == lines[k].value
    decreases |lines|
  {
    if lines != [] {
      var n := |lines| - 1;
      LoadIs(lines[..n], key);
      if lines[n].key == key {
        assert LastLine(lines, key, n);
      } else {
        forall k ensures LastLine(lines, key, k) <==> LastLine(lines[..n], key, k) { }
      }
    }
  }

  ghost predicate LastLine(lines: seq<Line>, key: string, k: int) {
    0 <= k < |lines| && lines[k].key == key && forall j :: k < j < |lines| ==> lines[j].key != key
  }

  ghost function Restrict(m: map<string, string>, keys: set<string>): map<string, string> {
    map k | k in keys && k in m :: m[k]
  }

  /** Writing one more entry: what is written loads as the entries written so far. */
  lemma WriteOne(m: map<string, string>, done: set<string>, lines: seq<Line>, key: string)
    requires Load(lines) == Restrict(m, done) && key in m
    ensures Load(lines + [Line(key, m[key])]) == Restrict(m, done + {key})
  {
  }

  // --------------------------------------------------- crash and reopen runs

  /** A process holding the lock; `left` is the entries its commit has yet to write, if one is under way. */
  datatype Process = Process(state: map<string, string>, left: Option<set<string>>)

  /** `renamed` is the last map whose rename took effect. Nothing reads it. */
  datatype World = World(
    storeFile: Option<seq<Line>>,
    tempFile: Option<seq<Line>>,
    process: Option<Process>,
    renamed: map<string, string>)

  datatype Event =
    | Open(forceReset: bool)
    | DoSet(key: string, value: string)
    | DoDelete(key: string)
    | BeginCommit
    | WriteEntry(key: string)
    | Rename
    | DoClose
    | Crash

  /** The lock admits one process at a time; a commit runs to its end or crashes. */
  ghost predicate Allowed(w: World, e: Event) {
    match e
    case Open(_) => w.process.None?
    case DoSet(_, _) => w.process.Some? && w.process.value.left.None?
    case DoDelete(_) => w.process.Some? && w.process.value.left.None?
    case BeginCommit => w.process.Some? && w.process.value.left.None?
    case WriteEntry(key) => w.process.Some? && w.process.value.left.Some? && key in w.process.value.left.value && w.tempFile.Some?
    case Rename => w.process.Some? && w.process.value.left == Some({}) && w.tempFile.Some?
    case DoClose => w.process.Some? && w.process.value.left.None?
    case Crash => w.process.Some?
  }

  ghost function Apply(w: World, e: Event): World
    requires Allowed(w, e)
  {
    match e
    case Open(forceReset) =>
      if forceReset then w.(storeFile := None, process := Some(Process(map[], None)), renamed := map[])
      else w.(process := Some(Process(LoadFile(w.storeFile), None)))
    case DoSet(key, value) => w.(process := Some(w.process.value.(state := w.process.value.state[key := value])))
    case DoDelete(key) => w.(process := Some(w.process.value.(state := w.process.value.state - {key})))
    case BeginCommit => w.(tempFile := Some([]), process := Some(w.process.value.(left := Some(w.process.value.state.Keys))))
    case WriteEntry(key) =>
      var p := w.process.value;
      w.(tempFile := Some(w.tempFile.value + [Line(key, if key in p.state then p.state[key] else "")]),
         process := Some(p.(left := Some(p.left.value - {key}))))
    case Rename => w.(storeFile := w.tempFile, tempFile := None, process := Some(w.process.value.(left := None)),
                      renamed := w.process.value.state)
    case DoClose => w.(process := None)
    case Crash => w.(process := None)
  }

  /** Each event is allowed in turn, and the last one ends in t. */
  ghost predicate Reaches(w: World, events: seq<Event>, t: World)
    decreases |events|
  {
    if events == [] then t == w
    else Allowed(w, events[0]) && Reaches(Apply(w, events[0]), events[1..], t)
  }

  lemma {:induction false} ReachesOneMore(w: World, events: seq<Event>, t: World, e: Event)
    requires Reaches(w, events, t) && Allowed(t, e)
    ensures Reaches(w, events + [e], Apply(t, e))
    decreases |events|
  {
    hide Allowed, Apply;
    if events == [] {
      assert [] + [e] == [e] && [e][1..] == [];
      assert Reaches(Apply(t, e), [], Apply(t, e));
    } else {
      ReachesOneMore(Apply(w, events[0]), events[1..], t, e);
      assert (events + [e])[1..] == events[1..] + [e];
    }
  }

  // ---------------------------------------------------- the store as objects

  class FileSystem {
    var storeFile: Option<seq<Line>>
    var tempFile: Option<seq<Line>>
    ghost var renamed: map<string, string>

    constructor ()
      ensures storeFile == None && tempFile == None && renamed == LoadFile(storeFile)
    {
      storeFile, tempFile, renamed := None, None, map[];
    }
  }

  datatype CommitOutcome = Committed | AlreadyClosed | Crashed

  class Store {
    const fs: FileSystem
    var state: map<string, string>
    var isOpen: bool

    /** The world this store's process runs in, between its calls. */
    ghost function Abs(): World
      reads this, fs
    {
      World(fs.storeFile, fs.tempFile, if isOpen then Some(Process(state, None)) else None, fs.renamed)
    }

    /** makeJSONStore, holding the lock: reset or load what the store file holds. */
    constructor (fs: FileSystem, forceReset: bool)
      modifies fs
      ensures this.fs == fs && isOpen && state == LoadFile(fs.storeFile)
      ensures Abs() == Apply(World(old(fs.storeFile), old(fs.tempFile), None, old(fs.renamed)), Open(forceReset))
    {
      this.fs, isOpen, state := fs, true, map[];
      new;
      if forceReset {
        fs.storeFile, fs.renamed := None, map[];
      } else if fs.storeFile.Some? {
        var lines := fs.storeFile.value;
        for k := 0 to |lines|
          invariant state == Load(lines[..k]) && isOpen
          invariant fs.storeFile == old(fs.storeFile) && fs.tempFile == old(fs.tempFile) && fs.renamed == old(fs.renamed)
        {
          assert lines[..k + 1][..k] == lines[..k];
          Set(lines[k].key, lines[k].value);
        }
        assert lines[..|lines|] == lines;
      }
    }

    method Set(key: string, value: string)
      modifies this`state
      ensures state == old(state)[key := value]
      ensures isOpen ==> Allowed(old(Abs()), DoSet(key, value)) && Abs() == Apply(old(Abs()), DoSet(key, value))
    {
      state := state[key := value];
    }

    method Delete(key: string)
      modifies this`state
      ensures state == old(state) - {key}
      ensures isOpen ==> Allowed(old(Abs()), DoDelete(key)) && Abs() == Apply(old(Abs()), DoDelete(key))
    {
      state := state - {key};
    }

    method Get(key: string) returns (value: Option<string>)
      ensures value == if key in state then Some(state[key]) else None
    {
      value := if key in state then Some(state[key]) else None;
    }

    /**
     * Writes every entry, in any order, to the temporary file and renames it. The
     * process may stop after any number of file operations: `steps` of them are
     * made. The `events` of the commit, up to where it stopped, lead from the
     * world before to the world after.
     */
    method Commit(steps: nat) returns (outcome: CommitOutcome, ghost events: seq<Event>)
      modifies fs
      ensures outcome.AlreadyClosed? <==> !isOpen
      ensures isOpen ==> (outcome.Committed? <==> steps >= |state| + 3)
      ensures outcome.AlreadyClosed? ==> Abs() == old(Abs())
      ensures outcome.Crashed? ==> fs.storeFile == old(fs.storeFile)
      ensures outcome.Committed? ==> fs.storeFile.Some? && fs.tempFile == None && LoadFile(fs.storeFile) == state
      ensures outcome.Committed? ==>
                && |events| == |state| + 2 && IsCommit(events[..|events| - 1]) && events[|events| - 1] == Rename
                && Reaches(old(Abs()), events, Abs())
      ensures outcome.Crashed? ==>
                && |events| == (if steps <= |state| + 1 then steps else |state| + 1) && IsCommit(events)
                && Reaches(old(Abs()), events + [Crash], Abs().(process := None))
    {
      events := [];
      if !isOpen { return AlreadyClosed, events; }
      ghost var start := Abs();
      NothingWritten(start, state);
      hide Reaches, IsCommit, Load, Restrict, Apply, Allowed;
      if steps < 1 {
        StopHere(start, events, start);
        return Crashed, events;
      }
      BeginHere(start, state);
      fs.tempFile := Some([]);                       // open, truncating
      ghost var left;
      events, left := WriteEntries(steps, start);
      if steps < |state| + 3 {                        // close, rename
        StopHere(start, events, During(left));
        return Crashed, events;
      }
      RestrictToAll(state, left);
      RenameHere(start, events, During(left));
      fs.storeFile, fs.tempFile, fs.renamed := fs.tempFile, None, state;
      assert (events + [Rename])[..|events|] == events;
      return Committed, events + [Rename];
    }

    /** The world while a commit has these entries left to write. */
    ghost function During(left: set<string>): World
      reads this, fs
    {
      World(fs.storeFile, fs.tempFile, Some(Process(state, Some(left))), fs.renamed)
    }

    /** The loop of commit, as far as `steps` file operations go. */
    method WriteEntries(steps: nat, ghost start: World) returns (ghost events: seq<Event>, ghost left: set<string>)
      requires steps >= 1 && fs.tempFile == Some([]) && Load([]) == Restrict(state, {})
      requires Reaches(start, [BeginCommit], During(state.Keys)) && IsCommit([BeginCommit])
      modifies fs`tempFile
      ensures left <= state.Keys && IsCommit(events) && Reaches(start, events, During(left))
      ensures |events| == |state| - |left| + 1 && |events| == (if steps <= |state| + 1 then steps else |state| + 1)
      ensures fs.tempFile.Some? && Load(fs.tempFile.value) == Restrict(state, state.Keys - left)
    {
      hide Reaches, IsCommit, Load, Restrict, Apply, Allowed;
      var entries := state.Keys;
      events := [BeginCommit];
      assert state.Keys - entries == {};
      while entries != {} && |state| - |entries| + 2 <= steps
        invariant entries <= state.Keys && 1 <= |events| == |state| - |entries| + 1 <= steps && IsCommit(events)
        invariant fs.tempFile.Some? && Load(fs.tempFile.value) == Restrict(state, state.Keys - entries)
        invariant Reaches(start, events, During(entries))
        decreases entries
      {
        var key :| key in entries;
        WriteHere(start, events, During(entries), state, key);
        WriteOne(state, state.Keys - entries, fs.tempFile.value, key);
        assert state.Keys - entries + {key} == state.Keys - (entries - {key});
        events := events + [WriteEntry(key)];
        fs.tempFile := Some(fs.tempFile.value + [Line(key, state[key])]);
        entries := entries - {key};
      }
      left := entries;
    }

    method Close() returns (outcome: Result<(), CommitOutcome>)
      modifies this`isOpen
      ensures outcome == if old(isOpen) then Ok(()) else Err(AlreadyClosed)
      ensures !isOpen
      ensures old(isOpen) ==> Allowed(old(Abs()), DoClose) && Abs() == Apply(old(Abs()), DoClose)
    {
      if !isOpen { return Err(AlreadyClosed); }
      isOpen := false;
      return Ok(());
    }
  }

  /** The temporary file is begun and some entries are written. */
  ghost predicate IsCommit(events: seq<Event>) {
    events != [] ==> events[0] == BeginCommit && forall k :: 1 <= k < |events| ==> events[k].WriteEntry?
  }

  lemma NothingWritten(start: World, state: map<string, string>)
    ensures Reaches(start, [], start) && IsCommit([]) && Load([]) == Restrict(state, {})
  {
  }

  lemma BeginHere(start: World, state: map<string, string>)
    requires start.process == Some(Process(state, None))
    ensures IsCommit([BeginCommit])
    ensures Reaches(start, [BeginCommit], start.(tempFile := Some([]), process := Some(Process(state, Some(state.Keys)))))
  {
    assert [BeginCommit][1..] == [];
  }

  lemma StopHere(start: World, events: seq<Event>, at: World)
    requires Reaches(start, events, at) && at.process.Some?
    ensures Reaches(start, events + [Crash], at.(process := None))
  {
    ReachesOneMore(start, events, at, Crash);
  }

  lemma WriteHere(start: World, events: seq<Event>, at: World, state: map<string, string>, key: string)
    requires Reaches(start, events, at) && IsCommit(events) && events != [] && key in state && at.tempFile.Some?
    requires at.process.Some? && at.process.value.state == state && at.process.value.left.Some? && key in at.process.value.left.value
    ensures IsCommit(events + [WriteEntry(key)])
    ensures Reaches(start, events + [WriteEntry(key)],
                    at.(tempFile := Some(at.tempFile.value + [Line(key, state[key])]),
                        process := Some(Process(state, Some(at.process.value.left.value - {key})))))
  {
    ReachesOneMore(start, events, at, WriteEntry(key));
  }

  lemma RenameHere(start: World, events: seq<Event>, at: World)
    requires Reaches(start, events, at) && at.process.Some? && at.process.value.left == Some({}) && at.tempFile.Some?
    ensures Reaches(start, events + [Rename],
                    World(at.tempFile, None, Some(Process(at.process.value.state, None)), at.process.value.state))
  {
    ReachesOneMore(start, events, at, Rename);
  }

  lemma RestrictToAll(m: map<string, string>, left: set<string>)
    requires left == {}
    ensures Restrict(m, m.Keys - left) == m
  {
  }

  // ------------------------------------------------------------------ runs

  ghost predicate Inv(w: World) {
    && LoadFile(w.storeFile) == w.renamed
    && (w.process.Some? && w.process.value.left.Some? ==>
          var p := w.process.value;
          && p.left.value <= p.state.Keys && w.tempFile.Some?
          && Load(w.tempFile.value) == Restrict(p.state, p.state.Keys - p.left.value))
  }

  ghost predicate IsRun(worlds: seq<World>, events: seq<Event>) {
    && |worlds| == |events| + 1
    && worlds[0].process == None && worlds[0].renamed == LoadFile(worlds[0].storeFile)
    && forall k :: 0 <= k < |events| ==> Allowed(worlds[k], events[k]) && worlds[k + 1] == Apply(worlds[k], events[k])
  }

  /** What a store's calls reach continues a run of the world they started in. */
  lemma {:induction false} ReachesContinuesRun(worlds: seq<World>, events: seq<Event>, more: seq<Event>, t: World)
    returns (longer: seq<World>)
    requires IsRun(worlds, events) && Reaches(worlds[|worlds| - 1], more, t)
    ensures IsRun(longer, events + more) && longer[|longer| - 1] == t && longer[..|worlds|] == worlds
    decreases |more|
  {
    hide Allowed, Apply;
    if more == [] {
      assert events + [] == events;
      longer := worlds;
    } else {
      var next := Apply(worlds[|worlds| - 1], more[0]);
      longer := ReachesContinuesRun(worlds + [next], events + [more[0]], more[1..], t);
      assert (events + [more[0]]) + more[1..] == events + more;
      assert longer[..|worlds|] == longer[..|worlds| + 1][..|worlds|];
    }
  }

  lemma ApplyInv(w: World, e: Event)
    requires Inv(w) && Allowed(w, e)
    ensures Inv(Apply(w, e))
  {
  }

  lemma {:induction false} RunInv(worlds: seq<World>, events: seq<Event>, k: nat)
    requires IsRun(worlds, events) && k < |worlds|
    ensures Inv(worlds[k])
  {
    hide Apply, Allowed;
    if k > 0 {
      RunInv(worlds, events, k - 1);
      ApplyInv(worlds[k - 1], events[k - 1]);
    }
  }

  /** The last event before k whose rename, or reset, took effect. */
  ghost predicate LastRename(worlds: seq<World>, events: seq<Event>, j: nat, k: nat)
    requires |worlds| == |events| + 1
  {
    && j < k <= |events| && events[j] == Rename && worlds[j].process.Some?
    && forall l :: j < l < k ==> events[l] != Rename && events[l] != Open(true)
  }

  /**
   * Whatever was set, deleted, committed, closed or crashed before, a reopened
   * store holds the map whose rename was the last to take effect.
   */
  lemma ReopenedIsLastRenamed(worlds: seq<World>, events: seq<Event>, j: nat, k: nat)
    requires IsRun(worlds, events) && k < |events| && events[k] == Open(false)
    requires LastRename(worlds, events, j, k)
    ensures worlds[k + 1].process == Some(Process(worlds[j].process.value.state, None))
  {
    RunInv(worlds, events, k);
    RenamedSince(worlds, events, j, k);
  }

  lemma {:induction false} RenamedSince(worlds: seq<World>, events: seq<Event>, j: nat, k: nat)
    requires IsRun(worlds, events) && LastRename(worlds, events, j, k)
    ensures worlds[k].renamed == worlds[j].process.value.state
    decreases k
  {
    if k > j + 1 { RenamedSince(worlds, events, j, k - 1); }
    assert worlds[k] == Apply(worlds[k - 1], events[k - 1]);
  }

  /** The run starts at 0, and again at each reset. */
  ghost predicate StartOrReset(events: seq<Event>, j: nat) {
    j == 0 || (j <= |events| && events[j - 1] == Open(true))
  }

  /** With no rename since the start or the last reset, it holds what the file held at first, or nothing after the reset. */
  lemma {:induction false} ReopenedWithoutRename(worlds: seq<World>, events: seq<Event>, j: nat, k: nat)
    requires IsRun(worlds, events) && j <= k <= |events| && StartOrReset(events, j)
    requires forall l :: j <= l < k ==> events[l] != Rename && events[l] != Open(true)
    ensures LoadFile(worlds[k].storeFile) == if j == 0 then LoadFile(worlds[0].storeFile) else map[]
    ensures k < |events| && events[k] == Open(false) ==>
              worlds[k + 1].process == Some(Process(if j == 0 then LoadFile(worlds[0].storeFile) else map[], None))
    decreases k
  {
    if k > j {
      ReopenedWithoutRename(worlds, events, j, k - 1);
      assert worlds[k] == Apply(worlds[k - 1], events[k - 1]);
    } else if j > 0 {
      assert worlds[j] == Apply(worlds[j - 1], events[j - 1]);
    }
  }
}
