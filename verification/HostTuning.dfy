/** CPU power tuning of the host and its undo script: host-tools/scripts/chutes/host/tune.py. */
module HostTuning {
  import opened Text

  // ---------------------------------------------------------------------------
  // The host and its settings
  // ---------------------------------------------------------------------------

  /** What the two globs list, the readable C-state names, and the files that can be read. */
  datatype Machine = Machine(governors: seq<string>, idleDirs: seq<string>, names: map<string, string>,
                             readable: set<string>)

  /** A file and the value tuning gives it. */
  datatype Setting = Setting(path: string, value: string)

  /** File contents, and the undo script as the writes it replays. */
  datatype State = State(files: map<string, string>, script: Option<seq<Setting>>)

  /** One apply or restore with what the operating system answers, or a write by someone else. A write to
      a path in `denied` fails; a failed write ends an apply run as root and passes unnoticed otherwise. */
  datatype Event =
    | Apply(root: bool, denied: set<string>, scriptWritable: bool)
    | Restore(denied: set<string>, removable: bool)
    | Write(path: string, value: string)

  predicate Disabled(m: Machine, dir: string) {
    dir in m.names && (m.names[dir] == "C1E" || m.names[dir] == "C6")
  }

  function DisableFile(dir: string): string {
    dir + "/disable"
  }

  function GovernorSettings(governors: seq<string>): (r: seq<Setting>) {
    if governors == [] then []
    else GovernorSettings(governors[..|governors| - 1]) + [Setting(governors[|governors| - 1], "performance")]
  }

  function IdleSettings(m: Machine, dirs: seq<string>): (r: seq<Setting>) {
    if dirs == [] then []
    else
      var dir := dirs[|dirs| - 1];
      IdleSettings(m, dirs[..|dirs| - 1]) + if Disabled(m, dir) then [Setting(DisableFile(dir), "1")] else []
  }

  /** The writes of one apply, in order. */
  function Settings(m: Machine): seq<Setting> {
    GovernorSettings(m.governors) + IdleSettings(m, m.idleDirs)
  }

  function Value(files: map<string, string>, p: string): Option<string> {
    if p in files then Some(files[p]) else None
  }

  // ---------------------------------------------------------------------------
  // Apply and restore
  // ---------------------------------------------------------------------------

  datatype Progress = Progress(files: map<string, string>, aborted: bool)

  function TuneAll(ts: seq<Setting>, root: bool, denied: set<string>, files: map<string, string>): Progress {
    if ts == [] then Progress(files, false)
    else
      var done, t := TuneAll(ts[..|ts| - 1], root, denied, files), ts[|ts| - 1];
      if done.aborted then done
      else if t.path in denied then done.(aborted := root)
      else done.(files := done.files[t.path := t.value])
  }

  /** The readable settings among `ts`, with their values in `files`. */
  function Snapshot(m: Machine, ts: seq<Setting>, files: map<string, string>): seq<Setting> {
    if ts == [] then []
    else
      var p := ts[|ts| - 1].path;
      Snapshot(m, ts[..|ts| - 1], files) + if p in m.readable && p in files then [Setting(p, files[p])] else []
  }

  function Replay(saved: seq<Setting>, denied: set<string>, files: map<string, string>): map<string, string> {
    if saved == [] then files
    else
      var done, t := Replay(saved[..|saved| - 1], denied, files), saved[|saved| - 1];
      if t.path in denied then done else done[t.path := t.value]
  }

  function Next(m: Machine, s: State, e: Event): State {
    match e
    case Apply(root, denied, scriptWritable) =>
      var done := TuneAll(Settings(m), root, denied, s.files);
      State(done.files,
            if s.script.Some? || done.aborted || !scriptWritable then s.script
            else Some(Snapshot(m, Settings(m), s.files)))
    case Restore(denied, removable) =>
      if s.script.None? then s
      else State(Replay(s.script.value, denied, s.files), if removable then None else s.script)
    case Write(p, v) => s.(files := s.files[p := v])
  }

  /** Glob results are distinct, and the governor files are named `scaling_governor`. */
  ghost predicate Valid(m: Machine) {
    && (forall i, j :: 0 <= i < j < |m.governors| ==> m.governors[i] != m.governors[j])
    && (forall i, j :: 0 <= i < j < |m.idleDirs| ==> m.idleDirs[i] != m.idleDirs[j])
    && (forall i :: 0 <= i < |m.governors| ==> m.governors[i] != [] && m.governors[i][|m.governors[i]| - 1] == 'r')
  }

  ghost predicate Distinct(ts: seq<Setting>) {
    forall i, j :: 0 <= i < j < |ts| ==> ts[i].path != ts[j].path
  }

  ghost predicate Names(ts: seq<Setting>, p: string) {
    exists i :: 0 <= i < |ts| && ts[i].path == p
  }

  lemma {:induction false} GovernorsShape(governors: seq<string>)
    ensures |GovernorSettings(governors)| == |governors|
    ensures forall i :: 0 <= i < |governors| ==> GovernorSettings(governors)[i] == Setting(governors[i], "performance")
  {
    if governors != [] {
      GovernorsShape(governors[..|governors| - 1]);
    }
  }

  lemma {:induction false} IdleNamed(m: Machine, dirs: seq<string>, i: nat) returns (k: nat)
    requires i < |IdleSettings(m, dirs)|
    ensures k < |dirs| && IdleSettings(m, dirs)[i].path == DisableFile(dirs[k])
  {
    var t := dirs[..|dirs| - 1];
    if i < |IdleSettings(m, t)| {
      k := IdleNamed(m, t, i);
    } else {
      k := |t|;
    }
  }

  lemma DisableFileInjective(a: string, b: string)
    requires a != b
    ensures DisableFile(a) != DisableFile(b)
  {
    assert |a| == |b| ==> DisableFile(a)[..|a|] == a && DisableFile(b)[..|a|] == b;
  }

  lemma {:induction false} IdleDistinct(m: Machine, dirs: seq<string>)
    requires forall i, j :: 0 <= i < j < |dirs| ==> dirs[i] != dirs[j]
    ensures Distinct(IdleSettings(m, dirs))
  {
    if dirs != [] {
      var t, last := dirs[..|dirs| - 1], dirs[|dirs| - 1];
      IdleDistinct(m, t);
      forall i | 0 <= i < |IdleSettings(m, t)|
        ensures IdleSettings(m, t)[i].path != DisableFile(last)
      {
        var k := IdleNamed(m, t, i);
        assert dirs[k] == t[k];
        DisableFileInjective(t[k], last);
      }
    }
  }

  lemma SettingsDistinct(m: Machine)
    requires Valid(m)
    ensures Distinct(Settings(m))
  {
    var g, s := GovernorSettings(m.governors), IdleSettings(m, m.idleDirs);
    GovernorsShape(m.governors);
    IdleDistinct(m, m.idleDirs);
    forall i, j | 0 <= i < |g| && 0 <= j < |s| ensures g[i].path != s[j].path {
      var k := IdleNamed(m, m.idleDirs, j);
      var p := m.governors[i];
      assert DisableFile(m.idleDirs[k])[|DisableFile(m.idleDirs[k])| - 1] == 'e';
      assert p[|p| - 1] == 'r';
    }
  }

  // ---------------------------------------------------------------------------
  // What one apply and one restore do to a file
  // ---------------------------------------------------------------------------

  lemma {:induction false} TuneKeepsOthers(ts: seq<Setting>, root: bool, denied: set<string>,
                                           files: map<string, string>,
                                           p: string)
    requires !Names(ts, p) || p in denied
    ensures Value(TuneAll(ts, root, denied, files).files, p) == Value(files, p)
  {
    if ts != [] {
      var t := ts[..|ts| - 1];
      assert p in denied || !Names(t, p) by {
        assert forall i :: 0 <= i < |t| ==> t[i] == ts[i];
      }
      TuneKeepsOthers(t, root, denied, files, p);
      assert ts[|ts| - 1].path == p ==> Names(ts, p);
    }
  }

  lemma {:induction false} AbortedIff(ts: seq<Setting>, root: bool, denied: set<string>, files: map<string, string>)
    ensures TuneAll(ts, root, denied, files).aborted <==> root && exists i :: 0 <= i < |ts| && ts[i].path in denied
  {
    if ts != [] {
      var t := ts[..|ts| - 1];
      AbortedIff(t, root, denied, files);
      assert forall i :: 0 <= i < |t| ==> t[i] == ts[i];
      assert ts[|t|] == ts[|ts| - 1];
    }
  }

  lemma {:induction false} SnapshotAt(m: Machine, ts: seq<Setting>, files: map<string, string>, i: nat)
    requires i < |Snapshot(m, ts, files)|
    ensures var t := Snapshot(m, ts, files)[i];
            Names(ts, t.path) && t.path in m.readable && Value(files, t.path) == Some(t.value)
  {
    var t := ts[..|ts| - 1];
    if i < |Snapshot(m, t, files)| {
      SnapshotAt(m, t, files, i);
      assert forall j :: 0 <= j < |t| ==> t[j] == ts[j];
    } else {
      assert ts[|t|] == ts[|ts| - 1];
    }
  }

  lemma {:induction false} SnapshotNames(m: Machine, ts: seq<Setting>, files: map<string, string>, p: string)
    ensures Names(Snapshot(m, ts, files), p) <==> Names(ts, p) && p in m.readable && p in files
  {
    if ts != [] {
      var t, last := ts[..|ts| - 1], ts[|ts| - 1];
      SnapshotNames(m, t, files, p);
      NamesAppend(t, last, p);
      assert t + [last] == ts;
      var before := Snapshot(m, t, files);
      if last.path in m.readable && last.path in files {
        NamesAppend(before, Setting(last.path, files[last.path]), p);
      } else {
        assert Snapshot(m, ts, files) == before;
      }
    }
  }

  lemma NamesAppend(ts: seq<Setting>, t: Setting, p: string)
    ensures Names(ts + [t], p) <==> Names(ts, p) || t.path == p
  {
    var u := ts + [t];
    assert u[|ts|] == t;
    assert forall i :: 0 <= i < |ts| ==> u[i] == ts[i];
  }

  /** Replaying writes sets every path it names and may write, and no other. When all the writes to a path
      agree, that is its value. */
  lemma {:induction false} ReplayValue(saved: seq<Setting>, denied: set<string>, files: map<string, string>, p: string,
                                       v: string)
    requires forall i :: 0 <= i < |saved| && saved[i].path == p ==> saved[i].value == v
    ensures Value(Replay(saved, denied, files), p)
            == if Names(saved, p) && p !in denied then Some(v) else Value(files, p)
  {
    if saved != [] {
      var t, last := saved[..|saved| - 1], saved[|saved| - 1];
      ReplayValue(t, denied, files, p, v);
      NamesAppend(t, last, p);
      assert t + [last] == saved;
    }
  }

  lemma {:induction false} TuneValue(ts: seq<Setting>, files: map<string, string>, p: string, v: string)
    requires forall i :: 0 <= i < |ts| && ts[i].path == p ==> ts[i].value == v
    ensures Value(TuneAll(ts, true, {}, files).files, p) == if Names(ts, p) then Some(v) else Value(files, p)
    ensures !TuneAll(ts, true, {}, files).aborted
  {
    if ts != [] {
      var t, last := ts[..|ts| - 1], ts[|ts| - 1];
      assert forall i :: 0 <= i < |t| ==> t[i] == ts[i];
      TuneValue(t, files, p, v);
      NamesAppend(t, last, p);
      assert t + [last] == ts;
    }
  }

  /** The file is that of a C-state to be disabled: C1E or C6. */
  ghost predicate IsDeepState(m: Machine, p: string) {
    exists dir :: dir in m.idleDirs && p == dir + "/disable" && dir in m.names
                  && (m.names[dir] == "C1E" || m.names[dir] == "C6")
  }

  lemma {:induction false} IdleNames(m: Machine, dirs: seq<string>, p: string)
    ensures Names(IdleSettings(m, dirs), p)
       <==> exists dir :: dir in dirs && p == dir + "/disable" && dir in m.names
                          && (m.names[dir] == "C1E" || m.names[dir] == "C6")
    ensures forall i :: 0 <= i < |IdleSettings(m, dirs)| ==> IdleSettings(m, dirs)[i].value == "1"
  {
    if dirs != [] {
      var t, last := dirs[..|dirs| - 1], dirs[|dirs| - 1];
      IdleNames(m, t, p);
      SplitLast(dirs);
      if Disabled(m, last) {
        NamesAppend(IdleSettings(m, t), Setting(DisableFile(last), "1"), p);
      } else {
        assert IdleSettings(m, t) + [] == IdleSettings(m, t);
      }
    }
  }

  /** An apply that may write everything sets every governor to "performance", disables every C-state called C1E
      or C6, and changes no other file. */
  lemma ApplyTunes(m: Machine, s: State, scriptWritable: bool, p: string)
    requires Valid(m)
    ensures Value(Next(m, s, Apply(true, {}, scriptWritable)).files, p)
         == if p in m.governors then Some("performance")
            else if IsDeepState(m, p) then Some("1")
            else Value(s.files, p)
  {
    var g, idle := GovernorSettings(m.governors), IdleSettings(m, m.idleDirs);
    GovernorsShape(m.governors);
    IdleNames(m, m.idleDirs, p);
    TwoLists(g, idle, p);
    if p in m.governors {
      var i :| 0 <= i < |m.governors| && m.governors[i] == p;
      assert g[i].path == p;
      NotBoth(m, p);
    }
    TuneValue(Settings(m), s.files, p, if p in m.governors then "performance" else "1");
  }

  lemma TwoLists(a: seq<Setting>, b: seq<Setting>, p: string)
    ensures Names(a + b, p) <==> Names(a, p) || Names(b, p)
  {
    assert forall i :: 0 <= i < |a| ==> (a + b)[i] == a[i];
    assert forall i :: 0 <= i < |b| ==> (a + b)[|a| + i] == b[i];
  }

  lemma NotBoth(m: Machine, p: string)
    requires Valid(m) && p in m.governors
    ensures !Names(IdleSettings(m, m.idleDirs), p)
  {
    var idle := IdleSettings(m, m.idleDirs);
    var g :| 0 <= g < |m.governors| && m.governors[g] == p;
    forall i | 0 <= i < |idle| ensures idle[i].path != p {
      var k := IdleNamed(m, m.idleDirs, i);
      assert DisableFile(m.idleDirs[k])[|DisableFile(m.idleDirs[k])| - 1] == 'e';
      assert m.governors[g][|p| - 1] == 'r';
    }
  }

  // ---------------------------------------------------------------------------
  // Runs
  // ---------------------------------------------------------------------------

  ghost predicate Trace(m: Machine, states: seq<State>, events: seq<Event>) {
    && |states| == |events| + 1 && states[0].script.None?
    && forall i :: 0 <= i < |events| ==> states[i + 1] == Next(m, states[i], events[i])
  }

  /** The apply reaches its end. */
  ghost predicate Completes(m: Machine, e: Event) {
    e.Apply? && (e.root ==> forall i :: 0 <= i < |Settings(m)| ==> Settings(m)[i].path !in e.denied)
  }

  /** The apply writes an undo script. */
  ghost predicate Records(m: Machine, s: State, e: Event) {
    Completes(m, e) && s.script.None? && e.scriptWritable
  }

  lemma StepScript(m: Machine, s: State, e: Event)
    ensures Records(m, s, e) ==> Next(m, s, e).script == Some(Snapshot(m, Settings(m), s.files))
    ensures !Records(m, s, e) ==> Next(m, s, e).script == s.script || Next(m, s, e).script.None?
  {
    if e.Apply? {
      AbortedIff(Settings(m), e.root, e.denied, s.files);
    }
  }

  /** A script in place at any point of a run is the snapshot of the state before one recorded apply, and
      has been there ever since. */
  lemma {:induction false} ScriptOrigin(m: Machine, states: seq<State>, events: seq<Event>, n: nat) returns (k: nat)
    requires Trace(m, states, events) && n < |states| && states[n].script.Some?
    ensures k < n && Records(m, states[k], events[k])
    ensures forall j :: k < j <= n ==> states[j].script == Some(Snapshot(m, Settings(m), states[k].files))
  {
    StepScript(m, states[n - 1], events[n - 1]);
    if Records(m, states[n - 1], events[n - 1]) {
      k := n - 1;
    } else {
      k := ScriptOrigin(m, states, events, n - 1);
    }
  }

  /** The files a snapshot of `files` covers. */
  ghost predicate Tracked(m: Machine, files: map<string, string>, p: string) {
    Names(Settings(m), p) && p in m.readable && p in files
  }

  lemma SnapshotReplayed(m: Machine, before: map<string, string>, now: map<string, string>, denied: set<string>,
                         p: string)
    ensures Value(Replay(Snapshot(m, Settings(m), before), denied, now), p)
         == if Tracked(m, before, p) && p !in denied then Value(before, p) else Value(now, p)
  {
    var saved := Snapshot(m, Settings(m), before);
    var v := if p in before then before[p] else "";
    forall i | 0 <= i < |saved| && saved[i].path == p ensures saved[i].value == v {
      SnapshotAt(m, Settings(m), before, i);
    }
    ReplayValue(saved, denied, now, p, v);
    SnapshotNames(m, Settings(m), before, p);
  }

  /** Every effective restore of every run returns every tuned, readable file to its value before the
      recorded apply, whatever applies, restores and foreign writes came between, and changes nothing else. */
  lemma RestoreReturns(m: Machine, states: seq<State>, events: seq<Event>, n: nat) returns (k: nat)
    requires Trace(m, states, events) && n < |events| && events[n].Restore? && states[n].script.Some?
    ensures k < n && Records(m, states[k], events[k])
    ensures forall j :: k < j <= n ==> states[j].script.Some?
    ensures forall p :: Value(states[n + 1].files, p)
                     == if Tracked(m, states[k].files, p) && p !in events[n].denied then Value(states[k].files, p)
                        else Value(states[n].files, p)
  {
    k := ScriptOrigin(m, states, events, n);
    forall p ensures Value(states[n + 1].files, p)
                  == if Tracked(m, states[k].files, p) && p !in events[n].denied then Value(states[k].files, p)
                     else Value(states[n].files, p)
    {
      SnapshotReplayed(m, states[k].files, states[n].files, events[n].denied, p);
    }
  }

  // ---------------------------------------------------------------------------
  // What happens to a file between restores
  // ---------------------------------------------------------------------------

  /** The apply writes setting `t`: the write is not denied, and no denied write ends it before. */
  ghost predicate Reaches(m: Machine, e: Event, t: nat)
    requires t < |Settings(m)|
  {
    && e.Apply? && Settings(m)[t].path !in e.denied
    && (e.root ==> forall i :: 0 <= i < t ==> Settings(m)[i].path !in e.denied)
  }

  /** An apply tunes exactly the files that it reaches, even if it is ended later. */
  lemma {:induction false} TuneLeaves(ts: seq<Setting>, root: bool, denied: set<string>, files: map<string, string>,
                                      t: nat)
    requires Distinct(ts) && t < |ts|
    ensures Value(TuneAll(ts, root, denied, files).files, ts[t].path)
         == if ts[t].path !in denied && (root ==> forall i :: 0 <= i < t ==> ts[i].path !in denied)
            then Some(ts[t].value) else Value(files, ts[t].path)
  {
    var init := ts[..|ts| - 1];
    assert forall i :: 0 <= i < |init| ==> init[i] == ts[i];
    if t < |init| {
      TuneLeaves(init, root, denied, files, t);
      assert ts[|init|].path != ts[t].path;
    } else {
      assert !Names(init, ts[t].path);
      TuneKeepsOthers(init, root, denied, files, ts[t].path);
      AbortedIff(init, root, denied, files);
    }
  }

  /** A restore that finds a script. */
  ghost predicate Effective(s: State, e: Event) {
    e.Restore? && s.script.Some?
  }

  /** What a step other than an effective restore writes to the file of setting `t`, if it does. */
  ghost function Touch(m: Machine, e: Event, t: nat): Option<string>
    requires t < |Settings(m)|
  {
    if e.Write? && e.path == Settings(m)[t].path then Some(e.value)
    else if Reaches(m, e, t) then Some(Settings(m)[t].value)
    else None
  }

  /** What the last step of a stretch that writes the file writes to it. */
  ghost function LastTouch(m: Machine, events: seq<Event>, i: nat, j: nat, t: nat): Option<string>
    requires i <= j <= |events| && t < |Settings(m)|
  {
    if i == j then None
    else
      var touch := Touch(m, events[j - 1], t);
      if touch.Some? then touch else LastTouch(m, events, i, j - 1, t)
  }

  lemma StepTouched(m: Machine, s: State, e: Event, t: nat)
    requires Valid(m) && t < |Settings(m)| && !Effective(s, e)
    ensures Value(Next(m, s, e).files, Settings(m)[t].path)
         == if Touch(m, e, t).Some? then Touch(m, e, t) else Value(s.files, Settings(m)[t].path)
  {
    SettingsDistinct(m);
    if e.Apply? {
      TuneLeaves(Settings(m), e.root, e.denied, s.files, t);
    }
  }

  /** Without effective restores, the last touch decides. */
  lemma {:induction false} ValueTouched(m: Machine, states: seq<State>, events: seq<Event>, i: nat, j: nat, t: nat)
    requires Valid(m) && Trace(m, states, events) && i <= j <= |events| && t < |Settings(m)|
    requires forall k :: i <= k < j ==> !Effective(states[k], events[k])
    ensures Value(states[j].files, Settings(m)[t].path)
         == if LastTouch(m, events, i, j, t).Some? then LastTouch(m, events, i, j, t)
            else Value(states[i].files, Settings(m)[t].path)
  {
    if i < j {
      ValueTouched(m, states, events, i, j - 1, t);
      StepTouched(m, states[j - 1], events[j - 1], t);
    }
  }

  // ---------------------------------------------------------------------------
  // The first apply since the last restore
  // ---------------------------------------------------------------------------

  /** An apply with no effective restore after it, up to `n`. */
  ghost predicate Since(states: seq<State>, events: seq<Event>, a: nat, n: nat)
    requires n <= |events| < |states|
  {
    a < n && events[a].Apply? && forall j :: a <= j < n ==> !Effective(states[j], events[j])
  }

  /** The first apply since the previous effective restore. */
  ghost predicate FirstSince(states: seq<State>, events: seq<Event>, a: nat, n: nat)
    requires n <= |events| < |states|
  {
    Since(states, events, a, n) && forall b: nat :: Since(states, events, b, n) ==> a <= b
  }

  /** The last effective restore before `n`. */
  ghost function LastRestore(states: seq<State>, events: seq<Event>, n: nat): (r: Option<nat>)
    requires n <= |events| < |states|
    ensures r.Some? ==> r.value < n && Effective(states[r.value], events[r.value])
    ensures forall j :: (if r.Some? then r.value + 1 else 0) <= j < n ==> !Effective(states[j], events[j])
  {
    if n == 0 then None
    else if Effective(states[n - 1], events[n - 1]) then Some(n - 1)
    else LastRestore(states, events, n - 1)
  }

  /** An apply before the first one is separated from it by an effective restore. */
  lemma RestoreBetween(states: seq<State>, events: seq<Event>, k: nat, a: nat, n: nat)
    requires n <= |events| < |states| && FirstSince(states, events, a, n) && k < a && events[k].Apply?
    ensures LastRestore(states, events, a).Some? && LastRestore(states, events, a).value > k
  {
    var r := LastRestore(states, events, a);
    if forall j :: k <= j < a ==> !Effective(states[j], events[j]) {
      assert Since(states, events, k, n);
    }
  }

  /** Between that restore, whose script stays in place, and the first apply there are foreign writes only. */
  lemma OnlyWritesBetween(states: seq<State>, events: seq<Event>, r: nat, a: nat, n: nat)
    requires n <= |events| < |states| && FirstSince(states, events, a, n) && r < a
    requires forall j :: r < j <= n ==> states[j].script.Some?
    requires forall j :: r < j < a ==> !Effective(states[j], events[j])
    ensures forall j :: r < j < a ==> events[j].Write?
  {
    forall j | r < j < a ensures events[j].Write? {
      assert !Since(states, events, j, n);
    }
  }

  // ---------------------------------------------------------------------------
  // Exactly when a file comes back
  // ---------------------------------------------------------------------------

  /** A stretch of steps leaves the file alone, or with the value it had. */
  ghost predicate LeftAt(m: Machine, events: seq<Event>, i: nat, j: nat, t: nat, v: Option<string>)
    requires i <= j <= |events| && t < |Settings(m)|
  {
    LastTouch(m, events, i, j, t).None? || LastTouch(m, events, i, j, t) == v
  }

  /** An earlier restore `r` could not remove its script. The file has the saved value before the first apply
      after it: by the last foreign write, or untouched since the restore, which wrote it or found it there. */
  ghost predicate SavedBefore(m: Machine, states: seq<State>, events: seq<Event>, r: nat, a: nat, t: nat,
                              saved: Option<string>)
    requires r < a <= |events| < |states| && events[r].Restore? && t < |Settings(m)|
  {
    var last := LastTouch(m, events, r + 1, a, t);
    if last.Some? then last == saved
    else Settings(m)[t].path !in events[r].denied || Value(states[r].files, Settings(m)[t].path) == saved
  }

  /** The condition under which restore `n` returns the file of setting `t` to its value before the first
      apply `a`, when its script was recorded by apply `k`. */
  ghost predicate ComesBack(m: Machine, states: seq<State>, events: seq<Event>, k: nat, a: nat, n: nat, t: nat)
    requires k < n && a < n < |events| < |states| && events[n].Restore? && t < |Settings(m)|
  {
    var p := Settings(m)[t].path;
    if !Tracked(m, states[k].files, p) || p in events[n].denied then
      LeftAt(m, events, a, n, t, Value(states[a].files, p))
    else if a <= k then LeftAt(m, events, a, k, t, Value(states[a].files, p))
    else
      var r := LastRestore(states, events, a);
      r.Some? && SavedBefore(m, states, events, r.value, a, t, Value(states[k].files, p))
  }

  /** The script of two restores with no removal between them is the same. */
  lemma SameOrigin(m: Machine, states: seq<State>, events: seq<Event>, k: nat, r: nat, n: nat) returns (k': nat)
    requires Trace(m, states, events) && k < r < n < |events| && Records(m, states[k], events[k])
    requires forall j :: k < j <= n ==> states[j].script.Some?
    requires Effective(states[r], events[r])
    ensures k' == k
    ensures forall p :: Value(states[r + 1].files, p)
                     == if Tracked(m, states[k].files, p) && p !in events[r].denied then Value(states[k].files, p)
                        else Value(states[r].files, p)
  {
    k' := RestoreReturns(m, states, events, r);
  }

  /** With a script that an earlier restore kept. */
  lemma KeptScriptIff(m: Machine, states: seq<State>, events: seq<Event>, k: nat, r: nat, a: nat, n: nat, t: nat)
    requires Valid(m) && Trace(m, states, events) && k < r < a < n < |events| && t < |Settings(m)|
    requires Records(m, states[k], events[k]) && (forall j :: k < j <= n ==> states[j].script.Some?)
    requires Effective(states[r], events[r]) && (forall j :: r < j < a ==> !Effective(states[j], events[j]))
    requires FirstSince(states, events, a, n) && Tracked(m, states[k].files, Settings(m)[t].path)
    ensures Value(states[k].files, Settings(m)[t].path) == Value(states[a].files, Settings(m)[t].path)
       <==> SavedBefore(m, states, events, r, a, t, Value(states[k].files, Settings(m)[t].path))
  {
    var k' := SameOrigin(m, states, events, k, r, n);
    ValueTouched(m, states, events, r + 1, a, t);
  }

  /** Every effective restore of every run, and every tuned file: it comes back to its value before the first
      apply since the previous effective restore if and only if the condition holds. */
  lemma RestoredIff(m: Machine, states: seq<State>, events: seq<Event>, a: nat, n: nat, t: nat) returns (k: nat)
    requires Valid(m) && Trace(m, states, events) && n < |events| && Effective(states[n], events[n])
    requires FirstSince(states, events, a, n) && t < |Settings(m)|
    ensures k < n && Records(m, states[k], events[k]) && forall j :: k < j <= n ==> states[j].script.Some?
    ensures Value(states[n + 1].files, Settings(m)[t].path) == Value(states[a].files, Settings(m)[t].path)
       <==> ComesBack(m, states, events, k, a, n, t)
  {
    var p := Settings(m)[t].path;
    k := RestoreReturns(m, states, events, n);
    if !Tracked(m, states[k].files, p) || p in events[n].denied {
      ValueTouched(m, states, events, a, n, t);
    } else if a <= k {
      ValueTouched(m, states, events, a, k, t);
    } else {
      RestoreBetween(states, events, k, a, n);
      KeptScriptIff(m, states, events, k, LastRestore(states, events, a).value, a, n, t);
    }
  }

  // ---------------------------------------------------------------------------
  // Reliable runs
  // ---------------------------------------------------------------------------

  /** A restore that removes its script, or writes every file it should, with no foreign write to a tuned file
      before the next apply. */
  ghost predicate Harmless(m: Machine, events: seq<Event>, r: nat)
    requires r < |events| && events[r].Restore?
  {
    || events[r].removable
    || (&& (forall t :: 0 <= t < |Settings(m)| ==> Settings(m)[t].path !in events[r].denied)
        && forall j :: r < j < |events| && events[j].Write? && Names(Settings(m), events[j].path) ==>
                         ApplyBetween(events, r, j))
  }

  ghost predicate ApplyBetween(events: seq<Event>, r: nat, j: nat)
    requires j <= |events|
  {
    exists b :: r < b < j && events[b].Apply?
  }

  /** Every apply that finds no script records one, and every effective restore is harmless. */
  ghost predicate Reliable(m: Machine, states: seq<State>, events: seq<Event>)
    requires Trace(m, states, events)
  {
    && (forall i :: 0 <= i < |events| && events[i].Apply? && states[i].script.None? ==>
          Records(m, states[i], events[i]))
    && (forall r :: 0 <= r < |events| && Effective(states[r], events[r]) ==> Harmless(m, events, r))
  }

  lemma {:induction false} ScriptStays(m: Machine, states: seq<State>, events: seq<Event>, a: nat, n: nat)
    requires Trace(m, states, events) && Reliable(m, states, events) && n <= |events| && Since(states, events, a, n)
    ensures forall j :: a < j <= n ==> states[j].script.Some?
  {
    StepScript(m, states[n - 1], events[n - 1]);
    if a < n - 1 {
      ScriptStays(m, states, events, a, n - 1);
    }
  }

  lemma {:induction false} NoTouch(m: Machine, events: seq<Event>, i: nat, j: nat, t: nat)
    requires i <= j <= |events| && t < |Settings(m)|
    requires forall k :: i <= k < j ==> events[k].Write? && !Names(Settings(m), events[k].path)
    ensures LastTouch(m, events, i, j, t).None?
  {
    if i < j {
      NoTouch(m, events, i, j - 1, t);
      assert Names(Settings(m), Settings(m)[t].path);
    }
  }

  /** A kept script does no harm when the restore wrote the file and nobody else writes it. */
  lemma HarmlessKeeps(m: Machine, states: seq<State>, events: seq<Event>, r: nat, a: nat, t: nat, saved: Option<string>)
    requires r < a <= |events| < |states| && events[r].Restore? && !events[r].removable && Harmless(m, events, r)
    requires (forall j :: r < j < a ==> events[j].Write?) && t < |Settings(m)|
    ensures SavedBefore(m, states, events, r, a, t, saved)
  {
    forall j | r + 1 <= j < a ensures !Names(Settings(m), events[j].path) {
      assert !ApplyBetween(events, r, j);
    }
    NoTouch(m, events, r + 1, a, t);
  }

  /** In a reliable run every effective restore returns every file that its script covers and that it may
      write to its value before the first apply since the previous effective restore, however many applies
      came between. */
  lemma FirstApplyReturns(m: Machine, states: seq<State>, events: seq<Event>, a: nat, n: nat, t: nat) returns (k: nat)
    requires Valid(m) && Trace(m, states, events) && Reliable(m, states, events)
    requires n < |events| && Effective(states[n], events[n]) && FirstSince(states, events, a, n) && t < |Settings(m)|
    ensures k < n && Records(m, states[k], events[k])
    ensures Tracked(m, states[k].files, Settings(m)[t].path) && Settings(m)[t].path !in events[n].denied ==>
              Value(states[n + 1].files, Settings(m)[t].path) == Value(states[a].files, Settings(m)[t].path)
  {
    k := RestoredIff(m, states, events, a, n, t);
    ScriptStays(m, states, events, a, n);
    if k < a {
      RestoreBetween(states, events, k, a, n);
      var r := LastRestore(states, events, a).value;
      assert states[r + 1] == Next(m, states[r], events[r]) && states[r + 1].script.Some?;
      OnlyWritesBetween(states, events, r, a, n);
      HarmlessKeeps(m, states, events, r, a, t, Value(states[k].files, Settings(m)[t].path));
    }
  }

  /** When nobody else writes, nothing is denied and scripts can be written, every run is reliable, whether
      or not scripts can be removed. */
  lemma QuietIsReliable(m: Machine, states: seq<State>, events: seq<Event>)
    requires Trace(m, states, events)
    requires forall i :: 0 <= i < |events| ==>
               && !events[i].Write?
               && (events[i].Apply? ==> events[i].denied == {} && events[i].scriptWritable)
               && (events[i].Restore? ==> events[i].denied == {})
    ensures Reliable(m, states, events)
  {
  }

  /** A host with two governors, both at "powersave". */
  const TWO_GOVERNORS: Machine := Machine(["a/scaling_governor", "b/scaling_governor"], [], map[],
                                          {"a/scaling_governor", "b/scaling_governor"})

  const POWERSAVE: map<string, string> := map["a/scaling_governor" := "powersave", "b/scaling_governor" := "powersave"]

  lemma TwoSettings()
    ensures Settings(TWO_GOVERNORS) == [Setting("a/scaling_governor", "performance"),
                                        Setting("b/scaling_governor", "performance")]
  {
    GovernorsShape(TWO_GOVERNORS.governors);
  }

  lemma TuneTwo(a: Setting, b: Setting, root: bool, denied: set<string>, files: map<string, string>)
    ensures TuneAll([a, b], root, denied, files)
         == var one := if a.path in denied then Progress(files, root) else Progress(files[a.path := a.value], false);
            if one.aborted then one
            else if b.path in denied then one.(aborted := root)
            else one.(files := one.files[b.path := b.value])
  {
    assert [a, b][..1] == [a] && [a][..0] == [];
    assert TuneAll([], root, denied, files) == Progress(files, false);
  }

  lemma SnapshotTwo(m: Machine, a: Setting, b: Setting, files: map<string, string>)
    requires a.path in m.readable && b.path in m.readable && a.path in files && b.path in files
    ensures Snapshot(m, [a, b], files) == [Setting(a.path, files[a.path]), Setting(b.path, files[b.path])]
  {
    assert [a, b][..1] == [a] && [a][..0] == [];
    assert Snapshot(m, [], files) == [];
  }

  lemma ReplayTwo(a: Setting, b: Setting, files: map<string, string>)
    ensures Replay([a, b], {}, files) == files[a.path := a.value][b.path := b.value]
  {
    assert [a, b][..1] == [a] && [a][..0] == [];
    assert Replay([], {}, files) == files;
  }

  /** With two settings, an apply that tunes the first and leaves no script makes the next apply save the
      tuned value. */
  lemma TunedIsSaved(m: Machine, a: Setting, b: Setting, files: map<string, string>, first: Event)
    requires Settings(m) == [a, b] && a.path != b.path && a.path in m.readable && b.path in m.readable
    requires a.path in files && b.path in files
    requires first == Apply(false, {}, false) || first == Apply(true, {b.path}, true)
    ensures var s := Next(m, State(files, None), first);
            && s.script.None? && b.path in s.files && Value(s.files, a.path) == Some(a.value)
  {
    TuneTwo(a, b, first.root, first.denied, files);
  }

  lemma SavedIsRestored(m: Machine, a: Setting, b: Setting, s: State)
    requires Settings(m) == [a, b] && a.path != b.path && a.path in m.readable && b.path in m.readable
    requires s.script.None? && b.path in s.files && Value(s.files, a.path) == Some(a.value)
    ensures var s2 := Next(m, s, Apply(true, {}, true));
            s2.script.Some? && Value(Next(m, s2, Restore({}, true)).files, a.path) == Some(a.value)
  {
    var s2 := Next(m, s, Apply(true, {}, true));
    TuneTwo(a, b, true, {}, s.files);
    SnapshotTwo(m, a, b, s.files);
    ReplayTwo(Setting(a.path, a.value), Setting(b.path, s.files[b.path]), s2.files);
  }

  /** The first governor's original value is lost when the first apply tunes it without leaving a script,
      in either way; the restore leaves it at "performance". */
  lemma OriginalLost(first: Event)
    requires first == Apply(false, {}, false) || first == Apply(true, {"b/scaling_governor"}, true)
    ensures var m := TWO_GOVERNORS;
            var s1 := Next(m, State(POWERSAVE, None), first);
            var s2 := Next(m, s1, Apply(true, {}, true));
            var s3 := Next(m, s2, Restore({}, true));
            s1.script.None? && s2.script.Some? && Value(s3.files, "a/scaling_governor") == Some("performance")
  {
    var a, b := Setting("a/scaling_governor", "performance"), Setting("b/scaling_governor", "performance");
    assert a.path[0] == 'a' && b.path[0] == 'b';
    TwoSettings();
    TunedIsSaved(TWO_GOVERNORS, a, b, POWERSAVE, first);
    SavedIsRestored(TWO_GOVERNORS, a, b, Next(TWO_GOVERNORS, State(POWERSAVE, None), first));
  }

  /** What applying and restoring does with two settings, when everything can be written. */
  lemma ApplyTwo(m: Machine, a: Setting, b: Setting, s: State)
    requires Settings(m) == [a, b] && a.path != b.path && a.path in m.readable && b.path in m.readable
    requires a.path in s.files && b.path in s.files
    ensures Next(m, s, Apply(true, {}, true))
         == State(s.files[a.path := a.value][b.path := b.value],
                  if s.script.Some? then s.script
                  else Some([Setting(a.path, s.files[a.path]), Setting(b.path, s.files[b.path])]))
  {
    TuneTwo(a, b, true, {}, s.files);
    SnapshotTwo(m, a, b, s.files);
  }

  lemma KeptIsReplayed(m: Machine, a: Setting, b: Setting, files: map<string, string>, v: string)
    requires Settings(m) == [a, b] && a.path != b.path && a.path in m.readable && b.path in m.readable
    requires a.path in files && b.path in files
    ensures var s1 := Next(m, State(files, None), Apply(true, {}, true));
            var s2 := Next(m, Next(m, s1, Restore({}, false)), Write(a.path, v));
            var s3 := Next(m, Next(m, s2, Apply(true, {}, true)), Restore({}, true));
            Value(s2.files, a.path) == Some(v) && Value(s3.files, a.path) == Some(files[a.path])
  {
    var saved := [Setting(a.path, files[a.path]), Setting(b.path, files[b.path])];
    ApplyTwo(m, a, b, State(files, None));
    var s1 := Next(m, State(files, None), Apply(true, {}, true));
    ReplayTwo(saved[0], saved[1], s1.files);
    var s2 := Next(m, Next(m, s1, Restore({}, false)), Write(a.path, v));
    assert s2.script == Some(saved);
    ApplyTwo(m, a, b, s2);
    ReplayTwo(saved[0], saved[1], Next(m, s2, Apply(true, {}, true)).files);
  }

  /** A script that a restore could not remove is replayed again: a governor set to "ondemand" after that
      restore and tuned by the next apply ends at "powersave", its value before the first apply of all. */
  lemma OldScriptReplayed()
    ensures var m := TWO_GOVERNORS;
            var s1 := Next(m, State(POWERSAVE, None), Apply(true, {}, true));
            var s2 := Next(m, Next(m, s1, Restore({}, false)), Write("a/scaling_governor", "ondemand"));
            var s3 := Next(m, Next(m, s2, Apply(true, {}, true)), Restore({}, true));
            && Value(s2.files, "a/scaling_governor") == Some("ondemand")
            && Value(s3.files, "a/scaling_governor") == Some("powersave")
  {
    var a, b := Setting("a/scaling_governor", "performance"), Setting("b/scaling_governor", "performance");
    assert a.path[0] == 'a' && b.path[0] == 'b';
    TwoSettings();
    KeptIsReplayed(TWO_GOVERNORS, a, b, POWERSAVE, "ondemand");
  }

  // ---------------------------------------------------------------------------
  // The program
  // ---------------------------------------------------------------------------

  lemma TuneAppend(ts: seq<Setting>, t: Setting, root: bool, denied: set<string>, files: map<string, string>)
    ensures TuneAll(ts + [t], root, denied, files)
         == var done := TuneAll(ts, root, denied, files);
            if done.aborted then done
            else if t.path in denied then done.(aborted := root)
            else done.(files := done.files[t.path := t.value])
  {
    assert (ts + [t])[..|ts|] == ts;
  }

  lemma SnapshotAppend(m: Machine, ts: seq<Setting>, t: Setting, files: map<string, string>)
    ensures Snapshot(m, ts + [t], files)
         == Snapshot(m, ts, files)
            + if t.path in m.readable && t.path in files then [Setting(t.path, files[t.path])] else []
  {
    assert (ts + [t])[..|ts|] == ts;
  }

  lemma {:induction false} TuneAborted(ts: seq<Setting>, more: seq<Setting>, root: bool, denied: set<string>,
                                       files: map<string, string>)
    requires TuneAll(ts, root, denied, files).aborted
    ensures TuneAll(ts + more, root, denied, files) == TuneAll(ts, root, denied, files)
  {
    if more == [] {
      assert ts + more == ts;
    } else {
      var init := more[..|more| - 1];
      TuneAborted(ts, init, root, denied, files);
      assert ts + more == (ts + init) + [more[|more| - 1]];
      TuneAppend(ts + init, more[|more| - 1], root, denied, files);
    }
  }

  /** The governors and the C-states of the first `i` idle directories. */
  function SettingsUpTo(m: Machine, i: nat): seq<Setting>
    requires i <= |m.idleDirs|
  {
    GovernorSettings(m.governors) + IdleSettings(m, m.idleDirs[..i])
  }

  /** An apply that began at `start` has gone through the settings `ts`. */
  ghost predicate Working(m: Machine, ts: seq<Setting>, root: bool, denied: set<string>, start: map<string, string>,
                          files: map<string, string>, aborted: bool, script: Option<seq<Setting>>, saved: seq<Setting>)
  {
    && TuneAll(ts, root, denied, start) == Progress(files, aborted)
    && (script.None? ==> saved == Snapshot(m, ts, start))
  }

  class Host {
    const m: Machine
    var files: map<string, string>
    var script: Option<seq<Setting>>

    constructor (m: Machine, files: map<string, string>)
      ensures this.m == m && Current() == State(files, None)
    {
      this.m, this.files, this.script := m, files, None;
    }

    function Current(): State
      reads this
    {
      State(files, script)
    }

    /** One turn of the loops of `apply_tuning`: save the value unless already tuned, then write. The
        result says whether the write ended the program. */
    method Visit(ghost ts: seq<Setting>, t: Setting, saved: seq<Setting>, root: bool, denied: set<string>,
                 ghost start: map<string, string>)
      returns (aborted: bool, r: seq<Setting>)
      requires !Names(ts, t.path) && Working(m, ts, root, denied, start, files, false, script, saved)
      modifies this
      ensures script == old(script)
      ensures Working(m, ts + [t], root, denied, start, files, aborted, script, r)
    {
      TuneKeepsOthers(ts, root, denied, start, t.path);
      TuneAppend(ts, t, root, denied, start);
      SnapshotAppend(m, ts, t, start);
      r := saved;
      if script.None? && t.path in m.readable && t.path in files {
        r := r + [Setting(t.path, files[t.path])];
      }
      aborted := t.path in denied && root;
      if t.path !in denied {
        files := files[t.path := t.value];
      }
    }

    /** The governor loop. */
    method TuneGovernors(root: bool, denied: set<string>) returns (aborted: bool, saved: seq<Setting>)
      requires Valid(m)
      modifies this
      ensures script == old(script)
      ensures !aborted ==>
                Working(m, GovernorSettings(m.governors), root, denied, old(files), files, false, script, saved)
      ensures aborted ==> TuneAll(Settings(m), root, denied, old(files)) == Progress(files, true)
    {
      aborted, saved := false, [];
      var i := 0;
      while i < |m.governors| && !aborted
        invariant 0 <= i <= |m.governors| && script == old(script)
        invariant Working(m, GovernorSettings(m.governors[..i]), root, denied, old(files), files, aborted, script,
                          saved)
      {
        GovernorStep(m, i);
        aborted, saved := Visit(GovernorSettings(m.governors[..i]), Setting(m.governors[i], "performance"), saved, root,
                                denied, old(files));
        i := i + 1;
      }
      GovernorsEnd(m, i, root, denied, old(files), files, aborted, script, saved);
    }

    /** The C-state loop, after the governors. */
    method DisableStates(before: seq<Setting>, root: bool, denied: set<string>, ghost start: map<string, string>)
      returns (aborted: bool, saved: seq<Setting>)
      requires Valid(m)
      requires Working(m, GovernorSettings(m.governors), root, denied, start, files, false, script, before)
      modifies this
      ensures script == old(script)
      ensures TuneAll(Settings(m), root, denied, start) == Progress(files, aborted)
      ensures !aborted && script.None? ==> saved == Snapshot(m, Settings(m), start)
    {
      aborted, saved := false, before;
      var i := 0;
      SettingsFrom(m);
      while i < |m.idleDirs| && !aborted
        invariant 0 <= i <= |m.idleDirs| && script == old(script)
        invariant Working(m, SettingsUpTo(m, i), root, denied, start, files, aborted, script, saved)
      {
        IdleStep(m, i);
        if Disabled(m, m.idleDirs[i]) {
          aborted, saved := Visit(SettingsUpTo(m, i), Setting(DisableFile(m.idleDirs[i]), "1"), saved, root, denied,
                                  start);
        }
        i := i + 1;
      }
      StatesEnd(m, i, root, denied, start, files, aborted, script, saved);
    }

    /** `apply_tuning`. */
    method Apply(root: bool, denied: set<string>, scriptWritable: bool)
      requires Valid(m)
      modifies this
      ensures Current() == Next(m, old(Current()), Event.Apply(root, denied, scriptWritable))
    {
      var aborted, saved := TuneGovernors(root, denied);
      if aborted {
        return;
      }
      aborted, saved := DisableStates(saved, root, denied, old(files));
      if !aborted && script.None? && scriptWritable {
        script := Some(saved);
      }
    }

    /** `restore_tuning`, with the run of the script. */
    method Restore(denied: set<string>, removable: bool)
      modifies this
      ensures Current() == Next(m, old(Current()), Event.Restore(denied, removable))
    {
      if script.None? {
        return;
      }
      var saved := script.value;
      var i := 0;
      while i < |saved|
        invariant 0 <= i <= |saved| && script == old(script)
        invariant files == Replay(saved[..i], denied, old(files))
      {
        assert saved[..i + 1][..i] == saved[..i];
        if saved[i].path !in denied {
          files := files[saved[i].path := saved[i].value];
        }
        i := i + 1;
      }
      assert saved[..i] == saved;
      if removable {
        script := None;
      }
    }
  }

  lemma {:induction false} GovernorPrefix(m: Machine, i: nat)
    requires i <= |m.governors|
    ensures |Settings(m)| >= i && GovernorSettings(m.governors[..i]) + Settings(m)[i..] == Settings(m)
  {
    GovernorsShape(m.governors);
    GovernorsShape(m.governors[..i]);
    assert GovernorSettings(m.governors[..i]) == Settings(m)[..i];
  }

  lemma GovernorStep(m: Machine, i: nat)
    requires Valid(m) && i < |m.governors|
    ensures GovernorSettings(m.governors[..i + 1])
         == GovernorSettings(m.governors[..i]) + [Setting(m.governors[i], "performance")]
    ensures !Names(GovernorSettings(m.governors[..i]), m.governors[i])
  {
    assert m.governors[..i + 1][..i] == m.governors[..i];
    GovernorsShape(m.governors[..i]);
  }

  lemma {:induction false} IdlePrefixes(m: Machine, dirs: seq<string>, i: nat)
    requires i <= |dirs|
    ensures IdleSettings(m, dirs[..i]) <= IdleSettings(m, dirs)
  {
    if i == |dirs| {
      assert dirs[..i] == dirs;
    } else {
      IdlePrefixes(m, dirs[..|dirs| - 1], i);
      assert dirs[..|dirs| - 1][..i] == dirs[..i];
    }
  }

  lemma IdlePrefix(m: Machine, i: nat)
    requires i <= |m.idleDirs|
    ensures var ts := SettingsUpTo(m, i);
            |ts| <= |Settings(m)| && ts + Settings(m)[|ts|..] == Settings(m)
  {
    IdlePrefixes(m, m.idleDirs, i);
    var gs, part, all := GovernorSettings(m.governors), IdleSettings(m, m.idleDirs[..i]), IdleSettings(m, m.idleDirs);
    assert all == part + all[|part|..];
    assert (gs + all)[|gs + part|..] == all[|part|..];
  }

  lemma IdleStep(m: Machine, i: nat)
    requires Valid(m) && i < |m.idleDirs|
    ensures var dir := m.idleDirs[i];
            && SettingsUpTo(m, i + 1)
               == (if Disabled(m, dir) then SettingsUpTo(m, i) + [Setting(DisableFile(dir), "1")]
                   else SettingsUpTo(m, i))
            && (Disabled(m, dir) ==> !Names(SettingsUpTo(m, i), DisableFile(dir)))
  {
    var dir, ts := m.idleDirs[i], SettingsUpTo(m, i);
    assert m.idleDirs[..i + 1][..i] == m.idleDirs[..i];
    if Disabled(m, dir) {
      IdlePrefix(m, i + 1);
      SettingsDistinct(m);
      var us := ts + [Setting(DisableFile(dir), "1")];
      assert SettingsUpTo(m, i + 1) == us;
      assert us <= Settings(m);
      assert forall j :: 0 <= j < |ts| ==> Settings(m)[j] == ts[j];
      assert Settings(m)[|ts|] == us[|ts|];
    }
  }

  lemma SettingsFrom(m: Machine)
    ensures SettingsUpTo(m, 0) == GovernorSettings(m.governors)
  {
    assert IdleSettings(m, m.idleDirs[..0]) == [];
  }

  lemma GovernorsEnd(m: Machine, i: nat, root: bool, denied: set<string>, start: map<string, string>,
                     files: map<string, string>, aborted: bool, script: Option<seq<Setting>>, saved: seq<Setting>)
    requires i <= |m.governors| && (aborted || i == |m.governors|)
    requires Working(m, GovernorSettings(m.governors[..i]), root, denied, start, files, aborted, script, saved)
    ensures aborted ==> TuneAll(Settings(m), root, denied, start) == Progress(files, true)
    ensures !aborted ==> Working(m, GovernorSettings(m.governors), root, denied, start, files, false, script, saved)
  {
    if aborted {
      GovernorPrefix(m, i);
      TuneAborted(GovernorSettings(m.governors[..i]), Settings(m)[i..], root, denied, start);
    } else {
      assert m.governors[..i] == m.governors;
    }
  }

  lemma StatesEnd(m: Machine, i: nat, root: bool, denied: set<string>, start: map<string, string>,
                  files: map<string, string>, aborted: bool, script: Option<seq<Setting>>, saved: seq<Setting>)
    requires i <= |m.idleDirs| && (aborted || i == |m.idleDirs|)
    requires Working(m, SettingsUpTo(m, i), root, denied, start, files, aborted, script, saved)
    ensures TuneAll(Settings(m), root, denied, start) == Progress(files, aborted)
    ensures !aborted && script.None? ==> saved == Snapshot(m, Settings(m), start)
  {
    if aborted {
      var ts := SettingsUpTo(m, i);
      IdlePrefix(m, i);
      TuneAborted(ts, Settings(m)[|ts|..], root, denied, start);
    } else {
      assert m.idleDirs[..i] == m.idleDirs;
    }
  }
}
