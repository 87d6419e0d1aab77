/**
 The task registry: a task table, a prompt-version table and the config cache
 in front of the first.  Every method is one critical section of the store's
 edit lock (module Coherence takes the lock apart).  Statements that the
 database accepts do not fail; the ones its constraints refuse do.
 */
module Registry {
  import opened Prelude

  /** `settings` stands for the fields that play no part in versioning. */
  datatype Task = Task(id: string, template: string, system: string, version: int, settings: int)

  datatype Row = Row(task: string, version: int, template: string, system: string, note: string, author: string)

  datatype Error = NotFound | AlreadyExists | Invalid | TemplateRequired | BadTemplate
                 | PlaygroundProtected | VersionActive | VersionNotFound | DuplicateVersion

  datatype Result<+T> = Ok(value: T) | Err(error: Error)

  const PLAYGROUND := "playground"
  const UPDATED := "updated via task update"

  // ---- the version table -------------------------------------------------------

  predicate IsRow(r: Row, id: string, v: int) {
    r.task == id && r.version == v
  }

  predicate Recorded(rows: seq<Row>, id: string, v: int) {
    exists i :: 0 <= i < |rows| && IsRow(rows[i], id, v)
  }

  /** UNIQUE(task_id, version). */
  predicate Unique(rows: seq<Row>) {
    forall i, j :: 0 <= i < j < |rows| ==> !(rows[i].task == rows[j].task && rows[i].version == rows[j].version)
  }

  /** MAX(version) of a task's rows. */
  function Highest(rows: seq<Row>, id: string): (m: Option<int>)
    ensures m.Some? ==> Recorded(rows, id, m.value)
    ensures forall i :: 0 <= i < |rows| && rows[i].task == id ==> m.Some? && rows[i].version <= m.value
  {
    if rows == [] then None
    else
      var m := Highest(Front(rows), id);
      var last := Last(rows);
      assert forall i :: 0 <= i < |Front(rows)| ==> Front(rows)[i] == rows[i];
      if last.task != id then
        assert m.Some? ==> Recorded(rows, id, m.value) by { RecordedGrows(Front(rows), rows, id); }
        m
      else if m.None? || m.value < last.version then
        assert IsRow(rows[|rows| - 1], id, last.version);
        Some(last.version)
      else
        assert Recorded(rows, id, m.value) by { RecordedGrows(Front(rows), rows, id); }
        m
  }

  lemma RecordedGrows(rows: seq<Row>, more: seq<Row>, id: string)
    requires rows <= more
    ensures forall v :: Recorded(rows, id, v) ==> Recorded(more, id, v)
  {
    forall v | Recorded(rows, id, v) ensures Recorded(more, id, v) {
      var i :| 0 <= i < |rows| && IsRow(rows[i], id, v);
      assert IsRow(more[i], id, v);
    }
  }

  /** `maxVersion`: zero when nothing is recorded. */
  function MaxVersion(rows: seq<Row>, id: string): int {
    match Highest(rows, id)
    case Some(v) => v
    case None => 0
  }

  /** SELECT by task and version. */
  function Select(rows: seq<Row>, id: string, v: int): (r: Option<Row>)
    ensures r.Some? <==> Recorded(rows, id, v)
    ensures r.Some? ==> r.value in rows && IsRow(r.value, id, v)
  {
    if rows == [] then None
    else if IsRow(rows[0], id, v) then Some(rows[0])
    else
      assert forall i :: 1 <= i < |rows| ==> rows[1..][i - 1] == rows[i];
      Select(rows[1..], id, v)
  }

  predicate Doomed(r: Row, id: string, v: Option<int>) {
    r.task == id && (v.None? || r.version == v.value)
  }

  /** DELETE by task, and by version unless `v` is None. */
  function Without(rows: seq<Row>, id: string, v: Option<int>): (r: seq<Row>)
    ensures forall x :: x in r <==> x in rows && !Doomed(x, id, v)
    ensures |r| < |rows| <==> exists x :: x in rows && Doomed(x, id, v)
    ensures |r| <= |rows|
  {
    if rows == [] then []
    else
      var rest := Without(Front(rows), id, v);
      assert rows == Front(rows) + [Last(rows)];
      if Doomed(Last(rows), id, v) then rest else rest + [Last(rows)]
  }

  lemma {:induction false} WithoutNothing(rows: seq<Row>, id: string, v: Option<int>)
    requires forall x :: x in rows ==> !Doomed(x, id, v)
    ensures Without(rows, id, v) == rows
  {
    if rows != [] {
      assert rows == Front(rows) + [Last(rows)];
      WithoutNothing(Front(rows), id, v);
    }
  }

  lemma {:induction false} WithoutStaysUnique(rows: seq<Row>, id: string, v: Option<int>)
    requires Unique(rows)
    ensures Unique(Without(rows, id, v))
  {
    if rows != [] {
      var front, rest := Front(rows), Without(Front(rows), id, v);
      WithoutStaysUnique(front, id, v);
      forall i | 0 <= i < |rest| ensures !(rest[i].task == Last(rows).task && rest[i].version == Last(rows).version) {
        assert rest[i] in rest;
        var j :| 0 <= j < |front| && front[j] == rest[i];
        assert rows[j] == front[j];
      }
    }
  }

  /** After deleting version v, a number above v is assigned next exactly when a
      higher version is still recorded: deleting the highest one frees its number. */
  lemma NumberAfterDeletion(rows: seq<Row>, id: string, v: int)
    requires Unique(rows) && Recorded(rows, id, v)
    ensures MaxVersion(Without(rows, id, Some(v)), id) + 1 > v
            <==> (exists i :: 0 <= i < |rows| && rows[i].task == id && rows[i].version > v)
                 || (v < 1 && forall i :: 0 <= i < |rows| && rows[i].task == id ==> rows[i].version == v)
  {
    var left := Without(rows, id, Some(v));
    var m := Highest(left, id);
    if i :| 0 <= i < |rows| && rows[i].task == id && rows[i].version > v {
      assert rows[i] in left;
    } else if m.Some? {
      var j :| 0 <= j < |left| && IsRow(left[j], id, m.value);
      assert left[j] in left && left[j] in rows;
    } else {
      forall x | x in rows && x.task == id ensures x.version == v {
        assert x.version != v ==> x in left;
      }
    }
  }

  /** So a number can come back: version 2 of two, deleted, is assigned again. */
  lemma HighestNumberComesBack(first: Row, second: Row)
    requires IsRow(first, second.task, 1) && second.version == 2
    ensures MaxVersion(Without([first, second], second.task, Some(2)), second.task) + 1 == 2
  {
    assert Front([first, second]) == [first] && Front([first]) == [];
    assert Without([first], second.task, Some(2)) == [first];
    assert Without([first, second], second.task, Some(2)) == [first];
  }

  // ---- the registry invariant ------------------------------------------------------

  /** The live prompt of a task is one of its recorded versions. */
  ghost predicate Live(t: Task, rows: seq<Row>) {
    exists r :: r in rows && IsRow(r, t.id, t.version) && r.template == t.template && r.system == t.system
  }

  ghost predicate Consistent(tasks: map<string, Task>, rows: seq<Row>) {
    && Unique(rows)
    && (forall id :: id in tasks ==> tasks[id].id == id && Live(tasks[id], rows))
    && (forall r :: r in rows ==> r.task in tasks)
  }

  /** A new row whose version nothing recorded reaches cannot collide. */
  lemma AppendingStaysUnique(rows: seq<Row>, r: Row)
    requires Unique(rows) && !Recorded(rows, r.task, r.version)
    ensures Unique(rows + [r])
  {
    forall i | 0 <= i < |rows| ensures !(rows[i].task == r.task && rows[i].version == r.version) {
      assert !IsRow(rows[i], r.task, r.version);
    }
  }

  /** Overwriting a task keeps the registry consistent when its prompt is on record. */
  lemma OverwritingKeeps(tasks: map<string, Task>, rows: seq<Row>, t: Task)
    requires Consistent(tasks, rows) && t.id in tasks && Live(t, rows)
    ensures Consistent(tasks[t.id := t], rows)
  {
    hide Live, Unique;
  }

  /** So does recording a new version of an existing task. */
  lemma RecordingKeeps(tasks: map<string, Task>, rows: seq<Row>, r: Row)
    requires Consistent(tasks, rows) && r.task in tasks && !Recorded(rows, r.task, r.version)
    ensures Consistent(tasks, rows + [r])
  {
    AppendingStaysUnique(rows, r);
    KeepsLive(tasks, rows, r);
    hide Live, Unique;
  }

  lemma UpdatingKeeps(tasks: map<string, Task>, rows: seq<Row>, t: Task, note: string)
    requires Consistent(tasks, rows) && t.id in tasks && !Recorded(rows, t.id, t.version)
    ensures Consistent(tasks[t.id := t], rows + [Row(t.id, t.version, t.template, t.system, note, "")])
  {
    var r := Row(t.id, t.version, t.template, t.system, note, "");
    RecordingKeeps(tasks, rows, r);
    assert r in rows + [r];
    assert Live(t, rows + [r]);
    OverwritingKeeps(tasks, rows + [r], t);
  }

  /** A number above every recorded one is not recorded. */
  lemma AboveIsFree(rows: seq<Row>, id: string, v: int)
    requires v > MaxVersion(rows, id)
    ensures !Recorded(rows, id, v)
    ensures forall i :: 0 <= i < |rows| && rows[i].task == id ==> rows[i].version < v
  {
  }

  lemma SamePromptIsLive(was: Task, t: Task, rows: seq<Row>)
    requires Live(was, rows) && t == was.(settings := t.settings)
    ensures Live(t, rows)
  {
  }

  lemma DoomedIsRecorded(rows: seq<Row>, id: string, v: int)
    ensures Recorded(rows, id, v) <==> exists x :: x in rows && Doomed(x, id, Some(v))
    ensures !Recorded(rows, id, v) ==> Without(rows, id, Some(v)) == rows
  {
    if Recorded(rows, id, v) {
      var i :| 0 <= i < |rows| && IsRow(rows[i], id, v);
      assert rows[i] in rows && Doomed(rows[i], id, Some(v));
    } else {
      forall x | x in rows ensures !Doomed(x, id, Some(v)) {
        var i :| 0 <= i < |rows| && rows[i] == x;
        assert !IsRow(rows[i], id, v);
      }
      WithoutNothing(rows, id, Some(v));
    }
  }

  predicate PromptChanged(was: Task, t: Task) {
    t.template != was.template || t.system != was.system
  }

  /** The live version is recorded, so the highest recorded number is at least that. */
  lemma LiveIsAtMostHighest(t: Task, rows: seq<Row>)
    requires Live(t, rows)
    ensures t.version <= MaxVersion(rows, t.id) && Recorded(rows, t.id, MaxVersion(rows, t.id))
  {
    var r :| r in rows && IsRow(r, t.id, t.version) && r.template == t.template && r.system == t.system;
    var i :| 0 <= i < |rows| && rows[i] == r;
  }

  class Store {
    const valid: Task -> bool      // Validate
    const parses: string -> bool   // parseTemplate succeeds
    var tasks: map<string, Task>
    var versions: seq<Row>
    var cache: map<string, Task>

    ghost predicate Valid()
      reads this
    {
      && Consistent(tasks, versions)
      && (forall id :: id in cache ==> id in tasks && cache[id] == tasks[id])
    }

    constructor (validate: Task -> bool, parse: string -> bool)
      ensures Valid() && tasks == map[] && versions == [] && valid == validate && parses == parse
    {
      valid, parses := validate, parse;
      tasks, versions, cache := map[], [], map[];
    }

    /** Get and getRaw.  `recent`: a cached config is within its TTL. */
    method Get(id: string, recent: bool) returns (r: Result<Task>)
      requires Valid()
      modifies this`cache
      ensures Valid()
      ensures r == if id in tasks then Ok(tasks[id]) else Err(NotFound)
    {
      if id in cache && recent {
        return Ok(cache[id]);
      }
      if id !in tasks {
        return Err(NotFound);
      }
      var t := tasks[id];
      cache := cache[id := t];
      return Ok(t);
    }

    /** INSERT INTO prompt_versions. */
    method AppendVersion(r: Row) returns (ok: bool)
      modifies this`versions
      ensures ok <==> !Recorded(old(versions), r.task, r.version)
      ensures versions == if ok then old(versions) + [r] else old(versions)
    {
      if Select(versions, r.task, r.version).Some? {
        return false;
      }
      versions := versions + [r];
      return true;
    }

    method Create(task: Task) returns (r: Result<Task>)
      requires Valid()
      modifies this
      ensures Valid()
      ensures var t := task.(version := if task.version == 0 then 1 else task.version);
              && (r.Ok? <==> valid(t) && t.id !in old(tasks))
              && (r.Err? ==> r.error == if !valid(t) then Invalid else AlreadyExists)
              && tasks == (if r.Ok? then old(tasks)[t.id := t] else old(tasks))
              && versions == (if r.Ok?
                              then old(versions) + [Row(t.id, t.version, t.template, t.system, "initial version", "")]
                              else old(versions))
    {
      var t := task;
      if t.version == 0 {
        t := t.(version := 1);
      }
      if !valid(t) {
        return Err(Invalid);
      }
      if t.id in tasks {
        return Err(AlreadyExists);
      }
      ghost var rows := versions;
      assert forall v :: !Recorded(rows, t.id, v);
      tasks := tasks[t.id := t];
      cache := cache - {t.id};
      var row := Row(t.id, t.version, t.template, t.system, "initial version", "");
      var ok := AppendVersion(row);
      AppendingStaysUnique(rows, row);
      if !ok {
        return Err(DuplicateVersion);
      }
      KeepsLive(old(tasks), rows, row);
      assert Live(t, versions) by { assert row in versions; }
      return Ok(t);
    }

    /** UPDATE tasks, invalidate, and record a changed prompt. */
    method Rewrite(t: Task, changed: bool)
      requires Valid() && t.id in tasks
      requires if changed then !Recorded(versions, t.id, t.version) else Live(t, versions)
      modifies this
      ensures Valid() && tasks == old(tasks)[t.id := t]
      ensures versions == if changed then old(versions) + [Row(t.id, t.version, t.template, t.system, UPDATED, "")]
                          else old(versions)
    {
      hide Live, Unique, Recorded;
      ghost var rows := versions;
      tasks := tasks[t.id := t];
      cache := cache - {t.id};
      if changed {
        UpdatingKeeps(old(tasks), rows, t, UPDATED);
        var ok := AppendVersion(Row(t.id, t.version, t.template, t.system, UPDATED, ""));
      } else {
        OverwritingKeeps(old(tasks), rows, t);
      }
    }

    /** A changed prompt gets a number above every recorded one. */
    method Update(task: Task, recent: bool) returns (r: Result<Task>)
      requires Valid()
      modifies this
      ensures Valid()
      ensures r.Ok? <==>
                && task.id in old(tasks)
                && valid(task.(version := if task.template == old(tasks)[task.id].template
                                             && task.system == old(tasks)[task.id].system
                                          then old(tasks)[task.id].version
                                          else MaxVersion(old(versions), task.id) + 1))
      ensures r.Err? ==>
                && tasks == old(tasks) && versions == old(versions)
                && r.error == if task.id in old(tasks) then Invalid else NotFound
      // what the caller sent is what is stored and returned, but for the number
      ensures r.Ok? ==> r.value == task.(version := r.value.version) && tasks == old(tasks)[task.id := r.value]
      // the same prompt keeps its number and leaves no row
      ensures r.Ok? && task.template == old(tasks)[task.id].template && task.system == old(tasks)[task.id].system ==>
                r.value.version == old(tasks)[task.id].version && versions == old(versions)
      // another one gets the next number after the highest recorded, and a row with the new prompt
      ensures r.Ok? && (task.template != old(tasks)[task.id].template || task.system != old(tasks)[task.id].system) ==>
                && versions == old(versions) + [Row(task.id, r.value.version, task.template, task.system, UPDATED, "")]
                && Recorded(old(versions), task.id, r.value.version - 1)
                && forall x :: x in old(versions) && x.task == task.id ==> x.version < r.value.version
    {
      hide Unique, Live;
      var found := Get(task.id, recent);
      if found.Err? {
        return Err(found.error);
      }
      var existing := found.value;
      var t := task.(version := existing.version);
      var changed := PromptChanged(existing, t);
      if changed {
        var maxV := MaxVersion(versions, t.id);
        LiveIsAtMostHighest(existing, versions);
        if maxV < existing.version {
          maxV := existing.version;
        }
        t := t.(version := maxV + 1);
        AboveIsFree(versions, t.id, t.version);
      } else {
        SamePromptIsLive(existing, t, versions);
      }
      if !valid(t) {
        return Err(Invalid);
      }
      Rewrite(t, changed);
      return Ok(t);
    }

    method SaveDraft(id: string, template: string, system: string, note: string, author: string, recent: bool)
      returns (r: Result<int>)
      requires Valid()
      modifies this
      ensures Valid() && tasks == old(tasks)
      ensures r.Ok? <==> id in tasks && template != "" && parses(template)
      ensures r.Ok? ==>
                && versions == old(versions) + [Row(id, r.value, template, system, note, author)]
                && r.value == MaxVersion(old(versions), id) + 1
                && forall i :: 0 <= i < |old(versions)| && old(versions)[i].task == id ==>
                    old(versions)[i].version < r.value
      ensures r.Err? ==>
                && versions == old(versions)
                && r.error == if id !in tasks then NotFound
                              else if template == "" then TemplateRequired else BadTemplate
    {
      var found := Get(id, recent);
      if found.Err? {
        return Err(found.error);
      }
      if template == "" {
        return Err(TemplateRequired);
      }
      if !parses(template) {
        return Err(BadTemplate);
      }
      var next := MaxVersion(versions, id) + 1;
      ghost var rows := versions;
      var row := Row(id, next, template, system, note, author);
      var ok := AppendVersion(row);
      AppendingStaysUnique(rows, row);
      if !ok {
        return Err(DuplicateVersion);
      }
      KeepsLive(tasks, rows, row);
      return Ok(next);
    }

    /** The version's prompt becomes the task's live prompt. */
    method Deploy(id: string, version: int) returns (r: Result<()>)
      requires Valid()
      modifies this
      ensures Valid() && versions == old(versions)
      ensures r.Ok? <==> Recorded(versions, id, version)
      ensures r.Err? ==> r.error == VersionNotFound && tasks == old(tasks)
      ensures r.Ok? ==>
                && id in old(tasks)
                && var row := Select(versions, id, version).value;
                   tasks == old(tasks)[id := old(tasks)[id].(template := row.template, system := row.system,
                                                             version := version)]
    {
      var row := Select(versions, id, version);
      if row.None? {
        return Err(VersionNotFound);
      }
      if id !in tasks {
        return Err(NotFound);
      }
      var t := tasks[id];
      t := t.(template := row.value.template, system := row.value.system, version := row.value.version);
      tasks := tasks[id := t];
      cache := cache - {id};
      assert Live(t, versions);
      return Ok(());
    }

    method DeleteVersion(id: string, version: int, recent: bool) returns (r: Result<()>)
      requires Valid()
      modifies this
      ensures Valid() && tasks == old(tasks)
      ensures r.Ok? <==> id in tasks && version != tasks[id].version && Recorded(old(versions), id, version)
      ensures versions == if r.Ok? then Without(old(versions), id, Some(version)) else old(versions)
      ensures r.Ok? ==> forall x :: x in versions <==> x in old(versions) && !(x.task == id && x.version == version)
      ensures r.Err? ==> r.error == if id !in tasks then NotFound
                                    else if version == tasks[id].version then VersionActive else VersionNotFound
    {
      var found := Get(id, recent);
      if found.Err? {
        return Err(found.error);
      }
      if version == found.value.version {
        return Err(VersionActive);
      }
      var before := |versions|;
      ghost var rows := versions;
      versions := Without(versions, id, Some(version));
      WithoutStaysUnique(rows, id, Some(version));
      DoomedIsRecorded(rows, id, version);
      if |versions| == before {
        return Err(VersionNotFound);
      }
      return Ok(());
    }

    method Delete(id: string, recent: bool) returns (r: Result<()>)
      requires Valid()
      modifies this
      ensures Valid()
      ensures r.Ok? <==> id != PLAYGROUND && id in old(tasks)
      ensures tasks == if r.Ok? then old(tasks) - {id} else old(tasks)
      ensures versions == if r.Ok? then Without(old(versions), id, None) else old(versions)
      ensures r.Ok? ==> forall x :: x in versions <==> x in old(versions) && x.task != id
      ensures r.Err? ==> r.error == if id == PLAYGROUND then PlaygroundProtected else NotFound
    {
      if id == PLAYGROUND {
        return Err(PlaygroundProtected);
      }
      var found := Get(id, recent);
      if found.Err? {
        return Err(found.error);
      }
      WithoutStaysUnique(versions, id, None);
      versions := Without(versions, id, None);
      tasks := tasks - {id};
      cache := cache - {id};
      return Ok(());
    }
  }

  lemma KeepsLive(tasks: map<string, Task>, rows: seq<Row>, r: Row)
    requires Consistent(tasks, rows)
    ensures forall id :: id in tasks ==> Live(tasks[id], rows + [r])
  {
    forall id | id in tasks ensures Live(tasks[id], rows + [r]) {
      var x :| x in rows && IsRow(x, id, tasks[id].version) && x.template == tasks[id].template
          && x.system == tasks[id].system;
      assert x in rows + [r];
    }
  }

  /** Deploying another version and then the one that was live restores the
      task exactly. */
  method DeployThereAndBack(s: Store, id: string, other: int)
    requires s.Valid() && id in s.tasks && Recorded(s.versions, id, other)
    modifies s
    ensures s.Valid() && s.tasks == old(s.tasks) && s.versions == old(s.versions)
  {
    ghost var t := s.tasks[id];
    var was := s.tasks[id].version;
    ghost var live :| live in s.versions && IsRow(live, id, was) && live.template == t.template
        && live.system == t.system;
    SameRow(s.versions, live);
    ghost var row := Select(s.versions, id, other).value;
    PuttingBack(s.tasks, id, t.(template := row.template, system := row.system, version := other));
    var there := s.Deploy(id, other);
    var back := s.Deploy(id, was);
    assert t == t.(template := live.template, system := live.system, version := was);
  }

  lemma PuttingBack(m: map<string, Task>, id: string, t: Task)
    requires id in m
    ensures m[id := t][id := m[id]] == m
  {
  }

  lemma SameRow(rows: seq<Row>, r: Row)
    requires Unique(rows) && r in rows
    ensures Recorded(rows, r.task, r.version)
    ensures forall x :: x in rows && IsRow(x, r.task, r.version) ==> x == r
  {
    var i :| 0 <= i < |rows| && rows[i] == r;
    assert IsRow(rows[i], r.task, r.version);
  }
}
