/** The reference counting that lets several shader objects share one GPU
    program and its stage shaders: two process-wide tables map a GPU id to
    the number of shader objects holding it. Every GL call (create, compile,
    attach, link, detach, delete) is left to the driver; the model keeps the
    bookkeeping around them. */
module Shader {

  /** A table from GPU id to the number of holders. */
  type Table = map<nat, int>

  /** The shader enums the source names. */
  const GL_FRAGMENT_SHADER: int := 0x8B30
  const GL_VERTEX_SHADER: int := 0x8B31
  const GL_GEOMETRY_SHADER_EXT: int := 0x8DD9

  /** One compiled stage of a shader object: its shader type and GPU id. */
  datatype Stage = Stage(kind: int, id: nat)

  // ---------------------------------------------------------------------
  // The tables as values

  /** A well-formed table never holds id 0 and only positive counts. */
  ghost predicate WellFormed(t: Table)
  {
    0 !in t && forall id :: id in t ==> t[id] >= 1
  }

  /** The number of holders of `id` (0 when untracked). */
  function Tally(t: Table, id: nat): int
  {
    if id in t then t[id] else 0
  }

  /** The table after one retain: id 0 is ignored, an untracked id enters
      with count 1 and a tracked one is incremented. */
  function Retained(t: Table, id: nat): (r: Table)
    ensures id == 0 ==> r == t
    ensures id != 0 ==> id in r && r[id] == Tally(t, id) + 1
    ensures forall other :: other != id ==> (other in r <==> other in t)
    ensures forall other :: other != id && other in t ==> r[other] == t[other]
  {
    if id == 0 then t
    else if id in t then t[id := t[id] + 1]
    else t[id := 1]
  }

  /** The table after one release: a tracked id is decremented and erased
      when it reaches 0; an untracked id leaves the table as it is. */
  function Released(t: Table, id: nat): (r: Table)
    ensures id !in t ==> r == t
    ensures id in t && t[id] == 1 ==> id !in r
    ensures id in t && t[id] != 1 ==> id in r && r[id] == t[id] - 1
    ensures forall other :: other != id ==> (other in r <==> other in t)
    ensures forall other :: other != id && other in t ==> r[other] == t[other]
  {
    if id in t then
      if t[id] - 1 == 0 then map k | k in t && k != id :: t[k] else t[id := t[id] - 1]
    else t
  }

  /** The table after retaining each id in order. */
  function RetainAll(t: Table, ids: seq<nat>): Table
    decreases |ids|
  {
    if ids == [] then t else RetainAll(Retained(t, ids[0]), ids[1..])
  }

  /** The table after releasing each id in order. */
  function ReleaseAll(t: Table, ids: seq<nat>): Table
    decreases |ids|
  {
    if ids == [] then t else ReleaseAll(Released(t, ids[0]), ids[1..])
  }

  /** The number of occurrences of `id` in `ids`. */
  function Occ(ids: seq<nat>, id: nat): nat
  {
    if ids == [] then 0 else (if ids[0] == id then 1 else 0) + Occ(ids[1..], id)
  }

  /** The GPU ids of the stages, in order. */
  function Ids(stages: seq<Stage>): (r: seq<nat>)
    ensures |r| == |stages|
    ensures forall i :: 0 <= i < |stages| ==> r[i] == stages[i].id
  {
    seq(|stages|, i requires 0 <= i < |stages| => stages[i].id)
  }

  /** The non-zero ids, in order. */
  function NonZero(ids: seq<nat>): seq<nat>
  {
    if ids == [] then [] else (if ids[0] != 0 then [ids[0]] else []) + NonZero(ids[1..])
  }

  /** No two stages share a type: the stages stand for a map from the
      shader type to its id. */
  predicate UniqueKinds(stages: seq<Stage>)
  {
    forall i, j :: 0 <= i < j < |stages| ==> stages[i].kind != stages[j].kind
  }

  /** The stages with `kind` set to `id` (`shaders[type] = id`): an existing
      stage of that type is replaced in place, otherwise the stage is
      appended. The stages of other types are kept, and on a map (one stage
      per type) the result is again a map whose only stage of `kind` is the
      new one. */
  function Put(stages: seq<Stage>, kind: int, id: nat): (r: seq<Stage>)
    ensures Stage(kind, id) in r
    ensures forall s :: s in r && s.kind != kind ==> s in stages
    ensures forall s :: s in stages && s.kind != kind ==> s in r
    ensures UniqueKinds(stages) ==> UniqueKinds(r) && forall s :: s in r && s.kind == kind ==> s.id == id
  {
    if stages == [] then [Stage(kind, id)]
    else if stages[0].kind == kind then
      var r := [Stage(kind, id)] + stages[1..];
      assert UniqueKinds(stages) ==> forall s :: s in stages[1..] ==> s.kind != kind;
      r
    else
      var rest := Put(stages[1..], kind, id);
      var r := [stages[0]] + rest;
      assert forall s :: s in stages && s != stages[0] ==> s in stages[1..];
      assert forall s :: s in r && s != stages[0] ==> s in rest;
      assert UniqueKinds(stages) ==> forall s :: s in stages[1..] ==> s.kind != stages[0].kind;
      r
  }

  // ---------------------------------------------------------------------
  // Properties of the tables

  /** Retain and release keep a table well formed. */
  lemma RetainedReleasedWellFormed(t: Table, id: nat)
    requires WellFormed(t)
    ensures WellFormed(Retained(t, id)) && WellFormed(Released(t, id))
  {
  }

  /** Releasing right after retaining a non-zero id gives back the table. */
  lemma ReleaseUndoesRetain(t: Table, id: nat)
    requires WellFormed(t) && id != 0
    ensures Released(Retained(t, id), id) == t
  {
    var r := Released(Retained(t, id), id);
    assert r.Keys == t.Keys;
  }

  /** One retain adds one holder to a non-zero id and none elsewhere. */
  lemma TallyRetained(t: Table, id: nat, x: nat)
    ensures Tally(Retained(t, id), x) == Tally(t, x) + (if x == id && id != 0 then 1 else 0)
  {
  }

  /** One release takes one holder from a tracked id and none elsewhere. */
  lemma TallyReleased(t: Table, id: nat, x: nat)
    ensures Tally(Released(t, id), x) == Tally(t, x) - (if x == id && id in t then 1 else 0)
  {
  }

  /** Retaining a list of ids adds, to every non-zero id, its number of
      occurrences, and keeps the table well formed. */
  lemma {:induction false} TallyRetainAll(t: Table, ids: seq<nat>)
    requires WellFormed(t)
    ensures WellFormed(RetainAll(t, ids))
    ensures forall x :: Tally(RetainAll(t, ids), x) == Tally(t, x) + (if x == 0 then 0 else Occ(ids, x))
    decreases |ids|
  {
    if ids != [] {
      var t1 := Retained(t, ids[0]);
      RetainedReleasedWellFormed(t, ids[0]);
      TallyRetainAll(t1, ids[1..]);
      forall x ensures Tally(RetainAll(t, ids), x) == Tally(t, x) + (if x == 0 then 0 else Occ(ids, x)) {
        TallyRetained(t, ids[0], x);
      }
    }
  }

  /** Releasing a list of ids, each held at least as often as it occurs,
      takes from every id its number of occurrences and keeps the table well
      formed. */
  lemma {:induction false} TallyReleaseAll(t: Table, ids: seq<nat>)
    requires WellFormed(t)
    requires forall x :: Occ(ids, x) <= Tally(t, x)
    ensures WellFormed(ReleaseAll(t, ids))
    ensures forall x :: Tally(ReleaseAll(t, ids), x) == Tally(t, x) - Occ(ids, x)
    decreases |ids|
  {
    if ids != [] {
      var t1 := Released(t, ids[0]);
      RetainedReleasedWellFormed(t, ids[0]);
      assert Occ(ids, ids[0]) >= 1;
      assert ids[0] in t;
      forall x ensures Occ(ids[1..], x) <= Tally(t1, x) && Tally(t1, x) == Tally(t, x) - (if x == ids[0] then 1 else 0) {
        TallyReleased(t, ids[0], x);
      }
      TallyReleaseAll(t1, ids[1..]);
    }
  }

  /** Dropping the zeros keeps every non-zero id's occurrences. */
  lemma {:induction false} OccNonZero(ids: seq<nat>, x: nat)
    ensures Occ(NonZero(ids), x) == if x == 0 then 0 else Occ(ids, x)
  {
    if ids != [] {
      OccNonZero(ids[1..], x);
      var head: seq<nat> := if ids[0] != 0 then [ids[0]] else [];
      OccAppend(head, NonZero(ids[1..]), x);
    }
  }

  lemma {:induction false} OccAppend(a: seq<nat>, b: seq<nat>, x: nat)
    ensures Occ(a + b, x) == Occ(a, x) + Occ(b, x)
  {
    if a != [] {
      assert (a + b)[0] == a[0];
      assert (a + b)[1..] == a[1..] + b;
      OccAppend(a[1..], b, x);
    } else {
      assert a + b == b;
    }
  }

  /** Two well-formed tables with the same tallies are the same table. */
  lemma TallyExtensional(a: Table, b: Table)
    requires WellFormed(a) && WellFormed(b)
    requires forall x :: Tally(a, x) == Tally(b, x)
    ensures a == b
  {
    forall x | x in a ensures x in b { assert Tally(a, x) >= 1; }
    forall x | x in b ensures x in a { assert Tally(b, x) >= 1; }
    assert a.Keys == b.Keys;
    forall x | x in a ensures a[x] == b[x] { assert Tally(a, x) == Tally(b, x); }
  }

  /** Retaining a shader object's ids (as a copy does) and then releasing its
      non-zero ids (as its unload does) gives back the table. */
  lemma CopyThenUnloadRestores(t: Table, ids: seq<nat>)
    requires WellFormed(t)
    ensures ReleaseAll(RetainAll(t, ids), NonZero(ids)) == t
  {
    var t1 := RetainAll(t, ids);
    TallyRetainAll(t, ids);
    forall x ensures Occ(NonZero(ids), x) <= Tally(t1, x) {
      OccNonZero(ids, x);
    }
    TallyReleaseAll(t1, NonZero(ids));
    forall x ensures Tally(ReleaseAll(t1, NonZero(ids)), x) == Tally(t, x) {
      OccNonZero(ids, x);
    }
    TallyExtensional(ReleaseAll(t1, NonZero(ids)), t);
  }

  /** The shader table after an unload of an object in the given state. */
  function UnloadedShaderIds(t: Table, loaded: bool, stages: seq<Stage>): Table
  {
    if loaded then ReleaseAll(t, NonZero(Ids(stages))) else t
  }

  /** The program table after an unload of an object in the given state. */
  function UnloadedProgramIds(t: Table, loaded: bool, program: nat): Table
  {
    if loaded && program != 0 then Released(t, program) else t
  }

  /** The name printed for a shader type. */
  function NameForType(kind: int): (name: string)
    ensures kind == GL_VERTEX_SHADER ==> name == "GL_VERTEX_SHADER"
    ensures kind == GL_FRAGMENT_SHADER ==> name == "GL_FRAGMENT_SHADER"
    ensures kind == GL_GEOMETRY_SHADER_EXT ==> name == "GL_GEOMETRY_SHADER_EXT"
    ensures name == "UNKNOWN SHADER TYPE" <==>
      kind != GL_VERTEX_SHADER && kind != GL_FRAGMENT_SHADER && kind != GL_GEOMETRY_SHADER_EXT
  {
    if kind == GL_VERTEX_SHADER then "GL_VERTEX_SHADER"
    else if kind == GL_FRAGMENT_SHADER then "GL_FRAGMENT_SHADER"
    else if kind == GL_GEOMETRY_SHADER_EXT then "GL_GEOMETRY_SHADER_EXT"
    else "UNKNOWN SHADER TYPE"
  }

  // ---------------------------------------------------------------------
  // The two process-wide tables

  class Registry {
    var shaderIds: Table
    var programIds: Table

    ghost predicate Valid()
      reads this
    {
      WellFormed(shaderIds) && WellFormed(programIds)
    }

    constructor ()
      ensures Valid() && shaderIds == map[] && programIds == map[]
    {
      shaderIds := map[];
      programIds := map[];
    }

    method RetainShader(id: nat)
      requires Valid()
      modifies this`shaderIds
      ensures Valid() && shaderIds == Retained(old(shaderIds), id)
    {
      RetainedReleasedWellFormed(shaderIds, id);
      if id == 0 { return; }
      if id in shaderIds {
        shaderIds := shaderIds[id := shaderIds[id] + 1];
      } else {
        shaderIds := shaderIds[id := 1];
      }
    }

    /** Releases a stage shader; `deleted` says whether the GL delete is
        issued: when the last holder lets go, and also for an untracked id. */
    method ReleaseShader(id: nat) returns (deleted: bool)
      requires Valid()
      modifies this`shaderIds
      ensures Valid() && shaderIds == Released(old(shaderIds), id)
      ensures deleted <==> id !in old(shaderIds) || old(shaderIds)[id] == 1
    {
      RetainedReleasedWellFormed(shaderIds, id);
      if id in shaderIds {
        shaderIds := shaderIds[id := shaderIds[id] - 1];
        deleted := shaderIds[id] == 0;
        if deleted {
          shaderIds := map k | k in shaderIds && k != id :: shaderIds[k];
        }
      } else {
        deleted := true;
      }
    }

    method RetainProgram(id: nat)
      requires Valid()
      modifies this`programIds
      ensures Valid() && programIds == Retained(old(programIds), id)
    {
      RetainedReleasedWellFormed(programIds, id);
      if id == 0 { return; }
      if id in programIds {
        programIds := programIds[id := programIds[id] + 1];
      } else {
        programIds := programIds[id := 1];
      }
    }

    /** Releases a program; `deleted` as for `ReleaseShader`. */
    method ReleaseProgram(id: nat) returns (deleted: bool)
      requires Valid()
      modifies this`programIds
      ensures Valid() && programIds == Released(old(programIds), id)
      ensures deleted <==> id !in old(programIds) || old(programIds)[id] == 1
    {
      RetainedReleasedWellFormed(programIds, id);
      if id in programIds {
        programIds := programIds[id := programIds[id] - 1];
        deleted := programIds[id] == 0;
        if deleted {
          programIds := map k | k in programIds && k != id :: programIds[k];
        }
      } else {
        deleted := true;
      }
    }

    /** Retains every id of `stages`, in order. */
    method RetainStages(stages: seq<Stage>)
      requires Valid()
      modifies this`shaderIds
      ensures Valid() && shaderIds == RetainAll(old(shaderIds), Ids(stages))
    {
      var i := 0;
      while i < |stages|
        invariant 0 <= i <= |stages| && Valid()
        invariant RetainAll(old(shaderIds), Ids(stages)) == RetainAll(shaderIds, Ids(stages)[i..])
      {
        assert Ids(stages)[i..][0] == stages[i].id && Ids(stages)[i..][1..] == Ids(stages)[i + 1..];
        RetainShader(stages[i].id);
        i := i + 1;
      }
    }

    /** Releases every non-zero id of `stages`, in order. */
    method ReleaseStages(stages: seq<Stage>)
      requires Valid()
      modifies this`shaderIds
      ensures Valid() && shaderIds == ReleaseAll(old(shaderIds), NonZero(Ids(stages)))
    {
      var i := 0;
      while i < |stages|
        invariant 0 <= i <= |stages| && Valid()
        invariant ReleaseAll(old(shaderIds), NonZero(Ids(stages))) == ReleaseAll(shaderIds, NonZero(Ids(stages)[i..]))
      {
        assert Ids(stages)[i..][0] == stages[i].id && Ids(stages)[i..][1..] == Ids(stages)[i + 1..];
        ghost var tail := NonZero(Ids(stages)[i + 1..]);
        assert NonZero(Ids(stages)[i..]) == (if stages[i].id != 0 then [stages[i].id] else []) + tail;
        if stages[i].id != 0 {
          assert ([stages[i].id] + tail)[0] == stages[i].id && ([stages[i].id] + tail)[1..] == tail;
          var _ := ReleaseShader(stages[i].id);
        } else {
          assert [] + tail == tail;
        }
        i := i + 1;
      }
      assert Ids(stages)[i..] == [];
    }
  }

  // ---------------------------------------------------------------------
  // A shader object

  class ShaderObject {
    var program: nat
    var loaded: bool
    var stages: seq<Stage>
    /** The process-wide tables, shared by every shader object. */
    const reg: Registry

    constructor (registry: Registry)
      ensures reg == registry && program == 0 && !loaded && stages == []
    {
      reg := registry;
      program := 0;
      loaded := false;
      stages := [];
    }

    /** The copy constructor: the copy holds the same ids; when the original
        is loaded, the program and every stage id are retained once more. */
    constructor Copy(mom: ShaderObject)
      requires mom.reg.Valid()
      modifies mom.reg
      ensures reg == mom.reg && reg.Valid()
      ensures program == mom.program && loaded == mom.loaded && stages == mom.stages
      ensures reg.programIds == if mom.loaded then Retained(old(mom.reg.programIds), program) else old(mom.reg.programIds)
      ensures reg.shaderIds == if mom.loaded then RetainAll(old(mom.reg.shaderIds), Ids(stages)) else old(mom.reg.shaderIds)
    {
      reg := mom.reg;
      program := mom.program;
      loaded := mom.loaded;
      stages := mom.stages;
      new;
      if loaded {
        reg.RetainProgram(program);
        reg.RetainStages(stages);
      }
    }

    function IsLoaded(): bool reads this { loaded }

    /** Two shader objects compare equal when they hold the same program. */
    predicate Equals(other: ShaderObject)
      reads this, other
    {
      program == other.program
    }

    /** Releases what the object holds when it is loaded, and marks it
        unloaded in any case. */
    method Unload()
      requires reg.Valid()
      modifies this, reg
      ensures reg.Valid() && !loaded
      ensures reg.shaderIds == UnloadedShaderIds(old(reg.shaderIds), old(loaded), old(stages))
      ensures reg.programIds == UnloadedProgramIds(old(reg.programIds), old(loaded), old(program))
      ensures old(loaded) ==> program == 0 && stages == []
      ensures !old(loaded) ==> program == old(program) && stages == old(stages)
    {
      if loaded {
        reg.ReleaseStages(stages);
        if program != 0 {
          var _ := reg.ReleaseProgram(program);
          program := 0;
        }
        stages := [];
      }
      loaded := false;
    }

    /** Assignment from `mom`: a loaded target first unloads itself, then it
        takes `mom`'s ids and, when `mom` is loaded, retains them.
        Self-assignment changes nothing. */
    method Assign(mom: ShaderObject)
      requires reg.Valid() && mom.reg == reg
      modifies this, reg
      ensures reg.Valid()
      ensures mom == this ==> (program == old(program) && loaded == old(loaded) && stages == old(stages)
        && reg.shaderIds == old(reg.shaderIds) && reg.programIds == old(reg.programIds))
      ensures mom != this ==> program == old(mom.program) && loaded == old(mom.loaded) && stages == old(mom.stages)
      ensures mom != this ==>
        var p := UnloadedProgramIds(old(reg.programIds), old(loaded), old(program));
        reg.programIds == if old(mom.loaded) then Retained(p, program) else p
      ensures mom != this ==>
        var t := UnloadedShaderIds(old(reg.shaderIds), old(loaded), old(stages));
        reg.shaderIds == if old(mom.loaded) then RetainAll(t, Ids(stages)) else t
    {
      if mom == this { return; }
      if loaded {
        Unload();
      }
      program := mom.program;
      loaded := mom.loaded;
      stages := mom.stages;
      if mom.loaded {
        reg.RetainProgram(program);
        reg.RetainStages(stages);
      }
    }

    /** Creates the program if there is none yet; `created` is the id GL
        hands out. */
    method CheckAndCreateProgram(created: nat)
      requires reg.Valid()
      modifies this`program, reg`programIds
      ensures reg.Valid()
      ensures old(program) == 0 ==> program == created && reg.programIds == Retained(old(reg.programIds), created)
      ensures old(program) != 0 ==> program == old(program) && reg.programIds == old(reg.programIds)
    {
      if program == 0 {
        program := created;
        reg.RetainProgram(program);
      }
    }

    /** Links the program. With no stages it reports the current loaded flag;
        otherwise it marks the object loaded whatever the link status. */
    method LinkProgram(created: nat) returns (ok: bool)
      requires reg.Valid()
      modifies this`program, this`loaded, reg`programIds
      ensures reg.Valid() && stages == old(stages) && ok == loaded
      ensures old(stages) == [] ==> loaded == old(loaded) && program == old(program) && reg.programIds == old(reg.programIds)
      ensures old(stages) != [] ==> (loaded
        && (old(program) == 0 ==> program == created && reg.programIds == Retained(old(reg.programIds), created))
        && (old(program) != 0 ==> program == old(program) && reg.programIds == old(reg.programIds)))
    {
      if stages != [] {
        CheckAndCreateProgram(created);
        loaded := true;
      }
      ok := loaded;
    }

    /** Compiles one stage after unloading. `createdProgram` and
        `createdShader` are the ids GL hands out, `glError` whether GL raised
        an error on the status query, and `compiled` the compile status. */
    method SetupShaderFromSource(kind: int, createdProgram: nat, createdShader: nat, glError: bool, compiled: bool)
      returns (ok: bool)
      requires reg.Valid()
      modifies this, reg
      ensures reg.Valid() && !loaded
      ensures ok <==> createdShader != 0 && !glError && compiled
      ensures var kept := if old(loaded) then [] else old(stages);
        stages == if ok then Put(kept, kind, createdShader) else kept
      ensures ok ==> Stage(kind, createdShader) in stages
      ensures UniqueKinds(old(stages)) ==> UniqueKinds(stages)
      ensures ok && UniqueKinds(old(stages)) ==> forall s :: s in stages && s.kind == kind ==> s.id == createdShader
      ensures program != 0 || createdProgram == 0
      ensures var t := UnloadedShaderIds(old(reg.shaderIds), old(loaded), old(stages));
        reg.shaderIds == if ok then Retained(t, createdShader) else t
      ensures var kept := if old(loaded) then 0 else old(program);
        var p := UnloadedProgramIds(old(reg.programIds), old(loaded), old(program));
        program == (if kept == 0 then createdProgram else kept)
        && reg.programIds == if kept == 0 then Retained(p, createdProgram) else p
    {
      Unload();
      CheckAndCreateProgram(createdProgram);
      if createdShader == 0 { return false; }
      if glError { return false; }
      if !compiled { return false; }
      stages := Put(stages, kind, createdShader);
      reg.RetainShader(createdShader);
      ok := true;
    }
  }
}
