/** Guarantees of the whole forward pass, `forwards_func`, over any database
    it may find. */
module RestauracionTheorems {
  import opened Results
  import opened Tables
  import opened Schema
  import opened RestauracionDataFix
  import opened RestauracionProperties

  /** The desired layers are six, under pairwise distinct GeoServer names,
      so the loop meets each key once. */
  lemma DesiredNamesDistinct()
    ensures |Desired| == 6
    ensures DistinctNames(Desired)
  {
  }

  /** The group the layers are ensured in, for the general project `pid`:
      the existing "Restauración" group, or the key the new one gets. */
  ghost function TargetGroup(db: Db, pid: nat): nat
    requires db.Valid()
  {
    match Lookup(db.groups, GroupKey(pid))
    case Unique(gid) => gid
    case _ => db.groups.next
  }

  /** Some lookup of the fix matches several rows: the general project, its
      "Restauración" group, or a desired layer within that group. */
  ghost predicate Ambiguous(db: Db)
    requires db.Valid()
  {
    || SeveralMatch(db.projects, IsGeneral)
    || (Lookup(db.projects, IsGeneral).Unique? &&
        var pid := Lookup(db.projects, IsGeneral).id;
        || SeveralMatch(db.groups, GroupKey(pid))
        || exists i :: 0 <= i < |Desired| &&
             SeveralMatch(db.layers, LayerKey(TargetGroup(db, pid), Desired[i].nombreGeoserver)))
  }

  /** The fix raises (and its transaction commits nothing) exactly when one
      of its lookups is ambiguous. */
  lemma ForwardsFailsIffAmbiguous(db: Db)
    requires db.Valid()
    ensures Forwards(db).Failure? <==> Ambiguous(db)
  {
    DesiredNamesDistinct();
    match Lookup(db.projects, IsGeneral)
    case Absent =>
    case Multiple =>
    case Unique(pid) =>
      match Lookup(db.groups, GroupKey(pid))
      case Multiple =>
      case Unique(gid) =>
        EnsureLayersFails(db, gid, Desired);
      case Absent =>
        var (groups, gid) := Insert(db.groups, NewGroup(pid));
        EnsureLayersFails(db.(groups := groups), gid, Desired);
  }

  /** On a database whose foreign keys hold, no layer can sit in a group that
      does not exist yet, so a freshly created group never makes the layer
      lookups ambiguous. */
  lemma NewGroupIsEmpty(db: Db, name: string)
    requires db.Valid() && db.ReferentiallyIntact()
    ensures NoMatch(db.layers, LayerKey(db.groups.next, name))
  {
    forall id | id in db.layers.rows
      ensures db.layers.rows[id].grupo != db.groups.next
    {
      assert db.layers.rows[id].grupo in db.groups.rows;
    }
  }

  /** The run always leaves exactly one "Restauración" group in the general
      project. A group it had to create has order 7 and fold state "close"
      and is logged first; an existing group is reused and left untouched. */
  lemma ForwardsGroup(db: Db, run: Run, pid: nat)
    requires db.Valid()
    requires Forwards(db) == Success(run)
    requires Lookup(db.projects, IsGeneral) == Unique(pid)
    ensures Lookup(run.db.groups, GroupKey(pid)).Unique?
    ensures var gid := Lookup(run.db.groups, GroupKey(pid)).id;
      Lookup(db.groups, GroupKey(pid)).Absent? ==>
        && gid !in db.groups.rows
        && run.db.groups.rows == db.groups.rows[gid := LayerGroup(pid, "Restauración", 7, "close")]
        && |run.log| > 0 && run.log[0] == CreateGroup(gid)
    ensures var gid := Lookup(run.db.groups, GroupKey(pid)).id;
      Lookup(db.groups, GroupKey(pid)).Unique? ==>
        && gid == Lookup(db.groups, GroupKey(pid)).id
        && run.db.groups == db.groups
    ensures Lookup(run.db.groups, GroupKey(pid)).id == TargetGroup(db, pid)
  {
    match Lookup(db.groups, GroupKey(pid))
    case Unique(gid) =>
      var inner := EnsureLayers(db, gid, Desired).value;
      assert run == inner;
      LookupDependsOnMatches(db.groups, run.db.groups, GroupKey(pid));
    case Absent =>
      var (groups, gid) := Insert(db.groups, NewGroup(pid));
      var inner := EnsureLayers(db.(groups := groups), gid, Desired).value;
      assert run == Run(inner.db, [CreateGroup(gid)] + inner.log);
      assert IsMatch(run.db.groups, GroupKey(pid), gid);
      assert OnlyMatch(run.db.groups, GroupKey(pid), gid);
  }

  /** The layer loop as `Forwards` runs it, on the database it runs it on. */
  lemma ForwardsUnfold(db: Db, run: Run, pid: nat) returns (before: Db, gid: nat, inner: Run)
    requires db.Valid()
    requires Forwards(db) == Success(run)
    requires Lookup(db.projects, IsGeneral) == Unique(pid)
    ensures before.Valid() && before.layers == db.layers && before.projects == db.projects
    ensures gid == TargetGroup(db, pid)
    ensures EnsureLayers(before, gid, Desired) == Success(inner)
    ensures inner.db == run.db
    ensures Lookup(db.groups, GroupKey(pid)).Unique? ==> run.log == inner.log
    ensures Lookup(db.groups, GroupKey(pid)).Absent? ==>
      gid !in db.groups.rows && run.log == [CreateGroup(gid)] + inner.log
  {
    match Lookup(db.groups, GroupKey(pid))
    case Unique(g) =>
      before, gid := db, g;
      inner := EnsureLayers(db, gid, Desired).value;
    case Absent =>
      var (groups, g) := Insert(db.groups, NewGroup(pid));
      before, gid := db.(groups := groups), g;
      inner := EnsureLayers(before, gid, Desired).value;
  }

  /** After the run the group holds every desired layer exactly once, with
      its desired display name, order, store and metadata record. Layers
      that existed are reconciled only when they are in the group under a
      desired name and keep their other columns (`estado_inicial` included);
      every other layer is untouched. Every new layer is a desired layer that
      was missing, created with `estado_inicial` false. */
  lemma ForwardsLayers(db: Db, run: Run, pid: nat)
    requires db.Valid()
    requires Forwards(db) == Success(run)
    requires Lookup(db.projects, IsGeneral) == Unique(pid)
    ensures Conforms(run.db.layers, TargetGroup(db, pid), Desired)
    ensures forall id | id in db.layers.rows ::
      id in run.db.layers.rows &&
      run.db.layers.rows[id] == Expected(TargetGroup(db, pid), Desired, db.layers.rows[id])
    ensures forall id | id in db.layers.rows ::
      (db.layers.rows[id].grupo != TargetGroup(db, pid) ||
       SpecFor(Desired, db.layers.rows[id].nombreGeoserver).None?) ==>
      run.db.layers.rows[id] == db.layers.rows[id]
    ensures forall id | id in db.layers.rows ::
      run.db.layers.rows[id].estadoInicial == db.layers.rows[id].estadoInicial
    ensures forall id | id in run.db.layers.rows && id !in db.layers.rows ::
      !run.db.layers.rows[id].estadoInicial &&
      exists i :: 0 <= i < |Desired| &&
        run.db.layers.rows[id] == NewLayer(TargetGroup(db, pid), Desired[i]) &&
        NoMatch(db.layers, LayerKey(TargetGroup(db, pid), Desired[i].nombreGeoserver))
  {
    DesiredNamesDistinct();
    var before, gid, inner := ForwardsUnfold(db, run, pid);
    EnsureLayersConforms(before, gid, Desired, inner);
    EnsureLayersRows(before, gid, Desired, inner);
  }

  /** The run writes a layer only to create a missing desired layer or to
      save exactly the columns that drifted from their desired values. It
      never writes a project, and it creates a group only when there was
      none. */
  lemma ForwardsWrites(db: Db, run: Run, pid: nat)
    requires db.Valid()
    requires Forwards(db) == Success(run)
    requires Lookup(db.projects, IsGeneral) == Unique(pid)
    ensures forall w | w in run.log && w.CreateGroup? ::
      Lookup(db.groups, GroupKey(pid)).Absent? && w.id !in db.groups.rows
    ensures forall w | w in run.log && w.CreateLayer? ::
      w.id !in db.layers.rows && w.id in run.db.layers.rows
    ensures forall w | w in run.log && w.SaveLayer? ::
      exists i :: 0 <= i < |Desired| &&
        IsMatch(db.layers, LayerKey(TargetGroup(db, pid), Desired[i].nombreGeoserver), w.id) &&
        w.fields == Drift(db.layers.rows[w.id], Desired[i]) &&
        w.fields != []
    ensures forall id | id in run.db.layers.rows && id !in db.layers.rows ::
      CreateLayer(id) in run.log
    ensures forall i, id | 0 <= i < |Desired| &&
        IsMatch(db.layers, LayerKey(TargetGroup(db, pid), Desired[i].nombreGeoserver), id) &&
        Drift(db.layers.rows[id], Desired[i]) != [] ::
      SaveLayer(id, Drift(db.layers.rows[id], Desired[i])) in run.log
    ensures WritesOnce(run.log)
  {
    DesiredNamesDistinct();
    var before, gid, inner := ForwardsUnfold(db, run, pid);
    EnsureLayersLog(before, gid, Desired, inner);
    EnsureLayersWritesOnce(before, gid, Desired, inner);
    if run.log != inner.log {
      WritesOnceConcat([CreateGroup(gid)], inner.log);
    }
    forall w | w in run.log
      ensures w in inner.log || (w.CreateGroup? && Lookup(db.groups, GroupKey(pid)).Absent? && w.id !in db.groups.rows)
    {
    }
  }

  /** On a database whose foreign keys hold, a run that has to create the
      group creates every desired layer in it, with the defaults. */
  lemma ForwardsFillsNewGroup(db: Db, run: Run, pid: nat)
    requires db.Valid() && db.ReferentiallyIntact()
    requires Forwards(db) == Success(run)
    requires Lookup(db.projects, IsGeneral) == Unique(pid)
    requires Lookup(db.groups, GroupKey(pid)).Absent?
    ensures forall i | 0 <= i < |Desired| ::
      var m := Lookup(run.db.layers, LayerKey(TargetGroup(db, pid), Desired[i].nombreGeoserver));
      m.Unique? && m.id !in db.layers.rows &&
      run.db.layers.rows[m.id] == NewLayer(TargetGroup(db, pid), Desired[i])
  {
    DesiredNamesDistinct();
    ForwardsLayers(db, run, pid);
    var gid := TargetGroup(db, pid);
    assert gid == db.groups.next;
    forall i | 0 <= i < |Desired|
      ensures var m := Lookup(run.db.layers, LayerKey(gid, Desired[i].nombreGeoserver));
        m.Unique? && m.id !in db.layers.rows &&
        run.db.layers.rows[m.id] == NewLayer(gid, Desired[i])
    {
      var key := LayerKey(gid, Desired[i].nombreGeoserver);
      var m := Lookup(run.db.layers, key);
      assert IsMatch(run.db.layers, key, m.id);
      NewGroupIsEmpty(db, Desired[i].nombreGeoserver);
      var j :| 0 <= j < |Desired| && run.db.layers.rows[m.id] == NewLayer(gid, Desired[j]);
      assert Desired[j].nombreGeoserver == Desired[i].nombreGeoserver;
    }
  }

  /** A layer that already has its desired values is never saved. */
  lemma ForwardsSkipsConformingLayers(db: Db, run: Run, pid: nat, i: nat, id: nat)
    requires db.Valid()
    requires Forwards(db) == Success(run)
    requires Lookup(db.projects, IsGeneral) == Unique(pid)
    requires i < |Desired|
    requires IsMatch(db.layers, LayerKey(TargetGroup(db, pid), Desired[i].nombreGeoserver), id)
    requires HasSpec(db.layers.rows[id], Desired[i])
    ensures forall w | w in run.log :: !(w.SaveLayer? && w.id == id)
  {
    DesiredNamesDistinct();
    ForwardsWrites(db, run, pid);
  }

  /** Running the fix on its own result succeeds, writes nothing and changes
      nothing. */
  lemma ForwardsIdempotent(db: Db, run: Run)
    requires db.Valid()
    requires Forwards(db) == Success(run)
    ensures Forwards(run.db) == Success(Run(run.db, []))
  {
    match Lookup(db.projects, IsGeneral)
    case Absent =>
    case Unique(pid) =>
      ForwardsGroup(db, run, pid);
      ForwardsLayers(db, run, pid);
      var gid := Lookup(run.db.groups, GroupKey(pid)).id;
      EnsureLayersQuiescent(run.db, gid, Desired);
  }

  /** The run keeps every foreign key pointing at an existing row. */
  lemma ForwardsKeepsIntegrity(db: Db, run: Run)
    requires db.Valid() && db.ReferentiallyIntact()
    requires Forwards(db) == Success(run)
    ensures run.db.ReferentiallyIntact()
  {
    match Lookup(db.projects, IsGeneral)
    case Absent =>
    case Unique(pid) =>
      assert IsMatch(db.projects, IsGeneral, pid);
      ForwardsGroup(db, run, pid);
      ForwardsLayers(db, run, pid);
      var gid := Lookup(run.db.groups, GroupKey(pid)).id;
      assert IsMatch(run.db.groups, GroupKey(pid), gid);
      forall id | id in run.db.layers.rows
        ensures run.db.layers.rows[id].grupo in run.db.groups.rows
      {
        if id !in db.layers.rows {
          var i :| 0 <= i < |Desired| &&
            run.db.layers.rows[id] == NewLayer(TargetGroup(db, pid), Desired[i]);
        }
      }
  }

  /** The run gives the "red_viveros" layer no metadata record and the
      "visor" store, whatever it held before. */
  lemma RedViverosHasNoMetadata(db: Db, run: Run, pid: nat)
    requires db.Valid()
    requires Forwards(db) == Success(run)
    requires Lookup(db.projects, IsGeneral) == Unique(pid)
    ensures var m := Lookup(run.db.layers, LayerKey(TargetGroup(db, pid), "red_viveros"));
      m.Unique? &&
      run.db.layers.rows[m.id].metadataId == None &&
      run.db.layers.rows[m.id].storeGeoserver == "visor"
  {
    ForwardsLayers(db, run, pid);
    assert Desired[1].nombreGeoserver == "red_viveros";
  }
}
