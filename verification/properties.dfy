/** What `forwards_func` guarantees: the layers it ensures, the rows it
    leaves alone, the writes it performs, when it raises, and that a second
    run changes nothing. */
module RestauracionProperties {
  import opened Results
  import opened Tables
  import opened Schema
  import opened RestauracionDataFix

  /** No two desired layers share a GeoServer name. */
  ghost predicate DistinctNames(specs: seq<LayerSpec>) {
    forall i, j | 0 <= i < j < |specs| :: specs[i].nombreGeoserver != specs[j].nombreGeoserver
  }

  /** The first desired layer called `name`, if any. */
  ghost function SpecFor(specs: seq<LayerSpec>, name: string): (r: Option<LayerSpec>)
    ensures r.None? <==> forall i | 0 <= i < |specs| :: specs[i].nombreGeoserver != name
    ensures r.Some? ==> r.value.nombreGeoserver == name && r.value in specs
    decreases |specs|
  {
    if specs == [] then None
    else if specs[0].nombreGeoserver == name then Some(specs[0])
    else SpecFor(specs[1..], name)
  }

  /** The row an existing layer should become: reconciled when it belongs to
      group `gid` under a desired name, untouched otherwise. */
  ghost function Expected(gid: nat, specs: seq<LayerSpec>, l: Layer): (r: Layer)
    ensures r.grupo == l.grupo && r.nombreGeoserver == l.nombreGeoserver
    ensures r.estadoInicial == l.estadoInicial
  {
    if l.grupo != gid then l
    else match SpecFor(specs, l.nombreGeoserver)
      case None => l
      case Some(s) => Reconcile(l, s)
  }

  /** Every desired layer exists exactly once in group `gid` with the desired
      values. */
  ghost predicate Conforms(layers: Table<Layer>, gid: nat, specs: seq<LayerSpec>)
    requires layers.Valid()
  {
    forall i | 0 <= i < |specs| ::
      var m := Lookup(layers, LayerKey(gid, specs[i].nombreGeoserver));
      m.Unique? && HasSpec(layers.rows[m.id], specs[i])
  }

  // ---------------------------------------------------------------------
  // One iteration of the loop

  /** One iteration writes only the row with its key (reconciling it) and
      creates a row, with the defaults, only when none had the key. */
  lemma EnsureLayerRows(db: Db, gid: nat, s: LayerSpec, run: Run)
    requires db.Valid()
    requires EnsureLayer(db, gid, s) == Success(run)
    ensures forall id | id in db.layers.rows ::
      id in run.db.layers.rows &&
      run.db.layers.rows[id] ==
        if LayerKey(gid, s.nombreGeoserver)(db.layers.rows[id])
        then Reconcile(db.layers.rows[id], s) else db.layers.rows[id]
    ensures forall id | id in run.db.layers.rows && id !in db.layers.rows ::
      && run.db.layers.rows[id] == NewLayer(gid, s)
      && NoMatch(db.layers, LayerKey(gid, s.nombreGeoserver))
      && CreateLayer(id) in run.log
  {
    var key := LayerKey(gid, s.nombreGeoserver);
    match Lookup(db.layers, key)
    case Absent =>
    case Unique(lid) =>
      var row := db.layers.rows[lid];
      if Drift(row, s) == [] {
        assert Reconcile(row, s) == row;
      }
  }

  /** After one iteration exactly one layer has the key, with the desired
      values. */
  lemma EnsureLayerEstablishes(db: Db, gid: nat, s: LayerSpec, run: Run)
    requires db.Valid()
    requires EnsureLayer(db, gid, s) == Success(run)
    ensures var m := Lookup(run.db.layers, LayerKey(gid, s.nombreGeoserver));
      m.Unique? && HasSpec(run.db.layers.rows[m.id], s)
  {
    var key := LayerKey(gid, s.nombreGeoserver);
    EnsureLayerRows(db, gid, s, run);
    match Lookup(db.layers, key)
    case Absent =>
      var id := db.layers.next;
      assert id in run.db.layers.rows && id !in db.layers.rows;
      assert IsMatch(run.db.layers, key, id);
      assert OnlyMatch(run.db.layers, key, id);
    case Unique(lid) =>
      assert IsMatch(run.db.layers, key, lid);
      assert OnlyMatch(run.db.layers, key, lid);
  }

  /** One iteration writes at most once: a creation of a fresh row, or a
      save of exactly the drifted columns of the row with its key. */
  lemma EnsureLayerLog(db: Db, gid: nat, s: LayerSpec, run: Run)
    requires db.Valid()
    requires EnsureLayer(db, gid, s) == Success(run)
    ensures |run.log| <= 1
    ensures forall w | w in run.log ::
      || (w.CreateLayer? && w.id !in db.layers.rows && w.id in run.db.layers.rows)
      || (&& w.SaveLayer?
          && IsMatch(db.layers, LayerKey(gid, s.nombreGeoserver), w.id)
          && w.fields == Drift(db.layers.rows[w.id], s)
          && w.fields != [])
    ensures forall id | IsMatch(db.layers, LayerKey(gid, s.nombreGeoserver), id) &&
        Drift(db.layers.rows[id], s) != [] ::
      SaveLayer(id, Drift(db.layers.rows[id], s)) in run.log
  {
  }

  /** One iteration leaves every other key's rows alone. */
  lemma EnsureLayerOtherKey(db: Db, gid: nat, s: LayerSpec, run: Run, name: string)
    requires db.Valid()
    requires EnsureLayer(db, gid, s) == Success(run)
    requires name != s.nombreGeoserver
    ensures SameMatches(db.layers, run.db.layers, LayerKey(gid, name))
    ensures forall id | IsMatch(db.layers, LayerKey(gid, name), id) ::
      run.db.layers.rows[id] == db.layers.rows[id]
  {
    EnsureLayerRows(db, gid, s, run);
  }

  // ---------------------------------------------------------------------
  // The loop over a list of desired layers

  /** A name not among the remaining specs is not reconciled by them. */
  lemma SpecForRest(specs: seq<LayerSpec>)
    requires |specs| > 0 && DistinctNames(specs)
    ensures SpecFor(specs[1..], specs[0].nombreGeoserver).None?
    ensures DistinctNames(specs[1..])
  {
  }

  /** Reconciling a row against the first spec, then against the rest, is
      reconciling it against the whole list. */
  lemma ExpectedAfterFirst(gid: nat, specs: seq<LayerSpec>, l: Layer)
    requires |specs| > 0 && DistinctNames(specs)
    ensures var s := specs[0];
      var once := if LayerKey(gid, s.nombreGeoserver)(l) then Reconcile(l, s) else l;
      Expected(gid, specs[1..], once) == Expected(gid, specs, l)
  {
    SpecForRest(specs);
  }

  /** How the loop leaves the rows that existed before it: each is reconciled
      against its desired definition when it is in group `gid` under a
      desired name, and untouched otherwise. Every row it adds is the
      default row of a desired layer that had no row in the group. */
  lemma {:induction false} EnsureLayersRows(db: Db, gid: nat, specs: seq<LayerSpec>, run: Run)
    requires db.Valid() && DistinctNames(specs)
    requires EnsureLayers(db, gid, specs) == Success(run)
    ensures forall id | id in db.layers.rows ::
      id in run.db.layers.rows &&
      run.db.layers.rows[id] == Expected(gid, specs, db.layers.rows[id])
    ensures forall id | id in run.db.layers.rows && id !in db.layers.rows ::
      exists i :: 0 <= i < |specs| &&
        run.db.layers.rows[id] == NewLayer(gid, specs[i]) &&
        NoMatch(db.layers, LayerKey(gid, specs[i].nombreGeoserver))
    decreases |specs|
  {
    if specs != [] {
      var s, rest := specs[0], specs[1..];
      var first := EnsureLayer(db, gid, s).value;
      var next := EnsureLayers(first.db, gid, rest).value;
      assert run.db == next.db;
      SpecForRest(specs);
      EnsureLayerRows(db, gid, s, first);
      EnsureLayersRows(first.db, gid, rest, next);
      forall id | id in db.layers.rows
        ensures run.db.layers.rows[id] == Expected(gid, specs, db.layers.rows[id])
      {
        ExpectedAfterFirst(gid, specs, db.layers.rows[id]);
      }
      forall id | id in run.db.layers.rows && id !in db.layers.rows
        ensures exists i :: (0 <= i < |specs| &&
          run.db.layers.rows[id] == NewLayer(gid, specs[i]) &&
          NoMatch(db.layers, LayerKey(gid, specs[i].nombreGeoserver)))
      {
        if id in first.db.layers.rows {
          assert run.db.layers.rows[id] == NewLayer(gid, specs[0]);
        } else {
          var j :| 0 <= j < |rest| &&
            run.db.layers.rows[id] == NewLayer(gid, rest[j]) &&
            NoMatch(first.db.layers, LayerKey(gid, rest[j].nombreGeoserver));
          assert rest[j] == specs[j + 1];
          EnsureLayerOtherKey(db, gid, s, first, rest[j].nombreGeoserver);
        }
      }
    }
  }

  /** A key none of the specs names keeps exactly its rows, unchanged. */
  lemma EnsureLayersOtherKey(db: Db, gid: nat, specs: seq<LayerSpec>, run: Run, name: string)
    requires db.Valid() && DistinctNames(specs)
    requires EnsureLayers(db, gid, specs) == Success(run)
    requires SpecFor(specs, name).None?
    ensures SameMatches(db.layers, run.db.layers, LayerKey(gid, name))
    ensures forall id | IsMatch(db.layers, LayerKey(gid, name), id) ::
      run.db.layers.rows[id] == db.layers.rows[id]
  {
    EnsureLayersRows(db, gid, specs, run);
  }

  /** After the loop every spec's layer exists exactly once in group `gid`,
      with the desired values. */
  lemma {:induction false} EnsureLayersConforms(db: Db, gid: nat, specs: seq<LayerSpec>, run: Run)
    requires db.Valid() && DistinctNames(specs)
    requires EnsureLayers(db, gid, specs) == Success(run)
    ensures Conforms(run.db.layers, gid, specs)
    decreases |specs|
  {
    if specs != [] {
      var s, rest := specs[0], specs[1..];
      var first := EnsureLayer(db, gid, s).value;
      var next := EnsureLayers(first.db, gid, rest).value;
      assert run.db == next.db;
      SpecForRest(specs);
      EnsureLayerEstablishes(db, gid, s, first);
      EnsureLayersConforms(first.db, gid, rest, next);
      EnsureLayersOtherKey(first.db, gid, rest, next, s.nombreGeoserver);
      var key := LayerKey(gid, s.nombreGeoserver);
      LookupDependsOnMatches(first.db.layers, run.db.layers, key);
      forall i | 0 <= i < |specs|
        ensures var m := Lookup(run.db.layers, LayerKey(gid, specs[i].nombreGeoserver));
          m.Unique? && HasSpec(run.db.layers.rows[m.id], specs[i])
      {
        if i == 0 {
          var m := Lookup(first.db.layers, key);
          assert IsMatch(first.db.layers, key, m.id);
        } else {
          assert specs[i] == rest[i - 1];
        }
      }
    }
  }

  /** The loop raises exactly when some desired layer already has several
      rows in group `gid`; the error names such a layer. */
  lemma {:induction false} EnsureLayersFails(db: Db, gid: nat, specs: seq<LayerSpec>)
    requires db.Valid() && DistinctNames(specs)
    ensures EnsureLayers(db, gid, specs).Failure? <==>
      exists i :: 0 <= i < |specs| &&
        SeveralMatch(db.layers, LayerKey(gid, specs[i].nombreGeoserver))
    ensures EnsureLayers(db, gid, specs).Failure? ==>
      exists i :: 0 <= i < |specs| &&
        SeveralMatch(db.layers, LayerKey(gid, specs[i].nombreGeoserver)) &&
        EnsureLayers(db, gid, specs).error == MultipleLayers(specs[i].nombreGeoserver)
    decreases |specs|
  {
    if specs != [] {
      var s, rest := specs[0], specs[1..];
      SpecForRest(specs);
      match EnsureLayer(db, gid, s)
      case Failure(_) =>
      case Success(first) =>
        EnsureLayersFails(first.db, gid, rest);
        forall j | 0 <= j < |rest|
          ensures SeveralMatch(first.db.layers, LayerKey(gid, rest[j].nombreGeoserver))
              <==> SeveralMatch(db.layers, LayerKey(gid, rest[j].nombreGeoserver))
        {
          assert rest[j] == specs[j + 1];
          var key := LayerKey(gid, rest[j].nombreGeoserver);
          EnsureLayerOtherKey(db, gid, s, first, rest[j].nombreGeoserver);
          LookupDependsOnMatches(db.layers, first.db.layers, key);
        }
        if EnsureLayers(db, gid, specs).Failure? {
          var j :| 0 <= j < |rest| &&
            SeveralMatch(first.db.layers, LayerKey(gid, rest[j].nombreGeoserver)) &&
            EnsureLayers(first.db, gid, rest).error == MultipleLayers(rest[j].nombreGeoserver);
          assert rest[j] == specs[j + 1];
        } else {
          forall i | 0 <= i < |specs|
            ensures !SeveralMatch(db.layers, LayerKey(gid, specs[i].nombreGeoserver))
          {
            if i > 0 {
              assert specs[i] == rest[i - 1];
            }
          }
        }
    }
  }

  /** A loop over layers that already conform writes nothing and changes
      nothing. */
  lemma {:induction false} EnsureLayersQuiescent(db: Db, gid: nat, specs: seq<LayerSpec>)
    requires db.Valid()
    requires Conforms(db.layers, gid, specs)
    ensures EnsureLayers(db, gid, specs) == Success(Run(db, []))
    decreases |specs|
  {
    if specs != [] {
      var s, rest := specs[0], specs[1..];
      var m := Lookup(db.layers, LayerKey(gid, s.nombreGeoserver));
      assert m.Unique? && HasSpec(db.layers.rows[m.id], s);
      assert EnsureLayer(db, gid, s) == Success(Run(db, []));
      forall i | 0 <= i < |rest|
        ensures var m := Lookup(db.layers, LayerKey(gid, rest[i].nombreGeoserver));
          m.Unique? && HasSpec(db.layers.rows[m.id], rest[i])
      {
        assert rest[i] == specs[i + 1];
      }
      EnsureLayersQuiescent(db, gid, rest);
    }
  }

  /** The loop's writes: each creation adds a row that was not there, every
      added row was logged as created, and each save lists exactly the
      drifted, non-empty columns of an existing row under a desired key. */
  lemma {:induction false} EnsureLayersLog(db: Db, gid: nat, specs: seq<LayerSpec>, run: Run)
    requires db.Valid() && DistinctNames(specs)
    requires EnsureLayers(db, gid, specs) == Success(run)
    ensures forall w | w in run.log && w.CreateLayer? ::
      w.id !in db.layers.rows && w.id in run.db.layers.rows
    ensures forall id | id in run.db.layers.rows && id !in db.layers.rows ::
      CreateLayer(id) in run.log
    ensures forall w | w in run.log && w.SaveLayer? ::
      exists i :: 0 <= i < |specs| &&
        IsMatch(db.layers, LayerKey(gid, specs[i].nombreGeoserver), w.id) &&
        w.fields == Drift(db.layers.rows[w.id], specs[i]) &&
        w.fields != []
    ensures forall i, id | 0 <= i < |specs| &&
        IsMatch(db.layers, LayerKey(gid, specs[i].nombreGeoserver), id) &&
        Drift(db.layers.rows[id], specs[i]) != [] ::
      SaveLayer(id, Drift(db.layers.rows[id], specs[i])) in run.log
    ensures forall w | w in run.log :: w.CreateLayer? || w.SaveLayer?
    decreases |specs|
  {
    if specs != [] {
      var s, rest := specs[0], specs[1..];
      var first := EnsureLayer(db, gid, s).value;
      var next := EnsureLayers(first.db, gid, rest).value;
      assert run == Run(next.db, first.log + next.log);
      SpecForRest(specs);
      EnsureLayerRows(db, gid, s, first);
      EnsureLayerLog(db, gid, s, first);
      EnsureLayersRows(first.db, gid, rest, next);
      EnsureLayersLog(first.db, gid, rest, next);
      forall w | w in run.log && w.SaveLayer?
        ensures exists i :: (0 <= i < |specs| &&
          IsMatch(db.layers, LayerKey(gid, specs[i].nombreGeoserver), w.id) &&
          w.fields == Drift(db.layers.rows[w.id], specs[i]) &&
          w.fields != [])
      {
        if w in first.log {
          assert IsMatch(db.layers, LayerKey(gid, specs[0].nombreGeoserver), w.id);
        } else {
          var j :| 0 <= j < |rest| &&
            IsMatch(first.db.layers, LayerKey(gid, rest[j].nombreGeoserver), w.id) &&
            w.fields == Drift(first.db.layers.rows[w.id], rest[j]) &&
            w.fields != [];
          assert rest[j] == specs[j + 1];
          EnsureLayerOtherKey(db, gid, s, first, rest[j].nombreGeoserver);
        }
      }
      forall i, id | 0 <= i < |specs| &&
          IsMatch(db.layers, LayerKey(gid, specs[i].nombreGeoserver), id) &&
          Drift(db.layers.rows[id], specs[i]) != []
        ensures SaveLayer(id, Drift(db.layers.rows[id], specs[i])) in run.log
      {
        if i > 0 {
          assert specs[i] == rest[i - 1];
          EnsureLayerOtherKey(db, gid, s, first, specs[i].nombreGeoserver);
          assert IsMatch(first.db.layers, LayerKey(gid, rest[i - 1].nombreGeoserver), id);
        }
      }
    }
  }

  /** No layer row is written twice in one log: every creation and every
      save concerns a different row. */
  ghost predicate WritesOnce(log: seq<Write>) {
    forall a, b | 0 <= a < b < |log| && !log[a].CreateGroup? && !log[b].CreateGroup? ::
      log[a].id != log[b].id
  }

  /** Two logs that each write a layer row at most once, and never write
      the same row, together write each row at most once. */
  lemma WritesOnceConcat(first: seq<Write>, rest: seq<Write>)
    requires WritesOnce(first) && WritesOnce(rest)
    requires forall v, w | v in first && w in rest && !v.CreateGroup? && !w.CreateGroup? ::
      v.id != w.id
    ensures WritesOnce(first + rest)
  {
    var full, k := first + rest, |first|;
    forall a, b | 0 <= a < b < |full| && !full[a].CreateGroup? && !full[b].CreateGroup?
      ensures full[a].id != full[b].id
    {
      if b < k {
        assert full[a] == first[a] && full[b] == first[b];
      } else if a < k {
        assert full[a] == first[a] && full[b] == rest[b - k];
      } else {
        assert full[a] == rest[a - k] && full[b] == rest[b - k];
      }
    }
  }

  /** The row one iteration writes is never written again by the iterations
      after it. */
  lemma FirstWriteNotRepeated(db: Db, gid: nat, specs: seq<LayerSpec>, first: Run, next: Run)
    requires db.Valid() && |specs| > 0 && DistinctNames(specs)
    requires EnsureLayer(db, gid, specs[0]) == Success(first)
    requires EnsureLayers(first.db, gid, specs[1..]) == Success(next)
    ensures forall v, w | v in first.log && w in next.log :: v.id != w.id
  {
    var s, rest := specs[0], specs[1..];
    SpecForRest(specs);
    EnsureLayerRows(db, gid, s, first);
    EnsureLayerLog(db, gid, s, first);
    EnsureLayersLog(first.db, gid, rest, next);
    forall v, w | v in first.log && w in next.log
      ensures v.id != w.id
    {
      if w.SaveLayer? {
        var j :| 0 <= j < |rest| &&
          IsMatch(first.db.layers, LayerKey(gid, rest[j].nombreGeoserver), w.id);
        assert rest[j] == specs[j + 1];
      }
    }
  }

  /** Under distinct names the loop creates or saves each layer row at most
      once. */
  lemma {:induction false} EnsureLayersWritesOnce(db: Db, gid: nat, specs: seq<LayerSpec>, run: Run)
    requires db.Valid() && DistinctNames(specs)
    requires EnsureLayers(db, gid, specs) == Success(run)
    ensures WritesOnce(run.log)
    decreases |specs|
  {
    if specs != [] {
      var first := EnsureLayer(db, gid, specs[0]).value;
      var next := EnsureLayers(first.db, gid, specs[1..]).value;
      assert run.log == first.log + next.log;
      SpecForRest(specs);
      EnsureLayerLog(db, gid, specs[0], first);
      EnsureLayersWritesOnce(first.db, gid, specs[1..], next);
      FirstWriteNotRepeated(db, gid, specs, first, next);
      WritesOnceConcat(first.log, next.log);
    }
  }
}
