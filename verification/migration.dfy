/** The data migration `0002_restauracion_data_fix`: it makes sure the
    "general" project has a "Restauración" layer group holding the six
    restoration layers with their production display names, order, GeoServer
    workspace and metadata record.

    The forward pass is a pure function from the database it finds to the
    database it leaves, together with the log of rows it created or saved.
    An ORM exception (`MultipleObjectsReturned`) is a `Failure`; the
    surrounding transaction then commits nothing, so the database stays as
    it was. */
module RestauracionDataFix {
  import opened Results
  import opened Tables
  import opened Schema

  /** Short name of the project the fix applies to. */
  const GeneralProject: string := "general"

  /** Name of the layer group the fix ensures. */
  const GroupName: string := "Restauración"

  /** Defaults of a group the fix has to create. */
  const NewGroupOrden: int := 7
  const NewGroupFoldState: string := "close"

  /** One desired layer: GeoServer name, display name, GeoServer store
      (workspace), metadata record and position within the group. */
  datatype LayerSpec = LayerSpec(
    nombreGeoserver: string,
    nombreDisplay: string,
    store: string,
    metadataId: Option<string>,
    orden: int)

  const IntegridadMetadata: string := "55d29ef5-e419-489f-a450-3299e4bcc4d4"
  const WeplanMetadata: string := "1d6b06b6-8a57-4c87-97ef-e156cb40dc46"

  /** The layers the group must hold, as in production. */
  const Desired: seq<LayerSpec> := [
    LayerSpec("integr_total4326", "Integridad", "restauracion", Some(IntegridadMetadata), 1),
    LayerSpec("red_viveros", "Red Viveros", "visor", None, 2),
    LayerSpec("scen_mincost_target1", "Escenario mínimo costo target 1", "weplan", Some(WeplanMetadata), 3),
    LayerSpec("scen_mincost_target2", "Escenario mínimo costo target 2", "weplan", Some(WeplanMetadata), 4),
    LayerSpec("scen_mincost_target3", "Escenario mínimo costo target 3", "weplan", Some(WeplanMetadata), 5),
    LayerSpec("scen_mincost_target4", "Escenario mínimo costo target 4", "weplan", Some(WeplanMetadata), 6)
  ]

  /** The layer columns the fix reconciles on an existing layer. */
  datatype LayerField = NombreDisplay | Orden | StoreGeoserver | MetadataId

  /** A database write the fix performs. `SaveLayer` carries the
      `update_fields` list of the save. */
  datatype Write =
    | CreateGroup(id: nat)
    | CreateLayer(id: nat)
    | SaveLayer(id: nat, fields: seq<LayerField>)

  /** The database after a (partial) pass and the writes that produced it. */
  datatype Run = Run(db: Db, log: seq<Write>)

  /** The ORM exceptions the fix can raise: a `get` that matched several rows. */
  datatype MigrationError =
    | MultipleProjects
    | MultipleGroups
    | MultipleLayers(nombreGeoserver: string)

  /** Filter of `Project.objects.get(nombre_corto='general')`. */
  function IsGeneral(p: Project): bool {
    p.nombreCorto == GeneralProject
  }

  /** Filter of the group lookup: the "Restauración" group of project `pid`. */
  function GroupKey(pid: nat): LayerGroup -> bool {
    (g: LayerGroup) => g.proyecto == pid && g.nombre == GroupName
  }

  /** Filter of the layer lookup: layer `name` of group `gid`. */
  function LayerKey(gid: nat, name: string): Layer -> bool {
    (l: Layer) => l.grupo == gid && l.nombreGeoserver == name
  }

  /** The group `get_or_create` inserts when none exists. */
  function NewGroup(pid: nat): (g: LayerGroup)
    ensures GroupKey(pid)(g)
    ensures g.orden == 7 && g.foldState == "close"
  {
    LayerGroup(pid, GroupName, NewGroupOrden, NewGroupFoldState)
  }

  /** The layer `get_or_create` inserts when none exists: the desired values
      and a layer that is initially switched off. */
  function NewLayer(gid: nat, s: LayerSpec): (l: Layer)
    ensures LayerKey(gid, s.nombreGeoserver)(l)
    ensures HasSpec(l, s)
    ensures !l.estadoInicial
  {
    Layer(gid, s.nombreGeoserver, s.nombreDisplay, s.store, false, s.metadataId, s.orden)
  }

  /** The four reconciled columns of `l` hold the values `s` asks for. */
  predicate HasSpec(l: Layer, s: LayerSpec) {
    && l.nombreDisplay == s.nombreDisplay
    && l.orden == s.orden
    && l.storeGeoserver == s.store
    && l.metadataId == s.metadataId
  }

  /** Position of a column in the `updates` dictionary, which is filled in
      this order. */
  function Rank(f: LayerField): nat {
    match f
    case NombreDisplay => 0
    case Orden => 1
    case StoreGeoserver => 2
    case MetadataId => 3
  }

  /** The `updates` keys: the reconciled columns where `l` differs from `s`,
      in dictionary insertion order. */
  function Drift(l: Layer, s: LayerSpec): (fs: seq<LayerField>)
    ensures NombreDisplay in fs <==> l.nombreDisplay != s.nombreDisplay
    ensures Orden in fs <==> l.orden != s.orden
    ensures StoreGeoserver in fs <==> l.storeGeoserver != s.store
    ensures MetadataId in fs <==> l.metadataId != s.metadataId
    ensures fs == [] <==> HasSpec(l, s)
    ensures forall i, j | 0 <= i < j < |fs| :: Rank(fs[i]) < Rank(fs[j])
  {
    (if l.nombreDisplay != s.nombreDisplay then [NombreDisplay] else [])
    + (if l.orden != s.orden then [Orden] else [])
    + (if l.storeGeoserver != s.store then [StoreGeoserver] else [])
    + (if l.metadataId != s.metadataId then [MetadataId] else [])
  }

  /** `setattr(layer, k, v)` for one reconciled column. */
  function Assign(l: Layer, f: LayerField, s: LayerSpec): Layer {
    match f
    case NombreDisplay => l.(nombreDisplay := s.nombreDisplay)
    case Orden => l.(orden := s.orden)
    case StoreGeoserver => l.(storeGeoserver := s.store)
    case MetadataId => l.(metadataId := s.metadataId)
  }

  /** The `setattr` loop over `updates`: exactly the listed columns take the
      desired values; every other column keeps its value. */
  function AssignAll(l: Layer, fs: seq<LayerField>, s: LayerSpec): (r: Layer)
    ensures r.grupo == l.grupo
    ensures r.nombreGeoserver == l.nombreGeoserver
    ensures r.estadoInicial == l.estadoInicial
    ensures r.nombreDisplay == if NombreDisplay in fs then s.nombreDisplay else l.nombreDisplay
    ensures r.orden == if Orden in fs then s.orden else l.orden
    ensures r.storeGeoserver == if StoreGeoserver in fs then s.store else l.storeGeoserver
    ensures r.metadataId == if MetadataId in fs then s.metadataId else l.metadataId
    decreases |fs|
  {
    if fs == [] then l
    else AssignAll(Assign(l, fs[0], s), fs[1..], s)
  }

  /** An existing layer after reconciliation: writing only the differing
      columns gives the same row as overwriting all four. */
  function Reconcile(l: Layer, s: LayerSpec): (r: Layer)
    ensures r == l.(nombreDisplay := s.nombreDisplay, orden := s.orden,
                    storeGeoserver := s.store, metadataId := s.metadataId)
    ensures HasSpec(r, s)
  {
    AssignAll(l, Drift(l, s), s)
  }

  /** One iteration of the loop over `desired`: `get_or_create` the layer
      `s.nombreGeoserver` in group `gid`, then reconcile it if it existed. */
  function EnsureLayer(db: Db, gid: nat, s: LayerSpec): (r: Result<Run, MigrationError>)
    requires db.Valid()
    ensures r.Failure? <==> Lookup(db.layers, LayerKey(gid, s.nombreGeoserver)).Multiple?
    ensures r.Failure? ==> r.error == MultipleLayers(s.nombreGeoserver)
    ensures r.Success? ==> r.value.db.Valid()
    ensures r.Success? ==> r.value.db.projects == db.projects && r.value.db.groups == db.groups
  {
    var key := LayerKey(gid, s.nombreGeoserver);
    match Lookup(db.layers, key)
    case Multiple => Failure(MultipleLayers(s.nombreGeoserver))
    case Absent =>
      var (layers, id) := Insert(db.layers, NewLayer(gid, s));
      Success(Run(db.(layers := layers), [CreateLayer(id)]))
    case Unique(id) =>
      var updates := Drift(db.layers.rows[id], s);
      if updates == [] then Success(Run(db, []))
      else
        var layers := Update(db.layers, id, Reconcile(db.layers.rows[id], s));
        Success(Run(db.(layers := layers), [SaveLayer(id, updates)]))
  }

  /** The loop over `specs`, in order, stopping at the first exception. */
  function EnsureLayers(db: Db, gid: nat, specs: seq<LayerSpec>): (r: Result<Run, MigrationError>)
    requires db.Valid()
    ensures r.Failure? ==> r.error.MultipleLayers?
    ensures r.Success? ==> r.value.db.Valid()
    ensures r.Success? ==> r.value.db.projects == db.projects && r.value.db.groups == db.groups
    decreases |specs|
  {
    if specs == [] then Success(Run(db, []))
    else
      match EnsureLayer(db, gid, specs[0])
      case Failure(e) => Failure(e)
      case Success(first) =>
        match EnsureLayers(first.db, gid, specs[1..])
        case Failure(e) => Failure(e)
        case Success(rest) => Success(Run(rest.db, first.log + rest.log))
  }

  /** `forwards_func`: find the general project (nothing to do without it),
      `get_or_create` its "Restauración" group, then ensure every desired
      layer in it. */
  function Forwards(db: Db): (r: Result<Run, MigrationError>)
    requires db.Valid()
    ensures r.Success? ==> r.value.db.Valid()
    ensures r.Success? ==> r.value.db.projects == db.projects
    ensures Lookup(db.projects, IsGeneral).Absent? ==> r == Success(Run(db, []))
    ensures Lookup(db.projects, IsGeneral).Multiple? <==> r == Failure(MultipleProjects)
  {
    match Lookup(db.projects, IsGeneral)
    case Absent => Success(Run(db, []))
    case Multiple => Failure(MultipleProjects)
    case Unique(pid) =>
      match Lookup(db.groups, GroupKey(pid))
      case Multiple => Failure(MultipleGroups)
      case Unique(gid) => EnsureLayers(db, gid, Desired)
      case Absent =>
        var (groups, gid) := Insert(db.groups, NewGroup(pid));
        match EnsureLayers(db.(groups := groups), gid, Desired)
        case Failure(e) => Failure(e)
        case Success(run) => Success(Run(run.db, [CreateGroup(gid)] + run.log))
  }

  /** `reverse_func`: the fix is not reverted. */
  function Reverse(db: Db): (r: Db)
    ensures r == db
  {
    db
  }
}
