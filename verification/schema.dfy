/** The three tables of the `projects` app that the data fix touches, with the
    columns it reads or writes. Foreign keys are primary keys of the
    referenced table. */
module Schema {
  import opened Results
  import opened Tables

  /** A map-viewer project; `nombreCorto` is its short name. */
  datatype Project = Project(nombreCorto: string)

  /** A group of layers shown together in the viewer's layer tree. */
  datatype LayerGroup = LayerGroup(
    proyecto: nat,
    nombre: string,
    orden: int,
    foldState: string)

  /** A map layer published by GeoServer. */
  datatype Layer = Layer(
    grupo: nat,
    nombreGeoserver: string,
    nombreDisplay: string,
    storeGeoserver: string,
    estadoInicial: bool,
    metadataId: Option<string>,
    orden: int)

  /** The database state the migration sees. */
  datatype Db = Db(
    projects: Table<Project>,
    groups: Table<LayerGroup>,
    layers: Table<Layer>)
  {
    predicate Valid() {
      projects.Valid() && groups.Valid() && layers.Valid()
    }

    /** Every foreign key refers to an existing row. */
    ghost predicate ReferentiallyIntact() {
      && (forall id | id in groups.rows :: groups.rows[id].proyecto in projects.rows)
      && (forall id | id in layers.rows :: layers.rows[id].grupo in groups.rows)
    }
  }
}
