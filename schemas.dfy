/** The per-tile extraction records the graph stage consumes: structures with
    their inverts, pipes, and the tile they were read from. Field validation
    is not modelled; these are shapes only. */
module Schemas {
  import opened Wrappers
  import opened Json

  /** One invert elevation at a structure. */
  datatype Invert = Invert(
    direction: string,
    pipeSize: string,
    pipeType: Option<string>,
    elevation: real,
    textIds: seq<int>)

  /** One structure observation on one tile. `existing` is the
      existing-versus-proposed flag the merge step reads. */
  datatype Structure = Structure(
    id: Option<string>,
    structureType: string,
    size: Option<string>,
    station: string,
    offset: string,
    rim: Option<real>,
    tc: Option<real>,
    fl: Option<real>,
    inverts: seq<Invert>,
    notes: Option<string>,
    textIds: seq<int>,
    existing: bool)

  /** One pipe observation on one tile. */
  datatype Pipe = Pipe(
    pipeType: string,
    size: string,
    material: Option<string>,
    length: Option<real>,
    slope: Option<real>,
    fromStation: Option<string>,
    toStation: Option<string>,
    fromHint: Option<string>,
    toHint: Option<string>,
    notes: Option<string>,
    textIds: seq<int>)

  datatype TileExtraction = TileExtraction(
    tileId: string,
    page: int,
    sheetType: string,
    structures: seq<Structure>,
    pipes: seq<Pipe>)

  /** The per-tile metadata dicts, by tile id. */
  type TileMeta = map<string, seq<(string, Json)>>

  /** `tile_meta_by_id.get(tile_id, {})` */
  function MetaOf(meta: TileMeta, tileId: string): seq<(string, Json)> {
    if tileId in meta then meta[tileId] else []
  }

  /** `bool(meta.get("sanitized", False))` */
  predicate MetaSanitized(meta: TileMeta, tileId: string) {
    Truthy(GetOr(JObject(MetaOf(meta, tileId)), "sanitized", JBool(false)))
  }

  /** Text as Python's `bool` sees an optional string: present and non-empty. */
  predicate Given(s: Option<string>) {
    s.Some? && |s.value| > 0
  }

  /** `value or ""` */
  function TextOr(s: Option<string>): (r: string)
    ensures |r| > 0 <==> Given(s)
  {
    if s.Some? then s.value else ""
  }
}
