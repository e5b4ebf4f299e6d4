/** `PostmanTemplate`: the collection envelope around the folders and requests. */
module PostmanTemplate {
  import opened Inputs
  import opened PostmanFolder
  import opened PostmanRequest

  /** `PostmanTemplate.new(folders, requests, configuration)`. */
  datatype Template = Template(folders: seq<Folder>, requests: seq<Request>, configuration: Configuration)

  datatype Collection = Collection(
    id: string,
    name: string,
    description: string,
    order: seq<string>,
    folders: seq<Folder>,
    timestamp: int,
    owner: string,
    remoteLink: string,
    public: bool,
    requests: seq<Request>)

  /** The envelope fields that never depend on the input. */
  predicate HasFixedEnvelope(c: Collection) {
    c.description == "" && c.order == [] && c.owner == "" && c.remoteLink == "" && !c.public
  }

  /**
   * `as_json`, with `SecureRandom.uuid` and `Time.now.to_i` passed in as `uuid` and `now`:
   * the folders and requests pass through unchanged.
   */
  function AsJson(t: Template, uuid: string, now: int): (c: Collection)
    ensures HasFixedEnvelope(c)
    ensures c.id == uuid && c.name == t.configuration.apiName && c.timestamp == now
    ensures c.folders == t.folders && c.requests == t.requests
  {
    Collection(
      id := uuid,
      name := t.configuration.apiName,
      description := "",
      order := [],
      folders := t.folders,
      timestamp := now,
      owner := "",
      remoteLink := "",
      public := false,
      requests := t.requests)
  }
}
