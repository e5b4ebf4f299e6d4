/**
 * The recorded examples the Postman writer consumes. Every key the writer
 * looks up may be absent in Ruby (`ex[:key]` is then nil), so each one is an Option.
 */
module Inputs {
  import opened Wrappers

  /** A Ruby Hash with string keys and values, in insertion order. */
  type Table = seq<(string, string)>

  /** One captured HTTP exchange (an element of `:requests`). */
  datatype Interaction = Interaction(
    requestMethod: Option<string>,
    requestPath: Option<string>,
    requestHeaders: Option<Table>,
    requestQueryParameters: Option<Table>,
    requestBody: Option<string>,
    responseStatus: Option<int>,
    responseStatusText: Option<string>,
    responseHeaders: Option<Table>,
    responseBody: Option<string>)

  /** `example[:metadata]`. */
  datatype Metadata = Metadata(
    fullDescription: Option<string>,
    description: Option<string>,
    resourceName: Option<string>,
    requests: Option<seq<Interaction>>)

  /** One entry of `index.examples`. The top-level `description` is carried but not read by the writer. */
  datatype Example = Example(
    resourceName: Option<string>,
    description: Option<string>,
    requests: Option<seq<Interaction>>,
    metadata: Option<Metadata>)

  datatype Configuration = Configuration(apiName: string)

  /** The Ruby objects whose `hash` the writer takes: nil, a string, or one interaction. */
  datatype Obj = Nil | Str(s: string) | Record(interaction: Interaction)

  /** A possibly-nil string as the Ruby object it is. */
  function StrOrNil(o: Option<string>): Obj {
    match o
    case None => Nil
    case Some(s) => Str(s)
  }
}
