# Postman collection writer, modelled in Dafny

This project models the Postman writer of `rspec_api_documentation`
(`lib/rspec_api_documentation/writers/postman_writer.rb`). The writer turns the
examples recorded while an API's specs run into one Postman collection:

- a **folder** per distinct `resource_name`, in the order those names first appear;
- a **request** record per recorded interaction of every example;
- a fixed **envelope** around both.

Folders and requests refer to each other only through keys. A key is
`generate_key(x) = x.hash.abs.to_s(16)`, Ruby's object hash in lowercase hexadecimal.

Every method that carries behaviour builds its result with `map`, `group_by`,
`flatten`, `join` and hash literals. Nothing is updated in place, so the model is
datatypes, functions and lemmas:

| file | module | models |
|---|---|---|
| `wrappers.dfy` | `Wrappers` | Ruby `nil` as `Option`; a render that raises as `Result` |
| `hex.dfy` | `Hex` | `Integer#to_s(16)` on non-negative integers, and its inverse |
| `inputs.dfy` | `Inputs` | the recorded examples, their metadata and interactions, the hashed Ruby objects |
| `postman_folder.dfy` | `PostmanFolder` | `generate_key`, `request_references`, the folder record |
| `postman_request.dfy` | `PostmanRequest` | `stringify_headers`, the request record |
| `postman_template.dfy` | `PostmanTemplate` | the template and the collection envelope |
| `postman_writer.dfy` | `PostmanWriter` | `group_by`, `folders`, `requests`, `render_template`, and the writer's test fixture |

The model takes the writer's outside inputs as parameters:

- Ruby's `Object#hash` is `hash: Obj -> int`. `Obj` is the Ruby value being hashed: `nil`, a string, or one interaction. Nothing is assumed about it beyond being a function, so collisions are possible.
- `Time.now.to_i` is read once per request record. Record `k` of the flattened list reads `clock(k)`.
- `SecureRandom.uuid` and the envelope's `Time.now.to_i` are the `uuid` and `now` arguments of `PostmanTemplate.AsJson`.

Absent keys are modelled as `None`, because `ex[:key]` returns nil for them and the writer
mostly carries on. Within the input shapes modelled here, it raises in exactly two cases: `example[:metadata]` is nil, or
`example[:metadata][:requests]` is nil (a `NoMethodError`, since `nil` has no `[]` and no `map`).
`Requests` and `RenderTemplate` return `Err` in those cases, naming the first such example.
That is where Ruby's left-to-right `map` stops.

The sample JSON in the writer's own comments (lines 39-50, 75-85 and 115-136) suggests behaviour the code does not have. It shows real header values, a `collectionId` shared with the envelope, and request ids as folder order. The model follows the code:

- A header line is `"#{key}: val"`. The value is never interpolated, so `{"Header" => "value"}` gives `"Header: val"`, not `"Header: value"`.
- Every request's `collectionId` is the constant `e9f48259-989b-1876-f0b0-925ac0e31bcd`. Every folder's `collectionId` is `""`. Neither is the envelope's random id.
- Folders walk each example's top-level `ex[:requests]`. A missing list flattens to one `nil` entry. Requests walk `ex[:metadata][:requests]`. The two traversals are kept separate.
- A folder's `order` holds keys of the interaction objects. It does not hold the requests' `id`s, which are keys of `full_description`.
- The folder `id` is the key of the top-level `resource_name`. A request's `folder` is the key of `metadata[:resource_name]`. When the two names are equal they always agree. When the names differ they agree only if the two hashes are equal up to sign (`KeysCollide`). In the writer's own test fixture the names differ, because the metadata has no `resource_name`: every request's `folder` is the key of `nil` (`FixtureRequests`).
- Missing `resource_name`, `full_description` and `description` do not raise. They give `nil` names and keys of `nil`.

## Model

| member | source | states |
|---|---|---|
| `Hex.ToHex` | lib/rspec_api_documentation/writers/postman_writer.rb:104 | `to_s(16)` of a non-negative integer is a non-empty run of `0-9a-f` with no leading `0`, and starts with `0` exactly when the number is 0 |
| `Hex.ParseToHex` | lib/rspec_api_documentation/writers/postman_writer.rb:104 | reading the numeral back as base 16 gives the number again |
| `Hex.ToHexParse` | lib/rspec_api_documentation/writers/postman_writer.rb:104 | every canonical numeral is the rendering of the number it denotes, so `to_s(16)` is a bijection onto canonical numerals |
| `Hex.ToHexInjective` | lib/rspec_api_documentation/writers/postman_writer.rb:104 | two numbers get the same numeral exactly when they are equal |
| `PostmanFolder.GenerateKey` | lib/rspec_api_documentation/writers/postman_writer.rb:103-105 | a key is a non-empty run of lowercase hex digits with no leading zero, and is `"0"` exactly when the hash is 0 |
| `PostmanFolder.KeyDecodes` | lib/rspec_api_documentation/writers/postman_writer.rb:103-105 | `generate_key(x)` is canonical lowercase hex, reads back as `abs(hash(x))`, and is `"0"` exactly when the hash is 0 |
| `PostmanFolder.KeysCollide` | lib/rspec_api_documentation/writers/postman_writer.rb:103-105 | two items share a key exactly when their hashes agree up to sign: equal items always do, and collisions are not ruled out |
| `PostmanFolder.RequestReferences` | lib/rspec_api_documentation/writers/postman_writer.rb:109-111 | one key per folder entry, in entry order |
| `PostmanFolder.AsJson` | lib/rspec_api_documentation/writers/postman_writer.rb:92-101 | the folder is named by its resource name verbatim, its id is that name's key, its order has one key per entry, and description, owner and `collectionId` are `""` |
| `PostmanRequest.JoinParts` | lib/rspec_api_documentation/writers/postman_writer.rb:148 | `join` puts the first part at the front, then one separator, then the join of the remaining parts; the result is as long as all parts together plus one separator per gap, with none at either end |
| `PostmanRequest.HeaderLines` | lib/rspec_api_documentation/writers/postman_writer.rb:146-147 | one line per header, in insertion order, each the key followed by `: val`, whatever the value is |
| `PostmanRequest.SplitJoin` | lib/rspec_api_documentation/writers/postman_writer.rb:148 | `join "\n"` of a non-empty list of newline-free lines splits back into exactly those lines |
| `PostmanRequest.StringifyHeaders` | lib/rspec_api_documentation/writers/postman_writer.rb:145-149 | nil or empty headers give `""`; otherwise the header lines joined by a newline, with no trailing newline |
| `PostmanRequest.StringifyHeadersLines` | lib/rspec_api_documentation/writers/postman_writer.rb:145-149 | for a non-empty table with newline-free keys, the block is one `key: val` line per header in insertion order, whatever the values are |
| `PostmanRequest.SingleHeader` | spec/writers/postman_writer_spec.rb:10 | the fixture's `{"Header" => "value"}` renders as `"Header: val"` |
| `PostmanRequest.AsJson` | lib/rspec_api_documentation/writers/postman_writer.rb:151-174 | the request id is the key of `metadata[:full_description]`, and its folder is the key of `metadata[:resource_name]` |
| `PostmanRequest.RequestFields` | lib/rspec_api_documentation/writers/postman_writer.rb:154-172 | url is `localhost:3000` followed by the request path (nil reads as `""`), headers are `stringify_headers`, method and body are copied (a missing body stays nil), name and description come from the metadata, the time is the clock reading, and every other field is its constant |
| `PostmanTemplate.AsJson` | lib/rspec_api_documentation/writers/postman_writer.rb:58-71 | the envelope has the given uuid, the configured `api_name` and the given timestamp; description, order, owner and `remoteLink` are empty and `public` is false; folders and requests pass through unchanged |
| `PostmanWriter.Insert` | lib/rspec_api_documentation/writers/postman_writer.rb:29 | one `group_by` step keeps the group names when the example's name already has a group, and otherwise adds that name at the end |
| `PostmanWriter.InsertSpec` | lib/rspec_api_documentation/writers/postman_writer.rb:29 | one `group_by` step appends the example to its name's group, or opens a new group at the end for a new name |
| `PostmanWriter.GroupBy` | lib/rspec_api_documentation/writers/postman_writer.rb:29 | `group_by` gives groups with distinct names, exactly the names the examples carry, each holding exactly (and only) the examples of that name in order |
| `PostmanWriter.GroupByFirstOccurrence` | lib/rspec_api_documentation/writers/postman_writer.rb:29 | groups come in the order in which their names first occur among the examples |
| `PostmanWriter.Entries` | lib/rspec_api_documentation/writers/postman_writer.rb:32 | one example's share of the flattened list: its interactions in order, or a single nil when its `:requests` is nil |
| `PostmanWriter.FolderEntries` | lib/rspec_api_documentation/writers/postman_writer.rb:32 | `examples.map { ex[:requests] }.flatten` has one entry per interaction, plus one nil entry for each example whose list is nil |
| `PostmanWriter.FolderEntriesAt` | lib/rspec_api_documentation/writers/postman_writer.rb:32 | the flattening order on the folder side: entry `j` of example `i` sits after all entries of the examples before it, and is interaction `j`, or nil when the example's list is nil |
| `PostmanWriter.Folders` | lib/rspec_api_documentation/writers/postman_writer.rb:28-35 | one folder per group, named by the group's resource name, with that name's key as its id |
| `PostmanWriter.FolderOrder` | lib/rspec_api_documentation/writers/postman_writer.rb:31-34 | a folder's order is the keys of the flattened `ex[:requests]` of all examples with its name, in example order, and is as long as that flattened list |
| `PostmanWriter.FolderCount` | lib/rspec_api_documentation/writers/postman_writer.rb:29-34 | there are exactly as many folders as distinct resource names |
| `PostmanWriter.FolderPerName` | lib/rspec_api_documentation/writers/postman_writer.rb:29-34 | no two folders share a name, and every example's resource name has a folder |
| `PostmanWriter.FolderOrderOfFirstOccurrence` | lib/rspec_api_documentation/writers/postman_writer.rb:29-34 | folders are ordered by the first occurrence of their names among the examples |
| `PostmanWriter.FolderOfName` | lib/rspec_api_documentation/writers/postman_writer.rb:94-95 | the folder of a resource name found among the examples carries that name and its key |
| `PostmanWriter.ExampleRequests` | lib/rspec_api_documentation/writers/postman_writer.rb:22-24 | one example yields one record per interaction in `metadata[:requests]`; it raises when `metadata` or `metadata[:requests]` is nil, and says which |
| `PostmanWriter.ExampleRecord` | lib/rspec_api_documentation/writers/postman_writer.rb:22-24 | the `j`-th record of an example is built from its metadata and its `j`-th interaction |
| `PostmanWriter.Requests` | lib/rspec_api_documentation/writers/postman_writer.rb:20-26 | the request list succeeds exactly when every example has `metadata[:requests]`, and then holds one record per interaction in total; otherwise it raises at the first example lacking them |
| `PostmanWriter.RequestsSnoc` | lib/rspec_api_documentation/writers/postman_writer.rb:20-26 | the request list of the examples is that of all but the last one followed by the last one's records |
| `PostmanWriter.RequestsAt` | lib/rspec_api_documentation/writers/postman_writer.rb:20-26 | flattening is in example order and then interaction order: interaction `j` of example `i` is at position (records of the examples before `i`) + `j` |
| `PostmanWriter.RecordAt` | lib/rspec_api_documentation/writers/postman_writer.rb:20-26 | the record at that position is built from example `i`'s metadata and interaction `j`, and reads the clock at that position |
| `PostmanWriter.RequestFolderAt` | lib/rspec_api_documentation/writers/postman_writer.rb:171 | every request's `folder` is the key of its own example's `metadata[:resource_name]` |
| `PostmanWriter.FolderRequestAgreement` | lib/rspec_api_documentation/writers/postman_writer.rb:94 | when an example's `resource_name` equals its `metadata[:resource_name]`, each of its requests' `folder` is the `id` of the folder of that name |
| `PostmanWriter.ConsistentEntries` | lib/rspec_api_documentation/writers/postman_writer.rb:32 | when every example's top-level `:requests` is its `metadata[:requests]`, the folder traversal sees as many entries as the request traversal builds records |
| `PostmanWriter.FolderOrderMatchesRequests` | lib/rspec_api_documentation/writers/postman_writer.rb:31-34 | under that same condition, a folder's order is as long as the request records of its examples |
| `PostmanWriter.RenderTemplate` | lib/rspec_api_documentation/writers/postman_writer.rb:14-16 | the template holds the folders, the requests and the configuration; it succeeds exactly when every example has `metadata[:requests]`, and otherwise raises at the first that lacks them |
| `PostmanWriter.RenderedCollection` | lib/rspec_api_documentation/writers/postman_writer.rb:14-16 | the rendered collection has the fixed envelope, the configured name, the given id and timestamp, one folder per distinct resource name and one request per interaction |
| `PostmanWriter.EmptyIndex` | lib/rspec_api_documentation/writers/postman_writer.rb:58-71 | with no examples the render succeeds and the collection has empty folders and requests |
| `PostmanWriter.FixtureFolders` | spec/writers/postman_writer_spec.rb:52-56 | the fixture's two examples give two folders, "Foo Bar" then "Baz Bar". Each folder's order is the key of the nil that its missing `:requests` flattens to |
| `PostmanWriter.FixtureRequests` | spec/writers/postman_writer_spec.rb:58-62 | the fixture gives four requests. Every id and folder is the key of nil. The header block is `"Header: val"` or `""`. The body is nil or `"body"`. The methods alternate GET and POST |
| `PostmanWriter.FixtureRender` | spec/writers/postman_writer_spec.rb:41-62 | rendering the fixture succeeds, with 2 folders and 4 requests |

## Left out

- `PostmanWriter#write` (lines 8-12) is not modelled. It opens a file and serialises through a `Formatter` that is not part of this model.
- The `Writer` base class, `Configuration`, the `index` object and `delegate` are not part of this model. The examples and a configuration holding only `api_name` are plain inputs.
- Ruby's `Object#hash` is not modelled. It is the parameter `hash`, and no property of it (collision-freedom included) is assumed. Because `hash` is a function of the value, equal objects hash equally. Ruby hashes a Hash regardless of key order, and a missing key differs from a key mapped to nil. The model cannot express either. An interaction here keeps only the nine keys the writer reads. Two Ruby interaction Hashes that differ only in some other key are one value here, so the model gives them the same folder-order key, although Ruby need not.
- `SecureRandom.uuid` and `Time.now.to_i` are parameters: `uuid` and `now` for the envelope, and `clock` for the per-record readings.
- The JSON sample values in the source's comments illustrate the format and are not behaviour.
- Shapes the Ruby code would accept but the types here exclude are not modelled. Examples are a non-Hash interaction, a nil element of `metadata[:requests]` (which would raise), nested arrays that `flatten` would splice further, and non-string header keys.
- `PostmanRequest.StringifyHeaders`: `(headers || {})` also treats `false` as empty. Headers here are either nil or a table, so that case does not arise.
