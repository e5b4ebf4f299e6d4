/** `PostmanFolder`: the key derivation shared by folders and requests, and one folder record. */
module PostmanFolder {
  import opened Wrappers
  import opened Inputs
  import Hex

  function Abs(x: int): nat {
    if x < 0 then -x else x
  }

  /**
   * `PostmanFolder.generate_key(item)`, i.e. `item.hash.abs.to_s(16)`, with Ruby's
   * `Object#hash` passed in as `hash`.
   */
  function GenerateKey(hash: Obj -> int, item: Obj): (key: string)
    ensures Hex.Canonical(key)
    ensures key == "0" <==> hash(item) == 0
  {
    Hex.ToHex(Abs(hash(item)))
  }

  /**
   * A key is a non-empty run of lowercase hex digits without a leading zero (unless the
   * hash is 0) that reads back as the absolute hash.
   */
  lemma KeyDecodes(hash: Obj -> int, item: Obj)
    ensures Hex.Canonical(GenerateKey(hash, item))
    ensures Hex.ParseHex(GenerateKey(hash, item)) == Abs(hash(item))
    ensures GenerateKey(hash, item) == "0" <==> hash(item) == 0
  {
    Hex.ParseToHex(Abs(hash(item)));
  }

  /**
   * Two items get the same key exactly when their hashes agree up to sign:
   * equal items always share a key, and nothing rules out a collision.
   */
  lemma KeysCollide(hash: Obj -> int, x: Obj, y: Obj)
    ensures GenerateKey(hash, x) == GenerateKey(hash, y) <==> Abs(hash(x)) == Abs(hash(y))
  {
    Hex.ToHexInjective(Abs(hash(x)), Abs(hash(y)));
  }

  datatype Folder = Folder(
    id: string,
    name: Option<string>,
    description: string,
    order: seq<string>,
    owner: string,
    collectionId: string)

  /** `request_references`: one key per folder entry, in the same order. */
  function RequestReferences(hash: Obj -> int, requests: seq<Obj>): (refs: seq<string>)
    ensures |refs| == |requests|
    ensures forall k :: 0 <= k < |refs| ==> refs[k] == GenerateKey(hash, requests[k])
  {
    seq(|requests|, k requires 0 <= k < |requests| => GenerateKey(hash, requests[k]))
  }

  /** `PostmanFolder.new(resource_name, requests).as_json`. */
  function AsJson(hash: Obj -> int, resourceName: Option<string>, requests: seq<Obj>): (f: Folder)
    ensures f.name == resourceName
    ensures f.id == GenerateKey(hash, StrOrNil(resourceName))
    ensures |f.order| == |requests|
    ensures forall k :: 0 <= k < |f.order| ==> f.order[k] == GenerateKey(hash, requests[k])
    ensures f.description == "" && f.owner == "" && f.collectionId == ""
  {
    Folder(
      id := GenerateKey(hash, StrOrNil(resourceName)),
      name := resourceName,
      description := "",
      order := RequestReferences(hash, requests),
      owner := "",
      collectionId := "")
  }
}
