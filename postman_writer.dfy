/**
 * `PostmanWriter`: folders built from `index.examples` grouped by resource name,
 * requests flattened from every example's recorded interactions, and the template
 * that holds both.
 */
module PostmanWriter {
  import opened Wrappers
  import opened Inputs
  import opened PostmanFolder
  import opened PostmanRequest
  import opened PostmanTemplate

  predicate Distinct<T(==)>(s: seq<T>) {
    forall i, j :: 0 <= i < j < |s| ==> s[i] != s[j]
  }

  /** The position of the first occurrence of `x` in `s`. */
  function FirstIndex<T(==)>(s: seq<T>, x: T): (k: nat)
    requires x in s
    ensures k < |s| && s[k] == x
    ensures forall j :: 0 <= j < k ==> s[j] != x
  {
    if s[0] == x then 0 else 1 + FirstIndex(s[1..], x)
  }

  function ResourceNames(examples: seq<Example>): (names: seq<Option<string>>)
    ensures |names| == |examples|
    ensures forall i :: 0 <= i < |examples| ==> names[i] == examples[i].resourceName
  {
    seq(|examples|, i requires 0 <= i < |examples| => examples[i].resourceName)
  }

  /** The examples whose resource name is `name`, in their original order. */
  function Filter(examples: seq<Example>, name: Option<string>): (group: seq<Example>)
  {
    if examples == [] then []
    else
      var last := examples[|examples| - 1];
      Filter(examples[..|examples| - 1], name) + (if last.resourceName == name then [last] else [])
  }

  lemma {:induction false} FilterAbsent(examples: seq<Example>, name: Option<string>)
    requires name !in ResourceNames(examples)
    ensures Filter(examples, name) == []
  {
    if examples != [] {
      var init := examples[..|examples| - 1];
      assert ResourceNames(init) == ResourceNames(examples)[..|examples| - 1];
      FilterAbsent(init, name);
    }
  }

  // ---------------------------------------------------------------------------
  // group_by
  // ---------------------------------------------------------------------------

  /** One entry of the Hash that `group_by` returns. */
  datatype Group = Group(name: Option<string>, members: seq<Example>)

  function Names(groups: seq<Group>): (names: seq<Option<string>>)
    ensures |names| == |groups|
    ensures forall i :: 0 <= i < |groups| ==> names[i] == groups[i].name
  {
    seq(|groups|, i requires 0 <= i < |groups| => groups[i].name)
  }

  /** `(hash[ex[:resource_name]] ||= []) << ex` on an insertion-ordered Hash. */
  function Insert(groups: seq<Group>, ex: Example): (r: seq<Group>)
    ensures ex.resourceName in Names(groups) ==> Names(r) == Names(groups)
    ensures ex.resourceName !in Names(groups) ==> Names(r) == Names(groups) + [ex.resourceName]
  {
    var names := Names(groups);
    if ex.resourceName in names then
      var k := FirstIndex(names, ex.resourceName);
      groups[k := Group(ex.resourceName, groups[k].members + [ex])]
    else groups + [Group(ex.resourceName, [ex])]
  }

  lemma InsertSpec(groups: seq<Group>, ex: Example)
    requires Distinct(Names(groups))
    ensures ex.resourceName in Names(groups) ==> Names(Insert(groups, ex)) == Names(groups)
    ensures ex.resourceName !in Names(groups) ==> Names(Insert(groups, ex)) == Names(groups) + [ex.resourceName]
    ensures forall i :: 0 <= i < |groups| ==>
      Insert(groups, ex)[i].members
        == if groups[i].name == ex.resourceName then groups[i].members + [ex] else groups[i].members
    ensures ex.resourceName !in Names(groups) ==> Insert(groups, ex)[|groups|].members == [ex]
  {
    var names := Names(groups);
    var r := Insert(groups, ex);
    if ex.resourceName in names {
      var k := FirstIndex(names, ex.resourceName);
      forall i | 0 <= i < |groups| && i != k
        ensures groups[i].name != ex.resourceName
      {
        assert names[i] != names[k];
      }
      assert Names(r) == names;
    } else {
      assert Names(r) == names + [ex.resourceName];
    }
  }

  /**
   * `index.examples.group_by { |ex| ex[:resource_name] }`: one group per distinct
   * resource name, holding exactly the examples with that name, in order.
   */
  function GroupBy(examples: seq<Example>): (groups: seq<Group>)
    ensures Distinct(Names(groups))
    ensures forall name :: name in Names(groups) <==> name in ResourceNames(examples)
    ensures forall i :: 0 <= i < |groups| ==>
      groups[i].members == Filter(examples, groups[i].name) && groups[i].members != []
  {
    if examples == [] then []
    else
      var init := examples[..|examples| - 1];
      var last := examples[|examples| - 1];
      var prev := GroupBy(init);
      InsertSpec(prev, last);
      assert ResourceNames(examples) == ResourceNames(init) + [last.resourceName];
      if last.resourceName !in Names(prev) then FilterAbsent(init, last.resourceName); Insert(prev, last)
      else Insert(prev, last)
  }

  lemma {:induction false} FirstIndexPrefix<T>(s: seq<T>, t: seq<T>, x: T)
    requires x in s
    ensures x in s + t && FirstIndex(s + t, x) == FirstIndex(s, x)
  {
    if s[0] != x {
      assert (s + t)[1..] == s[1..] + t;
      FirstIndexPrefix(s[1..], t, x);
    }
  }

  /** Groups come in the order in which their names first occur among the examples. */
  lemma {:induction false} GroupByFirstOccurrence(examples: seq<Example>)
    ensures forall i, j :: 0 <= i < j < |GroupBy(examples)| ==>
      FirstIndex(ResourceNames(examples), GroupBy(examples)[i].name)
        < FirstIndex(ResourceNames(examples), GroupBy(examples)[j].name)
  {
    if examples != [] {
      var init := examples[..|examples| - 1];
      var last := examples[|examples| - 1];
      var prev := GroupBy(init);
      var groups := GroupBy(examples);
      var names := ResourceNames(examples);
      var initNames := ResourceNames(init);
      assert names == initNames + [last.resourceName];
      GroupByFirstOccurrence(init);
      InsertSpec(prev, last);
      forall i | 0 <= i < |prev|
        ensures groups[i].name == prev[i].name
        ensures FirstIndex(names, groups[i].name) == FirstIndex(initNames, prev[i].name) < |init|
      {
        assert Names(groups)[i] == Names(prev)[i];
        assert prev[i].name in Names(prev);
        FirstIndexPrefix(initNames, [last.resourceName], prev[i].name);
      }
      if |groups| > |prev| {
        assert groups[|prev|].name == Names(groups)[|prev|] == last.resourceName;
        assert last.resourceName !in initNames;
        assert FirstIndex(names, last.resourceName) == |init|;
      }
    }
  }

  /** A sequence without repeats has as many elements as its set. */
  lemma {:induction false} DistinctCard<T>(s: seq<T>)
    requires Distinct(s)
    ensures |set x | x in s| == |s|
  {
    if s != [] {
      var tail := s[1..];
      assert Distinct(tail);
      DistinctCard(tail);
      assert (set x | x in s) == {s[0]} + (set x | x in tail);
      assert s[0] !in (set x | x in tail);
    }
  }

  // ---------------------------------------------------------------------------
  // folders
  // ---------------------------------------------------------------------------

  /** One example's contribution to `examples.map { |ex| ex[:requests] }.flatten`: a nil list stays one nil. */
  function Entries(requests: Option<seq<Interaction>>): (entries: seq<Obj>)
    ensures |entries| == EntryCount(requests)
    ensures requests.None? ==> entries == [Nil]
    ensures requests.Some? ==> forall k :: 0 <= k < |entries| ==> entries[k] == Record(requests.value[k])
  {
    match requests
    case None => [Nil]
    case Some(rs) => seq(|rs|, k requires 0 <= k < |rs| => Record(rs[k]))
  }

  /** The number of entries an example contributes after `flatten`. */
  function EntryCount(requests: Option<seq<Interaction>>): nat {
    match requests
    case None => 1
    case Some(rs) => |rs|
  }

  function TotalEntries(examples: seq<Example>): nat {
    if examples == [] then 0
    else TotalEntries(examples[..|examples| - 1]) + EntryCount(examples[|examples| - 1].requests)
  }

  /** `examples.map { |ex| ex[:requests] }.flatten`. */
  function FolderEntries(examples: seq<Example>): (entries: seq<Obj>)
    ensures |entries| == TotalEntries(examples)
  {
    if examples == [] then []
    else FolderEntries(examples[..|examples| - 1]) + Entries(examples[|examples| - 1].requests)
  }

  /** `PostmanWriter#folders`: one folder per group, named by and keyed on its resource name. */
  function Folders(hash: Obj -> int, examples: seq<Example>): (folders: seq<Folder>)
    ensures |folders| == |GroupBy(examples)|
    ensures forall i :: 0 <= i < |folders| ==>
      && folders[i].name == GroupBy(examples)[i].name
      && folders[i].id == GenerateKey(hash, StrOrNil(folders[i].name))
  {
    var groups := GroupBy(examples);
    seq(|groups|, i requires 0 <= i < |groups| =>
      PostmanFolder.AsJson(hash, groups[i].name, FolderEntries(groups[i].members)))
  }

  /**
   * The flattening order on the folder side: the entries of example `i` sit right after
   * all entries of the examples before it; entry `j` is interaction `j`, or the one nil
   * that a missing list flattens to.
   */
  lemma {:induction false} FolderEntriesAt(examples: seq<Example>, i: nat, j: nat)
    requires i < |examples|
    requires j < EntryCount(examples[i].requests)
    ensures TotalEntries(examples[..i]) + j < |FolderEntries(examples)|
    ensures examples[i].requests.None? ==> FolderEntries(examples)[TotalEntries(examples[..i]) + j] == Nil
    ensures examples[i].requests.Some? ==>
      FolderEntries(examples)[TotalEntries(examples[..i]) + j] == Record(examples[i].requests.value[j])
  {
    var n := |examples|;
    var init := examples[..n - 1];
    var all := FolderEntries(examples);
    var prev := FolderEntries(init);
    var at := TotalEntries(examples[..i]) + j;
    assert all == prev + Entries(examples[n - 1].requests);
    if i == n - 1 {
      assert examples[..i] == init;
      assert all[at] == Entries(examples[i].requests)[j];
    } else {
      assert init[..i] == examples[..i];
      assert init[i] == examples[i];
      FolderEntriesAt(init, i, j);
      assert all[at] == prev[at];
    }
  }

  /**
   * A folder's order is one key per flattened `ex[:requests]` entry of all the examples
   * with its resource name, in example order, and so has that many entries.
   */
  lemma FolderOrder(hash: Obj -> int, examples: seq<Example>)
    ensures forall i :: 0 <= i < |Folders(hash, examples)| ==>
      && Folders(hash, examples)[i].order
           == RequestReferences(hash, FolderEntries(Filter(examples, Folders(hash, examples)[i].name)))
      && |Folders(hash, examples)[i].order| == TotalEntries(Filter(examples, Folders(hash, examples)[i].name))
  {
    var folders := Folders(hash, examples);
    var groups := GroupBy(examples);
    forall i | 0 <= i < |folders|
      ensures folders[i].order == RequestReferences(hash, FolderEntries(Filter(examples, folders[i].name)))
    {
      assert folders[i] == PostmanFolder.AsJson(hash, groups[i].name, FolderEntries(groups[i].members));
    }
  }

  /** The position of the folder of a resource name that some example carries. */
  function FolderIndex(examples: seq<Example>, name: Option<string>): (k: nat)
    requires name in ResourceNames(examples)
    ensures k < |GroupBy(examples)| && GroupBy(examples)[k].name == name
  {
    FirstIndex(Names(GroupBy(examples)), name)
  }

  /** The resource names of the groups are the resource names of the examples, as a set. */
  lemma GroupNamesSet(examples: seq<Example>)
    ensures (set n | n in Names(GroupBy(examples))) == (set ex | ex in examples :: ex.resourceName)
  {
    var names := Names(GroupBy(examples));
    forall n | n in names
      ensures n in (set ex | ex in examples :: ex.resourceName)
    {
      var k := FirstIndex(ResourceNames(examples), n);
      assert examples[k] in examples;
    }
    forall ex | ex in examples
      ensures ex.resourceName in names
    {
      var k :| 0 <= k < |examples| && examples[k] == ex;
      assert ResourceNames(examples)[k] == ex.resourceName;
    }
  }

  /** There are exactly as many folders as distinct resource names. */
  lemma FolderCount(hash: Obj -> int, examples: seq<Example>)
    ensures |Folders(hash, examples)| == |set ex | ex in examples :: ex.resourceName|
  {
    GroupNamesSet(examples);
    DistinctCard(Names(GroupBy(examples)));
  }

  /** Every example's resource name names exactly one folder. */
  lemma FolderPerName(hash: Obj -> int, examples: seq<Example>)
    ensures forall i, j :: 0 <= i < j < |Folders(hash, examples)| ==>
      Folders(hash, examples)[i].name != Folders(hash, examples)[j].name
    ensures forall ex :: ex in examples ==>
      exists i :: 0 <= i < |Folders(hash, examples)| && Folders(hash, examples)[i].name == ex.resourceName
  {
    var folders := Folders(hash, examples);
    var names := Names(GroupBy(examples));
    forall i, j | 0 <= i < j < |folders|
      ensures folders[i].name != folders[j].name
    {
      assert names[i] != names[j];
    }
    forall ex | ex in examples
      ensures exists i :: 0 <= i < |folders| && folders[i].name == ex.resourceName
    {
      var k :| 0 <= k < |examples| && examples[k] == ex;
      assert ResourceNames(examples)[k] == ex.resourceName;
      var i := FolderIndex(examples, ex.resourceName);
      assert folders[i].name == ex.resourceName;
    }
  }

  /** Folders come in the order in which their resource names first occur. */
  lemma FolderOrderOfFirstOccurrence(hash: Obj -> int, examples: seq<Example>)
    ensures forall i :: 0 <= i < |Folders(hash, examples)| ==>
      Folders(hash, examples)[i].name in ResourceNames(examples)
    ensures forall i, j :: 0 <= i < j < |Folders(hash, examples)| ==>
      FirstIndex(ResourceNames(examples), Folders(hash, examples)[i].name)
        < FirstIndex(ResourceNames(examples), Folders(hash, examples)[j].name)
  {
    var folders := Folders(hash, examples);
    var groups := GroupBy(examples);
    forall i | 0 <= i < |folders|
      ensures folders[i].name == groups[i].name && groups[i].name in ResourceNames(examples)
    {
      assert Names(groups)[i] == groups[i].name;
    }
    GroupByFirstOccurrence(examples);
  }

  // ---------------------------------------------------------------------------
  // requests
  // ---------------------------------------------------------------------------

  /** Why a render raises: `example[:metadata]` or `example[:metadata][:requests]` is nil. */
  datatype RenderError = MissingMetadata(example: nat) | MissingRequests(example: nat)

  /** An example whose `metadata[:requests]` can be mapped over. */
  predicate Recorded(ex: Example) {
    ex.metadata.Some? && ex.metadata.value.requests.Some?
  }

  function Interactions(ex: Example): seq<Interaction>
    requires Recorded(ex)
  {
    ex.metadata.value.requests.value
  }

  /** The number of request records an example yields (none when it raises). */
  function InteractionCount(ex: Example): nat {
    if Recorded(ex) then |Interactions(ex)| else 0
  }

  function TotalInteractions(examples: seq<Example>): nat {
    if examples == [] then 0
    else TotalInteractions(examples[..|examples| - 1]) + InteractionCount(examples[|examples| - 1])
  }

  /** `e` is what Ruby raises: the first example that cannot be mapped, with the nil it hit. */
  predicate RaisedAtFirst(examples: seq<Example>, e: RenderError) {
    && e.example < |examples|
    && !Recorded(examples[e.example])
    && (e.MissingMetadata? <==> examples[e.example].metadata.None?)
    && forall i :: 0 <= i < e.example ==> Recorded(examples[i])
  }

  /**
   * `example[:metadata][:requests].map { |request| PostmanRequest.new(...).as_json }` for the
   * example at position `index`, whose first record is the `offset`-th the writer builds.
   */
  function ExampleRequests(hash: Obj -> int, ex: Example, index: nat, clock: nat -> int, offset: nat)
    : (r: Result<seq<Request>, RenderError>)
    ensures r.Ok? <==> Recorded(ex)
    ensures r.Err? ==> r.error.example == index && (r.error.MissingMetadata? <==> ex.metadata.None?)
    ensures r.Ok? ==> |r.value| == |Interactions(ex)|
  {
    match ex.metadata
    case None => Err(MissingMetadata(index))
    case Some(metadata) =>
      match metadata.requests
      case None => Err(MissingRequests(index))
      case Some(rs) =>
        Ok(seq(|rs|, j requires 0 <= j < |rs| => PostmanRequest.AsJson(hash, metadata, rs[j], clock(offset + j))))
  }

  /**
   * `PostmanWriter#requests`, the `k`-th record built reading `clock(k)` as its time:
   * it succeeds exactly when every example is recorded, and then holds one record per
   * interaction; otherwise it raises at the first example that is not.
   */
  function Requests(hash: Obj -> int, examples: seq<Example>, clock: nat -> int)
    : (r: Result<seq<Request>, RenderError>)
    ensures r.Ok? <==> forall i :: 0 <= i < |examples| ==> Recorded(examples[i])
    ensures r.Ok? ==> |r.value| == TotalInteractions(examples)
    ensures r.Err? ==> RaisedAtFirst(examples, r.error)
  {
    if examples == [] then Ok([])
    else
      var init := examples[..|examples| - 1];
      match Requests(hash, init, clock)
      case Err(e) => Err(e)
      case Ok(prev) =>
        match ExampleRequests(hash, examples[|examples| - 1], |examples| - 1, clock, |prev|)
        case Err(e) => Err(e)
        case Ok(mine) => Ok(prev + mine)
  }

  /**
   * The flattening order: the records of example `i` sit right after all records of the
   * examples before it, interaction `j` at offset `j`.
   */
  lemma {:induction false} RequestsAt(hash: Obj -> int, examples: seq<Example>, clock: nat -> int, i: nat, j: nat)
    requires Requests(hash, examples, clock).Ok?
    requires i < |examples|
    requires j < InteractionCount(examples[i])
    ensures ExampleRequests(hash, examples[i], i, clock, TotalInteractions(examples[..i])).Ok?
    ensures TotalInteractions(examples[..i]) + j < |Requests(hash, examples, clock).value|
    ensures Requests(hash, examples, clock).value[TotalInteractions(examples[..i]) + j]
      == ExampleRequests(hash, examples[i], i, clock, TotalInteractions(examples[..i])).value[j]
  {
    var n := |examples|;
    var init := examples[..n - 1];
    RequestsSnoc(hash, examples, clock);
    var all := Requests(hash, examples, clock).value;
    var prev := Requests(hash, init, clock).value;
    var at := TotalInteractions(examples[..i]) + j;
    if i == n - 1 {
      assert examples[..i] == init;
      assert all[at] == all[|prev| + j];
    } else {
      assert init[..i] == examples[..i];
      assert init[i] == examples[i];
      RequestsAt(hash, init, clock, i, j);
      assert all[at] == prev[at];
    }
  }

  /**
   * Interaction `j` of example `i` becomes the record at that position, built from the
   * example's metadata and the clock reading for that position.
   */
  lemma RecordAt(hash: Obj -> int, examples: seq<Example>, clock: nat -> int, i: nat, j: nat)
    requires Requests(hash, examples, clock).Ok?
    requires i < |examples|
    requires j < InteractionCount(examples[i])
    ensures TotalInteractions(examples[..i]) + j < |Requests(hash, examples, clock).value|
    ensures Requests(hash, examples, clock).value[TotalInteractions(examples[..i]) + j]
      == PostmanRequest.AsJson(hash, examples[i].metadata.value, Interactions(examples[i])[j],
                               clock(TotalInteractions(examples[..i]) + j))
  {
    RequestsAt(hash, examples, clock, i, j);
    ExampleRecord(hash, examples[i], i, clock, TotalInteractions(examples[..i]), j);
  }

  /** Interaction `j` of a recorded example becomes its `j`-th record, read at clock position `offset + j`. */
  lemma ExampleRecord(hash: Obj -> int, ex: Example, index: nat, clock: nat -> int, offset: nat, j: nat)
    requires Recorded(ex) && j < |Interactions(ex)|
    ensures ExampleRequests(hash, ex, index, clock, offset).Ok?
    ensures ExampleRequests(hash, ex, index, clock, offset).value[j]
      == PostmanRequest.AsJson(hash, ex.metadata.value, Interactions(ex)[j], clock(offset + j))
  {
  }

  /** A successful render of the examples extends the render of all but the last by the last one's records. */
  lemma RequestsSnoc(hash: Obj -> int, examples: seq<Example>, clock: nat -> int)
    requires |examples| > 0 && Requests(hash, examples, clock).Ok?
    ensures Requests(hash, examples[..|examples| - 1], clock).Ok?
    ensures var prev := Requests(hash, examples[..|examples| - 1], clock).value;
      var mine := ExampleRequests(hash, examples[|examples| - 1], |examples| - 1, clock, |prev|);
      mine.Ok? && Requests(hash, examples, clock).value == prev + mine.value
  {
  }

  /**
   * Every record's `folder` is the key of its own example's `metadata[:resource_name]`,
   * so when that equals the example's `resource_name` a folder with that id exists.
   */
  lemma FolderRequestAgreement(hash: Obj -> int, examples: seq<Example>, clock: nat -> int, i: nat, j: nat)
    requires Requests(hash, examples, clock).Ok?
    requires i < |examples|
    requires j < InteractionCount(examples[i])
    requires examples[i].metadata.Some? && examples[i].metadata.value.resourceName == examples[i].resourceName
    ensures TotalInteractions(examples[..i]) + j < |Requests(hash, examples, clock).value|
    ensures exists k ::
      && 0 <= k < |Folders(hash, examples)|
      && Folders(hash, examples)[k].name == examples[i].resourceName
      && Folders(hash, examples)[k].id == Requests(hash, examples, clock).value[TotalInteractions(examples[..i]) + j].folder
  {
    RequestFolderAt(hash, examples, clock, i, j);
    assert ResourceNames(examples)[i] == examples[i].resourceName;
    FolderOfName(hash, examples, examples[i].resourceName);
    var k := FolderIndex(examples, examples[i].resourceName);
    assert Folders(hash, examples)[k].name == examples[i].resourceName;
  }

  lemma RequestFolderAt(hash: Obj -> int, examples: seq<Example>, clock: nat -> int, i: nat, j: nat)
    requires Requests(hash, examples, clock).Ok?
    requires i < |examples|
    requires j < InteractionCount(examples[i])
    ensures TotalInteractions(examples[..i]) + j < |Requests(hash, examples, clock).value|
    ensures Requests(hash, examples, clock).value[TotalInteractions(examples[..i]) + j].folder
      == GenerateKey(hash, StrOrNil(examples[i].metadata.value.resourceName))
  {
    RecordAt(hash, examples, clock, i, j);
  }

  /** The folder of a resource name carries the key of that name. */
  lemma FolderOfName(hash: Obj -> int, examples: seq<Example>, name: Option<string>)
    requires name in ResourceNames(examples)
    ensures FolderIndex(examples, name) < |Folders(hash, examples)|
    ensures Folders(hash, examples)[FolderIndex(examples, name)].name == name
    ensures Folders(hash, examples)[FolderIndex(examples, name)].id == GenerateKey(hash, StrOrNil(name))
  {
  }

  /** An example whose top-level `:requests` is the same list as its `metadata[:requests]`. */
  predicate Consistent(ex: Example) {
    Recorded(ex) && ex.requests == ex.metadata.value.requests
  }

  /** When both traversals see the same lists, a folder's order is as long as its examples' request records. */
  lemma {:induction false} ConsistentEntries(examples: seq<Example>)
    requires forall i :: 0 <= i < |examples| ==> Consistent(examples[i])
    ensures TotalEntries(examples) == TotalInteractions(examples)
  {
    if examples != [] {
      var init := examples[..|examples| - 1];
      assert forall i :: 0 <= i < |init| ==> init[i] == examples[i];
      ConsistentEntries(init);
      assert Consistent(examples[|examples| - 1]);
    }
  }

  lemma FilterSubset(examples: seq<Example>, name: Option<string>)
    ensures forall ex :: ex in Filter(examples, name) ==> ex in examples
  {
    if examples != [] {
      FilterSubset(examples[..|examples| - 1], name);
    }
  }

  lemma FolderOrderMatchesRequests(hash: Obj -> int, examples: seq<Example>)
    requires forall i :: 0 <= i < |examples| ==> Consistent(examples[i])
    ensures forall i :: 0 <= i < |Folders(hash, examples)| ==>
      |Folders(hash, examples)[i].order| == TotalInteractions(Filter(examples, Folders(hash, examples)[i].name))
  {
    var folders := Folders(hash, examples);
    FolderOrder(hash, examples);
    forall i | 0 <= i < |folders|
      ensures |folders[i].order| == TotalInteractions(Filter(examples, folders[i].name))
    {
      var group := Filter(examples, folders[i].name);
      FilterSubset(examples, folders[i].name);
      forall k | 0 <= k < |group| ensures Consistent(group[k]) {
        assert group[k] in group;
        var m :| 0 <= m < |examples| && examples[m] == group[k];
      }
      ConsistentEntries(group);
    }
  }

  // ---------------------------------------------------------------------------
  // render_template
  // ---------------------------------------------------------------------------

  /** `PostmanWriter#render_template`: folders first, then requests, which may raise. */
  function RenderTemplate(hash: Obj -> int, examples: seq<Example>, configuration: Configuration, clock: nat -> int)
    : (r: Result<Template, RenderError>)
    ensures r.Ok? <==> forall i :: 0 <= i < |examples| ==> Recorded(examples[i])
    ensures r.Err? ==> RaisedAtFirst(examples, r.error)
    ensures r.Ok? ==>
      && r.value.folders == Folders(hash, examples)
      && r.value.requests == Requests(hash, examples, clock).value
      && r.value.configuration == configuration
  {
    var folders := Folders(hash, examples);
    match Requests(hash, examples, clock)
    case Err(e) => Err(e)
    case Ok(requests) => Ok(Template(folders, requests, configuration))
  }

  /**
   * The rendered collection: the fixed envelope, the configured name, the random id
   * and timestamp given, one folder per distinct resource name and one request per interaction.
   */
  lemma RenderedCollection(hash: Obj -> int, examples: seq<Example>, configuration: Configuration,
                           clock: nat -> int, uuid: string, now: int)
    requires forall i :: 0 <= i < |examples| ==> Recorded(examples[i])
    ensures RenderTemplate(hash, examples, configuration, clock).Ok?
    ensures var c := PostmanTemplate.AsJson(RenderTemplate(hash, examples, configuration, clock).value, uuid, now);
      && HasFixedEnvelope(c)
      && c.id == uuid && c.name == configuration.apiName && c.timestamp == now
      && |c.folders| == |set ex | ex in examples :: ex.resourceName|
      && |c.requests| == TotalInteractions(examples)
  {
    FolderCount(hash, examples);
  }

  /** With no examples the collection still has every key, with empty folders and requests. */
  lemma EmptyIndex(hash: Obj -> int, configuration: Configuration, clock: nat -> int, uuid: string, now: int)
    ensures RenderTemplate(hash, [], configuration, clock) == Ok(Template([], [], configuration))
    ensures PostmanTemplate.AsJson(Template([], [], configuration), uuid, now).folders == []
    ensures PostmanTemplate.AsJson(Template([], [], configuration), uuid, now).requests == []
  {
  }

  // ---------------------------------------------------------------------------
  // the writer's test fixture
  // ---------------------------------------------------------------------------

  /** Two interactions: a GET with one request header, and a POST with a body and no request headers. */
  const FixtureInteractions: seq<Interaction> := [
    Interaction(
      requestMethod := Some("GET"), requestPath := Some("/greetings"),
      requestHeaders := Some([("Header", "value")]),
      requestQueryParameters := Some([("foo", "bar"), ("baz", "quux")]),
      requestBody := None,
      responseStatus := Some(200), responseStatusText := Some("OK"),
      responseHeaders := Some([("Header", "value"), ("Foo", "bar")]), responseBody := Some("body")),
    Interaction(
      requestMethod := Some("POST"), requestPath := Some("/greetings"),
      requestHeaders := None, requestQueryParameters := None,
      requestBody := Some("body"),
      responseStatus := Some(404), responseStatusText := Some("Not Found"),
      responseHeaders := Some([("Header", "value")]), responseBody := Some("body"))
  ]

  /**
   * Two examples under different resource names sharing those interactions; their
   * metadata holds only `:requests`, and neither has a top-level `:requests`.
   */
  const FixtureExamples: seq<Example> := [
    Example(Some("Foo Bar"), Some("ABCDEFG"), None, Some(Metadata(None, None, None, Some(FixtureInteractions)))),
    Example(Some("Baz Bar"), Some("ABCDEFG"), None, Some(Metadata(None, None, None, Some(FixtureInteractions))))
  ]

  /**
   * The fixture's folders: one per resource name, in order, and each folder's order
   * is the key of the one nil that its missing `:requests` flattens to.
   */
  lemma FixtureFolders(hash: Obj -> int)
    ensures |Folders(hash, FixtureExamples)| == 2
    ensures Folders(hash, FixtureExamples)[0].name == Some("Foo Bar")
    ensures Folders(hash, FixtureExamples)[1].name == Some("Baz Bar")
    ensures Folders(hash, FixtureExamples)[0].order == [GenerateKey(hash, Nil)]
    ensures Folders(hash, FixtureExamples)[1].order == [GenerateKey(hash, Nil)]
  {
    var exs := FixtureExamples;
    FixtureGroups();
    assert [exs[0]][..0] == [] && [exs[1]][..0] == [];
    assert FolderEntries([exs[0]]) == [Nil];
    assert FolderEntries([exs[1]]) == [Nil];
  }

  /** `group_by` on the fixture: one group per example, in order. */
  lemma FixtureGroups()
    ensures GroupBy(FixtureExamples) == [Group(Some("Foo Bar"), [FixtureExamples[0]]), Group(Some("Baz Bar"), [FixtureExamples[1]])]
  {
    var exs := FixtureExamples;
    var e0, e1 := exs[0], exs[1];
    assert exs[..1] == [e0];
    assert [e0][..0] == [];
    assert GroupBy([]) == [];
    assert Names([]) == [];
    var g0 := GroupBy([e0]);
    assert g0 == Insert([], e0);
    assert g0 == [Group(Some("Foo Bar"), [e0])];
    assert Names(g0) == [Some("Foo Bar")];
    assert GroupBy(exs) == Insert(g0, e1);
  }

  /**
   * The fixture's requests: 2 examples times 2 interactions. Every id and folder is the
   * key of nil, since the metadata has no full description or resource name; the header
   * value is not written, and a missing body stays nil.
   */
  lemma FixtureRequests(hash: Obj -> int, clock: nat -> int)
    ensures Requests(hash, FixtureExamples, clock).Ok?
    ensures var rs := Requests(hash, FixtureExamples, clock).value;
      && |rs| == 4
      && (forall k :: 0 <= k < 4 ==> rs[k].id == GenerateKey(hash, Nil) && rs[k].folder == GenerateKey(hash, Nil))
      && rs[0].headers == "Header: val" && rs[1].headers == ""
      && rs[0].rawModeData.None? && rs[1].rawModeData == Some("body")
      && rs[0].httpMethod == Some("GET") && rs[1].httpMethod == Some("POST")
      && rs[2].httpMethod == Some("GET") && rs[3].httpMethod == Some("POST")
  {
    var exs := FixtureExamples;
    var e0, e1 := exs[0], exs[1];
    assert exs[..1] == [e0];
    assert [e0][..0] == [];
    var r0 := ExampleRequests(hash, e0, 0, clock, 0);
    assert Requests(hash, [], clock) == Ok([]);
    assert [] + r0.value == r0.value;
    assert Requests(hash, [e0], clock) == Ok(r0.value);
    var r1 := ExampleRequests(hash, e1, 1, clock, 2);
    assert Requests(hash, exs, clock) == Ok(r0.value + r1.value);
    SingleHeader();
  }

  /** The fixture renders 2 folders and 4 requests. */
  lemma FixtureRender(hash: Obj -> int, configuration: Configuration, clock: nat -> int)
    ensures RenderTemplate(hash, FixtureExamples, configuration, clock).Ok?
    ensures |RenderTemplate(hash, FixtureExamples, configuration, clock).value.folders| == 2
    ensures |RenderTemplate(hash, FixtureExamples, configuration, clock).value.requests| == 4
  {
    FixtureFolders(hash);
    FixtureRequests(hash, clock);
  }
}
