/** Copying a collection template's indexing policy onto the definition of a
    collection about to be created. The scalar settings are overwritten; the
    template's included and excluded paths are added, one at a time and in
    order, after the paths the definition already has. Nothing is replaced,
    sorted or de-duplicated. */
module Indexing {
  import Remote

  /** When the store updates the index: synchronously with writes, lazily, or
      not at all. */
  datatype IndexingMode = Consistent | Lazy | None

  /** A document path to index. The copier never looks inside a path. */
  datatype IncludedPath = IncludedPath(path: string)

  /** A document path to leave out of the index. */
  datatype ExcludedPath = ExcludedPath(path: string)

  /** The indexing policy of a collection definition; its path lists exist. */
  datatype IndexingPolicy = IndexingPolicy(
    automatic: bool,
    indexingMode: IndexingMode,
    includedPaths: seq<IncludedPath>,
    excludedPaths: seq<ExcludedPath>)

  /** The indexing policy carried by a template. It is the same client type as
      IndexingPolicy and differs only in that its path lists may be null. */
  datatype SpecIndexingPolicy = SpecIndexingPolicy(
    automatic: bool,
    indexingMode: IndexingMode,
    includedPaths: Remote.Option<seq<IncludedPath>>,
    excludedPaths: Remote.Option<seq<ExcludedPath>>)

  /** A collection template; its indexing policy may be null. */
  datatype DocumentCollectionSpec = DocumentCollectionSpec(indexingPolicy: Remote.Option<SpecIndexingPolicy>)

  /** A collection definition: its id and its indexing policy. */
  datatype DocumentCollection = DocumentCollection(id: string, indexingPolicy: IndexingPolicy)

  /** A list that may be null, read as its elements, with null read as none. */
  function Elements<T>(list: Remote.Option<seq<T>>): seq<T> {
    if list.Some? then list.value else []
  }

  /** `foreach (item in items) target.Add(item)`: after the loop the target
      holds its former elements, unmoved, followed by every item in
      enumeration order. */
  function AddEach<T>(target: seq<T>, items: seq<T>): (r: seq<T>)
    ensures |r| == |target| + |items|
    ensures forall i :: 0 <= i < |target| ==> r[i] == target[i]
    ensures forall i :: 0 <= i < |items| ==> r[|target| + i] == items[i]
    decreases |items|
  {
    if items == [] then target else AddEach(target + [items[0]], items[1..])
  }

  /** The copy. A null template policy leaves the definition as it is.
      Otherwise Automatic and IndexingMode come from the template, and each
      path list is the definition's own list followed by the template's (or
      unchanged when the template's list is null). The id is never touched. */
  function CopyIndexingPolicy(spec: DocumentCollectionSpec, definition: DocumentCollection): (r: DocumentCollection)
    ensures r.id == definition.id
    ensures spec.indexingPolicy.None? ==> r == definition
    ensures spec.indexingPolicy.Some? ==>
              var from := spec.indexingPolicy.value;
              && r.indexingPolicy.automatic == from.automatic
              && r.indexingPolicy.indexingMode == from.indexingMode
              && r.indexingPolicy.includedPaths == definition.indexingPolicy.includedPaths + Elements(from.includedPaths)
              && r.indexingPolicy.excludedPaths == definition.indexingPolicy.excludedPaths + Elements(from.excludedPaths)
  {
    if spec.indexingPolicy.None? then definition
    else
      var from := spec.indexingPolicy.value;
      var policy := definition.indexingPolicy.(automatic := from.automatic, indexingMode := from.indexingMode);
      var policy :=
        if from.includedPaths.Some?
        then policy.(includedPaths := AddEach(policy.includedPaths, from.includedPaths.value))
        else policy;
      var policy :=
        if from.excludedPaths.Some?
        then policy.(excludedPaths := AddEach(policy.excludedPaths, from.excludedPaths.value))
        else policy;
      definition.(indexingPolicy := policy)
  }

  /** Copying the same template twice adds its paths twice: the copy does not
      de-duplicate, so it is not idempotent once the template has paths. */
  lemma CopyTwiceAddsPathsTwice(spec: DocumentCollectionSpec, definition: DocumentCollection)
    requires spec.indexingPolicy.Some?
    ensures var from := spec.indexingPolicy.value;
            var twice := CopyIndexingPolicy(spec, CopyIndexingPolicy(spec, definition));
            && twice.indexingPolicy.includedPaths
               == definition.indexingPolicy.includedPaths + Elements(from.includedPaths) + Elements(from.includedPaths)
            && twice.indexingPolicy.excludedPaths
               == definition.indexingPolicy.excludedPaths + Elements(from.excludedPaths) + Elements(from.excludedPaths)
            && (twice == CopyIndexingPolicy(spec, definition)
                <==> Elements(from.includedPaths) == [] && Elements(from.excludedPaths) == [])
  {
  }

  /** Onto a definition whose path lists are empty, the copy yields exactly the
      template's policy, with null lists read as empty. */
  lemma CopyOntoEmptyPolicy(spec: DocumentCollectionSpec, definition: DocumentCollection)
    requires spec.indexingPolicy.Some?
    requires definition.indexingPolicy.includedPaths == [] && definition.indexingPolicy.excludedPaths == []
    ensures var from := spec.indexingPolicy.value;
            CopyIndexingPolicy(spec, definition).indexingPolicy
            == IndexingPolicy(from.automatic, from.indexingMode, Elements(from.includedPaths), Elements(from.excludedPaths))
  {
  }
}
