/** Values from ConfigMaps and Secrets (internal/values/implementation.go and fetch.go). */
module Resolving {
  import opened Wrappers
  import opened BundleTypes
  import opened YamlTree
  import opened Merging
  import FlattenOrders
  import PathEncoding

  /** One data entry of an object, after the YAML parser: empty text, an error, or a document. */
  datatype Document = Blank | Malformed | Parsed(root: Value)

  type Data = map<string, Document>

  /** An object that is there, readable or not; Secrets come decoded. */
  datatype Stored = Readable(data: Data) | Unreadable

  datatype ObjectKey = ObjectKey(namespace: string, name: string)

  type Objects = map<ObjectKey, Stored>

  datatype Store = Store(configMaps: Objects, secrets: Objects)

  datatype FetchError = ResourceNotFound | APIError | YAMLError

  datatype ResolveError = EmptyName(source: nat) | NoReference(source: nat) | SourceError(source: nat, cause: FetchError)

  // Documents and objects.

  ghost predicate DocumentEmitsKey(doc: Document, key: string) {
    doc.Parsed? && EmitsKey(doc.root, "", key)
  }

  ghost predicate DocumentEmits(doc: Document, key: string, text: string) {
    doc.Parsed? && Emits(doc.root, "", key, text)
  }

  /** An order in which the document, if there is one, can be walked. */
  predicate Reads(doc: Document, o: Order) {
    doc.Parsed? ==> Walks(doc.root, o)
  }

  function DocumentIn(doc: Document, o: Order): map<string, string>
    requires Reads(doc, o)
  {
    if doc.Parsed? then FlattenIn(doc.root, "", o, map[]) else map[]
  }

  method ParseYAML(doc: Document) returns (result: Result<map<string, string>, FetchError>, ghost o: Order)
    ensures result.Failure? <==> doc.Malformed?
    ensures result.Failure? ==> result.error == YAMLError
    ensures result.Success? ==> Reads(doc, o) && result.value == DocumentIn(doc, o)
    ensures result.Success? ==>
              forall key ::
                && (key in result.value <==> DocumentEmitsKey(doc, key))
                && (key in result.value ==> DocumentEmits(doc, key, result.value[key]))
  {
    match doc
    case Blank => return Success(map[]), AtLeaf;
    case Malformed => return Failure(YAMLError), AtLeaf;
    case Parsed(root) =>
      var flat := new FlatMap();
      o := FlattenValue("", root, flat);
      return Success(flat.entries), o;
  }

  lemma DocumentInEmits(doc: Document, o: Order)
    requires Reads(doc, o)
    ensures forall key ::
              && (key in DocumentIn(doc, o) <==> DocumentEmitsKey(doc, key))
              && (key in DocumentIn(doc, o) ==> DocumentEmits(doc, key, DocumentIn(doc, o)[key]))
  {
    if doc.Parsed? {
      FlattenAdds(doc.root, "", o, map[]);
    }
  }

  predicate WellFormed(data: Data) {
    forall file :: file in data ==> !data[file].Malformed?
  }

  ghost predicate DataEmitsKey(data: Data, key: string) {
    exists file :: file in data && DocumentEmitsKey(data[file], key)
  }

  ghost predicate DataEmits(data: Data, key: string, text: string) {
    exists file :: file in data && DocumentEmits(data[file], key, text)
  }

  /** The flat map of an object; where its documents define a key twice, one of them wins. */
  ghost predicate Represents(data: Data, flat: map<string, string>) {
    forall key ::
      && (key in flat <==> DataEmitsKey(data, key))
      && (key in flat ==> DataEmits(data, key, flat[key]))
  }

  /** The order in which the files of an object are met, and each of them is walked. */
  datatype Reading = Reading(files: seq<string>, orders: seq<Order>)

  predicate ReadsFiles(data: Data, files: seq<string>, orders: seq<Order>) {
    && |files| == |orders|
    && (forall i :: 0 <= i < |files| ==> files[i] in data && Reads(data[files[i]], orders[i]))
    && (forall i, j :: 0 <= i < j < |files| ==> files[i] != files[j])
  }

  predicate ReadsData(data: Data, r: Reading) {
    ReadsFiles(data, r.files, r.orders) && data.Keys <= Members(r.files)
  }

  function FileMaps(data: Data, files: seq<string>, orders: seq<Order>): (maps: seq<map<string, string>>)
    requires ReadsFiles(data, files, orders)
    ensures |maps| == |files|
    ensures forall i :: 0 <= i < |files| ==> maps[i] == DocumentIn(data[files[i]], orders[i])
  {
    seq(|files|, i requires 0 <= i < |files| => DocumentIn(data[files[i]], orders[i]))
  }

  /** What an object gives when it is read this way. */
  function ObjectIn(data: Data, r: Reading): map<string, string>
    requires ReadsData(data, r)
  {
    Merged(FileMaps(data, r.files, r.orders))
  }

  /** However it is read, an object has the keys of its documents, each with a text one of them gives it. */
  lemma EveryReadingRepresents(data: Data, r: Reading)
    requires ReadsData(data, r)
    ensures Represents(data, ObjectIn(data, r))
  {
    hide DocumentEmitsKey, DocumentEmits, Merged, Reads, DocumentIn;
    var maps := FileMaps(data, r.files, r.orders);
    forall i | 0 <= i < |maps| {
      DocumentInEmits(data[r.files[i]], r.orders[i]);
    }
    forall key
      ensures key in Merged(maps) <==> DataEmitsKey(data, key)
      ensures key in Merged(maps) ==> DataEmits(data, key, Merged(maps)[key])
    {
      LastDefinitionWins(maps, key);
      if DataEmitsKey(data, key) {
        var file :| file in data && DocumentEmitsKey(data[file], key);
        assert file in Members(r.files);
        var i :| 0 <= i < |r.files| && r.files[i] == file;
        assert key in maps[i];
      }
      if key in Merged(maps) {
        var i := LastWith(maps, key);
        assert DocumentEmits(data[r.files[i]], key, Merged(maps)[key]);
      }
    }
  }

  method ParseAndMerge(data: Data) returns (result: Result<map<string, string>, FetchError>, ghost r: Reading)
    ensures result.Success? <==> WellFormed(data)
    ensures result.Success? ==> ReadsData(data, r) && result.value == ObjectIn(data, r)
    ensures result.Success? ==> Represents(data, result.value)
    ensures result.Failure? ==> result.error == YAMLError
  {
    hide DocumentEmitsKey, DocumentEmits, Represents, Reads, DocumentIn;
    var maps: seq<map<string, string>> := [];
    r := Reading([], []);
    var todo := data.Keys;
    while todo != {}
      invariant todo <= data.Keys && todo !! Members(r.files) && data.Keys <= todo + Members(r.files)
      invariant forall file :: file in data && file !in todo ==> !data[file].Malformed?
      invariant ReadsFiles(data, r.files, r.orders) && maps == FileMaps(data, r.files, r.orders)
    {
      var file :| file in todo;
      var parsed;
      ghost var o;
      parsed, o := ParseYAML(data[file]);
      if parsed.Failure? {
        return Failure(parsed.error), r;
      }
      FilesGrow(data, r.files, r.orders, file, o);
      maps := maps + [parsed.value];
      r := Reading(r.files + [file], r.orders + [o]);
      todo := todo - {file};
    }
    var merged := MergeMaps(maps);
    EveryReadingRepresents(data, r);
    return Success(merged), r;
  }

  lemma FilesGrow(data: Data, files: seq<string>, orders: seq<Order>, file: string, o: Order)
    requires ReadsFiles(data, files, orders) && file in data && file !in Members(files) && Reads(data[file], o)
    ensures ReadsFiles(data, files + [file], orders + [o])
    ensures Members(files + [file]) == Members(files) + {file}
    ensures FileMaps(data, files + [file], orders + [o]) == FileMaps(data, files, orders) + [DocumentIn(data[file], o)]
  {
    hide Reads, DocumentIn;
    assert forall i :: 0 <= i < |files| ==> files[i] in Members(files);
  }

  lemma {:induction false} LastWith(maps: seq<map<string, string>>, key: string) returns (i: nat)
    requires exists i :: 0 <= i < |maps| && key in maps[i]
    ensures i < |maps| && key in maps[i] && forall j :: i < j < |maps| ==> key !in maps[j]
  {
    var n := |maps| - 1;
    if key in maps[n] {
      i := n;
    } else {
      var k :| 0 <= k < |maps| && key in maps[k];
      assert maps[..n][k] == maps[k];
      i := LastWith(maps[..n], key);
      assert forall j :: 0 <= j < n ==> maps[..n][j] == maps[j];
    }
  }

  // Finding an object.

  datatype Located = Here(data: Data) | Nowhere | Broken

  function Get(objects: Objects, key: ObjectKey): Located {
    if key !in objects then Nowhere
    else if objects[key].Unreadable? then Broken
    else Here(objects[key].data)
  }

  /** The bundle namespace first; the target namespace only if the object is absent there. */
  function Locate(objects: Objects, name: string, bundleNamespace: string, targetNamespace: string): Located {
    var first := Get(objects, ObjectKey(bundleNamespace, name));
    if first.Nowhere? && targetNamespace != "" then Get(objects, ObjectKey(targetNamespace, name)) else first
  }

  /** What reading one object gives. */
  ghost predicate AnsweredBy(stored: Stored, result: Result<map<string, string>, FetchError>) {
    match stored
    case Unreadable => result == Failure(APIError)
    case Readable(data) =>
      && (result.Success? <==> WellFormed(data))
      && (result.Success? ==> Represents(data, result.value))
      && (result.Failure? ==> result.error == YAMLError)
  }

  /** fetchConfigMap and fetchSecret differ in the collection they read and in nothing else. */
  method Fetch(objects: Objects, name: string, bundleNamespace: string, targetNamespace: string)
    returns (result: Result<map<string, string>, FetchError>, ghost r: Reading)
    ensures ObjectKey(bundleNamespace, name) in objects ==>
              AnsweredBy(objects[ObjectKey(bundleNamespace, name)], result)
    ensures ObjectKey(bundleNamespace, name) !in objects
            && targetNamespace != "" && ObjectKey(targetNamespace, name) in objects ==>
              AnsweredBy(objects[ObjectKey(targetNamespace, name)], result)
    ensures ObjectKey(bundleNamespace, name) !in objects
            && (targetNamespace == "" || ObjectKey(targetNamespace, name) !in objects) ==>
              result == Failure(ResourceNotFound)
    ensures match Locate(objects, name, bundleNamespace, targetNamespace)
            case Here(data) =>
              && (result.Success? <==> WellFormed(data))
              && (result.Success? ==> Represents(data, result.value))
              && (result.Failure? ==> result.error == YAMLError)
            case Nowhere => result == Failure(ResourceNotFound)
            case Broken => result == Failure(APIError)
    ensures var located := Locate(objects, name, bundleNamespace, targetNamespace);
            located.Here? && result.Success? ==> ReadsData(located.data, r) && result.value == ObjectIn(located.data, r)
  {
    r := Reading([], []);
    match Get(objects, ObjectKey(bundleNamespace, name)) {
      case Here(data) =>
        result, r := ParseAndMerge(data);
        return;
      case Broken =>
        return Failure(APIError), r;
      case Nowhere =>
    }
    if targetNamespace != "" && targetNamespace != bundleNamespace {
      match Get(objects, ObjectKey(targetNamespace, name)) {
        case Here(data) =>
          result, r := ParseAndMerge(data);
          return;
        case Broken =>
          return Failure(APIError), r;
        case Nowhere =>
      }
    }
    return Failure(ResourceNotFound), r;
  }

  // Sources.

  datatype SourceOutcome = Yields(data: Data) | Skipped | Fails

  function Judge(located: Located, optional: bool): SourceOutcome {
    match located
    case Here(data) => if WellFormed(data) then Yields(data) else Fails
    case Nowhere => if optional then Skipped else Fails
    case Broken => Fails
  }

  /** What one source contributes. */
  function SourceIn(store: Store, source: ValuesSource, bundleNamespace: string, targetNamespace: string): SourceOutcome {
    if source.configMapRef.Some? then
      if source.configMapRef.value == "" then Fails
      else Judge(Locate(store.configMaps, source.configMapRef.value, bundleNamespace, targetNamespace), source.optional)
    else if source.secretRef.Some? then
      if source.secretRef.value == "" then Fails
      else Judge(Locate(store.secrets, source.secretRef.value, bundleNamespace, targetNamespace), source.optional)
    else Fails
  }

  /** The object that decides for a name: the bundle namespace's, or in its absence the target namespace's. */
  predicate DecidedBy(objects: Objects, name: string, bundleNamespace: string, targetNamespace: string, key: ObjectKey) {
    && key in objects && key.name == name
    && (key.namespace == bundleNamespace
        || (ObjectKey(bundleNamespace, name) !in objects && targetNamespace != "" && key.namespace == targetNamespace))
  }

  predicate IsAbsent(objects: Objects, name: string, bundleNamespace: string, targetNamespace: string) {
    && ObjectKey(bundleNamespace, name) !in objects
    && (targetNamespace == "" || ObjectKey(targetNamespace, name) !in objects)
  }

  /** The source names an object of this collection; a ConfigMap goes before a Secret. */
  predicate RefersTo(store: Store, source: ValuesSource, objects: Objects, name: string) {
    || (source.configMapRef == Some(name) && objects == store.configMaps)
    || (source.configMapRef == None && source.secretRef == Some(name) && objects == store.secrets)
  }

  /** What a source gives, told by the objects there are; being optional excuses absence and nothing else. */
  lemma SourceGivesExactly(store: Store, source: ValuesSource, bundleNamespace: string, targetNamespace: string,
                           objects: Objects, name: string)
    requires RefersTo(store, source, objects, name)
    ensures var outcome := SourceIn(store, source, bundleNamespace, targetNamespace);
            && (name == "" ==> outcome == Fails)
            && (name != "" && IsAbsent(objects, name, bundleNamespace, targetNamespace) ==>
                  outcome == if source.optional then Skipped else Fails)
            && (forall key :: name != "" && DecidedBy(objects, name, bundleNamespace, targetNamespace, key) ==>
                  outcome == if objects[key].Readable? && WellFormed(objects[key].data) then Yields(objects[key].data)
                             else Fails)
  {
    forall key | DecidedBy(objects, name, bundleNamespace, targetNamespace, key)
      ensures Get(objects, key) == Locate(objects, name, bundleNamespace, targetNamespace)
    {
      assert key == ObjectKey(key.namespace, name);
    }
  }

  /** The object is there and can be read, or its absence is excused. */
  ghost predicate ResolvesIn(objects: Objects, name: string, optional: bool, bundleNamespace: string, targetNamespace: string) {
    name != "" &&
    (|| (optional && IsAbsent(objects, name, bundleNamespace, targetNamespace))
     || exists key :: DecidedBy(objects, name, bundleNamespace, targetNamespace, key)
                      && objects[key].Readable? && WellFormed(objects[key].data))
  }

  ghost predicate Resolves(store: Store, source: ValuesSource, bundleNamespace: string, targetNamespace: string) {
    if source.configMapRef.Some? then
      ResolvesIn(store.configMaps, source.configMapRef.value, source.optional, bundleNamespace, targetNamespace)
    else
      && source.secretRef.Some?
      && ResolvesIn(store.secrets, source.secretRef.value, source.optional, bundleNamespace, targetNamespace)
  }

  lemma ResolvesExactly(store: Store, source: ValuesSource, bundleNamespace: string, targetNamespace: string)
    ensures Resolves(store, source, bundleNamespace, targetNamespace)
            <==> !SourceIn(store, source, bundleNamespace, targetNamespace).Fails?
  {
    hide SourceIn;
    if source.configMapRef.None? && source.secretRef.None? {
      NoReferenceFails(store, source, bundleNamespace, targetNamespace);
    } else {
      var ofConfigMap := source.configMapRef.Some?;
      var objects := if ofConfigMap then store.configMaps else store.secrets;
      var name := if ofConfigMap then source.configMapRef.value else source.secretRef.value;
      SourceGivesExactly(store, source, bundleNamespace, targetNamespace, objects, name);
      if !IsAbsent(objects, name, bundleNamespace, targetNamespace) {
        var key := ObjectKey(if ObjectKey(bundleNamespace, name) in objects then bundleNamespace else targetNamespace, name);
        assert DecidedBy(objects, name, bundleNamespace, targetNamespace, key);
      }
    }
  }

  lemma NoReferenceFails(store: Store, source: ValuesSource, bundleNamespace: string, targetNamespace: string)
    requires source.configMapRef.None? && source.secretRef.None?
    ensures SourceIn(store, source, bundleNamespace, targetNamespace) == Fails
  {
  }

  ghost predicate Defines(outcome: SourceOutcome, key: string) {
    outcome.Yields? && DataEmitsKey(outcome.data, key)
  }

  /** The values of a list of outcomes: every key comes from the last one that defines it. */
  ghost predicate Resolved(outcomes: seq<SourceOutcome>, values: map<string, string>) {
    && (forall key :: key in values <==> exists i :: 0 <= i < |outcomes| && Defines(outcomes[i], key))
    && (forall i, key :: 0 <= i < |outcomes| && Defines(outcomes[i], key)
                         && (forall j :: i < j < |outcomes| ==> !Defines(outcomes[j], key))
                         ==> key in values && DataEmits(outcomes[i].data, key, values[key]))
  }

  function Outcomes(store: Store, sources: seq<ValuesSource>, bundleNamespace: string, targetNamespace: string): (outcomes: seq<SourceOutcome>)
    ensures |outcomes| == |sources|
    ensures forall i :: 0 <= i < |sources| ==>
              outcomes[i] == SourceIn(store, sources[i], bundleNamespace, targetNamespace)
  {
    seq(|sources|, i requires 0 <= i < |sources| => SourceIn(store, sources[i], bundleNamespace, targetNamespace))
  }

  predicate ReadsSources(outcomes: seq<SourceOutcome>, rs: seq<Reading>) {
    |rs| == |outcomes| && forall i :: 0 <= i < |outcomes| && outcomes[i].Yields? ==> ReadsData(outcomes[i].data, rs[i])
  }

  function SourceMaps(outcomes: seq<SourceOutcome>, rs: seq<Reading>): (maps: seq<map<string, string>>)
    requires ReadsSources(outcomes, rs)
    ensures |maps| == |outcomes|
    ensures forall i :: 0 <= i < |outcomes| ==>
              maps[i] == if outcomes[i].Yields? then ObjectIn(outcomes[i].data, rs[i]) else map[]
  {
    seq(|outcomes|, i requires 0 <= i < |outcomes| =>
      if outcomes[i].Yields? then ObjectIn(outcomes[i].data, rs[i]) else map[])
  }

  /** What the sources give when they are read this way. */
  function ValuesIn(outcomes: seq<SourceOutcome>, rs: seq<Reading>): map<string, string>
    requires ReadsSources(outcomes, rs)
  {
    Merged(SourceMaps(outcomes, rs))
  }

  lemma SourcesGrow(outcomes: seq<SourceOutcome>, rs: seq<Reading>, outcome: SourceOutcome, r: Reading)
    requires ReadsSources(outcomes, rs) && (outcome.Yields? ==> ReadsData(outcome.data, r))
    ensures ReadsSources(outcomes + [outcome], rs + [r])
    ensures ValuesIn(outcomes + [outcome], rs + [r])
            == ValuesIn(outcomes, rs) + if outcome.Yields? then ObjectIn(outcome.data, r) else map[]
  {
    hide ReadsData, ObjectIn;
    var maps := SourceMaps(outcomes + [outcome], rs + [r]);
    assert maps[..|outcomes|] == SourceMaps(outcomes, rs);
  }

  lemma DefinedInMap(outcomes: seq<SourceOutcome>, rs: seq<Reading>, i: nat, key: string)
    requires ReadsSources(outcomes, rs) && i < |outcomes|
    ensures key in SourceMaps(outcomes, rs)[i] <==> Defines(outcomes[i], key)
    ensures Defines(outcomes[i], key) ==> DataEmits(outcomes[i].data, key, SourceMaps(outcomes, rs)[i][key])
  {
    if outcomes[i].Yields? {
      EveryReadingRepresents(outcomes[i].data, rs[i]);
    }
  }

  /** However the sources are read, every key comes from the last one that defines it. */
  lemma EveryReadingResolves(outcomes: seq<SourceOutcome>, rs: seq<Reading>)
    requires ReadsSources(outcomes, rs)
    ensures Resolved(outcomes, ValuesIn(outcomes, rs))
  {
    hide Defines, ReadsData, ObjectIn, DataEmits, Merged;
    var maps, values := SourceMaps(outcomes, rs), ValuesIn(outcomes, rs);
    forall i, key | 0 <= i < |outcomes|
      ensures key in maps[i] <==> Defines(outcomes[i], key)
      ensures Defines(outcomes[i], key) ==> outcomes[i].Yields? && DataEmits(outcomes[i].data, key, maps[i][key])
    {
      DefinedInMap(outcomes, rs, i, key);
      DefinersYield(outcomes[i], key);
    }
    forall key
      ensures key in values <==> exists i :: 0 <= i < |outcomes| && Defines(outcomes[i], key)
    {
      LastDefinitionWins(maps, key);
    }
    forall i, key | 0 <= i < |outcomes| && Defines(outcomes[i], key) && forall j :: i < j < |outcomes| ==> !Defines(outcomes[j], key)
      ensures key in values && DataEmits(outcomes[i].data, key, values[key])
    {
      LastDefinitionWins(maps, key);
    }
  }

  lemma DefinersYield(outcome: SourceOutcome, key: string)
    ensures Defines(outcome, key) ==> outcome.Yields?
  {
  }

  method ResolveValues(store: Store, sources: seq<ValuesSource>, bundleNamespace: string, targetNamespace: string)
    returns (result: Result<map<string, string>, ResolveError>, ghost rs: seq<Reading>)
    ensures result.Success? <==>
            forall i :: 0 <= i < |sources| ==> !SourceIn(store, sources[i], bundleNamespace, targetNamespace).Fails?
    ensures result.Success? <==>
            forall i :: 0 <= i < |sources| ==> Resolves(store, sources[i], bundleNamespace, targetNamespace)
    ensures result.Failure? ==>
              var i := result.error.source;
              && i < |sources| && !Resolves(store, sources[i], bundleNamespace, targetNamespace)
              && (forall j :: 0 <= j < i ==> Resolves(store, sources[j], bundleNamespace, targetNamespace))
              && (result.error.NoReference? <==> sources[i].configMapRef == None && sources[i].secretRef == None)
              && (result.error.EmptyName? <==>
                    sources[i].configMapRef == Some("")
                    || (sources[i].configMapRef == None && sources[i].secretRef == Some("")))
    ensures var outcomes := Outcomes(store, sources, bundleNamespace, targetNamespace);
            result.Success? ==>
              && ReadsSources(outcomes, rs) && result.value == ValuesIn(outcomes, rs)
              && Resolved(outcomes, result.value)
  {
    hide ReadsData, ObjectIn, Resolved, WellFormed, ValuesIn, Resolves;
    forall i | 0 <= i < |sources| {
      ResolvesExactly(store, sources[i], bundleNamespace, targetNamespace);
    }
    var allMaps: seq<map<string, string>> := [];
    rs := [];
    assert ValuesIn([], []) == map[] by {
      NoSourcesNoValues();
    }
    for i := 0 to |sources|
      invariant forall j :: 0 <= j < i ==> !SourceIn(store, sources[j], bundleNamespace, targetNamespace).Fails?
      invariant ReadsSources(Outcomes(store, sources[..i], bundleNamespace, targetNamespace), rs)
      invariant Merged(allMaps) == ValuesIn(Outcomes(store, sources[..i], bundleNamespace, targetNamespace), rs)
    {
      var source := sources[i];
      var data: Result<map<string, string>, FetchError>;
      ghost var r: Reading;
      if source.configMapRef.Some? {
        if source.configMapRef.value == "" {
          return Failure(EmptyName(i)), rs;
        }
        data, r := Fetch(store.configMaps, source.configMapRef.value, bundleNamespace, targetNamespace);
      } else if source.secretRef.Some? {
        if source.secretRef.value == "" {
          return Failure(EmptyName(i)), rs;
        }
        data, r := Fetch(store.secrets, source.secretRef.value, bundleNamespace, targetNamespace);
      } else {
        return Failure(NoReference(i)), rs;
      }
      ghost var before := Outcomes(store, sources[..i], bundleNamespace, targetNamespace);
      ghost var outcome := SourceIn(store, source, bundleNamespace, targetNamespace);
      assert Outcomes(store, sources[..i + 1], bundleNamespace, targetNamespace) == before + [outcome];
      if data.Failure? {
        if source.optional && data.error.ResourceNotFound? {
          SourcesGrow(before, rs, outcome, r);
          rs := rs + [r];
          continue;
        }
        return Failure(SourceError(i, data.error)), rs;
      }
      SourcesGrow(before, rs, outcome, r);
      rs := rs + [r];
      assert (allMaps + [data.value])[..|allMaps|] == allMaps;
      allMaps := allMaps + [data.value];
    }
    assert sources[..|sources|] == sources;
    var merged := MergeMaps(allMaps);
    EveryReadingResolves(Outcomes(store, sources, bundleNamespace, targetNamespace), rs);
    return Success(merged), rs;
  }

  lemma NoSourcesNoValues()
    ensures ReadsSources([], []) && ValuesIn([], []) == map[]
  {
  }

  // What the outcome depends on.

  /** The two collections differ at most in objects the bundle namespace shadows by name. */
  predicate SameButShadowed(objects: Objects, other: Objects, bundleNamespace: string) {
    forall key :: key in objects.Keys + other.Keys
                  && !(key.namespace != bundleNamespace && ObjectKey(bundleNamespace, key.name) in objects) ==>
      key in objects && key in other && objects[key] == other[key]
  }

  /** What the target namespace holds under the name of a bundle-namespace object never matters. */
  lemma BundleNamespaceShadows(store: Store, other: Store, sources: seq<ValuesSource>,
                               bundleNamespace: string, targetNamespace: string)
    requires SameButShadowed(store.configMaps, other.configMaps, bundleNamespace)
    requires SameButShadowed(store.secrets, other.secrets, bundleNamespace)
    ensures Outcomes(store, sources, bundleNamespace, targetNamespace)
            == Outcomes(other, sources, bundleNamespace, targetNamespace)
  {
    forall i | 0 <= i < |sources|
      ensures SourceIn(store, sources[i], bundleNamespace, targetNamespace)
              == SourceIn(other, sources[i], bundleNamespace, targetNamespace)
    {
      if sources[i].configMapRef.Some? {
        LocateShadowed(store.configMaps, other.configMaps, sources[i].configMapRef.value, bundleNamespace, targetNamespace);
      } else if sources[i].secretRef.Some? {
        LocateShadowed(store.secrets, other.secrets, sources[i].secretRef.value, bundleNamespace, targetNamespace);
      }
    }
  }

  lemma LocateShadowed(objects: Objects, other: Objects, name: string, bundleNamespace: string, targetNamespace: string)
    requires SameButShadowed(objects, other, bundleNamespace)
    ensures Locate(objects, name, bundleNamespace, targetNamespace) == Locate(other, name, bundleNamespace, targetNamespace)
  {
    var bundleKey, targetKey := ObjectKey(bundleNamespace, name), ObjectKey(targetNamespace, name);
    assert bundleKey in objects.Keys + other.Keys <==> bundleKey in objects || bundleKey in other;
    assert targetKey in objects.Keys + other.Keys <==> targetKey in objects || targetKey in other;
  }

  /** An object whose documents never give one key two texts. */
  ghost predicate Determinate(data: Data) {
    forall key, text, other :: DataEmits(data, key, text) && DataEmits(data, key, other) ==> text == other
  }

  ghost predicate WellKeyedAndDisjoint(data: Data) {
    && (forall file :: file in data && data[file].Parsed? ==> PathEncoding.WellKeyed(data[file].root))
    && (forall file, other, key :: file in data && other in data && file != other
                                   ==> !(DocumentEmitsKey(data[file], key) && DocumentEmitsKey(data[other], key)))
  }

  /** Well-keyed documents that share no key are determinate. */
  lemma DisjointDocumentsAreDeterminate(data: Data)
    requires WellKeyedAndDisjoint(data)
    ensures Determinate(data)
  {
    forall key, text, other | DataEmits(data, key, text) && DataEmits(data, key, other)
      ensures text == other
    {
      var file :| file in data && DocumentEmits(data[file], key, text);
      var file' :| file' in data && DocumentEmits(data[file'], key, other);
      var root := data[file].root;
      var p :| At(root, p).Some? && Render("", p) == key && Format(At(root, p).value) == text;
      assert DocumentEmitsKey(data[file], key) && DocumentEmitsKey(data[file'], key);
      PathEncoding.EmittedOnce(root, p, key, text);
      PathEncoding.EmittedOnce(root, p, key, other);
    }
  }

  // What the order of iteration decides.

  ghost predicate DefinesLast(outcomes: seq<SourceOutcome>, i: nat, key: string) {
    i < |outcomes| && Defines(outcomes[i], key) && forall j :: i < j < |outcomes| ==> !Defines(outcomes[j], key)
  }

  /** The last source that defines a key gives it one text. */
  ghost predicate LastSourceDecides(outcomes: seq<SourceOutcome>) {
    forall i: nat, key, text, other :: DefinesLast(outcomes, i, key)
                                  && DataEmits(outcomes[i].data, key, text) && DataEmits(outcomes[i].data, key, other)
                                  ==> text == other
  }

  lemma DeterminateSourcesDecide(outcomes: seq<SourceOutcome>)
    requires forall i :: 0 <= i < |outcomes| && outcomes[i].Yields? ==> Determinate(outcomes[i].data)
    ensures LastSourceDecides(outcomes)
  {
    hide DataEmitsKey, DataEmits;
    LastDefinerYields(outcomes);
    forall i: nat, key, text, other | DefinesLast(outcomes, i, key) && DataEmits(outcomes[i].data, key, text)
                                      && DataEmits(outcomes[i].data, key, other)
      ensures text == other
    {
      assert Determinate(outcomes[i].data);
    }
  }

  /** Then there is only one way to resolve the sources. */
  lemma ResolutionIsUnique(outcomes: seq<SourceOutcome>, values: map<string, string>, other: map<string, string>)
    requires Resolved(outcomes, values) && Resolved(outcomes, other)
    requires LastSourceDecides(outcomes)
    ensures values == other
  {
    hide Defines, DataEmits;
    forall key | key in values
      ensures key in other && values[key] == other[key]
    {
      var i := LastDefining(outcomes, key);
      DefinersYield(outcomes[i], key);
      assert DefinesLast(outcomes, i, key);
      assert DataEmits(outcomes[i].data, key, values[key]) && DataEmits(outcomes[i].data, key, other[key]);
    }
  }

  lemma AnyReading(data: Data) returns (r: Reading)
    ensures ReadsData(data, r)
  {
    var files := FlattenOrders.Enumerate(data.Keys);
    assert forall i :: 0 <= i < |files| ==> files[i] in Members(files);
    var orders := AnyFileOrders(data, files);
    r := Reading(files, orders);
  }

  lemma {:induction false} AnyFileOrders(data: Data, files: seq<string>) returns (orders: seq<Order>)
    requires forall i :: 0 <= i < |files| ==> files[i] in data
    requires forall i, j :: 0 <= i < j < |files| ==> files[i] != files[j]
    ensures ReadsFiles(data, files, orders)
  {
    if files == [] {
      orders := [];
    } else {
      var n := |files| - 1;
      var earlier := AnyFileOrders(data, files[..n]);
      var last := AtLeaf;
      if data[files[n]].Parsed? {
        last := FlattenOrders.AnyOrder(data[files[n]].root);
      }
      orders := earlier + [last];
    }
  }

  /** Every text some document gives a key is the one of some reading. */
  lemma TextMayWin(data: Data, key: string, text: string) returns (r: Reading)
    requires DataEmits(data, key, text)
    ensures ReadsData(data, r) && key in ObjectIn(data, r) && ObjectIn(data, r)[key] == text
  {
    var file :| file in data && DocumentEmits(data[file], key, text);
    var root := data[file].root;
    var p :| At(root, p).Some? && Render("", p) == key && Format(At(root, p).value) == text;
    var o := FlattenOrders.LeafMayWin(root, "", p);
    assert key in FlattenIn(root, "", o, map[]) && FlattenIn(root, "", o, map[])[key] == text;
    hide Reads, DocumentEmits, At, Render, Walks;
    assert DocumentIn(data[file], o) == FlattenIn(root, "", o, map[]) && Reads(data[file], o) by {
      ParsedIn(data[file], o);
    }
    var files := FlattenOrders.Enumerate(data.Keys - {file});
    assert forall i :: 0 <= i < |files| ==> files[i] in Members(files);
    var orders := AnyFileOrders(data, files);
    FilesGrow(data, files, orders, file, o);
    r := Reading(files + [file], orders + [o]);
    assert ReadsData(data, r);
    var maps := FileMaps(data, r.files, r.orders);
    assert maps[|maps| - 1] == DocumentIn(data[file], o);
  }

  lemma ParsedIn(doc: Document, o: Order)
    requires doc.Parsed? && Walks(doc.root, o)
    ensures Reads(doc, o) && DocumentIn(doc, o) == FlattenIn(doc.root, "", o, map[])
  {
  }

  lemma {:induction false} AnyReadings(outcomes: seq<SourceOutcome>) returns (rs: seq<Reading>)
    ensures ReadsSources(outcomes, rs)
  {
    if outcomes == [] {
      rs := [];
    } else {
      var n := |outcomes| - 1;
      var earlier := AnyReadings(outcomes[..n]);
      var last := Reading([], []);
      if outcomes[n].Yields? {
        last := AnyReading(outcomes[n].data);
      }
      rs := earlier + [last];
    }
  }

  lemma LastTextMayWin(outcomes: seq<SourceOutcome>, i: nat, key: string, text: string) returns (rs: seq<Reading>)
    requires DefinesLast(outcomes, i, key) && DataEmits(outcomes[i].data, key, text)
    ensures ReadsSources(outcomes, rs) && key in ValuesIn(outcomes, rs) && ValuesIn(outcomes, rs)[key] == text
  {
    hide Defines, DataEmits, ReadsData, ObjectIn, Merged;
    DefinersYield(outcomes[i], key);
    var any := AnyReadings(outcomes);
    var r := TextMayWin(outcomes[i].data, key, text);
    rs := any[i := r];
    var maps := SourceMaps(outcomes, rs);
    forall j | 0 <= j < |outcomes|
      ensures key in maps[j] <==> Defines(outcomes[j], key)
    {
      DefinedInMap(outcomes, rs, j, key);
    }
    LastDefinitionWins(maps, key);
  }

  /** All readings give the same values if and only if the last source that defines a key gives it one text. */
  lemma ReadingDoesNotMatterExactly(outcomes: seq<SourceOutcome>)
    ensures (forall rs, rs' :: ReadsSources(outcomes, rs) && ReadsSources(outcomes, rs')
                               ==> ValuesIn(outcomes, rs) == ValuesIn(outcomes, rs'))
            <==> LastSourceDecides(outcomes)
  {
    hide DefinesLast, DataEmits, ReadsSources, ValuesIn, Resolved;
    if LastSourceDecides(outcomes) {
      forall rs, rs' | ReadsSources(outcomes, rs) && ReadsSources(outcomes, rs')
        ensures ValuesIn(outcomes, rs) == ValuesIn(outcomes, rs')
      {
        EveryReadingResolves(outcomes, rs);
        EveryReadingResolves(outcomes, rs');
        ResolutionIsUnique(outcomes, ValuesIn(outcomes, rs), ValuesIn(outcomes, rs'));
      }
    } else {
      LastDefinerYields(outcomes);
      var i: nat, key, text, other :| DefinesLast(outcomes, i, key)
                                 && DataEmits(outcomes[i].data, key, text) && DataEmits(outcomes[i].data, key, other)
                                 && text != other;
      var rs := LastTextMayWin(outcomes, i, key, text);
      var rs' := LastTextMayWin(outcomes, i, key, other);
      assert ValuesIn(outcomes, rs) != ValuesIn(outcomes, rs');
    }
  }

  lemma LastDefinerYields(outcomes: seq<SourceOutcome>)
    ensures forall i: nat, key :: DefinesLast(outcomes, i, key) ==> i < |outcomes| && outcomes[i].Yields?
  {
  }

  /** Well-keyed documents that share no key within an object: no order of iteration matters. */
  lemma DisjointDocumentsReadAlike(outcomes: seq<SourceOutcome>, rs: seq<Reading>, rs': seq<Reading>)
    requires forall i :: 0 <= i < |outcomes| && outcomes[i].Yields? ==> WellKeyedAndDisjoint(outcomes[i].data)
    requires ReadsSources(outcomes, rs) && ReadsSources(outcomes, rs')
    ensures ValuesIn(outcomes, rs) == ValuesIn(outcomes, rs')
  {
    hide WellKeyedAndDisjoint, Determinate, LastSourceDecides, ReadsSources, ValuesIn;
    forall i | 0 <= i < |outcomes| && outcomes[i].Yields?
      ensures Determinate(outcomes[i].data)
    {
      DisjointDocumentsAreDeterminate(outcomes[i].data);
    }
    DeterminateSourcesDecide(outcomes);
    ReadingDoesNotMatterExactly(outcomes);
  }

  /** One key in two documents of an object: two readings, two results. */
  lemma TwoDocumentsCollide(one: string, other: string) returns (r: Reading, r': Reading)
    requires one != other
    ensures var data := map["a.yaml" := Parsed(Object(map["k" := Leaf(Text(one))])),
                            "b.yaml" := Parsed(Object(map["k" := Leaf(Text(other))]))];
            && ReadsData(data, r) && ReadsData(data, r')
            && "k" in ObjectIn(data, r) && ObjectIn(data, r)["k"] == one
            && "k" in ObjectIn(data, r') && ObjectIn(data, r')["k"] == other
  {
    var data := map["a.yaml" := Parsed(Object(map["k" := Leaf(Text(one))])),
                    "b.yaml" := Parsed(Object(map["k" := Leaf(Text(other))]))];
    assert "a.yaml" != "b.yaml" by { assert "a.yaml"[0] != "b.yaml"[0]; }
    SingleKeyEmits(one);
    SingleKeyEmits(other);
    assert DocumentEmits(data["a.yaml"], "k", one) && DocumentEmits(data["b.yaml"], "k", other);
    r := TextMayWin(data, "k", one);
    r' := TextMayWin(data, "k", other);
  }

  lemma SingleKeyEmits(text: string)
    ensures DocumentEmits(Parsed(Object(map["k" := Leaf(Text(text))])), "k", text)
  {
    var p := [Key("k")];
    assert p[1..] == [];
    assert At(Object(map["k" := Leaf(Text(text))]), p) == Some(Text(text));
    assert Render("", p) == Render("k", []) == "k";
  }

  lemma {:induction false} LastDefining(outcomes: seq<SourceOutcome>, key: string) returns (i: nat)
    requires exists i :: 0 <= i < |outcomes| && Defines(outcomes[i], key)
    ensures i < |outcomes| && Defines(outcomes[i], key) && forall j :: i < j < |outcomes| ==> !Defines(outcomes[j], key)
  {
    hide Defines;
    var n := |outcomes| - 1;
    if Defines(outcomes[n], key) {
      i := n;
    } else {
      var k :| 0 <= k < |outcomes| && Defines(outcomes[k], key);
      assert outcomes[..n][k] == outcomes[k];
      i := LastDefining(outcomes[..n], key);
      assert forall j :: 0 <= j < n ==> outcomes[..n][j] == outcomes[j];
    }
  }
}
