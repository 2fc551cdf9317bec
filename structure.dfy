/**
 * Materialising a directory tree into a JSON-like document, and validating
 * that document: the engine's violations are sorted by path and shaped into a
 * report, or there is no report at all.
 */
module Structure {
  import opened Wrappers
  import opened Json
  import opened Violations
  import opened Errors

  // ---------------------------------------------------------------------------
  // The filesystem and the document it becomes

  /**
   * A directory entry as `os.path.isdir` and `os.path.isfile` classify it:
   * a directory with its entries by name, a regular file with its text, or
   * anything else (a broken symbolic link, a socket, a device).
   */
  datatype Entry =
    | Dir(entries: map<string, Entry>)
    | File(contents: string)
    | Other

  /** `name.endswith(".yaml")`. */
  predicate EndsWithYaml(name: string)
  {
    |name| >= 5 && name[|name| - 5..] == ".yaml"
  }

  /** Whether the walk writes a key for the entry at all. */
  predicate Kept(e: Entry)
  {
    e.Dir? || e.File?
  }

  /**
   * The document a directory becomes: a key for every subdirectory and
   * regular file, no key for anything else. `parse` stands for
   * `json.loads(json.dumps(yaml.safe_load(contents)))`.
   */
  function Document(d: map<string, Entry>, parse: string -> JsonValue): map<string, JsonValue>
    decreases Dir(d), 0
  {
    map name | name in d && Kept(d[name]) :: EntryValue(name, d[name], parse)
  }

  /**
   * The value under a kept entry's name: the nested document of a
   * subdirectory, `parsed or {}` for a ".yaml" file, null for any other file.
   */
  function EntryValue(name: string, e: Entry, parse: string -> JsonValue): JsonValue
    requires Kept(e)
    decreases e, 1
  {
    match e
    case Dir(sub) => JObject(Document(sub, parse))
    case File(contents) => if EndsWithYaml(name) then Or(parse(contents), EmptyObject) else JNull
  }

  /** What the document holds under each name of the directory, by kind of entry. */
  lemma DocumentEntry(d: map<string, Entry>, parse: string -> JsonValue, name: string)
    requires name in d
    ensures d[name].Dir? ==> name in Document(d, parse) && Document(d, parse)[name] == JObject(Document(d[name].entries, parse))
    ensures d[name].File? && !EndsWithYaml(name) ==> name in Document(d, parse) && Document(d, parse)[name] == JNull
    ensures d[name].File? && EndsWithYaml(name) ==>
      && name in Document(d, parse)
      && Document(d, parse)[name] == (if Truthy(parse(d[name].contents)) then parse(d[name].contents) else EmptyObject)
      && Document(d, parse)[name] != JNull
    ensures d[name].Other? ==> name !in Document(d, parse)
  {
  }

  /** No renaming and no extra keys: the keys are the names of the subdirectories and regular files. */
  lemma DocumentKeys(d: map<string, Entry>, parse: string -> JsonValue)
    ensures Document(d, parse).Keys == set name | name in d && (d[name].Dir? || d[name].File?)
  {
  }

  /** An empty directory becomes the empty map. */
  lemma EmptyDirectory(parse: string -> JsonValue)
    ensures Document(map[], parse) == map[]
  {
  }

  // ---------------------------------------------------------------------------
  // Paths through the tree and through the document

  /** The entry reached from `d` by following the names in `p`. */
  function Locate(d: map<string, Entry>, p: seq<string>): Option<Entry>
    requires p != []
    decreases |p|
  {
    if p[0] !in d then None
    else if |p| == 1 then Some(d[p[0]])
    else if d[p[0]].Dir? then Locate(d[p[0]].entries, p[1..])
    else None
  }

  /** The value reached from the object `doc` by following the keys in `p`. */
  function Descend(doc: map<string, JsonValue>, p: seq<string>): Option<JsonValue>
    requires p != []
    decreases |p|
  {
    if p[0] !in doc then None
    else if |p| == 1 then Some(doc[p[0]])
    else if doc[p[0]].JObject? then Descend(doc[p[0]].fields, p[1..])
    else None
  }

  /**
   * No proper prefix of `p` names a regular file: a path that goes on through
   * a ".yaml" file continues inside its parsed value, not inside the tree.
   */
  predicate ThroughDirectories(d: map<string, Entry>, p: seq<string>)
    requires p != []
    decreases |p|
  {
    || |p| == 1
    || p[0] !in d
    || (!d[p[0]].File? && (d[p[0]].Dir? ==> ThroughDirectories(d[p[0]].entries, p[1..])))
  }

  /**
   * The document mirrors the tree: along directories, following names in the
   * document reaches a value exactly when following them in the tree reaches a
   * subdirectory or a regular file, and that value is the entry's.
   */
  lemma {:induction false} DocumentMirrorsTree(d: map<string, Entry>, p: seq<string>, parse: string -> JsonValue)
    requires p != [] && ThroughDirectories(d, p)
    ensures Descend(Document(d, parse), p) ==
      if Locate(d, p).Some? && Kept(Locate(d, p).value)
      then Some(EntryValue(p[|p| - 1], Locate(d, p).value, parse))
      else None
    decreases |p|
  {
    var doc := Document(d, parse);
    if |p| > 1 && p[0] in d && d[p[0]].Dir? {
      var sub := d[p[0]].entries;
      DocumentEntry(d, parse, p[0]);
      DocumentMirrorsTree(sub, p[1..], parse);
      assert p[1..][|p[1..]| - 1] == p[|p| - 1];
    }
  }

  // ---------------------------------------------------------------------------
  // The walk

  /** `os.listdir`: every name of the directory exactly once, in an order left open. */
  method ListDir(d: map<string, Entry>) returns (names: seq<string>)
    ensures forall n :: n in names <==> n in d
    ensures forall i, j :: 0 <= i < j < |names| ==> names[i] != names[j]
  {
    names := [];
    var unlisted := d.Keys;
    while unlisted != {}
      invariant unlisted <= d.Keys
      invariant forall n :: n in names <==> n in d && n !in unlisted
      invariant forall i, j :: 0 <= i < j < |names| ==> names[i] != names[j]
      decreases unlisted
    {
      var name :| name in unlisted;
      names := names + [name];
      unlisted := unlisted - {name};
    }
  }

  /**
   * `walk_dir`: whatever order the listing comes in, the dictionary built
   * entry by entry is the directory's document.
   */
  method WalkDir(d: map<string, Entry>, parse: string -> JsonValue) returns (result: map<string, JsonValue>)
    ensures result == Document(d, parse)
    decreases Dir(d)
  {
    result := map[];
    var names := ListDir(d);
    for i := 0 to |names|
      invariant forall n :: n in result <==> n in names[..i] && Kept(d[n])
      invariant forall n :: n in result ==> result[n] == EntryValue(n, d[n], parse)
    {
      var name := names[i];
      assert names[..i + 1] == names[..i] + [name];
      var entry := d[name];
      if entry.Dir? {
        var sub := WalkDir(entry.entries, parse);
        result := result[name := JObject(sub)];
      } else if entry.File? {
        result := result[name := JNull];
        if EndsWithYaml(name) {
          result := result[name := Or(parse(entry.contents), EmptyObject)];
        }
      }
    }
    assert names[..|names|] == names;
  }

  /** `build_structure_strict`: the document of the root directory. */
  method BuildStructureStrict(root: map<string, Entry>, parse: string -> JsonValue)
    returns (structure: map<string, JsonValue>)
    ensures structure == Document(root, parse)
  {
    structure := WalkDir(root, parse);
  }

  // ---------------------------------------------------------------------------
  // Validation

  /** A folder, its materialised document and the schema the document is checked against. */
  class Structure {
    const folder: map<string, Entry>
    const schema: JsonValue
    const folderStructure: map<string, JsonValue>

    constructor (folder: map<string, Entry>, schema: JsonValue, parse: string -> JsonValue)
      ensures this.folder == folder && this.schema == schema
      ensures folderStructure == Document(folder, parse)
    {
      this.folder := folder;
      var built := BuildStructureStrict(folder, parse);
      this.folderStructure := built;
      this.schema := schema;
    }

    /**
     * `validate`: no report exactly when the engine finds no violation;
     * otherwise one record per violation, the violations taken in the order of
     * the stable sort by path. `iterErrors(schema, document)` stands for the
     * draft-07 engine's `iter_errors`, `show` for Python's `str`.
     */
    method Validate(iterErrors: (JsonValue, JsonValue) -> seq<Violation>, show: JsonValue -> string)
      returns (report: Option<SchemaErrors>)
      ensures var found := iterErrors(schema, JObject(folderStructure));
        && (report.None? <==> found == [])
        && (report.Some? ==>
              && |report.value.errors| == |found|
              && forall i :: 0 <= i < |found| ==>
                   report.value.errors[i] == SchemaError.FromViolation(SortByPath(found)[i], show))
    {
      var errors := SortByPath(iterErrors(schema, JObject(folderStructure)));
      if errors != [] {
        var errorReport := SchemaErrors.FromJsonschemaErrors(errors, show);
        return Some(errorReport);
      }
      return None;
    }
  }
}
