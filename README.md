# Directory-tree schema validation, modelled in Dafny

The tool walks a directory tree and turns it into a JSON-like document:

- a directory becomes a nested object keyed by entry name;
- a regular file becomes `null`;
- a file whose name ends in `.yaml` becomes its parsed content, or `{}` when that content is falsy.

It then hands the document to a draft-07 JSON Schema engine. If the engine reports violations, they are sorted by path and shaped into error records. Each record has a location (the path segments joined with `" -> "`, or `root`), the engine's message, the failing validator and, when the validator's value is truthy, that value as text. A record can also be rendered as text.

The model has five modules:

- `Wrappers` holds `Option`, which stands for Python's `None`-or-value.
- `Json` holds JSON values, Python truthiness and `or`.
- `Violations` holds the engine's violations, how Python compares their paths, and a stable sort by path.
- `Errors` holds the error records, `str.join`, `str` of an index, the location text and the printable form.
- `Structure` holds the filesystem tree, the document it becomes, the imperative walk, and the `Structure` class with `Validate`.

The walk is a pair of methods. `ListDir` stands for `os.listdir`. It promises only that it lists every name once, with the order left open. `WalkDir` fills a map entry by entry, as the source does, and is proved to return the declarative `Document` whatever order the listing comes in. Record building and printing are methods too, each with a loop or conditional appends, as in the source.

Three calls into code outside the model become parameters:

- `parse`: `yaml.safe_load` followed by the `json.loads(json.dumps(...))` round trip.
- `iterErrors(schema, document)`: the draft-07 engine's `iter_errors`.
- `show`: Python's `str` applied to a schema keyword's value.

The code is followed wherever its docstring (script/models/structure.py:10-14) disagrees with it:

- Every regular file is accepted. A non-`.yaml` file, `.yml` included, becomes `null`. `InvalidFileError` is never raised.
- An entry that is neither a directory nor a regular file, such as a broken symbolic link, is silently dropped. It is not reported as an error.

## Model

| member | source | states |
|---|---|---|
| `Json.FalsyValues` | script/models/structure.py:27 | The values `or` treats as false are exactly null, false, 0, "", [] and {}. |
| `Json.OrEmptyObject` | script/models/structure.py:27 | `v or {}` is `v` when `v` is truthy and `{}` otherwise, so it is never null. |
| `Structure.DocumentEntry` | script/models/structure.py:20-27 | Under each name the document holds the subdirectory's own document, null for a non-`.yaml` file, the parsed value or `{}` for a `.yaml` file (never null), and no key for any other entry. |
| `Structure.DocumentKeys` | script/models/structure.py:17-24 | The document's keys are exactly the names of the subdirectories and regular files, with no renaming. |
| `Structure.EmptyDirectory` | script/models/structure.py:16-29 | An empty directory becomes the empty map. |
| `Structure.DocumentMirrorsTree` | script/models/structure.py:15-29 | Along directories, following names in the document reaches a value exactly when following them in the tree reaches a subdirectory or regular file, and the value is that entry's. |
| `Structure.ListDir` | script/models/structure.py:17 | The listing holds every name of the directory exactly once, in an order left open. |
| `Structure.WalkDir` | script/models/structure.py:15-29 | The map built entry by entry equals the directory's document for every listing order, so its keys and values do not depend on the listing order. |
| `Structure.BuildStructureStrict` | script/models/structure.py:9-31 | The result is the root directory's document. |
| `Structure.Structure.constructor` | script/models/structure.py:36-39 | The stored folder structure is the folder's document, and the folder and schema are kept unchanged. |
| `Structure.Structure.Validate` | script/models/structure.py:41-46 | There is no report exactly when the engine yields no violation. Otherwise the report has one record per violation, record i built from the i-th violation in stable path order. |
| `Violations.PathLeFacts` | script/models/structure.py:43 | Comparing paths as Python does is total, antisymmetric and transitive, so sorting by path is well defined. |
| `Violations.InsertSorted` | script/models/structure.py:43 | Inserting a violation into a sorted sequence keeps it sorted. |
| `Violations.InsertWithPath` | script/models/structure.py:43 | An inserted violation goes ahead of every violation with an equal path. |
| `Violations.SortByPath` | script/models/structure.py:43 | The result has non-decreasing paths and is a permutation of the input. For each path, the violations with that path keep the engine's order. |
| `Violations.StableSortIsUnique` | script/models/structure.py:43 | Two sorted sequences that hold the same violations in the same order for every path are equal. |
| `Violations.SortByPathIsTheStableSort` | script/models/structure.py:43 | Any stable sort by path, such as Python's `sorted`, gives exactly `SortByPath`'s result. |
| `Errors.JoinAppend` | script/models/errors.py:30 | Joining one more part appends the separator and that part. |
| `Errors.JoinIsEmpty` | script/models/errors.py:14-16 | A join with a non-empty separator is empty only for no parts or a single empty part. |
| `Errors.DecimalString` | script/models/errors.py:14 | `str` of an index is a non-empty string of decimal digits with no leading zero. |
| `Errors.DecimalRoundTrip` | script/models/errors.py:14 | Reading back `str` of an index gives the index. |
| `Errors.Location` | script/models/errors.py:14-16 | The location is never empty. |
| `Errors.LocationIsRoot` | script/models/errors.py:14-16 | The location is `root` exactly for the empty path, a single key "" and a single key "root"; otherwise it is the segments joined with `" -> "`. |
| `Errors.SchemaError.FromViolation` | script/models/errors.py:14-20 | Location as above; message and validator copied unchanged, the validator absent when the engine gives none. `expected` is absent exactly when the validator value is falsy, and otherwise is that value's text. |
| `Errors.SchemaError.FromJsonschemaErrors` | script/models/errors.py:11-22 | The list has as many records as there are violations, and record i is built from violation i. |
| `Errors.SchemaError.Printable` | script/models/errors.py:24-30 | The text is the Location line, then the Message line, then a Validator line only for a non-empty validator, then an Expected line last and only for a non-empty expected value. Lines are joined by newlines, with none at the end. |
| `Errors.SchemaError.JoinLines` | script/models/errors.py:25-30 | Joining the Location, Message and optional Validator and Expected lines with newlines gives exactly that layout. |
| `Errors.SchemaErrors.FromJsonschemaErrors` | script/models/errors.py:36-38 | The report wraps exactly the records `SchemaError.FromJsonschemaErrors` builds, one per violation and in order. |

## Left out

- Filesystem access is replaced by the `Entry` tree. This covers `os.listdir`, `os.path.isdir`, `os.path.isfile` and `open`.
  - I/O failures are not modelled.
  - A symbolic link counts as whatever `isdir` or `isfile` reports for its target.
- YAML parsing and the JSON round trip are the parameter `parse`. Their exceptions, including malformed YAML, are not modelled.
- The draft-07 engine (`Draft7Validator`, `iter_errors`) is the parameter `iterErrors`. Violations are given values, and keyword semantics are not modelled.
- `sorted` keys on `e.path` while the location uses `e.absolute_path`. For the engine's top-level errors these are the same sequence, so each violation carries one path.
- `Violations.SegmentLess`: Python raises `TypeError` when comparing an index with a key. The model orders every index before every key instead. Two paths into one document never differ first at such a pair.
- `Errors.SchemaError.FromViolation`: the expected text is `show(value)`, and Python's `str` formatting of lists and dicts is not modelled.
- `Structure.WalkDir`: the dict's insertion order, which follows the listing order, is not modelled. The document is an unordered map, and `iterErrors` sees only that map. In the source, the engine can yield equal-path violations in dict order, and messages that print the instance show keys in that order. So the source's record order and message text can change with the listing order, while the model's report is fixed by the tree alone.
- JSON numbers are integers. Floats are not modelled.
- Pydantic field validation and `model_dump_json` are not modelled. Neither are the command-line entry point, the settings loading or the package re-exports.
- `InvalidFileError` is declared but never raised, so there is no rejection path to model.
