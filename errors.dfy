/**
 * Shaping the engine's violations into error records: the location text, the
 * copied message and validator, the optional expected value, and the
 * human-readable rendering of one record.
 */
module Errors {
  import opened Wrappers
  import opened Json
  import opened Violations

  // ---------------------------------------------------------------------------
  // The Python built-ins the shaping relies on: `sep.join(parts)` and `str(n)`

  /** `sep.join(parts)`. */
  function Join(parts: seq<string>, sep: string): string
  {
    if |parts| == 0 then ""
    else if |parts| == 1 then parts[0]
    else parts[0] + sep + Join(parts[1..], sep)
  }

  lemma {:induction false} JoinAppend(parts: seq<string>, x: string, sep: string)
    requires |parts| > 0
    ensures Join(parts + [x], sep) == Join(parts, sep) + sep + x
  {
    if |parts| > 1 {
      assert (parts + [x])[1..] == parts[1..] + [x];
      JoinAppend(parts[1..], x, sep);
    }
  }

  lemma JoinTwo(a: string, b: string, sep: string)
    ensures Join([a, b], sep) == a + sep + b
  {
    assert [a, b][1..] == [b];
  }

  /** A join with a non-empty separator is empty only for no parts or one empty part. */
  lemma JoinIsEmpty(parts: seq<string>, sep: string)
    requires sep != ""
    ensures Join(parts, sep) == "" <==> parts == [] || parts == [""]
  {
  }

  function Digit(d: nat): char
    requires d < 10
  {
    "0123456789"[d]
  }

  /** `str(n)` for a natural number: its decimal digits, without leading zeros. */
  function DecimalString(n: nat): (r: string)
    ensures r != []
    ensures forall k :: 0 <= k < |r| ==> '0' <= r[k] <= '9'
    ensures r[0] == '0' ==> n == 0 && r == "0"
  {
    if n < 10 then [Digit(n)] else DecimalString(n / 10) + [Digit(n % 10)]
  }

  /** The number a string of decimal digits denotes (`int(s)`). */
  function DecimalValue(s: string): nat
  {
    if s == [] then 0
    else 10 * DecimalValue(s[..|s| - 1]) + (if '0' <= s[|s| - 1] <= '9' then (s[|s| - 1] - '0') as nat else 0)
  }

  /** `int(str(n)) == n`. */
  lemma {:induction false} DecimalRoundTrip(n: nat)
    ensures DecimalValue(DecimalString(n)) == n
  {
    var r := DecimalString(n);
    if n >= 10 {
      DecimalRoundTrip(n / 10);
      assert r[..|r| - 1] == DecimalString(n / 10);
    }
  }

  // ---------------------------------------------------------------------------
  // Locations

  /** `str(p)` for one path segment. */
  function SegmentText(s: Segment): string
  {
    match s
    case Key(name) => name
    case Index(i) => DecimalString(i)
  }

  /** `[str(p) for p in path]`. */
  function SegmentTexts(path: seq<Segment>): (r: seq<string>)
    ensures |r| == |path|
  {
    seq(|path|, k requires 0 <= k < |path| => SegmentText(path[k]))
  }

  /**
   * The location text of a violation: the segments joined with " -> ", or
   * "root" when that join is empty; so never empty.
   */
  function Location(path: seq<Segment>): (r: string)
    ensures r != ""
  {
    var joined := Join(SegmentTexts(path), " -> ");
    if joined == "" then "root" else joined
  }

  /**
   * The location reads "root" exactly at the document root, under a single key
   * "" and under a single key "root"; it is the plain join everywhere else.
   */
  lemma LocationIsRoot(path: seq<Segment>)
    ensures Location(path) == "root" <==> path == [] || path == [Key("")] || path == [Key("root")]
    ensures Location(path) != "root" ==> Location(path) == Join(SegmentTexts(path), " -> ")
  {
    var parts := SegmentTexts(path);
    JoinIsEmpty(parts, " -> ");
    if |path| >= 2 {
      assert |Join(parts, " -> ")| >= 4;
      assert Join(parts, " -> ")[|parts[0]|..|parts[0]| + 4] == " -> ";
    }
  }

  // ---------------------------------------------------------------------------
  // Records

  /** One validation error as reported to the user. */
  datatype SchemaError = SchemaError(
    location: string,
    message: string,
    validator: Option<string>,
    expected: Option<string>)
  {
    /**
     * The record built from one violation. `show` stands for Python's `str`
     * applied to the schema keyword's value.
     */
    static function FromViolation(v: Violation, show: JsonValue -> string): (e: SchemaError)
      ensures e.location == Location(v.path)
      ensures e.message == v.message && e.validator == v.validator
      ensures e.expected.None? <==> !Truthy(v.validatorValue)
      ensures e.expected.Some? ==> e.expected.value == show(v.validatorValue)
    {
      SchemaError(
        Location(v.path),
        v.message,
        v.validator,
        if Truthy(v.validatorValue) then Some(show(v.validatorValue)) else None)
    }

    /** One record per violation, record i from violation i. */
    static method FromJsonschemaErrors(errors: seq<Violation>, show: JsonValue -> string)
      returns (errorList: seq<SchemaError>)
      ensures |errorList| == |errors|
      ensures forall i :: 0 <= i < |errors| ==> errorList[i] == FromViolation(errors[i], show)
    {
      errorList := [];
      for i := 0 to |errors|
        invariant |errorList| == i
        invariant forall k :: 0 <= k < i ==> errorList[k] == FromViolation(errors[k], show)
      {
        var error := errors[i];
        var location := Join(SegmentTexts(error.path), " -> ");
        var expected := if Truthy(error.validatorValue) then Some(show(error.validatorValue)) else None;
        var record := SchemaError(
          if location != "" then location else "root",
          error.message,
          error.validator,
          expected);
        errorList := errorList + [record];
      }
    }

    /**
     * The record as text: the Location line, the Message line, a Validator
     * line only for a non-empty validator, an Expected line last and only for
     * a non-empty expected value; newline-separated, no newline at the end.
     */
    method Printable() returns (text: string)
      ensures text == LocationLine() + "\n" + MessageLine() + ValidatorLine() + ExpectedLine()
    {
      var parts := [LocationLine(), MessageLine()];
      if validator.Some? && validator.value != "" {
        parts := parts + ["Validator: " + validator.value];
      }
      if expected.Some? && expected.value != "" {
        parts := parts + ["Expected: " + expected.value];
      }
      text := Join(parts, "\n");
      JoinLines(parts, ValidatorLine(), ExpectedLine());
    }

    /** Joining the record's lines gives the layout: each optional line brings its own newline. */
    lemma JoinLines(parts: seq<string>, validatorLine: string, expectedLine: string)
      requires validatorLine == ValidatorLine() && expectedLine == ExpectedLine()
      requires parts ==
        [LocationLine(), MessageLine()]
        + (if validator.Some? && validator.value != "" then ["Validator: " + validator.value] else [])
        + (if expected.Some? && expected.value != "" then ["Expected: " + expected.value] else [])
      ensures Join(parts, "\n") == LocationLine() + "\n" + MessageLine() + validatorLine + expectedLine
    {
      var two := [LocationLine(), MessageLine()];
      JoinTwo(LocationLine(), MessageLine(), "\n");
      var withV := two + (if validator.Some? && validator.value != "" then ["Validator: " + validator.value] else []);
      assert Join(withV, "\n") == LocationLine() + "\n" + MessageLine() + validatorLine by {
        if validator.Some? && validator.value != "" {
          JoinAppend(two, "Validator: " + validator.value, "\n");
        } else {
          assert withV == two;
        }
      }
      if expected.Some? && expected.value != "" {
        JoinAppend(withV, "Expected: " + expected.value, "\n");
      } else {
        assert parts == withV;
      }
    }

    /** The first line, always present. */
    function LocationLine(): string
    {
      "Location: " + location
    }

    /** The second line, always present. */
    function MessageLine(): string
    {
      "Message: " + message
    }

    /** The "\nValidator: ..." line, present only for a non-empty validator. */
    function ValidatorLine(): string
    {
      if validator.Some? && validator.value != "" then "\n" + ("Validator: " + validator.value) else ""
    }

    /** The "\nExpected: ..." line, present only for a non-empty expected value. */
    function ExpectedLine(): string
    {
      if expected.Some? && expected.value != "" then "\n" + ("Expected: " + expected.value) else ""
    }
  }

  /** The whole report: the records in the order of the violations they come from. */
  datatype SchemaErrors = SchemaErrors(errors: seq<SchemaError>)
  {
    static method FromJsonschemaErrors(errors: seq<Violation>, show: JsonValue -> string)
      returns (report: SchemaErrors)
      ensures |report.errors| == |errors|
      ensures forall i :: 0 <= i < |errors| ==> report.errors[i] == SchemaError.FromViolation(errors[i], show)
    {
      var errorList := SchemaError.FromJsonschemaErrors(errors, show);
      report := SchemaErrors(errorList);
    }
  }
}
