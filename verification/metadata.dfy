/** The logging utilities: `sanitize_metadata_for_chroma`, which turns a
    metadata dictionary into one whose values the vector store accepts,
    and `log_with_truncation`, which caps the length of a logged message
    and routes it to a level. Python values are a small datatype;
    `json.dumps` and `str` are opaque functions. */
module Metadata {
  import opened Wrappers
  import opened Strs

  /** The Python values metadata can hold. */
  datatype PyValue =
    | PyNone
    | PyStr(s: string)
    | PyInt(i: int)
    | PyFloat(f: real)
    | PyBool(b: bool)
    | PyList(items: seq<PyValue>)
    | PyTuple(items: seq<PyValue>)
    | PySet(items: seq<PyValue>)
    | PyDict(entries: map<string, PyValue>)
    | PyObject(tag: string)   // any other object

  predicate IsScalar(v: PyValue) {
    v.PyStr? || v.PyInt? || v.PyFloat? || v.PyBool?
  }

  predicate IsContainer(v: PyValue) {
    v.PyList? || v.PyTuple? || v.PySet? || v.PyDict?
  }

  /** `json.dumps`: `None` when it raises `TypeError` or `OverflowError`. */
  type Dumps = PyValue -> Option<string>
  /** `str(value)`. */
  type Str = PyValue -> string

  /** One value, as the loop body of the utility version converts it. */
  function SanitizeValue(v: PyValue, dumps: Dumps, str: Str): (r: PyValue)
    ensures IsScalar(r)
    ensures IsScalar(v) ==> r == v
    ensures v.PyNone? ==> r == PyStr("")
    ensures IsContainer(v) ==> r == PyStr(dumps(v).GetOr(str(v)))
    ensures v.PyObject? ==> r == PyStr(str(v))
  {
    if IsScalar(v) then v
    else if IsContainer(v) then
      match dumps(v)
      case Some(j) => PyStr(j)
      case None => PyStr(str(v))
    else if v.PyNone? then PyStr("")
    else PyStr(str(v))
  }

  /** `sanitize_metadata_for_chroma` in the logging utilities: `{}` for
      `None` or an empty dictionary, otherwise the same keys with every
      value made a scalar. */
  function Sanitize(metadata: Option<map<string, PyValue>>, dumps: Dumps, str: Str): (r: map<string, PyValue>)
    ensures metadata.None? ==> r == map[]
    ensures metadata.Some? ==> r.Keys == metadata.value.Keys
    ensures forall k :: k in r ==> IsScalar(r[k]) && r[k] != PyNone
    ensures metadata.Some? ==> forall k :: k in r ==> r[k] == SanitizeValue(metadata.value[k], dumps, str)
  {
    match metadata
    case None => map[]
    case Some(m) => map k | k in m :: SanitizeValue(m[k], dumps, str)
  }

  /** A value that `json.dumps` cannot encode (a set, for one) falls back
      to its `str` form; an encodable container becomes its JSON text. */
  lemma ContainerFallback(m: map<string, PyValue>, k: string, dumps: Dumps, str: Str)
    requires k in m && IsContainer(m[k])
    ensures dumps(m[k]).None? ==> Sanitize(Some(m), dumps, str)[k] == PyStr(str(m[k]))
    ensures dumps(m[k]).Some? ==> Sanitize(Some(m), dumps, str)[k] == PyStr(dumps(m[k]).value)
  {
  }

  /** Sanitizing twice changes nothing more: every output value is already
      a scalar, which passes through unchanged. */
  lemma SanitizeIdempotent(m: Option<map<string, PyValue>>, dumps: Dumps, str: Str)
    ensures var once := Sanitize(m, dumps, str);
      Sanitize(Some(once), dumps, str) == once
  {
    var once := Sanitize(m, dumps, str);
    var twice := Sanitize(Some(once), dumps, str);
    assert twice.Keys == once.Keys;
    forall k | k in once
      ensures twice[k] == once[k]
    {
      assert IsScalar(once[k]);
    }
  }

  // ---------------------------------------------------------------------
  // log_with_truncation

  const TruncationMarker := "... [truncated]"

  datatype Level = Debug | Info | Warning | Error | Critical

  /** The level a level name routes to; anything unrecognised is `Info`. */
  function LevelFor(name: string): (l: Level)
    ensures name == "debug" <==> l == Debug
    ensures name == "warning" <==> l == Warning
    ensures name == "error" <==> l == Error
    ensures name == "critical" <==> l == Critical
    ensures l == Info <==> name !in {"debug", "warning", "error", "critical"}
  {
    if name == "debug" then Debug
    else if name == "info" then Info
    else if name == "warning" then Warning
    else if name == "error" then Error
    else if name == "critical" then Critical
    else Info
  }

  /** Python `s[:n]` for any integer `n`: a negative `n` counts from the
      end. */
  function SliceTo(s: string, n: int): (r: string)
    ensures 0 <= n ==> r == s[..if n < |s| then n else |s|]
    ensures n < 0 ==> r == s[..if -n < |s| then |s| + n else 0]
  {
    if n >= |s| then s
    else if n >= 0 then s[..n]
    else if -n < |s| then s[..|s| + n]
    else ""
  }

  /** The message `log_with_truncation` emits. */
  function Truncate(message: string, maxLength: int): (r: string)
    ensures |message| <= maxLength ==> r == message
    ensures |message| > maxLength ==> EndsWith(r, TruncationMarker)
    ensures 0 <= maxLength ==> |r| <= maxLength + |TruncationMarker|
    ensures 0 <= maxLength < |message| ==> r == message[..maxLength] + TruncationMarker
  {
    if |message| > maxLength then
      var r := SliceTo(message, maxLength) + TruncationMarker;
      assert r[|r| - |TruncationMarker|..] == TruncationMarker;
      r
    else message
  }

  /** `log_with_truncation`: the level and the text logged. A message
      that fits is logged whole; a longer one is cut with Python's slice
      (a negative limit counts from the end) and marked; the four named
      levels route to themselves and every other name, `info` included,
      to `Info`. */
  function LogWithTruncation(level: string, message: string, maxLength: int): (out: (Level, string))
    ensures |message| <= maxLength ==> out.1 == message
    ensures 0 <= maxLength < |message| ==> out.1 == message[..maxLength] + TruncationMarker
    ensures maxLength < 0 && -maxLength < |message| ==> out.1 == message[..|message| + maxLength] + TruncationMarker
    ensures maxLength < 0 && |message| <= -maxLength ==> out.1 == TruncationMarker
    ensures level == "debug" <==> out.0 == Debug
    ensures level == "warning" <==> out.0 == Warning
    ensures level == "error" <==> out.0 == Error
    ensures level == "critical" <==> out.0 == Critical
    ensures out.0 == Info <==> level !in {"debug", "warning", "error", "critical"}
  {
    (LevelFor(level), Truncate(message, maxLength))
  }

  /** What survives truncation: the first `maxLength` characters of the
      message are always recoverable from the logged text, and nothing is
      ever cut from a message that fits. */
  lemma TruncateKeepsPrefix(message: string, maxLength: nat)
    ensures var r := Truncate(message, maxLength);
      var n := if maxLength < |message| then maxLength else |message|;
      n <= |r| && r[..n] == message[..n]
  {
  }
}
