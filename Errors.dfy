/**
 * The exception records of yorha/exception.py.
 *
 * A `YoRHaError` is its `details` dictionary. `New` is `YoRHaError.__init__`: it
 * checks that the argument is a dictionary whose keys are all strings and that
 * holds a 'message', then fills in 'type' with the concrete class name when it is
 * missing. `RunError` builds its four fields and goes through the same check.
 */
module Errors {
  import opened Wrappers
  import Strings

  /** A dictionary key: a Python string, or a key of any other type (shown by its repr). */
  datatype Key = StrKey(name: string) | OtherKey(repr: string)

  /**
   * A dictionary value, as far as the model needs to tell values apart. `Float` and
   * `Container` (bytes, list, tuple, dict, set) carry the text `'%s'` shows for them;
   * `Other` is any other object, which Python treats as true.
   */
  datatype Value =
    | Text(s: string)
    | Int(i: int)
    | Bool(b: bool)
    | Float(x: real, repr: string)
    | Container(size: nat, repr: string)
    | NoneValue
    | Other(repr: string)

  const MessageKey := StrKey("message")
  const TypeKey := StrKey("type")
  const TraceKey := StrKey("trace")
  const CmdKey := StrKey("cmd")
  const PtyoutKey := StrKey("ptyout")
  const OutKey := StrKey("out")

  /** What `YoRHaError.__init__` is called with. */
  datatype DetailsArg = Dict(entries: map<Key, Value>) | NotDict(repr: string)

  /** The three ways `YoRHaError.__init__` refuses its argument (each a plain `Exception`). */
  datatype DetailsError = NotADictionary | KeyNotString | MissingMessage

  function DetailsErrorMessage(e: DetailsError): string {
    match e
    case NotADictionary => "YoRHa Error : Details must be a dictionary. "
    case KeyNotString => "YoRHa Error : Detail keys must be strings. "
    case MissingMessage => "YoRHa Error : Detail must have \"message\" field. "
  }

  datatype ErrorObject = ErrorObject(details: map<Key, Value>)

  /** A constructed error: its details always hold 'message' and 'type'. */
  type YoRHaError = e: ErrorObject | MessageKey in e.details && TypeKey in e.details
    witness ErrorObject(map[MessageKey := NoneValue, TypeKey := NoneValue])

  predicate AllStringKeys(entries: map<Key, Value>) {
    forall k | k in entries :: k.StrKey?
  }

  /**
   * The outcome of `YoRHaError.__init__(details)` on an object of class `className`:
   * the checks run in source order, so a non-dictionary is reported before a bad key,
   * and a bad key before a missing message.
   */
  function Validate(arg: DetailsArg, className: string): (r: Result<YoRHaError, DetailsError>)
    ensures r == Failure(NotADictionary) <==> arg.NotDict?
    ensures r == Failure(KeyNotString) <==> arg.Dict? && !AllStringKeys(arg.entries)
    ensures r == Failure(MissingMessage) <==>
              arg.Dict? && AllStringKeys(arg.entries) && MessageKey !in arg.entries
    ensures r.Success? ==> arg.Dict? && r.value.details.Keys == arg.entries.Keys + {TypeKey}
    ensures r.Success? ==>
              r.value.details[TypeKey] == (if TypeKey in arg.entries then arg.entries[TypeKey] else Text(className))
    ensures r.Success? ==> forall k | k in arg.entries && k != TypeKey :: r.value.details[k] == arg.entries[k]
  {
    if arg.NotDict? then Failure(NotADictionary)
    else if !AllStringKeys(arg.entries) then Failure(KeyNotString)
    else if MessageKey !in arg.entries then Failure(MissingMessage)
    else if TypeKey in arg.entries then Success(ErrorObject(arg.entries))
    else Success(ErrorObject(arg.entries[TypeKey := Text(className)]))
  }

  /**
   * `YoRHaError.__init__`: the loop over the keys, then the 'message' check, then the
   * insertion of 'type'.
   */
  method New(arg: DetailsArg, className: string) returns (r: Result<YoRHaError, DetailsError>)
    ensures r == Validate(arg, className)
  {
    if arg.NotDict? {
      return Failure(NotADictionary);
    }
    var details := arg.entries;
    var unchecked := details.Keys;
    while unchecked != {}
      invariant unchecked <= details.Keys
      invariant forall k | k in details && k !in unchecked :: k.StrKey?
      decreases unchecked
    {
      var key :| key in unchecked;
      if !key.StrKey? {
        return Failure(KeyNotString);
      }
      unchecked := unchecked - {key};
    }
    if MessageKey !in details {
      return Failure(MissingMessage);
    }
    if TypeKey !in details {
      details := details[TypeKey := Text(className)];
    }
    return Success(ErrorObject(details));
  }

  /** The `message` property. */
  function Message(e: YoRHaError): Value {
    e.details[MessageKey]
  }

  /** `json()`: the stored details themselves. */
  function Json(e: YoRHaError): map<Key, Value> {
    e.details
  }

  /** `has_trace()`: the 'trace' entry when there is one, and None otherwise. */
  function HasTrace(e: YoRHaError): (r: Value)
    ensures TraceKey in e.details ==> r == e.details[TraceKey]
    ensures TraceKey !in e.details ==> r == NoneValue
  {
    if TraceKey in e.details then e.details[TraceKey] else NoneValue
  }

  /**
   * `format_trace()`: `formatList` stands for `traceback.format_list` applied to the
   * trace entries and joined. The test is `has_trace() is not None`, so a 'trace'
   * entry holding None formats like a missing one, as ''.
   */
  function FormatTrace(e: YoRHaError, formatList: Value -> string): (r: string)
    ensures HasTrace(e) == NoneValue ==> r == ""
    ensures HasTrace(e) != NoneValue ==> TraceKey in e.details && r == formatList(e.details[TraceKey])
  {
    if HasTrace(e) != NoneValue then formatList(e.details[TraceKey]) else ""
  }

  /** What `__init__` and `message` / `json` / `has_trace` give together: the details as passed, plus 'type'. */
  lemma ConstructedAccessors(entries: map<Key, Value>, className: string)
    requires AllStringKeys(entries) && MessageKey in entries
    ensures Validate(Dict(entries), className).Success?
    ensures var e := Validate(Dict(entries), className).value;
      && Message(e) == entries[MessageKey]
      && Json(e).Keys == entries.Keys + {TypeKey}
      && (TypeKey !in entries ==> Json(e)[TypeKey] == Text(className))
      && HasTrace(e) == (if TraceKey in entries then entries[TraceKey] else NoneValue)
  {
  }

  /** The trace of a constructed error is formatted exactly when 'trace' is present and not None. */
  lemma ConstructedTrace(entries: map<Key, Value>, className: string, formatList: Value -> string)
    requires AllStringKeys(entries) && MessageKey in entries
    ensures Validate(Dict(entries), className).Success?
    ensures var e := Validate(Dict(entries), className).value;
      && (TraceKey in entries && entries[TraceKey] != NoneValue ==>
            FormatTrace(e, formatList) == formatList(entries[TraceKey]))
      && (TraceKey !in entries || entries[TraceKey] == NoneValue ==> FormatTrace(e, formatList) == "")
  {
    ConstructedAccessors(entries, className);
  }

  // ---------------------------------------------------------------------------
  // RunError

  /** Python falsiness: empty text, zero, False, an empty container and None (`x or ''` replaces exactly these). */
  predicate Falsy(v: Value) {
    match v
    case Text(s) => s == ""
    case Int(i) => i == 0
    case Bool(b) => !b
    case Float(x, _) => x == 0.0
    case Container(size, _) => size == 0
    case NoneValue => true
    case Other(_) => false
  }

  /** `x or ''`. */
  function OrEmpty(v: Value): (r: Value)
    ensures !Falsy(r) || r == Text("")
    ensures !Falsy(v) ==> r == v
    ensures Falsy(v) ==> r == Text("")
  {
    if Falsy(v) then Text("") else v
  }

  /** The dictionary `RunError.__init__` hands to `YoRHaError.__init__`. */
  function RunErrorFields(cmd: Value, out: Value, message: Value): map<Key, Value> {
    map[CmdKey := OrEmpty(cmd), PtyoutKey := OrEmpty(out), OutKey := OrEmpty(out),
        MessageKey := OrEmpty(message)]
  }

  /** `RunError(cmd, out, message)`: four fields with falsy inputs replaced by '', plus 'type'. */
  function RunError(cmd: Value, out: Value, message: Value): (e: YoRHaError)
    ensures e.details.Keys == {CmdKey, PtyoutKey, OutKey, MessageKey, TypeKey}
    ensures e.details[TypeKey] == Text("RunError")
    ensures e.details[CmdKey] == OrEmpty(cmd)
    ensures e.details[PtyoutKey] == e.details[OutKey] == OrEmpty(out)
    ensures e.details[MessageKey] == OrEmpty(message)
  {
    var fields := RunErrorFields(cmd, out, message);
    assert AllStringKeys(fields);
    Validate(Dict(fields), "RunError").value
  }

  /** `'%s' % v`. */
  function Format(v: Value): string {
    match v
    case Text(s) => s
    case Int(i) => Strings.IntToString(i)
    case Bool(b) => if b then "True" else "False"
    case Float(_, repr) => repr
    case Container(_, repr) => repr
    case NoneValue => "None"
    case Other(repr) => repr
  }

  /** `RunError.__str__`: command, message and output, separated by ':' and a line break. */
  function RunErrorString(e: YoRHaError): string
    requires CmdKey in e.details && OutKey in e.details
  {
    Format(e.details[CmdKey]) + ":\n" + Format(e.details[MessageKey]) + ":\n" + Format(e.details[OutKey])
  }

  /** For string arguments, `str(RunError(cmd, out, message))` is `cmd:\nmessage:\nout`. */
  lemma RunErrorStringOfText(cmd: string, out: string, message: string)
    ensures RunErrorString(RunError(Text(cmd), Text(out), Text(message)))
            == cmd + ":\n" + message + ":\n" + out
  {
  }
}
