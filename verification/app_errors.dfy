/** Error kinds, errors, their displayed text, and the result type every operation returns. */
module AppErrors {

  datatype AppErrorKind = NotFound | InternalError | ConnectionError | ResponseUnmarshalError | BadClientRequest

  /** The name of each variant, as the derived `Debug` formatting writes it. */
  function VariantName(kind: AppErrorKind): string
  {
    match kind
    case NotFound => "NotFound"
    case InternalError => "InternalError"
    case ConnectionError => "ConnectionError"
    case ResponseUnmarshalError => "ResponseUnmarshalError"
    case BadClientRequest => "BadClientRequest"
  }

  /**
   * The short text of a kind, used at the head of every displayed error: `NotFound` is renamed
   * "TaskNotFound", and every other kind keeps its own variant name.
   */
  function AsStr(kind: AppErrorKind): (s: string)
    ensures |s| > 0
    ensures kind == NotFound ==> s == "TaskNotFound" && s != VariantName(kind)
    ensures kind != NotFound ==> s == VariantName(kind)
  {
    match kind
    case NotFound => "TaskNotFound"
    case InternalError => "InternalError"
    case ConnectionError => "ConnectionError"
    case ResponseUnmarshalError => "ResponseUnmarshalError"
    case BadClientRequest => "BadClientRequest"
  }

  /** The first character of the kind text already tells the kinds apart. */
  lemma AsStrInitialDetermines(k1: AppErrorKind, k2: AppErrorKind)
    requires AsStr(k1)[0] == AsStr(k2)[0]
    ensures k1 == k2
  {
    match k1
    case NotFound => assert AsStr(k1)[0] == 'T';
    case InternalError => assert AsStr(k1)[0] == 'I';
    case ConnectionError => assert AsStr(k1)[0] == 'C';
    case ResponseUnmarshalError => assert AsStr(k1)[0] == 'R';
    case BadClientRequest => assert AsStr(k1)[0] == 'B';
  }

  /** Distinct kinds display distinct texts. */
  lemma AsStrInjective(k1: AppErrorKind, k2: AppErrorKind)
    requires AsStr(k1) == AsStr(k2)
    ensures k1 == k2
  {
    AsStrInitialDetermines(k1, k2);
  }

  /** `AppError::new(kind, message)` is this constructor: it keeps both arguments unchanged. */
  datatype AppError = AppError(kind: AppErrorKind, message: string)

  /** The `Display` text: the kind's text, " - [", the message, "]". */
  function Display(e: AppError): (s: string)
    ensures AsStr(e.kind) <= s
    ensures |s| == |AsStr(e.kind)| + |e.message| + 5
    ensures s[|AsStr(e.kind)|..|AsStr(e.kind)| + 4] == " - ["
    ensures s[|AsStr(e.kind)| + 4..|s| - 1] == e.message
    ensures s[|s| - 1] == ']'
  {
    AsStr(e.kind) + " - [" + e.message + "]"
  }

  /** The displayed text loses nothing: two errors with the same text are the same error. */
  lemma DisplayInjective(e1: AppError, e2: AppError)
    requires Display(e1) == Display(e2)
    ensures e1 == e2
  {
    var s := Display(e1);
    assert AsStr(e1.kind)[0] == s[0] == AsStr(e2.kind)[0];
    AsStrInitialDetermines(e1.kind, e2.kind);
    var n := |AsStr(e1.kind)|;
    assert e1.message == s[n + 4..|s| - 1] == e2.message;
  }

  /** The outcome of every fallible operation. */
  datatype Result<T> = Ok(value: T) | Err(error: AppError)
}
