/**
 * The contract of the key-value state store as the repositories see it, stated over
 * values. The sidecar channel is abstracted to a scripted list of call outcomes: each
 * repository call consumes the next one (an empty script means every call succeeds),
 * so that a connection failure or a rejected read, save or delete can be placed at
 * any step of a workflow. Stored values are either a decodable record or bytes that
 * do not decode as one.
 */
module StateStore {
  import opened AppErrors

  /** What the sidecar does with one repository call. */
  datatype CallOutcome =
    | Succeeds
    | ConnectFails(reason: string)     // the client could not connect
    | OperationFails(reason: string)   // connected, but the get, save or delete failed

  /** The repository calls made, in order (a record of the model, not of the source). */
  datatype RepoCall = GetCall(key: string) | CreateCall(key: string) | DeleteCall(key: string)

  /** The value stored under a key. */
  datatype Entry<T> = Encoded(value: T) | Malformed(reason: string)

  datatype StoreState<T> = StoreState(entries: map<string, Entry<T>>, pending: seq<CallOutcome>, calls: seq<RepoCall>)

  /** The result of one repository call and the store after it. */
  datatype Step<T, V> = Step(result: Result<V>, after: StoreState<T>)

  /**
   * The decoder's complaint about the empty value the sidecar returns for an absent key;
   * its wording belongs to the JSON decoder.
   */
  const EmptyValueError: string := "EOF while parsing a value at line 1 column 0"

  function NextOutcome(pending: seq<CallOutcome>): CallOutcome
  {
    if pending == [] then Succeeds else pending[0]
  }

  /** The store once a call has used its outcome and been recorded. */
  function Consume<T>(s: StoreState<T>, call: RepoCall): (s': StoreState<T>)
    ensures s'.entries == s.entries && s'.calls == s.calls + [call]
    ensures s.pending != [] ==> s'.pending == s.pending[1..]
    ensures s.pending == [] ==> s'.pending == []
  {
    s.(pending := if s.pending == [] then [] else s.pending[1..], calls := s.calls + [call])
  }

  /** Read and decode the value under `key`; absence and undecodable bytes both surface as `NotFound`. */
  function Get<T>(s: StoreState<T>, key: string): (r: Step<T, T>)
    ensures r.after == Consume(s, GetCall(key))
    ensures r.result.Ok? <==> NextOutcome(s.pending) == Succeeds && key in s.entries && s.entries[key].Encoded?
    ensures r.result.Ok? ==> r.result.value == s.entries[key].value
    ensures r.result.Err? ==>
      r.result.error.kind == (if NextOutcome(s.pending).ConnectFails? then ConnectionError else NotFound)
  {
    var after := Consume(s, GetCall(key));
    match NextOutcome(s.pending)
    case ConnectFails(reason) => Step(Err(AppError(ConnectionError, reason)), after)
    case OperationFails(reason) => Step(Err(AppError(NotFound, reason)), after)
    case Succeeds =>
      if key !in s.entries then Step(Err(AppError(NotFound, EmptyValueError)), after)
      else match s.entries[key]
        case Encoded(v) => Step(Ok(v), after)
        case Malformed(reason) => Step(Err(AppError(NotFound, reason)), after)
  }

  /** Encode `value` and save it under `key`; on success the key is returned. */
  function Create<T>(s: StoreState<T>, key: string, value: T): (r: Step<T, string>)
    ensures r.after.pending == Consume(s, CreateCall(key)).pending
    ensures r.after.calls == s.calls + [CreateCall(key)]
    ensures r.result.Ok? <==> NextOutcome(s.pending) == Succeeds
    ensures r.result.Ok? ==> r.result.value == key && r.after.entries == s.entries[key := Encoded(value)]
    ensures r.result.Err? ==> r.after.entries == s.entries
    ensures r.result.Err? ==>
      r.result.error.kind == (if NextOutcome(s.pending).ConnectFails? then ConnectionError else InternalError)
  {
    var after := Consume(s, CreateCall(key));
    match NextOutcome(s.pending)
    case ConnectFails(reason) => Step(Err(AppError(ConnectionError, reason)), after)
    case OperationFails(reason) => Step(Err(AppError(InternalError, reason)), after)
    case Succeeds => Step(Ok(key), after.(entries := s.entries[key := Encoded(value)]))
  }

  /** Remove `key`; an absent key is not told apart from a removed one. */
  function Delete<T>(s: StoreState<T>, key: string): (r: Step<T, bool>)
    ensures r.after.pending == Consume(s, DeleteCall(key)).pending
    ensures r.after.calls == s.calls + [DeleteCall(key)]
    ensures r.result.Ok? <==> NextOutcome(s.pending) == Succeeds
    ensures r.result.Ok? ==> r.result.value && r.after.entries == s.entries - {key}
    ensures r.result.Err? ==> r.after.entries == s.entries
    ensures r.result.Err? ==>
      r.result.error.kind == (if NextOutcome(s.pending).ConnectFails? then ConnectionError else InternalError)
  {
    var after := Consume(s, DeleteCall(key));
    match NextOutcome(s.pending)
    case ConnectFails(reason) => Step(Err(AppError(ConnectionError, reason)), after)
    case OperationFails(reason) => Step(Err(AppError(InternalError, reason)), after)
    case Succeeds => Step(Ok(true), after.(entries := s.entries - {key}))
  }

  /** What was saved can be read back: a successful create followed by a reachable get returns the value. */
  lemma GetAfterCreate<T>(s: StoreState<T>, key: string, value: T)
    requires Create(s, key, value).result.Ok?
    requires NextOutcome(Create(s, key, value).after.pending) == Succeeds
    ensures Get(Create(s, key, value).after, key).result == Ok(value)
  {
  }

  /** A successful delete leaves nothing to read: the next get reports `NotFound`. */
  lemma GetAfterDelete<T>(s: StoreState<T>, key: string)
    requires Delete(s, key).result.Ok?
    ensures Get(Delete(s, key).after, key).result.Err?
    ensures NextOutcome(Delete(s, key).after.pending) != Succeeds || Get(Delete(s, key).after, key).result.error.kind == NotFound
  {
  }

  /** Writes under one key leave every other key as it was. */
  lemma CreateAndDeleteAreLocal<T>(s: StoreState<T>, key: string, value: T, other: string)
    requires other != key
    ensures var c := Create(s, key, value).after.entries;
      (other in c <==> other in s.entries) && (other in c ==> c[other] == s.entries[other])
    ensures var d := Delete(s, key).after.entries;
      (other in d <==> other in s.entries) && (other in d ==> d[other] == s.entries[other])
  {
  }
}
