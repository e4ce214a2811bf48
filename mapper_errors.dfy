/**
 * The error taxonomy: the integer codes carried by the errors the mapper reports, and the
 * error cases its private select throws, each carrying the offending name or query.
 */
module MapperErrors {
  import opened Results

  /** Kinds of failure, each with a fixed integer code. */
  datatype ErrorCode = Unknown | DoeseNotExistSqlId | DoeseNotExistDbName | InvalidSqlQuery

  /** The integer code of a kind of failure. */
  function RawValue(c: ErrorCode): (n: int)
    ensures 1 <= n <= 4
  {
    match c
    case Unknown => 1
    case DoeseNotExistSqlId => 2
    case DoeseNotExistDbName => 3
    case InvalidSqlQuery => 4
  }

  /** The kind of failure an integer code stands for, if any. */
  function FromRawValue(n: int): (r: Option<ErrorCode>)
    ensures r.Some? <==> 1 <= n <= 4
    ensures r.Some? ==> RawValue(r.value) == n
  {
    if n == 1 then Some(ErrorCode.Unknown)
    else if n == 2 then Some(ErrorCode.DoeseNotExistSqlId)
    else if n == 3 then Some(ErrorCode.DoeseNotExistDbName)
    else if n == 4 then Some(ErrorCode.InvalidSqlQuery)
    else None
  }

  /** Reading a code back gives the kind it came from, so the code determines the kind. */
  lemma RawValueRoundTrip(c: ErrorCode, d: ErrorCode)
    ensures FromRawValue(RawValue(c)) == Some(c)
    ensures RawValue(c) == RawValue(d) ==> c == d
  {
    match c
    case Unknown =>
    case DoeseNotExistSqlId =>
    case DoeseNotExistDbName =>
    case InvalidSqlQuery =>
  }

  /** What the private select throws: every case but `Unknown` carries the offending text. */
  datatype ErrorType =
    | Unknown
    | DoeseNotExistSqlId(sqlId: string)
    | DoeseNotExistDbName(dbName: string)
    | InvalidSqlQuery(query: string)

  /** The kind of failure an error case stands for. */
  function KindOf(e: ErrorType): (c: ErrorCode)
    ensures e.Unknown? <==> c.Unknown?
    ensures e.DoeseNotExistSqlId? <==> c.DoeseNotExistSqlId?
    ensures e.DoeseNotExistDbName? <==> c.DoeseNotExistDbName?
    ensures e.InvalidSqlQuery? <==> c.InvalidSqlQuery?
  {
    match e
    case Unknown => ErrorCode.Unknown
    case DoeseNotExistSqlId(_) => ErrorCode.DoeseNotExistSqlId
    case DoeseNotExistDbName(_) => ErrorCode.DoeseNotExistDbName
    case InvalidSqlQuery(_) => ErrorCode.InvalidSqlQuery
  }

  /** The text an error case carries: the sqlId, the dbName or the query; nothing for `Unknown`. */
  function Payload(e: ErrorType): (r: Option<string>)
    ensures r.None? <==> e.Unknown?
    ensures e.DoeseNotExistSqlId? ==> r == Some(e.sqlId)
    ensures e.DoeseNotExistDbName? ==> r == Some(e.dbName)
    ensures e.InvalidSqlQuery? ==> r == Some(e.query)
  {
    match e
    case Unknown => None
    case DoeseNotExistSqlId(s) => Some(s)
    case DoeseNotExistDbName(s) => Some(s)
    case InvalidSqlQuery(s) => Some(s)
  }

  /** The kind and the payload together determine the error case. */
  lemma ErrorTypeDeterminedByKindAndPayload(e: ErrorType, f: ErrorType)
    ensures KindOf(e) == KindOf(f) && Payload(e) == Payload(f) <==> e == f
  {
  }

  /** An error as the completion handlers receive it: a domain text and an integer code. */
  datatype MapperError = MapperError(domain: string, code: int)

  function MakeError(domain: string, code: ErrorCode): (e: MapperError)
    ensures e.domain == domain && FromRawValue(e.code) == Some(code)
  {
    RawValueRoundTrip(code, code);
    MapperError(domain, RawValue(code))
  }

  /**
   * Anything the private select or the connection can throw: a mapper error case, or an
   * error of the database or file layer, known by its domain.
   */
  datatype Thrown = Mapper(error: ErrorType) | Engine(domain: string)

  /** The domain a mapper error case has once bridged to an error object. */
  const BridgedDomain: string := "SQLiteMapper.SQLiteMapperErrorType"

  /** The domain of anything thrown, as read through the error object it is bridged to. */
  function DomainOf(t: Thrown): (d: string)
    ensures t.Engine? ==> d == t.domain
    ensures t.Mapper? ==> d == BridgedDomain
  {
    match t
    case Mapper(_) => BridgedDomain
    case Engine(d) => d
  }
}
