/** Option, Result and the exceptions the modelled code raises or propagates. */
module Outcomes {

  datatype Option<+T> = None | Some(value: T) {
    function GetOr(default: T): T {
      match this
      case Some(v) => v
      case None => default
    }
  }

  /** One entry of a request-validation error: the field and the reason. */
  datatype ErrorDetail = ErrorDetail(field: string, message: string)

  /** The exception classes that reach the modelled code, each with its message. */
  datatype Exception =
    | ValueError(message: string)
    | TypeError(message: string)
    | KeyError(key: string)
    | AttributeError(message: string)
      /** The query builder refused an operand of the wrong shape for its operator. */
    | ArgumentError(message: string)
      /** A request that failed validation, with every failing field. */
    | ValidationError(details: seq<ErrorDetail>)
      /** The store refused a row whose primary key is taken. */
    | IntegrityError(message: string)
      /** Any failure the store or its connection reports (database down, ...). */
    | StoreFailure(message: string)
    | CreditCardNotFound(message: string)
    | CategoryNotFound(message: string)
    | TransactionNotFound(message: string)
    | NoTransactionsFound(message: string)
    | DataTransformationError(message: string)
    | ExcelGenerationError(message: string)
    | UserAlreadyExists(message: string)
      /** A plain `Exception` raised with a message. */
    | UnexpectedError(message: string)

  datatype Result<+T> = Ok(value: T) | Err(error: Exception)

  /** Joins validation messages the way the detail list reads: one per line. */
  function JoinDetails(ds: seq<ErrorDetail>): string {
    if ds == [] then ""
    else if |ds| == 1 then ds[0].field + ": " + ds[0].message
    else ds[0].field + ": " + ds[0].message + "\n" + JoinDetails(ds[1..])
  }

  /** `str(e)`: a KeyError quotes its key; every other exception shows its message. */
  function Str(e: Exception): string {
    match e
    case KeyError(k) => "'" + k + "'"
    case ValidationError(ds) => JoinDetails(ds)
    case ValueError(m) => m
    case TypeError(m) => m
    case AttributeError(m) => m
    case ArgumentError(m) => m
    case IntegrityError(m) => m
    case StoreFailure(m) => m
    case CreditCardNotFound(m) => m
    case CategoryNotFound(m) => m
    case TransactionNotFound(m) => m
    case NoTransactionsFound(m) => m
    case DataTransformationError(m) => m
    case ExcelGenerationError(m) => m
    case UserAlreadyExists(m) => m
    case UnexpectedError(m) => m
  }

  /** `[f(x) for x in s]`: one image per element, in order. */
  function MapSeq<A, B>(f: A -> B, s: seq<A>): (r: seq<B>)
    ensures |r| == |s|
    ensures forall i :: 0 <= i < |s| ==> r[i] == f(s[i])
  {
    if s == [] then [] else [f(s[0])] + MapSeq(f, s[1..])
  }

  /** No element occurs twice. */
  predicate Distinct<T(==)>(s: seq<T>) {
    forall i, j :: 0 <= i < j < |s| ==> s[i] != s[j]
  }

  /**
   * Lists the elements of a set, each once, in an order the caller cannot rely on
   * (the order a database returns rows in).
   */
  method Enumerate<T(==)>(s: set<T>) returns (r: seq<T>)
    ensures Distinct(r)
    ensures forall x :: x in r <==> x in s
    ensures |r| == |s|
  {
    r := [];
    var rest := s;
    while rest != {}
      invariant rest <= s
      invariant Distinct(r)
      invariant forall x :: x in r <==> x in s && x !in rest
      invariant |r| + |rest| == |s|
      decreases rest
    {
      var x :| x in rest;
      r := r + [x];
      rest := rest - {x};
    }
  }
}
