/** Values shared by both crawlers: optional values, results carrying the
    crawl's error taxonomy, parsed XML children, HTTP requests and the way a
    crawl call ends. */
module Common {

  datatype Option<+T> = None | Some(value: T)

  /** Failure-compatible result, so that `:-` reads like the source's
      sequence of `find(...).text` calls that each may raise. */
  datatype Result<+T> = Success(value: T) | Failure(error: Error) {
    predicate IsFailure() { Failure? }

    function PropagateFailure<U>(): Result<U>
      requires Failure?
    {
      Failure(error)
    }

    function Extract(): T
      requires Success?
    {
      value
    }
  }

  /** What is left of a page after `records` were collected and the rest of
      its elements gave `r`. */
  function AfterCollected<T>(records: seq<T>, r: Result<seq<T>>): Result<seq<T>> {
    match r
    case Failure(e) => Failure(e)
    case Success(more) => Success(records + more)
  }

  lemma AfterCollectedAppend<T>(records: seq<T>, record: T, rest: Result<seq<T>>)
    ensures AfterCollected(records, AfterCollected([record], rest)) == AfterCollected(records + [record], rest)
  {
    if rest.Success? {
      assert records + ([record] + rest.value) == (records + [record]) + rest.value;
    }
  }

  /** The exceptions that end a crawl call. */
  datatype Error =
    | MissingElement(tag: string)   // `find(tag)` gave None and `.text` was read
    | MissingText(tag: string)      // the element is empty, its text None is used as a string
    | BadTimestamp(text: string)    // the date parser rejected the text
    | MalformedXml                  // the response body is not XML
    | NoSchemeSeparator             // `url.split("//")[1]` on a URL without "//"
    | InvalidDatabaseName           // the store was addressed with a None database name

  /** Python truthiness of an optional string: None and "" are false. */
  predicate Truthy(s: Option<string>) {
    s.Some? && s.value != ""
  }

  /** The children of one parsed XML element: a tag maps to the text of the
      first child with that tag (None for an element without text); a tag
      that is not a key has no such child. */
  type Fields = map<string, Option<string>>

  /** `element.find(tag).text`. */
  function FindText(fields: Fields, tag: string): (r: Result<Option<string>>)
    ensures r.Success? <==> tag in fields
    ensures r.Success? ==> r.value == fields[tag]
    ensures r.Failure? ==> r.error == MissingElement(tag)
  {
    if tag in fields then Success(fields[tag]) else Failure(MissingElement(tag))
  }

  /** A query parameter value as `requests` receives it. */
  datatype QueryValue = Text(text: string) | Number(number: int)

  /** One GET request: the URL and its query parameters in order. */
  datatype Request = Request(url: string, params: seq<(string, QueryValue)>)

  /** The value of the first parameter called `key`. */
  function Param(params: seq<(string, QueryValue)>, key: string): Option<QueryValue> {
    if params == [] then None
    else if params[0].0 == key then Some(params[0].1)
    else Param(params[1..], key)
  }

  /** A parameter is found at the first position that carries its key. */
  lemma {:induction false} ParamAt(params: seq<(string, QueryValue)>, key: string, i: int)
    requires 0 <= i < |params| && params[i].0 == key
    requires forall j :: 0 <= j < i ==> params[j].0 != key
    ensures Param(params, key) == Some(params[i].1)
  {
    if i > 0 {
      ParamAt(params[1..], key, i - 1);
    }
  }

  lemma {:induction false} ParamAbsent(params: seq<(string, QueryValue)>, key: string)
    requires forall j :: 0 <= j < |params| ==> params[j].0 != key
    ensures Param(params, key) == None
  {
    if params != [] {
      ParamAbsent(params[1..], key);
    }
  }

  /** How one crawl call ends: the loop's `break`s, an exception, or the
      model's fuel bound running out. */
  datatype Outcome =
    | Completed
    | HttpStatus(code: int)
    | Crashed(error: Error)
    | OutOfFuel
}
