/**
 * The values the QT3 conformance driver exchanges with its XQuery engine. The engine is
 * opaque: what the driver learns from it comes through the oracle fields of `Engine`.
 */
module QT3Values {

  datatype Option<T> = None | Some(value: T)

  /** A computation that may throw a Java exception; `Raised` carries its message. */
  datatype Res<T> = Ok(value: T) | Raised(message: string)

  /**
   * One item of an engine value: its string value, its boolean when it is an xs:boolean, and
   * `handle`, which stands for everything else the engine knows of the item (its XDM type, its
   * node identity and structure). The driver reads only the first two; the oracles may read all.
   */
  datatype Item = Item(str: string, boolean: Option<bool>, handle: nat)

  /** An engine value (XdmValue): a sequence of items. */
  datatype Value = Value(items: seq<Item>)

  /** An expanded QName; QName equality (`QNm.eq`) compares namespace URI and local name. */
  datatype QName = QName(uri: string, local: string)

  /** A typed query error: its qualified name, its code as text and its localized message. */
  datatype QueryError = QueryError(name: QName, code: string, message: string)

  /**
   * What running a test query gave the driver: a value, a typed query error, or an
   * unexpected Throwable (rendered by its `toString`). `None` stands for Java's `null`.
   */
  datatype Returned = Returned(value: Option<Value>, xqerror: Option<QueryError>, error: Option<string>, sprop: SerialParams)

  /**
   * The serialisation parameters of a query (`query.serializer()`), as option name and value.
   * `OmitDeclaration` is the copy on which the transcript sets `omit-xml-declaration=yes`.
   */
  datatype SerialParams = SerialParams(options: seq<(string, string)>)

  function OmitDeclaration(p: SerialParams): (r: SerialParams)
    ensures |r.options| == |p.options| + 1
    ensures r.options[..|p.options|] == p.options && r.options[|r.options| - 1] == ("omit-xml-declaration", "yes")
  {
    SerialParams(p.options + [("omit-xml-declaration", "yes")])
  }

  /** Outcome of serialising a value: its text, a serialisation error with a code, or another I/O error. */
  datatype Serialized = Serialized(text: string) | SerialError(name: QName, text: string) | IOFailure(text: string)

  /**
   * An expected-result element of the catalog. `kind` is its local name; `code` is `string(@code)`
   * ("" when absent); `text` is its string value; `normalizeSpace` is `@normalize-space = ('true','1')`;
   * `children` are its element children; `rendering` is the element's `toString()`.
   */
  datatype Assertion = Assertion(
    kind: string,
    code: string,
    text: string,
    normalizeSpace: bool,
    children: seq<Assertion>,
    rendering: string)

  /**
   * The engine as far as assertion checking needs it.
   * - `integer`: the integer value of an assertion element (`getInteger`), which may throw;
   * - `evaluate`: string values of the items a query text evaluates to, which may throw;
   * - `judge`: the verdict of the assertions that need the engine to evaluate XQuery
   *   (`assert`, `assert-deep-eq`, `assert-eq`, `assert-xml`, `serialization-matches`, `assert-type`),
   *   given the query's serialisation parameters, which `serialization-matches` uses;
   * - `serialize`: serialising a result with the given serialisation parameters;
   * - `normalize`: the whitespace normalisation of a token;
   * - `order`: the iteration order of a Java HashSet holding the given strings.
   */
  datatype Engine = Engine(
    integer: Assertion -> Res<int>,
    evaluate: string -> Res<seq<string>>,
    judge: (Assertion, Value, SerialParams) -> Res<Option<string>>,
    serialize: (Value, SerialParams) -> Serialized,
    normalize: string -> string,
    order: set<string> -> seq<string>)

  /** The namespace of the standard error codes (`QueryText.ERROR_URI`). */
  const ErrorURI: string := "http://www.w3.org/2005/xqt-errors"
}
