/**
 * OperationNotFoundException: the diagnostic record raised when a caller names
 * an operation the service does not declare. Its fields are set once by the
 * constructor and only read afterwards.
 */
module OperationNotFound {
  import opened Wrappers
  import opened PhpValues

  datatype OperationNotFoundException = OperationNotFoundException(
    service: string,
    operation: string,
    parameters: Value,
    message: string)

  /** The text the constructor hands to Exception. */
  function NotFoundMessage(service: string, operation: string): string
  {
    "Operation '" + operation + "' not found in service '" + service + "'"
  }

  /** `new OperationNotFoundException($service, $operation, $parameters = [])`. */
  function New(service: string, operation: string, parameters: Value := VArr([])): (e: OperationNotFoundException)
    ensures GetService(e) == service && GetOperation(e) == operation && GetParameters(e) == parameters
    ensures e.message == NotFoundMessage(service, operation)
  {
    OperationNotFoundException(service, operation, parameters, NotFoundMessage(service, operation))
  }

  function GetService(e: OperationNotFoundException): string
  {
    e.service
  }

  function GetOperation(e: OperationNotFoundException): string
  {
    e.operation
  }

  function GetParameters(e: OperationNotFoundException): Value
  {
    e.parameters
  }

  function GetMessage(e: OperationNotFoundException): string
  {
    e.message
  }

  /** Without parameters the exception carries the empty array. */
  lemma OmittedParametersAreEmpty(service: string, operation: string)
    ensures GetParameters(New(service, operation)) == VArr([])
  {
  }

  // ---- reading the message back ----

  const Head: string := "Operation '"
  const Middle: string := "' not found in service '"

  /** Position of the first `'` in `s`, or |s|. */
  function QuoteIndex(s: string): (k: nat)
    ensures k <= |s| && '\'' !in s[..k]
    ensures k < |s| ==> s[k] == '\''
  {
    if s == [] then 0
    else if s[0] == '\'' then 0
    else
      var k := 1 + QuoteIndex(s[1..]);
      assert s[..k] == [s[0]] + s[1..][..k - 1];
      k
  }

  /** Recovers (service, operation) from a not-found message. */
  function ParseMessage(m: string): Option<(string, string)>
  {
    if |m| < |Head| || m[..|Head|] != Head then None
    else
      var rest := m[|Head|..];
      var q := QuoteIndex(rest);
      var tail := rest[q..];
      if |tail| < |Middle| + 1 || tail[..|Middle|] != Middle || tail[|tail| - 1] != '\'' then None
      else Some((tail[|Middle|..|tail| - 1], rest[..q]))
  }

  /**
   * The message names both the operation and the service: an operation name
   * without a quote can be read back from it, and so can the service name.
   */
  lemma MessageNamesServiceAndOperation(service: string, operation: string)
    requires '\'' !in operation
    ensures ParseMessage(NotFoundMessage(service, operation)) == Some((service, operation))
  {
    var m := NotFoundMessage(service, operation);
    assert m == Head + (operation + Middle + service + "'");
    var rest := m[|Head|..];
    assert rest == operation + (Middle + service + "'");
    QuoteIndexAfter(operation, Middle + service + "'");
    var q := QuoteIndex(rest);
    assert rest[..q] == operation;
    assert rest[q..] == Middle + service + "'";
  }

  lemma {:induction false} QuoteIndexAfter(a: string, b: string)
    requires '\'' !in a && |b| > 0 && b[0] == '\''
    ensures QuoteIndex(a + b) == |a|
  {
    if a != [] {
      assert (a + b)[1..] == a[1..] + b;
      QuoteIndexAfter(a[1..], b);
    }
  }
}
