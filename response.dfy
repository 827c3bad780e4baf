/**
 * The decision `fetchGitHubActivity` takes when a response has ended
 * (index.js, the `end` handler): the status code is checked first, for 404
 * and then for anything other than 200, and only a 200 response has its
 * body parsed. `JSON.parse` is a parameter of the model.
 */
module Response {
  import opened Wrappers
  import opened Decimal

  /** Why the returned promise is rejected. */
  datatype FetchError =
    | NotFound
    | UpstreamError(status: nat)
    | ParseError

  /** How the returned promise settles. */
  datatype Outcome<T> = Resolved(value: T) | Rejected(error: FetchError)

  /** The settlement of the promise for a response with `status` and accumulated `body`. */
  function Classify<T>(status: nat, body: string, parse: string -> Option<T>): (r: Outcome<T>)
    ensures status == 404 ==> r == Rejected(NotFound)
    ensures status != 404 && status != 200 ==> r == Rejected(UpstreamError(status))
    ensures status == 200 ==> (r == Rejected(ParseError) <==> parse(body).None?)
    ensures r.Resolved? <==> status == 200 && parse(body).Some?
    ensures r.Resolved? ==> parse(body) == Some(r.value)
    ensures r == Rejected(NotFound) <==> status == 404
  {
    if status == 404 then Rejected(NotFound)
    else if status != 200 then Rejected(UpstreamError(status))
    else match parse(body)
      case Some(v) => Resolved(v)
      case None => Rejected(ParseError)
  }

  /** A non-200 response settles the same way whatever its body and whatever the parser. */
  lemma BodyIgnoredUnlessOk<T>(status: nat, b1: string, b2: string, p1: string -> Option<T>, p2: string -> Option<T>)
    requires status != 200
    ensures Classify(status, b1, p1) == Classify(status, b2, p2)
  {
  }

  const UpstreamPrefix: string := "Failed to fetch activity (Status: "

  /** The `message` of the rejection's `Error`; the upstream message carries the status as a numeral. */
  function ErrorMessage(e: FetchError): (m: string)
    ensures m == "User not found" <==> e == NotFound
    ensures m == "Failed to parse response" <==> e == ParseError
    ensures e.UpstreamError? ==>
      |UpstreamPrefix| < |m| && m[..|UpstreamPrefix|] == UpstreamPrefix && m[|m| - 1] == ')' &&
      Canonical(m[|UpstreamPrefix|..|m| - 1]) && DecimalValue(m[|UpstreamPrefix|..|m| - 1]) == e.status
  {
    match e
    case NotFound => "User not found"
    case UpstreamError(status) =>
      var d := NatToDecimal(status);
      var m := UpstreamPrefix + d + ")";
      DecimalRoundTrip(status);
      assert m[|UpstreamPrefix|..|m| - 1] == d;
      assert m[10] == 'f';
      m
    case ParseError => "Failed to parse response"
  }

  /** The message tells the rejections apart, down to the status carried. */
  lemma ErrorMessageInjective(e1: FetchError, e2: FetchError)
    requires ErrorMessage(e1) == ErrorMessage(e2)
    ensures e1 == e2
  {
    var prefix := UpstreamPrefix;
    match e1
    case NotFound =>
      assert ErrorMessage(e2)[0] == 'U';
    case ParseError =>
      assert ErrorMessage(e2)[10] == 'p';
    case UpstreamError(s1) =>
      assert ErrorMessage(e2)[10] == 'f';
      assert |ErrorMessage(e2)| > 24;
      var s2 := e2.status;
      var d1, d2 := NatToDecimal(s1), NatToDecimal(s2);
      assert |d1| == |d2|;
      assert d1 == (prefix + d1 + ")")[|prefix|..|prefix| + |d1|];
      assert d2 == (prefix + d2 + ")")[|prefix|..|prefix| + |d2|];
      NatToDecimalInjective(s1, s2);
  }
}
