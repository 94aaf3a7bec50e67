/** Header lookup on a Gmail message payload. */
module GmailUtils {
  import opened Wrappers

  /** One entry of a payload's `headers` list. */
  datatype Header = Header(name: string, value: string)

  /** `get_header`: the value of the first header whose name is exactly `name`
      (case-sensitive), or `None` when there is none. */
  function GetHeader(headers: seq<Header>, name: string): (r: Option<string>)
    ensures r.None? <==> forall i :: 0 <= i < |headers| ==> headers[i].name != name
    ensures r.Some? ==> exists i :: 0 <= i < |headers| && headers[i] == Header(name, r.value)
  {
    if headers == [] then None
    else if headers[0].name == name then Some(headers[0].value)
    else
      var r := GetHeader(headers[1..], name);
      assert forall i :: 1 <= i < |headers| ==> headers[i] == headers[1..][i - 1];
      r
  }

  /** The header found is the first with that name. */
  lemma {:induction false} FirstMatchWins(headers: seq<Header>, name: string, i: nat)
    requires i < |headers| && headers[i].name == name
    requires forall j :: 0 <= j < i ==> headers[j].name != name
    ensures GetHeader(headers, name) == Some(headers[i].value)
  {
    if i > 0 {
      assert forall j :: 0 <= j < i - 1 ==> headers[1..][j] == headers[j + 1];
      FirstMatchWins(headers[1..], name, i - 1);
    }
  }

  /** Headers after the first match do not affect the result. */
  lemma {:induction false} LaterHeadersIgnored(h1: seq<Header>, h2: seq<Header>, name: string)
    requires GetHeader(h1, name).Some?
    ensures GetHeader(h1 + h2, name) == GetHeader(h1, name)
  {
    assert (h1 + h2)[0] == h1[0];
    if h1[0].name != name {
      assert (h1 + h2)[1..] == h1[1..] + h2;
      LaterHeadersIgnored(h1[1..], h2, name);
    }
  }

  /** Headers that do not match are passed over. */
  lemma {:induction false} NonMatchingSkipped(h1: seq<Header>, h2: seq<Header>, name: string)
    requires GetHeader(h1, name).None?
    ensures GetHeader(h1 + h2, name) == GetHeader(h2, name)
  {
    if h1 == [] {
      assert h1 + h2 == h2;
    } else {
      assert (h1 + h2)[0] == h1[0];
      assert (h1 + h2)[1..] == h1[1..] + h2;
      NonMatchingSkipped(h1[1..], h2, name);
    }
  }

  /** The lookup does not fold case: a `subject` header is not a `Subject` header. */
  lemma CaseSensitive()
    ensures GetHeader([Header("subject", "hello")], "Subject") == None
    ensures GetHeader([Header("subject", "a"), Header("Subject", "b")], "Subject") == Some("b")
  {
  }
}
