/**
  The status gate every request of the client goes through (`checkStatus`):
  a response is accepted when its status is in the 2xx range or is 0 (the
  status of a local, status-less transport); any other response becomes a
  rejection whose message is the status, a colon and space, and the status text.
*/
module Fetch {
  import opened Wrappers
  import opened Strings

  const OK_STATUS := 200
  const READY_STATUS := 300

  /** What a delivered response shows to the client: its status line and its (already read) body. */
  datatype Response<T> = Response(status: int, statusText: string, body: T)

  /** The message of the `Error` a rejected response is turned into. */
  function RejectionMessage(status: int, statusText: string): string
  {
    IntToString(status) + ": " + statusText
  }

  /** `checkStatus`: the body on success, the rejection message otherwise. */
  function CheckStatus<T>(r: Response<T>): (res: Result<T, string>)
    ensures res.Success? <==> (OK_STATUS <= r.status < READY_STATUS || r.status == 0)
    ensures res.Success? ==> res.value == r.body
    ensures res.Failure? ==> res.error == RejectionMessage(r.status, r.statusText)
  {
    if OK_STATUS <= r.status < READY_STATUS || r.status == 0 then Success(r.body)
    else Failure(RejectionMessage(r.status, r.statusText))
  }

  /**
    The rejection message names the status exactly: the text before its first
    colon reads back as the status code, and the status text follows ": ".
  */
  lemma RejectionCarriesStatus(status: int, statusText: string)
    ensures var m := RejectionMessage(status, statusText);
      ParseInt(Split(m, ':')[0]) == Some(status) &&
      m[|IntToString(status)| + 2..] == statusText
  {
    var digits := IntToString(status);
    var m := RejectionMessage(status, statusText);
    assert ':' !in digits by {
      if status < 0 {
        assert digits == "-" + NatToString(-status);
        forall k | 0 <= k < |digits| ensures digits[k] != ':' {
          if k > 0 { assert digits[k] == NatToString(-status)[k - 1]; }
        }
      }
    }
    assert m == digits + [':'] + (" " + statusText);
    SplitAtFirst(digits, ':', " " + statusText);
    IntToStringRoundTrip(status);
  }

  /** A rejection message determines both the status code and the status text it was built from. */
  lemma RejectionsDistinguishStatus(s1: int, t1: string, s2: int, t2: string)
    requires RejectionMessage(s1, t1) == RejectionMessage(s2, t2)
    ensures s1 == s2 && t1 == t2
  {
    RejectionCarriesStatus(s1, t1);
    RejectionCarriesStatus(s2, t2);
    var m := RejectionMessage(s1, t1);
    assert Some(s1) == ParseInt(Split(m, ':')[0]) == Some(s2);
  }
}
