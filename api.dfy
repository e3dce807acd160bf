/**
 * The boundary of the metering-service client (`energiinfo.api.EnergiinfoClient`).
 * Its code is not part of this model: the service's answers are a given function,
 * and the client object only records what was asked of it, in order.
 */
module Api {
  import opened Wrappers

  /** One hourly record returned by the service, already parsed: the hour it covers and its value. */
  datatype Record = Record(time: int, value: real)

  /** The arguments of one `get_period_values` call. */
  datatype Request = Request(meterId: string, period: int, kind: string, resolution: string)

  /**
   * What the service gives back for one request: the records, or `None` on failure,
   * together with what `getStatus` and `getErrorMessage` report afterwards.
   */
  datatype Reply = Reply(values: Option<seq<Record>>, status: string, errorMessage: string)

  /** The arguments of one `authenticate` call. */
  datatype Login = Login(username: string, password: string, tokenKind: string)

  /** The error message on which the sensor logs in again. */
  const AccessDenied := "Access denied"

  /** The request the sensor issues for one day: hourly active energy of its meter. */
  function DayRequest(meterId: string, day: int): Request
  {
    Request(meterId, day, "ActiveEnergy", "hour")
  }

  /** The requests for the given days, in the same order. */
  function Requests(meterId: string, days: seq<int>): seq<Request>
  {
    seq(|days|, k requires 0 <= k < |days| => DayRequest(meterId, days[k]))
  }

  /** The replies the service gives to `requests` while the client holds the token of login number `logins`. */
  function Replies(answer: (nat, Request) -> Reply, logins: nat, requests: seq<Request>): seq<Reply>
  {
    seq(|requests|, k requires 0 <= k < |requests| => answer(logins, requests[k]))
  }

  class Client {
    /** The service: its reply to a request, given how many logins the client has made so far. */
    const answer: (nat, Request) -> Reply
    /** Every `get_period_values` call so far, in order. */
    var requests: seq<Request>
    /** Every `authenticate` call so far, in order. */
    var logins: seq<Login>
    /** The reply to the latest request, which `getStatus` and `getErrorMessage` report. */
    var last: Reply

    constructor (answer: (nat, Request) -> Reply)
      ensures this.answer == answer
      ensures requests == [] && logins == []
      ensures last == Reply(None, "", "")
    {
      this.answer := answer;
      requests := [];
      logins := [];
      last := Reply(None, "", "");
    }

    method GetPeriodValues(meterId: string, period: int, kind: string, resolution: string)
      returns (values: Option<seq<Record>>)
      modifies this
      ensures requests == old(requests) + [Request(meterId, period, kind, resolution)]
      ensures logins == old(logins)
      ensures last == answer(|logins|, Request(meterId, period, kind, resolution))
      ensures values == last.values
    {
      var request := Request(meterId, period, kind, resolution);
      last := answer(|logins|, request);
      requests := requests + [request];
      values := last.values;
    }

    method GetStatus() returns (status: string)
      ensures status == last.status
    {
      status := last.status;
    }

    method GetErrorMessage() returns (message: string)
      ensures message == last.errorMessage
    {
      message := last.errorMessage;
    }

    method Authenticate(username: string, password: string, tokenKind: string)
      modifies this
      ensures logins == old(logins) + [Login(username, password, tokenKind)]
      ensures requests == old(requests) && last == old(last)
    {
      logins := logins + [Login(username, password, tokenKind)];
    }
  }
}
