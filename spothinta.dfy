/** The main block of the spot-price script: fetch the points of tomorrow,
    transform them with the tariffs, and post them to the database. The
    clock, the configuration file and the HTTP exchanges are inputs. */
module Spothinta {
  import opened Tariff
  import opened LineProtocol
  import opened FetchWindow

  /** Exit code of the script when the fetch is answered with an error. */
  const EXIT_FETCH: int := 1

  /** What the fetch yields: the market's price points, or the exit code. */
  datatype FetchResult = Fetched(points: seq<RawPoint>) | FetchFailed(exitCode: int)

  /** The fetch, given the status of the response and the points its body
      holds. Only a status for which `raise_for_status` raises leads to the
      exit; any other status hands the points on. */
  function GetSpotData(status: int, body: seq<RawPoint>): (f: FetchResult)
    ensures 200 <= status < 300 ==> f == Fetched(body)
    ensures (100 <= status < 200 || 300 <= status < 400) ==> f == Fetched(body)
    ensures 400 <= status < 600 ==> f == FetchFailed(EXIT_FETCH)
    ensures f.FetchFailed? ==> f.exitCode == EXIT_FETCH
  {
    if RaisesForStatus(status) then FetchFailed(EXIT_FETCH) else Fetched(body)
  }

  /** The fetch and the writer apply one failure rule: a status stops the
      fetch exactly when, answering a single post, it stops the writer. */
  lemma FetchAndWriteAgree(status: int, body: seq<RawPoint>, item: PricePoint, r: Renderer)
    ensures (GetSpotData(status, body).FetchFailed?) <==> (Written([item], [status], r).exitCode == EXIT_WRITE)
  {
    WrittenMeaning([item], [status], r);
  }

  /** Everything one run of the script does, as values. */
  datatype RunOutcome = RunOutcome(window: Payload, posted: seq<string>, exitCode: int)

  /** The outcome of one run: the request window, the records posted and the
      exit code. */
  function RunSpec(t: Tariffs, day: string, fetchStatus: int, body: seq<RawPoint>,
                   writeStatuses: seq<int>, r: Renderer): RunOutcome
    requires |writeStatuses| == |body|
  {
    match GetSpotData(fetchStatus, body)
    case FetchFailed(code) => RunOutcome(WindowFor(day), [], code)
    case Fetched(points) =>
      var w := Written(Compute(points, t), writeStatuses, r);
      RunOutcome(WindowFor(day), w.posted, w.exitCode)
  }

  /** One run of the script, from the fetch to the last post. */
  method Run(t: Tariffs, day: string, fetchStatus: int, body: seq<RawPoint>,
             writeStatuses: seq<int>, r: Renderer)
    returns (window: Payload, posted: seq<string>, exitCode: int)
    requires |writeStatuses| == |body|
    ensures RunOutcome(window, posted, exitCode) == RunSpec(t, day, fetchStatus, body, writeStatuses, r)
    ensures window == WindowFor(day)
    ensures RaisesForStatus(fetchStatus) ==> posted == [] && exitCode == EXIT_FETCH
    ensures !RaisesForStatus(fetchStatus) ==>
              WriteOutcome(posted, exitCode) == Written(Compute(body, t), writeStatuses, r)
    ensures exitCode == EXIT_OK || exitCode == EXIT_FETCH || exitCode == EXIT_WRITE
  {
    window := WindowFor(day);
    var fetched := GetSpotData(fetchStatus, body);
    if fetched.FetchFailed? {
      posted, exitCode := [], fetched.exitCode;
      return;
    }
    var dataPoints := ComputeDataPoints(fetched.points, t);
    posted, exitCode := WriteToInfluxdb(dataPoints, writeStatuses, r);
  }

  /** A successful run posts the record of every raw point, in input order,
      carrying that point's spot price and total. */
  lemma {:induction false} SuccessfulRunPostsEveryPoint(t: Tariffs, day: string, fetchStatus: int,
                                                       body: seq<RawPoint>, writeStatuses: seq<int>,
                                                       r: Renderer)
    requires |writeStatuses| == |body|
    requires RunSpec(t, day, fetchStatus, body, writeStatuses, r).exitCode == EXIT_OK
    ensures var o := RunSpec(t, day, fetchStatus, body, writeStatuses, r);
      |o.posted| == |body|
      && forall i :: 0 <= i < |body| ==>
           o.posted[i] == Record(r.realText(SpotPrice(body[i].price, t)),
                                 r.realText(SpotPrice(body[i].price, t) + BaseCharge(t) + Fee(body[i].hour, t)),
                                 r.intText(body[i].timestamp))
  {
    var o := RunSpec(t, day, fetchStatus, body, writeStatuses, r);
    assert !RaisesForStatus(fetchStatus);
    var items := Compute(body, t);
    assert FirstFailure(writeStatuses) == |items|;
    forall i | 0 <= i < |body|
      ensures o.posted[i] == Record(r.realText(SpotPrice(body[i].price, t)),
                                    r.realText(SpotPrice(body[i].price, t) + BaseCharge(t) + Fee(body[i].hour, t)),
                                    r.intText(body[i].timestamp))
    {
      var q := PointPrice(body[i], t);
      assert items[i] == q;
      assert q.total == q.spot + BaseCharge(t) + Fee(body[i].hour, t);
    }
  }

  /** A fetch answered with 500 ends the run with exit code 1 before any post. */
  lemma FetchFailureScenario(t: Tariffs, day: string, body: seq<RawPoint>, writeStatuses: seq<int>, r: Renderer)
    requires |writeStatuses| == |body|
    ensures RunSpec(t, day, 500, body, writeStatuses, r) == RunOutcome(WindowFor(day), [], EXIT_FETCH)
  {
  }
}
