/** The writer of the spot-price script: every computed point becomes one
    line-protocol record, the records are posted one at a time in order, and
    the first response that the HTTP client reports as an error aborts the
    run with exit code 2. */
module LineProtocol {
  import opened Tariff
  import opened Optional

  /** How the script's f-string renders its numbers: a float and an integer
      timestamp. Both renderings are library code and are left abstract. */
  datatype Renderer = Renderer(realText: real -> string, intText: int -> string)

  const SPOT_KEY: string := "prices spot="
  const TOTAL_KEY: string := ",total="

  /** Exit code of the script when a write fails. */
  const EXIT_WRITE: int := 2
  /** What the writer yields when every record was accepted: it returns and
      the script ends normally. */
  const EXIT_OK: int := 0

  /** One line-protocol record: measurement `prices`, fields `spot` and
      `total`, then the timestamp. */
  function Record(spotText: string, totalText: string, tsText: string): (line: string)
    ensures |line| == |SPOT_KEY| + |spotText| + |TOTAL_KEY| + |totalText| + 1 + |tsText|
    ensures line[..|SPOT_KEY|] == SPOT_KEY
    ensures line[|SPOT_KEY|..|SPOT_KEY| + |spotText|] == spotText
    ensures var a := |SPOT_KEY| + |spotText|; line[a..a + |TOTAL_KEY|] == TOTAL_KEY
    ensures var b := |SPOT_KEY| + |spotText| + |TOTAL_KEY|;
      line[b..b + |totalText|] == totalText && line[b + |totalText|] == ' '
    ensures line[|line| - |tsText|..] == tsText
  {
    SPOT_KEY + spotText + TOTAL_KEY + totalText + " " + tsText
  }

  /** The record of one computed point, built from its spot price, its total
      and its timestamp. */
  function RecordOf(item: PricePoint, r: Renderer): (line: string)
    ensures SPOT_KEY <= line
    ensures |line| == |SPOT_KEY| + |r.realText(item.spot)| + |TOTAL_KEY| + |r.realText(item.total)|
                      + 1 + |r.intText(item.timestamp)|
  {
    Record(r.realText(item.spot), r.realText(item.total), r.intText(item.timestamp))
  }

  /** The records of a list of computed points, one per point, in order. */
  function Records(items: seq<PricePoint>, r: Renderer): (lines: seq<string>)
    ensures |lines| == |items|
    ensures forall i :: 0 <= i < |items| ==> lines[i] == RecordOf(items[i], r)
  {
    if items == [] then [] else [RecordOf(items[0], r)] + Records(items[1..], r)
  }

  /** Splits `s` at the first occurrence of `c`: the text before it and the
      text after it, or `None` when `c` does not occur. */
  function SplitFirst(s: string, c: char): (o: Option<(string, string)>)
    ensures o.None? ==> c !in s
    ensures o.Some? ==> s == o.value.0 + [c] + o.value.1 && c !in o.value.0
  {
    if s == [] then None
    else if s[0] == c then Some(([], s[1..]))
    else match SplitFirst(s[1..], c)
      case None => None
      case Some((before, after)) => Some(([s[0]] + before, after))
  }

  /** A text without `c`, then `c`: the split is there. */
  lemma {:induction false} SplitFirstAt(before: string, c: char, after: string)
    requires c !in before
    ensures SplitFirst(before + [c] + after, c) == Some((before, after))
  {
    var s := before + [c] + after;
    if before == [] {
      assert s[0] == c && s[1..] == after;
    } else {
      assert s[0] == before[0] != c;
      assert s[1..] == before[1..] + [c] + after;
      SplitFirstAt(before[1..], c, after);
      assert [before[0]] + before[1..] == before;
    }
  }

  /** Splits a record back into its spot text, total text and timestamp text. */
  function ParseRecord(line: string): Option<(string, string, string)> {
    if !(SPOT_KEY <= line) then None
    else match SplitFirst(line[|SPOT_KEY|..], TOTAL_KEY[0])
      case None => None
      case Some((spotText, rest)) =>
        if !(TOTAL_KEY[1..] <= rest) then None
        else match SplitFirst(rest[|TOTAL_KEY| - 1..], ' ')
          case None => None
          case Some((totalText, tsText)) => Some((spotText, totalText, tsText))
  }

  /** A record whose spot text has no comma and whose total text has no space
      parses back into exactly the three texts it was built from. */
  lemma RecordRoundTrip(spotText: string, totalText: string, tsText: string)
    requires ',' !in spotText && ' ' !in totalText
    ensures ParseRecord(Record(spotText, totalText, tsText)) == Some((spotText, totalText, tsText))
  {
    var line := Record(spotText, totalText, tsText);
    var tail := totalText + [' '] + tsText;
    var rest := TOTAL_KEY[1..] + tail;
    assert line == SPOT_KEY + (spotText + [','] + rest);
    assert line[|SPOT_KEY|..] == spotText + [','] + rest;
    SplitFirstAt(spotText, ',', rest);
    assert rest[|TOTAL_KEY| - 1..] == tail;
    SplitFirstAt(totalText, ' ', tsText);
  }

  /** The record the writer posts reads back as the rendered spot price,
      total and timestamp, in that order, when the float rendering holds no
      comma and no space. */
  lemma RecordOfRoundTrip(item: PricePoint, r: Renderer)
    requires ',' !in r.realText(item.spot) && ' ' !in r.realText(item.total)
    ensures ParseRecord(RecordOf(item, r))
              == Some((r.realText(item.spot), r.realText(item.total), r.intText(item.timestamp)))
  {
    RecordRoundTrip(r.realText(item.spot), r.realText(item.total), r.intText(item.timestamp));
  }

  /** Conversely, whatever parses is exactly the record of its three texts,
      and those texts meet the separator condition of the round trip. */
  lemma ParseRecordSound(line: string)
    requires ParseRecord(line).Some?
    ensures var (s, t, ts) := ParseRecord(line).value;
      line == Record(s, t, ts) && ',' !in s && ' ' !in t
  {
    var body := line[|SPOT_KEY|..];
    assert line == SPOT_KEY + body;
    var (spotText, rest) := SplitFirst(body, ',').value;
    var tail := rest[|TOTAL_KEY| - 1..];
    assert rest == TOTAL_KEY[1..] + tail;
    var (totalText, tsText) := SplitFirst(tail, ' ').value;
    assert ParseRecord(line).value == (spotText, totalText, tsText);
    RecordFromParts(line, body, spotText, rest, tail, totalText, tsText);
  }

  /** Reassembles a record from the pieces the parser cuts it into. */
  lemma RecordFromParts(line: string, body: string, spotText: string, rest: string,
                        tail: string, totalText: string, tsText: string)
    requires line == SPOT_KEY + body && body == spotText + [','] + rest
    requires rest == TOTAL_KEY[1..] + tail && tail == totalText + [' '] + tsText
    ensures line == Record(spotText, totalText, tsText)
  {
    assert [','] + TOTAL_KEY[1..] == TOTAL_KEY;
    calc {
      line;
      SPOT_KEY + (spotText + [','] + (TOTAL_KEY[1..] + (totalText + [' '] + tsText)));
      SPOT_KEY + spotText + ([','] + TOTAL_KEY[1..]) + totalText + [' '] + tsText;
      SPOT_KEY + spotText + TOTAL_KEY + totalText + " " + tsText;
    }
  }

  /** Whether the HTTP client's `raise_for_status` raises for a status code:
      for client errors (4xx) and server errors (5xx). */
  predicate RaisesForStatus(status: int)
    ensures 200 <= status < 300 ==> !RaisesForStatus(status)
    ensures 400 <= status < 500 ==> RaisesForStatus(status)
    ensures 500 <= status < 600 ==> RaisesForStatus(status)
    ensures (status < 400 || 600 <= status) ==> !RaisesForStatus(status)
  {
    400 <= status < 600
  }

  /** Index of the first response that raises, or the number of responses
      when none does. */
  function FirstFailure(statuses: seq<int>): (k: nat)
    ensures k <= |statuses|
    ensures forall j :: 0 <= j < k ==> !RaisesForStatus(statuses[j])
    ensures k < |statuses| ==> RaisesForStatus(statuses[k])
  {
    if statuses == [] then 0
    else if RaisesForStatus(statuses[0]) then 0
    else 1 + FirstFailure(statuses[1..])
  }

  /** What the writer does with `items` when the i-th post is answered with
      `statuses[i]`: the records it posted, and its exit code. */
  datatype WriteOutcome = WriteOutcome(posted: seq<string>, exitCode: int)

  function Written(items: seq<PricePoint>, statuses: seq<int>, r: Renderer): (w: WriteOutcome)
    requires |statuses| == |items|
    ensures w.exitCode == EXIT_OK || w.exitCode == EXIT_WRITE
    ensures |w.posted| <= |items|
    ensures w.exitCode == EXIT_WRITE ==> 0 < |w.posted| && RaisesForStatus(statuses[|w.posted| - 1])
  {
    var k := FirstFailure(statuses);
    if k == |items| then WriteOutcome(Records(items, r), EXIT_OK)
    else WriteOutcome(Records(items[..k + 1], r), EXIT_WRITE)
  }

  /** The send loop of the writer. */
  method WriteToInfluxdb(data: seq<PricePoint>, statuses: seq<int>, r: Renderer)
    returns (posted: seq<string>, exitCode: int)
    requires |statuses| == |data|
    ensures WriteOutcome(posted, exitCode) == Written(data, statuses, r)
    ensures exitCode == EXIT_OK || exitCode == EXIT_WRITE
    ensures exitCode == EXIT_OK <==> forall j :: 0 <= j < |statuses| ==> !RaisesForStatus(statuses[j])
    ensures exitCode == EXIT_OK ==> posted == Records(data, r)
    ensures exitCode == EXIT_WRITE ==>
              0 < |posted| <= |data|
              && posted == Records(data[..|posted|], r)
              && RaisesForStatus(statuses[|posted| - 1])
              && forall j :: 0 <= j < |posted| - 1 ==> !RaisesForStatus(statuses[j])
  {
    posted := [];
    exitCode := EXIT_OK;
    var i := 0;
    while i < |data| && exitCode == EXIT_OK
      invariant 0 <= i <= |data|
      invariant posted == Records(data[..i], r)
      invariant exitCode == EXIT_OK ==> forall j :: 0 <= j < i ==> !RaisesForStatus(statuses[j])
      invariant exitCode == EXIT_OK || (exitCode == EXIT_WRITE && 0 < i && FirstFailure(statuses) == i - 1)
    {
      var record := RecordOf(data[i], r);
      RecordsPrefixStep(data, i, r);
      posted := posted + [record];
      if RaisesForStatus(statuses[i]) {
        exitCode := EXIT_WRITE;
        FirstFailureAt(statuses, i);
      }
      i := i + 1;
    }
    LoopExit(data, statuses, r, i, posted, exitCode);
    WrittenMeaning(data, statuses, r);
  }

  /** When the send loop stops, what it posted and its exit code are the
      outcome `Written` describes. */
  lemma LoopExit(data: seq<PricePoint>, statuses: seq<int>, r: Renderer, i: nat, posted: seq<string>, exitCode: int)
    requires |statuses| == |data| && i <= |data|
    requires posted == Records(data[..i], r)
    requires exitCode == EXIT_OK ==> forall j :: 0 <= j < i ==> !RaisesForStatus(statuses[j])
    requires exitCode == EXIT_OK || (exitCode == EXIT_WRITE && 0 < i && FirstFailure(statuses) == i - 1)
    requires i < |data| ==> exitCode != EXIT_OK
    ensures WriteOutcome(posted, exitCode) == Written(data, statuses, r)
  {
    if exitCode == EXIT_OK {
      assert data[..|data|] == data;
    }
  }

  /** Extending the prefix by one item extends its records by that item's. */
  lemma RecordsPrefixStep(items: seq<PricePoint>, i: nat, r: Renderer)
    requires i < |items|
    ensures Records(items[..i + 1], r) == Records(items[..i], r) + [RecordOf(items[i], r)]
  {
    assert items[..i + 1] == items[..i] + [items[i]];
    RecordsAppend(items[..i], items[i], r);
  }

  /** The first raising response after passing ones is the first failure. */
  lemma FirstFailureAt(statuses: seq<int>, i: nat)
    requires i < |statuses| && RaisesForStatus(statuses[i])
    requires forall j :: 0 <= j < i ==> !RaisesForStatus(statuses[j])
    ensures FirstFailure(statuses) == i
  {
  }

  /** Appending a point appends its record. */
  lemma RecordsAppend(items: seq<PricePoint>, item: PricePoint, r: Renderer)
    ensures Records(items + [item], r) == Records(items, r) + [RecordOf(item, r)]
  {
    assert |Records(items + [item], r)| == |Records(items, r) + [RecordOf(item, r)]|;
    forall i | 0 <= i <= |items|
      ensures Records(items + [item], r)[i] == (Records(items, r) + [RecordOf(item, r)])[i]
    {
      assert (items + [item])[i] == if i < |items| then items[i] else item;
    }
  }

  /** The writer posts a prefix of the records, in order: every item before
      the failing one, the failing item itself, and nothing after it. */
  lemma {:induction false} WrittenIsPrefix(items: seq<PricePoint>, statuses: seq<int>, r: Renderer)
    requires |statuses| == |items|
    ensures var o := Written(items, statuses, r);
      o.posted <= Records(items, r)
      && (o.exitCode == EXIT_WRITE <==> FirstFailure(statuses) < |items|)
      && |o.posted| == (if FirstFailure(statuses) < |items| then FirstFailure(statuses) + 1 else |items|)
  {
    var k, o, all := FirstFailure(statuses), Written(items, statuses, r), Records(items, r);
    if k < |items| {
      assert o.posted == Records(items[..k + 1], r) && o.exitCode == EXIT_WRITE;
      RecordsOfPrefix(items, k + 1, r);
      assert o.posted == all[..k + 1];
    } else {
      assert o.posted == all && o.exitCode == EXIT_OK;
    }
  }

  /** The records of a prefix of the items are the same prefix of their records. */
  lemma RecordsOfPrefix(items: seq<PricePoint>, n: nat, r: Renderer)
    requires n <= |items|
    ensures Records(items[..n], r) == Records(items, r)[..n]
  {
    var pre, all := Records(items[..n], r), Records(items, r);
    forall i | 0 <= i < n
      ensures pre[i] == all[i]
    {
      assert items[..n][i] == items[i];
    }
  }

  /** What the outcome means: exit 0 exactly when no response raises, with
      every record posted; exit 2 otherwise, after the records of the items up
      to and including the first refused one, all earlier ones accepted. */
  lemma WrittenMeaning(items: seq<PricePoint>, statuses: seq<int>, r: Renderer)
    requires |statuses| == |items|
    ensures var o := Written(items, statuses, r);
      (o.exitCode == EXIT_OK || o.exitCode == EXIT_WRITE)
      && (o.exitCode == EXIT_OK <==> forall j :: 0 <= j < |statuses| ==> !RaisesForStatus(statuses[j]))
      && (o.exitCode == EXIT_OK ==> o.posted == Records(items, r))
      && (o.exitCode == EXIT_WRITE ==>
            0 < |o.posted| <= |items|
            && o.posted == Records(items[..|o.posted|], r)
            && RaisesForStatus(statuses[|o.posted| - 1])
            && o.posted[|o.posted| - 1] == RecordOf(items[|o.posted| - 1], r)
            && forall j :: 0 <= j < |o.posted| - 1 ==> !RaisesForStatus(statuses[j]))
  {
    var k := FirstFailure(statuses);
    if k < |items| {
      assert RaisesForStatus(statuses[k]);
    }
  }

  /** Five points, the third one refused with 401: the first three records are
      posted (the third being the one that failed) and the run exits with 2. */
  lemma ThirdOfFiveRefused(items: seq<PricePoint>, statuses: seq<int>, r: Renderer)
    requires |items| == 5 && |statuses| == 5
    requires statuses[0] == 204 && statuses[1] == 204 && statuses[2] == 401
    ensures Written(items, statuses, r)
              == WriteOutcome([RecordOf(items[0], r), RecordOf(items[1], r), RecordOf(items[2], r)], EXIT_WRITE)
  {
    assert FirstFailure(statuses) == 2;
    var p := Records(items[..3], r);
    assert p == [p[0], p[1], p[2]];
  }
}
