/** The tolerant scrape cycle of `kafka_connect_exporter.go`: `up = 1` is
    sent as soon as the connector list decodes, and a connector whose
    status cannot be fetched, read or decoded is skipped. */
module TolerantExporter {
  import opened Metrics

  /** What a status answer contributes to the channel. */
  function Contribution(r: Result<Status>): seq<Sample> {
    if r.Ok? then Block(r.value) else []
  }

  /** What the loop over the connector list sends. */
  function TolerantRun(names: seq<string>, fetch: string -> Result<Status>): seq<Sample> {
    if names == [] then []
    else TolerantRun(names[..|names| - 1], fetch) + Contribution(fetch(names[|names| - 1]))
  }

  /** Everything one tolerant cycle sends, given the outcome of the connector
      list request and the status request for each name. */
  function TolerantCycle(list: Result<seq<string>>, fetch: string -> Result<Status>): seq<Sample> {
    match list
    case Err(_) => [Up(0)]
    case Ok(names) => [Up(1)] + TolerantRun(names, fetch)
  }

  /** The cycle sends exactly the blocks of the decoded connectors, in order. */
  lemma {:induction false} TolerantRunIsBlocks(names: seq<string>, fetch: string -> Result<Status>)
    ensures TolerantRun(names, fetch) == Blocks(Decoded(names, fetch))
  {
    if names != [] {
      var init, last := names[..|names| - 1], fetch(names[|names| - 1]);
      TolerantRunIsBlocks(init, fetch);
      if last.Ok? {
        BlocksAppend(Decoded(init, fetch), [last.value]);
        assert Blocks([last.value]) == Block(last.value) + Blocks([]);
      } else {
        assert Decoded(names, fetch) == Decoded(init, fetch);
      }
    }
  }

  /** Every tolerant cycle sends exactly one up sample, and sends it first;
      it reads 1 exactly when the connector list decoded, whatever the
      status fetches did. */
  lemma TolerantCycleStartsWithUp(list: Result<seq<string>>, fetch: string -> Result<Status>)
    ensures var r := TolerantCycle(list, fetch);
      |r| >= 1 && r[0] == Up(if list.Ok? then 1 else 0) && UpFree(r[1..])
    ensures list.Err? ==> TolerantCycle(list, fetch) == [Up(0)]
  {
    if list.Ok? {
      var run := TolerantRun(list.value, fetch);
      TolerantRunIsBlocks(list.value, fetch);
      BlocksShape(Decoded(list.value, fetch));
      assert ([Up(1)] + run)[1..] == run;
    }
  }

  /** A connector list that cannot be fetched, read or decoded gives `up = 0` alone. */
  lemma TolerantListFails(e: FetchError, fetch: string -> Result<Status>)
    ensures TolerantCycle(Err(e), fetch) == [Up(0)]
  {
  }

  /** Once the list decodes the cycle sends `up = 1` first and then
      1 + (number of tasks) samples per decoded connector. */
  lemma TolerantLength(names: seq<string>, fetch: string -> Result<Status>)
    ensures TolerantCycle(Ok(names), fetch)[0] == Up(1)
    ensures |TolerantCycle(Ok(names), fetch)| == 1 + SampleCount(Decoded(names, fetch))
  {
    TolerantRunIsBlocks(names, fetch);
    BlocksShape(Decoded(names, fetch));
  }

  /** Connectors are processed independently of one another, in list order. */
  lemma {:induction false} TolerantRunAppend(a: seq<string>, b: seq<string>, fetch: string -> Result<Status>)
    ensures TolerantRun(a + b, fetch) == TolerantRun(a, fetch) + TolerantRun(b, fetch)
    decreases |b|
  {
    if b == [] {
      assert a + b == a;
    } else {
      var b', last := b[..|b| - 1], Contribution(fetch(b[|b| - 1]));
      assert TolerantRun(a + b, fetch) == TolerantRun(a + b', fetch) + last by {
        assert (a + b)[..|a + b| - 1] == a + b' && (a + b)[|a + b| - 1] == b[|b| - 1];
      }
      TolerantRunAppend(a, b', fetch);
      AppendAssoc(TolerantRun(a, fetch), TolerantRun(b', fetch), last);
    }
  }

  /** A connector whose status request fails contributes nothing, and every
      connector after it is still processed. */
  lemma TolerantSkip(a: seq<string>, n: string, b: seq<string>, fetch: string -> Result<Status>)
    requires fetch(n).Err?
    ensures TolerantRun(a + [n] + b, fetch) == TolerantRun(a, fetch) + TolerantRun(b, fetch)
  {
    assert TolerantRun([n], fetch) == [] by {
      assert [n][..0] == [];
    }
    TolerantRunAppend(a, [n], fetch);
    TolerantRunAppend(a + [n], b, fetch);
  }

  /** Even when every status request fails, a decoded list reports `up = 1`. */
  lemma TolerantAllFail(names: seq<string>, fetch: string -> Result<Status>)
    requires forall i :: 0 <= i < |names| ==> fetch(names[i]).Err?
    ensures TolerantCycle(Ok(names), fetch) == [Up(1)]
  {
    TolerantRunIsBlocks(names, fetch);
    NothingDecoded(names, fetch);
  }

  // ---------------------------------------------------------------------
  // Response bodies

  /** A request that got an answer has a body to close; one whose GET failed has none. */
  predicate HasBody<T>(r: Result<T>) {
    !(r.Err? && r.error == GetFailed)
  }

  /** The body was read and decoded, so the loop reaches its `Close`. */
  predicate ClosesBody(r: Result<Status>) {
    r.Ok?
  }

  /** The body was obtained but reading or decoding it failed: the loop
      continues without closing it. */
  predicate LeaksBody(r: Result<Status>) {
    r.Err? && r.error != GetFailed
  }

  function StatusBodiesOpened(names: seq<string>, fetch: string -> Result<Status>): nat {
    if names == [] then 0
    else StatusBodiesOpened(names[..|names| - 1], fetch) + (if HasBody(fetch(names[|names| - 1])) then 1 else 0)
  }

  function StatusBodiesClosed(names: seq<string>, fetch: string -> Result<Status>): nat {
    if names == [] then 0
    else StatusBodiesClosed(names[..|names| - 1], fetch) + (if ClosesBody(fetch(names[|names| - 1])) then 1 else 0)
  }

  function StatusBodiesLeaked(names: seq<string>, fetch: string -> Result<Status>): nat {
    if names == [] then 0
    else StatusBodiesLeaked(names[..|names| - 1], fetch) + (if LeaksBody(fetch(names[|names| - 1])) then 1 else 0)
  }

  /** Bodies obtained in one cycle: the list's (closed by the deferred call
      on every path) and the status answers'. */
  function BodiesOpened(list: Result<seq<string>>, fetch: string -> Result<Status>): nat {
    (if HasBody(list) then 1 else 0) + (if list.Ok? then StatusBodiesOpened(list.value, fetch) else 0)
  }

  function BodiesClosed(list: Result<seq<string>>, fetch: string -> Result<Status>): nat {
    (if HasBody(list) then 1 else 0) + (if list.Ok? then StatusBodiesClosed(list.value, fetch) else 0)
  }

  lemma {:induction false} StatusBodiesBalance(names: seq<string>, fetch: string -> Result<Status>)
    ensures StatusBodiesOpened(names, fetch) == StatusBodiesClosed(names, fetch) + StatusBodiesLeaked(names, fetch)
  {
    if names != [] {
      StatusBodiesBalance(names[..|names| - 1], fetch);
    }
  }

  /** Every body obtained in a cycle is closed except the status bodies
      whose read or decode failed; the list body is never leaked. */
  lemma BodiesLeakOnlyOnStatusReadOrDecodeFailure(list: Result<seq<string>>, fetch: string -> Result<Status>)
    ensures BodiesOpened(list, fetch)
         == BodiesClosed(list, fetch) + (if list.Ok? then StatusBodiesLeaked(list.value, fetch) else 0)
  {
    if list.Ok? {
      StatusBodiesBalance(list.value, fetch);
    }
  }

  /** No body stays open when every status answer decodes or no GET got an answer. */
  lemma {:induction false} NoLeakWithoutReadOrDecodeFailure(names: seq<string>, fetch: string -> Result<Status>)
    requires forall i :: 0 <= i < |names| ==> !LeaksBody(fetch(names[i]))
    ensures StatusBodiesLeaked(names, fetch) == 0
  {
    if names != [] {
      NoLeakWithoutReadOrDecodeFailure(names[..|names| - 1], fetch);
    }
  }

  /** A status body is closed exactly for each connector whose samples were sent. */
  lemma {:induction false} ClosedBodiesAreDecoded(names: seq<string>, fetch: string -> Result<Status>)
    ensures StatusBodiesClosed(names, fetch) == |Decoded(names, fetch)|
  {
    if names != [] {
      ClosedBodiesAreDecoded(names[..|names| - 1], fetch);
    }
  }

  /** One iteration of the loop over the connector list extends what was
      sent so far by that connector's contribution. */
  lemma TolerantStep(done: seq<string>, n: string, fetch: string -> Result<Status>, ch: seq<Sample>)
    requires ch == [Up(1)] + TolerantRun(done, fetch)
    ensures ch + Contribution(fetch(n)) == [Up(1)] + TolerantRun(done + [n], fetch)
  {
    var next, c := done + [n], Contribution(fetch(n));
    assert TolerantRun(next, fetch) == TolerantRun(done, fetch) + c by {
      assert next[..|next| - 1] == done;
    }
    AppendAssoc([Up(1)], TolerantRun(done, fetch), c);
  }

  /** One iteration counts a body obtained when the GET got an answer and a
      body closed when the status decoded. */
  lemma BodiesStep(names: seq<string>, fetch: string -> Result<Status>, i: nat)
    requires i < |names|
    ensures StatusBodiesOpened(names[..i + 1], fetch)
         == StatusBodiesOpened(names[..i], fetch) + (if HasBody(fetch(names[i])) then 1 else 0)
    ensures StatusBodiesClosed(names[..i + 1], fetch)
         == StatusBodiesClosed(names[..i], fetch) + (if ClosesBody(fetch(names[i])) then 1 else 0)
  {
    var next := names[..i + 1];
    assert next[..|next| - 1] == names[..i] && next[|next| - 1] == names[i];
  }

  /** The exporter registered by `main`: the scrape URI and the `up` gauge. */
  class Exporter {
    const uri: string
    var up: int
    /** Response bodies obtained and closed so far, over all cycles. */
    ghost var bodiesOpened: nat
    ghost var bodiesClosed: nat

    /** `newExporter`: a fresh gauge reads 0. */
    constructor (uri: string)
      ensures this.uri == uri && up == 0
      ensures bodiesOpened == 0 && bodiesClosed == 0
    {
      this.uri := uri;
      up := 0;
      bodiesOpened, bodiesClosed := 0, 0;
    }

    /** One scrape cycle. `list` is the outcome of GET, read and decode of
        `/connectors`; `fetch` the same for each `/connectors/<name>/status`. */
    method Collect(list: Result<seq<string>>, fetch: string -> Result<Status>) returns (ch: seq<Sample>, ghost requested: seq<string>)
      modifies this
      ensures ch == TolerantCycle(list, fetch)
      ensures |ch| >= 1 && ch[0] == Up(up)
      ensures requested == (if list.Ok? then list.value else [])
      ensures bodiesOpened == old(bodiesOpened) + BodiesOpened(list, fetch)
      ensures bodiesClosed == old(bodiesClosed) + BodiesClosed(list, fetch)
    {
      up := 0;
      requested := [];
      ch := [];
      if list.Err? {
        if list.error != GetFailed {
          // the deferred Close of the list body
          bodiesOpened, bodiesClosed := bodiesOpened + 1, bodiesClosed + 1;
        }
        ch := ch + [Up(up)];
        return;
      }
      bodiesOpened := bodiesOpened + 1;
      var names := list.value;
      up := 1;
      ch := ch + [Up(up)];
      assert names[..0] == [];
      for i := 0 to |names|
        invariant up == 1
        invariant ch == [Up(1)] + TolerantRun(names[..i], fetch)
        invariant requested == names[..i]
        invariant bodiesOpened == old(bodiesOpened) + 1 + StatusBodiesOpened(names[..i], fetch)
        invariant bodiesClosed == old(bodiesClosed) + StatusBodiesClosed(names[..i], fetch)
      {
        var response := fetch(names[i]);
        requested := requested + [names[i]];
        assert names[..i + 1] == names[..i] + [names[i]];
        TolerantStep(names[..i], names[i], fetch, ch);
        BodiesStep(names, fetch, i);
        if response.Err? && response.error == GetFailed {
          assert ch + Contribution(response) == ch;
          continue;
        }
        bodiesOpened := bodiesOpened + 1;
        if response.Err? {
          assert ch + Contribution(response) == ch;
          // read or decode failed: the loop moves on without closing the body
          continue;
        }
        ch := SendStatus(ch, response.value);
        bodiesClosed := bodiesClosed + 1;
      }
      assert names[..|names|] == names;
      // the deferred Close of the list body
      bodiesClosed := bodiesClosed + 1;
    }
  }
}
