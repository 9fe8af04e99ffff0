/** The strict scrape cycle of `main.go`: the first connector whose status
    cannot be fetched ends the cycle with `up = 0`; whatever was already
    sent for earlier connectors stays sent. */
module StrictCollector {
  import opened Metrics

  /** The `supportedSchema` lookup that `main` applies to the scrape URI
      before any cycle runs; a scheme missing from the table reads as false. */
  function SupportedScheme(scheme: string): (ok: bool)
    ensures ok <==> scheme == "http" || scheme == "https"
  {
    var supported := map["http" := true, "https" := true];
    scheme in supported && supported[scheme]
  }

  /** The position of the first listed connector whose status fetch fails,
      or the length of the list when every fetch succeeds. */
  function FirstFailure(names: seq<string>, fetch: string -> Result<Status>): (k: nat)
    ensures k <= |names|
    ensures forall i :: 0 <= i < k ==> fetch(names[i]).Ok?
    ensures k < |names| ==> fetch(names[k]).Err?
  {
    if names == [] || fetch(names[0]).Err? then 0 else 1 + FirstFailure(names[1..], fetch)
  }

  /** `FirstFailure` is determined by its contract. */
  lemma FirstFailureAt(names: seq<string>, fetch: string -> Result<Status>, k: nat)
    requires k <= |names|
    requires forall i :: 0 <= i < k ==> fetch(names[i]).Ok?
    requires k < |names| ==> fetch(names[k]).Err?
    ensures FirstFailure(names, fetch) == k
  {
  }

  /** The samples of the loop over the connector list, up gauge included. */
  function StrictRun(names: seq<string>, fetch: string -> Result<Status>): seq<Sample> {
    if names == [] then [Up(1)]
    else match fetch(names[0])
      case Err(_) => [Up(0)]
      case Ok(s) => Block(s) + StrictRun(names[1..], fetch)
  }

  /** Everything one strict cycle sends, given the outcome of the connector
      list request and the status request for each name. */
  function StrictCycle(list: Result<seq<string>>, fetch: string -> Result<Status>): seq<Sample> {
    match list
    case Err(_) => [Up(0)]
    case Ok(names) => StrictRun(names, fetch)
  }

  /** The names whose status the strict cycle requests: every one up to and
      including the first failing one. */
  function Requested(list: Result<seq<string>>, fetch: string -> Result<Status>): seq<string> {
    match list
    case Err(_) => []
    case Ok(names) =>
      var k := FirstFailure(names, fetch);
      if k < |names| then names[..k + 1] else names
  }

  /** A decoded connector in front contributes its block in front. */
  lemma BlocksDecodedCons(n: string, rest: seq<string>, fetch: string -> Result<Status>)
    requires fetch(n).Ok?
    ensures Blocks(Decoded([n] + rest, fetch)) == Block(fetch(n).value) + Blocks(Decoded(rest, fetch))
  {
    var s, ds := fetch(n).value, Decoded(rest, fetch);
    DecodedAppend([n], rest, fetch);
    assert [n][..0] == [];
    assert Decoded([n], fetch) == [s];
    assert ([s] + ds)[0] == s && ([s] + ds)[1..] == ds;
  }

  /** The whole shape of a strict cycle over a decoded list: the blocks of the
      connectors before the first failure, in list order, then one up
      sample that is 1 exactly when no fetch failed. */
  lemma {:induction false} StrictRunShape(names: seq<string>, fetch: string -> Result<Status>)
    ensures var k := FirstFailure(names, fetch);
      StrictRun(names, fetch) == Blocks(Decoded(names[..k], fetch)) + [Up(if k == |names| then 1 else 0)]
  {
    if names != [] && fetch(names[0]).Ok? {
      var tail := names[1..];
      var k, k' := FirstFailure(names, fetch), FirstFailure(tail, fetch);
      StrictRunShape(tail, fetch);
      var up := Up(if k' == |tail| then 1 else 0);
      assert names[..k] == [names[0]] + tail[..k'];
      BlocksDecodedCons(names[0], tail[..k'], fetch);
      AppendAssoc(Block(fetch(names[0]).value), Blocks(Decoded(tail[..k'], fetch)), [up]);
    } else {
      assert names[..0] == [];
    }
  }

  /** Every strict cycle sends exactly one up sample, and sends it last. */
  lemma StrictCycleEndsWithUp(list: Result<seq<string>>, fetch: string -> Result<Status>)
    ensures EndsWithSoleUp(StrictCycle(list, fetch))
  {
    if list.Ok? {
      var names := list.value;
      var k := FirstFailure(names, fetch);
      var b := Blocks(Decoded(names[..k], fetch));
      StrictRunShape(names, fetch);
      BlocksShape(Decoded(names[..k], fetch));
      assert (b + [Up(if k == |names| then 1 else 0)])[..|b|] == b;
    }
  }

  /** The up sample reads 1 exactly when the list and every status fetch
      succeeded. */
  lemma StrictUpValue(list: Result<seq<string>>, fetch: string -> Result<Status>)
    ensures |StrictCycle(list, fetch)| >= 1
    ensures var r := StrictCycle(list, fetch);
      r[|r| - 1] == Up(if list.Ok? && forall i :: 0 <= i < |list.value| ==> fetch(list.value[i]).Ok? then 1 else 0)
  {
    if list.Ok? {
      var names := list.value;
      StrictRunShape(names, fetch);
    }
  }

  /** When every status fetch succeeds, the cycle sends the block of each
      connector in list order followed by `up = 1`, and requests every
      listed connector's status. */
  lemma StrictAllSucceed(names: seq<string>, fetch: string -> Result<Status>)
    requires forall i :: 0 <= i < |names| ==> fetch(names[i]).Ok?
    ensures StrictCycle(Ok(names), fetch) == Blocks(Decoded(names, fetch)) + [Up(1)]
    ensures |StrictCycle(Ok(names), fetch)| == 1 + SampleCount(Decoded(names, fetch))
    ensures Requested(Ok(names), fetch) == names
  {
    StrictRunShape(names, fetch);
    FirstFailureAt(names, fetch, |names|);
    assert names[..|names|] == names;
    BlocksShape(Decoded(names, fetch));
  }

  /** When the k-th status fetch is the first to fail, the cycle sends the
      blocks of connectors 0..k-1, then `up = 0`, and never requests the
      status of a connector after the k-th. */
  lemma StrictFailsAt(names: seq<string>, fetch: string -> Result<Status>, k: nat)
    requires k < |names|
    requires forall i :: 0 <= i < k ==> fetch(names[i]).Ok?
    requires fetch(names[k]).Err?
    ensures StrictCycle(Ok(names), fetch) == Blocks(Decoded(names[..k], fetch)) + [Up(0)]
    ensures Requested(Ok(names), fetch) == names[..k + 1]
  {
    StrictRunShape(names, fetch);
    FirstFailureAt(names, fetch, k);
  }

  /** A connector list that cannot be obtained gives `up = 0` alone, and no
      status is requested. */
  lemma StrictListFails(e: FetchError, fetch: string -> Result<Status>)
    ensures StrictCycle(Err(e), fetch) == [Up(0)]
    ensures Requested(Err(e), fetch) == []
  {
  }

  /** Every status request for `names` succeeded. */
  predicate AllFetched(names: seq<string>, fetch: string -> Result<Status>) {
    forall j :: 0 <= j < |names| ==> fetch(names[j]).Ok?
  }

  /** One successful iteration of the loop over the connector list appends
      that connector's block to what was sent so far. */
  lemma StrictStep(done: seq<string>, n: string, fetch: string -> Result<Status>, ch: seq<Sample>)
    requires AllFetched(done, fetch) && fetch(n).Ok?
    requires ch == Blocks(Decoded(done, fetch))
    ensures AllFetched(done + [n], fetch)
    ensures ch + Block(fetch(n).value) == Blocks(Decoded(done + [n], fetch))
  {
    var s, next := fetch(n).value, done + [n];
    assert forall j :: 0 <= j < |next| ==> next[j] == if j < |done| then done[j] else n;
    assert Decoded(next, fetch) == Decoded(done, fetch) + [s] by {
      assert next[..|next| - 1] == done;
    }
    BlocksAppend(Decoded(done, fetch), [s]);
    assert Blocks([s]) == Block(s) + Blocks([]);
  }

  /** The loop stops at the first failing fetch: what was sent so far, then
      `up = 0`, is the whole cycle. */
  lemma StrictStop(names: seq<string>, fetch: string -> Result<Status>, i: nat, ch: seq<Sample>)
    requires i < |names| && AllFetched(names[..i], fetch) && fetch(names[i]).Err?
    requires ch == Blocks(Decoded(names[..i], fetch))
    ensures ch + [Up(0)] == StrictCycle(Ok(names), fetch)
    ensures names[..i] + [names[i]] == Requested(Ok(names), fetch)
  {
    assert forall j :: 0 <= j < i ==> names[..i][j] == names[j];
    StrictFailsAt(names, fetch, i);
    assert names[..i + 1] == names[..i] + [names[i]];
  }

  /** The loop ran to the end: what was sent so far, then `up = 1`, is the
      whole cycle. */
  lemma StrictFinish(names: seq<string>, fetch: string -> Result<Status>, ch: seq<Sample>)
    requires AllFetched(names[..|names|], fetch)
    requires ch == Blocks(Decoded(names[..|names|], fetch))
    ensures ch + [Up(1)] == StrictCycle(Ok(names), fetch)
    ensures names[..|names|] == Requested(Ok(names), fetch)
  {
    assert names[..|names|] == names;
    StrictAllSucceed(names, fetch);
  }

  /** The collector registered by `main`: the scrape URI and the `up` gauge. */
  class Collector {
    const uri: string
    var upGauge: int
    /** `newExporter`: a fresh gauge reads 0. */
    constructor (uri: string)
      ensures this.uri == uri && upGauge == 0
    {
      this.uri := uri;
      upGauge := 0;
    }

    /** One scrape cycle. `list` is what `fetchConnectors` returns and
        `fetch` what `fetchConnectorStatus` returns for each name. */
    method Collect(list: Result<seq<string>>, fetch: string -> Result<Status>) returns (ch: seq<Sample>, ghost requested: seq<string>)
      modifies this
      ensures ch == StrictCycle(list, fetch)
      ensures |ch| >= 1 && ch[|ch| - 1] == Up(upGauge)
      ensures requested == Requested(list, fetch)
    {
      requested := [];
      ch := [];
      if list.Err? {
        upGauge := 0;
        ch := ch + [Up(upGauge)];
        return;
      }
      var names := list.value;
      assert names[..0] == [];
      for i := 0 to |names|
        invariant AllFetched(names[..i], fetch)
        invariant ch == Blocks(Decoded(names[..i], fetch))
        invariant requested == names[..i]
      {
        var status := fetch(names[i]);
        requested := requested + [names[i]];
        if status.Err? {
          StrictStop(names, fetch, i, ch);
          upGauge := 0;
          ch := ch + [Up(upGauge)];
          return;
        }
        StrictStep(names[..i], names[i], fetch, ch);
        assert names[..i + 1] == names[..i] + [names[i]];
        ch := SendStatus(ch, status.value);
      }
      StrictFinish(names, fetch, ch);
      upGauge := 1;
      ch := ch + [Up(upGauge)];
    }
  }
}
