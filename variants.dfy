/** The two scrape cycles side by side: they agree when nothing fails, and
    otherwise the strict cycle sends a prefix of what the tolerant one sends. */
module Variants {
  import opened Metrics
  import opened StrictCollector
  import opened TolerantExporter

  /** The connector samples of a strict cycle: everything before its final up sample. */
  function StrictSamples(list: Result<seq<string>>, fetch: string -> Result<Status>): seq<Sample> {
    var r := StrictCycle(list, fetch);
    if r == [] then [] else r[..|r| - 1]
  }

  /** The connector samples of a tolerant cycle: everything after its first up sample. */
  function TolerantSamples(list: Result<seq<string>>, fetch: string -> Result<Status>): seq<Sample> {
    var r := TolerantCycle(list, fetch);
    if r == [] then [] else r[1..]
  }

  /** When every status fetch succeeds both cycles send the same connector
      samples and `up = 1`; they differ only in where the up sample goes. */
  lemma AgreeWhenAllSucceed(names: seq<string>, fetch: string -> Result<Status>)
    requires forall i :: 0 <= i < |names| ==> fetch(names[i]).Ok?
    ensures StrictCycle(Ok(names), fetch) == TolerantRun(names, fetch) + [Up(1)]
    ensures TolerantCycle(Ok(names), fetch) == [Up(1)] + TolerantRun(names, fetch)
    ensures StrictSamples(Ok(names), fetch) == TolerantSamples(Ok(names), fetch)
  {
    StrictAllSucceed(names, fetch);
    TolerantRunIsBlocks(names, fetch);
    var run := TolerantRun(names, fetch);
    assert (run + [Up(1)])[..|run|] == run;
    assert ([Up(1)] + run)[1..] == run;
  }

  /** Over a decoded list the strict connector samples are the blocks of the
      connectors before the first failing fetch. */
  lemma StrictSamplesOk(names: seq<string>, fetch: string -> Result<Status>)
    ensures var k := FirstFailure(names, fetch);
      StrictSamples(Ok(names), fetch) == Blocks(Decoded(names[..k], fetch))
  {
    var k := FirstFailure(names, fetch);
    var b := Blocks(Decoded(names[..k], fetch));
    var up := Up(if k == |names| then 1 else 0);
    StrictRunShape(names, fetch);
    assert StrictCycle(Ok(names), fetch) == b + [up];
    assert (b + [up])[..|b|] == b;
  }

  /** Over a decoded list the tolerant connector samples are what its loop sends. */
  lemma TolerantSamplesOk(names: seq<string>, fetch: string -> Result<Status>)
    ensures TolerantSamples(Ok(names), fetch) == TolerantRun(names, fetch)
  {
    var run := TolerantRun(names, fetch);
    assert ([Up(1)] + run)[1..] == run;
  }

  /** The tolerant loop's output starts with the blocks of any prefix of
      successfully decoded connectors. */
  lemma TolerantRunSplit(names: seq<string>, fetch: string -> Result<Status>, k: nat)
    requires k <= |names|
    ensures TolerantRun(names, fetch) == Blocks(Decoded(names[..k], fetch)) + TolerantRun(names[k..], fetch)
  {
    var before, after := names[..k], names[k..];
    assert TolerantRun(names, fetch) == TolerantRun(before, fetch) + TolerantRun(after, fetch) by {
      assert before + after == names;
      TolerantRunAppend(before, after, fetch);
    }
    TolerantRunIsBlocks(before, fetch);
  }

  /** Whatever fails, the strict cycle's connector samples are a prefix of the
      tolerant cycle's: both walk the list in order, and the strict one stops
      at the first failing fetch where the tolerant one skips it. */
  lemma StrictIsPrefixOfTolerant(list: Result<seq<string>>, fetch: string -> Result<Status>)
    ensures StrictSamples(list, fetch) <= TolerantSamples(list, fetch)
  {
    if list.Ok? {
      var names := list.value;
      StrictSamplesOk(names, fetch);
      TolerantSamplesOk(names, fetch);
      TolerantRunSplit(names, fetch, FirstFailure(names, fetch));
    }
  }

  /** A strict `up = 1` implies a tolerant `up = 1`; the converse fails as soon
      as one status fetch fails. */
  lemma StrictUpImpliesTolerantUp(list: Result<seq<string>>, fetch: string -> Result<Status>)
    ensures var r := StrictCycle(list, fetch);
      |r| >= 1 && (r[|r| - 1] == Up(1) ==> TolerantCycle(list, fetch)[0] == Up(1))
  {
    StrictUpValue(list, fetch);
    TolerantCycleStartsWithUp(list, fetch);
  }

  /** A decoded list with a failing status fetch: the strict cycle reports
      `up = 0`, the tolerant one `up = 1`. */
  lemma UpDisagreesOnFailedFetch(names: seq<string>, fetch: string -> Result<Status>, k: nat)
    requires k < |names| && fetch(names[k]).Err?
    ensures var r := StrictCycle(Ok(names), fetch); |r| >= 1 && r[|r| - 1] == Up(0)
    ensures TolerantCycle(Ok(names), fetch)[0] == Up(1)
  {
    StrictUpValue(Ok(names), fetch);
    TolerantCycleStartsWithUp(Ok(names), fetch);
  }
}
