/** Vocabulary shared by both variants of the scrape cycle: the decoded
    status documents of the Kafka Connect REST API, the metric samples a
    cycle pushes onto its channel, and the label normalisation applied to
    them (lower-cased states, decimal task ids). */
module Metrics {

  /** How one request to the Kafka Connect REST API can fail: the GET
      itself, reading the body, or decoding the JSON in it. */
  datatype FetchError = GetFailed | ReadFailed | DecodeFailed

  datatype Result<T> = Ok(value: T) | Err(error: FetchError)

  /** The `connector` object of a status document. */
  datatype Connector = Connector(state: string, workerId: string)

  /** One element of the `tasks` array; `id` is taken as already converted
      from the wire's floating-point number to an integer. */
  datatype Task = Task(state: string, id: int, workerId: string)

  /** A decoded `/connectors/<name>/status` document. */
  datatype Status = Status(name: string, connector: Connector, tasks: seq<Task>)

  /** A metric pushed onto the collector's channel:
      `kafka_connect_connector_state{connector, state, worker_id} = 1`,
      `kafka_connect_connector_task_state{connector, state, worker_id, task_id} = 1`,
      or the `kafka_connect_up` gauge with its value at the time it is sent. */
  datatype Sample =
    | ConnState(connector: string, state: string, worker: string)
    | TaskState(connector: string, state: string, worker: string, taskId: string)
    | Up(value: int)

  // ---------------------------------------------------------------------
  // strings.ToLower, restricted to ASCII

  predicate IsUpper(c: char) {
    'A' <= c <= 'Z'
  }

  predicate IsLowerCase(s: string) {
    forall i :: 0 <= i < |s| ==> !IsUpper(s[i])
  }

  function LowerChar(c: char): char {
    if IsUpper(c) then (c as int + 32) as char else c
  }

  function Lower(s: string): string {
    if s == [] then [] else [LowerChar(s[0])] + Lower(s[1..])
  }

  /** `Lower` lower-cases every ASCII capital and leaves every other
      character as it is. */
  lemma {:induction false} LowerSpec(s: string)
    ensures |Lower(s)| == |s| && IsLowerCase(Lower(s))
    ensures forall i :: 0 <= i < |s| && !IsUpper(s[i]) ==> Lower(s)[i] == s[i]
    ensures forall i :: 0 <= i < |s| && IsUpper(s[i]) ==> Lower(s)[i] as int == s[i] as int + 32
  {
    if s != [] {
      LowerSpec(s[1..]);
      var r := Lower(s);
      assert forall i :: 1 <= i < |s| ==> r[i] == Lower(s[1..])[i - 1] && s[i] == s[1..][i - 1];
    }
  }

  /** A string with no capital in it is emitted unchanged. */
  lemma LowerKeepsLowerCase(s: string)
    requires IsLowerCase(s)
    ensures Lower(s) == s
  {
    LowerSpec(s);
    var r := Lower(s);
    assert forall i :: 0 <= i < |s| ==> r[i] == s[i];
  }

  /** Lower-casing twice is lower-casing once. */
  lemma LowerIdempotent(s: string)
    ensures Lower(Lower(s)) == Lower(s)
  {
    LowerSpec(s);
    LowerKeepsLowerCase(Lower(s));
  }

  // ---------------------------------------------------------------------
  // fmt.Sprintf("%d", n)

  predicate IsDigit(c: char) {
    '0' <= c <= '9'
  }

  function DigitChar(d: nat): (c: char)
    requires d < 10
    ensures IsDigit(c) && c as int - '0' as int == d
  {
    ('0' as int + d) as char
  }

  /** The decimal digits of `n`, most significant first. */
  function NatDigits(n: nat): string
    decreases n
  {
    if n < 10 then [DigitChar(n)] else NatDigits(n / 10) + [DigitChar(n % 10)]
  }

  /** Go's `%d` verb on an integer: a minus sign before the digits of a negative value. */
  function DecimalString(n: int): string {
    if n < 0 then "-" + NatDigits(-n) else NatDigits(n)
  }

  /** `NatDigits` gives a non-empty string of digits without leading zeros. */
  lemma {:induction false} NatDigitsSpec(n: nat)
    ensures |NatDigits(n)| >= 1
    ensures forall i :: 0 <= i < |NatDigits(n)| ==> IsDigit(NatDigits(n)[i])
    ensures NatDigits(n)[0] == '0' ==> n == 0 && NatDigits(n) == "0"
    decreases n
  {
    if n >= 10 {
      NatDigitsSpec(n / 10);
      var r, q := NatDigits(n), NatDigits(n / 10);
      assert r[0] == q[0];
      assert forall i :: 0 <= i < |q| ==> r[i] == q[i];
    }
  }

  /** The task id label is a minus sign exactly for a negative id, then digits. */
  lemma DecimalSpec(n: int)
    ensures |DecimalString(n)| >= 1
    ensures DecimalString(n)[0] == '-' <==> n < 0
    ensures forall i :: (if n < 0 then 1 else 0) <= i < |DecimalString(n)| ==> IsDigit(DecimalString(n)[i])
  {
    if n < 0 {
      NatDigitsSpec(-n);
      var r := DecimalString(n);
      assert forall i :: 1 <= i < |r| ==> r[i] == NatDigits(-n)[i - 1];
    } else {
      NatDigitsSpec(n);
    }
  }

  /** Reads a string of decimal digits back (the reference for `NatDigits`). */
  function ParseNat(s: string): int {
    if s == [] then 0 else ParseNat(s[..|s| - 1]) * 10 + (s[|s| - 1] as int - '0' as int)
  }

  /** Reads an optionally negative decimal back (the reference for `DecimalString`). */
  function ParseDecimal(s: string): int {
    if |s| > 0 && s[0] == '-' then -ParseNat(s[1..]) else ParseNat(s)
  }

  lemma {:induction false} NatDigitsRoundTrip(n: nat)
    ensures ParseNat(NatDigits(n)) == n
    decreases n
  {
    if n >= 10 {
      var r := NatDigits(n);
      assert r[..|r| - 1] == NatDigits(n / 10);
      NatDigitsRoundTrip(n / 10);
    }
  }

  /** The task id label can be read back to the task id. */
  lemma DecimalRoundTrip(n: int)
    ensures ParseDecimal(DecimalString(n)) == n
  {
    if n < 0 {
      NatDigitsRoundTrip(-n);
      assert DecimalString(n)[1..] == NatDigits(-n);
    } else {
      NatDigitsSpec(n);
      NatDigitsRoundTrip(n);
    }
  }

  /** Distinct task ids give distinct task id labels. */
  lemma DecimalInjective(m: int, n: int)
    requires DecimalString(m) == DecimalString(n)
    ensures m == n
  {
    DecimalRoundTrip(m);
    DecimalRoundTrip(n);
  }

  // ---------------------------------------------------------------------
  // The samples one decoded status document gives rise to

  function ConnSample(s: Status): Sample {
    ConnState(s.name, Lower(s.connector.state), s.connector.workerId)
  }

  function TaskSample(name: string, t: Task): Sample {
    TaskState(name, Lower(t.state), t.workerId, DecimalString(t.id))
  }

  /** One task sample per task, in task order. */
  function TaskSamples(name: string, ts: seq<Task>): seq<Sample> {
    if ts == [] then [] else [TaskSample(name, ts[0])] + TaskSamples(name, ts[1..])
  }

  lemma {:induction false} TaskSamplesAt(name: string, ts: seq<Task>)
    ensures |TaskSamples(name, ts)| == |ts|
    ensures forall j :: 0 <= j < |ts| ==> TaskSamples(name, ts)[j] == TaskSample(name, ts[j])
  {
    if ts != [] {
      TaskSamplesAt(name, ts[1..]);
    }
  }

  /** Extending the task list by one task extends the task samples by its sample. */
  lemma TaskSamplesSnoc(name: string, ts: seq<Task>, t: Task)
    ensures TaskSamples(name, ts + [t]) == TaskSamples(name, ts) + [TaskSample(name, t)]
  {
    var a, b := TaskSamples(name, ts + [t]), TaskSamples(name, ts) + [TaskSample(name, t)];
    TaskSamplesAt(name, ts + [t]);
    TaskSamplesAt(name, ts);
    forall j | 0 <= j < |a| ensures a[j] == b[j] {
      assert (ts + [t])[j] == if j < |ts| then ts[j] else t;
    }
  }

  /** What one decoded connector contributes: its connector sample, then its task samples. */
  function Block(s: Status): seq<Sample> {
    [ConnSample(s)] + TaskSamples(s.name, s.tasks)
  }

  predicate UpFree(r: seq<Sample>) {
    forall i :: 0 <= i < |r| ==> !r[i].Up?
  }

  /** The labels of a block: every sample carries the status document's own
      name as its connector label, a lower-cased state and the worker id as
      given; the k-th task sample carries the k-th task's id in decimal. */
  lemma BlockLabels(s: Status)
    ensures |Block(s)| == 1 + |s.tasks| && UpFree(Block(s))
    ensures Block(s)[0] == ConnState(s.name, Lower(s.connector.state), s.connector.workerId)
    ensures forall j :: 0 <= j < |s.tasks| ==>
      Block(s)[1 + j] == TaskState(s.name, Lower(s.tasks[j].state), s.tasks[j].workerId, DecimalString(s.tasks[j].id))
    ensures forall k :: 0 <= k < |Block(s)| ==> Block(s)[k].connector == s.name && IsLowerCase(Block(s)[k].state)
  {
    var b, ts := Block(s), TaskSamples(s.name, s.tasks);
    TaskSamplesAt(s.name, s.tasks);
    LowerSpec(s.connector.state);
    forall j | 0 <= j < |s.tasks| ensures b[1 + j] == TaskSample(s.name, s.tasks[j]) {
      assert b[1 + j] == ts[j];
    }
    forall k | 0 <= k < |b| ensures !b[k].Up? && b[k].connector == s.name && IsLowerCase(b[k].state) {
      if k > 0 {
        assert b[k] == TaskSample(s.name, s.tasks[k - 1]);
        LowerSpec(s.tasks[k - 1].state);
      }
    }
  }

  /** Concatenation regroups; stated once so that proofs need not rederive it
      element by element. */
  lemma AppendAssoc<T>(a: seq<T>, b: seq<T>, c: seq<T>)
    ensures (a + b) + c == a + (b + c)
  {
  }

  /** The blocks of a sequence of decoded connectors, in order. */
  function Blocks(ss: seq<Status>): seq<Sample> {
    if ss == [] then [] else Block(ss[0]) + Blocks(ss[1..])
  }

  lemma {:induction false} BlocksAppend(a: seq<Status>, b: seq<Status>)
    ensures Blocks(a + b) == Blocks(a) + Blocks(b)
  {
    if a != [] {
      assert (a + b)[0] == a[0] && (a + b)[1..] == a[1..] + b;
      BlocksAppend(a[1..], b);
      AppendAssoc(Block(a[0]), Blocks(a[1..]), Blocks(b));
    } else {
      assert a + b == b;
    }
  }

  /** Σ (1 + number of tasks) over the connectors. */
  function SampleCount(ss: seq<Status>): nat {
    if ss == [] then 0 else 1 + |ss[0].tasks| + SampleCount(ss[1..])
  }

  lemma {:induction false} BlocksShape(ss: seq<Status>)
    ensures |Blocks(ss)| == SampleCount(ss)
    ensures UpFree(Blocks(ss))
  {
    if ss != [] {
      BlockLabels(ss[0]);
      BlocksShape(ss[1..]);
    }
  }

  /** The decoded status documents among the answers to the status
      requests for `names`, in list order. */
  function Decoded(names: seq<string>, fetch: string -> Result<Status>): seq<Status> {
    if names == [] then []
    else
      var last := fetch(names[|names| - 1]);
      Decoded(names[..|names| - 1], fetch) + (if last.Ok? then [last.value] else [])
  }

  lemma {:induction false} DecodedAppend(a: seq<string>, b: seq<string>, fetch: string -> Result<Status>)
    ensures Decoded(a + b, fetch) == Decoded(a, fetch) + Decoded(b, fetch)
    decreases |b|
  {
    if b == [] {
      assert a + b == a;
    } else {
      var b', last := b[..|b| - 1], fetch(b[|b| - 1]);
      var tail := if last.Ok? then [last.value] else [];
      assert (a + b)[..|a + b| - 1] == a + b' && (a + b)[|a + b| - 1] == b[|b| - 1];
      assert Decoded(a + b, fetch) == Decoded(a + b', fetch) + tail;
      assert Decoded(b, fetch) == Decoded(b', fetch) + tail;
      DecodedAppend(a, b', fetch);
    }
  }

  /** When every request succeeds, the decoded documents are the answers, one per name. */
  lemma {:induction false} DecodedAllOk(names: seq<string>, fetch: string -> Result<Status>)
    requires forall i :: 0 <= i < |names| ==> fetch(names[i]).Ok?
    ensures |Decoded(names, fetch)| == |names|
    ensures forall i :: 0 <= i < |names| ==> Decoded(names, fetch)[i] == fetch(names[i]).value
  {
    if names != [] {
      var init := names[..|names| - 1];
      DecodedAllOk(init, fetch);
      assert forall i :: 0 <= i < |init| ==> Decoded(names, fetch)[i] == Decoded(init, fetch)[i];
    }
  }

  /** When every request fails, nothing is decoded. */
  lemma {:induction false} NothingDecoded(names: seq<string>, fetch: string -> Result<Status>)
    requires forall i :: 0 <= i < |names| ==> fetch(names[i]).Err?
    ensures Decoded(names, fetch) == []
  {
    if names != [] {
      NothingDecoded(names[..|names| - 1], fetch);
    }
  }

  /** Exactly one `up` sample, and it is the last one. */
  predicate EndsWithSoleUp(r: seq<Sample>) {
    |r| >= 1 && r[|r| - 1].Up? && UpFree(r[..|r| - 1])
  }

  /** Pushes the samples of one decoded connector onto the channel `ch`. */
  method SendStatus(ch: seq<Sample>, s: Status) returns (out: seq<Sample>)
    ensures out == ch + Block(s)
  {
    out := ch + [ConnSample(s)];
    ghost var head := out;
    for j := 0 to |s.tasks|
      invariant out == head + TaskSamples(s.name, s.tasks[..j])
    {
      var t := s.tasks[j];
      out := out + [TaskSample(s.name, t)];
      assert s.tasks[..j + 1] == s.tasks[..j] + [t];
      TaskSamplesSnoc(s.name, s.tasks[..j], t);
    }
    assert s.tasks[..|s.tasks|] == s.tasks;
  }
}
