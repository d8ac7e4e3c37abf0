/**
 * Messages from the backend process, the execution state they drive, and the
 * coalescing of consecutive `ProgramOutput` messages performed when the
 * front end takes a message off the proxy's queue.
 *
 * A message is what the codec decodes a line into: a `message_type` and its
 * other keys, kept as an opaque map so that unknown keys pass through.
 */
module Messages {
  import opened Wrappers
  import opened PyStr

  datatype Message = Message(messageType: string, fields: map<string, string>)

  /** The execution states of the backend proxy. */
  datatype State = Running | WaitingInput | WaitingToplevelCommand | WaitingDebugCommand

  predicate IsOutput(m: Message) {
    m.messageType == "ProgramOutput"
  }

  /** What the codec guarantees of a `ProgramOutput` message: it names its stream and carries data. */
  predicate WellFormed(m: Message) {
    IsOutput(m) ==> "stream_name" in m.fields && "data" in m.fields
  }

  predicate AllWellFormed(q: seq<Message>) {
    forall i :: 0 <= i < |q| ==> WellFormed(q[i])
  }

  function Stream(m: Message): string
    requires IsOutput(m) && WellFormed(m)
  {
    m.fields["stream_name"]
  }

  function Data(m: Message): string
    requires IsOutput(m) && WellFormed(m)
  {
    m.fields["data"]
  }

  /** `m` with its `data` replaced; every other key is kept. */
  function WithData(m: Message, data: string): (r: Message)
    requires IsOutput(m) && WellFormed(m)
    ensures IsOutput(r) && WellFormed(r) && Stream(r) == Stream(m) && Data(r) == data
    ensures r.messageType == m.messageType && r.fields.Keys == m.fields.Keys
  {
    m.(fields := m.fields["data" := data])
  }

  /** `next` may be merged into the output message `head`: same type, same stream. */
  predicate Absorbs(head: Message, next: Message)
    requires IsOutput(head) && WellFormed(head) && WellFormed(next)
  {
    IsOutput(next) && Stream(next) == Stream(head)
  }

  /** Number of leading messages of `q` that `head` absorbs. */
  function RunLength(head: Message, q: seq<Message>): (n: nat)
    requires IsOutput(head) && WellFormed(head) && AllWellFormed(q)
    ensures n <= |q|
    ensures forall i :: 0 <= i < n ==> Absorbs(head, q[i])
    ensures n < |q| ==> !Absorbs(head, q[n])
  {
    if q == [] || !Absorbs(head, q[0]) then 0 else 1 + RunLength(head, q[1..])
  }

  predicate AllOutputs(ms: seq<Message>) {
    forall i :: 0 <= i < |ms| ==> IsOutput(ms[i]) && WellFormed(ms[i])
  }

  /** The `data` of the output messages `ms`, concatenated in order. */
  function ConcatData(ms: seq<Message>): string
    requires AllOutputs(ms)
  {
    if ms == [] then "" else ConcatData(ms[..|ms| - 1]) + Data(ms[|ms| - 1])
  }

  /** An output message with its own data back in place is unchanged. */
  lemma WithOwnData(h: Message)
    requires IsOutput(h) && WellFormed(h)
    ensures WithData(h, Data(h) + ConcatData([])) == h
  {
    assert Data(h) + "" == Data(h);
    assert h.fields["data" := Data(h)] == h.fields;
  }

  /** Appending the data of the next output to a merged message extends the run it carries by one. */
  lemma AbsorbOne(h: Message, tail: seq<Message>, k: nat)
    requires IsOutput(h) && WellFormed(h) && k < |tail| && AllOutputs(tail[..k])
    requires IsOutput(tail[k]) && WellFormed(tail[k])
    ensures AllOutputs(tail[..k + 1])
    ensures var m := WithData(h, Data(h) + ConcatData(tail[..k]));
      m.(fields := m.fields["data" := m.fields["data"] + tail[k].fields["data"]])
        == WithData(h, Data(h) + ConcatData(tail[..k + 1]))
  {
    var ext := tail[..k + 1];
    assert ext[..|ext| - 1] == tail[..k];
    var before := Data(h) + ConcatData(tail[..k]);
    assert before + Data(tail[k]) == Data(h) + ConcatData(ext);
    assert h.fields["data" := before]["data" := before + Data(tail[k])] == h.fields["data" := before + Data(tail[k])];
  }

  /**
   * Taking one message off a non-empty queue: the front message, and when it
   * is a `ProgramOutput`, merged with every immediately following output of
   * the same stream; together with what remains queued.
   */
  function Coalesce(q: seq<Message>): (r: (Message, seq<Message>))
    requires q != [] && AllWellFormed(q)
    ensures WellFormed(r.0) && AllWellFormed(r.1) && |r.1| < |q|
    ensures r.0.messageType == q[0].messageType
  {
    if !IsOutput(q[0]) then (q[0], q[1..])
    else
      var n := RunLength(q[0], q[1..]);
      (WithData(q[0], Data(q[0]) + ConcatData(q[1..1 + n])), q[1 + n..])
  }

  /** The coalesced front of a queue whose output head absorbs exactly `k` messages. */
  lemma CoalesceOfRun(queue: seq<Message>, k: nat)
    requires queue != [] && AllWellFormed(queue) && IsOutput(queue[0])
    requires k <= |queue| - 1 && (forall i :: 0 <= i < k ==> Absorbs(queue[0], queue[1..][i]))
    requires k < |queue| - 1 ==> !Absorbs(queue[0], queue[1..][k])
    ensures AllOutputs(queue[1..][..k])
    ensures Coalesce(queue) == (WithData(queue[0], Data(queue[0]) + ConcatData(queue[1..][..k])), queue[1..][k..])
  {
    var tail := queue[1..];
    var n := RunLength(queue[0], tail);
    assert k == n;
    assert tail[..k] == queue[1..1 + k] && tail[k..] == queue[1 + k..];
  }

  /**
   * The loop of `_fetch_next_message` for an output message `head`: pop
   * the following outputs of its stream off `tail` and merge their data,
   * putting the first message that does not match back at the front. The
   * merged message carries the data of the `k` messages taken, all of which
   * `head` absorbs; the message after them, if any, it does not.
   */
  method AbsorbRun(head: Message, tail: seq<Message>) returns (m: Message, q: seq<Message>)
    requires IsOutput(head) && WellFormed(head) && AllWellFormed(tail)
    ensures var k := |tail| - |q|;
      && 0 <= k && q == tail[k..]
      && (forall i :: 0 <= i < k ==> Absorbs(head, tail[i]))
      && (k < |tail| ==> !Absorbs(head, tail[k]))
      && AllOutputs(tail[..k])
      && m == WithData(head, Data(head) + ConcatData(tail[..k]))
  {
    m := head;
    q := tail;
    ghost var k := 0;
    WithOwnData(head);
    while q != []
      invariant 0 <= k <= |tail| && q == tail[k..]
      invariant forall i :: 0 <= i < k ==> Absorbs(head, tail[i])
      invariant AllOutputs(tail[..k])
      invariant m == WithData(head, Data(head) + ConcatData(tail[..k]))
      decreases |q|
    {
      var next := q[0];
      assert next == tail[k] && q[1..] == tail[k + 1..];
      q := q[1..];
      if next.messageType == "ProgramOutput" && next.fields["stream_name"] == m.fields["stream_name"] {
        AbsorbOne(head, tail, k);
        m := m.(fields := m.fields["data" := m.fields["data"] + next.fields["data"]]);
        k := k + 1;
      } else {
        assert !Absorbs(head, tail[k]);
        q := [next] + q;
        assert q == tail[k..];
        break;
      }
    }
    assert k == |tail| - |q|;
  }

  /** `_fetch_next_message` on a non-empty queue: the front message, merged with the outputs that follow it when it is output. */
  method CoalesceFront(queue: seq<Message>) returns (m: Message, q: seq<Message>)
    requires queue != [] && AllWellFormed(queue)
    ensures (m, q) == Coalesce(queue)
  {
    m := queue[0];
    q := queue[1..];
    if m.messageType == "ProgramOutput" {
      m, q := AbsorbRun(m, q);
      CoalesceOfRun(queue, |queue[1..]| - |q|);
    }
  }

  /**
   * Coalescing loses and reorders nothing: the queue was the front message,
   * then the absorbed outputs, then what remains; the result carries their
   * data in queue order; and the first remaining message could not be absorbed.
   */
  lemma CoalesceDecomposes(q: seq<Message>)
    requires q != [] && AllWellFormed(q)
    ensures var (m, rest) := Coalesce(q);
      var n := |q| - 1 - |rest|;
      && 0 <= n && q == [q[0]] + q[1..1 + n] + rest
      && (!IsOutput(q[0]) ==> n == 0 && m == q[0])
      && (IsOutput(q[0]) ==>
            && AllOutputs(q[1..1 + n])
            && (forall i :: 1 <= i <= n ==> Stream(q[i]) == Stream(q[0]))
            && m == WithData(q[0], Data(q[0]) + ConcatData(q[1..1 + n]))
            && (rest == [] || !Absorbs(q[0], rest[0])))
  {
    CoalesceParts(q);
    CoalesceStops(q);
    if IsOutput(q[0]) {
      CoalesceRun(q);
    }
  }

  /** The queue is the front message, the absorbed messages and the rest; nothing is absorbed by a non-output. */
  lemma CoalesceParts(q: seq<Message>)
    requires q != [] && AllWellFormed(q)
    ensures var n := |q| - 1 - |Coalesce(q).1|;
      && 0 <= n && q == [q[0]] + q[1..1 + n] + Coalesce(q).1
      && (!IsOutput(q[0]) ==> n == 0 && Coalesce(q).0 == q[0])
  {
    if IsOutput(q[0]) {
      var n := RunLength(q[0], q[1..]);
      assert q == [q[0]] + q[1..1 + n] + q[1 + n..];
    } else {
      assert q == [q[0]] + q[1..1] + q[1..];
    }
  }

  /** The messages an output absorbs are outputs of its stream, and their data follows its own. */
  lemma CoalesceRun(q: seq<Message>)
    requires q != [] && AllWellFormed(q) && IsOutput(q[0])
    ensures var n := |q| - 1 - |Coalesce(q).1|;
      && 0 <= n && AllOutputs(q[1..1 + n])
      && (forall i :: 1 <= i <= n ==> Stream(q[i]) == Stream(q[0]))
      && Coalesce(q).0 == WithData(q[0], Data(q[0]) + ConcatData(q[1..1 + n]))
  {
    var n := RunLength(q[0], q[1..]);
    assert |q[1 + n..]| == |q| - 1 - n;
    forall i | 1 <= i <= n ensures Stream(q[i]) == Stream(q[0]) {
      assert q[i] == q[1..][i - 1];
    }
    assert q[1..1 + n] == q[1..][..n];
  }

  /** The text written to stream `s`: the data of its output messages, in order. */
  function StreamText(q: seq<Message>, s: string): string
    requires AllWellFormed(q)
  {
    if q == [] then ""
    else (if IsOutput(q[0]) && Stream(q[0]) == s then Data(q[0]) else "") + StreamText(q[1..], s)
  }

  /** The messages that are not program output, in order. */
  function Others(q: seq<Message>): seq<Message> {
    if q == [] then [] else (if IsOutput(q[0]) then [] else [q[0]]) + Others(q[1..])
  }

  lemma AllWellFormedAppend(a: seq<Message>, b: seq<Message>)
    requires AllWellFormed(a) && AllWellFormed(b)
    ensures AllWellFormed(a + b)
  {
    forall i | 0 <= i < |a + b| ensures WellFormed((a + b)[i]) {
      if i >= |a| { assert (a + b)[i] == b[i - |a|]; }
    }
  }

  /** The text of a stream in two queues laid end to end is the text in the first, then in the second. */
  lemma {:induction false} StreamTextAppend(a: seq<Message>, b: seq<Message>, s: string)
    requires AllWellFormed(a) && AllWellFormed(b)
    ensures AllWellFormed(a + b)
    ensures StreamText(a + b, s) == StreamText(a, s) + StreamText(b, s)
    decreases |a|
  {
    AllWellFormedAppend(a, b);
    if a == [] {
      assert a + b == b;
    } else {
      var h := if IsOutput(a[0]) && Stream(a[0]) == s then Data(a[0]) else "";
      assert (a + b)[0] == a[0] && (a + b)[1..] == a[1..] + b;
      StreamTextAppend(a[1..], b, s);
      calc {
        StreamText(a + b, s);
        h + StreamText(a[1..] + b, s);
        h + (StreamText(a[1..], s) + StreamText(b, s));
        { AppendAssoc(h, StreamText(a[1..], s), StreamText(b, s)); }
        (h + StreamText(a[1..], s)) + StreamText(b, s);
      }
    }
  }

  lemma {:induction false} OthersAppend(a: seq<Message>, b: seq<Message>)
    ensures Others(a + b) == Others(a) + Others(b)
  {
    if a == [] {
      assert a + b == b;
    } else {
      assert (a + b)[0] == a[0] && (a + b)[1..] == a[1..] + b;
      OthersAppend(a[1..], b);
    }
  }

  /** Outputs of one stream contribute their concatenated data to that stream and nothing to the others. */
  lemma {:induction false} StreamTextOfRun(ms: seq<Message>, st: string, s: string)
    requires AllOutputs(ms) && forall i :: 0 <= i < |ms| ==> Stream(ms[i]) == st
    ensures AllWellFormed(ms)
    ensures StreamText(ms, s) == if s == st then ConcatData(ms) else ""
    ensures Others(ms) == []
    decreases |ms|
  {
    if ms != [] {
      var init, last := ms[..|ms| - 1], ms[|ms| - 1];
      assert ms == init + [last];
      assert AllOutputs(init) && forall i :: 0 <= i < |init| ==> Stream(init[i]) == st by {
        forall i | 0 <= i < |init| ensures init[i] == ms[i] { }
      }
      StreamTextOfRun(init, st, s);
      StreamTextAppend(init, [last], s);
      OthersAppend(init, [last]);
      SingleText(last, s);
      assert ConcatData(ms) == ConcatData(init) + Data(last);
    }
  }

  /** An output followed by a run of its stream gives one merged message the same text and no other messages. */
  lemma HeadRunPreserves(h: Message, run: seq<Message>, rest: seq<Message>, s: string)
    requires IsOutput(h) && WellFormed(h) && AllOutputs(run) && AllWellFormed(rest)
    requires forall i :: 0 <= i < |run| ==> Stream(run[i]) == Stream(h)
    ensures AllWellFormed([h] + run + rest)
    ensures var m := WithData(h, Data(h) + ConcatData(run));
      && StreamText([h] + run + rest, s) == StreamText([m], s) + StreamText(rest, s)
      && Others([h] + run + rest) == Others([m]) + Others(rest)
  {
    var m := WithData(h, Data(h) + ConcatData(run));
    StreamTextOfRun(run, Stream(h), s);
    StreamTextAppend([h], run, s);
    OthersAppend([h], run);
    StreamTextAppend([h] + run, rest, s);
    OthersAppend([h] + run, rest);
    SingleText(m, s);
    SingleText(h, s);
  }

  /** Taking a coalesced message off the queue preserves every stream's text and the other messages. */
  lemma CoalescePreserves(q: seq<Message>, s: string)
    requires q != [] && AllWellFormed(q)
    ensures StreamText(q, s) == StreamText([Coalesce(q).0], s) + StreamText(Coalesce(q).1, s)
    ensures Others(q) == Others([Coalesce(q).0]) + Others(Coalesce(q).1)
  {
    var rest := Coalesce(q).1;
    CoalesceParts(q);
    var run := q[1..1 + (|q| - 1 - |rest|)];
    if IsOutput(q[0]) {
      CoalesceRun(q);
      forall i | 0 <= i < |run| ensures Stream(run[i]) == Stream(q[0]) {
        assert run[i] == q[1 + i];
      }
      HeadRunPreserves(q[0], run, rest, s);
    } else {
      assert run == [] && [q[0]] + run == [q[0]];
      StreamTextAppend([q[0]], rest, s);
      OthersAppend([q[0]], rest);
    }
  }

  lemma SingleText(m: Message, s: string)
    requires WellFormed(m)
    ensures StreamText([m], s) == if IsOutput(m) && Stream(m) == s then Data(m) else ""
    ensures Others([m]) == if IsOutput(m) then [] else [m]
  {
    assert [m][1..] == [];
  }

  /** What the front end receives when it drains the whole queue, one coalesced message at a time. */
  function Drain(q: seq<Message>): (r: seq<Message>)
    requires AllWellFormed(q)
    ensures AllWellFormed(r)
    ensures q == [] <==> r == []
    decreases |q|
  {
    if q == [] then [] else [Coalesce(q).0] + Drain(Coalesce(q).1)
  }

  /** Draining preserves the text of every stream and every non-output message, in order. */
  lemma {:induction false} DrainPreserves(q: seq<Message>, s: string)
    requires AllWellFormed(q)
    ensures StreamText(Drain(q), s) == StreamText(q, s)
    ensures Others(Drain(q)) == Others(q)
    decreases |q|
  {
    if q != [] {
      var (m, rest) := Coalesce(q);
      CoalescePreserves(q, s);
      DrainPreserves(rest, s);
      StreamTextAppend([m], Drain(rest), s);
      OthersAppend([m], Drain(rest));
    }
  }

  /** No message of `d` could absorb the one after it. */
  predicate FullyCoalesced(d: seq<Message>)
    requires AllWellFormed(d)
  {
    forall i :: 0 <= i < |d| - 1 && IsOutput(d[i]) ==> !Absorbs(d[i], d[i + 1])
  }

  /** A message that cannot absorb the front of a fully coalesced sequence keeps it fully coalesced. */
  lemma MaximalCons(m: Message, e: seq<Message>)
    requires WellFormed(m) && AllWellFormed(e) && FullyCoalesced(e)
    requires e != [] && IsOutput(m) ==> !Absorbs(m, e[0])
    ensures AllWellFormed([m] + e) && FullyCoalesced([m] + e)
  {
    var d := [m] + e;
    forall i | 0 <= i < |d| - 1 && IsOutput(d[i]) ensures !Absorbs(d[i], d[i + 1]) {
      if i > 0 {
        assert d[i] == e[i - 1] && d[i + 1] == e[i];
      }
    }
  }

  /** The coalesced message is output exactly when the front message is, and then of the same stream. */
  lemma CoalesceHead(q: seq<Message>)
    requires q != [] && AllWellFormed(q)
    ensures IsOutput(Coalesce(q).0) <==> IsOutput(q[0])
    ensures IsOutput(q[0]) ==> Stream(Coalesce(q).0) == Stream(q[0])
  {
  }

  /** The message left at the front after coalescing could not have been absorbed. */
  lemma CoalesceStops(q: seq<Message>)
    requires q != [] && AllWellFormed(q)
    ensures var (m, rest) := Coalesce(q); rest != [] && IsOutput(m) ==> !Absorbs(m, rest[0])
  {
    if IsOutput(q[0]) {
      var n := RunLength(q[0], q[1..]);
      if 1 + n < |q| {
        assert q[1 + n..][0] == q[1..][n];
      }
    }
  }

  /** After draining, no two neighbouring messages are outputs of the same stream: coalescing was complete. */
  lemma {:induction false} DrainIsMaximal(q: seq<Message>)
    requires AllWellFormed(q)
    ensures FullyCoalesced(Drain(q))
    decreases |q|
  {
    if q != [] {
      var (m, rest) := Coalesce(q);
      DrainIsMaximal(rest);
      CoalesceStops(q);
      if rest != [] {
        CoalesceHead(rest);
      }
      MaximalCons(m, Drain(rest));
    }
  }

  /** The state after the front end has seen message `m`. */
  function NextState(st: Option<State>, m: Message): Option<State> {
    if m.messageType == "ToplevelResult" then Some(WaitingToplevelCommand)
    else if m.messageType == "DebuggerProgress" then Some(WaitingDebugCommand)
    else if m.messageType == "InputRequest" then Some(WaitingInput)
    else st
  }

  /** The state after seeing each of `ms` in turn. */
  function StateAfter(st: Option<State>, ms: seq<Message>): Option<State>
    decreases |ms|
  {
    if ms == [] then st else StateAfter(NextState(st, ms[0]), ms[1..])
  }

  /** Only the three reply types move the state, and each always to the same state. */
  lemma NextStateMoves(st: Option<State>, m: Message)
    ensures NextState(st, m) != st ==>
      m.messageType in {"ToplevelResult", "DebuggerProgress", "InputRequest"}
    ensures m.messageType == "ToplevelResult" <==> NextState(None, m) == Some(WaitingToplevelCommand) == NextState(Some(Running), m)
    ensures m.messageType == "DebuggerProgress" <==> NextState(None, m) == Some(WaitingDebugCommand) == NextState(Some(Running), m)
    ensures m.messageType == "InputRequest" <==> NextState(None, m) == Some(WaitingInput) == NextState(Some(Running), m)
  {
  }

  lemma {:induction false} StateAfterAppend(st: Option<State>, a: seq<Message>, b: seq<Message>)
    ensures StateAfter(st, a + b) == StateAfter(StateAfter(st, a), b)
    decreases |a|
  {
    if a != [] {
      assert (a + b)[0] == a[0] && (a + b)[1..] == a[1..] + b;
      StateAfterAppend(NextState(st, a[0]), a[1..], b);
    } else {
      assert a + b == b;
    }
  }

  /** Seeing one more message moves the state from where the earlier ones left it. */
  lemma StateAfterSnoc(st: Option<State>, ms: seq<Message>, m: Message)
    ensures StateAfter(st, ms + [m]) == NextState(StateAfter(st, ms), m)
  {
    StateAfterAppend(st, ms, [m]);
    assert [m][1..] == [];
  }

  lemma StateAfterCons(st: Option<State>, m: Message, ms: seq<Message>)
    ensures StateAfter(st, [m] + ms) == StateAfter(NextState(st, m), ms)
  {
    assert ([m] + ms)[1..] == ms;
  }

  /** Only the type of a message decides where it moves the state. */
  lemma NextStateByType(st: Option<State>, a: Message, b: Message)
    requires a.messageType == b.messageType
    ensures NextState(st, a) == NextState(st, b)
  {
  }

  /** A message followed by outputs leads to the state that message alone leads to. */
  lemma HeadRunKeepsState(st: Option<State>, m: Message, run: seq<Message>, rest: seq<Message>)
    requires forall i :: 0 <= i < |run| ==> IsOutput(run[i])
    ensures StateAfter(st, [m] + run + rest) == StateAfter(NextState(st, m), rest)
  {
    StateAfterAppend(st, [m] + run, rest);
    StateAfterCons(st, m, run);
    OutputsKeepState(NextState(st, m), run);
  }

  /** Taking one coalesced message off the queue leads to the state the raw messages it replaces would have. */
  lemma CoalesceKeepsState(st: Option<State>, q: seq<Message>)
    requires q != [] && AllWellFormed(q)
    ensures StateAfter(st, q) == StateAfter(NextState(st, Coalesce(q).0), Coalesce(q).1)
  {
    var rest := Coalesce(q).1;
    CoalesceParts(q);
    var run := q[1..1 + (|q| - 1 - |rest|)];
    if IsOutput(q[0]) {
      CoalesceRun(q);
    }
    HeadRunKeepsState(st, q[0], run, rest);
    NextStateByType(st, q[0], Coalesce(q).0);
  }

  /** Coalescing never changes the state the front end ends up in: merged outputs move no state. */
  lemma {:induction false} DrainKeepsState(st: Option<State>, q: seq<Message>)
    requires AllWellFormed(q)
    ensures StateAfter(st, Drain(q)) == StateAfter(st, q)
    decreases |q|
  {
    if q != [] {
      var (m, rest) := Coalesce(q);
      CoalesceKeepsState(st, q);
      DrainKeepsState(NextState(st, m), rest);
      StateAfterCons(st, m, Drain(rest));
    }
  }

  lemma {:induction false} OutputsKeepState(st: Option<State>, ms: seq<Message>)
    requires forall i :: 0 <= i < |ms| ==> IsOutput(ms[i])
    ensures StateAfter(st, ms) == st
    decreases |ms|
  {
    if ms != [] {
      OutputsKeepState(st, ms[1..]);
    }
  }

  /** A program output message of `stream` carrying `data`. */
  function Output(stream: string, data: string): (r: Message)
    ensures IsOutput(r) && WellFormed(r) && Stream(r) == stream && Data(r) == data
  {
    Message("ProgramOutput", map["stream_name" := stream, "data" := data])
  }

  /** Two outputs of one stream at the front of the queue come off as one message carrying both data. */
  lemma CoalesceTwo(st: string, a: string, b: string, rest: seq<Message>)
    requires AllWellFormed(rest)
    requires rest == [] || !IsOutput(rest[0]) || Stream(rest[0]) != st
    ensures AllWellFormed([Output(st, a), Output(st, b)] + rest)
    ensures Coalesce([Output(st, a), Output(st, b)] + rest) == (Output(st, a + b), rest)
  {
    var q := [Output(st, a), Output(st, b)] + rest;
    assert q[1..] == [Output(st, b)] + rest && q[1..][1..] == rest;
    assert RunLength(q[0], q[1..]) == 1;
    var run := q[1..2];
    assert run == [Output(st, b)] && run[..0] == [];
    assert ConcatData(run) == b;
    assert map["stream_name" := st, "data" := a]["data" := a + b] == map["stream_name" := st, "data" := a + b];
    assert q[2..] == rest;
  }

  /**
   * Outputs a, b on one stream, x on another, then c on the first drain as
   * a + b, x, c: only neighbours of the same stream are merged.
   */
  lemma ExampleQueue(out: string, err: string, a: string, b: string, x: string, c: string)
    requires out != err
    ensures Drain([Output(out, a), Output(out, b), Output(err, x), Output(out, c)])
      == [Output(out, a + b), Output(err, x), Output(out, c)]
  {
    var mc, mx := Output(out, c), Output(err, x);
    var last := [mc];
    var rest := [mx] + last;
    var q := [Output(out, a), Output(out, b)] + rest;
    assert q == [Output(out, a), Output(out, b), mx, mc];
    assert rest[1..] == last && last[1..] == [];
    calc {
      Drain(q);
      [Coalesce(q).0] + Drain(Coalesce(q).1);
      { CoalesceTwo(out, a, b, rest); }
      [Output(out, a + b)] + Drain(rest);
      { SingleCoalesce(rest); }
      [Output(out, a + b)] + ([mx] + Drain(last));
      { SingleCoalesce(last); }
      [Output(out, a + b)] + ([mx] + ([mc] + Drain([])));
      [Output(out, a + b), mx, mc];
    }
  }

  /** An output message no neighbour can join comes off the queue unchanged. */
  lemma SingleCoalesce(q: seq<Message>)
    requires q != [] && AllWellFormed(q)
    requires IsOutput(q[0]) ==> |q| == 1 || !Absorbs(q[0], q[1])
    ensures Coalesce(q) == (q[0], q[1..])
  {
    if IsOutput(q[0]) {
      assert RunLength(q[0], q[1..]) == 0;
      assert ConcatData(q[1..1]) == "";
      assert Data(q[0]) + "" == Data(q[0]);
      assert q[0].fields["data" := Data(q[0])] == q[0].fields;
    }
  }
}
