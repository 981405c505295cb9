/** A countdown that sleeps and writes, observed through spies standing in for the clock
    and the output. The countdown's effects are modelled as a trace of sleeps and writes,
    in the order they are issued. */
module Mocking {
  import opened Wrappers

  const FinalWord := "go"
  const CountdownStart := 3
  /** The names the operations spy records for each call. */
  const SleepCall := "sleep"
  const WriteCall := "write"

  /** One call the countdown makes: a sleep, or a write of some text. */
  datatype Effect = Sleep | Write(text: string)

  /** The decimal digits of a natural number, as fmt prints an int. */
  function Decimal(n: nat): string {
    if n < 10 then [('0' as int + n) as char] else Decimal(n / 10) + Decimal(n % 10)
  }

  /** The line Fprintln writes for `i`. */
  function Line(i: nat): string {
    Decimal(i) + "\n"
  }

  /** The text one effect writes. */
  function Text(e: Effect): string {
    if e.Write? then e.text else ""
  }

  /** The name an operations spy records for one effect. */
  function Call(e: Effect): string {
    if e.Sleep? then SleepCall else WriteCall
  }

  /** The text written by all the writes of a trace, in order. */
  function Written(trace: seq<Effect>): string {
    if trace == [] then "" else Written(trace[..|trace| - 1]) + Text(trace[|trace| - 1])
  }

  /** The calls an operations spy records for a trace, in order. */
  function SpyCalls(trace: seq<Effect>): seq<string> {
    if trace == [] then [] else SpyCalls(trace[..|trace| - 1]) + [Call(trace[|trace| - 1])]
  }

  /** How many sleeps a trace holds. */
  function SleepCount(trace: seq<Effect>): nat {
    if trace == [] then 0 else SleepCount(trace[..|trace| - 1]) + (if trace[|trace| - 1].Sleep? then 1 else 0)
  }

  /** Issuing one more effect extends each observation by that effect's part. */
  lemma Extend(trace: seq<Effect>, e: Effect)
    ensures Written(trace + [e]) == Written(trace) + Text(e)
    ensures SpyCalls(trace + [e]) == SpyCalls(trace) + [Call(e)]
    ensures SleepCount(trace + [e]) == SleepCount(trace) + (if e.Sleep? then 1 else 0)
  {
    assert (trace + [e])[..|trace|] == trace;
  }

  /** The lines the countdown writes before the final word, counting down from 3. */
  const Lines := "3\n2\n1\n"

  /** The line for `i` is what follows the lines already written for the counts above it. */
  lemma LineFollows(i: int)
    requires 1 <= i <= CountdownStart
    ensures Lines[..2 * (CountdownStart - i)] + Line(i) == Lines[..2 * (CountdownStart - i + 1)]
  {
    assert Decimal(1) == "1" && Decimal(2) == "2" && Decimal(3) == "3";
  }

  /** The calls the countdown makes as written: every sleep before any write. */
  const SequentialCalls := [SleepCall, SleepCall, SleepCall, WriteCall, WriteCall, WriteCall, WriteCall]

  lemma SleepFollows(n: int)
    requires 0 <= n < CountdownStart
    ensures SequentialCalls[..n] + [SleepCall] == SequentialCalls[..n + 1]
  {
  }

  lemma WriteFollows(n: int)
    requires CountdownStart <= n < |SequentialCalls|
    ensures SequentialCalls[..n] + [WriteCall] == SequentialCalls[..n + 1]
  {
  }

  /** Every sleep before any write is not the order the countdown test expects. */
  lemma SequentialIsNotInterleaved()
    ensures SequentialCalls != InterleavedCalls
  {
    assert SequentialCalls[0] != InterleavedCalls[0];
  }

  /** Sleeps once per count, then writes one line per count from the start down to 1, then
      the final word without a newline: three sleeps followed by four writes, which is not
      the order the countdown test expects. */
  method Countdown() returns (trace: seq<Effect>)
    ensures SleepCount(trace) == CountdownStart
    ensures Written(trace) == Lines + FinalWord
    ensures SpyCalls(trace) == SequentialCalls
    ensures SpyCalls(trace) != InterleavedCalls
  {
    trace := [];
    var i := CountdownStart;
    while i > 0
      invariant 0 <= i <= CountdownStart
      invariant SleepCount(trace) == CountdownStart - i
      invariant Written(trace) == ""
      invariant SpyCalls(trace) == SequentialCalls[..CountdownStart - i]
    {
      Extend(trace, Sleep);
      SleepFollows(CountdownStart - i);
      trace := trace + [Sleep];
      i := i - 1;
    }
    i := CountdownStart;
    while i > 0
      invariant 0 <= i <= CountdownStart
      invariant SleepCount(trace) == CountdownStart
      invariant Written(trace) == Lines[..2 * (CountdownStart - i)]
      invariant SpyCalls(trace) == SequentialCalls[..CountdownStart + CountdownStart - i]
    {
      Extend(trace, Write(Line(i)));
      LineFollows(i);
      WriteFollows(CountdownStart + CountdownStart - i);
      trace := trace + [Write(Line(i))];
      i := i - 1;
    }
    Extend(trace, Write(FinalWord));
    WriteFollows(6);
    trace := trace + [Write(FinalWord)];
    assert SequentialCalls[..7] == SequentialCalls;
    SequentialIsNotInterleaved();
  }

  /** The calls the countdown test expects: a write before each sleep, and the final write. */
  const InterleavedCalls := [WriteCall, SleepCall, WriteCall, SleepCall, WriteCall, SleepCall, WriteCall]

  /** The intended countdown: each line is written and followed by a sleep, then the final
      word. It writes the same text and sleeps as often, in the order the test expects. */
  method CountdownInterleaved() returns (trace: seq<Effect>)
    ensures SleepCount(trace) == CountdownStart
    ensures Written(trace) == Lines + FinalWord
    ensures SpyCalls(trace) == InterleavedCalls
  {
    trace := [];
    var i := CountdownStart;
    while i > 0
      invariant 0 <= i <= CountdownStart
      invariant SleepCount(trace) == CountdownStart - i
      invariant Written(trace) == Lines[..2 * (CountdownStart - i)]
      invariant SpyCalls(trace) == InterleavedCalls[..2 * (CountdownStart - i)]
    {
      ExtendBeat(trace, Line(i));
      LineFollows(i);
      BeatFollows(i);
      trace := trace + [Write(Line(i)), Sleep];
      i := i - 1;
    }
    Extend(trace, Write(FinalWord));
    trace := trace + [Write(FinalWord)];
  }

  /** A write followed by a sleep adds the text, one write call and one sleep call. */
  lemma ExtendBeat(trace: seq<Effect>, text: string)
    ensures Written(trace + [Write(text), Sleep]) == Written(trace) + text
    ensures SpyCalls(trace + [Write(text), Sleep]) == SpyCalls(trace) + [WriteCall, SleepCall]
    ensures SleepCount(trace + [Write(text), Sleep]) == SleepCount(trace) + 1
  {
    Extend(trace, Write(text));
    Extend(trace + [Write(text)], Sleep);
    assert trace + [Write(text)] + [Sleep] == trace + [Write(text), Sleep];
  }

  lemma BeatFollows(i: int)
    requires 1 <= i <= CountdownStart
    ensures InterleavedCalls[..2 * (CountdownStart - i)] + [WriteCall, SleepCall]
         == InterleavedCalls[..2 * (CountdownStart - i + 1)]
  {
  }

  /** A sleeper that counts its calls. */
  class SpySleeper {
    var calls: int

    constructor()
      ensures calls == 0
    {
      calls := 0;
    }

    method Sleep()
      modifies this
      ensures calls == old(calls) + 1
    {
      calls := calls + 1;
    }
  }

  /** A sleeper and writer in one that records each call's name, in order. */
  class SpyCountdownOperations {
    var calls: seq<string>

    constructor()
      ensures calls == []
    {
      calls := [];
    }

    method Sleep()
      modifies this
      ensures calls == old(calls) + [SleepCall]
    {
      calls := calls + [SleepCall];
    }

    /** Records the call and reports zero bytes written and no error. */
    method Write(p: string) returns (n: int, err: Option<string>)
      modifies this
      ensures calls == old(calls) + [WriteCall]
      ensures n == 0 && err == None
    {
      calls := calls + [WriteCall];
      n, err := 0, None;
    }
  }

  /** Issues every call of a trace to an operations spy, serving as both sleeper and writer. */
  method DeliverToOperations(trace: seq<Effect>, spy: SpyCountdownOperations)
    modifies spy
    ensures spy.calls == old(spy.calls) + SpyCalls(trace)
  {
    for i := 0 to |trace|
      invariant spy.calls == old(spy.calls) + SpyCalls(trace[..i])
    {
      Extend(trace[..i], trace[i]);
      assert trace[..i + 1] == trace[..i] + [trace[i]];
      match trace[i] {
        case Sleep => spy.Sleep();
        case Write(text) => var _, _ := spy.Write(text);
      }
    }
    assert trace[..|trace|] == trace;
  }

  /** Issues the sleeps of a trace to a counting sleeper. */
  method DeliverSleeps(trace: seq<Effect>, sleeper: SpySleeper)
    modifies sleeper
    ensures sleeper.calls == old(sleeper.calls) + SleepCount(trace)
  {
    for i := 0 to |trace|
      invariant sleeper.calls == old(sleeper.calls) + SleepCount(trace[..i])
    {
      Extend(trace[..i], trace[i]);
      assert trace[..i + 1] == trace[..i] + [trace[i]];
      if trace[i].Sleep? {
        sleeper.Sleep();
      }
    }
    assert trace[..|trace|] == trace;
  }

  /** The countdown tests, run on the intended countdown: the text written and the interleaved
      calls an operations spy records; the three sleeps a counting sleeper sees are a property
      of the countdown itself, which no test checks. */
  method CountdownScenario() returns (text: string, sleeps: int, calls: seq<string>)
    ensures text == Lines + FinalWord
    ensures sleeps == 3
    ensures calls == InterleavedCalls
  {
    var trace := CountdownInterleaved();
    text := Written(trace);
    var sleeper := new SpySleeper();
    DeliverSleeps(trace, sleeper);
    sleeps := sleeper.calls;
    var spy := new SpyCountdownOperations();
    DeliverToOperations(trace, spy);
    calls := spy.calls;
  }

  /** A clock that records the duration it was last asked to sleep, in nanoseconds. */
  class SpyTime {
    var durationSlept: int

    constructor()
      ensures durationSlept == 0
    {
      durationSlept := 0;
    }

    method Sleep(duration: int)
      modifies this
      ensures durationSlept == duration
    {
      durationSlept := duration;
    }
  }

  /** A sleeper that sleeps for a set duration on a given clock. */
  class ConfigurableSleeper {
    const duration: int
    const sleep: SpyTime

    constructor(duration: int, sleep: SpyTime)
      ensures this.duration == duration && this.sleep == sleep
    {
      this.duration := duration;
      this.sleep := sleep;
    }

    /** Hands its own duration to its clock. */
    method Sleep()
      modifies sleep
      ensures sleep.durationSlept == duration
    {
      sleep.Sleep(duration);
    }
  }

  /** The configurable sleeper test: five seconds reach the clock. */
  method ConfigurableSleeperScenario() returns (slept: int)
    ensures slept == 5 * 1_000_000_000
  {
    var spyTime := new SpyTime();
    var sleeper := new ConfigurableSleeper(5 * 1_000_000_000, spyTime);
    sleeper.Sleep();
    slept := spyTime.durationSlept;
  }
}
