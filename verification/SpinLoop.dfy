/** Waiting for a store with the monitor hardware: one waiter, any number of writers, every
    interleaving. A callback looks at the buffer in one step. */
module SpinLoop {

  const TWO32: int := 0x1_0000_0000

  /** The buffer's address and length, the size of a monitored line, whether the processor has the
      monitor instructions, the callback, and whether a timeout is set. */
  datatype Config = Config(buf: nat, len: nat, line: nat, monitor: bool, callback: seq<int> -> bool, timeout: bool)

  datatype Pc = Checking | Arming | Rechecking | Waiting | Pausing | Done(result: bool) | Failed

  /** `content` is what the buffer holds, `iteration` the 32-bit counter of passes, `since` the number
      of passes since the clock was last read. */
  datatype State = State(pc: Pc, content: seq<int>, armed: bool, triggered: bool, iteration: nat, since: nat)

  /** The waiter goes on (the clock may have run out, the callback or the clock may fail), the hardware
      wait ends by itself, or somebody stores to memory. */
  datatype Event = Go(expired: bool, fails: bool) | WaitEnds | Write(address: int, value: int)

  predicate UsesMonitor(c: Config) {
    c.len <= c.line && c.monitor
  }

  /** The address lies in the line that holds the start of the buffer. */
  predicate Monitored(c: Config, address: int)
    requires c.line > 0
  {
    c.buf - c.buf % c.line <= address < c.buf - c.buf % c.line + c.line
  }

  /** One pass up to the wait: callback, clock every 16 passes, counter. */
  function Check(c: Config, s: State, expired: bool): State {
    if c.callback(s.content) then s.(pc := Done(true))
    else
      var looks := c.timeout && s.iteration % 16 == 0;
      if looks && expired then s.(pc := Done(false), since := 0)
      else s.(pc := if UsesMonitor(c) then Arming else Pausing,
              iteration := (s.iteration + 1) % TWO32,
              since := if looks then 0 else s.since + 1)
  }

  function Step(c: Config, s: State, e: Event): State
    requires c.line > 0
  {
    match e
    case Go(expired, fails) =>
      (match s.pc
       case Checking => if fails then s.(pc := Failed) else Check(c, s, expired)
       case Arming => s.(pc := Rechecking, armed := true, triggered := false)
       case Rechecking =>
         if fails then s.(pc := Failed)
         else if c.callback(s.content) then s.(pc := Done(true)) else s.(pc := Waiting)
       case Waiting => if s.triggered then s.(pc := Checking, armed := false) else s
       case Pausing => s.(pc := Checking)
       case Done(_) => s
       case Failed => s)
    case WaitEnds =>
      if s.pc.Waiting? then s.(pc := Checking, armed := false) else s
    case Write(address, value) =>
      s.(content := if c.buf <= address < c.buf + |s.content| then s.content[address - c.buf := value] else s.content,
         triggered := s.triggered || (s.armed && Monitored(c, address)))
  }

  function Run(c: Config, s: State, events: seq<Event>): State
    requires c.line > 0
    decreases |events|
  {
    if events == [] then s else Run(c, Step(c, s, events[0]), events[1..])
  }

  ghost predicate Initial(c: Config, s: State) {
    s.pc.Checking? && |s.content| == c.len && !s.armed && !s.triggered && s.iteration == 0 && s.since == 0
  }

  // ---------------------------------------------------------------- no lost wakeup

  /** The waiter sleeps in the hardware wait, nothing has woken it, and yet the callback would say
      yes. */
  ghost predicate Lost(c: Config, s: State) {
    s.pc.Waiting? && !s.triggered && c.callback(s.content)
  }

  /** The whole buffer lies in the monitored line. */
  predicate InOneLine(buf: nat, len: nat, line: nat)
    requires line > 0
  {
    buf % line + len <= line
  }

  ghost predicate Inv(c: Config, s: State) {
    && |s.content| == c.len
    && (s.pc.Rechecking? || s.pc.Waiting? ==> s.armed)
    && !Lost(c, s)
  }

  lemma {:induction false} BufferMonitored(c: Config, address: int)
    requires c.line > 0 && InOneLine(c.buf, c.len, c.line) && c.buf <= address < c.buf + c.len
    ensures Monitored(c, address)
  {
  }

  lemma {:induction false} StepInv(c: Config, s: State, e: Event)
    requires c.line > 0 && Inv(c, s) && InOneLine(c.buf, c.len, c.line)
    ensures Inv(c, Step(c, s, e))
  {
    match e
    case Write(address, value) =>
      if c.buf <= address < c.buf + c.len { BufferMonitored(c, address); }
    case _ =>
  }

  lemma {:induction false} RunInv(c: Config, s: State, events: seq<Event>)
    requires c.line > 0 && Inv(c, s) && InOneLine(c.buf, c.len, c.line)
    ensures Inv(c, Run(c, s, events))
    decreases |events|
  {
    if events != [] {
      StepInv(c, s, events[0]);
      RunInv(c, Step(c, s, events[0]), events[1..]);
    }
  }

  /** With the buffer in one line no wakeup is lost, in any interleaving and for any callback. */
  lemma {:induction false} NoLostWakeup(c: Config, s: State, events: seq<Event>)
    requires c.line > 0 && Initial(c, s) && InOneLine(c.buf, c.len, c.line)
    ensures !Lost(c, Run(c, s, events))
  {
    RunInv(c, s, events);
  }

  ghost predicate LosesWakeup(c: Config, s: State, events: seq<Event>)
    requires c.line > 0
  {
    Initial(c, s) && Lost(c, Run(c, s, events))
  }

  /** The last byte of the buffer has been set. */
  function LastByteSet(content: seq<int>): bool {
    content != [] && content[|content|-1] == 1
  }

  /** The code accepts any buffer no longer than a line. One that crosses into the next line loses a
      wakeup: the last byte is stored after the second look, and the monitor does not see it. */
  lemma {:induction false} CrossingLosesWakeup(buf: nat, len: nat, line: nat)
    requires 0 < line && len <= line && !InOneLine(buf, len, line)
    ensures var c := Config(buf, len, line, true, LastByteSet, false);
            exists s, events :: LosesWakeup(c, s, events)
  {
    var c := Config(buf, len, line, true, LastByteSet, false);
    var s := State(Checking, seq(len, _ => 0), false, false, 0, 0);
    var go, store := Go(false, false), Write(buf + len - 1, 1);
    assert !Monitored(c, buf + len - 1);
    var s1 := Step(c, s, go);
    var s2 := Step(c, s1, go);
    var s3 := Step(c, s2, go);
    assert s3.pc.Waiting? && !s3.triggered && s3.content == s.content;
    var s4 := Step(c, s3, store);
    assert Lost(c, s4);
    var events := [go, go, go, store];
    FourSteps(c, s, go, go, go, store);
    assert LosesWakeup(c, s, events);
  }

  lemma {:induction false} FourSteps(c: Config, s: State, e1: Event, e2: Event, e3: Event, e4: Event)
    requires c.line > 0
    ensures Run(c, s, [e1, e2, e3, e4]) == Step(c, Step(c, Step(c, Step(c, s, e1), e2), e3), e4)
  {
    hide Step;
    var s1 := Step(c, s, e1);
    var s2 := Step(c, s1, e2);
    var s3 := Step(c, s2, e3);
    assert [e1, e2, e3, e4][1..] == [e2, e3, e4] && [e2, e3, e4][1..] == [e3, e4] && [e3, e4][1..] == [e4];
    assert Run(c, s3, [e4]) == Run(c, Step(c, s3, e4), [e4][1..]);
    assert Run(c, s2, [e3, e4]) == Run(c, s3, [e4]);
    assert Run(c, s1, [e2, e3, e4]) == Run(c, s2, [e3, e4]);
  }

  /** No lost wakeup, for all callbacks and all interleavings, exactly when the buffer lies in one
      line. */
  lemma {:induction false} NoLostWakeupExactly(buf: nat, len: nat, line: nat)
    requires 0 < line && len <= line
    ensures InOneLine(buf, len, line) <==>
            forall callback: seq<int> -> bool, timeout: bool, s: State, events: seq<Event> ::
              !LosesWakeup(Config(buf, len, line, true, callback, timeout), s, events)
  {
    if InOneLine(buf, len, line) {
      forall callback: seq<int> -> bool, timeout: bool, s: State, events: seq<Event>
        ensures !LosesWakeup(Config(buf, len, line, true, callback, timeout), s, events)
      {
        var c := Config(buf, len, line, true, callback, timeout);
        if Initial(c, s) { NoLostWakeup(c, s, events); }
      }
    } else {
      CrossingLosesWakeup(buf, len, line);
    }
  }

  /** Once the callback would say yes, two undisturbed steps of the waiter are enough to return true. */
  lemma {:induction false} Responsive(c: Config, s: State, events: seq<Event>, expired: bool, expired': bool)
    requires c.line > 0 && Initial(c, s) && InOneLine(c.buf, c.len, c.line)
    requires var now := Run(c, s, events); c.callback(now.content) && !now.pc.Done? && !now.pc.Failed?
    ensures Step(c, Step(c, Run(c, s, events), Go(expired, false)), Go(expired', false)).pc == Done(true)
  {
    RunInv(c, s, events);
  }

  // ---------------------------------------------------------------- the clock

  /** Passes since the clock was read follow the counter, also across its wrap-around. */
  ghost predicate ClockInv(c: Config, s: State) {
    c.timeout && !s.pc.Done? ==>
      s.iteration < TWO32 && (s.since == (s.iteration + 15) % 16 || (s.iteration == 0 && s.since == 0))
  }

  lemma {:induction false} ClockStep(c: Config, s: State, e: Event)
    requires c.line > 0 && ClockInv(c, s)
    ensures ClockInv(c, Step(c, s, e))
  {
    if s.iteration < TWO32 { NextPass(s.iteration); }
  }

  lemma {:induction false} NextPass(iteration: nat)
    requires iteration < TWO32
    ensures var next := (iteration + 1) % TWO32;
            next < TWO32 && (next + 15) % 16 == iteration % 16 &&
                (iteration % 16 != 0 ==> (iteration + 15) % 16 == iteration % 16 - 1)
  {
  }

  lemma {:induction false} ClockRun(c: Config, s: State, events: seq<Event>)
    requires c.line > 0 && ClockInv(c, s)
    ensures ClockInv(c, Run(c, s, events))
    decreases |events|
  {
    if events != [] {
      ClockStep(c, s, events[0]);
      ClockRun(c, Step(c, s, events[0]), events[1..]);
    }
  }

  /** With a timeout set, at most 15 passes go by without a look at the clock, however often the
      counter wraps. */
  lemma {:induction false} ClockEverySixteen(c: Config, s: State, events: seq<Event>)
    requires c.line > 0 && Initial(c, s) && c.timeout
    ensures var now := Run(c, s, events); !now.pc.Done? ==> now.since <= 15
  {
    ClockRun(c, s, events);
  }

  /** What a step may answer, and when: true only on a yes of the callback, false only on a look at an
      expired clock with no yes, failure only when a call fails; and each of these whenever it applies. */
  lemma {:induction false} StepAnswers(c: Config, s: State, e: Event)
    requires c.line > 0 && !s.pc.Done? && !s.pc.Failed?
    ensures var looks := s.pc.Checking? || s.pc.Rechecking?;
            && (Step(c, s, e).pc == Done(true) <==> looks && e.Go? && !e.fails && c.callback(s.content))
            && (Step(c, s, e).pc == Done(false) <==>
                  && s.pc.Checking? && e.Go? && !e.fails && !c.callback(s.content)
                  && c.timeout && s.iteration % 16 == 0 && e.expired)
            && (Step(c, s, e).pc.Failed? <==> looks && e.Go? && e.fails)
  {
  }

  /** The events of one pass in which nothing happens but the waiter going on. */
  function Pass(c: Config, expired: bool): seq<Event> {
    var go := Go(expired, false);
    if UsesMonitor(c) then [go, go, go, WaitEnds] else [go, go]
  }

  function Passes(c: Config, expired: bool, n: nat): seq<Event> {
    if n == 0 then [] else Pass(c, expired) + Passes(c, expired, n - 1)
  }

  lemma {:induction false} RunAppends(c: Config, s: State, first: seq<Event>, second: seq<Event>)
    requires c.line > 0
    ensures Run(c, s, first + second) == Run(c, Run(c, s, first), second)
    decreases |first|
  {
    hide Step;
    if first == [] {
      assert first + second == second;
    } else {
      assert (first + second)[0] == first[0] && (first + second)[1..] == first[1..] + second;
      RunAppends(c, Step(c, s, first[0]), first[1..], second);
    }
  }

  lemma {:induction false} TwoSteps(c: Config, s: State, e1: Event, e2: Event)
    requires c.line > 0
    ensures Run(c, s, [e1, e2]) == Step(c, Step(c, s, e1), e2)
  {
    hide Step;
    assert [e1, e2][1..] == [e2] && [e2][1..] == [];
    assert Run(c, Step(c, s, e1), [e2]) == Run(c, Step(c, Step(c, s, e1), e2), []);
  }

  /** One pass without a yes: an expired clock is seen every sixteenth time, otherwise the waiter is
      back where it was, one pass on. */
  lemma {:induction false} OnePass(c: Config, s: State)
    requires c.line > 0 && c.timeout && s.pc.Checking? && !c.callback(s.content)
    ensures var now := Run(c, s, Pass(c, true));
            if s.iteration % 16 == 0 then now.pc == Done(false)
            else now.pc.Checking? && now.content == s.content && now.iteration == (s.iteration + 1) % TWO32
  {
    var go := Go(true, false);
    if UsesMonitor(c) { FourSteps(c, s, go, go, go, WaitEnds); } else { TwoSteps(c, s, go, go); }
  }

  lemma {:induction false} StaysDone(c: Config, s: State, events: seq<Event>)
    requires c.line > 0 && s.pc.Done?
    ensures Run(c, s, events).pc == s.pc
    decreases |events|
  {
    if events != [] { StaysDone(c, Step(c, s, events[0]), events[1..]); }
  }

  /** How many passes come before the next one that looks at the clock. */
  function PassesToLook(iteration: nat): (n: nat)
    ensures n < 16
  {
    if iteration % 16 == 0 then 0 else 16 - iteration % 16
  }

  /** Once the clock has run out and the callback keeps saying no, sixteen passes are enough to return
      false, wherever the counter stands. */
  lemma {:induction false} TimesOut(c: Config, s: State, n: nat)
    requires c.line > 0 && c.timeout && s.pc.Checking? && !c.callback(s.content) && s.iteration < TWO32
    requires n > PassesToLook(s.iteration)
    ensures Run(c, s, Passes(c, true, n)).pc == Done(false)
    decreases n
  {
    OnePass(c, s);
    RunAppends(c, s, Pass(c, true), Passes(c, true, n - 1));
    var now := Run(c, s, Pass(c, true));
    if s.iteration % 16 == 0 {
      StaysDone(c, now, Passes(c, true, n - 1));
    } else {
      NextLook(s.iteration);
      TimesOut(c, now, n - 1);
    }
  }

  lemma {:induction false} NextLook(iteration: nat)
    requires iteration < TWO32 && iteration % 16 != 0
    ensures (iteration + 1) % TWO32 < TWO32
    ensures PassesToLook((iteration + 1) % TWO32) == PassesToLook(iteration) - 1
  {
    var q := iteration / 16;
    if iteration == TWO32 - 1 {
      assert iteration % 16 == 15 && (iteration + 1) % TWO32 == 0;
    } else {
      assert (iteration + 1) % TWO32 == iteration + 1;
      assert iteration + 1 == 16 * q + (iteration % 16 + 1);
    }
  }

  /** Where a pass without an answer leads: into the hardware wait if and only if the buffer is no longer
      than a line and the processor has the instructions, and out of it if and only if it was woken. */
  lemma {:induction false} WaitsWhenItMay(c: Config, s: State, expired: bool)
    requires c.line > 0
    ensures var next := Step(c, s, Go(expired, false));
            && (s.pc.Checking? && !next.pc.Done? ==> (next.pc.Arming? <==> c.len <= c.line && c.monitor))
            && (s.pc.Checking? && !next.pc.Done? ==> (next.pc.Pausing? <==> !(c.len <= c.line && c.monitor)))
            && (s.pc.Waiting? ==> (next.pc.Waiting? <==> !s.triggered) && (next.pc.Checking? <==> s.triggered))
  {
  }

  ghost predicate InHardwareWait(s: State) {
    s.pc.Arming? || s.pc.Rechecking? || s.pc.Waiting?
  }

  /** A buffer that does not qualify never gets there, in any interleaving. */
  lemma {:induction false} NeverWaitsUnqualified(c: Config, s: State, events: seq<Event>)
    requires c.line > 0 && !InHardwareWait(s) && !(c.len <= c.line && c.monitor)
    ensures !InHardwareWait(Run(c, s, events))
    decreases |events|
  {
    if events != [] { NeverWaitsUnqualified(c, Step(c, s, events[0]), events[1..]); }
  }

  /** A store changes the byte it names, and nothing else of the buffer. */
  lemma {:induction false} StoreLands(c: Config, s: State, address: int, value: int, k: nat)
    requires c.line > 0 && k < |s.content|
    ensures var next := Step(c, s, Write(address, value));
            && |next.content| == |s.content| && next.pc == s.pc
            && next.content[k] == if address == c.buf + k then value else s.content[k]
  {
  }
}
