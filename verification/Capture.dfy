/**
 The locator operation: bounded captures of two channels, the readiness latch, and the event loop that
 is fed by two readers and a writer in any interleaving.
 */
module Capture {
  import opened Wrappers
  import opened Octets
  import opened FrameReader

  const OMAX := 4096
  const EMAX := 4096
  const CMAX := 8192
  const PRE_OMAX := 64
  const PRE_EMAX := 64
  const READY_MARKER: Bytes :=
    [0x53, 0x50, 0x4C, 0x51, 0x5F, 0x50, 0x55, 0x42, 0x4C, 0x49, 0x43, 0x5F,
     0x52, 0x45, 0x41, 0x44, 0x59, 0x5F, 0x56, 0x31, 0x0A]

  datatype WriterStatus = WritePending | WriteOk | WriteShort | WriteError

  // ---- Bounded capture ----

  class BoundedCapture {
    const limit: nat
    var data: Bytes
    var overflow: bool
    /** Everything ever appended. */
    ghost var all: Bytes

    constructor (limit: nat)
      ensures this.limit == limit && all == [] && Valid()
    {
      this.limit := limit;
      data, overflow, all := [], false, [];
    }

    /** Keeps the longest prefix that fits, and knows whether that was everything. */
    ghost predicate Valid()
      reads this
    {
      && (overflow <==> |all| > limit)
      && data == if |all| > limit then all[..limit] else all
    }

    method Append(chunk: Bytes)
      requires Valid()
      modifies this`data, this`overflow, this`all
      ensures Valid() && all == old(all) + chunk
    {
      if |data| + |chunk| > limit {
        overflow := true;
        var remaining := if limit - |data| > 0 then limit - |data| else 0;
        data := data + chunk[..if remaining < |chunk| then remaining else |chunk|];
      } else {
        data := data + chunk;
      }
      all := all + chunk;
    }
  }

  class CaptureSet {
    const stdout: BoundedCapture
    const stderr: BoundedCapture
    var combinedSize: nat
    var combinedOverflow: bool

    constructor ()
      ensures Valid() && fresh(stdout) && fresh(stderr) && stdout.all == [] && stderr.all == []
    {
      stdout := new BoundedCapture(OMAX);
      stderr := new BoundedCapture(EMAX);
      combinedSize, combinedOverflow := 0, false;
    }

    ghost predicate Valid()
      reads this, stdout, stderr
    {
      && stdout != stderr && stdout.limit == OMAX && stderr.limit == EMAX
      && stdout.Valid() && stderr.Valid()
      && combinedSize == |stdout.all| + |stderr.all|
      && (combinedOverflow <==> combinedSize > CMAX)
    }

    method AppendStdout(chunk: Bytes)
      requires Valid()
      modifies this`combinedSize, this`combinedOverflow, stdout
      ensures Valid() && stdout.all == old(stdout.all) + chunk && stderr.all == old(stderr.all)
    {
      stdout.Append(chunk);
      Count(chunk);
    }

    method AppendStderr(chunk: Bytes)
      requires Valid()
      modifies this`combinedSize, this`combinedOverflow, stderr
      ensures Valid() && stderr.all == old(stderr.all) + chunk && stdout.all == old(stdout.all)
    {
      stderr.Append(chunk);
      Count(chunk);
    }

    method Count(chunk: Bytes)
      modifies this`combinedSize, this`combinedOverflow
      ensures combinedSize == old(combinedSize) + |chunk|
      ensures combinedOverflow == (old(combinedOverflow) || combinedSize > CMAX)
    {
      combinedSize := combinedSize + |chunk|;
      if combinedSize > CMAX {
        combinedOverflow := true;
      }
    }

    /** Any of the three overflow flags. */
    predicate Overflowed()
      reads this, stdout, stderr
    {
      stdout.overflow || stderr.overflow || combinedOverflow
    }
  }

  /** The combined limit never fires alone: it is the sum of the two channel limits. */
  lemma CombinedImpliesChannel(c: CaptureSet)
    requires c.Valid()
    ensures c.combinedOverflow ==> c.stdout.overflow || c.stderr.overflow
    ensures !c.Overflowed() ==> c.stdout.data == c.stdout.all && c.stderr.data == c.stderr.all
  {
  }

  // ---- The readiness latch ----

  datatype Decision = Wait | Accept | Refused | Closed

  predicate IsPrefix(a: Bytes, b: Bytes) {
    |a| <= |b| && b[..|a|] == a
  }

  class AdmissionState {
    var terminal: bool
    var latch: bool

    constructor ()
      ensures !terminal && !latch
    {
      terminal, latch := false, false;
    }

    /** Accepts at most once, and only the exact marker, written successfully, in time, without any failure. */
    method Step(captured: Bytes, writer: WriterStatus, expired: bool, failed: bool) returns (d: Decision)
      modifies this
      ensures old(terminal) ==> d == Closed && terminal && latch == old(latch)
      ensures d == Accept <==>
                !old(terminal) && !old(latch) && !failed && writer == WriteOk && captured == READY_MARKER && !expired
      ensures d == Wait <==>
                !old(terminal) && !failed && writer !in {WriteShort, WriteError} && IsPrefix(captured, READY_MARKER)
                && !expired && (captured != READY_MARKER || writer == WritePending)
      ensures terminal <==> d != Wait
      ensures latch <==> old(latch) || d == Accept
    {
      if terminal {
        return Closed;
      }
      if failed || writer == WriteShort || writer == WriteError {
        terminal := true;
        return Refused;
      }
      var exact := captured == READY_MARKER;
      if !exact && !IsPrefix(captured, READY_MARKER) {
        terminal := true;
        return Refused;
      }
      if expired {
        terminal := true;
        return Refused;
      }
      if !exact || writer == WritePending {
        return Wait;
      }
      if latch || writer != WriteOk {
        terminal := true;
        return Refused;
      }
      latch := true;
      terminal := true;
      d := Accept;
    }
  }

  // ---- The environment of one operation ----

  datatype Event = Out(chunk: Bytes) | Err(chunk: Bytes) | Phase1(status: WriterStatus) | OutEof | ErrEof | ChannelError

  /** A poll of the process: still running, exited with a code, or the poll itself failed. */
  datatype Poll = Running | Exited(code: int) | PollFailed

  /**
   One turn of a loop: whether the readiness deadline has passed before it, what the queue gives, the
   polls around it, and whether the readiness deadline has passed after it.
   */
  datatype Tick = Tick(late: bool, event: Option<Event>, pollBefore: Poll, pollAfter: Poll, expired: bool)

  /** A loop that runs out of turns has hit the terminal deadline. */
  datatype Environment = Environment(
    barrierOk: bool, opens: bool, ticks: seq<Tick>, query: WriterStatus, finalExpired: bool, finalPoll: Poll)

  function OutPart(event: Option<Event>): Bytes {
    match event case Some(Out(chunk)) => chunk case _ => []
  }

  function ErrPart(event: Option<Event>): Bytes {
    match event case Some(Err(chunk)) => chunk case _ => []
  }

  /** Everything the readers of the two channels put on the queue. */
  function OutBytes(ticks: seq<Tick>): Bytes {
    if ticks == [] then [] else OutBytes(ticks[..|ticks| - 1]) + OutPart(ticks[|ticks| - 1].event)
  }

  function ErrBytes(ticks: seq<Tick>): Bytes {
    if ticks == [] then [] else ErrBytes(ticks[..|ticks| - 1]) + ErrPart(ticks[|ticks| - 1].event)
  }

  /** Each reader thread puts nothing more on the queue after its end-of-file. */
  predicate Disciplined(ticks: seq<Tick>) {
    && (forall i, j :: 0 <= i < j < |ticks| && ticks[i].event == Some(OutEof) ==>
          !(ticks[j].event.Some? && ticks[j].event.value.Out?))
    && (forall i, j :: 0 <= i < j < |ticks| && ticks[i].event == Some(ErrEof) ==>
          !(ticks[j].event.Some? && ticks[j].event.value.Err?))
  }

  lemma OneMoreTick(ticks: seq<Tick>, n: nat)
    requires n < |ticks|
    ensures OutBytes(ticks[..n + 1]) == OutBytes(ticks[..n]) + OutPart(ticks[n].event)
    ensures ErrBytes(ticks[..n + 1]) == ErrBytes(ticks[..n]) + ErrPart(ticks[n].event)
  {
    assert ticks[..n + 1][..n] == ticks[..n];
  }

  /** After its end-of-file was taken from the queue, a channel has delivered its whole stream. */
  lemma {:induction false} NothingAfterEof(ticks: seq<Tick>, i: nat, n: nat)
    requires Disciplined(ticks) && i < n <= |ticks|
    ensures ticks[i].event == Some(OutEof) ==> OutBytes(ticks[..n]) == OutBytes(ticks)
    ensures ticks[i].event == Some(ErrEof) ==> ErrBytes(ticks[..n]) == ErrBytes(ticks)
    decreases |ticks| - n
  {
    if n < |ticks| {
      NothingAfterEof(ticks, i, n + 1);
      OneMoreTick(ticks, n);
    } else {
      assert ticks[..n] == ticks;
    }
  }

  predicate CleanExit(p: Poll) {
    p == Exited(0)
  }

  predicate BadPoll(p: Poll) {
    p.PollFailed? || (p.Exited? && p.code != 0)
  }

  // ---- The operation ----

  datatype Outcome<V> = Success(details: V) | Failure(queryStarted: bool)

  /** An end-of-file event among the first `n` turns. */
  predicate EofSeen(ticks: seq<Tick>, n: nat, eof: Event)
    requires n <= |ticks|
  {
    exists i :: 0 <= i < n && ticks[i].event == Some(eof)
  }

  /** Everything the two channels have delivered in `n` turns is what the captures were given. */
  ghost predicate Delivered(captures: CaptureSet, ticks: seq<Tick>, n: nat)
    requires n <= |ticks|
    reads captures, captures.stdout, captures.stderr
  {
    captures.Valid() && captures.stdout.all == OutBytes(ticks[..n]) && captures.stderr.all == ErrBytes(ticks[..n])
  }

  method Deliver(captures: CaptureSet, ticks: seq<Tick>, n: nat)
    requires n < |ticks| && Delivered(captures, ticks, n)
    modifies captures, captures.stdout, captures.stderr
    ensures Delivered(captures, ticks, n + 1)
    ensures captures.stdout.all == old(captures.stdout.all) + OutPart(ticks[n].event)
    ensures captures.stderr.all == old(captures.stderr.all) + ErrPart(ticks[n].event)
    ensures ticks[n].event.None? ==> captures.Overflowed() == old(captures.Overflowed())
    ensures ticks[n].event.None? ==> captures.stderr.data == old(captures.stderr.data)
  {
    OneMoreTick(ticks, n);
    match ticks[n].event
    case Some(Out(chunk)) => captures.AppendStdout(chunk);
    case Some(Err(chunk)) => captures.AppendStderr(chunk);
    case _ =>
  }

  /** Readiness as intended: the marker, then the writer's success, in time and with the process running. */
  predicate ReadySmoothly(ticks: seq<Tick>) {
    && |ticks| >= 2
    && ticks[0] == Tick(false, Some(Out(READY_MARKER)), ticks[0].pollBefore, Running, false)
    && ticks[1] == Tick(false, Some(Phase1(WriteOk)), ticks[1].pollBefore, Running, false)
  }

  /** Termination as intended: no error, no overflow, both ends, and then a clean exit. */
  predicate EndsSmoothly(ticks: seq<Tick>) {
    && |ticks| > 2 && |OutBytes(ticks)| <= OMAX
    && (forall i :: 2 <= i < |ticks| ==>
          !BadPoll(ticks[i].pollBefore) && !BadPoll(ticks[i].pollAfter)
          && (ticks[i].event.Some? ==> ticks[i].event.value.Out? || ticks[i].event.value.OutEof? || ticks[i].event.value.ErrEof?))
    && (exists i :: 2 <= i < |ticks| - 1 && ticks[i].event == Some(OutEof))
    && (exists i :: 2 <= i < |ticks| - 1 && ticks[i].event == Some(ErrEof))
    && ticks[|ticks| - 1].pollBefore == Exited(0)
  }

  lemma {:induction false} OutBytesGrow(ticks: seq<Tick>, n: nat)
    requires n <= |ticks|
    ensures |OutBytes(ticks[..n])| <= |OutBytes(ticks)|
    decreases |ticks| - n
  {
    if n < |ticks| {
      OneMoreTick(ticks, n);
      OutBytesGrow(ticks, n + 1);
    } else {
      assert ticks[..n] == ticks;
    }
  }

  lemma MarkerShort()
    ensures |READY_MARKER| == 21
  {
  }

  predicate ProcessTrouble(tick: Tick) {
    tick.event == Some(OutEof) || tick.event == Some(ChannelError) || tick.pollAfter != Running
  }

  /** The last status of the query writer among the first `n` turns. */
  function WriterAt(ticks: seq<Tick>, n: nat): WriterStatus
    requires n <= |ticks|
  {
    if n == 0 then WritePending
    else match ticks[n - 1].event case Some(Phase1(status)) => status case _ => WriterAt(ticks, n - 1)
  }

  predicate TroubleBy(ticks: seq<Tick>, n: nat)
    requires n <= |ticks|
  {
    exists i :: 0 <= i < n && ticks[i].event.Some? && ProcessTrouble(ticks[i])
  }

  /** After `n` turns there was no trouble and nothing on standard error. */
  predicate Untroubled(ticks: seq<Tick>, n: nat)
    requires n <= |ticks|
  {
    !TroubleBy(ticks, n) && ErrBytes(ticks[..n]) == []
  }

  /** Turn `i` leaves the readiness phase waiting: a part of the marker so far, in time, or all of it but no word of the writer. */
  predicate KeepsWaiting(ticks: seq<Tick>, i: nat)
    requires i < |ticks|
  {
    && !ticks[i].late
    && (ticks[i].event.Some? ==>
          && Untroubled(ticks, i + 1) && !ticks[i].expired && WriterAt(ticks, i + 1) !in {WriteShort, WriteError}
          && IsPrefix(OutBytes(ticks[..i + 1]), READY_MARKER)
          && (OutBytes(ticks[..i + 1]) != READY_MARKER || WriterAt(ticks, i + 1) == WritePending))
  }

  /** Turn `n` completes readiness: exactly the marker, the writer's success, in time, after turns that kept waiting. */
  predicate AdmitsAt(ticks: seq<Tick>, n: nat)
    requires n < |ticks|
  {
    && !ticks[n].late && ticks[n].event.Some? && Untroubled(ticks, n + 1) && !ticks[n].expired
    && WriterAt(ticks, n + 1) == WriteOk && OutBytes(ticks[..n + 1]) == READY_MARKER
    && forall i :: 0 <= i < n ==> KeepsWaiting(ticks, i)
  }

  predicate Admits(ticks: seq<Tick>) {
    exists n :: 0 <= n < |ticks| && AdmitsAt(ticks, n)
  }

  lemma NeverAdmits(ticks: seq<Tick>, used: nat)
    requires used <= |ticks| && forall i :: 0 <= i < used ==> KeepsWaiting(ticks, i)
    requires used < |ticks| ==> !KeepsWaiting(ticks, used) && !AdmitsAt(ticks, used)
    ensures !Admits(ticks)
  {
    hide Untroubled, OutBytes, READY_MARKER, WriterAt;
    if Admits(ticks) {
      var n :| 0 <= n < |ticks| && AdmitsAt(ticks, n);
      KeepingIsNotAdmitting(ticks, n);
    }
  }

  lemma TroubleGrows(ticks: seq<Tick>, n: nat)
    requires n < |ticks|
    ensures TroubleBy(ticks, n + 1) <==> TroubleBy(ticks, n) || (ticks[n].event.Some? && ProcessTrouble(ticks[n]))
  {
    hide ProcessTrouble;
  }

  /** The guards of the readiness phase, and one step of the latch. */
  method GuardAndStep(captures: CaptureSet, admission: AdmissionState, writer: WriterStatus, expired: bool, trouble: bool)
    returns (decision: Decision)
    requires captures.Valid() && !admission.terminal && !admission.latch
    modifies admission
    ensures decision == Wait ==> !admission.terminal && !admission.latch
    ensures decision == Accept ==> !captures.Overflowed() && captures.stderr.data == []
    ensures decision == Accept <==>
              captures.stdout.all == READY_MARKER && captures.stderr.all == [] && !trouble && writer == WriteOk && !expired
    ensures decision == Wait <==>
              && captures.stderr.all == [] && !trouble && writer !in {WriteShort, WriteError} && !expired
              && IsPrefix(captures.stdout.all, READY_MARKER) && (captures.stdout.all != READY_MARKER || writer == WritePending)
  {
    hide READY_MARKER;
    MarkerShort();
    var stderrFailed := captures.stderr.data != [];
    var overflowFailed := |captures.stdout.data| > PRE_OMAX || |captures.stderr.data| > PRE_EMAX || captures.Overflowed();
    CombinedImpliesChannel(captures);
    decision := admission.Step(captures.stdout.data, writer, expired, stderrFailed || overflowFailed || trouble);
  }

  /** One event before the query, and what the latch decides after it. */
  method ConsiderEvent(captures: CaptureSet, admission: AdmissionState, ticks: seq<Tick>, n: nat,
                       writerBefore: WriterStatus, troubleBefore: bool)
    returns (writer: WriterStatus, trouble: bool, decision: Decision)
    requires n < |ticks| && ticks[n].event.Some? && Delivered(captures, ticks, n)
    requires !admission.terminal && !admission.latch
    modifies captures, captures.stdout, captures.stderr, admission
    ensures Delivered(captures, ticks, n + 1)
    ensures captures.stdout.all == old(captures.stdout.all) + OutPart(ticks[n].event)
    ensures captures.stderr.all == old(captures.stderr.all) + ErrPart(ticks[n].event)
    ensures writer == if ticks[n].event.value.Phase1? then ticks[n].event.value.status else writerBefore
    ensures trouble == (troubleBefore || ProcessTrouble(ticks[n]))
    ensures decision == Wait ==> !admission.terminal && !admission.latch
    ensures decision == Accept ==> !captures.Overflowed() && captures.stderr.data == []
    ensures decision == Accept <==>
              captures.stdout.all == READY_MARKER && captures.stderr.all == [] && !trouble && writer == WriteOk && !ticks[n].expired
    ensures decision == Wait <==>
              && captures.stderr.all == [] && !trouble && writer !in {WriteShort, WriteError} && !ticks[n].expired
              && IsPrefix(captures.stdout.all, READY_MARKER) && (captures.stdout.all != READY_MARKER || writer == WritePending)
  {
    hide OutBytes, ErrBytes, READY_MARKER;
    var tick := ticks[n];
    Deliver(captures, ticks, n);
    writer, trouble := writerBefore, troubleBefore;
    match tick.event.value {
      case Out(_) =>
      case Err(_) =>
      case Phase1(status) => writer := status;
      case OutEof => trouble := true;
      case ErrEof =>
      case ChannelError => trouble := true;
    }
    if tick.pollAfter != Running {
      trouble := true;
    }
    decision := GuardAndStep(captures, admission, writer, tick.expired, trouble);
  }

  /** The event loop before the query: waits for the marker, exactly and alone. */
  method AwaitAdmission(ticks: seq<Tick>, captures: CaptureSet) returns (accepted: bool, used: nat, stderrEof: bool)
    requires captures.Valid() && captures.stdout.all == [] && captures.stderr.all == []
    modifies captures, captures.stdout, captures.stderr
    ensures used <= |ticks| && Delivered(captures, ticks, used)
    ensures accepted ==> OutBytes(ticks[..used]) == READY_MARKER && ErrBytes(ticks[..used]) == []
    ensures accepted ==> !captures.Overflowed() && captures.stderr.data == []
    ensures accepted <==> Admits(ticks)
    ensures accepted ==> used >= 1 && AdmitsAt(ticks, used - 1) && (stderrEof <==> EofSeen(ticks, used, ErrEof))
    ensures ReadySmoothly(ticks) ==> accepted && used == 2 && !stderrEof
  {
    hide OutBytes, ErrBytes, OutPart, ErrPart, ReadySmoothly, READY_MARKER, EofSeen, ProcessTrouble, Delivered, TroubleBy, WriterAt,
         AdmitsAt, Admits, KeepsWaiting, IsPrefix;
    DeliveredNothing(captures, ticks);
    var admission := new AdmissionState();
    var writer := WritePending;
    var processFailed := false;
    used, accepted, stderrEof := 0, false, false;
    NothingSeen(ticks);
    while used < |ticks|
      invariant used <= |ticks| && Delivered(captures, ticks, used)
      invariant fresh(admission) && !admission.latch && !accepted && !admission.terminal
      invariant stderrEof <==> EofSeen(ticks, used, ErrEof)
      invariant writer == WriterAt(ticks, used) && processFailed == TroubleBy(ticks, used)
      invariant forall i :: 0 <= i < used ==> KeepsWaiting(ticks, i)
    {
      EofGrows(ticks, 0, used);
      TroubleGrows(ticks, used);
      LateStops(ticks, used);
      if ticks[used].late {
        NeverAdmits(ticks, used);
        SmoothAdmits(ticks);
        return;
      }
      if ticks[used].event.None? {
        Deliver(captures, ticks, used);
        used := used + 1;
        continue;
      }
      var decision;
      writer, processFailed, decision := ConsiderEvent(captures, admission, ticks, used, writer, processFailed);
      DeliveredIs(captures, ticks, used + 1);
      Decided(ticks, used, decision);
      stderrEof := stderrEof || ticks[used].event == Some(ErrEof);
      used := used + 1;
      if decision == Accept {
        AdmittedFirst(ticks, used - 1);
        return true, used, stderrEof;
      }
      if decision != Wait {
        NeverAdmits(ticks, used - 1);
        SmoothAdmits(ticks);
        return;
      }
    }
    NeverAdmits(ticks, used);
    SmoothAdmits(ticks);
  }

  lemma NothingSeen(ticks: seq<Tick>)
    ensures !EofSeen(ticks, 0, ErrEof) && WriterAt(ticks, 0) == WritePending && !TroubleBy(ticks, 0)
  {
  }

  lemma LateStops(ticks: seq<Tick>, n: nat)
    requires n < |ticks|
    ensures ticks[n].late ==> !KeepsWaiting(ticks, n) && !AdmitsAt(ticks, n)
    ensures !ticks[n].late && ticks[n].event.None? ==> KeepsWaiting(ticks, n) && WriterAt(ticks, n + 1) == WriterAt(ticks, n)
    ensures ticks[n].event.Some? ==>
              WriterAt(ticks, n + 1) == if ticks[n].event.value.Phase1? then ticks[n].event.value.status else WriterAt(ticks, n)
  {
    hide Untroubled, OutBytes, READY_MARKER;
  }

  lemma Decided(ticks: seq<Tick>, n: nat, decision: Decision)
    requires n < |ticks| && !ticks[n].late && ticks[n].event.Some?
    requires forall i :: 0 <= i < n ==> KeepsWaiting(ticks, i)
    requires decision == Accept <==>
               OutBytes(ticks[..n + 1]) == READY_MARKER && ErrBytes(ticks[..n + 1]) == [] && !TroubleBy(ticks, n + 1)
               && WriterAt(ticks, n + 1) == WriteOk && !ticks[n].expired
    requires decision == Wait <==>
               && ErrBytes(ticks[..n + 1]) == [] && !TroubleBy(ticks, n + 1) && WriterAt(ticks, n + 1) !in {WriteShort, WriteError}
               && !ticks[n].expired && IsPrefix(OutBytes(ticks[..n + 1]), READY_MARKER)
               && (OutBytes(ticks[..n + 1]) != READY_MARKER || WriterAt(ticks, n + 1) == WritePending)
    ensures decision == Accept <==> AdmitsAt(ticks, n)
    ensures decision == Wait <==> KeepsWaiting(ticks, n)
  {
    hide OutBytes, ErrBytes, TroubleBy, WriterAt, READY_MARKER, IsPrefix;
  }

  lemma AdmittedFirst(ticks: seq<Tick>, n: nat)
    requires n < |ticks| && AdmitsAt(ticks, n)
    ensures Admits(ticks) && OutBytes(ticks[..n + 1]) == READY_MARKER && ErrBytes(ticks[..n + 1]) == []
    ensures ReadySmoothly(ticks) ==> n == 1 && !EofSeen(ticks, 2, ErrEof)
  {
    hide OutBytes, ErrBytes, TroubleBy, WriterAt, READY_MARKER, IsPrefix, ReadySmoothly, EofSeen;
    if ReadySmoothly(ticks) {
      SmoothAdmitsAt(ticks);
      assert KeepsWaiting(ticks, 0) && !AdmitsAt(ticks, 0) by {
        KeepingIsNotAdmitting(ticks, 0);
      }
      KeepingIsNotAdmitting(ticks, 1);
    }
  }

  lemma KeepingIsNotAdmitting(ticks: seq<Tick>, n: nat)
    requires n < |ticks|
    ensures !(KeepsWaiting(ticks, n) && AdmitsAt(ticks, n))
  {
    hide OutBytes, Untroubled, WriterAt, READY_MARKER, IsPrefix;
  }

  lemma SmoothAdmits(ticks: seq<Tick>)
    ensures ReadySmoothly(ticks) ==> Admits(ticks)
  {
    hide ReadySmoothly, AdmitsAt;
    if ReadySmoothly(ticks) {
      SmoothAdmitsAt(ticks);
    }
  }

  /** A smooth start is admitted at its second turn. */
  lemma SmoothAdmitsAt(ticks: seq<Tick>)
    requires ReadySmoothly(ticks)
    ensures |ticks| >= 2 && KeepsWaiting(ticks, 0) && AdmitsAt(ticks, 1) && !EofSeen(ticks, 2, ErrEof)
  {
    hide READY_MARKER;
    assert ticks[..0] == [];
    OneMoreTick(ticks, 0);
    OneMoreTick(ticks, 1);
    assert OutBytes(ticks[..1]) == [] + READY_MARKER == READY_MARKER;
    assert OutBytes(ticks[..2]) == READY_MARKER + [] == READY_MARKER;
    assert WriterAt(ticks, 1) == WritePending && WriterAt(ticks, 2) == WriteOk;
  }

  lemma DeliveredIs(captures: CaptureSet, ticks: seq<Tick>, n: nat)
    requires n <= |ticks| && Delivered(captures, ticks, n)
    ensures captures.Valid() && captures.stdout.all == OutBytes(ticks[..n]) && captures.stderr.all == ErrBytes(ticks[..n])
  {
  }

  lemma DeliveredNothing(captures: CaptureSet, ticks: seq<Tick>)
    requires captures.Valid() && captures.stdout.all == [] && captures.stderr.all == []
    ensures Delivered(captures, ticks, 0)
  {
    assert ticks[..0] == [];
  }

  /** One event after the query. */
  method TakeEvent(captures: CaptureSet, ticks: seq<Tick>, n: nat, outBefore: bool, errBefore: bool, failedBefore: bool)
    returns (outEof: bool, errEof: bool, failed: bool)
    requires n < |ticks| && ticks[n].event.Some? && Delivered(captures, ticks, n)
    modifies captures, captures.stdout, captures.stderr
    ensures Delivered(captures, ticks, n + 1)
    ensures captures.stdout.all == old(captures.stdout.all) + OutPart(ticks[n].event)
    ensures captures.stderr.all == old(captures.stderr.all) + ErrPart(ticks[n].event)
    ensures outEof == (outBefore || ticks[n].event == Some(OutEof))
    ensures errEof == (errBefore || ticks[n].event == Some(ErrEof))
    ensures !failed ==> !failedBefore && !captures.Overflowed() && captures.stderr.data == []
    ensures !failed <==>
              && !failedBefore && !BadPoll(ticks[n].pollAfter) && !ticks[n].event.value.ChannelError?
              && |captures.stdout.all| <= OMAX && captures.stderr.all == []
  {
    hide OutBytes, ErrBytes;
    Deliver(captures, ticks, n);
    outEof, errEof, failed := outBefore, errBefore, failedBefore;
    match ticks[n].event.value {
      case Out(_) =>
      case Err(_) =>
      case Phase1(_) =>
      case OutEof => outEof := true;
      case ErrEof => errEof := true;
      case ChannelError => failed := true;
    }
    failed := failed || captures.stderr.data != [] || captures.Overflowed() || BadPoll(ticks[n].pollAfter);
  }

  /** Between two turns nothing went wrong: no failed poll or channel, nothing on standard error, no overflow. */
  predicate Quiet(ticks: seq<Tick>, from: nat, n: nat)
    requires n <= |ticks|
  {
    && (forall i :: from <= i < n ==>
          !BadPoll(ticks[i].pollBefore)
          && (ticks[i].event.Some? ==> !BadPoll(ticks[i].pollAfter) && !ticks[i].event.value.ChannelError?))
    && ErrBytes(ticks[..n]) == [] && |OutBytes(ticks[..n])| <= OMAX
  }

  /** At turn `n` both channels have ended and the process is seen to have exited with code 0, after quiet turns. */
  predicate EndsAt(ticks: seq<Tick>, from: nat, n: nat)
    requires n < |ticks|
  {
    && EofBetween(ticks, from, n, OutEof) && EofSeen(ticks, n, ErrEof)
    && CleanExit(ticks[n].pollBefore) && Quiet(ticks, from, n)
  }

  predicate Ends(ticks: seq<Tick>, from: nat) {
    exists n :: from <= n < |ticks| && EndsAt(ticks, from, n)
  }

  /** One more turn is quiet exactly if the polls, the channel and the captures are. */
  lemma QuietGrows(ticks: seq<Tick>, from: nat, n: nat)
    requires from <= n < |ticks|
    ensures Quiet(ticks, from, n + 1) <==>
              && Quiet(ticks, from, n) && !BadPoll(ticks[n].pollBefore)
              && (ticks[n].event.Some? ==>
                    && !BadPoll(ticks[n].pollAfter) && !ticks[n].event.value.ChannelError?
                    && ErrBytes(ticks[..n + 1]) == [] && |OutBytes(ticks[..n + 1])| <= OMAX)
  {
    OneMoreTick(ticks, n);
    hide OutBytes, ErrBytes, BadPoll;
    if Quiet(ticks, from, n + 1) {
      assert ErrBytes(ticks[..n]) == [] by {
        assert ErrBytes(ticks[..n]) + ErrPart(ticks[n].event) == [];
      }
    }
    assert ErrBytes(ticks[..n]) + [] == ErrBytes(ticks[..n]) && OutBytes(ticks[..n]) + [] == OutBytes(ticks[..n]);
  }

  /** A smooth end is an end at the last turn. */
  lemma SmoothEnds(ticks: seq<Tick>)
    requires EndsSmoothly(ticks) && ErrBytes(ticks[..2]) == []
    ensures Ends(ticks, 2)
  {
    hide OutBytes, ErrBytes;
    var last := |ticks| - 1;
    NoErrors(ticks, 2, last);
    OutBytesGrow(ticks, last);
    BothEnded(ticks, last);
    assert Quiet(ticks, 2, last);
    hide Quiet, EndsSmoothly;
    assert EndsAt(ticks, 2, last);
  }

  lemma BothEnded(ticks: seq<Tick>, n: nat)
    requires n <= |ticks|
    requires exists i :: 2 <= i < n && ticks[i].event == Some(OutEof)
    requires exists i :: 2 <= i < n && ticks[i].event == Some(ErrEof)
    ensures EofBetween(ticks, 2, n, OutEof) && EofSeen(ticks, n, ErrEof)
  {
  }

  lemma {:induction false} NoErrors(ticks: seq<Tick>, from: nat, n: nat)
    requires from <= n <= |ticks| && ErrBytes(ticks[..from]) == []
    requires forall i :: from <= i < n ==> ErrPart(ticks[i].event) == []
    ensures ErrBytes(ticks[..n]) == []
  {
    hide OutBytes, ErrBytes, ErrPart;
    if from < n {
      NoErrors(ticks, from, n - 1);
      OneMoreTick(ticks, n - 1);
      assert ErrBytes(ticks[..n]) == [] + ErrPart(ticks[n - 1].event);
    }
  }

  /** The event loop after the query: ends cleanly only with both channels at their end and the process gone with code 0. */
  method AwaitTermination(ticks: seq<Tick>, from: nat, captures: CaptureSet, written: bool, errEofBefore: bool)
    returns (clean: bool, used: nat)
    requires from <= |ticks| && Delivered(captures, ticks, from)
    requires !captures.Overflowed() && captures.stderr.all == []
    requires errEofBefore <==> EofSeen(ticks, from, ErrEof)
    modifies captures, captures.stdout, captures.stderr
    ensures used <= |ticks| && Delivered(captures, ticks, used)
    ensures clean ==>
              && written && EofSeen(ticks, used, OutEof) && EofSeen(ticks, used, ErrEof)
              && !captures.Overflowed() && captures.stderr.data == []
    ensures clean <==> written && Ends(ticks, from)
    ensures from == 2 && written && EndsSmoothly(ticks) ==> clean
  {
    hide OutBytes, ErrBytes, EndsSmoothly, EofSeen, EofBetween, READY_MARKER, Quiet, EndsAt, BadPoll, Delivered, CleanExit, OutPart, ErrPart;
    used := from;
    var outEof, errEof := false, errEofBefore;
    var failed := !written;
    NoEofYet(ticks, from);
    QuietFrom(captures, ticks, from);
    QuietNow(captures, ticks, from, from);
    while used < |ticks|
      invariant from <= used <= |ticks| && Delivered(captures, ticks, used)
      invariant failed <==> !(written && Quiet(ticks, from, used))
      invariant !failed ==> !captures.Overflowed() && captures.stderr.data == []
      invariant outEof <==> EofBetween(ticks, from, used, OutEof)
      invariant errEof <==> EofSeen(ticks, used, ErrEof)
      invariant written ==> forall k :: from <= k < used ==> !EndsAt(ticks, from, k)
    {
      EofGrows(ticks, from, used);
      QuietGrows(ticks, from, used);
      QuietNow(captures, ticks, from, used);
      EndsWhen(ticks, from, used);
      failed := failed || BadPoll(ticks[used].pollBefore);
      if outEof && errEof && CleanExit(ticks[used].pollBefore) && !failed {
        return true, used;
      }
      if ticks[used].event.None? {
        Deliver(captures, ticks, used);
      } else {
        outEof, errEof, failed := TakeEvent(captures, ticks, used, outEof, errEof, failed);
      }
      used := used + 1;
      DeliveredIs(captures, ticks, used);
    }
    clean := false;
    if EndsSmoothly(ticks) && from == 2 && written {
      SmoothEnds(ticks);
    }
  }

  lemma QuietNow(captures: CaptureSet, ticks: seq<Tick>, from: nat, n: nat)
    requires n <= |ticks| && Delivered(captures, ticks, n)
    ensures captures.Valid()
    ensures Quiet(ticks, from, n) ==> !captures.Overflowed() && captures.stderr.data == []
  {
  }

  lemma QuietFrom(captures: CaptureSet, ticks: seq<Tick>, from: nat)
    requires from <= |ticks| && Delivered(captures, ticks, from) && !captures.Overflowed() && captures.stderr.all == []
    ensures Quiet(ticks, from, from) && ErrBytes(ticks[..from]) == []
  {
  }

  lemma EndsWhen(ticks: seq<Tick>, from: nat, n: nat)
    requires from <= n < |ticks|
    ensures EndsAt(ticks, from, n) <==>
            EofBetween(ticks, from, n, OutEof) && EofSeen(ticks, n, ErrEof) && CleanExit(ticks[n].pollBefore) && Quiet(ticks, from, n)
    ensures CleanExit(ticks[n].pollBefore) ==> !BadPoll(ticks[n].pollBefore)
    ensures EofBetween(ticks, from, n, OutEof) ==> EofSeen(ticks, n, OutEof)
  {
    hide Quiet;
  }

  lemma NoEofYet(ticks: seq<Tick>, from: nat)
    requires from <= |ticks|
    ensures !EofBetween(ticks, from, from, OutEof) && !EofBetween(ticks, from, from, ErrEof)
  {
  }

  predicate EofBetween(ticks: seq<Tick>, from: nat, n: nat, eof: Event)
    requires n <= |ticks|
  {
    exists i :: from <= i < n && ticks[i].event == Some(eof)
  }

  lemma EofGrows(ticks: seq<Tick>, from: nat, n: nat)
    requires from <= n < |ticks|
    ensures EofSeen(ticks, n + 1, OutEof) <==> EofSeen(ticks, n, OutEof) || ticks[n].event == Some(OutEof)
    ensures EofSeen(ticks, n + 1, ErrEof) <==> EofSeen(ticks, n, ErrEof) || ticks[n].event == Some(ErrEof)
    ensures EofBetween(ticks, from, n + 1, OutEof) <==> EofBetween(ticks, from, n, OutEof) || ticks[n].event == Some(OutEof)
    ensures EofBetween(ticks, from, n + 1, ErrEof) <==> EofBetween(ticks, from, n, ErrEof) || ticks[n].event == Some(ErrEof)
  {
  }

  /** The bytes behind the marker. */
  function Behind(stdout: Bytes): Bytes {
    if |stdout| < |READY_MARKER| then [] else stdout[|READY_MARKER|..]
  }

  predicate Smooth(env: Environment) {
    && env.barrierOk && env.opens && ReadySmoothly(env.ticks) && EndsSmoothly(env.ticks) && env.query == WriteOk
    && !env.finalExpired && env.finalPoll == Exited(0)
  }

  /** The query is written: the operation is set up and readiness admits it. */
  predicate Writes(env: Environment) {
    env.barrierOk && env.opens && Admits(env.ticks)
  }

  /** After the query is written, the channels end and the process exits as they should, in time. */
  predicate Completes(env: Environment) {
    && Writes(env) && env.query == WriteOk && !env.finalExpired && CleanExit(env.finalPoll)
    && exists n :: 0 <= n < |env.ticks| && AdmitsAt(env.ticks, n) && Ends(env.ticks, n + 1)
  }

  lemma AdmittedOnce(ticks: seq<Tick>, m: nat, n: nat)
    requires m < |ticks| && n < |ticks| && AdmitsAt(ticks, m) && AdmitsAt(ticks, n)
    ensures m == n
  {
    hide OutBytes, Untroubled, WriterAt, READY_MARKER, IsPrefix, KeepsWaiting;
    if m < n {
      KeepingIsNotAdmitting(ticks, m);
    } else if n < m {
      KeepingIsNotAdmitting(ticks, n);
    }
  }

  /**
   A success means that the parsed bytes are the whole standard output behind the exact marker, that
   standard error was empty, and that the query was written exactly once and in full; a failure is
   reported as not executed exactly when no query write was attempted.  The operation succeeds exactly
   if readiness, termination and the parser let it.
   */
  method ExecuteOperation<V>(env: Environment, parse: Parse<V>) returns (o: Outcome<V>, queryWrites: nat)
    requires Disciplined(env.ticks)
    ensures o.Success? ==>
              && queryWrites == 1 && env.query == WriteOk
              && IsPrefix(READY_MARKER, OutBytes(env.ticks))
              && parse(Behind(OutBytes(env.ticks))) == Some(o.details)
              && ErrBytes(env.ticks) == []
    ensures o.Failure? ==> (o.queryStarted <==> queryWrites == 1)
    ensures queryWrites <= 1
    ensures Smooth(env) && parse(Behind(OutBytes(env.ticks))).Some? ==> o.Success?
    ensures queryWrites == 1 <==> Writes(env)
    ensures o.Success? <==> Completes(env) && parse(Behind(OutBytes(env.ticks))).Some?
  {
    hide OutBytes, ErrBytes, READY_MARKER, Disciplined, EofSeen, ReadySmoothly, EndsSmoothly, IsPrefix, Behind, AdmitsAt, Admits, Ends;
    queryWrites := 0;
    if !env.barrierOk || !env.opens {
      return Failure(false), queryWrites;
    }
    var captures := new CaptureSet();
    NothingYet(env.ticks);
    var accepted, admitted, stderrEof := AwaitAdmission(env.ticks, captures);
    if !accepted {
      return Failure(false), queryWrites;
    }
    queryWrites := 1;
    forall n: nat | n < |env.ticks| && AdmitsAt(env.ticks, n)
      ensures n == admitted - 1
    {
      AdmittedOnce(env.ticks, n, admitted - 1);
    }
    var clean, used := AwaitTermination(env.ticks, admitted, captures, env.query == WriteOk, stderrEof);
    if !clean || env.finalExpired || !CleanExit(env.finalPoll) {
      return Failure(true), queryWrites;
    }
    WholeStreams(env.ticks, used);
    CombinedImpliesChannel(captures);
    var stdout := captures.stdout.data;
    EmptyMeansEmpty(captures);
    PrefixItself(READY_MARKER);
    MarkerLeads(env.ticks, admitted);
    if !IsPrefix(READY_MARKER, stdout) {
      return Failure(true), queryWrites;
    }
    var details := parse(Behind(stdout));
    o := if details.None? then Failure(true) else Success(details.value);
  }

  lemma WholeStreams(ticks: seq<Tick>, used: nat)
    requires Disciplined(ticks) && used <= |ticks| && EofSeen(ticks, used, OutEof) && EofSeen(ticks, used, ErrEof)
    ensures OutBytes(ticks[..used]) == OutBytes(ticks) && ErrBytes(ticks[..used]) == ErrBytes(ticks)
  {
    var i :| 0 <= i < used && ticks[i].event == Some(OutEof);
    var j :| 0 <= j < used && ticks[j].event == Some(ErrEof);
    NothingAfterEof(ticks, i, used);
    NothingAfterEof(ticks, j, used);
  }

  lemma NothingYet(ticks: seq<Tick>)
    ensures OutBytes(ticks[..0]) == [] && ErrBytes(ticks[..0]) == []
  {
  }

  lemma EmptyMeansEmpty(c: CaptureSet)
    requires c.Valid() && c.stderr.data == []
    ensures c.stderr.all == []
  {
  }

  lemma PrefixItself(b: Bytes)
    ensures IsPrefix(b, b)
  {
  }

  /** What has been read once stays in front. */
  lemma {:induction false} MarkerLeads(ticks: seq<Tick>, n: nat)
    requires n <= |ticks| && IsPrefix(READY_MARKER, OutBytes(ticks[..n]))
    ensures IsPrefix(READY_MARKER, OutBytes(ticks))
    decreases |ticks| - n
  {
    hide OutBytes, READY_MARKER;
    if n < |ticks| {
      OneMoreTick(ticks, n);
      assert IsPrefix(READY_MARKER, OutBytes(ticks[..n + 1]));
      MarkerLeads(ticks, n + 1);
    } else {
      assert ticks[..n] == ticks;
    }
  }

  /** Smooth runs complete. */
  lemma SmoothCompletes(env: Environment)
    ensures Smooth(env) ==> Completes(env)
  {
    hide ReadySmoothly, EndsSmoothly, AdmitsAt, Ends;
    if Smooth(env) {
      SmoothAdmitsAt(env.ticks);
      AdmittedFirst(env.ticks, 1);
      SmoothEnds(env.ticks);
    }
  }

  // ---- One public request ----

  datatype Public<V> = Started | Result(details: V) | Failed(executed: bool)

  predicate TerminalFrame<V>(f: Public<V>) {
    f.Result? || f.Failed?
  }

  /**
   Serves one request: a refused request gets one NOT_EXECUTED frame, any other gets STARTED and then
   exactly one terminal frame.  NOT_EXECUTED is only ever sent when no query write was attempted, and a
   result only for the whole output of a query that was written once.
   */
  method HandleProtocol<Q, V>(stream: Stream, parseRequest: Parse<Q>, env: Environment, parse: Parse<V>, framed: V -> bool)
    returns (frames: seq<Public<V>>, queryWrites: nat)
    requires stream.Valid() && stream.next == 0 && stream.pending == [] && Disciplined(env.ticks)
    modifies stream
    ensures stream.Valid()
    ensures frames == [Failed(false)] || (|frames| == 2 && frames[0] == Started && TerminalFrame(frames[1]))
    ensures Failed(false) in frames ==> queryWrites == 0
    ensures Failed(true) in frames ==> queryWrites == 1
    ensures Started in frames ==> Decode(stream.Visible(), parseRequest).Some?
    ensures Started in frames <==>
              (stream.timely < |stream.chunks| ==> stream.late) && Decode(stream.Visible(), parseRequest).Some?
    ensures Started in frames ==> (queryWrites == 1 <==> Writes(env))
    ensures Started in frames && Completes(env) && parse(Behind(OutBytes(env.ticks))).Some? ==>
              var d := parse(Behind(OutBytes(env.ticks))).value;
              frames == [Started, if framed(d) then Result(d) else Failed(true)]
    ensures Started in frames && !(Completes(env) && parse(Behind(OutBytes(env.ticks))).Some?) ==>
              frames == [Started, Failed(Writes(env))]
    ensures Smooth(env) ==> Completes(env)
    ensures forall d: V :: Result(d) in frames ==> framed(d)
    ensures forall d: V :: Result(d) in frames ==>
              && queryWrites == 1 && env.query == WriteOk && ErrBytes(env.ticks) == []
              && IsPrefix(READY_MARKER, OutBytes(env.ticks)) && parse(Behind(OutBytes(env.ticks))) == Some(d)
  {
    hide Disciplined, OutBytes, ErrBytes, READY_MARKER, IsPrefix, Behind, Decode, Completes, Writes, Smooth;
    queryWrites := 0;
    SmoothCompletes(env);
    var request := stream.ReadRequestFrame(parseRequest);
    if request.None? {
      return [Failed(false)], 0;
    }
    var outcome;
    outcome, queryWrites := ExecuteOperation(env, parse);
    var terminal := match outcome
      case Success(details) => if framed(details) then Result(details) else Failed(true)
      case Failure(queryStarted) => Failed(queryStarted);
    frames := [Started, terminal];
  }
}
