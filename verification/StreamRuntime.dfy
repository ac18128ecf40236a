/** Streaming scans (src/runtime.c): the history buffer, the stream offset, the sticky
    status, and vectored scans as a composition of stream calls. The matching engine
    and the user's callback are deterministic programs that change the engine state,
    raise status flags and append to a log of callbacks; nothing else is assumed. */
module StreamRuntime {

  import opened Memory
  import opened Options

  datatype Status = Status(terminated: bool, exhausted: bool, delayDirty: bool, error: bool)

  const FRESH: Status := Status(false, false, false, false)

  /** The flags that end a stream. */
  predicate Broken(s: Status) {
    s.terminated || s.exhausted || s.error
  }

  datatype Code = Success | Invalid | Terminated | UnknownError

  /** What a program changes, and what it can look at. */
  datatype Context<S, E> = Context(state: S, status: Status, log: seq<E>)
  datatype View = View(data: seq<Byte>, history: seq<Byte>, offset: nat)
  datatype Ran<S, E> = Ran(context: Context<S, E>, halt: bool)

  type Program<!S, !E> = (Context<S, E>, View) -> Ran<S, E>

  datatype Engine<!S, !E> = Engine(
    historyRequired: nat,
    initial: S,
    reportZero: Option<Program<S, E>>,
    exec: Program<S, E>,
    flushSom: Option<Program<S, E>>,
    reportZeroEod: Option<Program<S, E>>,
    reportEod: Option<Program<S, E>>,
    eodCheck: Option<Program<S, E>>,
    lastFlush: Option<Program<S, E>>)

  /** A stream: `history` is what getHistory exposes. */
  datatype Stream<S> = Stream(state: S, status: Status, offset: nat, history: seq<Byte>)

  /** A stream, the status left in the scratch space, and the callbacks so far. */
  datatype Machine<S, E> = Machine(stream: Stream<S>, scratch: Status, log: seq<E>)

  // ------------------------------------------------------------------- the history

  function Min(a: nat, b: nat): nat { if a < b then a else b }

  function Last<T>(s: seq<T>, n: nat): seq<T> {
    if n <= |s| then s[|s| - n..] else s
  }

  /** The exposed history after more data. */
  function Kept(required: nat, offset: nat, history: seq<Byte>, data: seq<Byte>): seq<Byte> {
    Last(history + data, Min(required, offset + |data|))
  }

  // ---------------------------------------------------------------------- the calls

  function RunOptional<S, E>(p: Option<Program<S, E>>, c: Context<S, E>, v: View): Ran<S, E> {
    if p.Some? then p.value(c, v) else Ran(c, false)
  }

  /** A flush is skipped once told to stop, and a halt from it terminates. */
  function Flush<S, E>(p: Option<Program<S, E>>, c: Context<S, E>, v: View): Context<S, E> {
    if c.status.terminated then c
    else
      var r := RunOptional(p, c, v);
      if r.halt then r.context.(status := r.context.status.(terminated := true)) else r.context
  }

  function Stopped(s: Status): Code {
    if s.error then UnknownError else if s.terminated then Terminated else Success
  }

  function After<S, E>(m: Machine<S, E>, c: Context<S, E>): Machine<S, E> {
    Machine(m.stream.(state := c.state, status := c.status), c.status, c.log)
  }

  /** hs_scan_stream_internal; no data is a null pointer. */
  function Scan<S, E>(e: Engine<S, E>, m: Machine<S, E>, data: Option<seq<Byte>>): (Machine<S, E>, Code) {
    if data.None? then (m, Invalid)
    else if Broken(m.stream.status) then (m, Stopped(m.stream.status))
    else if data.value == [] then (m, Success)
    else
      var v := View(data.value, m.stream.history, m.stream.offset);
      var c0 := Context(m.stream.state, m.stream.status, m.log);
      var zero := if m.stream.offset == 0 then RunOptional(e.reportZero, c0, v) else Ran(c0, false);
      if zero.halt then (After(m, zero.context), if zero.context.status.terminated then Terminated else Success)
      else
        var c := Flush(e.flushSom, e.exec(zero.context, v).context, v);
        var after := After(m, c);
        if Broken(c.status) then (after, Stopped(c.status))
        else
          (after.(stream := after.stream.(
            offset := m.stream.offset + |data.value|,
            history := Kept(e.historyRequired, m.stream.offset, m.stream.history, data.value))), Success)
  }

  /** report_eod_matches: the stream's own status is left as it was. */
  function ReportEod<S, E>(e: Engine<S, E>, m: Machine<S, E>): Machine<S, E> {
    if Broken(m.stream.status) then m
    else
      var v := View([], m.stream.history, m.stream.offset);
      var c0 := Context(m.stream.state, m.stream.status, m.log);
      var boundary := RunOptional(if m.stream.offset == 0 then e.reportZeroEod else e.reportEod, c0, v);
      var c :=
        if boundary.halt then boundary.context
        else
          var checked :=
            if m.stream.offset == 0 || Broken(boundary.context.status) then boundary.context
            else RunOptional(e.eodCheck, boundary.context, v).context;
          Flush(e.lastFlush, Flush(e.flushSom, checked, v), v);
      Machine(m.stream.(state := c.state), c.status, c.log)
  }

  // --------------------------------------------------------------------- whole runs

  function Open<S, E>(e: Engine<S, E>, scratch: Status, log: seq<E>): Machine<S, E> {
    Machine(Stream(e.initial, FRESH, 0, []), scratch, log)
  }

  /** Scanning block after block, whatever each call returns. */
  function ScanEach<S, E>(e: Engine<S, E>, m: Machine<S, E>, blocks: seq<Option<seq<Byte>>>): Machine<S, E> {
    if blocks == [] then m else Scan(e, ScanEach(e, m, blocks[..|blocks| - 1]), blocks[|blocks| - 1]).0
  }

  /** Closing: the end-of-data matches, if a callback is given. */
  function Close<S, E>(e: Engine<S, E>, m: Machine<S, E>, onEvent: bool): Machine<S, E> {
    if onEvent then ReportEod(e, m) else m
  }

  /** The scan takes the data in: the stream lives on. */
  predicate Takes<S, E>(e: Engine<S, E>, m: Machine<S, E>, data: Option<seq<Byte>>) {
    data.Some? && Scan(e, m, data).0.stream.offset == m.stream.offset + |data.value|
  }

  function Taken<S, E>(e: Engine<S, E>, m: Machine<S, E>, data: Option<seq<Byte>>): seq<Byte> {
    if Takes(e, m, data) then data.value else []
  }

  /** The bytes a run of scans has taken in. */
  function Consumed<S, E>(e: Engine<S, E>, m: Machine<S, E>, blocks: seq<Option<seq<Byte>>>): seq<Byte> {
    if blocks == [] then []
    else
      var rest := blocks[..|blocks| - 1];
      Consumed(e, m, rest) + Taken(e, ScanEach(e, m, rest), blocks[|blocks| - 1])
  }

  /** The stream has taken in this text, and exposes its last bytes. */
  ghost predicate Holds<S>(required: nat, s: Stream<S>, text: seq<Byte>) {
    s.offset == |text| && s.history == Last(text, Min(required, |text|))
  }

  lemma KeptIsLast(required: nat, text: seq<Byte>, data: seq<Byte>)
    ensures Kept(required, |text|, Last(text, Min(required, |text|)), data)
         == Last(text + data, Min(required, |text + data|))
  {
    var h := Last(text, Min(required, |text|));
    assert text == text[..|text| - |h|] + h;
    assert text + data == text[..|text| - |h|] + (h + data);
  }

  lemma ScanHolds<S, E>(e: Engine<S, E>, m: Machine<S, E>, data: Option<seq<Byte>>, text: seq<Byte>)
    requires Holds(e.historyRequired, m.stream, text)
    ensures Holds(e.historyRequired, Scan(e, m, data).0.stream, text + Taken(e, m, data))
  {
    hide Last, Flush, RunOptional;
    assert text + [] == text;
    if data.Some? {
      KeptIsLast(e.historyRequired, text, data.value);
    }
  }

  /** After any writes of any lengths, the offset is the length of the text taken in
      and the history exposed is its last min(historyRequired, offset) bytes. */
  lemma {:induction false} HistoryIsTail<S, E>(
      e: Engine<S, E>, scratch: Status, log: seq<E>, blocks: seq<Option<seq<Byte>>>)
    ensures var m := Open(e, scratch, log);
            Holds(e.historyRequired, ScanEach(e, m, blocks).stream, Consumed(e, m, blocks))
  {
    hide Scan, Taken;
    var m := Open(e, scratch, log);
    if blocks != [] {
      var k := |blocks| - 1;
      HistoryIsTail(e, scratch, log, blocks[..k]);
      ScanHolds(e, ScanEach(e, m, blocks[..k]), blocks[k], Consumed(e, m, blocks[..k]));
    }
  }

  /** A boundary program that halts has raised a flag that ends the stream. */
  ghost predicate HaltEnds<S(!new), E(!new)>(e: Engine<S, E>) {
    e.reportZero.Some? ==>
      forall c, v :: e.reportZero.value(c, v).halt ==> Broken(e.reportZero.value(c, v).context.status)
  }

  lemma LivingTakes<S(!new), E(!new)>(e: Engine<S, E>, m: Machine<S, E>, data: Option<seq<Byte>>)
    requires HaltEnds(e) && data.Some? && !Broken(Scan(e, m, data).0.stream.status)
    ensures Takes(e, m, data) && !Broken(m.stream.status)
  {
    hide Kept, Flush;
  }

  function Joined(blocks: seq<Option<seq<Byte>>>): seq<Byte>
    requires forall b :: b in blocks ==> b.Some?
  {
    if blocks == [] then [] else Joined(blocks[..|blocks| - 1]) + blocks[|blocks| - 1].value
  }

  /** While the stream lives, it has taken in every block. */
  lemma {:induction false} LivingConsumesAll<S(!new), E(!new)>(
      e: Engine<S, E>, m: Machine<S, E>, blocks: seq<Option<seq<Byte>>>)
    requires HaltEnds(e) && (forall b :: b in blocks ==> b.Some?)
    requires !Broken(ScanEach(e, m, blocks).stream.status)
    ensures Consumed(e, m, blocks) == Joined(blocks)
  {
    hide Scan, Takes, HaltEnds, Broken;
    if blocks != [] {
      var k := |blocks| - 1;
      LivingTakes(e, ScanEach(e, m, blocks[..k]), blocks[k]);
      LivingConsumesAll(e, m, blocks[..k]);
    }
  }

  /** The code tells the status: a null block, an error, a termination, or neither. */
  lemma CodeTells<S, E>(e: Engine<S, E>, m: Machine<S, E>, data: Option<seq<Byte>>)
    ensures var (m', code) := Scan(e, m, data);
            && (code == Invalid <==> data.None?)
            && (code == UnknownError ==> m'.stream.status.error)
            && (code == Terminated ==> m'.stream.status.terminated)
            && (data.Some? && code == Success ==> !m'.stream.status.terminated)
            && (data.Some? && m'.stream.status.error && (m.stream.offset > 0 || e.reportZero.None?) ==>
                  code == UnknownError)
            && (m'.stream.offset != m.stream.offset ==> code == Success && !Broken(m'.stream.status))
  {
    hide Kept, Flush;
  }

  // ---------------------------------------------------------------- a broken stream

  /** Once terminated, exhausted or in error, no call changes the stream or delivers
      anything, closing included. */
  lemma {:induction false} BrokenStaysBroken<S, E>(
      e: Engine<S, E>, m: Machine<S, E>, blocks: seq<Option<seq<Byte>>>, onEvent: bool)
    requires Broken(m.stream.status)
    ensures Close(e, ScanEach(e, m, blocks), onEvent) == ScanEach(e, m, blocks) == m
  {
    if blocks != [] {
      BrokenStaysBroken(e, m, blocks[..|blocks| - 1], onEvent);
    }
  }

  // -------------------------------------------------------------- vectored scanning

  /** The loop of hs_scan_vector: it stops at the first call that does not succeed. */
  function ScanWhileSuccess<S, E>(
      e: Engine<S, E>, m: Machine<S, E>, blocks: seq<Option<seq<Byte>>>): (Machine<S, E>, Code)
  {
    if blocks == [] then (m, Success)
    else
      var r := ScanWhileSuccess(e, m, blocks[..|blocks| - 1]);
      if r.1 != Success then r else Scan(e, r.0, blocks[|blocks| - 1])
  }

  /** hs_scan_vector. */
  function Vector<S, E>(e: Engine<S, E>, scratch: Status, log: seq<E>, blocks: seq<Option<seq<Byte>>>, onEvent: bool)
    : (Machine<S, E>, Code)
  {
    var r := ScanWhileSuccess(e, Open(e, scratch, log), blocks);
    if r.1 != Success || !onEvent then r
    else
      var m := ReportEod(e, r.0);
      (m, Stopped(m.scratch))
  }

  /** Up to the first null block, stopping early changes nothing: the scans that are
      then left out would not have done anything. */
  lemma {:induction false} StoppingEarlyIsSame<S, E>(e: Engine<S, E>, m: Machine<S, E>, blocks: seq<Option<seq<Byte>>>)
    requires forall b :: b in blocks ==> b.Some?
    ensures var r := ScanWhileSuccess(e, m, blocks);
            r.0 == ScanEach(e, m, blocks) && (r.1 != Success ==> Broken(r.0.stream.status))
  {
    hide Scan;
    if blocks != [] {
      var k := |blocks| - 1;
      StoppingEarlyIsSame(e, m, blocks[..k]);
      var r := ScanWhileSuccess(e, m, blocks[..k]);
      ScanEndsBroken(e, r.0, blocks[k]);
    }
  }

  lemma ScanEndsBroken<S, E>(e: Engine<S, E>, m: Machine<S, E>, data: Option<seq<Byte>>)
    requires data.Some?
    ensures Scan(e, m, data).1 != Success ==> Broken(Scan(e, m, data).0.stream.status)
    ensures Broken(m.stream.status) ==> Scan(e, m, data).0 == m
  {
    hide Kept, Flush;
  }

  /** With every block given, a vectored scan ends in the same state and delivers the
      same callbacks as opening a stream, scanning each block and closing it. */
  lemma VectorIsStream<S, E>(
      e: Engine<S, E>, scratch: Status, log: seq<E>, blocks: seq<Option<seq<Byte>>>, onEvent: bool)
    requires forall b :: b in blocks ==> b.Some?
    ensures Vector(e, scratch, log, blocks, onEvent).0 == Close(e, ScanEach(e, Open(e, scratch, log), blocks), onEvent)
  {
    hide ScanWhileSuccess, ScanEach;
    StoppingEarlyIsSame(e, Open(e, scratch, log), blocks);
  }

  lemma {:induction false} ScansStopAtNull<S, E>(e: Engine<S, E>, m: Machine<S, E>,
                                                 before: seq<Option<seq<Byte>>>, after: seq<Option<seq<Byte>>>)
    requires forall b :: b in before ==> b.Some?
    ensures var r := ScanWhileSuccess(e, m, before + [None] + after); r.0 == ScanEach(e, m, before) && r.1 != Success
    decreases |after|
  {
    hide ScanEach, Scan;
    var blocks := before + [None] + after;
    var k := |blocks| - 1;
    if after == [] {
      assert blocks[..k] == before;
      StoppingEarlyIsSame(e, m, before);
      NullIsInvalid(e, ScanWhileSuccess(e, m, before).0);
    } else {
      assert blocks[..k] == before + [None] + after[..|after| - 1];
      ScansStopAtNull(e, m, before, after[..|after| - 1]);
    }
  }

  lemma NullIsInvalid<S, E>(e: Engine<S, E>, m: Machine<S, E>)
    ensures Scan(e, m, None) == (m, Invalid)
  {}

  /** A null block ends a vectored scan: it delivers what scanning the blocks before it
      delivers, and no end-of-data matches. */
  lemma VectorStopsAtNull<S, E>(e: Engine<S, E>, scratch: Status, log: seq<E>,
                                before: seq<Option<seq<Byte>>>, after: seq<Option<seq<Byte>>>, onEvent: bool)
    requires forall b :: b in before ==> b.Some?
    ensures var r := Vector(e, scratch, log, before + [None] + after, onEvent);
            r.0 == ScanEach(e, Open(e, scratch, log), before) && r.1 != Success
  {
    hide ScanEach, ScanWhileSuccess;
    ScansStopAtNull(e, Open(e, scratch, log), before, after);
  }

  // ----------------------------------------------------------- the objects themselves

  /** memmove of everything from `gap` on to the front. */
  method MoveDown(a: array<Byte>, gap: nat)
    requires gap <= a.Length
    modifies a
    ensures forall i :: 0 <= i < a.Length - gap ==> a[i] == old(a[..])[i + gap]
    ensures forall i :: a.Length - gap <= i < a.Length ==> a[i] == old(a[..])[i]
  {
    ghost var was := a[..];
    var k := 0;
    while k < a.Length - gap
      invariant 0 <= k <= a.Length - gap
      invariant forall i :: 0 <= i < k ==> a[i] == was[i + gap]
      invariant forall i :: k <= i < a.Length ==> a[i] == was[i]
    {
      a[k] := a[k + gap];
      k := k + 1;
    }
  }

  /** memcpy of the end of the data to the end of the buffer. */
  method CopyEnd(a: array<Byte>, data: seq<Byte>, amount: nat)
    requires amount <= a.Length && amount <= |data|
    modifies a
    ensures forall i :: 0 <= i < a.Length - amount ==> a[i] == old(a[..])[i]
    ensures forall i :: a.Length - amount <= i < a.Length ==> a[i] == data[|data| - a.Length + i]
  {
    ghost var was := a[..];
    var k := a.Length - amount;
    while k < a.Length
      invariant a.Length - amount <= k <= a.Length
      invariant forall i :: 0 <= i < a.Length - amount ==> a[i] == was[i]
      invariant forall i :: a.Length - amount <= i < k ==> a[i] == data[|data| - a.Length + i]
    {
      a[k] := data[|data| - a.Length + k];
      k := k + 1;
    }
  }

  /** maintainHistoryBuffer: the buffer ends up with the last bytes of what it held
      followed by the data. */
  method MaintainHistoryBuffer(history: array<Byte>, data: seq<Byte>)
    modifies history
    ensures history[..] == Last(old(history[..]) + data, history.Length)
  {
    hide Last;
    ghost var was := history[..];
    var required := history.Length;
    LastAt(was, data);
    if required == 0 {
      return;
    }
    if |data| == 0 {
      assert was + data == was;
      return;
    }
    if |data| < required {
      MoveDown(history, |data|);
    }
    CopyEnd(history, data, Min(required, |data|));
    assert forall i :: 0 <= i < required ==> history[..][i] == Last(was + data, required)[i];
  }

  lemma LastAt(was: seq<Byte>, data: seq<Byte>)
    ensures var r := Last(was + data, |was|);
            |r| == |was| && forall i :: 0 <= i < |r| ==>
              r[i] == if i + |data| < |was| then was[i + |data|] else data[|data| - |was| + i]
  {}

  /** A stream in memory with the scratch space it is scanned with. */
  class LiveStream<S, E> {
    const engine: Engine<S, E>
    var state: S
    var status: Status
    var offset: nat
    const history: array<Byte>
    var scratch: Status
    var log: seq<E>

    ghost predicate Valid()
      reads this, history
    {
      history.Length == engine.historyRequired
    }

    /** getHistory and getHistoryAmount: the end of the buffer, as far as written. */
    function GetHistory(): (r: seq<Byte>)
      requires Valid()
      reads this, history
      ensures |r| == Min(engine.historyRequired, offset)
    {
      history[engine.historyRequired - Min(engine.historyRequired, offset)..]
    }

    ghost function Abstract(): Machine<S, E>
      requires Valid()
      reads this, history
    {
      Machine(Stream(state, status, offset, GetHistory()), scratch, log)
    }

    /** hs_open_stream: the end of the history buffer is filled, though none of it
        is exposed yet. */
    constructor (engine: Engine<S, E>, scratch: Status, log: seq<E>)
      ensures Valid() && this.engine == engine && Abstract() == Open(engine, scratch, log) && fresh(history)
    {
      this.engine, this.state, this.status, this.offset := engine, engine.initial, FRESH, 0;
      this.history := new Byte[engine.historyRequired](_ => 0x5a);
      this.scratch, this.log := scratch, log;
    }

    method Settle(c: Context<S, E>)
      requires Valid()
      modifies this
      ensures Valid() && Abstract() == After(old(Abstract()), c)
    {
      state, status, scratch, log := c.state, c.status, c.status, c.log;
    }

    method Advance(data: seq<Byte>)
      requires Valid()
      modifies this, history
      ensures Valid()
      ensures Abstract() == old(Abstract()).(stream := old(Abstract()).stream.(
                offset := old(offset) + |data|,
                history := Kept(engine.historyRequired, old(offset), old(GetHistory()), data)))
    {
      hide Last, Kept;
      ghost var was := history[..];
      ExposedIsKept(engine.historyRequired, offset, was, data);
      LastOfLast(was + data, history.Length, 0);
      MaintainHistoryBuffer(history, data);
      offset := offset + |data|;
      assert GetHistory() == history[..][history.Length - Min(history.Length, offset)..];
      assert old(GetHistory()) == was[history.Length - Min(history.Length, old(offset))..];
    }

    /** hs_scan_stream_internal. */
    method ScanInternal(data: Option<seq<Byte>>) returns (code: Code)
      requires Valid()
      modifies this, history
      ensures Valid() && (Abstract(), code) == Scan(engine, old(Abstract()), data)
    {
      hide Kept, Valid;
      if data.None? {
        return Invalid;
      }
      if Broken(status) {
        return Stopped(status);
      }
      if |data.value| == 0 {
        return Success;
      }
      var view := View(data.value, GetHistory(), offset);
      var context := Context(state, status, log);
      if offset == 0 && engine.reportZero.Some? {
        var zero := engine.reportZero.value(context, view);
        context := zero.context;
        if zero.halt {
          Settle(context);
          return if context.status.terminated then Terminated else Success;
        }
      }
      context := engine.exec(context, view).context;
      context := Flush(engine.flushSom, context, view);
      Settle(context);
      if context.status.error {
        return UnknownError;
      } else if !Broken(context.status) {
        Advance(data.value);
      } else if context.status.terminated {
        return Terminated;
      }
      return Success;
    }

    /** report_eod_matches. */
    method ReportEodMatches()
      requires Valid()
      modifies this
      ensures Valid() && Abstract() == ReportEod(engine, old(Abstract()))
    {
      hide Flush;
      if Broken(status) {
        return;
      }
      var view := View([], GetHistory(), offset);
      var ran := RunOptional(if offset == 0 then engine.reportZeroEod else engine.reportEod,
                             Context(state, status, log), view);
      var context := ran.context;
      if !ran.halt {
        if offset != 0 && !Broken(context.status) {
          context := RunOptional(engine.eodCheck, context, view).context;
        }
        context := Flush(engine.flushSom, context, view);
        context := Flush(engine.lastFlush, context, view);
      }
      state, scratch, log := context.state, context.status, context.log;
    }

    /** hs_scan_vector, on a stream just opened. */
    method ScanVector(blocks: seq<Option<seq<Byte>>>, onEvent: bool) returns (code: Code)
      requires Valid() && Abstract() == Open(engine, scratch, log)
      modifies this, history
      ensures Valid() && (Abstract(), code) == Vector(engine, old(scratch), old(log), blocks, onEvent)
    {
      hide Scan, ReportEod, Valid, GetHistory;
      ghost var m := Abstract();
      var i := 0;
      while i < |blocks|
        invariant 0 <= i <= |blocks| && Valid()
        invariant (Abstract(), Success) == ScanWhileSuccess(engine, m, blocks[..i])
      {
        assert blocks[..i + 1][..i] == blocks[..i];
        code := ScanInternal(blocks[i]);
        i := i + 1;
        if code != Success {
          StopsThere(engine, m, blocks, i);
          return;
        }
      }
      assert blocks[..i] == blocks;
      if onEvent {
        ReportEodMatches();
        return Stopped(scratch);
      }
      return Success;
    }
  }

  lemma ExposedIsKept(required: nat, offset: nat, was: seq<Byte>, data: seq<Byte>)
    requires |was| == required
    ensures var now := Last(was + data, required);
            now[required - Min(required, offset + |data|)..]
            == Kept(required, offset, was[required - Min(required, offset)..], data)
  {
    hide Last;
    var k, k' := Min(required, offset), Min(required, offset + |data|);
    var a, b := was[..required - k], was[required - k..] + data;
    assert was + data == a + b;
    LastOfLast(was + data, required, k');
    LastDrops(a, b, k');
  }

  lemma LastDrops(a: seq<Byte>, b: seq<Byte>, n: nat)
    requires n <= |b|
    ensures Last(a + b, n) == Last(b, n)
  {}

  lemma LastOfLast(s: seq<Byte>, n: nat, k: nat)
    requires k <= n <= |s|
    ensures |Last(s, n)| == n && Last(s, n)[n - k..] == Last(s, k)
  {}

  lemma {:induction false} StopsThere<S, E>(e: Engine<S, E>, m: Machine<S, E>, blocks: seq<Option<seq<Byte>>>, i: nat)
    requires i <= |blocks| && ScanWhileSuccess(e, m, blocks[..i]).1 != Success
    ensures ScanWhileSuccess(e, m, blocks) == ScanWhileSuccess(e, m, blocks[..i])
    decreases |blocks|
  {
    hide Scan;
    if i == |blocks| {
      assert blocks[..i] == blocks;
    } else {
      var k := |blocks| - 1;
      assert blocks[..k][..i] == blocks[..i];
      StopsThere(e, m, blocks[..k], i);
    }
  }
}
