/** Which programs of the engine a stream runs, in which order and on what: laws about
    engines that write down every call made to them. */
module StreamTrace {
  import opened Memory
  import opened Options
  import opened StreamRuntime

  datatype Which = ReportZero | Exec | FlushSom | ReportZeroEod | ReportEod | EodCheck | LastFlush
  datatype Call = Call(which: Which, view: View)

  // ---------------------------------------------------------------- the expected calls

  /** What the program sees after `text`: the data, the last bytes of the text that
      the engine requires, and the length of the text. */
  function Sight(required: nat, text: seq<Byte>, data: seq<Byte>): View {
    View(data, text[if required < |text| then |text| - required else 0..], |text|)
  }

  function IfThere<P>(p: Option<P>, which: Which, v: View): seq<Call> {
    if p.Some? then [Call(which, v)] else []
  }

  /** The calls for one block after `text`. */
  function BlockCalls<S, E>(e: Engine<S, E>, text: seq<Byte>, block: seq<Byte>): seq<Call> {
    var v := Sight(e.historyRequired, text, block);
    if block == [] then []
    else
      (if text == [] then IfThere(e.reportZero, ReportZero, v) else [])
      + [Call(Exec, v)]
      + IfThere(e.flushSom, FlushSom, v)
  }

  /** The calls at the end of `text`. */
  function EndCalls<S, E>(e: Engine<S, E>, text: seq<Byte>): seq<Call> {
    var v := Sight(e.historyRequired, text, []);
    (if text == [] then IfThere(e.reportZeroEod, ReportZeroEod, v)
     else IfThere(e.reportEod, ReportEod, v) + IfThere(e.eodCheck, EodCheck, v))
    + IfThere(e.flushSom, FlushSom, v)
    + IfThere(e.lastFlush, LastFlush, v)
  }

  function Given(block: Option<seq<Byte>>): seq<Byte> {
    if block.Some? then block.value else []
  }

  /** The text the blocks spell; a null block adds nothing. */
  function TextOf(blocks: seq<Option<seq<Byte>>>): seq<Byte> {
    if blocks == [] then [] else TextOf(blocks[..|blocks| - 1]) + Given(blocks[|blocks| - 1])
  }

  function BlocksCalls<S, E>(e: Engine<S, E>, blocks: seq<Option<seq<Byte>>>): seq<Call> {
    if blocks == [] then []
    else
      var k := |blocks| - 1;
      BlocksCalls(e, blocks[..k]) + BlockCalls(e, TextOf(blocks[..k]), Given(blocks[k]))
  }

  // ------------------------------------------------------------- engines that record

  /** The program notes the call in its state and in the log, and does nothing else. */
  ghost predicate Notes(p: Program<seq<Call>, Call>, which: Which) {
    forall c, v :: p(c, v) ==
      Ran(Context(c.state + [Call(which, v)], c.status, c.log + [Call(which, v)]), false)
  }

  ghost predicate Records(e: Engine<seq<Call>, Call>) {
    && (e.reportZero.Some? ==> Notes(e.reportZero.value, ReportZero))
    && Notes(e.exec, Exec)
    && (e.flushSom.Some? ==> Notes(e.flushSom.value, FlushSom))
    && (e.reportZeroEod.Some? ==> Notes(e.reportZeroEod.value, ReportZeroEod))
    && (e.reportEod.Some? ==> Notes(e.reportEod.value, ReportEod))
    && (e.eodCheck.Some? ==> Notes(e.eodCheck.value, EodCheck))
    && (e.lastFlush.Some? ==> Notes(e.lastFlush.value, LastFlush))
  }

  /** The machine has made these calls since it was opened, and taken in this text. */
  ghost predicate Made(e: Engine<seq<Call>, Call>, m: Machine<seq<Call>, Call>, log: seq<Call>,
                       calls: seq<Call>, text: seq<Byte>) {
    && m.log == log + calls && m.stream.state == e.initial + calls && m.stream.status == FRESH
    && m.stream.offset == |text| && m.stream.history == Sight(e.historyRequired, text, []).history
  }

  /** The optional program p runs on, or not at all. */
  lemma RunNotes(p: Option<Program<seq<Call>, Call>>, which: Which, c: Context<seq<Call>, Call>, v: View)
    requires p.Some? ==> Notes(p.value, which)
    ensures RunOptional(p, c, v)
         == Ran(Context(c.state + IfThere(p, which, v), c.status, c.log + IfThere(p, which, v)), false)
    ensures !c.status.terminated ==> Flush(p, c, v) == RunOptional(p, c, v).context
  {
    assert c.state + [] == c.state && c.log + [] == c.log;
  }

  lemma KeptIsSight(required: nat, text: seq<Byte>, data: seq<Byte>)
    ensures Kept(required, |text|, Sight(required, text, []).history, data)
         == Sight(required, text + data, []).history
  {
    KeptIsLast(required, text, data);
  }

  lemma ScanMakes(e: Engine<seq<Call>, Call>, m: Machine<seq<Call>, Call>, log: seq<Call>,
                  calls: seq<Call>, text: seq<Byte>, block: Option<seq<Byte>>)
    requires Records(e) && Made(e, m, log, calls, text)
    ensures var (m', code) := Scan(e, m, block);
            && Made(e, m', log, calls + BlockCalls(e, text, Given(block)), text + Given(block))
            && (code == Success <==> block.Some?)
  {
    hide Kept, Notes, RunOptional, Flush;
    var data := Given(block);
    assert text + [] == text && calls + [] == calls;
    if data != [] {
      var v := Sight(e.historyRequired, text, data);
      var c0 := Context(m.stream.state, m.stream.status, m.log);
      var zero := if text == [] then IfThere(e.reportZero, ReportZero, v) else [];
      RunNotes(e.reportZero, ReportZero, c0, v);
      assert c0.state + [] == c0.state && c0.log + [] == c0.log;
      var c1 := Context(c0.state + zero, c0.status, c0.log + zero);
      ExecNotes(e, c1, v);
      var c2 := e.exec(c1, v).context;
      RunNotes(e.flushSom, FlushSom, c2, v);
      KeptIsSight(e.historyRequired, text, data);
      var flush := IfThere(e.flushSom, FlushSom, v);
      assert BlockCalls(e, text, data) == zero + [Call(Exec, v)] + flush;
      Threaded(log, calls, zero, [Call(Exec, v)], flush);
      Threaded(e.initial, calls, zero, [Call(Exec, v)], flush);
    }
  }

  lemma ExecNotes(e: Engine<seq<Call>, Call>, c: Context<seq<Call>, Call>, v: View)
    requires Records(e)
    ensures e.exec(c, v).context == Context(c.state + [Call(Exec, v)], c.status, c.log + [Call(Exec, v)])
  {}

  lemma Threaded(a: seq<Call>, b: seq<Call>, c: seq<Call>, d: seq<Call>, f: seq<Call>)
    ensures a + b + c + d + f == a + (b + (c + d + f))
  {}

  lemma {:induction false} ScansMake(e: Engine<seq<Call>, Call>, scratch: Status, log: seq<Call>,
                                     blocks: seq<Option<seq<Byte>>>)
    requires Records(e)
    ensures Made(e, ScanEach(e, Open(e, scratch, log), blocks), log, BlocksCalls(e, blocks), TextOf(blocks))
  {
    var m := Open(e, scratch, log);
    if blocks == [] {
      assert log + [] == log && e.initial + [] == e.initial;
    } else {
      hide Scan, Made, BlockCalls;
      var k := |blocks| - 1;
      ScansMake(e, scratch, log, blocks[..k]);
      ScanMakes(e, ScanEach(e, m, blocks[..k]), log, BlocksCalls(e, blocks[..k]), TextOf(blocks[..k]), blocks[k]);
    }
  }

  lemma EndMakes(e: Engine<seq<Call>, Call>, m: Machine<seq<Call>, Call>, log: seq<Call>,
                 calls: seq<Call>, text: seq<Byte>)
    requires Records(e) && Made(e, m, log, calls, text)
    ensures var m' := StreamRuntime.ReportEod(e, m);
            m'.log == log + (calls + EndCalls(e, text)) && m'.stream.state == e.initial + (calls + EndCalls(e, text))
  {
    hide Notes, RunOptional, Flush;
    var v := Sight(e.historyRequired, text, []);
    var c0 := Context(m.stream.state, m.stream.status, m.log);
    var first := if text == [] then e.reportZeroEod else e.reportEod;
    var which := if text == [] then ReportZeroEod else ReportEod;
    RunNotes(first, which, c0, v);
    var c1 := RunOptional(first, c0, v).context;
    RunNotes(e.eodCheck, EodCheck, c1, v);
    var check := if text == [] then [] else IfThere(e.eodCheck, EodCheck, v);
    assert c1.state + [] == c1.state && c1.log + [] == c1.log;
    var c2 := Context(c1.state + check, c1.status, c1.log + check);
    RunNotes(e.flushSom, FlushSom, c2, v);
    var c3 := Flush(e.flushSom, c2, v);
    RunNotes(e.lastFlush, LastFlush, c3, v);
    var a, f, l := IfThere(first, which, v), IfThere(e.flushSom, FlushSom, v), IfThere(e.lastFlush, LastFlush, v);
    assert EndCalls(e, text) == a + check + f + l;
    EndThreaded(log, calls, a, check, f, l);
    EndThreaded(e.initial, calls, a, check, f, l);
  }

  lemma EndThreaded(a: seq<Call>, b: seq<Call>, c: seq<Call>, d: seq<Call>, f: seq<Call>, g: seq<Call>)
    ensures a + b + c + d + f + g == a + (b + (c + d + f + g))
  {}

  /** A stream that is opened, given any blocks and closed runs exactly these programs,
      in this order, each on its block, the end of the text before it and the offset;
      and each program works on the state the one before it left. */
  lemma StreamRunsEveryProgram(e: Engine<seq<Call>, Call>, scratch: Status, log: seq<Call>,
                               blocks: seq<Option<seq<Byte>>>)
    requires Records(e)
    ensures var m := Close(e, ScanEach(e, Open(e, scratch, log), blocks), true);
            var calls := BlocksCalls(e, blocks) + EndCalls(e, TextOf(blocks));
            m.log == log + calls && m.stream.state == e.initial + calls
  {
    hide ScanEach, EndCalls, BlocksCalls, StreamRuntime.ReportEod;
    ScansMake(e, scratch, log, blocks);
    EndMakes(e, ScanEach(e, Open(e, scratch, log), blocks), log, BlocksCalls(e, blocks), TextOf(blocks));
  }

  /** So does a vectored scan of blocks that are all given. */
  lemma VectorRunsEveryProgram(e: Engine<seq<Call>, Call>, scratch: Status, log: seq<Call>,
                               blocks: seq<Option<seq<Byte>>>)
    requires Records(e) && forall b :: b in blocks ==> b.Some?
    ensures Vector(e, scratch, log, blocks, true).0.log
         == log + (BlocksCalls(e, blocks) + EndCalls(e, TextOf(blocks)))
  {
    hide Vector, ScanEach, EndCalls, BlocksCalls, Close;
    StreamRunsEveryProgram(e, scratch, log, blocks);
    VectorIsStream(e, scratch, log, blocks, true);
  }

  // ------------------------------------------------------------------ once it has ended

  /** A call, and the status it left. */
  datatype Note = Note(call: Call, status: Status)

  /** The program writes down the call and its status. Flags are only ever raised, and
      a boundary program that finds or raises one that ends the stream halts. */
  ghost predicate Obeys<S(!new)>(p: Program<S, Note>, which: Which) {
    forall c, v ::
      var r := p(c, v);
      && r.context.log == c.log + [Note(Call(which, v), r.context.status)]
      && (Broken(c.status) ==> Broken(r.context.status))
      && (which in {ReportZero, ReportZeroEod, ReportEod} && Broken(r.context.status) ==> r.halt)
  }

  ghost predicate AllObey<S(!new)>(e: Engine<S, Note>) {
    && (e.reportZero.Some? ==> Obeys(e.reportZero.value, ReportZero))
    && Obeys(e.exec, Exec)
    && (e.flushSom.Some? ==> Obeys(e.flushSom.value, FlushSom))
    && (e.reportZeroEod.Some? ==> Obeys(e.reportZeroEod.value, ReportZeroEod))
    && (e.reportEod.Some? ==> Obeys(e.reportEod.value, ReportEod))
    && (e.eodCheck.Some? ==> Obeys(e.eodCheck.value, EodCheck))
    && (e.lastFlush.Some? ==> Obeys(e.lastFlush.value, LastFlush))
  }

  /** Call y may follow call x: x did not terminate, and if it broke the stream
      otherwise, y flushes what the same call of the user had stored. */
  predicate MayFollow(x: Note, y: Note) {
    && !x.status.terminated
    && (Broken(x.status) ==> y.call.which in {FlushSom, LastFlush} && y.call.view == x.call.view)
  }

  ghost predicate Orderly(notes: seq<Note>) {
    forall i, j :: 0 <= i < j < |notes| ==> MayFollow(notes[i], notes[j])
  }

  /** The calls so far allow a flush on v, if the status is not terminated. */
  ghost predicate FlushNext(notes: seq<Note>, status: Status, v: View) {
    && Orderly(notes)
    && forall i :: 0 <= i < |notes| ==>
         && (notes[i].status.terminated ==> status.terminated)
         && (Broken(notes[i].status) ==> Broken(status) && notes[i].call.view == v)
  }

  /** The calls so far allow any call, if the status is not broken. */
  ghost predicate AnyNext(notes: seq<Note>, status: Status) {
    && Orderly(notes)
    && forall i :: 0 <= i < |notes| && Broken(notes[i].status) ==> Broken(status)
  }

  lemma OrderlyAppend(notes: seq<Note>, n: Note)
    requires Orderly(notes) && forall i :: 0 <= i < |notes| ==> MayFollow(notes[i], n)
    ensures Orderly(notes + [n])
  {}

  lemma AnyRuns<S(!new)>(p: Program<S, Note>, which: Which, c: Context<S, Note>, v: View)
    requires Obeys(p, which) && AnyNext(c.log, c.status) && !Broken(c.status)
    ensures var r := p(c, v).context; FlushNext(r.log, r.status, v) && AnyNext(r.log, r.status)
  {
    OrderlyAppend(c.log, Note(Call(which, v), p(c, v).context.status));
  }

  lemma FlushRuns<S(!new)>(p: Option<Program<S, Note>>, which: Which, c: Context<S, Note>, v: View)
    requires p.Some? ==> Obeys(p.value, which) && which in {FlushSom, LastFlush}
    requires FlushNext(c.log, c.status, v)
    ensures var r := Flush(p, c, v); FlushNext(r.log, r.status, v) && AnyNext(r.log, r.status)
  {
    if p.Some? && !c.status.terminated {
      OrderlyAppend(c.log, Note(Call(which, v), p.value(c, v).context.status));
    }
  }

  lemma ScanIsOrderly<S(!new)>(e: Engine<S, Note>, m: Machine<S, Note>, block: Option<seq<Byte>>)
    requires AllObey(e) && AnyNext(m.log, m.stream.status)
    ensures var m' := Scan(e, m, block).0; AnyNext(m'.log, m'.stream.status)
  {
    hide Kept, Obeys, AnyNext, FlushNext, Flush, Last;
    if block.Some? && block.value != [] && !Broken(m.stream.status) {
      var v := View(block.value, m.stream.history, m.stream.offset);
      var c0 := Context(m.stream.state, m.stream.status, m.log);
      var first := m.stream.offset == 0 && e.reportZero.Some?;
      if first {
        AnyRuns(e.reportZero.value, ReportZero, c0, v);
        HaltsBroken(e.reportZero.value, ReportZero, c0, v);
      }
      var zero := if first then e.reportZero.value(c0, v) else Ran(c0, false);
      if !zero.halt {
        AnyRuns(e.exec, Exec, zero.context, v);
        FlushRuns(e.flushSom, FlushSom, e.exec(zero.context, v).context, v);
      }
    }
  }

  lemma HaltsBroken<S(!new)>(p: Program<S, Note>, which: Which, c: Context<S, Note>, v: View)
    requires Obeys(p, which) && which in {ReportZero, ReportZeroEod, ReportEod}
    ensures Broken(p(c, v).context.status) ==> p(c, v).halt
  {}

  lemma {:induction false} ScansAreOrderly<S(!new)>(e: Engine<S, Note>, scratch: Status,
                                                    blocks: seq<Option<seq<Byte>>>)
    requires AllObey(e)
    ensures var m := ScanEach(e, Open(e, scratch, []), blocks); AnyNext(m.log, m.stream.status)
  {
    hide Scan, AllObey;
    if blocks != [] {
      var k := |blocks| - 1;
      ScansAreOrderly(e, scratch, blocks[..k]);
      ScanIsOrderly(e, ScanEach(e, Open(e, scratch, []), blocks[..k]), blocks[k]);
    }
  }

  lemma EndIsOrderly<S(!new)>(e: Engine<S, Note>, m: Machine<S, Note>)
    requires AllObey(e) && AnyNext(m.log, m.stream.status)
    ensures Orderly(StreamRuntime.ReportEod(e, m).log)
  {
    if !Broken(m.stream.status) {
      assert FlushNext(m.log, m.stream.status, View([], m.stream.history, m.stream.offset));
      EndRuns(e, m);
    }
  }

  lemma EndRuns<S(!new)>(e: Engine<S, Note>, m: Machine<S, Note>)
    requires AllObey(e) && AnyNext(m.log, m.stream.status) && !Broken(m.stream.status)
    requires FlushNext(m.log, m.stream.status, View([], m.stream.history, m.stream.offset))
    ensures Orderly(StreamRuntime.ReportEod(e, m).log)
  {
    hide Obeys, AnyNext, FlushNext, Flush, Orderly;
    var v := View([], m.stream.history, m.stream.offset);
    var c0 := Context(m.stream.state, m.stream.status, m.log);
    var p := if m.stream.offset == 0 then e.reportZeroEod else e.reportEod;
    var which := if m.stream.offset == 0 then ReportZeroEod else ReportEod;
    if p.Some? {
      AnyRuns(p.value, which, c0, v);
      HaltsBroken(p.value, which, c0, v);
    }
    var c1 := RunOptional(p, c0, v).context;
    NextIsOrderly(c1.log, c1.status);
    if !RunOptional(p, c0, v).halt {
      var check := m.stream.offset != 0 && e.eodCheck.Some?;
      if check {
        AnyRuns(e.eodCheck.value, EodCheck, c1, v);
      }
      var c2 := if check then e.eodCheck.value(c1, v).context else c1;
      FlushRuns(e.flushSom, FlushSom, c2, v);
      FlushRuns(e.lastFlush, LastFlush, Flush(e.flushSom, c2, v), v);
      var c3 := Flush(e.lastFlush, Flush(e.flushSom, c2, v), v);
      NextIsOrderly(c3.log, c3.status);
    }
  }

  lemma NextIsOrderly(notes: seq<Note>, status: Status)
    ensures AnyNext(notes, status) ==> Orderly(notes)
  {
    hide Orderly;
  }

  /** Over any stream, closing included: no program runs after one that ended the scan,
      and after one that broke the stream only flushes run, in the same call. */
  lemma NothingRunsAfterTheEnd<S(!new)>(e: Engine<S, Note>, scratch: Status, blocks: seq<Option<seq<Byte>>>,
                                        onEvent: bool)
    requires AllObey(e)
    ensures Orderly(Close(e, ScanEach(e, Open(e, scratch, []), blocks), onEvent).log)
  {
    hide ScanEach, AllObey, Orderly, StreamRuntime.ReportEod;
    ScansAreOrderly(e, scratch, blocks);
    var m := ScanEach(e, Open(e, scratch, []), blocks);
    NextIsOrderly(m.log, m.stream.status);
    EndIsOrderly(e, m);
  }
}
