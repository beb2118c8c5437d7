/** What one call of processfrm (voice_activation.cpp) sends, event by event, told from the flags before the call and
    the answers it gets: a decision table beside the step-by-step model. */
module ActivationEvents {
  import opened Activation

  /** What the call finds in the two flags that `control` may write at any time, where it looks at them. */
  datatype Reads = Reads(needToOpen: bool, awakedToOpen: bool, awakedToCancel: bool, needToCancel: bool, awakedToResume: bool)

  // ---------------------------------------------------------------- words

  predicate WakeWord(f: FrameInput) { f.pre && !f.cancelBit }

  /** A word of type `word` was found, with or without a command behind it. */
  predicate Found(f: FrameInput, word: WordType, bit: bool) { WakeWord(f) && bit && f.word == word }

  predicate WithCommand(f: FrameInput) {
    Found(f, WordAwake, f.cmdBit) || Found(f, WordSleep, f.cmdBit) || Found(f, WordHotword, f.cmdBit)
  }

  predicate WithoutCommand(f: FrameInput) {
    Found(f, WordAwake, f.nocmdBit) || Found(f, WordSleep, f.nocmdBit) || Found(f, WordHotword, f.nocmdBit)
  }

  lemma Decoded(f: FrameInput)
    ensures f.AwakePre() == WakeWord(f) && f.Awake() == Found(f, WordAwake, true)
    ensures f.Cmd() == WithCommand(f) && f.Nocmd() == WithoutCommand(f)
  {
  }

  // ---------------------------------------------------------------- the segment

  function Answers(vad: seq<bool>): nat {
    if vad == [] then 0 else Answers(vad[1..]) + if vad[0] then 1 else 0
  }

  /** A segment is under way when the detector is asked. */
  predicate Inside(s: State, f: FrameInput) { s.hasVad && !WakeWord(f) }

  predicate SegmentStarts(s: State, f: FrameInput) { !Inside(s, f) && Answers(f.vad) >= 1 }

  predicate SegmentStops(s: State, f: FrameInput) { Answers(f.vad) >= if Inside(s, f) then 1 else 2 }

  /** The detector's logic: the first answer outside a segment starts one, the next one stops it, and after that the
      frame is left alone. */
  lemma {:induction false} CheckVadCounts(r: VadResult, vad: seq<bool>, i: nat)
    requires i <= |vad| && !r.off && (r.on ==> r.hasVad)
    ensures var q := CheckVad(r, vad, i); var n := Answers(vad[i..]);
      && q.on == (r.on || (!r.hasVad && n >= 1))
      && q.off == (n >= if r.hasVad then 1 else 2)
      && q.hasVad == (!q.off && (r.hasVad || n >= 1))
    decreases |vad| - i
  {
    if i < |vad| {
      assert vad[i..][1..] == vad[i + 1..];
      var r1 := if !r.hasVad then (if vad[i] then r.(hasVad := true, on := true) else r)
                else if vad[i] then r.(off := true) else r;
      if !(r1.hasVad && r1.off) { CheckVadCounts(r1, vad, i + 1); }
    }
  }

  // ---------------------------------------------------------------- the table

  /** The flags as the session part meets them. */
  predicate InSegment(s: State, f: FrameInput) { SegmentStarts(s, f) || (s.vadOn && !WakeWord(f)) }
  predicate WasOut(s: State, f: FrameInput) { s.dataOutput && !SegmentStarts(s, f) && !(WakeWord(f) && s.vadEnable) }
  predicate WasCanceled(s: State, f: FrameInput) { s.canceled && !SegmentStarts(s, f) && !WakeWord(f) }

  predicate ByAsr(r: Reads) { r.needToOpen && !r.awakedToOpen }

  predicate Starts(s: State, f: FrameInput, r: Reads) {
    InSegment(s, f) && !WasOut(s, f) && (WithCommand(f) || (!WithoutCommand(f) && ByAsr(r)))
  }

  /** `data_output` after the opening branch. */
  predicate IsOut(s: State, f: FrameInput, r: Reads) {
    InSegment(s, f) && (WasOut(s, f) || WithCommand(f) || WithoutCommand(f) || ByAsr(r))
  }

  predicate IsCanceled(s: State, f: FrameInput) {
    WasCanceled(s, f) || (!WasOut(s, f) && WithoutCommand(f) && !WithCommand(f))
  }

  predicate Cancels(s: State, f: FrameInput, r: Reads) {
    && IsOut(s, f, r) && !IsCanceled(s, f)
    && ((s.vadEnable && f.tooLong) || (!r.awakedToCancel && !r.needToCancel))
  }

  predicate Resumes(s: State, f: FrameInput, r: Reads) {
    && IsOut(s, f, r) && s.vadEnable && (IsCanceled(s, f) || Cancels(s, f, r))
    && r.awakedToResume && f.needResume
  }

  /** A session is open when data is due. */
  predicate OpenAtData(s: State, f: FrameInput, r: Reads) {
    IsOut(s, f, r) && ((!IsCanceled(s, f) && !Cancels(s, f, r)) || Resumes(s, f, r))
  }

  predicate EndsSession(s: State, f: FrameInput, r: Reads) {
    SegmentStops(s, f) && s.vadEnable && if InSegment(s, f) then OpenAtData(s, f, r) else WasOut(s, f) && !WasCanceled(s, f)
  }

  /** `e` if `c`. */
  function When(c: bool, e: Event): seq<Event> { if c then [e] else [] }

  function WordsSent(f: FrameInput): seq<Event> {
    When(Found(f, WordSleep, f.nocmdBit), LocalSleep) + When(Found(f, WordAwake, f.nocmdBit), WakeNoCmd) +
    When(Found(f, WordHotword, f.nocmdBit), Hotword) + When(Found(f, WordAwake, f.cmdBit), LocalWake)
  }

  function DataSent(f: FrameInput, open: bool, stops: bool): seq<Event> {
    When(open && !WakeWord(f) && f.dataLen > 100, VadData) + When(open && stops && f.dataLenAtEnd > 0, VadData)
  }

  /** Before the session part. */
  function SentBefore(s: State, f: FrameInput): seq<Event> {
    var greets := SegmentStarts(s, f) && Found(f, WordAwake, true);
    When(WakeWord(f) && s.dataOutput, VadCancel) + When(greets, VadComing) + When(greets, VtInfo) + WordsSent(f)
  }

  function SentInSession(s: State, f: FrameInput, r: Reads): seq<Event> {
    When(Starts(s, f, r), VadStart) + When(Cancels(s, f, r), VadCancel) + When(Resumes(s, f, r), VadStart) +
    DataSent(f, OpenAtData(s, f, r), SegmentStops(s, f))
  }

  /** All events of the call, in order. */
  function Sent(s: State, f: FrameInput, r: Reads): seq<Event> {
    SentBefore(s, f) + SentInSession(s, f, r) + When(EndsSession(s, f, r), VadEnd)
  }

  /** What the flags hold before the session part if `control` stays out of it. */
  function PlainReads(s: State, f: FrameInput): Reads {
    var starts, wake := SegmentStarts(s, f), Found(f, WordAwake, true);
    var need := (starts && wake) || (s.needAsr && !WakeWord(f));
    var awaked := if starts then wake else s.awaked && !WakeWord(f);
    Reads(need, awaked, awaked, need, awaked)
  }

  // ---------------------------------------------------------------- up to the session part

  lemma NoControl(s: State, f: FrameInput, k: nat)
    requires f.control == []
    ensures Chance(s, f, k) == s
  {
  }

  ghost predicate ResetOk(s: State, f: FrameInput, t: State) {
    var w := f.AwakePre();
    && t.vadEnable == s.vadEnable && t.vadOn == (s.vadOn && !w) && t.hasVad == Inside(s, f)
    && t.canceled == (s.canceled && !w) && t.dataOutput == (s.dataOutput && !(w && s.vadEnable))
    && t.events == s.events + When(w && s.dataOutput, VadCancel)
    && (f.control == [] ==> t.needAsr == (s.needAsr && !w) && t.awaked == (s.awaked && !w))
  }

  lemma ResetTable(s: State, f: FrameInput)
    ensures ResetOk(s, f, AfterReset(s, f))
  {
    if f.AwakePre() {
      hide Chance, Emit, When, ResetAsr;
      var s0 := s.(vadOn := false, awaked := false, canceled := false);
      var s1 := Chance(s0, f, 0).(needAsr := false, hasVad := false);
      var s2 := Chance(s1, f, 1);
      ChanceFrame(s0, f, 0);
      ChanceFrame(s1, f, 1);
      if f.control == [] { NoControl(s0, f, 0); NoControl(s1, f, 1); }
      ResetEnds(s, f, s2);
      EmitWhen(s2, s.dataOutput, VadCancel);
    } else {
      NoneWhen(VadCancel);
    }
  }

  lemma ResetEnds(s: State, f: FrameInput, s2: State)
    requires s2 == Chance(Chance(s.(vadOn := false, awaked := false, canceled := false), f, 0).(needAsr := false, hasVad := false), f, 1)
    ensures var t := if s2.dataOutput && !s2.canceled then Emit(s2, VadCancel) else s2;
      ResetAsr(s, f) == if t.vadEnable then t.(dataOutput := false) else t
  {
    hide Chance, Emit;
  }

  lemma StartTable(s: State, f: FrameInput, r: VadResult)
    requires r.on
    ensures var t, wake := VadStarts(s, f, r), Found(f, WordAwake, true);
      && t.vadEnable == s.vadEnable && t.vadOn && t.hasVad == s.hasVad && !t.canceled && !t.dataOutput
      && t.events == s.events + When(wake, VadComing) + When(wake, VtInfo)
      && (f.control == [] ==> t.needAsr == (wake || s.needAsr) && t.awaked == wake)
  {
    hide Chance;
    var s0 := s.(vadOn := r.on, awaked := false);
    var s1 := Chance(s0, f, 2).(canceled := false, dataOutput := false);
    ChanceFrame(s0, f, 2);
    ChanceFrame(s1.(awaked := true), f, 3);
    if f.control == [] { NoControl(s0, f, 2); NoControl(s1.(awaked := true), f, 3); }
  }

  lemma WordsTable(f: FrameInput)
    ensures WordList(f) == WordsSent(f)
  {
  }

  /** The detector's answer in a frame. */
  lemma VadTable(s: State, f: FrameInput)
    ensures var r := VadOf(AfterReset(s, f), f);
      && r.on == SegmentStarts(s, f) && r.off == SegmentStops(s, f)
      && r.hasVad == (!SegmentStops(s, f) && (Inside(s, f) || SegmentStarts(s, f)))
  {
    hide ResetAsr, CheckVad;
    ResetTable(s, f);
    CheckVadCounts(VadResult(Inside(s, f), false, false), f.vad, 0);
    assert f.vad[0..] == f.vad;
  }

  /** The state the session part meets. */
  function Prepared(s: State, f: FrameInput): State {
    BeforeSession(AfterReset(s, f), f, VadOf(AfterReset(s, f), f))
  }

  ghost predicate PreparedOk(s: State, f: FrameInput, p: State) {
    && p.vadEnable == s.vadEnable && p.vadOn == InSegment(s, f) && p.dataOutput == WasOut(s, f) && p.canceled == WasCanceled(s, f)
    && p.hasVad == (!SegmentStops(s, f) && (Inside(s, f) || SegmentStarts(s, f))) && p.events == s.events + SentBefore(s, f)
    && (f.control == [] ==> p.needAsr == PlainReads(s, f).needToOpen && p.awaked == PlainReads(s, f).awakedToOpen)
  }

  lemma PreparedTable(s: State, f: FrameInput)
    ensures PreparedOk(s, f, Prepared(s, f))
  {
    hide ResetAsr, VadStarts, CheckVad, WordList, WordsSent, When, AfterReset, Answers;
    ResetTable(s, f);
    VadTable(s, f);
    WordsTable(f);
    var t := AfterReset(s, f);
    var r := VadOf(t, f);
    if r.on { StartTable(t.(hasVad := r.hasVad), f, r); }
    Joined(s.events, When(WakeWord(f) && s.dataOutput, VadCancel), r.on && Found(f, WordAwake, true), WordsSent(f));
  }

  lemma Joined(ev: seq<Event>, a: seq<Event>, greets: bool, ws: seq<Event>)
    ensures ev + a + When(greets, VadComing) + When(greets, VtInfo) + ws == ev + (a + When(greets, VadComing) + When(greets, VtInfo) + ws)
    ensures !greets ==> ev + a + ws == ev + (a + When(greets, VadComing) + When(greets, VtInfo) + ws)
  {
    hide When;
    if !greets { NoneWhen(VadComing); NoneWhen(VtInfo); }
  }

  lemma NoneWhen(e: Event)
    ensures When(false, e) == []
  {
  }

  // ---------------------------------------------------------------- the session part

  lemma OpenTable(p: State, f: FrameInput) returns (need: bool, awaked: bool)
    requires !p.dataOutput
    ensures var q := OpenSession(p, f); var starts := f.Cmd() || (!f.Nocmd() && need && !awaked);
      && q.vadEnable == p.vadEnable && q.vadOn == p.vadOn && q.hasVad == p.hasVad && q.dataOutput == (starts || f.Nocmd())
      && q.canceled == (p.canceled || (f.Nocmd() && !f.Cmd()))
      && q.events == p.events + When(starts, VadStart)
      && (f.control == [] ==> need == p.needAsr && awaked == p.awaked && q.needAsr == p.needAsr && q.awaked == p.awaked)
  {
    hide Chance;
    var s1 := Chance(p, f, 4);
    var s2 := Chance(s1, f, 5);
    ChanceFrame(p, f, 4);
    ChanceFrame(s1, f, 5);
    need, awaked := s1.needAsr, s2.awaked;
    if f.control == [] { NoControl(p, f, 4); NoControl(s1, f, 5); }
  }

  lemma CancelTable(p: State, f: FrameInput) returns (awaked: bool, need: bool)
    requires !p.canceled && p.dataOutput
    ensures var q := CancelSession(p, f); var cancels := (p.vadEnable && f.tooLong) || (!awaked && !need);
      && q.vadEnable == p.vadEnable && q.hasVad == p.hasVad && q.canceled == cancels && q.events == p.events + When(cancels, VadCancel)
      && q.dataOutput == (p.vadEnable || !cancels) && q.vadOn == (p.vadOn && (p.vadEnable || !cancels))
      && (f.control == [] ==> need == p.needAsr && awaked == p.awaked && q.needAsr == p.needAsr && q.awaked == p.awaked)
  {
    hide Chance;
    var s0 := if p.vadEnable && f.tooLong then p.(canceled := true) else p;
    var s1 := Chance(s0, f, 6);
    var s2 := Chance(s1, f, 7);
    ChanceFrame(s0, f, 6);
    ChanceFrame(s1, f, 7);
    awaked, need := s1.awaked, s2.needAsr;
    if f.control == [] { NoControl(s0, f, 6); NoControl(s1, f, 7); }
  }

  lemma ResumeTable(p: State, f: FrameInput) returns (awaked: bool)
    ensures var q := ResumeSession(p, f); var resumes := p.vadEnable && p.canceled && awaked && f.needResume;
      && q.vadEnable == p.vadEnable && q.vadOn == p.vadOn && q.dataOutput == p.dataOutput
      && q.canceled == (p.canceled && !resumes) && q.events == p.events + When(resumes, VadStart)
      && q.hasVad == p.hasVad && (f.control == [] ==> awaked == p.awaked && q.needAsr == p.needAsr && q.awaked == p.awaked)
  {
    hide Chance;
    var s1 := Chance(p, f, 8);
    ChanceFrame(p, f, 8);
    awaked := s1.awaked;
    if f.control == [] { NoControl(p, f, 8); }
  }

  lemma DataTable(p: State, f: FrameInput, off: bool)
    ensures SendData(p, f, off) == p.(events := p.events + DataSent(f, !p.canceled, off))
  {
    hide Emit, When, DataSent, SendData;
    var c1, c2 := !p.canceled && !f.AwakePre() && f.dataLen > 100, !p.canceled && off && f.dataLenAtEnd > 0;
    DataParts(p, f, off, c1, c2);
    EmitTwo(p, c1, c2, VadData);
  }

  lemma EmitTwo(p: State, c1: bool, c2: bool, e: Event)
    ensures var q := if c1 then Emit(p, e) else p;
      (if c2 then Emit(q, e) else q) == p.(events := p.events + (When(c1, e) + When(c2, e)))
  {
    hide Emit, When;
    var q := if c1 then Emit(p, e) else p;
    EmitWhen(p, c1, e);
    EmitWhen(q, c2, e);
    assert p.events + When(c1, e) + When(c2, e) == p.events + (When(c1, e) + When(c2, e));
  }

  lemma DataParts(p: State, f: FrameInput, off: bool, c1: bool, c2: bool)
    requires c1 == (!p.canceled && !f.AwakePre() && f.dataLen > 100) && c2 == (!p.canceled && off && f.dataLenAtEnd > 0)
    ensures var q := if c1 then Emit(p, VadData) else p; SendData(p, f, off) == if c2 then Emit(q, VadData) else q
    ensures DataSent(f, !p.canceled, off) == When(c1, VadData) + When(c2, VadData)
  {
    hide Emit, When;
  }

  lemma EmitWhen(s: State, c: bool, e: Event)
    ensures (if c then Emit(s, e) else s) == s.(events := s.events + When(c, e))
  {
  }

  /** What the session part leaves. */
  ghost predicate SessionOk(s: State, f: FrameInput, r: Reads, p: State, q: State) {
    && q.vadEnable == s.vadEnable && q.events == p.events + SentInSession(s, f, r)
    && (s.vadEnable || !Cancels(s, f, r) ==> q.vadOn && q.dataOutput == IsOut(s, f, r))
    && q.canceled == ((IsCanceled(s, f) || Cancels(s, f, r)) && !Resumes(s, f, r))
    && (!s.vadEnable && Cancels(s, f, r) ==> !q.vadOn && !q.dataOutput)
    && q.hasVad == p.hasVad && (f.control == [] ==> q.needAsr == p.needAsr && q.awaked == p.awaked)
  }

  /** What the opening branch leaves. */
  ghost predicate OpeningOk(s: State, f: FrameInput, r: Reads, p: State, q: State) {
    && q.vadEnable == s.vadEnable && q.vadOn && q.dataOutput == IsOut(s, f, r) && q.canceled == IsCanceled(s, f)
    && q.hasVad == p.hasVad && q.events == p.events + When(Starts(s, f, r), VadStart)
    && (f.control == [] ==> q.needAsr == p.needAsr && q.awaked == p.awaked)
  }

  lemma Opening(s: State, f: FrameInput, p: State) returns (r: Reads)
    requires PreparedOk(s, f, p) && p.vadOn
    ensures OpeningOk(s, f, r, p, if !p.dataOutput then OpenSession(p, f) else p)
    ensures f.control == [] ==> r == PlainReads(s, f)
  {
    hide OpenSession, When, SentBefore, SegmentStarts, PlainReads;
    r := PlainReads(s, f);
    NoneWhen(VadStart);
    if !p.dataOutput {
      var need, awaked := OpenTable(p, f);
      r := r.(needToOpen := need, awakedToOpen := awaked);
    }
  }

  /** Canceling, then resuming: the flags and events between. */
  ghost predicate ClosingOk(s: State, f: FrameInput, r: Reads, q: State, z: State) {
    && z.vadEnable == s.vadEnable && z.events == q.events + When(Cancels(s, f, r), VadCancel) + When(Resumes(s, f, r), VadStart)
    && z.canceled == ((IsCanceled(s, f) || Cancels(s, f, r)) && !Resumes(s, f, r))
    && z.dataOutput == z.vadOn == (s.vadEnable || !Cancels(s, f, r))
    && z.hasVad == q.hasVad && (f.control == [] ==> z.needAsr == q.needAsr && z.awaked == q.awaked)
  }

  function Closed(q: State, f: FrameInput): State { if !q.canceled then CancelSession(q, f) else q }

  lemma Closing(s: State, f: FrameInput, p: State, q: State, r0: Reads) returns (r: Reads)
    requires OpeningOk(s, f, r0, p, q) && q.dataOutput
    ensures r.needToOpen == r0.needToOpen && r.awakedToOpen == r0.awakedToOpen
    ensures ClosingOk(s, f, r, q, ResumeSession(Closed(q, f), f))
    ensures f.control == [] && q.awaked == r0.awakedToCancel == r0.awakedToResume && q.needAsr == r0.needToCancel ==> r == r0
  {
    hide CancelSession, ResumeSession, When, IsOut, IsCanceled, Starts;
    r := r0;
    NoneWhen(VadCancel);
    if !q.canceled {
      var awaked, need := CancelTable(q, f);
      r := r.(awakedToCancel := awaked, needToCancel := need);
    }
    var awaked := ResumeTable(Closed(q, f), f);
    r := r.(awakedToResume := awaked);
    SameOpening(s, f, r, r0);
  }

  lemma SameOpening(s: State, f: FrameInput, r: Reads, r0: Reads)
    requires r.needToOpen == r0.needToOpen && r.awakedToOpen == r0.awakedToOpen
    ensures Starts(s, f, r) == Starts(s, f, r0) && IsOut(s, f, r) == IsOut(s, f, r0)
  {
  }

  lemma SessionTable(s: State, f: FrameInput, p: State) returns (r: Reads)
    requires PreparedOk(s, f, p) && p.vadOn
    ensures SessionOk(s, f, r, p, SessionPart(p, f, SegmentStops(s, f)))
    ensures f.control == [] ==> r == PlainReads(s, f)
  {
    hide OpenSession, CancelSession, ResumeSession, SendData, When, SentBefore, DataSent, SegmentStarts, SegmentStops, PlainReads,
         IsOut, IsCanceled, Starts;
    var off := SegmentStops(s, f);
    SamePlain(s, f);
    var r0 := Opening(s, f, p);
    r := r0;
    var q := if !p.dataOutput then OpenSession(p, f) else p;
    if q.dataOutput {
      r := Closing(s, f, p, q, r0);
      Live(s, f, p, q, r0, r);
    } else {
      NoneWhen(VadStart);
      NoneWhen(VadCancel);
      NoData(f, off);
      Appended(p.events, When(Starts(s, f, r), VadStart), [], [], []);
    }
  }

  lemma Live(s: State, f: FrameInput, p: State, q: State, r0: Reads, r: Reads)
    requires OpeningOk(s, f, r0, p, q) && q.dataOutput && ClosingOk(s, f, r, q, ResumeSession(Closed(q, f), f))
    requires r.needToOpen == r0.needToOpen && r.awakedToOpen == r0.awakedToOpen
    ensures SessionOk(s, f, r, p, SendData(ResumeSession(Closed(q, f), f), f, SegmentStops(s, f)))
  {
    hide CancelSession, ResumeSession, SendData, When, DataSent, SegmentStops, IsOut, IsCanceled, Starts, Cancels, Resumes, Closed;
    var off := SegmentStops(s, f);
    SameOpening(s, f, r, r0);
    DataTable(ResumeSession(Closed(q, f), f), f, off);
    Appended(p.events, When(Starts(s, f, r), VadStart), When(Cancels(s, f, r), VadCancel), When(Resumes(s, f, r), VadStart),
             DataSent(f, OpenAtData(s, f, r), off));
  }

  lemma SamePlain(s: State, f: FrameInput)
    ensures var r := PlainReads(s, f); r.awakedToOpen == r.awakedToCancel == r.awakedToResume && r.needToOpen == r.needToCancel
  {
  }

  lemma NoData(f: FrameInput, off: bool)
    ensures DataSent(f, false, off) == []
  {
  }

  lemma Appended(ev: seq<Event>, a: seq<Event>, b: seq<Event>, c: seq<Event>, d: seq<Event>)
    ensures ev + a + b + c + d == ev + (a + b + c + d)
    ensures b == [] ==> ev + a + c + d == ev + (a + b + c + d)
  {
    if b == [] { assert a + b == a; }
  }

  // ---------------------------------------------------------------- the whole frame

  lemma StopTable(q: State, f: FrameInput)
    ensures var t := VadStops(q, f);
      && t.events == q.events + When(q.vadEnable && q.dataOutput && !q.canceled, VadEnd)
      && !t.dataOutput && !t.vadOn && t.vadEnable == q.vadEnable && t.hasVad == q.hasVad && t.canceled == q.canceled
      && (f.control == [] ==> t.needAsr == (q.needAsr && !q.vadEnable) && t.awaked == q.awaked)
  {
    hide Chance;
    ChanceFrame(q.(vadOn := false), f, 9);
    if f.control == [] { NoControl(q.(vadOn := false), f, 9); }
  }

  lemma FrameIs(s: State, f: FrameInput)
    ensures var p, off := Prepared(s, f), VadOf(AfterReset(s, f), f).off;
      var q := if p.vadOn then SessionPart(p, f, off) else p;
      Frame(s, f) == if off then VadStops(q, f) else q
  {
    hide ResetAsr, VadStarts, WordEvents, SessionPart, VadStops, CheckVad;
  }

  /** The table is what a frame sends, whatever `control` does; it decides what the shared flags read as, and if it
      stays out of the frame, the flags before the call do. */
  lemma FrameTable(s: State, f: FrameInput) returns (r: Reads)
    ensures Frame(s, f).events == s.events + Sent(s, f, r)
    ensures f.control == [] ==> r == PlainReads(s, f)
    ensures s.vadEnable && (s.dataOutput ==> s.vadOn) ==> (IsOpen(Frame(s, f)) <==> !SegmentStops(s, f) && OpenAtData(s, f, r))
    ensures Frame(s, f).vadEnable == s.vadEnable
    ensures Frame(s, f).hasVad == (!SegmentStops(s, f) && (Inside(s, f) || SegmentStarts(s, f)))
    ensures Frame(s, f).vadOn == (InSegment(s, f) && !SegmentStops(s, f) && (s.vadEnable || !Cancels(s, f, r)))
    ensures f.control == [] ==>
      && Frame(s, f).needAsr == (r.needToOpen && !(SegmentStops(s, f) && s.vadEnable))
      && Frame(s, f).awaked == r.awakedToOpen
  {
    hide Prepared, SessionPart, VadStops, AfterReset, Frame, VadOf, When, SentBefore, SentInSession, SegmentStarts, SegmentStops,
         Cancels, Resumes, IsCanceled, PlainReads;
    PreparedTable(s, f);
    VadTable(s, f);
    FrameIs(s, f);
    var p, off := Prepared(s, f), SegmentStops(s, f);
    r := PlainReads(s, f);
    var q := p;
    if p.vadOn {
      r := SessionTable(s, f, p);
      q := SessionPart(p, f, off);
    } else {
      Idle(s, f, r);
    }
    StopTable(q, f);
    if !off { NoneWhen(VadEnd); }
    Ending(s, f, r, p, q);
    Three(s.events, SentBefore(s, f), SentInSession(s, f, r), When(off && q.vadEnable && q.dataOutput && !q.canceled, VadEnd));
  }

  lemma Three(ev: seq<Event>, a: seq<Event>, b: seq<Event>, c: seq<Event>)
    ensures ev + a + b + c == ev + (a + b + c)
    ensures b == [] ==> ev + a + c == ev + (a + b + c)
    ensures c == [] ==> ev + a + b == ev + (a + b + c)
    ensures b == c == [] ==> ev + a == ev + (a + b + c)
  {
  }

  /** Outside a segment the session part is skipped. */
  lemma Idle(s: State, f: FrameInput, r: Reads)
    requires !InSegment(s, f)
    ensures SentInSession(s, f, r) == [] && !OpenAtData(s, f, r)
  {
    hide SegmentStarts, SegmentStops, WasOut, WasCanceled;
  }

  /** Whether a session is open behind the session part. */
  lemma Ending(s: State, f: FrameInput, r: Reads, p: State, q: State)
    requires PreparedOk(s, f, p) && if p.vadOn then SessionOk(s, f, r, p, q) else q == p
    ensures SegmentStops(s, f) && q.vadEnable && IsOpen(q) <==> EndsSession(s, f, r)
    ensures s.vadEnable && (s.dataOutput ==> s.vadOn) ==> (IsOpen(q) <==> OpenAtData(s, f, r))
  {
    hide SentBefore, SentInSession, SegmentStarts, SegmentStops, PlainReads, When;
  }

  // ---------------------------------------------------------------- counts

  function One(c: bool): nat { if c then 1 else 0 }

  lemma CountWhen(c: bool, e: Event, x: Event)
    ensures multiset(When(c, e))[x] == One(c && e == x)
  {
  }

  /** The frame reports a word with event `e`. */
  predicate Calls(f: FrameInput, e: Event) {
    match e
    case LocalSleep => Found(f, WordSleep, f.nocmdBit)
    case WakeNoCmd => Found(f, WordAwake, f.nocmdBit)
    case Hotword => Found(f, WordHotword, f.nocmdBit)
    case LocalWake => Found(f, WordAwake, f.cmdBit)
    case _ => false
  }

  predicate IsWord(e: Event) { e.LocalSleep? || e.WakeNoCmd? || e.Hotword? || e.LocalWake? }

  lemma CountWords(f: FrameInput, x: Event)
    ensures multiset(WordsSent(f))[x] == One(Calls(f, x))
  {
    hide When, Found;
    CountWhen(Found(f, WordSleep, f.nocmdBit), LocalSleep, x);
    CountWhen(Found(f, WordAwake, f.nocmdBit), WakeNoCmd, x);
    CountWhen(Found(f, WordHotword, f.nocmdBit), Hotword, x);
    CountWhen(Found(f, WordAwake, f.cmdBit), LocalWake, x);
  }

  /** How many DATA events a frame owes its listener. */
  function DataOwed(f: FrameInput, open: bool, stops: bool): nat {
    One(open && !WakeWord(f) && f.dataLen > 100) + One(open && stops && f.dataLenAtEnd > 0)
  }

  lemma CountData(f: FrameInput, open: bool, stops: bool, x: Event)
    ensures multiset(DataSent(f, open, stops))[x] == if x == VadData then DataOwed(f, open, stops) else 0
  {
    hide When;
    CountWhen(open && !WakeWord(f) && f.dataLen > 100, VadData, x);
    CountWhen(open && stops && f.dataLenAtEnd > 0, VadData, x);
  }

  lemma CountBefore(s: State, f: FrameInput, x: Event)
    ensures var greets := SegmentStarts(s, f) && Found(f, WordAwake, true);
      multiset(SentBefore(s, f))[x] ==
      One(WakeWord(f) && s.dataOutput && x == VadCancel) + One(greets && x == VadComing) + One(greets && x == VtInfo) + One(Calls(f, x))
  {
    hide When, Found, WordsSent, SegmentStarts;
    var greets := SegmentStarts(s, f) && Found(f, WordAwake, true);
    CountWhen(WakeWord(f) && s.dataOutput, VadCancel, x);
    CountWhen(greets, VadComing, x);
    CountWhen(greets, VtInfo, x);
    CountWords(f, x);
  }

  lemma CountInSession(s: State, f: FrameInput, r: Reads, x: Event)
    ensures multiset(SentInSession(s, f, r))[x] ==
      One(Starts(s, f, r) && x == VadStart) + One(Cancels(s, f, r) && x == VadCancel) + One(Resumes(s, f, r) && x == VadStart) +
      if x == VadData then DataOwed(f, OpenAtData(s, f, r), SegmentStops(s, f)) else 0
  {
    hide When, Starts, Cancels, Resumes, OpenAtData, DataSent, DataOwed, SegmentStops;
    CountWhen(Starts(s, f, r), VadStart, x);
    CountWhen(Cancels(s, f, r), VadCancel, x);
    CountWhen(Resumes(s, f, r), VadStart, x);
    CountData(f, OpenAtData(s, f, r), SegmentStops(s, f), x);
  }

  lemma CountSent(s: State, f: FrameInput, r: Reads, x: Event)
    ensures multiset(Sent(s, f, r))[x] ==
      multiset(SentBefore(s, f))[x] + multiset(SentInSession(s, f, r))[x] + One(EndsSession(s, f, r) && x == VadEnd)
  {
    hide SentBefore, SentInSession, EndsSession, When;
    CountWhen(EndsSession(s, f, r), VadEnd, x);
  }

  /** What a call that leads from `s` to `t` sent: every word found is reported once, a wake word at the start of a segment
      is greeted once, and with the VAD enabled the data owed goes out, a session being open when data is due exactly if
      the call ends it or, the segment going on, leaves it open. */
  ghost predicate Delivered(s: State, f: FrameInput, t: State) {
    && s.events <= t.events
    && var sent := multiset(t.events[|s.events|..]);
    && (forall x :: IsWord(x) ==> sent[x] == One(Calls(f, x)))
    && sent[VadComing] == sent[VtInfo] == One(SegmentStarts(s, f) && Found(f, WordAwake, true))
    && (s.vadEnable && (s.dataOutput ==> s.vadOn) ==>
          sent[VadData] == DataOwed(f, if SegmentStops(s, f) then sent[VadEnd] > 0 else IsOpen(t), SegmentStops(s, f)))
  }

  lemma FrameDelivers(s: State, f: FrameInput)
    ensures Delivered(s, f, Frame(s, f))
  {
    hide Frame, Sent, SegmentStarts, SegmentStops, OpenAtData, DataOwed, Calls, Found, SentBefore, SentInSession, Starts, Cancels, Resumes;
    var r := FrameTable(s, f);
    var t := Frame(s, f);
    assert t.events[|s.events|..] == Sent(s, f, r);
    forall x ensures multiset(Sent(s, f, r))[x] ==
      multiset(SentBefore(s, f))[x] + multiset(SentInSession(s, f, r))[x] + One(EndsSession(s, f, r) && x == VadEnd)
    {
      CountSent(s, f, r, x);
    }
    forall x ensures IsWord(x) ==> multiset(Sent(s, f, r))[x] == One(Calls(f, x)) {
      CountBefore(s, f, x);
      CountInSession(s, f, r, x);
    }
    CountBefore(s, f, VadComing);
    CountInSession(s, f, r, VadComing);
    CountBefore(s, f, VtInfo);
    CountInSession(s, f, r, VtInfo);
    CountBefore(s, f, VadData);
    CountInSession(s, f, r, VadData);
    CountBefore(s, f, VadEnd);
    CountInSession(s, f, r, VadEnd);
    NoOtherCalls(f);
    if s.vadEnable && (s.dataOutput ==> s.vadOn) { StopsOpen(s, f, r); }
  }

  lemma NoOtherCalls(f: FrameInput)
    ensures !Calls(f, VadComing) && !Calls(f, VtInfo) && !Calls(f, VadData) && !Calls(f, VadEnd)
  {
  }

  /** A segment that stops ends the session that is open. */
  lemma StopsOpen(s: State, f: FrameInput, r: Reads)
    requires s.vadEnable && (s.dataOutput ==> s.vadOn)
    ensures EndsSession(s, f, r) <==> SegmentStops(s, f) && OpenAtData(s, f, r)
  {
    hide SegmentStarts, SegmentStops, Cancels, Resumes, IsCanceled;
  }

  // ---------------------------------------------------------------- whole runs

  /** How many frames report a word with event `e`. */
  function FramesCalling(fs: seq<FrameInput>, e: Event): nat {
    if fs == [] then 0 else FramesCalling(fs[..|fs| - 1], e) + One(Calls(fs[|fs| - 1], e))
  }

  /** In any run every word is reported exactly once. */
  lemma {:induction false} WordsOfRun(vadEnable: bool, fs: seq<FrameInput>, e: Event)
    requires IsWord(e)
    ensures multiset(Run(Initial(vadEnable), fs).events)[e] == FramesCalling(fs, e)
    decreases |fs|
  {
    hide Frame, Calls, IsWord;
    if fs != [] {
      var front, f := fs[..|fs| - 1], fs[|fs| - 1];
      var s := Run(Initial(vadEnable), front);
      WordsOfRun(vadEnable, front, e);
      FrameDelivers(s, f);
      CountSplit(s.events, Frame(s, f).events, e);
    }
  }

  /** The DATA events owed over a whole run. */
  ghost function DataOfRun(s: State, fs: seq<FrameInput>): nat {
    if fs == [] then 0 else
      var was, f, now := Run(s, fs[..|fs| - 1]), fs[|fs| - 1], Run(s, fs);
      var stops := SegmentStops(was, f);
      FrameExtends(was, f);
      DataOfRun(s, fs[..|fs| - 1]) + DataOwed(f, if stops then VadEnd in now.events[|was.events|..] else IsOpen(now), stops)
  }

  /** With the VAD enabled, no more and no less is sent. */
  lemma {:induction false} DataOfRunSent(fs: seq<FrameInput>)
    ensures multiset(Run(Initial(true), fs).events)[VadData] == DataOfRun(Initial(true), fs)
    decreases |fs|
  {
    hide Frame, DataOwed, SegmentStops, Tracks;
    if fs != [] {
      var front, f := fs[..|fs| - 1], fs[|fs| - 1];
      var s := Run(Initial(true), front);
      DataOfRunSent(front);
      RunInv(front);
      FrameDelivers(s, f);
      CountSplit(s.events, Frame(s, f).events, VadData);
    }
  }

  lemma CountSplit(a: seq<Event>, b: seq<Event>, e: Event)
    requires a <= b
    ensures multiset(b)[e] == multiset(a)[e] + multiset(b[|a|..])[e]
  {
    assert b == a + b[|a|..];
  }
}
