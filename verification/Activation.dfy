/** The activation state machine of voice_activation.cpp: the flags that drive the stream of voice
    events.  Detector, beamformer and encoder answers are inputs of each frame, and so are the
    calls of `control` that another thread makes between any two accesses to the flags. */
module Activation {

  datatype Event =
    | VadComing | VtInfo | LocalSleep | LocalWake | WakeNoCmd | Hotword
    | VadStart | VadData | VadEnd | VadCancel

  /** One write of `control` to a shared flag: SET_AWAKE makes the first, SET_SLEEP the second and then the
      third, and anything may happen in between. */
  datatype FlagWrite = AsrOn | AwakedOff | AsrOff

  datatype WordType = WordAwake | WordSleep | WordHotword | WordOther

  /** One call of processfrm. */
  datatype FrameInput = FrameInput(
    pre: bool, cancelBit: bool, cmdBit: bool, nocmdBit: bool, word: WordType, // r2_vbv answers
    vad: seq<bool>,         // per detector frame: the answer to the start or stop query made there
    tooLong: bool, needResume: bool, dataLen: int, dataLenAtEnd: int,         // encoder answers
    control: seq<seq<FlagWrite>>)    // writes of `control` that slip in at each access point
  {
    predicate AwakePre() { pre && !cancelBit }
    predicate Awake() { AwakePre() && word.WordAwake? }
    predicate KnownWord() { word.WordAwake? || word.WordSleep? || word.WordHotword? }
    predicate Cmd() { AwakePre() && cmdBit && KnownWord() }
    predicate Nocmd() { AwakePre() && nocmdBit && KnownWord() }
  }

  datatype State = State(vadEnable: bool, vadOn: bool, hasVad: bool, needAsr: bool, awaked: bool,
                         canceled: bool, dataOutput: bool, events: seq<Event>)

  function Initial(vadEnable: bool): State {
    State(vadEnable, false, false, false, false, false, false, [])
  }

  // ---------------------------------------------------------------- one frame, on values

  function Emit(s: State, e: Event): State { s.(events := s.events + [e]) }

  function Control(s: State, w: FlagWrite): State {
    match w
    case AsrOn => s.(needAsr := true)
    case AwakedOff => s.(awaked := false)
    case AsrOff => s.(needAsr := false)
  }

  function Controls(s: State, ws: seq<FlagWrite>): State
    decreases |ws|
  {
    if ws == [] then s else Controls(Control(s, ws[0]), ws[1..])
  }

  /** Whatever writes of `control` slip in at access point `k`. */
  function Chance(s: State, f: FrameInput, k: nat): State {
    Controls(s, if k < |f.control| then f.control[k] else [])
  }

  datatype VadResult = VadResult(hasVad: bool, on: bool, off: bool)

  /** The ON/OFF logic of check_voice_activity from detector frame `i` on. */
  function CheckVad(r: VadResult, vad: seq<bool>, i: nat): VadResult
    requires i <= |vad|
    decreases |vad| - i
  {
    if i == |vad| then r
    else
      var r1 := if !r.hasVad then (if vad[i] then r.(hasVad := true, on := true) else r)
                else if vad[i] then r.(off := true) else r;
      if r1.hasVad && r1.off then r1.(hasVad := false) else CheckVad(r1, vad, i + 1)
  }

  function ResetAsr(s: State, f: FrameInput): State {
    var s := Chance(s.(vadOn := false, awaked := false, canceled := false), f, 0);
    var s := Chance(s.(needAsr := false, hasVad := false), f, 1);
    var s := if s.dataOutput && !s.canceled then Emit(s, VadCancel) else s;
    if s.vadEnable then s.(dataOutput := false) else s
  }

  function VadStarts(s: State, f: FrameInput, r: VadResult): State {
    var s := Chance(s.(vadOn := r.on, awaked := false), f, 2).(canceled := false, dataOutput := false);
    if f.Awake() then Greeting(s, f) else s
  }

  /** The wake word has been heard at the start of the segment. */
  function Greeting(s: State, f: FrameInput): State {
    Emit(Emit(Chance(s.(awaked := true), f, 3).(needAsr := true), VadComing), VtInfo)
  }

  /** At most one event for a word without and one for a word with a command. */
  function WordList(f: FrameInput): seq<Event> {
    (if !f.Nocmd() then [] else match f.word
       case WordSleep => [LocalSleep]
       case WordAwake => [WakeNoCmd]
       case _ => [Hotword])
    + if f.Cmd() && f.word.WordAwake? then [LocalWake] else []
  }

  function WordEvents(s: State, f: FrameInput): State {
    s.(events := s.events + WordList(f))
  }

  /** `!data_output`: decide whether a session starts. */
  function OpenSession(s: State, f: FrameInput): State {
    if f.Cmd() then Emit(s.(dataOutput := true), VadStart)
    else if f.Nocmd() then s.(dataOutput := true, canceled := true)
    else
      var s := Chance(s, f, 4);
      if !s.needAsr then s
      else
        var s := Chance(s, f, 5);
        if s.awaked then s else Emit(s.(dataOutput := true), VadStart)
  }

  /** `!canceled`: decide whether the session is canceled. */
  function DecideCancel(s: State, f: FrameInput): State {
    var s := if s.vadEnable && f.tooLong then s.(canceled := true) else s;
    var s := Chance(s, f, 6);
    if s.awaked then s
    else
      var s := Chance(s, f, 7);
      if !s.needAsr then s.(canceled := true) else s
  }

  function SendCancel(s: State): State {
    if !s.canceled then s
    else
      var s := if !s.vadEnable then s.(vadOn := false, dataOutput := false) else s;
      Emit(s, VadCancel)
  }

  function CancelSession(s: State, f: FrameInput): State { SendCancel(DecideCancel(s, f)) }

  function ResumeSession(s: State, f: FrameInput): State {
    if !(s.vadEnable && s.canceled) then s
    else
      var s := Chance(s, f, 8);
      if s.awaked && f.needResume then Emit(s.(canceled := false), VadStart) else s
  }

  function SendData(s: State, f: FrameInput, off: bool): State {
    if s.canceled then s
    else
      var s := if !f.AwakePre() && f.dataLen > 100 then Emit(s, VadData) else s;
      if off && f.dataLenAtEnd > 0 then Emit(s, VadData) else s
  }

  function SessionPart(s: State, f: FrameInput, off: bool): State {
    var s := if !s.dataOutput then OpenSession(s, f) else s;
    if !s.dataOutput then s
    else
      var s := if !s.canceled then CancelSession(s, f) else s;
      SendData(ResumeSession(s, f), f, off)
  }

  function VadStops(s: State, f: FrameInput): State {
    var s := Chance(s.(vadOn := false), f, 9);
    var s := if s.vadEnable then s.(needAsr := false) else s;
    var s := if s.vadEnable && s.dataOutput && !s.canceled then Emit(s, VadEnd) else s;
    s.(dataOutput := false)
  }

  /** The frame from the detector's answer on. */
  function AfterVad(s: State, f: FrameInput, r: VadResult): State {
    var s := s.(hasVad := r.hasVad);
    var s := if r.on then VadStarts(s, f, r) else s;
    var s := WordEvents(s, f);
    var s := if s.vadOn then SessionPart(s, f, r.off) else s;
    if r.off then VadStops(s, f) else s
  }

  function Frame(s: State, f: FrameInput): State {
    var s := if f.AwakePre() then ResetAsr(s, f) else s;
    AfterVad(s, f, CheckVad(VadResult(s.hasVad, false, false), f.vad, 0))
  }

  function Run(s: State, fs: seq<FrameInput>): State {
    if fs == [] then s else Frame(Run(s, fs[..|fs| - 1]), fs[|fs| - 1])
  }

  // ---------------------------------------------------------------- the session discipline

  datatype Session = Closed | Open | Broken

  /** What a listener makes of the events.  A strict one expects CANCEL only inside a session, a
      lenient one tolerates it at any time. */
  function After(strict: bool, x: Session, e: Event): Session {
    match e
    case VadStart => if x.Closed? then Open else Broken
    case VadData => if x.Open? then Open else Broken
    case VadEnd => if x.Open? then Closed else Broken
    case VadCancel => if x.Broken? || (strict && x.Closed?) then Broken else Closed
    case _ => x
  }

  function SessionOf(strict: bool, ev: seq<Event>): Session {
    if ev == [] then Closed else After(strict, SessionOf(strict, ev[..|ev| - 1]), ev[|ev| - 1])
  }

  lemma EmitAfter(strict: bool, s: State, e: Event)
    ensures SessionOf(strict, Emit(s, e).events) == After(strict, SessionOf(strict, s.events), e)
  {
    assert (s.events + [e])[..|s.events|] == s.events;
  }

  predicate IsOpen(s: State) { s.dataOutput && !s.canceled }

  /** The flags tell the listener's state. */
  ghost predicate Tracks(strict: bool, s: State) {
    SessionOf(strict, s.events) == if IsOpen(s) then Open else Closed
  }

  ghost predicate Inv(strict: bool, s: State) {
    Tracks(strict, s) && (s.vadOn ==> s.hasVad) && (s.dataOutput ==> s.vadOn) && (s.vadOn && !s.dataOutput ==> !s.canceled)
  }

  /** `control` touches two flags and sends nothing. */
  lemma {:induction false} ControlsFrame(s: State, ws: seq<FlagWrite>)
    ensures Controls(s, ws) == s.(needAsr := Controls(s, ws).needAsr, awaked := Controls(s, ws).awaked)
    decreases |ws|
  {
    hide Control;
    if ws != [] {
      ControlFrame(s, ws[0]);
      ControlsFrame(Control(s, ws[0]), ws[1..]);
    }
  }

  lemma ControlFrame(s: State, w: FlagWrite)
    ensures var t := Control(s, w); t == s.(needAsr := t.needAsr, awaked := t.awaked)
  {
  }

  lemma ChanceFrame(s: State, f: FrameInput, k: nat)
    ensures var t := Chance(s, f, k); t == s.(needAsr := t.needAsr, awaked := t.awaked)
  {
    ControlsFrame(s, if k < |f.control| then f.control[k] else []);
  }

  /** A start is reported only outside a voice segment, a stop only inside one, and a stop ends it. */
  lemma {:induction false} CheckVadFacts(r: VadResult, vad: seq<bool>, i: nat)
    requires i <= |vad| && !r.off && (r.on ==> r.hasVad)
    ensures var q := CheckVad(r, vad, i);
      && (r.hasVad ==> q.on == r.on)
      && (q.off ==> !q.hasVad && (r.hasVad || q.on))
      && (!q.off ==> q.hasVad == (r.hasVad || q.on))
    decreases |vad| - i
  {
    if i < |vad| {
      var r1 := if !r.hasVad then (if vad[i] then r.(hasVad := true, on := true) else r)
                else if vad[i] then r.(off := true) else r;
      if !(r1.hasVad && r1.off) { CheckVadFacts(r1, vad, i + 1); }
    }
  }

  // Each part of a frame keeps the flags and the listener in step.

  lemma ResetTracks(strict: bool, s: State, f: FrameInput)
    requires Inv(strict, s) && s.vadEnable && (strict ==> !(s.dataOutput && s.canceled))
    ensures Inv(strict, ResetAsr(s, f)) && ResetAsr(s, f).vadEnable && !ResetAsr(s, f).dataOutput && !ResetAsr(s, f).vadOn
  {
    var s0 := s.(vadOn := false, awaked := false, canceled := false);
    ChanceFrame(s0, f, 0);
    var s1 := Chance(s0, f, 0).(needAsr := false, hasVad := false);
    ChanceFrame(s1, f, 1);
    hide Chance;
    EmitAfter(strict, Chance(s1, f, 1), VadCancel);
  }

  lemma VadStartsTracks(strict: bool, s: State, f: FrameInput, r: VadResult)
    requires Tracks(strict, s) && !s.dataOutput && s.vadEnable
    ensures var t := VadStarts(s, f, r);
      Tracks(strict, t) && !t.dataOutput && !t.canceled && t.vadEnable && t.vadOn == r.on && t.hasVad == s.hasVad
  {
    var s0 := s.(vadOn := r.on, awaked := false);
    ChanceFrame(s0, f, 2);
    var s1 := Chance(s0, f, 2).(canceled := false, dataOutput := false);
    ChanceFrame(s1.(awaked := true), f, 3);
    hide Chance;
    var s2 := Chance(s1.(awaked := true), f, 3).(needAsr := true);
    EmitAfter(strict, s2, VadComing);
    EmitAfter(strict, Emit(s2, VadComing), VtInfo);
  }

  lemma WordEventsTracks(strict: bool, s: State, f: FrameInput)
    ensures var t := WordEvents(s, f); t == s.(events := t.events) && SessionOf(strict, t.events) == SessionOf(strict, s.events)
  {
    NeutralAll(strict, s.events, WordList(f));
  }

  lemma {:induction false} NeutralAll(strict: bool, ev: seq<Event>, ns: seq<Event>)
    requires forall i :: 0 <= i < |ns| ==> !ns[i].VadStart? && !ns[i].VadData? && !ns[i].VadEnd? && !ns[i].VadCancel?
    ensures SessionOf(strict, ev + ns) == SessionOf(strict, ev)
    decreases |ns|
  {
    if ns == [] {
      assert ev + ns == ev;
    } else {
      NeutralAll(strict, ev, ns[..|ns| - 1]);
      assert (ev + ns)[..|ev| + |ns| - 1] == ev + ns[..|ns| - 1];
    }
  }

  /** The flags a session part may not touch while the VAD is enabled. */
  predicate SameSegment(s: State, t: State) {
    t.vadEnable == s.vadEnable && t.vadOn == s.vadOn && t.hasVad == s.hasVad
  }

  lemma OpenTracks(strict: bool, s: State, f: FrameInput)
    requires Tracks(strict, s) && !s.dataOutput && !s.canceled
    ensures Tracks(strict, OpenSession(s, f)) && SameSegment(s, OpenSession(s, f))
    ensures !OpenSession(s, f).dataOutput ==> !OpenSession(s, f).canceled
  {
    hide Chance, SessionOf;
    if f.Cmd() {
      EmitAfter(strict, s.(dataOutput := true), VadStart);
    } else if !f.Nocmd() {
      OpenByAsr(strict, s, f);
    }
  }

  lemma OpenByAsr(strict: bool, s: State, f: FrameInput)
    requires Tracks(strict, s) && !s.dataOutput && !s.canceled && !f.Cmd() && !f.Nocmd()
    ensures Tracks(strict, OpenSession(s, f)) && SameSegment(s, OpenSession(s, f)) && !OpenSession(s, f).canceled
  {
    hide Chance, SessionOf;
    var s1 := Chance(s, f, 4);
    ChanceFrame(s, f, 4);
    if s1.needAsr {
      ChanceFrame(s1, f, 5);
      EmitAfter(strict, Chance(s1, f, 5).(dataOutput := true), VadStart);
    }
  }

  lemma CancelTracks(strict: bool, s: State, f: FrameInput)
    requires Tracks(strict, s) && IsOpen(s) && s.vadEnable
    ensures Tracks(strict, CancelSession(s, f)) && CancelSession(s, f).dataOutput && SameSegment(s, CancelSession(s, f))
  {
    hide DecideCancel;
    DecideFrame(s, f);
    EmitAfter(strict, DecideCancel(s, f), VadCancel);
  }

  /** Deciding changes no more than the flags it may set. */
  lemma DecideFrame(s: State, f: FrameInput)
    ensures var t := DecideCancel(s, f); t == s.(needAsr := t.needAsr, awaked := t.awaked, canceled := t.canceled)
  {
    hide Chance;
    var s0 := if s.vadEnable && f.tooLong then s.(canceled := true) else s;
    ChanceFrame(s0, f, 6);
    ChanceFrame(Chance(s0, f, 6), f, 7);
  }

  lemma ResumeTracks(strict: bool, s: State, f: FrameInput)
    requires Tracks(strict, s) && s.dataOutput
    ensures Tracks(strict, ResumeSession(s, f)) && ResumeSession(s, f).dataOutput && SameSegment(s, ResumeSession(s, f))
  {
    ChanceFrame(s, f, 8);
    hide Chance;
    EmitAfter(strict, Chance(s, f, 8).(canceled := false), VadStart);
  }

  lemma DataTracks(strict: bool, s: State, f: FrameInput, off: bool)
    requires Tracks(strict, s) && s.dataOutput
    ensures Tracks(strict, SendData(s, f, off)) && SameSegment(s, SendData(s, f, off)) && SendData(s, f, off).dataOutput
  {
    EmitAfter(strict, s, VadData);
    EmitAfter(strict, Emit(s, VadData), VadData);
  }

  lemma SessionTracks(strict: bool, s: State, f: FrameInput, off: bool)
    requires Tracks(strict, s) && s.vadEnable && (s.dataOutput || !s.canceled)
    ensures Tracks(strict, SessionPart(s, f, off)) && SameSegment(s, SessionPart(s, f, off))
    ensures !SessionPart(s, f, off).dataOutput ==> !SessionPart(s, f, off).canceled
  {
    hide OpenSession, CancelSession, ResumeSession, SendData;
    var s1 := s;
    if !s.dataOutput { OpenTracks(strict, s, f); s1 := OpenSession(s, f); }
    if s1.dataOutput {
      var s2 := s1;
      if !s1.canceled { CancelTracks(strict, s1, f); s2 := CancelSession(s1, f); }
      ResumeTracks(strict, s2, f);
      DataTracks(strict, ResumeSession(s2, f), f, off);
    }
  }

  lemma StopTracks(strict: bool, s: State, f: FrameInput)
    requires Tracks(strict, s) && s.vadEnable
    ensures Tracks(strict, VadStops(s, f)) && !VadStops(s, f).dataOutput && !VadStops(s, f).vadOn
    ensures VadStops(s, f).vadEnable && VadStops(s, f).hasVad == s.hasVad
  {
    ChanceFrame(s.(vadOn := false), f, 9);
    hide Chance;
    EmitAfter(strict, Chance(s.(vadOn := false), f, 9).(needAsr := false), VadEnd);
  }

  /** A wake word arrives while a canceled session is still marked as output: reset_asr clears
      `canceled` before it tests it, and sends a CANCEL that closes nothing. */
  predicate StrayCancel(s: State, f: FrameInput) { f.AwakePre() && s.dataOutput && s.canceled }

  lemma FrameInv(strict: bool, s: State, f: FrameInput)
    requires Inv(strict, s) && s.vadEnable
    requires strict ==> !StrayCancel(s, f)
    ensures Inv(strict, Frame(s, f)) && Frame(s, f).vadEnable
  {
    hide ResetAsr, VadStarts, WordEvents, SessionPart, VadStops, Tracks, CheckVad;
    var s1 := s;
    if f.AwakePre() { ResetTracks(strict, s, f); s1 := ResetAsr(s, f); }
    var r := CheckVad(VadResult(s1.hasVad, false, false), f.vad, 0);
    CheckVadFacts(VadResult(s1.hasVad, false, false), f.vad, 0);
    AfterVadInv(strict, s1, f, r);
  }

  lemma AfterVadInv(strict: bool, s: State, f: FrameInput, r: VadResult)
    requires Inv(strict, s) && s.vadEnable
    requires (s.hasVad ==> !r.on) && (r.off ==> !r.hasVad) && (!r.off ==> r.hasVad == (s.hasVad || r.on))
    ensures Inv(strict, AfterVad(s, f, r)) && AfterVad(s, f, r).vadEnable
  {
    var s1 := s.(hasVad := r.hasVad);
    assert Tracks(strict, s1);
    hide VadStarts, WordEvents, SessionPart, VadStops, SessionOf;
    if r.on { VadStartsTracks(strict, s1, f, r); s1 := VadStarts(s1, f, r); }
    WordEventsTracks(strict, s1, f);
    s1 := WordEvents(s1, f);
    assert Tracks(strict, s1);
    hide Tracks;
    if s1.vadOn { SessionTracks(strict, s1, f, r.off); s1 := SessionPart(s1, f, r.off); }
    if r.off { StopTracks(strict, s1, f); }
  }

  lemma {:induction false} RunInv(fs: seq<FrameInput>)
    ensures Inv(false, Run(Initial(true), fs)) && Run(Initial(true), fs).vadEnable
    decreases |fs|
  {
    if fs != [] {
      hide Frame, Inv;
      RunInv(fs[..|fs| - 1]);
      FrameInv(false, Run(Initial(true), fs[..|fs| - 1]), fs[|fs| - 1]);
    }
  }

  // ---------------------------------------------------------------- main theorems

  predicate Closes(e: Event) { e.VadEnd? || e.VadCancel? }

  /** `j` starts a session that is still open in front of event `i`. */
  ghost predicate OpenedAt(ev: seq<Event>, j: nat, i: nat) {
    j < i <= |ev| && ev[j].VadStart? && forall k :: j < k < i ==> !Closes(ev[k]) && !ev[k].VadStart?
  }

  /** Every DATA and END lies in an open session, and two STARTs have a close between them. */
  ghost predicate Disciplined(ev: seq<Event>) {
    && (forall i :: 0 <= i < |ev| && (ev[i].VadData? || ev[i].VadEnd?) ==> exists j :: OpenedAt(ev, j, i))
    && (forall i, k :: 0 <= i < k < |ev| && ev[i].VadStart? && ev[k].VadStart? ==>
          exists m :: i < m < k && Closes(ev[m]))
  }

  /** What the listener's state says about the past. */
  lemma {:induction false} SessionMeaning(ev: seq<Event>)
    requires !SessionOf(false, ev).Broken?
    ensures SessionOf(false, ev).Open? ==> exists j :: OpenedAt(ev, j, |ev|)
    ensures SessionOf(false, ev).Closed? ==> forall i :: 0 <= i < |ev| && ev[i].VadStart? ==> exists m :: i < m < |ev| && Closes(ev[m])
    decreases |ev|
  {
    if ev != [] {
      var n := |ev| - 1;
      var front, e := ev[..n], ev[n];
      SessionMeaning(front);
      assert forall i :: 0 <= i < n ==> front[i] == ev[i];
      if e.VadStart? {
        assert OpenedAt(ev, n, |ev|);
      } else if SessionOf(false, ev).Open? {
        var j :| OpenedAt(front, j, n);
        assert OpenedAt(ev, j, |ev|);
      } else if !Closes(e) {
        ClosedExtends(ev);
      }
    }
  }

  lemma ClosedExtends(ev: seq<Event>)
    requires ev != [] && !ev[|ev| - 1].VadStart?
    requires var front := ev[..|ev| - 1];
      forall i :: 0 <= i < |front| && front[i].VadStart? ==> exists m :: i < m < |front| && Closes(front[m])
    ensures forall i :: 0 <= i < |ev| && ev[i].VadStart? ==> exists m :: i < m < |ev| && Closes(ev[m])
  {
    var front := ev[..|ev| - 1];
    forall i | 0 <= i < |ev| && ev[i].VadStart? ensures exists m :: i < m < |ev| && Closes(ev[m]) {
      assert front[i].VadStart?;
      var m :| i < m < |front| && Closes(front[m]);
      assert Closes(ev[m]);
    }
  }

  lemma {:induction false} NotBrokenIsDisciplined(ev: seq<Event>)
    requires !SessionOf(false, ev).Broken?
    ensures Disciplined(ev)
    decreases |ev|
  {
    hide Disciplined, OpenedAt, Closes;
    if ev == [] {
      NothingDisciplined();
    } else {
      NotBrokenIsDisciplined(ev[..|ev| - 1]);
      SessionMeaning(ev[..|ev| - 1]);
      OneMore(ev[..|ev| - 1], ev[|ev| - 1], ev);
    }
  }

  lemma NothingDisciplined()
    ensures Disciplined([])
  {
  }

  /** One more event: DATA or END with a session open, START with none. */
  lemma OneMore(front: seq<Event>, e: Event, ev: seq<Event>)
    requires ev == front + [e] && Disciplined(front)
    requires e.VadData? || e.VadEnd? ==> exists j :: OpenedAt(front, j, |front|)
    requires e.VadStart? ==> forall i :: 0 <= i < |front| && front[i].VadStart? ==> exists m :: i < m < |front| && Closes(front[m])
    ensures Disciplined(ev)
  {
    var n := |front|;
    forall i | 0 <= i < |ev| && (ev[i].VadData? || ev[i].VadEnd?) ensures exists j :: OpenedAt(ev, j, i) {
      if i < n { assert front[i].VadData? || front[i].VadEnd?; }
      var j :| OpenedAt(front, j, i);
      assert OpenedAt(ev, j, i);
    }
    forall i, k | 0 <= i < k < |ev| && ev[i].VadStart? && ev[k].VadStart? ensures exists m :: i < m < k && Closes(ev[m]) {
      assert front[i].VadStart?;
      if k < n { assert front[k].VadStart?; }
      var m :| i < m < k && Closes(front[m]);
      assert Closes(ev[m]);
    }
  }

  /** And conversely, so the listener's automaton and the discipline are the same thing. */
  lemma {:induction false} DisciplinedIsNotBroken(ev: seq<Event>)
    requires Disciplined(ev)
    ensures !SessionOf(false, ev).Broken?
    decreases |ev|
  {
    if ev != [] {
      var n := |ev| - 1;
      var front, e := ev[..n], ev[n];
      assert forall i :: 0 <= i < n ==> front[i] == ev[i];
      DisciplinedPrefix(ev);
      DisciplinedIsNotBroken(front);
      SessionMeaning(front);
    }
  }

  lemma DisciplinedPrefix(ev: seq<Event>)
    requires Disciplined(ev) && ev != []
    ensures Disciplined(ev[..|ev| - 1])
  {
    var n := |ev| - 1;
    var front := ev[..n];
    forall i | 0 <= i < n && (front[i].VadData? || front[i].VadEnd?) ensures exists j :: OpenedAt(front, j, i) {
      assert ev[i].VadData? || ev[i].VadEnd?;
      var j :| OpenedAt(ev, j, i);
      assert OpenedAt(front, j, i);
    }
    forall i, k | 0 <= i < k < n && front[i].VadStart? && front[k].VadStart?
      ensures exists m :: i < m < k && Closes(front[m])
    {
      assert ev[i].VadStart? && ev[k].VadStart?;
      var m :| i < m < k && Closes(ev[m]);
      assert Closes(front[m]);
    }
  }

  /** With the VAD enabled, after any run and under any interleaving of `control`: the events obey the
      session discipline and a session is open exactly when `data_output && !canceled`. */
  lemma SessionsHold(fs: seq<FrameInput>)
    ensures var s := Run(Initial(true), fs);
      && Disciplined(s.events)
      && (SessionOf(false, s.events).Open? <==> s.dataOutput && !s.canceled)
      && !SessionOf(false, s.events).Broken?
  {
    RunInv(fs);
    NotBrokenIsDisciplined(Run(Initial(true), fs).events);
  }

  // ---------------------------------------------------------------- where more would be false

  lemma AfterVadExtends(s: State, f: FrameInput, r: VadResult)
    ensures s.events <= AfterVad(s, f, r).events
  {
    hide VadStarts, WordEvents, SessionPart, VadStops;
    var s1 := s.(hasVad := r.hasVad);
    if r.on { StartExtends(s1, f, r); s1 := VadStarts(s1, f, r); }
    WordsExtend(s1, f);
    s1 := WordEvents(s1, f);
    if s1.vadOn { SessionExtends(s1, f, r.off); s1 := SessionPart(s1, f, r.off); }
    StopExtends(s1, f);
  }

  lemma WordsExtend(s: State, f: FrameInput)
    ensures s.events <= WordEvents(s, f).events
  {
  }

  lemma StopExtends(s: State, f: FrameInput)
    ensures s.events <= VadStops(s, f).events
  {
    ChanceFrame(s.(vadOn := false), f, 9);
    hide Chance;
  }

  lemma StartExtends(s: State, f: FrameInput, r: VadResult)
    ensures s.events <= VadStarts(s, f, r).events
  {
    ChanceFrame(s.(vadOn := r.on, awaked := false), f, 2);
    ChanceFrame(Chance(s.(vadOn := r.on, awaked := false), f, 2).(canceled := false, dataOutput := false, awaked := true), f, 3);
    hide Chance;
  }

  lemma SessionExtends(s: State, f: FrameInput, off: bool)
    ensures s.events <= SessionPart(s, f, off).events
  {
    hide OpenSession, CancelSession, ResumeSession, SendData;
    var s1 := s;
    if !s.dataOutput { OpenExtends(s, f); s1 := OpenSession(s, f); }
    if s1.dataOutput {
      var s2 := s1;
      if !s1.canceled { CancelExtends(s1, f); s2 := CancelSession(s1, f); }
      ResumeExtends(s2, f);
      SendExtends(ResumeSession(s2, f), f, off);
    }
  }

  lemma OpenExtends(s: State, f: FrameInput)
    ensures s.events <= OpenSession(s, f).events
  {
    ChanceFrame(s, f, 4);
    ChanceFrame(Chance(s, f, 4), f, 5);
    hide Chance;
  }

  lemma CancelExtends(s: State, f: FrameInput)
    ensures s.events <= CancelSession(s, f).events
  {
    hide DecideCancel;
    DecideFrame(s, f);
  }

  lemma {:induction false} BrokenStays(strict: bool, ev: seq<Event>, ev': seq<Event>)
    requires SessionOf(strict, ev).Broken? && ev <= ev'
    ensures SessionOf(strict, ev').Broken?
    decreases |ev'|
  {
    if ev != ev' { BrokenStays(strict, ev, ev'[..|ev'| - 1]); }
  }

  /** A strict listener is content with a frame if and only if no stray CANCEL arises in it. */
  lemma StrictFrame(s: State, f: FrameInput)
    requires Inv(true, s) && s.vadEnable
    ensures SessionOf(true, Frame(s, f).events).Broken? <==> StrayCancel(s, f)
  {
    if StrayCancel(s, f) {
      var s0 := s.(vadOn := false, awaked := false, canceled := false);
      ChanceFrame(s0, f, 0);
      var s1 := Chance(s0, f, 0).(needAsr := false, hasVad := false);
      ChanceFrame(s1, f, 1);
      hide Chance, AfterVad;
      EmitAfter(true, Chance(s1, f, 1), VadCancel);
      var t := ResetAsr(s, f);
      assert SessionOf(true, t.events).Broken?;
      hide ResetAsr;
      var r := CheckVad(VadResult(t.hasVad, false, false), f.vad, 0);
      AfterVadExtends(t, f, r);
      BrokenStays(true, t.events, AfterVad(t, f, r).events);
    } else {
      hide Frame;
      FrameInv(true, s, f);
    }
  }

  /** Some frame of the run sends a stray CANCEL. */
  ghost predicate Strays(s: State, fs: seq<FrameInput>) {
    exists i :: 0 <= i < |fs| && StrayCancel(Run(s, fs[..i]), fs[i])
  }

  lemma StraysStep(s: State, fs: seq<FrameInput>)
    requires fs != []
    ensures Strays(s, fs) <==> Strays(s, fs[..|fs| - 1]) || StrayCancel(Run(s, fs[..|fs| - 1]), fs[|fs| - 1])
  {
    hide Run, StrayCancel;
    var n := |fs| - 1;
    var front := fs[..n];
    assert forall i :: 0 <= i < n ==> fs[..i] == front[..i] && fs[i] == front[i];
    if Strays(s, front) {
      var i :| 0 <= i < n && StrayCancel(Run(s, front[..i]), front[i]);
      assert StrayCancel(Run(s, fs[..i]), fs[i]);
    }
  }

  /** A strict listener is content with a whole run if and only if no frame of it sends a stray CANCEL. */
  lemma {:induction false} StrictRun(fs: seq<FrameInput>)
    ensures SessionOf(true, Run(Initial(true), fs).events).Broken? <==> Strays(Initial(true), fs)
    ensures !Strays(Initial(true), fs) ==> Inv(true, Run(Initial(true), fs))
    decreases |fs|
  {
    if fs != [] {
      hide Frame, Inv, StrayCancel, Strays, SessionOf;
      var front, f := fs[..|fs| - 1], fs[|fs| - 1];
      var s := Run(Initial(true), front);
      StrictRun(front);
      StraysStep(Initial(true), fs);
      RunInv(front);
      if Strays(Initial(true), front) {
        FrameExtends(s, f);
        BrokenStays(true, s.events, Frame(s, f).events);
      } else {
        StrictFrame(s, f);
        if !StrayCancel(s, f) { FrameInv(true, s, f); }
      }
    }
  }

  lemma FrameExtends(s: State, f: FrameInput)
    ensures s.events <= Frame(s, f).events
  {
    hide ResetAsr, AfterVad, CheckVad;
    var s1 := s;
    if f.AwakePre() { ResetExtends(s, f); s1 := ResetAsr(s, f); }
    AfterVadExtends(s1, f, CheckVad(VadResult(s1.hasVad, false, false), f.vad, 0));
  }

  lemma ResetExtends(s: State, f: FrameInput)
    ensures s.events <= ResetAsr(s, f).events
  {
    hide Chance;
    var s0 := s.(vadOn := false, awaked := false, canceled := false);
    ChanceFrame(s0, f, 0);
    ChanceFrame(Chance(s0, f, 0).(needAsr := false, hasVad := false), f, 1);
  }

  // ---------------------------------------------------------------- with the VAD disabled

  /** The listener's session. */
  ghost function Heard(s: State): Session { SessionOf(false, s.events) }

  /** Nothing went wrong so far, and data goes out only into an open session. The session may be open
      without the flags saying so: a segment that stops leaves it open. */
  ghost predicate Kept(s: State) {
    !Heard(s).Broken? && (s.vadOn && IsOpen(s) ==> Heard(s).Open?)
  }

  /** The opening branch is taken with a START. */
  predicate Opens(s: State, f: FrameInput) {
    !s.dataOutput && (f.Cmd() || (!f.Nocmd() && OpensByAsr(s, f)))
  }

  predicate OpensByAsr(s: State, f: FrameInput) {
    Chance(s, f, 4).needAsr && !Chance(Chance(s, f, 4), f, 5).awaked
  }

  /** The flags as the session part of the frame meets them. */
  function BeforeSession(s: State, f: FrameInput, r: VadResult): State {
    var s := s.(hasVad := r.hasVad);
    var s := if r.on then VadStarts(s, f, r) else s;
    WordEvents(s, f)
  }

  function AfterReset(s: State, f: FrameInput): State { if f.AwakePre() then ResetAsr(s, f) else s }

  function VadOf(s: State, f: FrameInput): VadResult { CheckVad(VadResult(s.hasVad, false, false), f.vad, 0) }

  /** The listener still has a session open, the reset of a wake word does not close it, and the frame
      opens another one. */
  ghost predicate DoubleStart(s: State, f: FrameInput) {
    var t := AfterReset(s, f);
    var p := BeforeSession(t, f, VadOf(t, f));
    Heard(s).Open? && !(f.AwakePre() && s.dataOutput) && p.vadOn && Opens(p, f)
  }

  lemma ResetHeard(s: State, f: FrameInput)
    requires !s.vadEnable
    ensures var t := ResetAsr(s, f);
      && Heard(t) == (if Heard(s).Broken? || !s.dataOutput then Heard(s) else Closed)
      && !t.vadOn && !t.vadEnable
  {
    hide Chance;
    var s0 := s.(vadOn := false, awaked := false, canceled := false);
    ChanceFrame(s0, f, 0);
    var s1 := Chance(s0, f, 0).(needAsr := false, hasVad := false);
    ChanceFrame(s1, f, 1);
    EmitAfter(false, Chance(s1, f, 1), VadCancel);
  }

  lemma StartsHeard(s: State, f: FrameInput, r: VadResult)
    ensures var t := VadStarts(s, f, r);
      Heard(t) == Heard(s) && !t.dataOutput && !t.canceled && t.vadEnable == s.vadEnable && t.vadOn == r.on
  {
    hide Chance;
    var s0 := s.(vadOn := r.on, awaked := false);
    ChanceFrame(s0, f, 2);
    var s1 := Chance(s0, f, 2).(canceled := false, dataOutput := false);
    ChanceFrame(s1.(awaked := true), f, 3);
    var s2 := Chance(s1.(awaked := true), f, 3).(needAsr := true);
    EmitAfter(false, s2, VadComing);
    EmitAfter(false, Emit(s2, VadComing), VtInfo);
  }

  lemma OpenHeard(s: State, f: FrameInput)
    requires !s.dataOutput
    ensures var t := OpenSession(s, f);
      && SameSegment(s, t)
      && (if Opens(s, f) then t.dataOutput && Heard(t) == After(false, Heard(s), VadStart)
          else Heard(t) == Heard(s) && !IsOpen(t))
  {
    hide Chance;
    if f.Cmd() {
      EmitAfter(false, s.(dataOutput := true), VadStart);
    } else if !f.Nocmd() {
      var s1 := Chance(s, f, 4);
      ChanceFrame(s, f, 4);
      ChanceFrame(s1, f, 5);
      EmitAfter(false, Chance(s1, f, 5).(dataOutput := true), VadStart);
    }
  }

  lemma CancelHeard(s: State, f: FrameInput)
    requires IsOpen(s) && !s.vadEnable && Heard(s).Open?
    ensures var t := CancelSession(s, f);
      && !t.vadEnable && (if t.canceled then Heard(t).Closed? else Heard(t).Open? && t.dataOutput && t.vadOn == s.vadOn)
  {
    hide DecideCancel;
    DecideFrame(s, f);
    var t := DecideCancel(s, f).(vadOn := false, dataOutput := false);
    EmitAfter(false, t, VadCancel);
  }

  lemma DataHeard(s: State, f: FrameInput, off: bool)
    requires s.canceled || Heard(s).Open?
    ensures var t := SendData(s, f, off); Heard(t) == Heard(s) && t == s.(events := t.events)
  {
    EmitAfter(false, s, VadData);
    EmitAfter(false, Emit(s, VadData), VadData);
  }

  /** The session part breaks the discipline exactly by opening a session on top of an open one. */
  lemma SessionHeard(s: State, f: FrameInput, off: bool)
    requires Kept(s) && s.vadOn && !s.vadEnable
    ensures var t := SessionPart(s, f, off);
      && (Heard(t).Broken? <==> Heard(s).Open? && Opens(s, f))
      && (!Heard(t).Broken? ==> Kept(t) && !t.vadEnable)
  {
    if !s.dataOutput {
      OpenHeard(s, f);
      OpenedHeard(s, f, off);
    } else {
      OpenedIs(s, f, off);
    }
  }

  lemma OpenedHeard(s: State, f: FrameInput, off: bool)
    requires Kept(s) && s.vadOn && !s.vadEnable && !s.dataOutput
    ensures var t := SessionPart(s, f, off);
      && (Heard(t).Broken? <==> Heard(s).Open? && Opens(s, f))
      && (!Heard(t).Broken? ==> Kept(t) && !t.vadEnable)
  {
    hide OpenSession, CancelSession, ResumeSession, SendData, SessionOf, Opens;
    OpenHeard(s, f);
    var t := OpenSession(s, f);
    if t.dataOutput && !(Heard(s).Open? && Opens(s, f)) { OpenedIs(t, f, off); }
    if Heard(s).Open? && Opens(s, f) { BrokenSession(s, f, off); }
    assert t.dataOutput ==> SessionPart(s, f, off) == SessionPart(t, f, off);
  }

  /** A broken stream stays broken. */
  lemma BrokenSession(s: State, f: FrameInput, off: bool)
    requires !s.dataOutput && Heard(OpenSession(s, f)).Broken?
    ensures Heard(SessionPart(s, f, off)).Broken?
  {
    hide OpenSession, CancelSession, ResumeSession, SendData, SessionOf;
    var t := OpenSession(s, f);
    if t.dataOutput {
      var t2 := t;
      if !t.canceled { CancelExtends(t, f); t2 := CancelSession(t, f); }
      ResumeExtends(t2, f);
      SendExtends(ResumeSession(t2, f), f, off);
      BrokenStays(false, t.events, SessionPart(s, f, off).events);
    }
  }

  lemma ResumeExtends(s: State, f: FrameInput)
    ensures s.events <= ResumeSession(s, f).events
  {
    hide Chance;
    ChanceFrame(s, f, 8);
  }

  lemma SendExtends(s: State, f: FrameInput, off: bool)
    ensures s.events <= SendData(s, f, off).events
  {
  }

  /** Inside a session nothing breaks. */
  lemma OpenedIs(s: State, f: FrameInput, off: bool)
    requires Kept(s) && s.vadOn && !s.vadEnable && s.dataOutput
    ensures Kept(SessionPart(s, f, off)) && !SessionPart(s, f, off).vadEnable
  {
    hide CancelSession, SendData, SessionOf;
    var t := s;
    if !s.canceled { CancelHeard(s, f); t := CancelSession(s, f); }
    DataHeard(t, f, off);
    assert SessionPart(s, f, off) == SendData(t, f, off);
  }

  lemma StopHeard(s: State, f: FrameInput)
    requires !s.vadEnable
    ensures var t := VadStops(s, f); Heard(t) == Heard(s) && !t.dataOutput && !t.vadOn && !t.vadEnable
  {
    hide Chance;
    ChanceFrame(s.(vadOn := false), f, 9);
  }

  /** What the session part meets. */
  lemma PreparedHeard(s: State, f: FrameInput)
    requires Kept(s) && !s.vadEnable
    ensures var t := AfterReset(s, f); var p := BeforeSession(t, f, VadOf(t, f));
      && Heard(p) == (if f.AwakePre() && s.dataOutput then Closed else Heard(s))
      && Kept(p) && !p.vadEnable
  {
    hide ResetAsr, VadStarts, WordEvents, CheckVad, SessionOf;
    if f.AwakePre() { ResetHeard(s, f); }
    var t := AfterReset(s, f);
    var r := VadOf(t, f);
    var t1 := t.(hasVad := r.hasVad);
    if r.on { StartsHeard(t1, f, r); }
    WordEventsTracks(false, if r.on then VadStarts(t1, f, r) else t1, f);
  }

  /** The rest of the frame. */
  lemma ConcludedHeard(p: State, f: FrameInput, off: bool)
    requires Kept(p) && !p.vadEnable
    ensures var q := if p.vadOn then SessionPart(p, f, off) else p; var t := if off then VadStops(q, f) else q;
      && (Heard(t).Broken? <==> Heard(p).Open? && p.vadOn && Opens(p, f))
      && (!Heard(t).Broken? ==> Kept(t) && !t.vadEnable)
  {
    hide SessionPart, VadStops, SessionOf, Opens;
    if p.vadOn { SessionHeard(p, f, off); }
    var q := if p.vadOn then SessionPart(p, f, off) else p;
    if off {
      if q.vadEnable {
        StopExtends(q, f);
        BrokenStays(false, q.events, VadStops(q, f).events);
      } else {
        StopHeard(q, f);
      }
    }
  }

  /** Without the VAD a frame breaks the discipline if and only if it opens a session while the listener
      still has one open. */
  lemma DisabledFrame(s: State, f: FrameInput)
    requires Kept(s) && !s.vadEnable
    ensures Heard(Frame(s, f)).Broken? <==> DoubleStart(s, f)
    ensures !DoubleStart(s, f) ==> Kept(Frame(s, f)) && !Frame(s, f).vadEnable
  {
    hide ResetAsr, VadStarts, WordEvents, SessionPart, VadStops, CheckVad, SessionOf, Opens, Kept;
    var t := AfterReset(s, f);
    PreparedHeard(s, f);
    ConcludedHeard(BeforeSession(t, f, VadOf(t, f)), f, VadOf(t, f).off);
  }

  /** A frame without a wake word, with one detector answer. */
  function Plain(answer: bool): FrameInput {
    FrameInput(false, false, false, false, WordOther, [answer], false, false, 0, 0, [])
  }

  /** A wake word with (`cmd`) or without a command in the same breath. */
  function Wake(cmd: bool, answer: bool): FrameInput {
    FrameInput(true, false, cmd, !cmd, WordAwake, [answer], false, false, 0, 0, [])
  }

  /** The stray CANCEL happens: a wake word without a command, then another wake word. */
  lemma StrayCancelHappens()
    ensures var s := Run(Initial(true), [Wake(false, true)]);
      Inv(true, s) && StrayCancel(s, Wake(true, false))
  {
    var f := Wake(false, true);
    var s0 := Initial(true);
    assert ResetAsr(s0, f) == s0;
    assert CheckVad(VadResult(false, false, false), f.vad, 0) == VadResult(true, true, false);
    var s1 := s0.(hasVad := true, vadOn := true, awaked := true, needAsr := true, events := [VadComing, VtInfo]);
    assert VadStarts(s0.(hasVad := true), f, VadResult(true, true, false)) == s1;
    var s2 := s1.(events := [VadComing, VtInfo, WakeNoCmd]);
    assert WordEvents(s1, f) == s2;
    var s3 := s2.(dataOutput := true, canceled := true);
    assert SessionPart(s2, f, false) == s3;
    assert Run(s0, []) == s0;
    assert [f][..0] == [];
    assert Run(s0, [f]) == s3;
    FrameInv(true, s0, f);
  }

  /** With the VAD disabled the discipline does not hold: a segment that stops sends no END, and
      the next one starts a second session on top of the first. */
  lemma NeedsVadEnable()
    ensures var f := Plain(true).(control := [[], [], [AsrOn]]);
      SessionOf(false, Run(Initial(false), [f, Plain(true), Plain(true)]).events).Broken?
  {
    var f, p := Plain(true).(control := [[], [], [AsrOn]]), Plain(true);
    var s0 := Initial(false);
    var s1 := s0.(hasVad := true, vadOn := true, needAsr := true, dataOutput := true, events := [VadStart]);
    var s2 := s1.(hasVad := false, vadOn := false, dataOutput := false);
    var s3 := s1.(events := [VadStart, VadStart]);
    hide Frame;
    FirstSegment(f);
    LaterSegments();
    assert [f][..0] == [] && [f, p][..1] == [f] && [f, p, p][..2] == [f, p];
    assert Run(s0, [f]) == Frame(Run(s0, []), f) == s1;
    assert Run(s0, [f, p]) == s2;
    assert [VadStart, VadStart][..1] == [VadStart] && [VadStart][..0] == [];
    assert SessionOf(false, [VadStart]) == Open;
  }

  /** The discipline holds in every run if and only if the VAD is enabled. */
  lemma DisciplineNeedsVad(vadEnable: bool)
    ensures (forall fs :: Disciplined(Run(Initial(vadEnable), fs).events)) <==> vadEnable
  {
    if vadEnable {
      forall fs ensures Disciplined(Run(Initial(true), fs).events) { SessionsHold(fs); }
    } else {
      NeedsVadEnable();
      var f := Plain(true).(control := [[], [], [AsrOn]]);
      var ev := Run(Initial(false), [f, Plain(true), Plain(true)]).events;
      if Disciplined(ev) { DisciplinedIsNotBroken(ev); }
    }
  }

  /** Some frame of the run opens a session on top of an open one. */
  ghost predicate Doubles(s: State, fs: seq<FrameInput>) {
    exists i :: 0 <= i < |fs| && DoubleStart(Run(s, fs[..i]), fs[i])
  }

  /** And with the VAD disabled a run is disciplined if and only if no frame of it does that. */
  lemma DisabledRun(fs: seq<FrameInput>)
    ensures Disciplined(Run(Initial(false), fs).events) <==> !Doubles(Initial(false), fs)
  {
    hide Disciplined, Run, Doubles;
    var ev := Run(Initial(false), fs).events;
    DoublesBreak(fs);
    if SessionOf(false, ev).Broken? {
      if Disciplined(ev) { DisciplinedIsNotBroken(ev); }
    } else {
      NotBrokenIsDisciplined(ev);
    }
  }

  lemma DoublesStep(s: State, fs: seq<FrameInput>)
    requires fs != []
    ensures Doubles(s, fs) <==> Doubles(s, fs[..|fs| - 1]) || DoubleStart(Run(s, fs[..|fs| - 1]), fs[|fs| - 1])
  {
    hide Run, DoubleStart;
    var n := |fs| - 1;
    var front := fs[..n];
    assert forall i :: 0 <= i < n ==> fs[..i] == front[..i] && fs[i] == front[i];
    if Doubles(s, front) {
      var i :| 0 <= i < n && DoubleStart(Run(s, front[..i]), front[i]);
      assert DoubleStart(Run(s, fs[..i]), fs[i]);
    }
  }

  lemma {:induction false} DoublesBreak(fs: seq<FrameInput>)
    ensures Heard(Run(Initial(false), fs)).Broken? <==> Doubles(Initial(false), fs)
    ensures !Doubles(Initial(false), fs) ==> Kept(Run(Initial(false), fs)) && !Run(Initial(false), fs).vadEnable
    decreases |fs|
  {
    if fs != [] {
      hide Frame, Kept, DoubleStart, Doubles, SessionOf;
      var front, f := fs[..|fs| - 1], fs[|fs| - 1];
      var s := Run(Initial(false), front);
      DoublesBreak(front);
      DoublesStep(Initial(false), fs);
      if Doubles(Initial(false), front) {
        FrameExtends(s, f);
        BrokenStays(false, s.events, Frame(s, f).events);
      } else {
        DisabledFrame(s, f);
      }
    }
  }

  lemma LaterSegments()
    ensures var s1 := Initial(false).(hasVad := true, vadOn := true, needAsr := true, dataOutput := true, events := [VadStart]);
      var s2 := s1.(hasVad := false, vadOn := false, dataOutput := false);
      Frame(s1, Plain(true)) == s2 && Frame(s2, Plain(true)) == s1.(events := [VadStart, VadStart])
  {
  }

  lemma FirstSegment(f: FrameInput)
    requires f == Plain(true).(control := [[], [], [AsrOn]])
    ensures Frame(Initial(false), f) ==
            Initial(false).(hasVad := true, vadOn := true, needAsr := true, dataOutput := true, events := [VadStart])
  {
    var s := Initial(false).(hasVad := true, vadOn := true);
    assert Controls(s, [AsrOn]) == Controls(s.(needAsr := true), [AsrOn][1..]);
    assert VadStarts(s.(vadOn := false), f, VadResult(true, true, false)) == s.(needAsr := true);
  }
}
