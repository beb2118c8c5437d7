/** VoiceActivation of voice_activation.cpp as an object: the flags and the event stream, updated in place frame by
    frame. */
module ActivationObject {
  import opened Activation
  import opened ActivationEvents

  /** The flags of VoiceActivation and its event stream, updated in place. */
  class VoiceActivation {
    const vadEnable: bool
    var vadOn: bool
    var hasVad: bool
    var needAsr: bool
    var awaked: bool
    var canceled: bool
    var dataOutput: bool
    var events: seq<Event>

    ghost function Now(): State
      reads this
    {
      State(vadEnable, vadOn, hasVad, needAsr, awaked, canceled, dataOutput, events)
    }

    constructor (vadEnable: bool)
      ensures Now() == Initial(vadEnable)
    {
      this.vadEnable := vadEnable;
      vadOn, hasVad, needAsr, awaked, canceled, dataOutput := false, false, false, false, false, false;
      events := [];
    }

    method Send(e: Event)
      modifies this`events
      ensures Now() == Emit(old(Now()), e)
    {
      events := events + [e];
    }

    method Write(w: FlagWrite)
      modifies this`needAsr, this`awaked
      ensures Now() == Control(old(Now()), w)
    {
      match w {
        case AsrOn => needAsr := true;
        case AwakedOff => awaked := false;
        case AsrOff => needAsr := false;
      }
    }

    method Interleave(f: FrameInput, k: nat)
      modifies this`needAsr, this`awaked
      ensures Now() == Chance(old(Now()), f, k)
    {
      if k < |f.control| {
        var ws, i := f.control[k], 0;
        while i < |ws|
          invariant 0 <= i <= |ws| && Controls(Now(), ws[i..]) == Controls(old(Now()), ws)
          invariant events == old(events)
        {
          Write(ws[i]);
          assert ws[i..][1..] == ws[i + 1..];
          i := i + 1;
        }
      }
    }

    method CheckVoiceActivity(vad: seq<bool>) returns (on: bool, off: bool)
      modifies this`hasVad
      ensures VadResult(hasVad, on, off) == CheckVad(VadResult(old(hasVad), false, false), vad, 0)
    {
      on, off := false, false;
      var i := 0;
      while i < |vad|
        invariant 0 <= i <= |vad| && !off
        invariant CheckVad(VadResult(hasVad, on, off), vad, i) == CheckVad(VadResult(old(hasVad), false, false), vad, 0)
      {
        if !hasVad {
          if vad[i] { on, hasVad := true, true; }
        } else if vad[i] {
          off := true;
        }
        if hasVad && off {
          hasVad := false;
          return;
        }
        i := i + 1;
      }
    }

    method Reset(f: FrameInput)
      modifies this
      ensures Now() == ResetAsr(old(Now()), f)
    {
      hide Chance, ResetAsr;
      vadOn, awaked, canceled := false, false, false;
      Interleave(f, 0);
      needAsr, hasVad := false, false;
      Interleave(f, 1);
      ResetIs(old(Now()), Now(), f);
      if dataOutput && !canceled { Send(VadCancel); }
      if vadEnable { dataOutput := false; }
    }

    method StartSegment(f: FrameInput, ghost r: VadResult)
      requires r.on
      modifies this
      ensures Now() == VadStarts(old(Now()), f, r)
    {
      hide Chance, Greeting;
      vadOn, awaked := true, false;
      Interleave(f, 2);
      canceled, dataOutput := false, false;
      if f.Awake() { Greet(f); }
    }

    method Greet(f: FrameInput)
      modifies this
      ensures Now() == Greeting(old(Now()), f)
    {
      hide Chance, Greeting;
      awaked := true;
      Interleave(f, 3);
      ghost var s := Now();
      GreetingIs(old(Now()), s, f);
      needAsr := true;
      events := events + [VadComing] + [VtInfo];
    }

    method SendWords(f: FrameInput)
      modifies this
      ensures Now() == WordEvents(old(Now()), f)
    {
      if f.Nocmd() && f.word.WordSleep? { Send(LocalSleep); }
      if f.Nocmd() && f.word.WordAwake? { Send(WakeNoCmd); }
      if f.Nocmd() && f.word.WordHotword? { Send(Hotword); }
      if f.Cmd() && f.word.WordAwake? { Send(LocalWake); }
    }

    method TryOpen(f: FrameInput)
      modifies this
      ensures Now() == OpenSession(old(Now()), f)
    {
      hide Chance;
      if f.Cmd() {
        dataOutput := true;
        Send(VadStart);
      } else if f.Nocmd() {
        dataOutput, canceled := true, true;
      } else {
        Interleave(f, 4);
        if needAsr {
          Interleave(f, 5);
          if !awaked {
            dataOutput := true;
            Send(VadStart);
          }
        }
      }
    }

    method Decide(f: FrameInput)
      modifies this
      ensures Now() == DecideCancel(old(Now()), f)
    {
      hide Chance;
      if vadEnable && f.tooLong { canceled := true; }
      Interleave(f, 6);
      if !awaked {
        Interleave(f, 7);
        if !needAsr { canceled := true; }
      }
    }

    method TryCancel(f: FrameInput)
      modifies this
      ensures Now() == CancelSession(old(Now()), f)
    {
      hide DecideCancel;
      Decide(f);
      if canceled {
        if !vadEnable { vadOn, dataOutput := false, false; }
        Send(VadCancel);
      }
    }

    method TryResume(f: FrameInput)
      modifies this
      ensures Now() == ResumeSession(old(Now()), f)
    {
      hide Chance;
      if vadEnable && canceled {
        Interleave(f, 8);
        if awaked && f.needResume {
          canceled := false;
          Send(VadStart);
        }
      }
    }

    method Deliver(f: FrameInput, off: bool)
      modifies this
      ensures Now() == SendData(old(Now()), f, off)
    {
      if !canceled {
        if !f.AwakePre() && f.dataLen > 100 { Send(VadData); }
        if off && f.dataLenAtEnd > 0 { Send(VadData); }
      }
    }

    method StopSegment(f: FrameInput)
      modifies this
      ensures Now() == VadStops(old(Now()), f)
    {
      hide Chance, VadStops;
      vadOn := false;
      Interleave(f, 9);
      StopIs(old(Now()), Now(), f);
      if vadEnable { needAsr := false; }
      if vadEnable && dataOutput && !canceled { Send(VadEnd); }
      dataOutput := false;
    }

    method SessionSteps(f: FrameInput, off: bool)
      modifies this
      ensures Now() == SessionPart(old(Now()), f, off)
    {
      hide OpenSession, CancelSession, ResumeSession, SendData;
      if !dataOutput { TryOpen(f); }
      if dataOutput {
        if !canceled { TryCancel(f); }
        TryResume(f);
        Deliver(f, off);
      }
    }

    /** The rest of processfrm, once the detector has answered. */
    method Respond(f: FrameInput, on: bool, off: bool)
      modifies this
      ensures Now() == AfterVad(old(Now()), f, VadResult(old(hasVad), on, off))
    {
      hide VadStarts, WordEvents, SessionPart, VadStops, AfterVad;
      ghost var r, s0 := VadResult(hasVad, on, off), Now();
      if on { StartSegment(f, r); }
      ghost var s1 := Now();
      SendWords(f);
      ghost var s2 := Now();
      if vadOn { SessionSteps(f, off); }
      ghost var s3 := Now();
      if off { StopSegment(f); }
      AfterVadIs(s0, s1, s2, s3, Now(), f, r);
    }

    /** processfrm keeps the listener and the flags in step, for any answers and interleavings: always with
        the VAD enabled, for a strict listener unless a stray CANCEL arises, and with the VAD disabled unless a
        session is opened twice. It sends what the table says, so every word found and all data that is due. */
    method ProcessFrame(f: FrameInput) returns (ghost r: Reads)
      modifies this
      ensures Now() == Frame(old(Now()), f)
      ensures events == old(events) + Sent(old(Now()), f, r) && (f.control == [] ==> r == PlainReads(old(Now()), f))
      ensures Delivered(old(Now()), f, Now())
      ensures vadEnable && Inv(false, old(Now())) ==> Inv(false, Now())
      ensures vadEnable && Inv(true, old(Now())) && !StrayCancel(old(Now()), f) ==> Inv(true, Now())
      ensures !vadEnable && Kept(old(Now())) && !DoubleStart(old(Now()), f) ==> Kept(Now())
    {
      hide Frame, Inv, StrayCancel, Kept, DoubleStart, Sent, PlainReads, Delivered;
      FrameLaws(Now(), f);
      r := FrameTable(Now(), f);
      FrameDelivers(Now(), f);
      FrameSteps(f);
    }

    /** The steps of processfrm in order. */
    method FrameSteps(f: FrameInput)
      modifies this
      ensures Now() == Frame(old(Now()), f)
    {
      hide ResetAsr, AfterVad, CheckVad;
      if f.AwakePre() { Reset(f); }
      ghost var s := Now();
      var on, off := CheckVoiceActivity(f.vad);
      AfterVadHasVad(s, Now(), f, VadResult(hasVad, on, off));
      Respond(f, on, off);
    }
  }

  lemma FrameLaws(s: State, f: FrameInput)
    ensures s.vadEnable && Inv(false, s) ==> Inv(false, Frame(s, f))
    ensures s.vadEnable && Inv(true, s) && !StrayCancel(s, f) ==> Inv(true, Frame(s, f))
    ensures !s.vadEnable && Kept(s) && !DoubleStart(s, f) ==> Kept(Frame(s, f))
  {
    hide Frame, Inv, StrayCancel, Kept, DoubleStart;
    if s.vadEnable && Inv(false, s) { FrameInv(false, s, f); }
    if s.vadEnable && Inv(true, s) && !StrayCancel(s, f) { FrameInv(true, s, f); }
    if !s.vadEnable && Kept(s) { DisabledFrame(s, f); }
  }

  /** A whole run of the object: with the VAD enabled its event stream obeys the session discipline and the
      flags tell whether a session is open; with it disabled, exactly if no frame opens twice. Every word is reported
      once, and with the VAD enabled exactly the data that is owed goes out. */
  method Listen(vadEnable: bool, fs: seq<FrameInput>) returns (va: VoiceActivation)
    ensures fresh(va) && va.vadEnable == vadEnable && va.Now() == Run(Initial(vadEnable), fs)
    ensures vadEnable ==> Disciplined(va.events)
    ensures vadEnable ==> (SessionOf(false, va.events).Open? <==> va.dataOutput && !va.canceled)
    ensures !vadEnable ==> (Disciplined(va.events) <==> !Doubles(Initial(false), fs))
    ensures forall e :: IsWord(e) ==> multiset(va.events)[e] == FramesCalling(fs, e)
    ensures vadEnable ==> multiset(va.events)[VadData] == DataOfRun(Initial(true), fs)
  {
    hide Delivered, Sent, PlainReads, IsWord, FramesCalling, DataOfRun, Frame, Inv, Kept, DoubleStart, StrayCancel, Disciplined, Doubles;
    va := new VoiceActivation(vadEnable);
    for i := 0 to |fs|
      invariant va.vadEnable == vadEnable && va.Now() == Run(Initial(vadEnable), fs[..i])
    {
      assert fs[..i + 1][..i] == fs[..i];
      ghost var _ := va.ProcessFrame(fs[i]);
    }
    assert fs[..|fs|] == fs;
    forall e | IsWord(e) ensures multiset(va.events)[e] == FramesCalling(fs, e) { WordsOfRun(vadEnable, fs, e); }
    if vadEnable {
      SessionsHold(fs);
      DataOfRunSent(fs);
    } else {
      DisabledRun(fs);
    }
  }

  lemma StopIs(s: State, t: State, f: FrameInput)
    requires t == Chance(s.(vadOn := false), f, 9)
    ensures VadStops(s, f) ==
      t.(needAsr := t.needAsr && !t.vadEnable, dataOutput := false,
         events := if t.vadEnable && t.dataOutput && !t.canceled then t.events + [VadEnd] else t.events)
  {
    hide Chance;
  }

  lemma ResetIs(s: State, t: State, f: FrameInput)
    requires t == Chance(Chance(s.(vadOn := false, awaked := false, canceled := false), f, 0).(needAsr := false, hasVad := false), f, 1)
    ensures ResetAsr(s, f) ==
      t.(events := if t.dataOutput && !t.canceled then t.events + [VadCancel] else t.events,
         dataOutput := t.dataOutput && !t.vadEnable)
  {
    hide Chance;
  }

  lemma GreetingIs(s: State, t: State, f: FrameInput)
    requires t == Chance(s.(awaked := true), f, 3)
    ensures Greeting(s, f) == t.(needAsr := true, events := t.events + [VadComing] + [VtInfo])
  {
    hide Chance;
  }

  lemma AfterVadIs(s0: State, s1: State, s2: State, s3: State, s4: State, f: FrameInput, r: VadResult)
    requires s0.hasVad == r.hasVad
    requires s1 == if r.on then VadStarts(s0, f, r) else s0
    requires s2 == WordEvents(s1, f)
    requires s3 == if s2.vadOn then SessionPart(s2, f, r.off) else s2
    requires s4 == if r.off then VadStops(s3, f) else s3
    ensures s4 == AfterVad(s0, f, r)
  {
    hide VadStarts, WordEvents, SessionPart, VadStops;
  }

  lemma AfterVadHasVad(s: State, t: State, f: FrameInput, r: VadResult)
    requires t == s.(hasVad := r.hasVad)
    ensures AfterVad(t, f, r) == AfterVad(s, f, r)
  {
    hide VadStarts, WordEvents, SessionPart, VadStops;
  }
}
