/** The enrolment component `FaceRegistration`: it collects face descriptors
    one capture at a time and hands the list to `onComplete` once
    `requiredCaptures` of them have been taken.

    The asynchronous parts are explicit events. `handleCapture` runs until
    its `await` (HandleCapture), and the rest runs when the capture resolves
    (CaptureResolved), with the descriptor list the handler saw when it
    started. The two `setTimeout` callbacks are pending timers that fire as
    separate events: the 1 s `onComplete` and the 2 s return to "idle"
    after a failed capture. The lists handed to `onComplete` are recorded in
    `completions`. */
module FaceRegistration {
  import opened Common
  import opened Text
  import FaceAuth

  type Descriptor = FaceAuth.Descriptor

  datatype Status = Idle | Capturing | Success | Error

  const DefaultRequiredCaptures: nat := 5

  const PromptMessage: string := "Position your face in the frame"
  const CapturingMessage: string := "Stay still... capturing face"
  const CompleteMessage: string := "Face registration complete!"
  const NotDetectedMessage: string := "Face not detected. Please position your face clearly in the frame."

  function ProgressMessage(count: nat, required: nat): string {
    "Captured " + NatToString(count) + "/" + NatToString(required)
      + ". Move your head slightly and capture again."
  }

  /** The progress bar: captured share of the required count, in percent. */
  function Progress(count: nat, required: nat): (p: real)
    requires required > 0
    ensures p >= 0.0
    ensures count <= required ==> p <= 100.0
    ensures p == 100.0 <==> count == required
    ensures p == 0.0 <==> count == 0
  {
    (count as real / required as real) * 100.0
  }

  class Registration {
    const requiredCaptures: nat
    var capturedDescriptors: seq<Descriptor>
    var isCapturing: bool
    var status: Status
    var message: string
    /** The descriptor list as the capture in flight saw it when it started. */
    var captureBase: seq<Descriptor>
    /** Pending 1 s timers, oldest first, each with the list it will hand over. */
    var pendingCompletions: seq<seq<Descriptor>>
    /** Pending 2 s timers that set the status back to "idle". */
    var pendingReverts: nat
    /** The lists `onComplete` has been called with, in call order. */
    var completions: seq<seq<Descriptor>>

    constructor (requiredCaptures: nat)
      requires requiredCaptures > 0
      ensures this.requiredCaptures == requiredCaptures
      ensures capturedDescriptors == [] && !isCapturing && status == Idle && message == PromptMessage
      ensures captureBase == [] && pendingCompletions == [] && pendingReverts == 0 && completions == []
    {
      this.requiredCaptures := requiredCaptures;
      capturedDescriptors := [];
      isCapturing := false;
      status := Idle;
      message := PromptMessage;
      captureBase := [];
      pendingCompletions := [];
      pendingReverts := 0;
      completions := [];
    }

    /** The Capture button is enabled. */
    predicate CaptureEnabled()
      reads this
    {
      !isCapturing && status != Success
    }

    /** The Reset button is shown. */
    predicate ResetVisible()
      reads this
    {
      |capturedDescriptors| > 0 && status != Success
    }

    /** `handleCapture` up to its `await`: ignored while a capture is in
        flight, otherwise marks one as started. */
    method HandleCapture()
      modifies this
      ensures old(isCapturing) ==> isCapturing && status == old(status) && message == old(message)
                                   && captureBase == old(captureBase)
      ensures !old(isCapturing) ==> isCapturing && status == Capturing && message == CapturingMessage
                                    && captureBase == old(capturedDescriptors)
      ensures capturedDescriptors == old(capturedDescriptors)
      ensures pendingCompletions == old(pendingCompletions) && pendingReverts == old(pendingReverts)
      ensures completions == old(completions)
    {
      if isCapturing {
        return;
      }
      isCapturing := true;
      status := Capturing;
      message := CapturingMessage;
      captureBase := capturedDescriptors;
    }

    /** The rest of `handleCapture`, once the capture yields a descriptor or
        none. */
    method CaptureResolved(descriptor: Option<Descriptor>)
      requires isCapturing
      modifies this
      ensures !isCapturing && captureBase == old(captureBase) && completions == old(completions)
      ensures descriptor.Some? ==>
                && capturedDescriptors == old(captureBase) + [descriptor.value]
                && pendingReverts == old(pendingReverts)
                && (|capturedDescriptors| >= requiredCaptures ==>
                      && status == Success && message == CompleteMessage
                      && pendingCompletions == old(pendingCompletions) + [capturedDescriptors])
                && (|capturedDescriptors| < requiredCaptures ==>
                      && status == Idle
                      && message == ProgressMessage(|capturedDescriptors|, requiredCaptures)
                      && pendingCompletions == old(pendingCompletions))
      ensures descriptor.None? ==>
                && capturedDescriptors == old(capturedDescriptors)
                && status == Error && message == NotDetectedMessage
                && pendingReverts == old(pendingReverts) + 1
                && pendingCompletions == old(pendingCompletions)
    {
      match descriptor {
        case Some(d) =>
          var newDescriptors := captureBase + [d];
          capturedDescriptors := newDescriptors;
          if |newDescriptors| >= requiredCaptures {
            status := Success;
            message := CompleteMessage;
            pendingCompletions := pendingCompletions + [newDescriptors];
          } else {
            status := Idle;
            message := ProgressMessage(|newDescriptors|, requiredCaptures);
          }
        case None =>
          status := Error;
          message := NotDetectedMessage;
          pendingReverts := pendingReverts + 1;
      }
      isCapturing := false;
    }

    /** `handleReset`. */
    method HandleReset()
      modifies this
      ensures capturedDescriptors == [] && status == Idle && message == PromptMessage
      ensures isCapturing == old(isCapturing) && captureBase == old(captureBase)
      ensures pendingCompletions == old(pendingCompletions) && pendingReverts == old(pendingReverts)
      ensures completions == old(completions)
    {
      capturedDescriptors := [];
      status := Idle;
      message := PromptMessage;
    }

    /** The oldest 1 s timer fires and calls `onComplete` with its list. */
    method FireCompletionTimer()
      requires pendingCompletions != []
      modifies this
      ensures completions == old(completions) + [old(pendingCompletions)[0]]
      ensures pendingCompletions == old(pendingCompletions)[1..]
      ensures capturedDescriptors == old(capturedDescriptors) && isCapturing == old(isCapturing)
      ensures status == old(status) && message == old(message) && captureBase == old(captureBase)
      ensures pendingReverts == old(pendingReverts)
    {
      completions := completions + [pendingCompletions[0]];
      pendingCompletions := pendingCompletions[1..];
    }

    /** A 2 s timer fires. As written it sets the status to "idle" whatever
        the status is by then, "success" included. */
    method FireRevertTimer()
      requires pendingReverts > 0
      modifies this
      ensures status == Idle && pendingReverts == old(pendingReverts) - 1
      ensures capturedDescriptors == old(capturedDescriptors) && isCapturing == old(isCapturing)
      ensures message == old(message) && captureBase == old(captureBase)
      ensures pendingCompletions == old(pendingCompletions) && completions == old(completions)
    {
      status := Idle;
      pendingReverts := pendingReverts - 1;
    }

    /** The corrected 2 s timer: it only undoes the error it was set for
        (`setStatus(s => s === "error" ? "idle" : s)`). */
    method FireRevertTimerIfError()
      requires pendingReverts > 0
      modifies this
      ensures status == (if old(status) == Error then Idle else old(status))
      ensures pendingReverts == old(pendingReverts) - 1
      ensures capturedDescriptors == old(capturedDescriptors) && isCapturing == old(isCapturing)
      ensures message == old(message) && captureBase == old(captureBase)
      ensures pendingCompletions == old(pendingCompletions) && completions == old(completions)
    {
      if status == Error {
        status := Idle;
      }
      pendingReverts := pendingReverts - 1;
    }

    /** The enrolment invariant: until "success" fewer than the required
        descriptors are held and nothing is scheduled for `onComplete`;
        from "success" on, exactly one completion with exactly the
        required descriptors is either pending or delivered. */
    ghost predicate CompletesOnce()
      reads this
    {
      && requiredCaptures > 0
      && (isCapturing ==> |captureBase| < requiredCaptures)
      && (status != Success ==>
            |capturedDescriptors| < requiredCaptures && completions == [] && pendingCompletions == [])
      && (status == Success ==>
            && !isCapturing
            && |capturedDescriptors| == requiredCaptures
            && completions + pendingCompletions == [capturedDescriptors])
    }

    /** Under the invariant `onComplete` runs at most once, with exactly the
        required number of descriptors. */
    lemma AtMostOneCompletion()
      requires CompletesOnce()
      ensures |completions| <= 1
      ensures forall c :: c in completions ==> |c| == requiredCaptures
    {
      if status == Success {
        assert |completions + pendingCompletions| == 1;
        if completions != [] {
          assert completions[0] == (completions + pendingCompletions)[0];
        }
      }
    }
  }

  /** The invariant holds from the start, and every event the interface
      allows keeps it, provided the error timer is the corrected one. */
  method InitialStateCompletesOnce(requiredCaptures: nat) returns (r: Registration)
    requires requiredCaptures > 0
    ensures r.CompletesOnce() && r.requiredCaptures == requiredCaptures
  {
    r := new Registration(requiredCaptures);
  }

  method CaptureKeepsInvariant(r: Registration)
    requires r.CompletesOnce() && r.CaptureEnabled()
    modifies r
    ensures r.CompletesOnce()
  {
    r.HandleCapture();
  }

  method ResolveKeepsInvariant(r: Registration, descriptor: Option<Descriptor>)
    requires r.CompletesOnce() && r.isCapturing
    modifies r
    ensures r.CompletesOnce()
  {
    r.CaptureResolved(descriptor);
  }

  method ResetKeepsInvariant(r: Registration)
    requires r.CompletesOnce() && r.ResetVisible()
    modifies r
    ensures r.CompletesOnce()
  {
    r.HandleReset();
  }

  method CompletionTimerKeepsInvariant(r: Registration)
    requires r.CompletesOnce() && r.pendingCompletions != []
    modifies r
    ensures r.CompletesOnce()
  {
    var before := r.completions + r.pendingCompletions;
    r.FireCompletionTimer();
    assert r.completions + r.pendingCompletions == before;
  }

  method CorrectedRevertKeepsInvariant(r: Registration)
    requires r.CompletesOnce() && r.pendingReverts > 0
    modifies r
    ensures r.CompletesOnce()
  {
    r.FireRevertTimerIfError();
  }

  /** With the timer as written the invariant fails: a failed capture just
      before the last successful one leaves a revert pending, which turns
      "success" back into "idle", enables Capture again, and a sixth capture
      calls `onComplete` a second time, with six descriptors. */
  method DoubleCompletionAsWritten(d: Descriptor) returns (completions: seq<seq<Descriptor>>)
    ensures |completions| == 2
    ensures |completions[0]| == DefaultRequiredCaptures
    ensures |completions[1]| == DefaultRequiredCaptures + 1
  {
    var r := new Registration(DefaultRequiredCaptures);
    var i := 0;
    while i < 4
      invariant 0 <= i <= 4
      invariant |r.capturedDescriptors| == i && !r.isCapturing && r.status == Idle
      invariant r.pendingCompletions == [] && r.completions == [] && r.pendingReverts == 0
    {
      r.HandleCapture();
      r.CaptureResolved(Some(d));
      i := i + 1;
    }
    r.HandleCapture();
    r.CaptureResolved(None);            // face not found: revert scheduled
    r.HandleCapture();
    r.CaptureResolved(Some(d));         // fifth descriptor: "success"
    assert r.status == Success && !r.CaptureEnabled();
    r.FireCompletionTimer();            // first onComplete, five descriptors
    r.FireRevertTimer();                // the stale revert: "success" -> "idle"
    assert r.CaptureEnabled();
    r.HandleCapture();
    r.CaptureResolved(Some(d));         // sixth descriptor: "success" again
    r.FireCompletionTimer();            // second onComplete, six descriptors
    completions := r.completions;
  }
}
