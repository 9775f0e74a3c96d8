/**
  The tracker component's recording bookkeeping: the live progress state the
  one-second tick refreshes, and one capture session at a time, with its
  animation variables, its recorder, the buffer of encoded chunks and the
  files offered for download. The canvas, the encoder and the download link
  are left abstract; what the browser delivers (chunks, the stop event, the
  current time, the outcome of the setup) arrives as method parameters.
 */
module CaptureSession {
  import opened ProgressEngine
  import opened CaptureAnimation
  import opened RecordingFormat

  /** A piece of encoded video delivered by the recorder. */
  type Chunk = seq<bv8>

  /** `MediaRecorder.state`. The component never pauses a recorder. */
  datatype RecorderState = Inactive | Recording | Paused

  /** How far the setup of a capture, which runs inside a try block, gets. */
  datatype SetupOutcome =
    | SetupSucceeds
      /** the canvas, its stream or the recorder cannot be constructed */
    | FailsBeforeRecorder
      /** the new recorder is stored but its `start` throws */
    | FailsAtRecorderStart

  /** A file offered for download: its name, its content type and its bytes. */
  datatype Download = Download(filename: string, mimeType: string, data: seq<bv8>)

  datatype Option<T> = None | Some(value: T)

  /** The recorder stored in the component: its state and the format it was made with. */
  datatype Recorder = Recorder(state: RecorderState, format: Format)

  /**
    The animation variables of one capture: the values captured when it
    started and what the last frame drawn showed.
   */
  datatype Animation = Animation(targetProgress: real, targetDays: nat, animatedProgress: real, animatedDays: nat)

  /** Total number of bytes held by a sequence of chunks. */
  function TotalLength(chunks: seq<Chunk>): nat
  {
    if chunks == [] then 0 else |chunks[0]| + TotalLength(chunks[1..])
  }

  /** The bytes of a blob assembled from chunks, in order. */
  function Concat(chunks: seq<Chunk>): (bytes: seq<bv8>)
    ensures |bytes| == TotalLength(chunks)
    ensures chunks != [] ==> bytes[..|chunks[0]|] == chunks[0]
  {
    if chunks == [] then [] else chunks[0] + Concat(chunks[1..])
  }

  /**
    A chunk appended to the buffer ends the blob: the blob of the longer
    buffer is the old blob followed by the chunk's bytes.
   */
  lemma {:induction false} ConcatAppend(chunks: seq<Chunk>, chunk: Chunk)
    ensures Concat(chunks + [chunk]) == Concat(chunks) + chunk
  {
    if chunks != [] {
      assert (chunks + [chunk])[1..] == chunks[1..] + [chunk];
      ConcatAppend(chunks[1..], chunk);
    }
  }

  class Tracker {
    /** The live percentage and day count the widget shows. */
    var progress: real
    var daysRemaining: nat
    /** Whether a capture is in progress; the capture button is disabled while it is. */
    var isRecording: bool
    /** Encoded chunks of the current capture, in arrival order. */
    var chunks: seq<Chunk>
    /** The most recently stored recorder, if any. */
    var recorder: Option<Recorder>
    /** The recorder has stopped and its `stop` event is yet to be handled. */
    var stopEventPending: bool
    /** Whether the frame-drawing interval is running. */
    var animating: bool
    /** The animation variables of the latest capture. */
    var animation: Animation
    /** Every file offered for download so far. */
    var downloads: seq<Download>
    /** Number of captures whose recorder started. */
    ghost var sessionsStarted: nat

    /** A recorder is stored and recording. */
    predicate RecorderRunning()
      reads this
    {
      recorder.Some? && recorder.value.state == Recording
    }

    ghost predicate Valid()
      reads this
    {
      && 0.0 <= progress <= 100.0
      && 0.0 <= animation.targetProgress <= 100.0
      && (forall i :: 0 <= i < |chunks| ==> |chunks[i]| > 0)
      && (recorder.Some? ==> recorder.value.state != Paused)
      && (stopEventPending ==> recorder.Some? && recorder.value.state == Inactive)
      && (isRecording <==> RecorderRunning() || stopEventPending)
      && (animating <==> RecorderRunning())
      && |downloads| + (if isRecording then 1 else 0) == sessionsStarted
    }

    /** A freshly mounted tracker: nothing shown yet, no recorder, nothing recorded. */
    constructor ()
      ensures Valid()
      ensures progress == 0.0 && daysRemaining == 0
      ensures !isRecording && recorder == None && chunks == [] && downloads == []
    {
      progress, daysRemaining := 0.0, 0;
      isRecording, chunks := false, [];
      recorder, stopEventPending, animating := None, false, false;
      animation := Animation(0.0, 0, 0.0, 0);
      downloads := [];
      sessionsStarted := 0;
    }

    /** One refresh of the live values at instant `now`. */
    method Tick(now: int)
      requires Valid()
      modifies this`progress, this`daysRemaining
      ensures Valid()
      ensures Snapshot(progress, daysRemaining) == UpdateProgress(now)
    {
      var snapshot := UpdateProgress(now);
      progress, daysRemaining := snapshot.percentage, snapshot.daysRemaining;
    }

    /**
      Start a capture. Without the widget's container nothing happens.
      Otherwise the session is marked as recording and the chunk buffer
      emptied; the live values become the animation targets, the format is
      negotiated and the recorder started. A setup failure clears the
      recording flag again.
     */
    method StartCapture(containerPresent: bool, outcome: SetupOutcome, isTypeSupported: string -> bool)
      requires Valid()
      requires !isRecording
      modifies this`isRecording, this`chunks, this`recorder, this`animating, this`animation, this`sessionsStarted
      ensures Valid()
      ensures !containerPresent ==> unchanged(this)
      ensures containerPresent ==> chunks == [] && (isRecording <==> outcome == SetupSucceeds)
      ensures containerPresent && outcome != FailsBeforeRecorder ==>
        && recorder.Some?
        && recorder.value.format == Candidates[FirstSupportedIndex(Candidates, isTypeSupported)]
        && animation == Animation(progress, daysRemaining, 0.0, daysRemaining)
      ensures containerPresent && outcome == SetupSucceeds ==>
        recorder.value.state == Recording && animating && sessionsStarted == old(sessionsStarted) + 1
      ensures containerPresent && outcome == FailsAtRecorderStart ==>
        recorder.value.state == Inactive && !animating && sessionsStarted == old(sessionsStarted)
      ensures containerPresent && outcome == FailsBeforeRecorder ==>
        recorder == old(recorder) && animation == old(animation) && !animating
        && sessionsStarted == old(sessionsStarted)
    {
      // The flag is set on entry and cleared again by the catch block of a
      // failed setup, so only SetUpRecorder leaves it changed.
      if containerPresent {
        chunks := [];
        if outcome != FailsBeforeRecorder {
          SetUpRecorder(isTypeSupported, outcome == SetupSucceeds);
        }
      }
    }

    /**
      The part of the setup that follows the chunk reset: capture the live
      values as animation targets, negotiate the format, store a recorder
      made with it and, when `starts`, start it together with the drawing
      interval. When the start throws, the recorder stays stored but
      inactive and the recording flag ends up cleared.
     */
    method SetUpRecorder(isTypeSupported: string -> bool, starts: bool)
      requires Valid()
      requires !isRecording
      modifies this`isRecording, this`recorder, this`animating, this`animation, this`sessionsStarted
      ensures Valid()
      ensures isRecording == starts && animating == starts
      ensures recorder ==
        Some(Recorder(if starts then Recording else Inactive, Candidates[FirstSupportedIndex(Candidates, isTypeSupported)]))
      ensures animation == Animation(progress, daysRemaining, 0.0, daysRemaining)
      ensures sessionsStarted == old(sessionsStarted) + (if starts then 1 else 0)
    {
      animation := Animation(progress, daysRemaining, 0.0, daysRemaining);
      var chosen := NegotiateFormat(isTypeSupported);
      recorder := Some(Recorder(Inactive, chosen));
      if starts {
        recorder := Some(Recorder(Recording, chosen));
        animating := true;
        isRecording := true;
        sessionsStarted := sessionsStarted + 1;
      }
    }

    /**
      One tick of the frame-drawing interval, `elapsedMs` after the session
      started. When the canvas or the container is gone nothing is drawn;
      otherwise the animated values follow the ramp-then-hold policy and the
      frame drawn shows them.
     */
    method DrawFrame(canDraw: bool, elapsedMs: int) returns (frame: Option<Frame>)
      requires Valid()
      requires animating
      modifies this`animation
      ensures Valid()
      ensures animation.targetProgress == old(animation.targetProgress)
      ensures animation.targetDays == old(animation.targetDays)
      ensures !canDraw ==> frame == None && unchanged(this)
      ensures canDraw ==>
        && animation.animatedProgress == AnimatedProgress(animation.targetProgress, elapsedMs as real / 1000.0)
        && animation.animatedDays == animation.targetDays
        && frame == Some(FrameAt(animation.targetProgress, animation.targetDays, elapsedMs))
    {
      if !canDraw {
        return None;
      }
      var target, targetDays := animation.targetProgress, animation.targetDays;
      var elapsedSeconds := elapsedMs as real / 1000.0;
      var duration := RampDuration(target);
      var animatedProgress, animatedDays;
      if elapsedSeconds <= duration {
        animatedProgress := RampValue(elapsedSeconds, duration, target);
        animatedDays := targetDays;
      } else {
        animatedProgress := target;
        animatedDays := targetDays;
      }
      animation := animation.(animatedProgress := animatedProgress, animatedDays := animatedDays);
      frame := Some(Frame(animatedProgress, animatedDays, FillWidth(animatedProgress)));
    }

    /** The recorder delivers a chunk: only a non-empty one is kept, at the end. */
    method DataAvailable(data: Chunk)
      requires Valid()
      modifies this`chunks
      ensures Valid()
      ensures chunks == old(chunks) + (if |data| > 0 then [data] else [])
    {
      if |data| > 0 {
        chunks := chunks + [data];
      }
    }

    /**
      The 20-second timeout: the drawing interval is cleared, and the
      recorder is told to stop only if it is still recording, so a repeated
      stop changes nothing else.
     */
    method StopTimeout()
      requires Valid()
      modifies this`animating, this`recorder, this`stopEventPending
      ensures Valid()
      ensures !animating
      ensures old(RecorderRunning()) ==>
        recorder == Some(old(recorder.value).(state := Inactive)) && stopEventPending
      ensures !old(RecorderRunning()) ==>
        recorder == old(recorder) && stopEventPending == old(stopEventPending)
    {
      animating := false;
      if recorder.Some? && recorder.value.state == Recording {
        recorder := Some(recorder.value.(state := Inactive));
        stopEventPending := true;
      }
    }

    /**
      The recorder's `stop` event, at the instant whose ISO form is
      `isoNow`: the buffered chunks become one file of the negotiated type,
      named after the capture date, and the recording flag is cleared.
     */
    method OnStop(isoNow: string)
      requires Valid()
      requires stopEventPending
      modifies this`downloads, this`isRecording, this`stopEventPending
      ensures Valid()
      ensures !isRecording && !stopEventPending
      ensures
        var mimeType := recorder.value.format.mimeType;
        downloads == old(downloads) + [Download(Filename(isoNow, Extension(mimeType)), mimeType, Concat(chunks))]
    {
      var mimeType := recorder.value.format.mimeType;
      var file := Download(Filename(isoNow, Extension(mimeType)), mimeType, Concat(chunks));
      downloads := downloads + [file];
      stopEventPending := false;
      isRecording := false;
    }
  }
}
