/** The class of agent/livekit/agents/voice/speech_handle.py, over the handle values of the speech machine. */
module SpeechHandles {
  import opened Subsequences
  import opened SpeechMachine

  class SpeechHandle {
    const id: HandleId
    var interruptFut: bool
    var doneFut: bool
    var scheduledFut: bool
    var authorizeEvent: bool
    var generations: seq<bool>
    var numSteps: nat
    var tasks: seq<TaskId>

    ghost function Value(): Handle
      reads `interruptFut, `doneFut, `scheduledFut, `authorizeEvent, `generations, `numSteps
    {
      Handle(interruptFut, doneFut, scheduledFut, authorizeEvent, generations, numSteps)
    }

    constructor (id: HandleId)
      ensures this.id == id && Value() == NEW_HANDLE && tasks == []
    {
      this.id := id;
      interruptFut, doneFut, scheduledFut, authorizeEvent := false, false, false, false;
      generations, numSteps, tasks := [], 1, [];
    }

    method AuthorizeGeneration()
      modifies `generations, `authorizeEvent
      ensures Value() == Authorize(old(Value()))
    {
      generations := generations + [false];
      authorizeEvent := true;
    }

    method ClearAuthorization()
      modifies `authorizeEvent
      ensures Value() == old(Value()).(authorized := false)
    {
      authorizeEvent := false;
    }

    /** Raises, `ok` false, when there is no generation; setting a result twice is suppressed. */
    method MarkGenerationIsDone() returns (ok: bool)
      modifies `generations
      ensures ok <==> old(generations) != []
      ensures Value() == MarkGenerationDone(old(Value()))
    {
      if generations == [] {
        return false;
      }
      generations := generations[|generations| - 1 := true];
      assert generations == DropLast(old(generations)) + [true];
      ok := true;
    }

    /** A second call raises inside the suppressed block and changes nothing. */
    method MarkIsDone()
      modifies `doneFut, `generations
      ensures Value() == MarkDone(old(Value()))
    {
      if doneFut {
        return;
      }
      doneFut := true;
      if generations != [] {
        var _ := MarkGenerationIsDone();
      }
    }

    method MarkScheduled()
      modifies `scheduledFut
      ensures Value() == old(Value()).(scheduled := true)
    {
      scheduledFut := true;
    }

    method CancelSpeech()
      modifies `interruptFut
      ensures Value() == Cancel(old(Value()))
    {
      if doneFut {
        return;
      }
      interruptFut := true;
    }
  }
}
